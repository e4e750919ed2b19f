/**
 * Properties of the documentation comments the .NET generator writes: the
 * shape of one serialised tag, the shape and order of the attribute blocks
 * in the remarks, when the remarks are empty, and that every line written is
 * a `///` comment.
 */
module DocProperties {
  import opened Strings
  import opened Jsii
  import opened External
  import opened DotNetDocs

  // ---------------------------------------------------------------------
  // Vocabulary

  /** A line of a C# documentation comment. */
  predicate IsComment(line: string) {
    |line| >= 3 && line[..3] == "///"
  }

  predicate AllComments(lines: seq<string>) {
    forall i :: 0 <= i < |lines| ==> IsComment(lines[i])
  }

  predicate AllBlank(lines: seq<string>) {
    forall k :: 0 <= k < |lines| ==> lines[k] == ""
  }

  /** A line that opens an attribute block. */
  predicate IsLabelLine(line: string) {
    |line| >= 8 && line[..8] == "<strong>"
  }

  /**
   * How one serialised line `part` of a `tag` element is written as `line`:
   * after `/// ` comes the line with no trailing whitespace; outside `code`
   * it is a contiguous middle of `part` with only whitespace around it, has
   * no leading whitespace either and vanishes exactly when `part` is blank;
   * inside `code` it is `part` with only its trailing whitespace removed, so
   * indentation survives.
   */
  predicate WrittenAs(tag: string, line: string, part: string) {
    && |line| >= 4 && line[..4] == "/// "
    && var body := line[4..];
    && (body == [] || !IsWhitespace(body[|body| - 1]))
    && (tag != "code" ==>
          && (exists i :: 0 <= i && i + |body| <= |part| && body == part[i..i + |body|]
                && AllWhitespace(part[..i]) && AllWhitespace(part[i + |body|..]))
          && (body == [] || !IsWhitespace(body[0]))
          && (body == [] <==> AllWhitespace(part)))
    && (tag == "code" ==> |body| <= |part| && body == part[..|body|] && AllWhitespace(part[|body|..]))
  }

  lemma AllCommentsAppend(a: seq<string>, b: seq<string>)
    requires AllComments(a) && AllComments(b)
    ensures AllComments(a + b)
  {
    forall i | 0 <= i < |a + b| ensures IsComment((a + b)[i]) {
      if i >= |a| { assert (a + b)[i] == b[i - |a|]; }
    }
  }

  lemma AllBlankAppend(a: seq<string>, b: seq<string>)
    ensures AllBlank(a + b) <==> AllBlank(a) && AllBlank(b)
  {
    if AllBlank(a + b) {
      forall k | 0 <= k < |a| ensures a[k] == "" { assert (a + b)[k] == a[k]; }
      forall k | 0 <= k < |b| ensures b[k] == "" { assert (a + b)[|a| + k] == b[k]; }
    }
    if AllBlank(a) && AllBlank(b) {
      forall k | 0 <= k < |a + b| ensures (a + b)[k] == "" {
        if k >= |a| { assert (a + b)[k] == b[k - |a|]; }
      }
    }
  }

  // ---------------------------------------------------------------------
  // Tag emitter

  /** One serialised line, commented for `tag`. */
  lemma CommentLineShape(tag: string, part: string)
    ensures WrittenAs(tag, CommentLine(tag, part), part)
  {
    var line := CommentLine(tag, part);
    var body := TrimXmlLine(tag, part);
    assert line[..4] == "/// " && line[4..] == body;
    if tag != "code" {
      TrimRemovesWhitespace(part);
    } else {
      TrimRightRemovesTrailingWhitespace(part);
      forall k | 0 <= k < |part[|body|..]| ensures IsWhitespace(part[|body|..][k]) {
        assert part[|body|..][k] == part[|body| + k];
      }
    }
  }

  /**
   * `emitXmlDoc` writes nothing for empty content, and otherwise exactly
   * one line per line of the serialised element, each written as
   * `WrittenAs` describes.
   */
  lemma XmlDocLinesShape(env: Env, tag: string, content: string, attributes: seq<(string, string)>)
    ensures var r := XmlDocLines(env, tag, content, attributes);
      && (r == [] <==> content == "")
      && (content != "" ==>
            var parts := Split(env.serialize(tag, content, attributes), LF);
            |r| == |parts| && forall i :: 0 <= i < |r| ==> WrittenAs(tag, r[i], parts[i]))
  {
    if content != "" {
      var parts := Split(env.serialize(tag, content, attributes), LF);
      CommentLinesAt(tag, parts);
      forall i | 0 <= i < |parts| ensures WrittenAs(tag, CommentLines(tag, parts)[i], parts[i]) {
        CommentLineShape(tag, parts[i]);
      }
    }
  }

  lemma XmlDocLinesAreComments(env: Env, tag: string, content: string, attributes: seq<(string, string)>)
    ensures AllComments(XmlDocLines(env, tag, content, attributes))
  {
    XmlDocLinesShape(env, tag, content, attributes);
    var r := XmlDocLines(env, tag, content, attributes);
    forall i | 0 <= i < |r| ensures IsComment(r[i]) {
      assert r[i][..3] == r[i][..4][..3];
    }
  }

  // ---------------------------------------------------------------------
  // Parameters

  /**
   * A parameter gets a `param` tag exactly when it has a non-empty summary,
   * named after the converted name with one leading `@` removed.
   */
  lemma ParamLinesPresent(env: Env, p: Parameter)
    ensures ParamLines(env, p) == [] <==> ParamSummary(p) == ""
    ensures var n := env.nameutils.convertParameterName(p.name);
      && ("@" + ParamName(env, p) == n <==> |n| > 0 && n[0] == '@')
      && (ParamName(env, p) == n <==> !(|n| > 0 && n[0] == '@'))
  {
    XmlDocLinesShape(env, "param", ParamSummary(p), [("name", ParamName(env, p))]);
  }

  /** Only one slug is removed: a doubled `@` keeps the second. */
  lemma StripSlugOnce(name: string)
    ensures StripSlug("@" + name) == name
    ensures StripSlug("@@" + name) == "@" + name
  {
    assert ("@@" + name)[1..] == "@" + name;
  }

  lemma {:induction false} ParamsLinesAreComments(env: Env, ps: seq<Parameter>)
    ensures AllComments(ParamsLines(env, ps))
  {
    if ps != [] {
      var p := ps[|ps| - 1];
      ParamsLinesAreComments(env, ps[..|ps| - 1]);
      XmlDocLinesAreComments(env, "param", ParamSummary(p), [("name", ParamName(env, p))]);
      AllCommentsAppend(ParamsLines(env, ps[..|ps| - 1]), ParamLines(env, p));
    }
  }

  // ---------------------------------------------------------------------
  // Attribute renderer

  /**
   * An attribute block: the label and the first line of `contents`, the
   * other lines of `contents`, and one blank line; taking the label off the
   * first line and joining the lines in between gives `contents` back.
   */
  lemma AttributeBlockShape(name: string, contents: string)
    ensures var b := AttributeLines(name, contents); var n := |Label(name)|;
      && |b| == |Split(contents, LF)| + 1
      && |b[0]| >= n && b[0][..n] == Label(name)
      && IsLabelLine(b[0])
      && b[|b| - 1] == ""
      && Join([b[0][n..]] + b[1..|b| - 1], LF) == contents
  {
    var ls := Split(contents, LF);
    var b := AttributeLines(name, contents);
    var heading := Label(name);
    assert b[0] == heading + ls[0];
    assert b[0][..8] == heading[..8];
    assert [b[0][|heading|..]] + b[1..|b| - 1] == ls;
  }

  /** The label of the default tag: its name capitalised, in bold. */
  lemma DefaultLabel()
    ensures Label("default") == "<strong>Default</strong>: "
  {
    assert "default" == ['d'] + "efault";
  }

  /** The label of the stability tag: its name capitalised, in bold. */
  lemma StabilityLabel()
    ensures Label("stability") == "<strong>Stability</strong>: "
  {
    assert "stability" == ['s'] + "tability";
  }

  /** A block laid out from its label and its content lines. */
  function Block(heading: string, ls: seq<string>): seq<string>
    requires |ls| >= 1
  {
    [heading + ls[0]] + ls[1..] + [""]
  }

  /** A block whose last content line gains a character. */
  lemma BlockExtend(heading: string, ls: seq<string>, qs: seq<string>, c: char)
    requires |ls| >= 1 && |qs| == |ls|
    requires qs[..|qs| - 1] == ls[..|ls| - 1] && qs[|qs| - 1] == ls[|ls| - 1] + [c]
    ensures var b := Block(heading, ls); var e := Block(heading, qs);
      && |e| == |b| && e[..|e| - 2] == b[..|b| - 2]
      && e[|e| - 2] == b[|b| - 2] + [c] && e[|e| - 1] == ""
  {
    var b := Block(heading, ls);
    var e := Block(heading, qs);
    if |ls| == 1 {
      assert e[0] == (heading + ls[0]) + [c];
    } else {
      assert qs[0] == ls[0];
      assert e[|e| - 2] == qs[|qs| - 1];
      assert b[|b| - 2] == ls[|ls| - 1];
      assert e[..|e| - 2] == [heading + qs[0]] + qs[..|qs| - 1][1..];
      assert b[..|b| - 2] == [heading + ls[0]] + ls[..|ls| - 1][1..];
    }
  }

  /** Appending a character other than the separator to the contents extends the block's last content line. */
  lemma AttributeLinesAppend(name: string, value: string, c: char)
    requires c != LF
    ensures var b := AttributeLines(name, value);
      var e := AttributeLines(name, value + [c]);
      && |e| == |b| && e[..|e| - 2] == b[..|b| - 2]
      && e[|e| - 2] == b[|b| - 2] + [c] && e[|e| - 1] == ""
  {
    SplitAppend(value, LF, c);
    BlockExtend(Label(name), Split(value, LF), Split(value + [c], LF), c);
  }

  /**
   * A `link` custom tag is rendered with one extra space after its last
   * line; every other key is rendered with its value unchanged.
   */
  lemma LinkGetsOneTrailingSpace(key: string, value: string)
    ensures key != "link" ==> AttributeLines(key, CustomValue(key, value)) == AttributeLines(key, value)
    ensures key == "link" ==>
      var b := AttributeLines(key, value);
      var c := AttributeLines(key, CustomValue(key, value));
      && |c| == |b| && c[..|c| - 2] == b[..|b| - 2]
      && c[|c| - 2] == b[|b| - 2] + " " && c[|c| - 1] == ""
  {
    if key == "link" {
      assert CustomValue(key, value) == value + [' '];
      AttributeLinesAppend(key, value, ' ');
    } else {
      assert CustomValue(key, value) == value;
    }
  }

  /** Once written, the extra space of a `link` block is trimmed away again. */
  lemma LinkSpaceInvisible(line: string)
    ensures RemarkLine(line + " ") == RemarkLine(line)
  {
    assert "/// " + (line + " ") == ("/// " + line) + " ";
    TrimRightIgnoresAddedWhitespace("/// " + line, " ");
  }

  /** A block with one more content line at the end. */
  lemma BlockSnoc(heading: string, ls: seq<string>, q: string)
    requires |ls| >= 1
    ensures var b := Block(heading, ls);
      Block(heading, ls + [q]) == b[..|b| - 1] + [q, ""]
  {
    var b := Block(heading, ls);
    var ms := ls + [q];
    assert ms[0] == ls[0] && ms[1..] == ls[1..] + [q];
    assert b[..|b| - 1] == [heading + ls[0]] + ls[1..];
  }

  /** A value followed by a line break and `q`: the block's content lines, then `q`. */
  lemma BreakBlock(key: string, v: string, q: string)
    requires LF !in q
    ensures var b := AttributeLines(key, v);
      AttributeLines(key, v + "\n" + q) == b[..|b| - 1] + [q, ""]
  {
    SplitSnoc(v, LF, q);
    assert v + [LF] + q == v + "\n" + q;
    BlockSnoc(Label(key), Split(v, LF), q);
  }

  /**
   * A value followed by a line break: the block gains one empty content
   * line; with one more character after the break, that character forms the
   * last content line.
   */
  lemma TrailingBreakBlocks(key: string, v: string, c: char)
    requires c != LF
    ensures AttributeLines(key, v + "\n") == AttributeLines(key, v) + [""]
    ensures var b := AttributeLines(key, v);
      AttributeLines(key, v + "\n" + [c]) == b[..|b| - 1] + [[c], ""]
  {
    var b := AttributeLines(key, v);
    BreakBlock(key, v, "");
    assert v + "\n" + "" == v + "\n";
    assert b[..|b| - 1] + ["", ""] == b + [""];
    BreakBlock(key, v, [c]);
  }

  /** The first line of a block is never empty: it holds the label. */
  lemma BlockOpensVisibly(key: string, v: string)
    ensures |AttributeLines(key, v)| >= 2 && AttributeLines(key, v)[0] != ""
    ensures AttributeLines(key, v)[|AttributeLines(key, v)| - 1] == ""
  {
    var b := AttributeLines(key, v);
    assert b[0] == Label(key) + Split(v, LF)[0];
    assert Label(key)[0] == '<';
  }

  /** A non-empty line before the final separator survives the stripping. */
  lemma SpaceLineKept(b: seq<string>)
    requires |b| >= 2 && b[0] != ""
    ensures TrimBlankLines(b[..|b| - 1] + [" ", ""]) == b[..|b| - 1] + [" "]
  {
    var s := b[..|b| - 1] + [" ", ""];
    assert s[0] == b[0];
    TrailingBlankCountIs(s, 1);
    TrimBlankLinesFromNonBlank(s, 1);
    assert s[..|s| - 1] == b[..|b| - 1] + [" "];
  }

  /** One more empty line at the end is stripped with the others. */
  lemma EmptyLineStripped(b: seq<string>)
    requires |b| >= 1 && b[0] != ""
    ensures TrimBlankLines(b + [""]) == TrimBlankLines(b)
  {
    var s := b + [""];
    var m := TrailingBlankCount(b);
    TrailingBlankCountSpec(b);
    assert m < |b|;
    assert s[|s| - 1 - (m + 1)] == b[|b| - 1 - m];
    TrailingBlankCountIs(s, m + 1);
    TrimBlankLinesFromNonBlank(s, m + 1);
    TrimBlankLinesFromNonBlank(b, m);
    assert s[..|s| - (m + 1)] == b[..|b| - m];
  }

  /**
   * When a `link` value ends with a line break, its extra space lands on a
   * line of its own, which is not empty and so is not stripped with the
   * trailing blank lines: the block keeps all its content lines, then `" "`.
   * Under any other key the break only adds an empty line, which the
   * stripping removes.
   */
  lemma LinkSpaceSurvivesBlankTrimming(key: string, v: string)
    ensures var b := AttributeLines(key, v);
      key == "link" ==>
        TrimBlankLines(AttributeLines(key, CustomValue(key, v + "\n"))) == b[..|b| - 1] + [" "]
    ensures key != "link" ==>
      TrimBlankLines(AttributeLines(key, CustomValue(key, v + "\n"))) == TrimBlankLines(AttributeLines(key, v))
  {
    var b := AttributeLines(key, v);
    BlockOpensVisibly(key, v);
    if key == "link" {
      assert CustomValue(key, v + "\n") == v + "\n" + " ";
      BreakBlock(key, v, " ");
      SpaceLineKept(b);
    } else {
      assert CustomValue(key, v + "\n") == v + "\n";
      TrailingBreakBlocks(key, v, ' ');
      EmptyLineStripped(b);
    }
  }

  /** Stability is mentioned only for deprecated and experimental elements. */
  lemma StabilityMentioned(env: Env, docs: Docs)
    ensures StabilityLines(env, docs) != [] <==>
      docs.stability == Some(Deprecated) || docs.stability == Some(Experimental)
    ensures docs.stability == Some(Deprecated) ==>
      StabilityLines(env, docs) == AttributeLines("stability", env.nameutils.capitalizeWord("deprecated"))
    ensures docs.stability == Some(Experimental) ==>
      StabilityLines(env, docs) == AttributeLines("stability", env.nameutils.capitalizeWord("experimental"))
  {
  }

  /** A non-empty run of custom blocks opens with the first entry's label. */
  lemma {:induction false} CustomLinesEnds(entries: seq<(string, string)>)
    ensures CustomLines(entries) == [] <==> entries == []
    ensures entries != [] ==>
      var c := CustomLines(entries);
      IsLabelLine(c[0]) && c[|c| - 1] == ""
  {
    if entries != [] {
      var (k, v) := entries[|entries| - 1];
      AttributeBlockShape(k, CustomValue(k, v));
      CustomLinesEnds(entries[..|entries| - 1]);
    }
  }

  /**
   * The attribute region is empty exactly when no tag is present: no
   * non-empty default, no stability worth mentioning, no non-empty see, not
   * subclassable, no custom tags.
   */
  lemma RegionEmptyIff(env: Env, docs: Docs)
    ensures AttributeRegion(env, docs) == [] <==>
      && !Truthy(docs.defaultValue)
      && !(docs.stability.Some? && ShouldMentionStability(docs.stability.value))
      && !Truthy(docs.see)
      && docs.subclassable != Some(true)
      && CustomEntries(docs) == []
  {
    CustomLinesEnds(CustomEntries(docs));
    assert TagLines(env, docs) == [] <==>
      DefaultLines(docs) == [] && StabilityLines(env, docs) == [] && SeeLines(docs) == [] && SubclassableLines(docs) == [];
  }

  /** A block of the region is never empty, so the region opens with a label and closes with a blank. */
  lemma RegionEnds(env: Env, docs: Docs)
    ensures var r := AttributeRegion(env, docs);
      r != [] ==> IsLabelLine(r[0]) && r[|r| - 1] == ""
  {
    var d := DefaultLines(docs);
    var s := StabilityLines(env, docs);
    var e := SeeLines(docs);
    var u := SubclassableLines(docs);
    var c := CustomLines(CustomEntries(docs));
    var blocks := [d, s, e, u, c];
    forall j | 0 <= j < 5 && blocks[j] != []
      ensures IsLabelLine(blocks[j][0]) && blocks[j][|blocks[j]| - 1] == ""
    {
      if j == 0 { AttributeBlockShape("default", docs.defaultValue.value); }
      else if j == 1 {
        AttributeBlockShape("stability", env.nameutils.capitalizeWord(StabilityName(docs.stability.value)));
      }
      else if j == 2 { AttributeBlockShape("see", docs.see.value); }
      else if j == 3 { AttributeBlockShape("subclassable", ""); }
      else { CustomLinesEnds(CustomEntries(docs)); }
    }
    FirstAndLast(blocks);
  }

  /** Concatenating blocks that each open with a heading and close with a blank. */
  lemma FirstAndLast(blocks: seq<seq<string>>)
    requires |blocks| == 5
    requires forall j :: 0 <= j < 5 && blocks[j] != [] ==>
      IsLabelLine(blocks[j][0]) && blocks[j][|blocks[j]| - 1] == ""
    ensures var r := blocks[0] + blocks[1] + blocks[2] + blocks[3] + blocks[4];
      r != [] ==> IsLabelLine(r[0]) && r[|r| - 1] == ""
  {
    var ab := blocks[0] + blocks[1];
    OpensAndCloses(blocks[0], blocks[1]);
    var abc := ab + blocks[2];
    OpensAndCloses(ab, blocks[2]);
    var abcd := abc + blocks[3];
    OpensAndCloses(abc, blocks[3]);
    OpensAndCloses(abcd, blocks[4]);
  }

  lemma OpensAndCloses(a: seq<string>, b: seq<string>)
    requires a != [] ==> IsLabelLine(a[0]) && a[|a| - 1] == ""
    requires b != [] ==> IsLabelLine(b[0]) && b[|b| - 1] == ""
    ensures var r := a + b; r != [] ==> IsLabelLine(r[0]) && r[|r| - 1] == ""
  {
  }

  // ---------------------------------------------------------------------
  // Remarks composer

  /** Blank lines after the last non-blank line are unaffected by what comes before. */
  lemma TrailingBlankCountAppend(a: seq<string>, b: seq<string>)
    requires |b| > 0 && b[0] != ""
    ensures TrailingBlankCount(a + b) == TrailingBlankCount(b)
  {
    var n := TrailingBlankCount(b);
    TrailingBlankCountSpec(b);
    assert n < |b|;
    var s := a + b;
    forall k | |s| - n <= k < |s| ensures s[k] == "" {
      assert s[k] == b[k - |a|];
    }
    assert s[|s| - 1 - n] == b[|b| - 1 - n];
    TrailingBlankCountIs(s, n);
  }

  /** With a non-blank first line, trimming blank lines only shortens the end. */
  lemma TrimBlankLinesFromNonBlank(s: seq<string>, n: nat)
    requires |s| > 0 && s[0] != ""
    requires TrailingBlankCount(s) == n
    ensures TrimBlankLines(s) == s[..|s| - n]
  {
    LeadingBlankCountIs(s, 0);
    assert s[0..] == s;
  }

  /**
   * The remarks are empty exactly when there is no remarks text (or it
   * translates to blank lines only) and no attribute tag is present.
   */
  lemma RemarksEmptyIff(env: Env, docs: Docs, loc: ApiLocation)
    ensures RemarksLines(env, docs, loc) == [] <==>
      && (!Truthy(docs.remarks) || AllBlank(TranslateMarkdown(env, docs.remarks.value, loc)))
      && AttributeRegion(env, docs) == []
  {
    var text := RemarksTextLines(env, docs, loc);
    var region := AttributeRegion(env, docs);
    TrimBlankLinesSpec(text + region);
    AllBlankAppend(text, region);
    if Truthy(docs.remarks) {
      AllBlankAppend(TranslateMarkdown(env, docs.remarks.value, loc), [""]);
    }
    RegionEnds(env, docs);
  }

  /** Dropping the last `k` elements of `a + b` drops them from `b`. */
  lemma DropLast<T>(a: seq<T>, b: seq<T>, k: nat)
    requires k <= |b|
    ensures (a + b)[..|a + b| - k] == a + b[..|b| - k]
  {
  }

  /** The region ends in at least one blank line, and not only in blank lines. */
  lemma RegionTrailingBlanks(env: Env, docs: Docs)
    requires AttributeRegion(env, docs) != []
    ensures var region := AttributeRegion(env, docs);
      1 <= TrailingBlankCount(region) < |region| && IsLabelLine(region[0])
  {
    RegionEnds(env, docs);
    TrailingBlankCountSpec(AttributeRegion(env, docs));
  }

  /** Lines after a visible one do not change the leading count. */
  lemma LeadingBlankCountPrefix(t: seq<string>, u: seq<string>)
    requires !AllBlank(t)
    ensures LeadingBlankCount(t + u) == LeadingBlankCount(t)
  {
    var m := LeadingBlankCount(t);
    LeadingBlankCountSpec(t);
    var j :| 0 <= j < |t| && t[j] != "";
    assert m <= j;
    var s := t + u;
    forall k | 0 <= k < m ensures s[k] == "" {
      assert s[k] == t[k];
    }
    assert s[m] == t[m];
    LeadingBlankCountIs(s, m);
  }

  /**
   * Remarks text with a visible line, the separator, then a region that
   * opens visibly: the text loses its leading empty lines and the region its
   * trailing ones; everything in between stays.
   */
  lemma TrimTextSepRegion(t: seq<string>, region: seq<string>)
    requires |region| > 0 && region[0] != ""
    requires !AllBlank(t)
    ensures TrimBlankLines(t + [""] + region) ==
      t[LeadingBlankCount(t)..] + [""] + region[..|region| - TrailingBlankCount(region)]
  {
    var m := LeadingBlankCount(t);
    var n := TrailingBlankCount(region);
    var s := t + [""] + region;
    AppendAssoc(t, [""], region);
    LeadingBlankCountPrefix(t, [""] + region);
    var front := t[m..] + [""];
    assert s[m..] == front + region;
    TrailingBlankCountAppend(front, region);
    DropLast(front, region, n);
  }

  /** Remarks text of empty lines only vanishes together with the separator. */
  lemma TrimBlanksSepRegion(t: seq<string>, region: seq<string>)
    requires |region| > 0 && region[0] != ""
    requires AllBlank(t)
    ensures TrimBlankLines(t + [""] + region) == region[..|region| - TrailingBlankCount(region)]
  {
    var s := t + [""] + region;
    var m := |t| + 1;
    forall k | 0 <= k < m ensures s[k] == "" {
      if k < |t| {
        assert s[k] == t[k];
      }
    }
    assert s[m] == region[0];
    LeadingBlankCountIs(s, m);
    assert s[m..] == region;
  }

  /** The remarks as the stripping of the text stage followed by the region. */
  lemma RemarksUnfold(env: Env, docs: Docs, loc: ApiLocation)
    ensures RemarksLines(env, docs, loc) ==
      TrimBlankLines(RemarksTextLines(env, docs, loc) + AttributeRegion(env, docs))
  {
  }

  /** With remarks text and at least one tag: the text part of `RemarksLayout`. */
  lemma RemarksTextLayout(env: Env, docs: Docs, loc: ApiLocation)
    requires AttributeRegion(env, docs) != [] && Truthy(docs.remarks)
    ensures var region := AttributeRegion(env, docs);
      var n := TrailingBlankCount(region);
      var t := TranslateMarkdown(env, docs.remarks.value, loc);
      && (AllBlank(t) ==> RemarksLines(env, docs, loc) == region[..|region| - n])
      && (!AllBlank(t) ==> RemarksLines(env, docs, loc) == t[LeadingBlankCount(t)..] + [""] + region[..|region| - n])
  {
    var region := AttributeRegion(env, docs);
    RegionTrailingBlanks(env, docs);
    var t := TranslateMarkdown(env, docs.remarks.value, loc);
    RemarksUnfold(env, docs, loc);
    assert RemarksTextLines(env, docs, loc) == t + [""];
    assert RemarksLines(env, docs, loc) == TrimBlankLines(t + [""] + region);
    if AllBlank(t) {
      TrimBlanksSepRegion(t, region);
    } else {
      TrimTextSepRegion(t, region);
    }
  }

  /**
   * The layout of remarks that have tags: the translated remarks text
   * without its leading empty lines, then exactly one blank line, then the
   * attribute blocks in order, without the blank lines at the very end (at
   * least the last block's separator). Remarks that are absent or translate
   * to empty lines only leave the attribute blocks alone.
   */
  lemma RemarksLayout(env: Env, docs: Docs, loc: ApiLocation)
    requires AttributeRegion(env, docs) != []
    ensures var region := AttributeRegion(env, docs);
      var n := TrailingBlankCount(region);
      && 1 <= n < |region| && IsLabelLine(region[0])
      && (!Truthy(docs.remarks) ==> RemarksLines(env, docs, loc) == region[..|region| - n])
      && (Truthy(docs.remarks) ==>
            var t := TranslateMarkdown(env, docs.remarks.value, loc);
            && (AllBlank(t) ==> RemarksLines(env, docs, loc) == region[..|region| - n])
            && (!AllBlank(t) ==>
                  RemarksLines(env, docs, loc) == t[LeadingBlankCount(t)..] + [""] + region[..|region| - n]))
  {
    var region := AttributeRegion(env, docs);
    RegionTrailingBlanks(env, docs);
    if Truthy(docs.remarks) {
      RemarksTextLayout(env, docs, loc);
    } else {
      RemarksUnfold(env, docs, loc);
      assert RemarksTextLines(env, docs, loc) + region == region;
      TrimBlankLinesFromNonBlank(region, TrailingBlankCount(region));
    }
  }

  /** The attribute region of a deprecated element whose only other tag is a one-line default. */
  lemma DeprecatedWithDefaultRegion(env: Env, docs: Docs, d: string)
    requires docs.defaultValue == Some(d) && d != "" && LF !in d
    requires docs.stability == Some(Deprecated)
    requires docs.see.None? && docs.subclassable.None? && docs.custom.None?
    requires LF !in env.nameutils.capitalizeWord("deprecated")
    ensures AttributeRegion(env, docs) ==
      [Label("default") + d, "", Label("stability") + env.nameutils.capitalizeWord("deprecated"), ""]
  {
    var word := env.nameutils.capitalizeWord("deprecated");
    assert Split(d, LF) == [d];
    assert Split(word, LF) == [word];
  }

  /**
   * A deprecated element with single-line remarks and a single-line default:
   * the text, a blank, the default, a blank, the stability line.
   */
  lemma DeprecatedWithDefault(env: Env, docs: Docs, loc: ApiLocation, text: string, d: string)
    requires Truthy(docs.remarks)
    requires env.markDownToXmlDoc(ConvertSamplesInMarkdown(env, docs.remarks.value, loc)) == text
    requires text != "" && LF !in text
    requires docs.defaultValue == Some(d) && d != "" && LF !in d
    requires docs.stability == Some(Deprecated)
    requires docs.see.None? && docs.subclassable.None? && docs.custom.None?
    requires LF !in env.nameutils.capitalizeWord("deprecated")
    ensures RemarksLines(env, docs, loc) ==
      [text, "", "<strong>Default</strong>: " + d, "", "<strong>Stability</strong>: " + env.nameutils.capitalizeWord("deprecated")]
  {
    var word := env.nameutils.capitalizeWord("deprecated");
    assert TranslateMarkdown(env, docs.remarks.value, loc) == [text];
    DeprecatedWithDefaultRegion(env, docs, d);
    var region := AttributeRegion(env, docs);
    TrailingBlankCountIs(region, 1);
    LeadingBlankCountIs([text], 0);
    assert [text][0..] == [text];
    RemarksLayout(env, docs, loc);
    DefaultLabel();
    StabilityLabel();
    FiveLines(text, Label("default") + d, Label("stability") + word);
  }

  lemma FiveLines(text: string, first: string, second: string)
    ensures [text] + [""] + [first, "", second, ""][..3] == [text, "", first, "", second]
  {
  }

  // ---------------------------------------------------------------------
  // Doc orchestrator

  /** One remarks line is a comment without trailing whitespace; a line ending visibly is kept whole. */
  lemma RemarkLineShape(r: string)
    ensures IsComment(RemarkLine(r))
    ensures var l := RemarkLine(r); !IsWhitespace(l[|l| - 1])
    ensures |r| > 0 && !IsWhitespace(r[|r| - 1]) ==> RemarkLine(r) == "/// " + r
  {
    assert "/// " + r == "///" + (" " + r);
    TrimRightKeepsPrefix("///", " " + r);
    TrimRightRemovesTrailingWhitespace("/// " + r);
  }

  lemma {:induction false} RemarkLinesAt(rs: seq<string>)
    ensures |RemarkLines(rs)| == |rs|
    ensures forall i :: 0 <= i < |rs| ==> RemarkLines(rs)[i] == RemarkLine(rs[i])
  {
    if rs != [] {
      RemarkLinesAt(rs[..|rs| - 1]);
    }
  }

  /** A remarks block: the markers around one comment line per remarks line. */
  lemma RemarksBlockShape(rs: seq<string>)
    ensures var b := RemarksBlock(rs);
      && |b| == |rs| + 2
      && b[0] == "/// <remarks>" && b[|b| - 1] == "/// </remarks>"
      && (forall i :: 0 <= i < |rs| ==> b[i + 1] == RemarkLine(rs[i]))
      && AllComments(b)
  {
    RemarkLinesAt(rs);
    var b := RemarksBlock(rs);
    forall i | 0 <= i < |b| ensures IsComment(b[i]) {
      if 0 < i < |b| - 1 {
        assert b[i] == RemarkLine(rs[i - 1]);
        RemarkLineShape(rs[i - 1]);
      }
    }
  }

  /**
   * `emitMarkdownAsRemarks` writes nothing for absent or empty markdown, and
   * otherwise one comment line per line of the translated markdown, blank
   * lines included, between the remarks markers.
   */
  lemma MarkdownRemarksShape(env: Env, markdown: Option<string>, loc: ApiLocation)
    ensures !Truthy(markdown) ==> MarkdownRemarksLines(env, markdown, loc) == []
    ensures Truthy(markdown) ==>
      var ls := Split(env.markDownToXmlDoc(ConvertSamplesInMarkdown(env, markdown.value, loc)), LF);
      var b := MarkdownRemarksLines(env, markdown, loc);
      && |b| == |ls| + 2
      && b[0] == "/// <remarks>" && b[|b| - 1] == "/// </remarks>"
      && (forall i :: 0 <= i < |ls| ==> b[i + 1] == RemarkLine(ls[i]))
  {
    if Truthy(markdown) {
      RemarksBlockShape(TranslateMarkdown(env, markdown.value, loc));
    }
  }

  /**
   * The example section: the translated example between example markers,
   * its lines keeping their indentation.
   */
  lemma ExampleSectionShape(env: Env, docs: Docs, loc: ApiLocation)
    ensures !Truthy(docs.example) ==> ExampleSection(env, docs, loc) == []
    ensures Truthy(docs.example) ==>
      var source := env.rosetta.translateExample(loc, docs.example.value, CSharp, env.enforcesStrictMode(env.assembly)).source;
      var e := ExampleSection(env, docs, loc);
      && e[0] == "/// <example>" && e[|e| - 1] == "/// </example>"
      && (source == "" ==> |e| == 2)
      && (source != "" ==>
            var parts := Split(env.serialize("code", source, []), LF);
            |e| == |parts| + 2 && forall i :: 0 <= i < |parts| ==> WrittenAs("code", e[i + 1], parts[i]))
  {
    if Truthy(docs.example) {
      var source := ConvertExample(env, docs.example.value, loc);
      XmlDocLinesShape(env, "code", source, []);
    }
  }

  lemma ExampleSectionAreComments(env: Env, docs: Docs, loc: ApiLocation)
    ensures AllComments(ExampleSection(env, docs, loc))
  {
    if Truthy(docs.example) {
      var body := XmlDocLines(env, "code", ConvertExample(env, docs.example.value, loc), []);
      XmlDocLinesAreComments(env, "code", ConvertExample(env, docs.example.value, loc), []);
      AllCommentsAppend(["/// <example>"], body);
      AllCommentsAppend(["/// <example>"] + body, ["/// </example>"]);
    }
  }

  /** Every line `emitDocs` writes is a `///` documentation comment line. */
  lemma EveryDocLineIsComment(env: Env, obj: Documentable, loc: ApiLocation)
    ensures AllComments(DocLines(env, obj, loc))
  {
    var summary := SummaryLines(env, obj);
    var params := ParamsLines(env, Parameters(obj));
    XmlDocLinesAreComments(env, "summary", env.renderSummary(obj.docs), []);
    ParamsLinesAreComments(env, Parameters(obj));
    AllCommentsAppend(summary, params);
    if obj.docs.Some? {
      var d := obj.docs.value;
      var returnLines := ReturnsLines(env, d);
      if Truthy(d.returnsDoc) { XmlDocLinesAreComments(env, "returns", d.returnsDoc.value, []); }
      var remarks := RemarksSection(env, d, loc);
      var rs := RemarksLines(env, d, loc);
      if |rs| > 0 { RemarksBlockShape(rs); }
      AllCommentsAppend(returnLines, remarks);
      ExampleSectionAreComments(env, d, loc);
      AllCommentsAppend(returnLines + remarks, ExampleSection(env, d, loc));
      AllCommentsAppend(summary + params, DocsSections(env, d, loc));
    } else {
      assert DocLines(env, obj, loc) == summary + params;
    }
  }

  /**
   * Without docs only the summary and the parameters are written; with docs
   * that hold nothing the generator shows (no returns, remarks, default, see
   * or example text, a stability it does not mention, not subclassable, no
   * custom tags), the same.
   */
  lemma OnlySummaryAndParams(env: Env, obj: Documentable, loc: ApiLocation)
    requires obj.docs.Some? ==>
      var d := obj.docs.value;
      && !Truthy(d.returnsDoc) && !Truthy(d.remarks) && !Truthy(d.defaultValue)
      && !(d.stability.Some? && ShouldMentionStability(d.stability.value))
      && !Truthy(d.see) && d.subclassable != Some(true)
      && CustomEntries(d) == [] && !Truthy(d.example)
    ensures DocLines(env, obj, loc) == SummaryLines(env, obj) + ParamsLines(env, Parameters(obj))
  {
    var head := SummaryLines(env, obj) + ParamsLines(env, Parameters(obj));
    if obj.docs.Some? {
      var d := obj.docs.value;
      RegionEmptyIff(env, d);
      RemarksEmptyIff(env, d, loc);
      assert DocsSections(env, d, loc) == [];
    }
    assert head + [] == head;
  }
}
