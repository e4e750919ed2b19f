/**
 * The C# XML documentation comment renderer of the .NET target: it turns
 * the jsii documentation of one API element into an ordered run of `///`
 * lines appended to the shared line writer.
 *
 * The pure part (what is written, as functions of the inputs and of the
 * collaborators in `Env`) comes first; the generator class, whose methods
 * append to the writer and are proved to append exactly those lines,
 * follows. The properties of the rendering are in module `DocProperties`.
 */
module DotNetDocs {
  import opened Strings
  import opened Jsii
  import opened External

  // ---------------------------------------------------------------------
  // Sample translation adapter

  /** `convertExample`: the example translated to C#, source text only. */
  function ConvertExample(env: Env, example: string, loc: ApiLocation): string {
    env.rosetta.translateExample(loc, example, CSharp, env.enforcesStrictMode(env.assembly)).source
  }

  /** `convertSamplesInMarkdown`: code spans in `markdown` translated to C#. */
  function ConvertSamplesInMarkdown(env: Env, markdown: string, loc: ApiLocation): string {
    env.rosetta.translateSnippetsInMarkdown(loc, markdown, CSharp, env.enforcesStrictMode(env.assembly))
  }

  /** Markdown with its samples translated, converted to XML doc text and split into lines. */
  function TranslateMarkdown(env: Env, markdown: string, loc: ApiLocation): seq<string> {
    Split(env.markDownToXmlDoc(ConvertSamplesInMarkdown(env, markdown, loc)), LF)
  }

  // ---------------------------------------------------------------------
  // Tag emitter

  /** A serialised line keeps its leading whitespace only inside a `code` tag. */
  function TrimXmlLine(tag: string, line: string): string {
    if tag != "code" then Trim(line) else TrimRight(line)
  }

  /** One serialised line as written: trimmed for `tag`, prefixed with `/// `. */
  function CommentLine(tag: string, line: string): string {
    "/// " + TrimXmlLine(tag, line)
  }

  /** Every serialised line, in order, as written. */
  function CommentLines(tag: string, xs: seq<string>): (r: seq<string>)
    ensures |r| == |xs|
  {
    if xs == [] then [] else [CommentLine(tag, xs[0])] + CommentLines(tag, xs[1..])
  }

  /** The `i`-th line written is the `i`-th serialised line, commented for `tag`. */
  lemma {:induction false} CommentLinesAt(tag: string, xs: seq<string>)
    ensures forall i :: 0 <= i < |xs| ==> CommentLines(tag, xs)[i] == CommentLine(tag, xs[i])
  {
    if xs != [] {
      CommentLinesAt(tag, xs[1..]);
    }
  }

  /** Commenting one more serialised line adds one line at the end. */
  lemma {:induction false} CommentLinesSnoc(tag: string, xs: seq<string>, x: string)
    ensures CommentLines(tag, xs + [x]) == CommentLines(tag, xs) + [CommentLine(tag, x)]
  {
    if xs != [] {
      assert (xs + [x])[1..] == xs[1..] + [x];
      CommentLinesSnoc(tag, xs[1..], x);
    }
  }

  /** What `emitXmlDoc(tag, content, attributes)` writes. */
  function XmlDocLines(env: Env, tag: string, content: string, attributes: seq<(string, string)>): seq<string> {
    if content == "" then []
    else CommentLines(tag, Split(env.serialize(tag, content, attributes), LF))
  }

  // ---------------------------------------------------------------------
  // Parameters

  /** `.replace(/^@/, '')`: removes one leading `@`, if there is one. */
  function StripSlug(name: string): (r: string)
    ensures name == r || name == "@" + r
    ensures (|name| > 0 && name[0] == '@') <==> |r| == |name| - 1
  {
    if |name| > 0 && name[0] == '@' then name[1..] else name
  }

  /** The `name` attribute of a parameter's `param` tag. */
  function ParamName(env: Env, p: Parameter): string {
    StripSlug(env.nameutils.convertParameterName(p.name))
  }

  /** `param.docs?.summary ?? ''`. */
  function ParamSummary(p: Parameter): string {
    if p.docs.Some? && p.docs.value.summary.Some? then p.docs.value.summary.value else ""
  }

  function ParamLines(env: Env, p: Parameter): seq<string> {
    XmlDocLines(env, "param", ParamSummary(p), [("name", ParamName(env, p))])
  }

  /** The `param` tags of the parameters, in declaration order. */
  function ParamsLines(env: Env, ps: seq<Parameter>): seq<string> {
    if ps == [] then [] else ParamsLines(env, ps[..|ps| - 1]) + ParamLines(env, ps[|ps| - 1])
  }

  // ---------------------------------------------------------------------
  // Attribute renderer

  /** The bold label that opens an attribute block. */
  function Label(name: string): string {
    "<strong>" + UcFirst(name) + "</strong>: "
  }

  /**
   * The block `emitDocAttribute(name, contents)` appends: the label with
   * the first line of `contents`, the other lines as they are, then one
   * blank separator.
   */
  function AttributeLines(name: string, contents: string): seq<string> {
    var ls := Split(contents, LF);
    [Label(name) + ls[0]] + ls[1..] + [""]
  }

  /** Stable and external elements are stable by implication and go unmentioned. */
  predicate ShouldMentionStability(s: Stability): (b: bool)
    ensures b <==> s != Stable && s != External
  {
    s == Deprecated || s == Experimental
  }

  function DefaultLines(docs: Docs): seq<string> {
    if Truthy(docs.defaultValue) then AttributeLines("default", docs.defaultValue.value) else []
  }

  function StabilityLines(env: Env, docs: Docs): seq<string> {
    if docs.stability.Some? && ShouldMentionStability(docs.stability.value)
    then AttributeLines("stability", env.nameutils.capitalizeWord(StabilityName(docs.stability.value)))
    else []
  }

  function SeeLines(docs: Docs): seq<string> {
    if Truthy(docs.see) then AttributeLines("see", docs.see.value) else []
  }

  function SubclassableLines(docs: Docs): seq<string> {
    if docs.subclassable == Some(true) then AttributeLines("subclassable", "") else []
  }

  /** The value a custom tag is rendered with: `link` gets one extra space. */
  function CustomValue(key: string, value: string): string {
    value + (if key == "link" then " " else "")
  }

  /** The blocks of the custom tags, in entry order. */
  function CustomLines(entries: seq<(string, string)>): seq<string> {
    if entries == [] then []
    else
      var (k, v) := entries[|entries| - 1];
      CustomLines(entries[..|entries| - 1]) + AttributeLines(k, CustomValue(k, v))
  }

  /** The blocks of the built-in tags, in their fixed order. */
  function TagLines(env: Env, docs: Docs): seq<string> {
    DefaultLines(docs) + StabilityLines(env, docs) + SeeLines(docs) + SubclassableLines(docs)
  }

  /** All attribute blocks: the built-in tags, then the custom ones. */
  function AttributeRegion(env: Env, docs: Docs): seq<string> {
    TagLines(env, docs) + CustomLines(CustomEntries(docs))
  }

  // ---------------------------------------------------------------------
  // Remarks composer

  /** The translated remarks and their separator, when there are remarks. */
  function RemarksTextLines(env: Env, docs: Docs, loc: ApiLocation): seq<string> {
    if Truthy(docs.remarks) then TranslateMarkdown(env, docs.remarks.value, loc) + [""] else []
  }

  /** The lines `renderRemarks` collects before it strips blank lines. */
  function UntrimmedRemarks(env: Env, docs: Docs, loc: ApiLocation): seq<string> {
    RemarksTextLines(env, docs, loc) + AttributeRegion(env, docs)
  }

  /** How many lines at the start of `s` are empty. */
  function LeadingBlankCount(s: seq<string>): (n: nat)
    ensures n <= |s|
  {
    if |s| > 0 && s[0] == "" then 1 + LeadingBlankCount(s[1..]) else 0
  }

  /** How many lines at the end of `s` are empty. */
  function TrailingBlankCount(s: seq<string>): (n: nat)
    ensures n <= |s|
  {
    if |s| > 0 && s[|s| - 1] == "" then 1 + TrailingBlankCount(s[..|s| - 1]) else 0
  }

  /** The leading count covers empty lines only, and all of the leading ones. */
  lemma {:induction false} LeadingBlankCountSpec(s: seq<string>)
    ensures var n := LeadingBlankCount(s);
      && (forall k :: 0 <= k < n ==> s[k] == "")
      && (n < |s| ==> s[n] != "")
  {
    if |s| > 0 && s[0] == "" {
      LeadingBlankCountSpec(s[1..]);
    }
  }

  /** The trailing count covers empty lines only, and all of the trailing ones. */
  lemma {:induction false} TrailingBlankCountSpec(s: seq<string>)
    ensures var n := TrailingBlankCount(s);
      && (forall k :: |s| - n <= k < |s| ==> s[k] == "")
      && (n < |s| ==> s[|s| - 1 - n] != "")
  {
    if |s| > 0 && s[|s| - 1] == "" {
      TrailingBlankCountSpec(s[..|s| - 1]);
    }
  }

  /** A run of `n` empty lines not followed by another one is the whole leading run. */
  lemma {:induction false} LeadingBlankCountIs(s: seq<string>, n: nat)
    requires n <= |s|
    requires forall k :: 0 <= k < n ==> s[k] == ""
    requires n < |s| ==> s[n] != ""
    ensures LeadingBlankCount(s) == n
  {
    if n > 0 {
      LeadingBlankCountIs(s[1..], n - 1);
    }
  }

  /** A run of `n` empty lines not preceded by another one is the whole trailing run. */
  lemma {:induction false} TrailingBlankCountIs(s: seq<string>, n: nat)
    requires n <= |s|
    requires forall k :: |s| - n <= k < |s| ==> s[k] == ""
    requires n < |s| ==> s[|s| - 1 - n] != ""
    ensures TrailingBlankCount(s) == n
  {
    if n > 0 {
      TrailingBlankCountIs(s[..|s| - 1], n - 1);
    }
  }

  /** `s` without its leading and trailing empty lines. */
  function TrimBlankLines(s: seq<string>): (r: seq<string>)
    ensures |r| <= |s|
  {
    var a := s[LeadingBlankCount(s)..];
    a[..|a| - TrailingBlankCount(a)]
  }

  /**
   * Trimming blank lines leaves a contiguous run of `s` with only empty
   * lines outside it, neither starting nor ending with an empty line, and
   * empty exactly when every line of `s` is.
   */
  lemma TrimBlankLinesSpec(s: seq<string>)
    ensures var r := TrimBlankLines(s);
      && (r == [] || (r[0] != "" && r[|r| - 1] != ""))
      && (r == [] <==> forall k :: 0 <= k < |s| ==> s[k] == "")
      && var i := LeadingBlankCount(s);
      && i + |r| <= |s| && r == s[i..i + |r|]
      && forall k :: 0 <= k < |s| && !(i <= k < i + |r|) ==> s[k] == ""
  {
    var i := LeadingBlankCount(s);
    var a := s[i..];
    LeadingBlankCountSpec(s);
    TrailingBlankCountSpec(a);
    var r := TrimBlankLines(s);
    assert r == [] ==> i == |s|;
  }

  /** What `renderRemarks` returns. */
  function RemarksLines(env: Env, docs: Docs, loc: ApiLocation): seq<string> {
    TrimBlankLines(UntrimmedRemarks(env, docs, loc))
  }

  // ---------------------------------------------------------------------
  // Doc orchestrator

  /** One remarks line as written: prefixed, then right-trimmed. */
  function RemarkLine(r: string): string {
    TrimRight("/// " + r)
  }

  function RemarkLines(rs: seq<string>): seq<string> {
    if rs == [] then [] else RemarkLines(rs[..|rs| - 1]) + [RemarkLine(rs[|rs| - 1])]
  }

  /** Lines wrapped between explicit remarks markers. */
  function RemarksBlock(rs: seq<string>): seq<string> {
    ["/// <remarks>"] + RemarkLines(rs) + ["/// </remarks>"]
  }

  /** What `emitMarkdownAsRemarks` writes. */
  function MarkdownRemarksLines(env: Env, markdown: Option<string>, loc: ApiLocation): seq<string> {
    if Truthy(markdown) then RemarksBlock(TranslateMarkdown(env, markdown.value, loc)) else []
  }

  function SummaryLines(env: Env, obj: Documentable): seq<string> {
    XmlDocLines(env, "summary", env.renderSummary(obj.docs), [])
  }

  function ReturnsLines(env: Env, docs: Docs): seq<string> {
    if Truthy(docs.returnsDoc) then XmlDocLines(env, "returns", docs.returnsDoc.value, []) else []
  }

  function RemarksSection(env: Env, docs: Docs, loc: ApiLocation): seq<string> {
    var rs := RemarksLines(env, docs, loc);
    if |rs| > 0 then RemarksBlock(rs) else []
  }

  function ExampleSection(env: Env, docs: Docs, loc: ApiLocation): seq<string> {
    if Truthy(docs.example)
    then ["/// <example>"] + XmlDocLines(env, "code", ConvertExample(env, docs.example.value, loc), []) + ["/// </example>"]
    else []
  }

  /** The sections `emitDocs` writes only when the element has docs. */
  function DocsSections(env: Env, docs: Docs, loc: ApiLocation): seq<string> {
    ReturnsLines(env, docs) + RemarksSection(env, docs, loc) + ExampleSection(env, docs, loc)
  }

  /** What `emitDocs(obj, loc)` writes. */
  function DocLines(env: Env, obj: Documentable, loc: ApiLocation): seq<string> {
    SummaryLines(env, obj) + ParamsLines(env, Parameters(obj))
    + match obj.docs
      case None => []
      case Some(d) => DocsSections(env, d, loc)
  }

  // ---------------------------------------------------------------------
  // The generator

  /**
   * `emitDocAttribute(name, contents)`: appends to the lines collected so
   * far the attribute block for `name`, leaving them otherwise unchanged.
   */
  method EmitDocAttribute(ret: seq<string>, name: string, contents: string) returns (ret': seq<string>)
    ensures ret' == ret + AttributeLines(name, contents)
  {
    var ls := Split(contents, LF);
    ret' := ret + [Label(name) + ls[0]];
    ret' := ret' + ls[1..];
    ret' := ret' + [""];
  }

  /**
   * The second half of `renderRemarks`: drops empty lines from the front,
   * then from the back.
   */
  method StripBlankLines(lines: seq<string>) returns (ret: seq<string>)
    ensures ret == TrimBlankLines(lines)
  {
    ret := lines;
    ghost var shifted := 0;
    while |ret| > 0 && ret[0] == ""
      invariant shifted <= |lines| && ret == lines[shifted..]
      invariant forall k :: 0 <= k < shifted ==> lines[k] == ""
    {
      ret := ret[1..];
      shifted := shifted + 1;
    }
    LeadingBlankCountIs(lines, shifted);

    ghost var front := ret;
    while |ret| > 0 && ret[|ret| - 1] == ""
      invariant |ret| <= |front| && ret == front[..|ret|]
      invariant forall k :: |ret| <= k < |front| ==> front[k] == ""
    {
      ret := ret[..|ret| - 1];
    }
    TrailingBlankCountIs(front, |front| - |ret|);
  }

  class DotNetDocGenerator {
    /** The line writer shared with the rest of the code generator. */
    const code: CodeMaker
    /** The translation service, assembly and helper functions. */
    const env: Env

    constructor (code: CodeMaker, env: Env)
      ensures this.code == code && this.env == env
    {
      this.code := code;
      this.env := env;
    }

    /**
     * `emitXmlDoc`: nothing for empty content; otherwise one `/// ` line per
     * line of the serialised element, trimmed for the tag.
     */
    method EmitXmlDoc(tag: string, content: string, attributes: seq<(string, string)>)
      modifies code
      ensures code.lines == old(code.lines) + XmlDocLines(env, tag, content, attributes)
    {
      if content == "" {
        return;
      }
      var xmlstring := env.serialize(tag, content, attributes);
      EmitCommentLines(tag, Split(xmlstring, LF));
    }

    /** The serialised lines, each commented for `tag`, in order. */
    method EmitCommentLines(tag: string, parts: seq<string>)
      modifies code
      ensures code.lines == old(code.lines) + CommentLines(tag, parts)
    {
      for i := 0 to |parts|
        invariant code.lines == old(code.lines) + CommentLines(tag, parts[..i])
      {
        var line := CommentLine(tag, parts[i]);
        code.Line(line);
        AppendAssoc(old(code.lines), CommentLines(tag, parts[..i]), [line]);
        assert parts[..i + 1] == parts[..i] + [parts[i]];
        CommentLinesSnoc(tag, parts[..i], parts[i]);
      }
      assert parts[..|parts|] == parts;
    }

    /** Writes `rs` between remarks markers, one right-trimmed line each. */
    method EmitRemarksBlock(rs: seq<string>)
      modifies code
      ensures code.lines == old(code.lines) + RemarksBlock(rs)
    {
      code.Line("/// <remarks>");
      for i := 0 to |rs|
        invariant code.lines == old(code.lines) + ["/// <remarks>"] + RemarkLines(rs[..i])
      {
        code.Line(RemarkLine(rs[i]));
        assert rs[..i + 1][..i] == rs[..i];
      }
      assert rs[..|rs|] == rs;
      code.Line("/// </remarks>");
    }

    /** The built-in tags of `renderRemarks`, each as one attribute block, in order. */
    method CollectTags(ret: seq<string>, docs: Docs) returns (ret': seq<string>)
      ensures ret' == ret + TagLines(env, docs)
    {
      ret' := ret;
      if Truthy(docs.defaultValue) {
        ret' := EmitDocAttribute(ret', "default", docs.defaultValue.value);
      }
      ghost var region := DefaultLines(docs);
      assert ret' == ret + region;
      if docs.stability.Some? && ShouldMentionStability(docs.stability.value) {
        ret' := EmitDocAttribute(ret', "stability", env.nameutils.capitalizeWord(StabilityName(docs.stability.value)));
      }
      AppendAssoc(ret, region, StabilityLines(env, docs));
      region := region + StabilityLines(env, docs);
      assert ret' == ret + region;
      if Truthy(docs.see) {
        ret' := EmitDocAttribute(ret', "see", docs.see.value);
      }
      AppendAssoc(ret, region, SeeLines(docs));
      region := region + SeeLines(docs);
      assert ret' == ret + region;
      if docs.subclassable == Some(true) {
        ret' := EmitDocAttribute(ret', "subclassable", "");
      }
      AppendAssoc(ret, region, SubclassableLines(docs));
    }

    /** The custom tags of `renderRemarks`, one attribute block per entry, in entry order. */
    method CollectCustomTags(ret: seq<string>, entries: seq<(string, string)>) returns (ret': seq<string>)
      ensures ret' == ret + CustomLines(entries)
    {
      ret' := ret;
      for i := 0 to |entries|
        invariant ret' == ret + CustomLines(entries[..i])
      {
        var (k, v) := entries[i];
        var extraSpace := if k == "link" then " " else "";
        ret' := EmitDocAttribute(ret', k, v + extraSpace);
        assert entries[..i + 1][..i] == entries[..i];
        AppendAssoc(ret, CustomLines(entries[..i]), AttributeLines(k, CustomValue(k, v)));
      }
      assert entries[..|entries|] == entries;
    }

    /**
     * The first half of `renderRemarks`: the translated remarks and their
     * separator, then every attribute block in order.
     */
    method CollectRemarks(docs: Docs, loc: ApiLocation) returns (ret: seq<string>)
      ensures ret == UntrimmedRemarks(env, docs, loc)
    {
      ret := [];
      if Truthy(docs.remarks) {
        var translated := env.markDownToXmlDoc(ConvertSamplesInMarkdown(env, docs.remarks.value, loc));
        ret := ret + Split(translated, LF);
        ret := ret + [""];
      }
      ghost var text := ret;
      assert text == RemarksTextLines(env, docs, loc);
      // All the tags, each followed by a blank line.
      ret := CollectTags(ret, docs);
      ret := CollectCustomTags(ret, CustomEntries(docs));
      AppendAssoc(text, TagLines(env, docs), CustomLines(CustomEntries(docs)));
    }

    /** `renderRemarks`: the lines that go into the remarks section. */
    method RenderRemarks(docs: Docs, loc: ApiLocation) returns (ret: seq<string>)
      ensures ret == RemarksLines(env, docs, loc)
    {
      ret := CollectRemarks(docs, loc);
      ret := StripBlankLines(ret);
    }

    /** The `param` tags of `ps`, in order. */
    method EmitParams(ps: seq<Parameter>)
      modifies code
      ensures code.lines == old(code.lines) + ParamsLines(env, ps)
    {
      for i := 0 to |ps|
        invariant code.lines == old(code.lines) + ParamsLines(env, ps[..i])
      {
        var paramName := StripSlug(env.nameutils.convertParameterName(ps[i].name));
        EmitXmlDoc("param", ParamSummary(ps[i]), [("name", paramName)]);
        assert ps[..i + 1][..i] == ps[..i];
        AppendAssoc(old(code.lines), ParamsLines(env, ps[..i]), ParamLines(env, ps[i]));
      }
      assert ps[..|ps|] == ps;
    }

    /** The remarks section: nothing when `renderRemarks` has no lines. */
    method EmitRemarksSection(docs: Docs, loc: ApiLocation)
      modifies code
      ensures code.lines == old(code.lines) + RemarksSection(env, docs, loc)
    {
      var remarks := RenderRemarks(docs, loc);
      if |remarks| > 0 {
        EmitRemarksBlock(remarks);
      } else {
        assert code.lines == old(code.lines) + [];
      }
    }

    /** The example section: the example translated to C#, inside example markers. */
    method EmitExample(docs: Docs, loc: ApiLocation)
      modifies code
      ensures code.lines == old(code.lines) + ExampleSection(env, docs, loc)
    {
      if Truthy(docs.example) {
        code.Line("/// <example>");
        var example := ConvertExample(env, docs.example.value, loc);
        EmitXmlDoc("code", example, []);
        ghost var body := XmlDocLines(env, "code", example, []);
        AppendAssoc(old(code.lines), ["/// <example>"], body);
        code.Line("/// </example>");
        AppendAssoc(old(code.lines), ["/// <example>"] + body, ["/// </example>"]);
      } else {
        assert code.lines == old(code.lines) + [];
      }
    }

    /** The returns, remarks and example sections of an element that has docs. */
    method EmitDocsSections(docs: Docs, loc: ApiLocation)
      modifies code
      ensures code.lines == old(code.lines) + DocsSections(env, docs, loc)
    {
      if Truthy(docs.returnsDoc) {
        EmitXmlDoc("returns", docs.returnsDoc.value, []);
      } else {
        assert code.lines == old(code.lines) + [];
      }
      ghost var returnLines := ReturnsLines(env, docs);
      assert code.lines == old(code.lines) + returnLines;
      EmitRemarksSection(docs, loc);
      AppendAssoc(old(code.lines), returnLines, RemarksSection(env, docs, loc));
      ghost var upToRemarks := returnLines + RemarksSection(env, docs, loc);
      EmitExample(docs, loc);
      AppendAssoc(old(code.lines), upToRemarks, ExampleSection(env, docs, loc));
    }

    /** `emitDocs`: summary, parameters, then returns, remarks and example. */
    method EmitDocs(obj: Documentable, loc: ApiLocation)
      modifies code
      ensures code.lines == old(code.lines) + DocLines(env, obj, loc)
    {
      EmitXmlDoc("summary", env.renderSummary(obj.docs), []);
      EmitParams(Parameters(obj));
      ghost var head := SummaryLines(env, obj) + ParamsLines(env, Parameters(obj));
      AppendAssoc(old(code.lines), SummaryLines(env, obj), ParamsLines(env, Parameters(obj)));
      assert code.lines == old(code.lines) + head;

      if obj.docs.None? {
        assert code.lines == old(code.lines) + head + [];
        return;
      }
      EmitDocsSections(obj.docs.value, loc);
      AppendAssoc(old(code.lines), head, DocsSections(env, obj.docs.value, loc));
    }

    /** `emitMarkdownAsRemarks`: free markdown as a remarks block. */
    method EmitMarkdownAsRemarks(markdown: Option<string>, loc: ApiLocation)
      modifies code
      ensures code.lines == old(code.lines) + MarkdownRemarksLines(env, markdown, loc)
    {
      if !Truthy(markdown) {
        return;
      }
      var translated := env.markDownToXmlDoc(ConvertSamplesInMarkdown(env, markdown.value, loc));
      var lines := Split(translated, LF);
      EmitRemarksBlock(lines);
    }
  }
}
