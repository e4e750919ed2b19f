/**
 * The small string operations the doc generator relies on, written out with
 * the semantics of their JavaScript counterparts: `String.prototype.split`
 * on a one-character separator, `trim`, `trimRight`, and the `ucFirst`
 * helper of the generator itself.
 */
module Strings {

  /** The line separator the generator splits on. */
  const LF: char := '\n'

  /**
   * The characters ECMAScript's `trim` family removes: the WhiteSpace and
   * LineTerminator code points.
   */
  predicate IsWhitespace(c: char) {
    || c == '\t' || c == '\n' || c == '\U{0B}' || c == '\U{0C}' || c == '\r'
    || c == ' ' || c == '\U{A0}' || c == '\U{1680}'
    || ('\U{2000}' <= c <= '\U{200A}')
    || c == '\U{2028}' || c == '\U{2029}' || c == '\U{202F}' || c == '\U{205F}'
    || c == '\U{3000}' || c == '\U{FEFF}'
  }

  predicate AllWhitespace(s: string) {
    forall i :: 0 <= i < |s| ==> IsWhitespace(s[i])
  }

  /** Concatenation is associative (stated once, for sequences of any element type). */
  lemma AppendAssoc<T>(a: seq<T>, b: seq<T>, c: seq<T>)
    ensures (a + b) + c == a + (b + c)
  {
  }

  /** Position of the first occurrence of `c` in `s`. */
  function IndexOf(s: string, c: char): (i: nat)
    requires c in s
    ensures i < |s| && s[i] == c
    ensures c !in s[..i]
  {
    if s[0] == c then 0
    else
      var j := IndexOf(s[1..], c);
      assert s[..1 + j] == [s[0]] + s[1..][..j];
      1 + j
  }

  /** The first occurrence is the only position holding `c` with no `c` before it. */
  lemma {:induction false} IndexOfIs(s: string, c: char, i: nat)
    requires i < |s| && s[i] == c && c !in s[..i]
    ensures IndexOf(s, c) == i
  {
    if i > 0 {
      assert s[0] == s[..i][0];
      assert s[1..][..i - 1] == s[..i][1..];
      IndexOfIs(s[1..], c, i - 1);
    }
  }

  /** `parts.join(sep)`: the parts with one `sep` between neighbours. */
  function Join(parts: seq<string>, sep: char): string {
    if |parts| == 0 then ""
    else if |parts| == 1 then parts[0]
    else parts[0] + [sep] + Join(parts[1..], sep)
  }

  /**
   * `s.split(sep)`: the maximal `sep`-free pieces of `s`, in order. There is
   * always at least one piece (the empty string splits into `[""]`), and
   * joining the pieces back gives `s`.
   */
  function Split(s: string, sep: char): (parts: seq<string>)
    ensures |parts| >= 1
    ensures forall i :: 0 <= i < |parts| ==> sep !in parts[i]
    ensures Join(parts, sep) == s
    decreases |s|
  {
    if sep !in s then [s]
    else
      var i := IndexOf(s, sep);
      var rest := Split(s[i + 1..], sep);
      assert s == s[..i] + [sep] + s[i + 1..];
      assert ([s[..i]] + rest)[1..] == rest;
      [s[..i]] + rest
  }

  /** A string whose first separator is at `i` splits into the text before it and the split of the rest. */
  lemma SplitAt(s: string, sep: char, i: nat)
    requires i < |s| && s[i] == sep && sep !in s[..i]
    ensures Split(s, sep) == [s[..i]] + Split(s[i + 1..], sep)
  {
    IndexOfIs(s, sep, i);
  }

  /** Joining several parts puts the first one, then a separator, before the rest. */
  lemma JoinCons(parts: seq<string>, sep: char)
    requires |parts| > 1
    ensures var s := Join(parts, sep); var p := parts[0];
      && |s| > |p| && s[..|p|] == p && s[|p|] == sep && s[|p| + 1..] == Join(parts[1..], sep)
  {
    var s := Join(parts, sep);
    var p := parts[0];
    assert s == p + [sep] + Join(parts[1..], sep);
  }

  /** Splitting undoes joining: no other decomposition of a string joins to it. */
  lemma {:induction false} SplitJoin(parts: seq<string>, sep: char)
    requires |parts| >= 1
    requires forall i :: 0 <= i < |parts| ==> sep !in parts[i]
    ensures Split(Join(parts, sep), sep) == parts
  {
    if |parts| > 1 {
      var s := Join(parts, sep);
      var p := parts[0];
      JoinCons(parts, sep);
      SplitAt(s, sep, |p|);
      SplitJoin(parts[1..], sep);
      assert parts == [p] + parts[1..];
    }
  }

  /** Appending a character other than `sep` to the joined text extends its last part. */
  lemma {:induction false} JoinAppend(parts: seq<string>, sep: char, c: char)
    requires |parts| >= 1
    ensures Join(parts, sep) + [c] == Join(parts[..|parts| - 1] + [parts[|parts| - 1] + [c]], sep)
  {
    if |parts| > 1 {
      var n := |parts|;
      var tail := parts[1..];
      JoinAppend(tail, sep, c);
      var extended := parts[..n - 1] + [parts[n - 1] + [c]];
      assert extended[0] == parts[0];
      assert extended[1..] == tail[..|tail| - 1] + [tail[|tail| - 1] + [c]];
    }
  }

  /** Joining one more part puts a separator and that part at the end. */
  lemma {:induction false} JoinSnoc(parts: seq<string>, sep: char, q: string)
    requires |parts| >= 1
    ensures Join(parts + [q], sep) == Join(parts, sep) + [sep] + q
  {
    if |parts| > 1 {
      assert (parts + [q])[1..] == parts[1..] + [q];
      JoinSnoc(parts[1..], sep, q);
    }
  }

  /** `(s + sep + q).split(sep)` for a separator-free `q`: the pieces of `s`, then `q`. */
  lemma SplitSnoc(s: string, sep: char, q: string)
    requires sep !in q
    ensures Split(s + [sep] + q, sep) == Split(s, sep) + [q]
  {
    var ps := Split(s, sep);
    var qs := ps + [q];
    JoinSnoc(ps, sep, q);
    forall i | 0 <= i < |qs| ensures sep !in qs[i] {
      if i < |ps| { assert qs[i] == ps[i]; }
    }
    SplitJoin(qs, sep);
  }

  /**
   * `(s + c).split(sep)` for a character `c` other than `sep`: the same
   * pieces, except that the last one gains `c`.
   */
  lemma SplitAppend(s: string, sep: char, c: char)
    requires c != sep
    ensures var ps := Split(s, sep); var qs := Split(s + [c], sep);
      && |qs| == |ps|
      && qs[..|qs| - 1] == ps[..|ps| - 1]
      && qs[|qs| - 1] == ps[|ps| - 1] + [c]
  {
    var ps := Split(s, sep);
    var n := |ps|;
    var extended := ps[..n - 1] + [ps[n - 1] + [c]];
    JoinAppend(ps, sep, c);
    forall i | 0 <= i < |extended| ensures sep !in extended[i] {
      if i < n - 1 {
        assert extended[i] == ps[i];
      } else {
        assert extended[i] == ps[n - 1] + [c];
      }
    }
    SplitJoin(extended, sep);
    assert s + [c] == Join(extended, sep);
    assert Split(s + [c], sep) == extended;
    assert extended[n - 1] == ps[n - 1] + [c];
    assert extended[..n - 1] == ps[..n - 1];
  }

  /** `s.trimRight()`: `s` without its trailing whitespace, a prefix of `s`. */
  function TrimRight(s: string): (r: string)
    ensures |r| <= |s| && r == s[..|r|]
    decreases |s|
  {
    if |s| > 0 && IsWhitespace(s[|s| - 1]) then TrimRight(s[..|s| - 1]) else s
  }

  /** `trimRight` removes only whitespace, and all of the trailing whitespace. */
  lemma {:induction false} TrimRightRemovesTrailingWhitespace(s: string)
    ensures var r := TrimRight(s);
      && (forall i :: |r| <= i < |s| ==> IsWhitespace(s[i]))
      && (r == [] || !IsWhitespace(r[|r| - 1]))
    decreases |s|
  {
    if |s| > 0 && IsWhitespace(s[|s| - 1]) {
      TrimRightRemovesTrailingWhitespace(s[..|s| - 1]);
    }
  }

  /** `s.trimLeft()`: `s` without its leading whitespace, a suffix of `s`. */
  function TrimLeft(s: string): (r: string)
    ensures |r| <= |s|
    decreases |s|
  {
    if |s| > 0 && IsWhitespace(s[0]) then TrimLeft(s[1..]) else s
  }

  /** `trimLeft` removes only whitespace, and all of the leading whitespace. */
  lemma {:induction false} TrimLeftRemovesLeadingWhitespace(s: string)
    ensures var r := TrimLeft(s);
      && r == s[|s| - |r|..]
      && (forall i :: 0 <= i < |s| - |r| ==> IsWhitespace(s[i]))
      && (r == [] || !IsWhitespace(r[0]))
    decreases |s|
  {
    if |s| > 0 && IsWhitespace(s[0]) {
      TrimLeftRemovesLeadingWhitespace(s[1..]);
    }
  }

  /** `s.trim()`: whitespace removed from both ends. */
  function Trim(s: string): (r: string)
    ensures |r| <= |s|
  {
    TrimLeft(TrimRight(s))
  }

  /**
   * `trim` keeps a contiguous middle of the string with only whitespace
   * around it, leaves no whitespace at either end of that middle, and leaves
   * nothing exactly when the string is all whitespace.
   */
  lemma TrimRemovesWhitespace(s: string)
    ensures var r := Trim(s);
      && (exists i :: 0 <= i && i + |r| <= |s| && r == s[i..i + |r|]
            && AllWhitespace(s[..i]) && AllWhitespace(s[i + |r|..]))
      && (r == [] || (!IsWhitespace(r[0]) && !IsWhitespace(r[|r| - 1])))
      && (r == [] <==> AllWhitespace(s))
  {
    var t := TrimRight(s);
    var r := TrimLeft(t);
    TrimRightRemovesTrailingWhitespace(s);
    TrimLeftRemovesLeadingWhitespace(t);
    assert r != [] ==> r[|r| - 1] == t[|t| - 1];
    assert r == [] ==> t == [];
    var i := |t| - |r|;
    assert r == s[i..i + |r|];
    assert AllWhitespace(s[..i]) by {
      forall k | 0 <= k < i ensures IsWhitespace(s[..i][k]) {
        assert s[..i][k] == t[k];
      }
    }
    assert AllWhitespace(s[i + |r|..]) by {
      forall k | 0 <= k < |s| - |t| ensures IsWhitespace(s[|t|..][k]) {
        assert s[|t|..][k] == s[|t| + k];
      }
    }
  }

  /** Trailing whitespace appended to a string vanishes under `trimRight`. */
  lemma TrimRightIgnoresAddedWhitespace(s: string, w: string)
    requires AllWhitespace(w)
    ensures TrimRight(s + w) == TrimRight(s)
    decreases |w|
  {
    if |w| == 0 {
      assert s + w == s;
    } else {
      var v := w[..|w| - 1];
      assert IsWhitespace((s + w)[|s + w| - 1]);
      assert (s + w)[..|s + w| - 1] == s + v;
      assert TrimRight(s + w) == TrimRight(s + v);
      TrimRightIgnoresAddedWhitespace(s, v);
    }
  }

  /** A prefix that ends in a non-whitespace character survives `trimRight`. */
  lemma {:induction false} TrimRightKeepsPrefix(p: string, s: string)
    requires |p| > 0 && !IsWhitespace(p[|p| - 1])
    ensures |TrimRight(p + s)| >= |p| && TrimRight(p + s)[..|p|] == p
    decreases |s|
  {
    if |s| > 0 && IsWhitespace(s[|s| - 1]) {
      assert (p + s)[..|p + s| - 1] == p + s[..|s| - 1];
      TrimRightKeepsPrefix(p, s[..|s| - 1]);
    } else if |s| == 0 {
      assert p + s == p;
    }
  }

  /** `toUpperCase` on a single character, restricted to ASCII letters. */
  function UpperCase(c: char): char {
    if 'a' <= c <= 'z' then (c as int - 32) as char else c
  }

  /**
   * `ucFirst`: the first character upper-cased, every other character and
   * the length unchanged; the empty string maps to itself.
   */
  function UcFirst(x: string): (r: string)
    ensures |r| == |x|
    ensures |x| > 0 ==> r[0] == UpperCase(x[0])
    ensures forall i :: 1 <= i < |x| ==> r[i] == x[i]
  {
    if x == [] then [] else [UpperCase(x[0])] + x[1..]
  }
}
