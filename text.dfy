/**
 * String operations of the JavaScript runtime that the scripts rely on,
 * restricted to what the model needs: ASCII case mapping, `String.prototype.trim`,
 * `Array.prototype.join` and `String.prototype.split` on one separator character.
 */
module Text {

  predicate IsLower(c: char) { 'a' <= c <= 'z' }

  /** `toUpperCase` on one character, restricted to ASCII. */
  function UpperChar(c: char): (u: char)
    ensures !IsLower(u)
    ensures IsLower(c) ==> u as int == c as int - 32
    ensures !IsLower(c) ==> u == c
  {
    if IsLower(c) then (c as int - 32) as char else c
  }

  /** `toUpperCase` on a string, restricted to ASCII. */
  function Upper(s: string): (r: string)
    ensures |r| == |s|
    ensures forall i :: 0 <= i < |s| ==> r[i] == UpperChar(s[i])
  {
    if s == [] then [] else [UpperChar(s[0])] + Upper(s[1..])
  }

  lemma {:induction false} UpperIdempotent(s: string)
    ensures Upper(Upper(s)) == Upper(s)
  {
    if s != [] {
      UpperIdempotent(s[1..]);
    }
  }

  /** The characters `String.prototype.trim` removes: white space and line terminators. */
  predicate IsJsSpace(c: char)
  {
    c == '\t' || c == '\n' || c == '\U{B}' || c == '\U{C}' || c == '\r' || c == ' ' ||
    c == '\U{A0}' || c == '\U{1680}' || ('\U{2000}' <= c <= '\U{200A}') ||
    c == '\U{2028}' || c == '\U{2029}' || c == '\U{202F}' || c == '\U{205F}' ||
    c == '\U{3000}' || c == '\U{FEFF}'
  }

  predicate AllSpace(s: string) { forall i :: 0 <= i < |s| ==> IsJsSpace(s[i]) }

  /** The number of white-space characters `trim` removes from the front. */
  function LeadingSpace(s: string): (n: nat)
    ensures n <= |s| && AllSpace(s[..n])
    ensures n < |s| ==> !IsJsSpace(s[n])
  {
    if s != [] && IsJsSpace(s[0]) then
      var n := 1 + LeadingSpace(s[1..]);
      assert s[..n] == [s[0]] + s[1..][..n - 1];
      n
    else 0
  }

  /** The number of white-space characters `trim` removes from the back. */
  function TrailingSpace(s: string): (n: nat)
    ensures n <= |s| && AllSpace(s[|s| - n..])
    ensures n < |s| ==> !IsJsSpace(s[|s| - n - 1])
  {
    if s != [] && IsJsSpace(s[|s| - 1]) then
      var init := s[..|s| - 1];
      var m := TrailingSpace(init);
      assert forall i :: |s| - (m + 1) <= i < |s| - 1 ==> s[i] == init[i];
      1 + m
    else 0
  }

  function TrimStart(s: string): string { s[LeadingSpace(s)..] }

  function TrimEnd(s: string): string { s[..|s| - TrailingSpace(s)] }

  /** `String.prototype.trim`: the string without its leading and trailing white space. */
  function Trim(s: string): (r: string)
    ensures r == [] || (!IsJsSpace(r[0]) && !IsJsSpace(r[|r| - 1]))
  {
    TrimEnd(TrimStart(s))
  }

  lemma {:induction false} LeadingSpacePadded(pre: string, s: string)
    requires AllSpace(pre)
    ensures LeadingSpace(pre + s) == |pre| + LeadingSpace(s)
  {
    if pre != [] {
      assert (pre + s)[1..] == pre[1..] + s;
      LeadingSpacePadded(pre[1..], s);
    } else {
      assert pre + s == s;
    }
  }

  lemma {:induction false} TrailingSpacePadded(s: string, post: string)
    requires AllSpace(post)
    ensures TrailingSpace(s + post) == TrailingSpace(s) + |post|
  {
    if post != [] {
      var last := |post| - 1;
      assert (s + post)[..|s + post| - 1] == s + post[..last];
      TrailingSpacePadded(s, post[..last]);
    } else {
      assert s + post == s;
    }
  }

  lemma {:induction false} LeadingSpaceStops(s: string, post: string)
    requires LeadingSpace(s) < |s|
    ensures LeadingSpace(s + post) == LeadingSpace(s)
  {
    if IsJsSpace(s[0]) {
      assert (s + post)[1..] == s[1..] + post;
      LeadingSpaceStops(s[1..], post);
    }
  }

  lemma {:induction false} TrailingSpaceStops(pre: string, s: string)
    requires TrailingSpace(s) < |s|
    ensures TrailingSpace(pre + s) == TrailingSpace(s)
  {
    if IsJsSpace(s[|s| - 1]) {
      assert (pre + s)[..|pre + s| - 1] == pre + s[..|s| - 1];
      TrailingSpaceStops(pre, s[..|s| - 1]);
    }
  }

  lemma AllSpaceTrims(s: string)
    requires AllSpace(s)
    ensures Trim(s) == []
  {
    assert s == s + [];
    LeadingSpacePadded(s, []);
  }

  lemma AllSpaceConcat(pre: string, s: string, post: string)
    requires AllSpace(pre) && AllSpace(s) && AllSpace(post)
    ensures AllSpace(pre + s + post)
  {
  }

  lemma TrimPaddedBlank(pre: string, s: string, post: string)
    requires AllSpace(pre) && AllSpace(post) && LeadingSpace(s) == |s|
    ensures Trim(pre + s + post) == Trim(s)
  {
    assert s[..|s|] == s;
    AllSpaceConcat(pre, s, post);
    AllSpaceTrims(pre + s + post);
    AllSpaceTrims(s);
  }

  lemma LeadingSpaceOfPadded(pre: string, s: string, post: string)
    requires AllSpace(pre) && LeadingSpace(s) < |s|
    ensures LeadingSpace(pre + (s + post)) == |pre| + LeadingSpace(s)
  {
    LeadingSpacePadded(pre, s + post);
    LeadingSpaceStops(s, post);
  }

  lemma DropPrefix(pre: string, x: string, n: nat)
    requires n <= |x|
    ensures (pre + x)[|pre| + n..] == x[n..]
  {
  }

  lemma DropPaddedPrefix(pre: string, s: string, post: string)
    requires AllSpace(pre) && LeadingSpace(s) < |s|
    ensures (pre + s + post)[LeadingSpace(pre + s + post)..] == s[LeadingSpace(s)..] + post
  {
    var w := pre + s + post;
    assert w == pre + (s + post);
    LeadingSpaceOfPadded(pre, s, post);
    var n := LeadingSpace(s);
    assert LeadingSpace(w) == |pre| + n;
    DropPrefix(pre, s + post, n);
  }

  lemma TrimStartPadded(pre: string, s: string, post: string)
    requires AllSpace(pre) && LeadingSpace(s) < |s|
    ensures TrimStart(pre + s + post) == TrimStart(s) + post
  {
    DropPaddedPrefix(pre, s, post);
  }

  lemma TrimEndPadded(t: string, post: string)
    requires AllSpace(post)
    ensures TrimEnd(t + post) == TrimEnd(t)
  {
    TrailingSpacePadded(t, post);
  }

  lemma TrimPaddedText(pre: string, s: string, post: string)
    requires AllSpace(pre) && AllSpace(post) && LeadingSpace(s) < |s|
    ensures Trim(pre + s + post) == Trim(s)
  {
    TrimStartPadded(pre, s, post);
    TrimEndPadded(TrimStart(s), post);
  }

  /** Surrounding white space does not change what `trim` returns. */
  lemma TrimPadded(pre: string, s: string, post: string)
    requires AllSpace(pre) && AllSpace(post)
    ensures Trim(pre + s + post) == Trim(s)
  {
    if LeadingSpace(s) == |s| {
      TrimPaddedBlank(pre, s, post);
    } else {
      TrimPaddedText(pre, s, post);
    }
  }

  /** A string with no white space at either end is its own trim. */
  lemma TrimUnpadded(s: string)
    requires s == [] || (!IsJsSpace(s[0]) && !IsJsSpace(s[|s| - 1]))
    ensures Trim(s) == s
  {
    assert s[0..] == s;
    assert s[..|s|] == s;
  }

  /** Cutting m characters off the back of the suffix s[i..]. */
  lemma SuffixSlices(s: string, i: nat, m: nat)
    requires i + m <= |s|
    ensures s[i..][..|s| - i - m] == s[i..|s| - m]
    ensures s[i..][|s| - i - m..] == s[|s| - m..]
  {
  }

  /** What `trim` returns is the contiguous middle of the string, with nothing but white
      space before and after it; with `TrimUnpadded` and `TrimPadded` this fixes it. */
  lemma TrimSplits(s: string)
    ensures exists i, j :: 0 <= i <= j <= |s| && AllSpace(s[..i]) && AllSpace(s[j..]) &&
                           Trim(s) == s[i..j]
  {
    var i := LeadingSpace(s);
    var t := TrimStart(s);
    var m := TrailingSpace(t);
    SuffixSlices(s, i, m);
    assert AllSpace(s[|s| - m..]) by {
      assert AllSpace(t[|t| - m..]);
    }
    assert Trim(s) == s[i..|s| - m];
  }

  /** `Array.prototype.join(sep)` on strings. */
  function Join(xs: seq<string>, sep: string): string
  {
    if |xs| == 0 then "" else if |xs| == 1 then xs[0] else xs[0] + sep + Join(xs[1..], sep)
  }

  /** With a non-empty separator, the joined string is empty exactly when there is
      no element or a single empty one. */
  lemma {:induction false} JoinEmptyIff(xs: seq<string>, sep: string)
    requires sep != ""
    ensures Join(xs, sep) == "" <==> (xs == [] || xs == [""])
  {
    if |xs| >= 2 {
      assert |Join(xs, sep)| >= |sep|;
    }
  }

  /** `String.prototype.split(sep)` on one separator character. */
  function Split(s: string, sep: char): (r: seq<string>)
    ensures |r| >= 1
    ensures forall i, j :: 0 <= i < |r| && 0 <= j < |r[i]| ==> r[i][j] != sep
  {
    if s == [] then [""]
    else
      var rest := Split(s[1..], sep);
      if s[0] == sep then [""] + rest else [[s[0]] + rest[0]] + rest[1..]
  }

  /** Joining the pieces with the separator gives the string back. */
  lemma {:induction false} JoinSplit(s: string, sep: char)
    ensures Join(Split(s, sep), [sep]) == s
  {
    if s != [] {
      var rest := Split(s[1..], sep);
      JoinSplit(s[1..], sep);
      if s[0] == sep {
        assert Split(s, sep)[1..] == rest;
      } else if |rest| == 1 {
        assert Split(s, sep) == [[s[0]] + rest[0]];
      } else {
        var r := Split(s, sep);
        assert r[1..] == rest[1..];
        assert Join(rest, [sep]) == rest[0] + [sep] + Join(rest[1..], [sep]);
      }
    }
  }
}
