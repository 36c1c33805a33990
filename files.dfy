/**
 * The placeholder substitution of `loadIssueTemplate` (utils/files.js): every match of
 * the global regular expression `{{(.*?)}}` in the template is replaced by the value the
 * data object holds under the trimmed inner text, or by "N/A" when that value is missing
 * or empty. The template file read is replaced by a template string parameter.
 */
module Files {
  import opened Wrappers
  import opened Text

  /** The characters the regular-expression dot does not match. */
  predicate IsLineTerminator(c: char)
  {
    c == '\n' || c == '\r' || c == '\U{2028}' || c == '\U{2029}'
  }

  /** No line terminator among the first n characters of s. */
  predicate LineFreeBefore(s: string, n: int)
  {
    forall i :: 0 <= i < n && i < |s| ==> !IsLineTerminator(s[i])
  }

  predicate LineFree(s: string) { LineFreeBefore(s, |s|) }

  /** A `}}` starts at index k of t. */
  predicate ClosesAt(t: string, k: int) { 0 <= k && k + 1 < |t| && t[k] == '}' && t[k + 1] == '}' }

  /** A `{{` starts at index k of t. */
  predicate OpensAt(t: string, k: int) { 0 <= k && k + 1 < |t| && t[k] == '{' && t[k + 1] == '{' }

  /**
   * Where the lazy `(.*?)}}` ends when it starts at the beginning of t: the first `}}`,
   * provided no line terminator comes before it; None when the match fails.
   */
  function FindClose(t: string): (r: Option<nat>)
    ensures r.Some? ==> ClosesAt(t, r.value) && LineFreeBefore(t, r.value)
    ensures r.Some? ==> forall i :: 0 <= i < r.value ==> !ClosesAt(t, i)
    ensures r.None? ==> forall k :: ClosesAt(t, k) ==> !LineFreeBefore(t, k)
  {
    if |t| < 2 then None
    else if t[0] == '}' && t[1] == '}' then Some(0)
    else if IsLineTerminator(t[0]) then None
    else
      match FindClose(t[1..])
      case None =>
        assert forall k :: ClosesAt(t, k) ==> k >= 1 && ClosesAt(t[1..], k - 1);
        None
      case Some(k) =>
        assert forall i :: 1 <= i <= k ==> (ClosesAt(t, i) <==> ClosesAt(t[1..], i - 1));
        Some(k + 1)
  }

  /** The replacement for one placeholder: the value held under the trimmed key, or
      "N/A" when there is none or it is empty. */
  function Lookup(data: map<string, string>, key: string): (v: string)
    ensures v != ""
    ensures Trim(key) in data && data[Trim(key)] != "" ==> v == data[Trim(key)]
    ensures v == "N/A" <==> (Trim(key) !in data || data[Trim(key)] in {"", "N/A"})
  {
    var k := Trim(key);
    if k in data && data[k] != "" then data[k] else "N/A"
  }

  // The template read as a sequence of literal characters and placeholders: the
  // template is recovered from the pieces, and its rendering is their filling-in.

  datatype Piece = Literal(c: char) | Placeholder(key: string)

  /** The pieces in the order the global replace meets them. */
  function Pieces(template: string): seq<Piece>
    decreases |template|
  {
    if template == [] then []
    else if OpensAt(template, 0) && FindClose(template[2..]).Some? then
      var k := FindClose(template[2..]).value;
      [Placeholder(template[2..2 + k])] + Pieces(template[2 + k + 2..])
    else
      [Literal(template[0])] + Pieces(template[1..])
  }

  /** The template text the pieces were read from. */
  function Unparse(ps: seq<Piece>): string
  {
    if ps == [] then []
    else
      match ps[0]
      case Literal(c) => [c] + Unparse(ps[1..])
      case Placeholder(key) => "{{" + key + "}}" + Unparse(ps[1..])
  }

  /** The text the pieces render to. */
  function Fill(ps: seq<Piece>, data: map<string, string>): string
  {
    if ps == [] then []
    else
      match ps[0]
      case Literal(c) => [c] + Fill(ps[1..], data)
      case Placeholder(key) => Lookup(data, key) + Fill(ps[1..], data)
  }

  /** The global replacement: the matches of the lazy, single-line `{{...}}` pattern are
      found left to right, and each is replaced, braces included, by the lookup of its
      inner text; every other character is copied. */
  function Render(template: string, data: map<string, string>): string
  {
    Fill(Pieces(template), data)
  }

  /** The inner text a lazy match can capture: no line terminator, and the first `}}`
      of key followed by `}}` is the closing one. */
  predicate IsKey(key: string)
  {
    LineFree(key) && forall i :: 0 <= i < |key| ==> !ClosesAt(key + "}}", i)
  }

  lemma UnparseCons(p: Piece, ps: seq<Piece>)
    ensures Unparse([p] + ps) == Unparse([p]) + Unparse(ps)
  {
    assert ([p] + ps)[1..] == ps;
  }

  lemma SplitAtPlaceholder(template: string, k: nat)
    requires OpensAt(template, 0) && 2 + k + 2 <= |template|
    ensures template == "{{" + template[2..2 + k] + "}}" + template[2 + k + 2..] ||
            template[2 + k] != '}' || template[2 + k + 1] != '}'
  {
  }

  /** Reading the template into pieces loses nothing. */
  lemma {:induction false} UnparsePieces(template: string)
    ensures Unparse(Pieces(template)) == template
    decreases |template|
  {
    if template != [] {
      if OpensAt(template, 0) && FindClose(template[2..]).Some? {
        var k := FindClose(template[2..]).value;
        var key := template[2..2 + k];
        var rest := template[2 + k + 2..];
        UnparsePieces(rest);
        UnparseCons(Placeholder(key), Pieces(rest));
        SplitAtPlaceholder(template, k);
      } else {
        UnparsePieces(template[1..]);
        UnparseCons(Literal(template[0]), Pieces(template[1..]));
        assert template == [template[0]] + template[1..];
      }
    }
  }

  /** Every placeholder piece is a lazy, single-line match: its key holds no line
      terminator and ends at the first `}}`, so matches never overlap. */
  lemma {:induction false} PiecesAreKeys(template: string)
    ensures forall i :: 0 <= i < |Pieces(template)| && Pieces(template)[i].Placeholder? ==>
      IsKey(Pieces(template)[i].key)
    decreases |template|
  {
    if template != [] {
      if OpensAt(template, 0) && FindClose(template[2..]).Some? {
        var t := template[2..];
        var k := FindClose(t).value;
        var key := t[..k];
        assert key == template[2..2 + k];
        assert t[..k + 2] == key + "}}";
        forall i | 0 <= i < |key| ensures !ClosesAt(key + "}}", i) {
          assert !ClosesAt(t, i);
          assert (key + "}}")[i] == t[i] && (key + "}}")[i + 1] == t[i + 1];
        }
        PiecesAreKeys(template[2 + k + 2..]);
      } else {
        PiecesAreKeys(template[1..]);
      }
    }
  }

  /** The lazy match started after `{{key` closes right after the key. */
  lemma KeyCloses(key: string, rest: string)
    requires IsKey(key)
    ensures FindClose(key + "}}" + rest) == Some(|key|)
  {
    var t := key + "}}" + rest;
    assert ClosesAt(t, |key|);
    forall i | 0 <= i < |key| ensures !ClosesAt(t, i) && !IsLineTerminator(t[i]) {
      assert !ClosesAt(key + "}}", i);
      assert (key + "}}")[i] == t[i] && (key + "}}")[i + 1] == t[i + 1];
    }
  }

  /** Where the scan meets `{{key}}`, the next piece is that placeholder. */
  lemma PiecesPlaceholderHead(key: string, rest: string)
    requires IsKey(key)
    ensures Pieces("{{" + key + "}}" + rest) == [Placeholder(key)] + Pieces(rest)
  {
    var template := "{{" + key + "}}" + rest;
    assert template[2..] == key + "}}" + rest;
    KeyCloses(key, rest);
    assert template[2..2 + |key|] == key;
    assert template[2 + |key| + 2..] == rest;
  }

  /** Where no match starts, the next piece is the literal first character. */
  lemma PiecesLiteralHead(s: string)
    requires s != [] && !(OpensAt(s, 0) && FindClose(s[2..]).Some?)
    ensures Pieces(s) == [Literal(s[0])] + Pieces(s[1..])
  {
  }

  lemma FillLiteral(c: char, ps: seq<Piece>, data: map<string, string>)
    ensures Fill([Literal(c)] + ps, data) == [c] + Fill(ps, data)
  {
    assert ([Literal(c)] + ps)[1..] == ps;
  }

  lemma FillPlaceholder(key: string, ps: seq<Piece>, data: map<string, string>)
    ensures Fill([Placeholder(key)] + ps, data) == Lookup(data, key) + Fill(ps, data)
  {
    assert ([Placeholder(key)] + ps)[1..] == ps;
  }

  /** A placeholder `{{key}}` is replaced by the value of its trimmed key, and scanning
      resumes right after its `}}`. */
  lemma PlaceholderRendered(key: string, rest: string, data: map<string, string>)
    requires IsKey(key)
    ensures Render("{{" + key + "}}" + rest, data) == Lookup(data, key) + Render(rest, data)
  {
    PiecesPlaceholderHead(key, rest);
    FillPlaceholder(key, Pieces(rest), data);
  }

  /** Surrounding white space inside the braces does not change the replacement,
      so `{{ id }}` and `{{id}}` render alike. */
  lemma TrimmedKeysAgree(pre: string, key: string, post: string, data: map<string, string>)
    requires AllSpace(pre) && AllSpace(post)
    ensures Lookup(data, pre + key + post) == Lookup(data, key)
  {
    TrimPadded(pre, key, post);
  }

  /** `{{ id }}` renders as `{{id}}` does: padding inside the braces is trimmed away. */
  lemma PaddedPlaceholderAgrees(pre: string, key: string, post: string, rest: string,
                                data: map<string, string>)
    requires AllSpace(pre) && AllSpace(post) && IsKey(key) && IsKey(pre + key + post)
    ensures Render("{{" + (pre + key + post) + "}}" + rest, data) == Render("{{" + key + "}}" + rest, data)
  {
    PlaceholderRendered(pre + key + post, rest, data);
    PlaceholderRendered(key, rest, data);
    TrimmedKeysAgree(pre, key, post, data);
  }

  /** No character of s is `{`. */
  predicate BraceFree(s: string)
  {
    s == [] || (s[0] != '{' && BraceFree(s[1..]))
  }

  lemma {:induction false} BraceFreeChars(s: string)
    requires forall i :: 0 <= i < |s| ==> s[i] != '{'
    ensures BraceFree(s)
  {
    if s != [] {
      assert forall i :: 0 <= i < |s| - 1 ==> s[1..][i] == s[i + 1];
      BraceFreeChars(s[1..]);
    }
  }

  /** Each character of s as a literal piece. */
  function Literals(s: string): (ps: seq<Piece>)
    ensures |ps| == |s|
  {
    if s == [] then [] else [Literal(s[0])] + Literals(s[1..])
  }

  lemma {:induction false} PiecesOfBraceFree(lit: string, rest: string)
    requires BraceFree(lit)
    ensures Pieces(lit + rest) == Literals(lit) + Pieces(rest)
  {
    if lit != [] {
      var s, tail := lit + rest, lit[1..];
      assert s[0] == lit[0] && s[1..] == tail + rest;
      PiecesLiteralHead(s);
      PiecesOfBraceFree(tail, rest);
    } else {
      assert lit + rest == rest;
    }
  }

  lemma {:induction false} FillLiterals(s: string, ps: seq<Piece>, data: map<string, string>)
    ensures Fill(Literals(s) + ps, data) == s + Fill(ps, data)
  {
    if s != [] {
      var tail := Literals(s[1..]) + ps;
      assert Fill(Literals(s) + ps, data) == [s[0]] + Fill(tail, data) by {
        assert Literals(s) + ps == [Literal(s[0])] + tail;
        FillLiteral(s[0], tail, data);
      }
      FillLiterals(s[1..], ps, data);
      assert s == [s[0]] + s[1..];
    } else {
      assert Literals(s) + ps == ps;
    }
  }

  /** A literal prefix holding no `{` is copied unchanged. */
  lemma LiteralCopied(lit: string, rest: string, data: map<string, string>)
    requires BraceFree(lit)
    ensures Render(lit + rest, data) == lit + Render(rest, data)
  {
    PiecesOfBraceFree(lit, rest);
    FillLiterals(lit, Pieces(rest), data);
  }

  /** A template with no `{{` is returned unchanged. */
  lemma {:induction false} NoPlaceholderUnchanged(template: string, data: map<string, string>)
    requires forall i :: !OpensAt(template, i)
    ensures Render(template, data) == template
    decreases |template|
  {
    if template != [] {
      assert !OpensAt(template, 0);
      var tail := template[1..];
      assert forall i :: OpensAt(tail, i) ==> OpensAt(template, i + 1);
      PiecesLiteralHead(template);
      FillLiteral(template[0], Pieces(tail), data);
      NoPlaceholderUnchanged(tail, data);
      assert template == [template[0]] + tail;
    }
  }

  /** Where no match starts, the first character is copied and the scan moves on by one;
      with `PlaceholderRendered` and `FindClose` this fixes `Render` on every template. */
  lemma LiteralHeadRendered(s: string, data: map<string, string>)
    requires s != [] && !(OpensAt(s, 0) && FindClose(s[2..]).Some?)
    ensures Render(s, data) == [s[0]] + Render(s[1..], data)
  {
    PiecesLiteralHead(s);
    FillLiteral(s[0], Pieces(s[1..]), data);
  }

  /** Both ends of a multi-line block fail to match: the first `}}` comes after a line
      terminator. */
  lemma MultiLineUnclosed(key: string, rest: string)
    requires !LineFree(key)
    requires forall i :: 0 <= i < |key| ==> key[i] != '}'
    ensures FindClose(key + "}}" + rest).None?
  {
    var t := key + "}}" + rest;
    assert forall i :: 0 <= i < |key| ==> t[i] == key[i];
  }

  /** A `{` not followed by another `{` is copied. */
  lemma SingleBraceCopied(t: string, data: map<string, string>)
    requires t != [] && t[0] != '{'
    ensures Render("{" + t, data) == "{" + Render(t, data)
  {
    var s := "{" + t;
    assert s[1] == t[0] && s[1..] == t;
    LiteralHeadRendered(s, data);
  }

  /** The first `{` of a multi-line block opens no match and is copied. */
  lemma MultiLineOpenCopied(key: string, rest: string, data: map<string, string>)
    requires !LineFree(key)
    requires forall i :: 0 <= i < |key| ==> key[i] != '}'
    ensures Render("{{" + key + "}}" + rest, data) == "{" + Render("{" + (key + "}}" + rest), data)
  {
    var s := "{{" + key + "}}" + rest;
    assert s[2..] == key + "}}" + rest && s[1..] == "{" + (key + "}}" + rest);
    MultiLineUnclosed(key, rest);
    LiteralHeadRendered(s, data);
  }

  /** The two copied braces and the block rejoin into the block. */
  lemma RegroupBlock(key: string, r: string)
    ensures "{" + ("{" + (key + "}}" + r)) == "{{" + key + "}}" + r
  {
  }

  /** `{{ ... }}` spread over two lines is not a placeholder and stays literal, and the
      scan goes on after it. */
  lemma MultiLineStaysLiteral(key: string, rest: string, data: map<string, string>)
    requires !LineFree(key)
    requires forall i :: 0 <= i < |key| ==> key[i] != '{' && key[i] != '}'
    ensures Render("{{" + key + "}}" + rest, data) == "{{" + key + "}}" + Render(rest, data)
  {
    var body := key + "}}";
    MultiLineOpenCopied(key, rest, data);
    assert (body + rest)[0] == key[0];
    SingleBraceCopied(body + rest, data);
    BraceFreeChars(body);
    LiteralCopied(body, rest, data);
    RegroupBlock(key, Render(rest, data));
  }
}
