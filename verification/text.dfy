/** String helpers used by the validators, the chat history window and the list queries. */
module Text {

  /** ECMAScript WhiteSpace and LineTerminator code points: the characters `String.prototype.trim` removes. */
  predicate IsWhitespace(c: char) {
    || c == '\t' || c == '\n' || c == '\U{000B}' || c == '\U{000C}' || c == '\r' || c == ' '
    || c == '\U{00A0}' || c == '\U{1680}' || ('\U{2000}' <= c <= '\U{200A}')
    || c == '\U{2028}' || c == '\U{2029}' || c == '\U{202F}' || c == '\U{205F}'
    || c == '\U{3000}' || c == '\U{FEFF}'
  }

  /** Every character of `s` is whitespace (the empty string included). */
  predicate IsBlank(s: string) {
    forall i :: 0 <= i < |s| ==> IsWhitespace(s[i])
  }

  /** `s` with its leading whitespace removed. */
  function TrimStart(s: string): (r: string)
    ensures |r| <= |s| && r == s[|s| - |r|..]
    ensures r == [] || !IsWhitespace(r[0])
    ensures IsBlank(s[..|s| - |r|])
  {
    if s != [] && IsWhitespace(s[0]) then TrimStart(s[1..]) else s
  }

  /** `s` with its trailing whitespace removed. */
  function TrimEnd(s: string): (r: string)
    ensures |r| <= |s| && r == s[..|r|]
    ensures r == [] || !IsWhitespace(r[|r| - 1])
    ensures IsBlank(s[|r|..])
  {
    if s != [] && IsWhitespace(s[|s| - 1]) then TrimEnd(s[..|s| - 1]) else s
  }

  /** `String.prototype.trim`. */
  function Trim(s: string): (r: string) {
    TrimEnd(TrimStart(s))
  }

  /** What trim keeps: a contiguous piece of `s`, with only whitespace cut on either side,
      and no whitespace left at either end. */
  lemma TrimIsInfix(s: string)
    ensures exists i :: 0 <= i <= |s| - |Trim(s)| && Trim(s) == s[i..i + |Trim(s)|]
              && IsBlank(s[..i]) && IsBlank(s[i + |Trim(s)|..])
    ensures Trim(s) == [] || (!IsWhitespace(Trim(s)[0]) && !IsWhitespace(Trim(s)[|Trim(s)| - 1]))
  {
    var i := TrimStartsAt(s);
    TrimEnds(s);
  }

  /** Trim's result starts where the leading whitespace ends. */
  lemma TrimStartsAt(s: string) returns (i: nat)
    ensures i <= |s| - |Trim(s)| && Trim(s) == s[i..i + |Trim(s)|]
    ensures IsBlank(s[..i]) && IsBlank(s[i + |Trim(s)|..])
  {
    var t := TrimStart(s);
    i := |s| - |t|;
    var r := TrimEnd(t);
    InnerPiece(s, t, r, i);
  }

  /** A prefix `r` of the suffix `t == s[i..]`, followed in `t` by whitespace only, is the
      piece of `s` at `i`, followed in `s` by whitespace only. */
  lemma InnerPiece(s: string, t: string, r: string, i: nat)
    requires i <= |s| && t == s[i..] && |r| <= |t| && r == t[..|r|] && IsBlank(t[|r|..])
    ensures r == s[i..i + |r|] && IsBlank(s[i + |r|..])
  {
    assert t[|r|..] == s[i + |r|..];
  }

  /** Neither end of Trim's result is whitespace. */
  lemma TrimEnds(s: string)
    ensures Trim(s) == [] || (!IsWhitespace(Trim(s)[0]) && !IsWhitespace(Trim(s)[|Trim(s)| - 1]))
  {
    var t := TrimStart(s);
    var r := TrimEnd(t);
    if r != [] {
      assert r[0] == t[0];
    }
  }

  /** Trim leaves nothing exactly when the string is all whitespace. */
  lemma {:induction false} TrimEmptyIffBlank(s: string)
    ensures Trim(s) == [] <==> IsBlank(s)
  {
    var t := TrimStart(s);
    if !IsBlank(s) {
      var k :| 0 <= k < |s| && !IsWhitespace(s[k]);
      assert k >= |s| - |t| by {
        assert forall j :: 0 <= j < |s| - |t| ==> s[..|s| - |t|][j] == s[j];
      }
      assert t[k - (|s| - |t|)] == s[k];
    }
  }

  /** Trimming a trimmed string changes nothing. */
  lemma TrimIdempotent(s: string)
    ensures Trim(Trim(s)) == Trim(s)
  {
    var r := Trim(s);
    TrimIsInfix(s);
    if r != [] {
      assert TrimStart(r) == r;
      assert TrimEnd(r) == r;
    }
  }

  /** Trim leaves a string with no whitespace at either end as it is. */
  lemma TrimKeepsClean(s: string)
    requires s == [] || (!IsWhitespace(s[0]) && !IsWhitespace(s[|s| - 1]))
    ensures Trim(s) == s
  {
    assert TrimStart(s) == s;
  }

  /** ASCII lower-casing of one character. */
  function Lower(c: char): (r: char)
    ensures 'A' <= c <= 'Z' ==> 'a' <= r <= 'z'
    ensures !('A' <= c <= 'Z') ==> r == c
  {
    if 'A' <= c <= 'Z' then (c as int - 'A' as int + 'a' as int) as char else c
  }

  function LowerString(s: string): (r: string)
    ensures |r| == |s| && forall i :: 0 <= i < |s| ==> r[i] == Lower(s[i])
  {
    seq(|s|, i requires 0 <= i < |s| => Lower(s[i]))
  }

  /** `name ILIKE '%' || search || '%'`, read as a case-insensitive substring test. */
  predicate ContainsIgnoringCase(name: string, search: string) {
    exists i :: 0 <= i <= |name| - |search| && MatchesAt(name, search, i)
  }

  predicate MatchesAt(name: string, search: string, i: int)
    requires 0 <= i <= |name| - |search|
  {
    LowerString(name[i..i + |search|]) == LowerString(search)
  }

  /** Folding case twice is folding it once. */
  lemma LowerStringIdempotent(s: string)
    ensures LowerString(LowerString(s)) == LowerString(s)
  {
    assert forall i :: 0 <= i < |s| ==> Lower(Lower(s[i])) == Lower(s[i]);
  }

  /** The search ignores case: the search text folded to lower case finds the same names. */
  lemma ContainsIgnoringCaseFoldsSearch(name: string, search: string)
    ensures ContainsIgnoringCase(name, LowerString(search)) <==> ContainsIgnoringCase(name, search)
  {
    LowerStringIdempotent(search);
    if ContainsIgnoringCase(name, search) {
      var i :| 0 <= i <= |name| - |search| && MatchesAt(name, search, i);
      assert MatchesAt(name, LowerString(search), i);
    }
    if ContainsIgnoringCase(name, LowerString(search)) {
      var i :| 0 <= i <= |name| - |search| && MatchesAt(name, LowerString(search), i);
      assert MatchesAt(name, search, i);
    }
  }

  /** A name holding the search text verbatim, anywhere, matches. */
  lemma ContainsVerbatim(before: string, search: string, after: string)
    ensures ContainsIgnoringCase(before + search + after, search)
  {
    var name := before + search + after;
    assert name[|before|..|before| + |search|] == search;
    assert MatchesAt(name, search, |before|);
  }

  /** Code-point lexicographic order on strings, standing for the text ordering of ids. */
  predicate Less(a: string, b: string) {
    if a == [] then b != []
    else if b == [] then false
    else a[0] < b[0] || (a[0] == b[0] && Less(a[1..], b[1..]))
  }

  lemma {:induction false} LessIrreflexive(a: string)
    ensures !Less(a, a)
  {
    if a != [] {
      LessIrreflexive(a[1..]);
    }
  }

  lemma {:induction false} LessTransitive(a: string, b: string, c: string)
    requires Less(a, b) && Less(b, c)
    ensures Less(a, c)
  {
    if a != [] && b != [] && c != [] && a[0] == b[0] == c[0] {
      LessTransitive(a[1..], b[1..], c[1..]);
    }
  }

  /** Any two different strings are ordered one way or the other. */
  lemma {:induction false} LessTotal(a: string, b: string)
    requires a != b
    ensures Less(a, b) || Less(b, a)
  {
    if a != [] && b != [] && a[0] == b[0] {
      assert a == [a[0]] + a[1..] && b == [b[0]] + b[1..];
      LessTotal(a[1..], b[1..]);
    }
  }

  lemma {:induction false} LessAsymmetric(a: string, b: string)
    requires Less(a, b)
    ensures !Less(b, a)
  {
    if a != [] && b != [] && a[0] == b[0] {
      LessAsymmetric(a[1..], b[1..]);
    }
  }
}
