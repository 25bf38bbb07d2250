/**
 * The .NET string helpers the handlers rely on: `Char.IsWhiteSpace`,
 * `string.IsNullOrEmpty`, `string.IsNullOrWhiteSpace`, `Trim` and a plain
 * substring test (the model of the `LIKE '%q%'` name filter).
 */
module DotNetText {
  import opened Wrappers

  /** `Char.IsWhiteSpace`: U+0009..U+000D, the space separators, U+0085, U+2028, U+2029. */
  predicate IsWhiteSpace(c: char) {
    || c == ' '
    || ('\t' <= c <= '\r')
    || c == '\U{0085}'
    || c == '\U{00A0}'
    || c == '\U{1680}'
    || ('\U{2000}' <= c <= '\U{200A}')
    || c == '\U{2028}'
    || c == '\U{2029}'
    || c == '\U{202F}'
    || c == '\U{205F}'
    || c == '\U{3000}'
  }

  predicate AllWhiteSpace(s: string) {
    forall i :: 0 <= i < |s| ==> IsWhiteSpace(s[i])
  }

  /** `string.IsNullOrEmpty`. */
  predicate IsNullOrEmpty(s: Option<string>) {
    s.None? || s.value == ""
  }

  /** `string.IsNullOrWhiteSpace`. */
  predicate IsNullOrWhiteSpace(s: Option<string>) {
    s.None? || AllWhiteSpace(s.value)
  }

  /** `sub` occurs in `s` as a contiguous block of characters. */
  predicate Contains(s: string, sub: string) {
    sub <= s || (|s| > 0 && Contains(s[1..], sub))
  }

  /** Neither starts nor ends with white space. */
  predicate IsTrimmed(s: string) {
    s == [] || (!IsWhiteSpace(s[0]) && !IsWhiteSpace(s[|s| - 1]))
  }

  /** `TrimStart()`. */
  function TrimStart(s: string): string {
    if |s| > 0 && IsWhiteSpace(s[0]) then TrimStart(s[1..]) else s
  }

  /** `TrimEnd()`. */
  function TrimEnd(s: string): string {
    if |s| > 0 && IsWhiteSpace(s[|s| - 1]) then TrimEnd(s[..|s| - 1]) else s
  }

  /** `Trim()`. */
  function Trim(s: string): string {
    TrimEnd(TrimStart(s))
  }

  /** `TrimStart` removes exactly the leading white space: what it drops is white, what it keeps starts with a non-white character. */
  lemma {:induction false} TrimStartSpec(s: string)
    ensures var r := TrimStart(s);
      && |r| <= |s| && r == s[|s| - |r|..]
      && AllWhiteSpace(s[..|s| - |r|])
      && (r == [] || !IsWhiteSpace(r[0]))
    decreases |s|
  {
    if |s| > 0 && IsWhiteSpace(s[0]) {
      TrimStartSpec(s[1..]);
    }
  }

  /** `TrimEnd` removes exactly the trailing white space. */
  lemma {:induction false} TrimEndSpec(s: string)
    ensures var r := TrimEnd(s);
      && |r| <= |s| && r == s[..|r|]
      && AllWhiteSpace(s[|r|..])
      && (r == [] || !IsWhiteSpace(r[|r| - 1]))
    decreases |s|
  {
    if |s| > 0 && IsWhiteSpace(s[|s| - 1]) {
      var init := s[..|s| - 1];
      TrimEndSpec(init);
      var r := TrimEnd(init);
      assert s[|r|..] == init[|r|..] + [s[|s| - 1]];
    }
  }

  /** A string is its own trim exactly when it neither starts nor ends with white space. */
  lemma TrimFixpoint(s: string)
    ensures Trim(s) == s <==> IsTrimmed(s)
  {
    TrimStartSpec(s);
    TrimEndSpec(TrimStart(s));
    if IsTrimmed(s) && s != [] {
      assert TrimStart(s) == s;
      assert TrimEnd(s) == s;
    }
  }

  /** What `Trim` returns is a block of the input: it adds no character. */
  lemma TrimIsInfix(s: string)
    ensures exists i, j :: 0 <= i <= j <= |s| && Trim(s) == s[i..j]
  {
    TrimStartSpec(s);
    var t := TrimStart(s);
    TrimEndSpec(t);
    var i := |s| - |t|;
    var r := TrimEnd(t);
    assert r == s[i..i + |r|];
  }

  /** A character absent from the input is absent from its trim. */
  lemma TrimKeepsOut(s: string, c: char)
    requires c !in s
    ensures c !in Trim(s)
  {
    TrimIsInfix(s);
    var i, j :| 0 <= i <= j <= |s| && Trim(s) == s[i..j];
    assert forall m :: 0 <= m < j - i ==> s[i..j][m] == s[i + m];
  }

  /** The trim of anything is trimmed, so trimming twice is trimming once. */
  lemma TrimIdempotent(s: string)
    ensures IsTrimmed(Trim(s))
    ensures Trim(Trim(s)) == Trim(s)
  {
    TrimStartSpec(s);
    var u := TrimStart(s);
    TrimEndSpec(u);
    var t := Trim(s);
    if t != [] {
      assert t == u[..|t|];
      assert !IsWhiteSpace(t[0]);
      assert !IsWhiteSpace(t[|t| - 1]);
    }
    TrimFixpoint(t);
  }
}
