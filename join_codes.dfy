/**
 * The join code an organizer is created with (`Endpoints/Auth.cs`, the
 * do/while loops of the organizer registration and of the first Google
 * login): the first eight characters of a new GUID in its "N" form, drawn
 * again while some organizer already holds the code. GUIDs are a supplied
 * stream.
 */
module JoinCodes {
  /** A digit of a GUID in its "N" form: lower-case hexadecimal. */
  predicate IsHexDigit(c: char) {
    '0' <= c <= '9' || 'a' <= c <= 'f'
  }

  /** `Guid.ToString("N")`: 32 lower-case hexadecimal digits. */
  predicate IsGuidN(g: string) {
    |g| == 32 && forall i :: 0 <= i < |g| ==> IsHexDigit(g[i])
  }

  /** `Substring(0, 8)`: a code is the first eight digits of a GUID. */
  function CodeOf(g: string): (c: string)
    requires IsGuidN(g)
    ensures |c| == 8
    ensures forall i :: 0 <= i < 8 ==> IsHexDigit(c[i]) && c[i] == g[i]
  {
    g[..8]
  }

  /** The generated codes are not upper-cased: they never contain 'A'-'F'. */
  lemma CodeIsLowerCase(g: string)
    requires IsGuidN(g)
    ensures forall i :: 0 <= i < |CodeOf(g)| ==> !('A' <= CodeOf(g)[i] <= 'Z')
  {
  }

  /**
   * The do/while loop: draw codes from `guids` in turn until one is held by
   * no organizer. The stream is assumed to hold such a GUID (the source loops
   * until it draws one). The result is the first free code of the stream.
   */
  method FirstUnusedCode(taken: seq<string>, guids: seq<string>) returns (k: nat, code: string)
    requires forall i :: 0 <= i < |guids| ==> IsGuidN(guids[i])
    requires exists i :: 0 <= i < |guids| && CodeOf(guids[i]) !in taken
    ensures k < |guids| && code == CodeOf(guids[k])
    ensures |code| == 8 && code !in taken
    ensures forall i :: 0 <= i < k ==> CodeOf(guids[i]) in taken
  {
    k := 0;
    code := CodeOf(guids[0]);
    while code in taken
      invariant k < |guids| && code == CodeOf(guids[k])
      invariant forall i :: 0 <= i < k ==> CodeOf(guids[i]) in taken
      invariant exists i :: k <= i < |guids| && CodeOf(guids[i]) !in taken
      decreases |guids| - k
    {
      k := k + 1;
      code := CodeOf(guids[k]);
    }
  }
}
