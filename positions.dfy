/**
 * A player's position tags are stored in one text column, joined with ",".
 * The handlers serialise with `string.Join(",", tags)` and read back with
 * `Split(',')`, either raw (the team roster) or with empty entries removed
 * and entries trimmed (the player list).
 */
module Positions {
  import opened Wrappers
  import opened Seqs
  import opened DotNetText

  const Separator: char := ','

  /** `string.Join(",", tags)`. */
  function Join(tags: seq<string>): string {
    if |tags| == 0 then ""
    else if |tags| == 1 then tags[0]
    else tags[0] + [Separator] + Join(tags[1..])
  }

  /** `s.Split(',')`: at least one part, and no part holds the separator. */
  function Split(s: string): (parts: seq<string>)
    ensures |parts| >= 1
    ensures forall k :: 0 <= k < |parts| ==> Separator !in parts[k]
  {
    if |s| == 0 then [""]
    else
      var rest := Split(s[1..]);
      if s[0] == Separator then [""] + rest
      else [[s[0]] + rest[0]] + rest[1..]
  }

  /** `StringSplitOptions.TrimEntries | RemoveEmptyEntries` applied to split parts. */
  function Clean(parts: seq<string>): (r: seq<string>)
    ensures |r| <= |parts|
    ensures forall k :: 0 <= k < |r| ==> r[k] != "" && IsTrimmed(r[k])
  {
    if parts == [] then []
    else
      var t := Trim(parts[0]);
      TrimIdempotent(parts[0]);
      if t == "" then Clean(parts[1..]) else [t] + Clean(parts[1..])
  }

  /** An entry that `RemoveEmptyEntries` keeps. */
  predicate NonEmpty(t: string) {
    t != ""
  }

  /**
   * Cleaning is `Select(Trim)` then `Where(NonEmpty)`: every part whose trim
   * is non-empty survives, trimmed, in the order of the parts, and no other
   * entry appears.
   */
  lemma {:induction false} CleanIsTrimThenFilter(parts: seq<string>)
    ensures Clean(parts) == Filter(Map(parts, Trim), NonEmpty)
    decreases |parts|
  {
    if parts != [] {
      CleanIsTrimThenFilter(parts[1..]);
      var m := Map(parts, Trim);
      assert m[0] == Trim(parts[0]);
      assert m[1..] == Map(parts[1..], Trim);
    }
  }

  /** Trimming entries and dropping empty ones introduces no separator. */
  lemma {:induction false} CleanSeparatorFree(parts: seq<string>)
    requires forall k :: 0 <= k < |parts| ==> Separator !in parts[k]
    ensures forall k :: 0 <= k < |Clean(parts)| ==> Separator !in Clean(parts)[k]
    decreases |parts|
  {
    if parts != [] {
      assert Separator !in parts[0];
      TrimKeepsOut(parts[0], Separator);
      CleanSeparatorFree(parts[1..]);
      var t, rest := Trim(parts[0]), Clean(parts[1..]);
      if t != "" {
        assert Clean(parts) == [t] + rest;
        forall k | 0 <= k < |Clean(parts)| ensures Separator !in Clean(parts)[k] {
          if k > 0 { assert Clean(parts)[k] == rest[k - 1]; }
        }
      }
    }
  }

  /** `s.Split(',', RemoveEmptyEntries | TrimEntries)`. */
  function SplitEntries(s: string): seq<string> {
    Clean(Split(s))
  }

  /** The stored column for an optional tag list: the join, or null when the list is absent. */
  function Column(tags: Option<seq<string>>): (r: Option<string>)
    ensures r.Some? <==> tags.Some?
  {
    match tags
    case Some(ts) => Some(Join(ts))
    case None => None
  }

  /** A tag that survives the trip through the column: non-empty, without a separator, trimmed. */
  predicate WellFormedTag(t: string) {
    t != "" && Separator !in t && IsTrimmed(t)
  }

  lemma {:induction false} SplitCommaFree(a: string)
    requires Separator !in a
    ensures Split(a) == [a]
    decreases |a|
  {
    if |a| > 0 {
      SplitCommaFree(a[1..]);
      assert [a[0]] + a[1..] == a;
    }
  }

  lemma {:induction false} SplitAtSeparator(a: string, b: string)
    requires Separator !in a
    ensures Split(a + [Separator] + b) == [a] + Split(b)
    decreases |a|
  {
    var s := a + [Separator] + b;
    if |a| == 0 {
      assert s[1..] == b;
    } else {
      assert s[1..] == a[1..] + [Separator] + b;
      SplitAtSeparator(a[1..], b);
      assert [a[0]] + a[1..] == a;
    }
  }

  /** Splitting a join of separator-free tags gives the tags back (raw split, as the roster does). */
  lemma {:induction false} SplitJoin(tags: seq<string>)
    requires |tags| >= 1
    requires forall k :: 0 <= k < |tags| ==> Separator !in tags[k]
    ensures Split(Join(tags)) == tags
    decreases |tags|
  {
    if |tags| == 1 {
      SplitCommaFree(tags[0]);
    } else {
      SplitJoin(tags[1..]);
      SplitAtSeparator(tags[0], Join(tags[1..]));
      assert [tags[0]] + tags[1..] == tags;
    }
  }

  /** Joining the raw split of any string gives the string back. */
  lemma {:induction false} JoinSplit(s: string)
    ensures Join(Split(s)) == s
    decreases |s|
  {
    if |s| > 0 {
      var rest := Split(s[1..]);
      JoinSplit(s[1..]);
      if s[0] == Separator {
        assert ([""] + rest)[1..] == rest;
      } else if |rest| > 1 {
        assert ([[s[0]] + rest[0]] + rest[1..])[1..] == rest[1..];
      }
      assert [s[0]] + s[1..] == s;
    }
  }

  lemma {:induction false} CleanWellFormed(tags: seq<string>)
    requires forall k :: 0 <= k < |tags| ==> WellFormedTag(tags[k])
    ensures Clean(tags) == tags
    decreases |tags|
  {
    if tags != [] {
      TrimFixpoint(tags[0]);
      CleanWellFormed(tags[1..]);
      assert [tags[0]] + tags[1..] == tags;
    }
  }

  /**
   * The round trip of the player list: well-formed tags, joined for storage and
   * read back with empty entries removed and entries trimmed, are the tags
   * themselves (the empty list included).
   */
  lemma SplitEntriesJoin(tags: seq<string>)
    requires forall k :: 0 <= k < |tags| ==> WellFormedTag(tags[k])
    ensures SplitEntries(Join(tags)) == tags
  {
    if tags == [] {
      assert Split("") == [""];
      TrimFixpoint("");
    } else {
      SplitJoin(tags);
      CleanWellFormed(tags);
    }
  }

  /** Every entry the player list shows is a well-formed tag. */
  lemma SplitEntriesWellFormed(s: string)
    ensures forall k :: 0 <= k < |SplitEntries(s)| ==> WellFormedTag(SplitEntries(s)[k])
  {
    CleanSeparatorFree(Split(s));
  }

  /** The roster's raw reading keeps empty and untrimmed entries ... */
  lemma RawReadingExample()
    ensures Split("a, ,b") == ["a", " ", "b"]
  {
    assert Split("") == [""];
    assert "b"[1..] == "";
    assert ['b'] + "" == "b";
    assert Split("b") == ["b"];
    assert ",b"[1..] == "b";
    assert Split(",b") == ["", "b"];
    assert " ,b"[1..] == ",b";
    assert [' '] + "" == " ";
    assert Split(" ,b") == [" ", "b"];
    assert ", ,b"[1..] == " ,b";
    assert Split(", ,b") == ["", " ", "b"];
    assert "a, ,b"[1..] == ", ,b";
    assert ['a'] + "" == "a";
  }

  /** ... which the player list's reading drops and trims. */
  lemma CleanReadingExample()
    ensures SplitEntries("a, ,b") == ["a", "b"]
  {
    RawReadingExample();
    assert TrimStart(" ") == "";
    assert Trim(" ") == "";
    assert Trim("a") == "a" by { TrimFixpoint("a"); }
    assert Trim("b") == "b" by { TrimFixpoint("b"); }
    assert Clean(["b"]) == ["b"];
    assert Clean([" ", "b"]) == ["b"];
  }
}
