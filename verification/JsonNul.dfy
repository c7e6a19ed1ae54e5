/** The scanner that refuses request bodies whose JSON carries a NUL, raw or escaped. */
module JsonNul {
  newtype byte = x: int | 0 <= x < 256

  const NUL: byte := 0
  const BACKSLASH: byte := 92
  const LOWER_U: byte := 117

  const ZERO_DIGIT: byte := 48

  // ---------------------------------------------------------------- what the text means

  function HexValue(b: byte): (v: int)
    ensures -1 <= v < 16
    ensures v == 0 <==> b == ZERO_DIGIT
    ensures v >= 0 ==> b != NUL && b != BACKSLASH
  {
    if 48 <= b <= 57 then b as int - 48
    else if 65 <= b <= 70 then b as int - 55
    else if 97 <= b <= 102 then b as int - 87
    else -1
  }

  /** A complete \uXXXX escape at position i. */
  predicate UnicodeAt(d: seq<byte>, i: nat) {
    && i + 6 <= |d| && d[i] == BACKSLASH && d[i + 1] == LOWER_U
    && HexValue(d[i + 2]) >= 0 && HexValue(d[i + 3]) >= 0
    && HexValue(d[i + 4]) >= 0 && HexValue(d[i + 5]) >= 0
  }

  function UnicodeValue(d: seq<byte>, i: nat): (v: nat)
    requires UnicodeAt(d, i)
  {
    HexValue(d[i + 2]) * 4096 + HexValue(d[i + 3]) * 256 + HexValue(d[i + 4]) * 16 + HexValue(d[i + 5])
  }

  /** The character a two-byte escape stands for; a byte that names none stands for itself. */
  function ShortEscape(b: byte): nat {
    if b == 98 then 8
    else if b == 102 then 12
    else if b == 110 then 10
    else if b == 114 then 13
    else if b == 116 then 9
    else b as nat
  }

  /** The text from position i read left to right, escapes decoded (section 7 of RFC 8259). */
  function Decoded(d: seq<byte>, i: nat): seq<nat>
    decreases |d| - i
  {
    if i >= |d| then []
    else if d[i] != BACKSLASH || i + 1 == |d| then [d[i] as nat] + Decoded(d, i + 1)
    else if UnicodeAt(d, i) then [UnicodeValue(d, i)] + Decoded(d, i + 6)
    else [ShortEscape(d[i + 1])] + Decoded(d, i + 2)
  }

  // ---------------------------------------------------------------- the scanner

  /** The six bytes the scanner looks for: a backslash, "u" and four zeros. */
  predicate EscapeAt(d: seq<byte>, i: nat) {
    && i + 6 <= |d| && d[i] == BACKSLASH && d[i + 1] == LOWER_U
    && d[i + 2] == ZERO_DIGIT && d[i + 3] == ZERO_DIGIT && d[i + 4] == ZERO_DIGIT && d[i + 5] == ZERO_DIGIT
  }

  /** First position of the escape's bytes at or after `start`, -1 when there is none. */
  function Find(d: seq<byte>, start: nat): (p: int)
    ensures p == -1 || (start <= p < |d| && EscapeAt(d, p))
    ensures forall q: nat | start <= q && (p == -1 || q < p) :: !EscapeAt(d, q)
    decreases |d| - start
  {
    if start + 6 > |d| then -1
    else if EscapeAt(d, start) then start
    else Find(d, start + 1)
  }

  /** Length of the run of backslashes that ends just before position p. */
  function RunBefore(d: seq<byte>, p: nat): (n: nat)
    requires p <= |d|
    ensures n <= p
  {
    if p == 0 || d[p - 1] != BACKSLASH then 0 else RunBefore(d, p - 1) + 1
  }

  /** The bytes of the escape at p, not preceded by a backslash that escapes its own. */
  predicate RealEscapeAt(d: seq<byte>, p: nat) {
    EscapeAt(d, p) && RunBefore(d, p) % 2 == 0
  }

  predicate NulAt(d: seq<byte>, p: nat) {
    p < |d| && (d[p] == NUL || RealEscapeAt(d, p))
  }

  predicate NulFrom(d: seq<byte>, i: nat) {
    exists p :: i <= p < |d| && NulAt(d, p)
  }

  lemma UnicodeStep(d: seq<byte>, i: nat)
    requires UnicodeAt(d, i) && RunBefore(d, i) % 2 == 0
    ensures NulFrom(d, i) <==> UnicodeValue(d, i) == 0 || NulFrom(d, i + 6)
    ensures RunBefore(d, i + 6) == 0
    ensures 0 in Decoded(d, i) <==> UnicodeValue(d, i) == 0 || 0 in Decoded(d, i + 6)
  {
    assert EscapeAt(d, i) <==> UnicodeValue(d, i) == 0;
    assert NulAt(d, i) <==> EscapeAt(d, i);
    assert !NulAt(d, i + 1) && !NulAt(d, i + 2) && !NulAt(d, i + 3) && !NulAt(d, i + 4) && !NulAt(d, i + 5);
  }

  lemma ShortStep(d: seq<byte>, i: nat)
    requires i + 1 < |d| && d[i] == BACKSLASH && !UnicodeAt(d, i) && RunBefore(d, i) % 2 == 0
    ensures NulFrom(d, i) <==> ShortEscape(d[i + 1]) == 0 || NulFrom(d, i + 2)
    ensures RunBefore(d, i + 2) % 2 == 0
    ensures 0 in Decoded(d, i) <==> ShortEscape(d[i + 1]) == 0 || 0 in Decoded(d, i + 2)
  {
    assert !NulAt(d, i);
    assert RunBefore(d, i + 1) == RunBefore(d, i) + 1;
    assert !RealEscapeAt(d, i + 1);
    assert NulAt(d, i + 1) <==> ShortEscape(d[i + 1]) == 0;
  }

  lemma PlainStep(d: seq<byte>, i: nat)
    requires i < |d| && (d[i] != BACKSLASH || i + 1 == |d|)
    ensures NulFrom(d, i) <==> d[i] == NUL || NulFrom(d, i + 1)
    ensures 0 in Decoded(d, i) <==> d[i] == NUL || 0 in Decoded(d, i + 1)
  {
    assert NulAt(d, i) <==> d[i] == NUL;
  }

  lemma LastBackslash(d: seq<byte>, i: nat)
    requires i + 1 == |d|
    ensures !NulFrom(d, i + 1) && 0 !in Decoded(d, i + 1)
  {
  }

  /** A position is where the reading starts a new character exactly when an even number of
      backslashes precedes it; from there, the text has a NUL exactly when a position has. */
  lemma {:induction false} DecodedNulIsNulFrom(d: seq<byte>, i: nat)
    requires i <= |d| && RunBefore(d, i) % 2 == 0
    ensures 0 in Decoded(d, i) <==> NulFrom(d, i)
    decreases |d| - i
  {
    if i == |d| {
      return;
    }
    if d[i] != BACKSLASH || i + 1 == |d| {
      PlainStep(d, i);
      if d[i] != BACKSLASH {
        assert RunBefore(d, i + 1) == 0;
        DecodedNulIsNulFrom(d, i + 1);
      } else {
        LastBackslash(d, i);
      }
    } else if UnicodeAt(d, i) {
      UnicodeStep(d, i);
      DecodedNulIsNulFrom(d, i + 6);
    } else {
      ShortStep(d, i);
      DecodedNulIsNulFrom(d, i + 2);
    }
  }

  predicate NoneBefore(d: seq<byte>, p: nat) {
    forall q: nat | q < p :: !RealEscapeAt(d, q)
  }

  predicate Backslashes(d: seq<byte>, from: int, until: int) {
    forall k | from <= k < until :: 0 <= k < |d| && d[k] == BACKSLASH
  }

  /** Walking back over backslashes from `found` counts the run before it, and itself. */
  lemma {:induction false} RunIs(d: seq<byte>, found: nat, index: int)
    requires found < |d| && -1 <= index < found
    requires Backslashes(d, index + 1, found + 1)
    requires index >= 0 ==> d[index] != BACKSLASH
    ensures RunBefore(d, found) == found - index - 1
  {
    if index < found - 1 {
      assert d[found - 1] == BACKSLASH;
      RunIs(d, found - 1, index);
    }
  }

  /** Nothing found from `seen` on, and nothing real before: the text has no escaped NUL. */
  lemma NothingLeft(d: seq<byte>, seen: nat)
    requires NoneBefore(d, seen) && Find(d, seen) == -1 && NUL !in d
    ensures 0 !in Decoded(d, 0)
  {
    DecodedNulIsNulFrom(d, 0);
    forall p: nat | p < |d|
      ensures !NulAt(d, p)
    {
      assert p < seen || !EscapeAt(d, p);
    }
  }

  lemma NulFound(d: seq<byte>, p: nat)
    requires NulAt(d, p)
    ensures 0 in Decoded(d, 0)
  {
    DecodedNulIsNulFrom(d, 0);
  }

  /** A match preceded by an odd run of backslashes is passed over, and so is what was before it. */
  lemma MatchPassed(d: seq<byte>, seen: nat)
    requires NoneBefore(d, seen) && Find(d, seen) != -1 && !RealEscapeAt(d, Find(d, seen))
    ensures NoneBefore(d, Find(d, seen) + 1)
  {
  }

  /** True exactly when the decoded text has a NUL character. The backward steps over all the
      matches together are at most the length of the input: the runs never overlap. */
  method ContainsJsonNul(data: seq<byte>) returns (nul: bool, ghost steps: nat)
    ensures nul <==> 0 in Decoded(data, 0)
    ensures steps <= |data|
  {
    steps := 0;
    if NUL in data {
      ghost var p: nat :| p < |data| && data[p] == NUL;
      NulFound(data, p);
      return true, steps;
    }
    var found := Find(data, 0);
    ghost var seen: nat := 0;
    while found != -1
      invariant found == Find(data, seen)
      invariant steps <= seen <= |data|
      invariant seen > 0 ==> seen < |data| && data[seen] == LOWER_U
      invariant NoneBefore(data, seen)
      decreases |data| - seen
    {
      ghost var before := steps;
      var index := found;
      while index >= 0 && data[index] == BACKSLASH
        invariant seen - 1 <= index <= found && steps == before + (found - index)
        invariant Backslashes(data, index + 1, found + 1)
      {
        index := index - 1;
        steps := steps + 1;
      }
      RunIs(data, found, index);
      if (found - index) % 2 == 1 {
        NulFound(data, found);
        return true, steps;
      }
      MatchPassed(data, seen);
      seen := found + 1;
      found := Find(data, found + 1);
    }
    NothingLeft(data, seen);
    return false, steps;
  }
}
