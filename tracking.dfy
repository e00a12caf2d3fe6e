/**
 * Tracking ids `SEC-<year>-<five characters>`.  The clock and the random
 * number generator are parameters: `year` is what `getFullYear()` returned and
 * `picks` are the five values of `Math.floor(Math.random() * 36)`.
 */
module Tracking {
  import opened Strings
  import opened Wrappers

  const Alphabet: string := "ABCDEFGHIJKLMNOPQRSTUVWXYZ0123456789"
  const Prefix: string := "SEC-"

  /** `s.charAt(i)`: a one-character string, or "" outside the string. */
  function CharAt(s: string, i: int): (r: string)
    ensures |r| <= 1
    ensures |r| == 1 <==> 0 <= i < |s|
    ensures |r| == 1 ==> r[0] == s[i]
  {
    if 0 <= i < |s| then [s[i]] else ""
  }

  /** The indices `Math.floor(Math.random() * chars.length)` can produce. */
  predicate InRange(picks: seq<int>)
  {
    forall i :: 0 <= i < |picks| ==> 0 <= picks[i] < |Alphabet|
  }

  /** `Array.from({ length: 5 }, () => chars.charAt(pick)).join("")` */
  function RandomPart(picks: seq<int>): (r: string)
    ensures InRange(picks) ==> |r| == |picks|
    ensures InRange(picks) ==> forall i :: 0 <= i < |picks| ==> r[i] == Alphabet[picks[i]]
  {
    if |picks| == 0 then "" else CharAt(Alphabet, picks[0]) + RandomPart(picks[1..])
  }

  /** `generateTrackingId()` with the year and the five random picks given. */
  function TrackingId(year: nat, picks: seq<int>): (id: string)
    requires |picks| == 5
    ensures StartsWith(id, Prefix)
  {
    Prefix + NatToString(year) + "-" + RandomPart(picks)
  }

  // ---------------------------------------------------------------------------
  // The format, stated on its own, and reading an id back.
  // ---------------------------------------------------------------------------

  predicate IsUpperAlnum(c: char)
  {
    'A' <= c <= 'Z' || '0' <= c <= '9'
  }

  /** `^SEC-\d{4}-[A-Z0-9]{5}$` */
  predicate MatchesFormat(id: string)
  {
    && |id| == 14
    && id[..4] == "SEC-"
    && (forall i :: 4 <= i < 8 ==> IsDigit(id[i]))
    && id[8] == '-'
    && (forall i :: 9 <= i < 14 ==> IsUpperAlnum(id[i]))
  }

  /** Position of an alphabet character in `Alphabet`; -1 for any other character. */
  function AlphabetIndex(c: char): int
  {
    if 'A' <= c <= 'Z' then c as int - 'A' as int
    else if '0' <= c <= '9' then c as int - '0' as int + 26
    else -1
  }

  predicate IndexedFrom(k: nat)
    decreases |Alphabet| - k
  {
    k >= |Alphabet| || (IsUpperAlnum(Alphabet[k]) && AlphabetIndex(Alphabet[k]) == k && IndexedFrom(k + 1))
  }

  lemma {:induction false} IndexedFromAll(k: nat, i: nat)
    requires IndexedFrom(k) && k <= i < |Alphabet|
    ensures IsUpperAlnum(Alphabet[i]) && AlphabetIndex(Alphabet[i]) == i
    decreases i - k
  {
    if k < i {
      IndexedFromAll(k + 1, i);
    }
  }

  /** The 36 alphabet characters are upper-case letters and digits, and each
      is found again at its own position. */
  lemma AlphabetCharacters(i: nat)
    requires i < |Alphabet|
    ensures IsUpperAlnum(Alphabet[i]) && AlphabetIndex(Alphabet[i]) == i
  {
    // One unfolding per position, from the end of the alphabet back to its start.
    assert IndexedFrom(36);
    assert IndexedFrom(35);
    assert IndexedFrom(34);
    assert IndexedFrom(33);
    assert IndexedFrom(32);
    assert IndexedFrom(31);
    assert IndexedFrom(30);
    assert IndexedFrom(29);
    assert IndexedFrom(28);
    assert IndexedFrom(27);
    assert IndexedFrom(26);
    assert IndexedFrom(25);
    assert IndexedFrom(24);
    assert IndexedFrom(23);
    assert IndexedFrom(22);
    assert IndexedFrom(21);
    assert IndexedFrom(20);
    assert IndexedFrom(19);
    assert IndexedFrom(18);
    assert IndexedFrom(17);
    assert IndexedFrom(16);
    assert IndexedFrom(15);
    assert IndexedFrom(14);
    assert IndexedFrom(13);
    assert IndexedFrom(12);
    assert IndexedFrom(11);
    assert IndexedFrom(10);
    assert IndexedFrom(9);
    assert IndexedFrom(8);
    assert IndexedFrom(7);
    assert IndexedFrom(6);
    assert IndexedFrom(5);
    assert IndexedFrom(4);
    assert IndexedFrom(3);
    assert IndexedFrom(2);
    assert IndexedFrom(1);
    assert IndexedFrom(0);
    IndexedFromAll(0, i);
  }

  /** Reads the year and the picks back out of an id. */
  function ParseTrackingId(id: string): (r: Option<(int, seq<int>)>)
  {
    if |id| < 10 || id[..4] != Prefix || id[|id| - 6] != '-' then None
    else Some((DigitsValue(id[4..|id| - 6]), seq(5, k requires 0 <= k < 5 => AlphabetIndex(id[|id| - 5 + k]))))
  }

  /** Parsing recovers the year and the picks, whatever the year. */
  lemma {:induction false} ParseTrackingIdRoundTrip(year: nat, picks: seq<int>)
    requires |picks| == 5 && InRange(picks)
    ensures ParseTrackingId(TrackingId(year, picks)) == Some((year as int, picks))
  {
    var y := NatToString(year);
    var part := RandomPart(picks);
    var id := TrackingId(year, picks);
    assert |part| == 5;
    assert id == Prefix + y + "-" + part;
    assert id[..4] == Prefix;
    assert id[4..|id| - 6] == y;
    assert id[|id| - 6] == '-';
    NatToStringRoundTrip(year);
    forall k | 0 <= k < 5 ensures AlphabetIndex(id[|id| - 5 + k]) == picks[k] {
      assert id[|id| - 5 + k] == part[k] == Alphabet[picks[k]];
      AlphabetCharacters(picks[k]);
    }
    assert seq(5, k requires 0 <= k < 5 => AlphabetIndex(id[|id| - 5 + k])) == picks;
  }

  /** For one year, different picks give different ids. */
  lemma DistinctPicksDistinctIds(year: nat, picks1: seq<int>, picks2: seq<int>)
    requires |picks1| == 5 && InRange(picks1)
    requires |picks2| == 5 && InRange(picks2)
    requires picks1 != picks2
    ensures TrackingId(year, picks1) != TrackingId(year, picks2)
  {
    ParseTrackingIdRoundTrip(year, picks1);
    ParseTrackingIdRoundTrip(year, picks2);
  }

  /** With a four-digit year the id has the published format. */
  lemma {:induction false} FourDigitYearFormat(year: nat, picks: seq<int>)
    requires 1000 <= year <= 9999
    requires |picks| == 5 && InRange(picks)
    ensures MatchesFormat(TrackingId(year, picks))
    ensures |RandomPart(picks)| == 5
  {
    var y := NatToString(year);
    var part := RandomPart(picks);
    var id := TrackingId(year, picks);
    FourDigits(year);
    assert |part| == 5;
    assert |y| == 4;
    assert |Prefix| == 4;
    assert id == Prefix + y + "-" + part;
    assert |id| == 14;
    forall i | 4 <= i < 8 ensures IsDigit(id[i]) {
      assert id[i] == y[i - 4];
    }
    forall i | 9 <= i < 14 ensures IsUpperAlnum(id[i]) {
      assert id[i] == part[i - 9] == Alphabet[picks[i - 9]];
      AlphabetCharacters(picks[i - 9]);
    }
  }
}
