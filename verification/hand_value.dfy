/** The hand evaluator: every Ace first counts 11, then while the total is
    over 21 and some Ace still counts 11, one Ace is recounted as 1. */
module HandValue {
  import opened Cards

  /** Sum of the raw card values, every Ace counted as 11. */
  function RawSum(hand: seq<Card>): nat {
    if hand == [] then 0 else RawSum(hand[..|hand| - 1]) + CardValue(hand[|hand| - 1])
  }

  /** Number of Aces in the hand. */
  function AceCount(hand: seq<Card>): nat {
    if hand == [] then 0
    else AceCount(hand[..|hand| - 1]) + (if hand[|hand| - 1].rank == Ace then 1 else 0)
  }

  /** How many of `aces` Aces are recounted as 1 for a raw total `raw`: the
      least number that brings the total to 21 or below, and all of them
      when even that is not enough. */
  function SoftenCount(raw: int, aces: nat): (k: nat)
    ensures k <= aces
    ensures raw - 10 * k <= 21 || k == aces
    ensures k > 0 ==> raw - 10 * (k - 1) > 21
  {
    if raw <= 21 then 0
    else if (raw - 12) / 10 < aces then (raw - 12) / 10
    else aces
  }

  /** `calculatePoints`: the value of a hand. */
  function Points(hand: seq<Card>): (p: int)
    ensures RawSum(hand) - 10 * AceCount(hand) <= p <= RawSum(hand)
    ensures p <= 21 || p == RawSum(hand) - 10 * AceCount(hand)
    ensures RawSum(hand) <= 21 ==> p == RawSum(hand)
    ensures (p - RawSum(hand)) % 10 == 0
  {
    RawSum(hand) - 10 * SoftenCount(RawSum(hand), AceCount(hand))
  }

  /** `calculatePoints` as the program writes it: one pass summing raw values
      and counting Aces, then the softening loop. Its result is the raw sum
      less 10 for each of the fewest Aces needed to reach 21 or below, or
      for all of them when that is not enough. */
  method CalculatePoints(hand: seq<Card>) returns (sum: int)
    ensures sum == Points(hand)
  {
    sum := 0;
    var aces := 0;
    var i := 0;
    while i < |hand|
      invariant 0 <= i <= |hand|
      invariant sum == RawSum(hand[..i])
      invariant aces == AceCount(hand[..i])
    {
      assert hand[..i + 1][..i] == hand[..i];
      var card := hand[i];
      if card.rank == Ace {
        sum := sum + 11;
        aces := aces + 1;
      } else {
        sum := sum + CardValue(card);
      }
      i := i + 1;
    }
    assert hand[..i] == hand;
    ghost var raw, total := sum, aces;
    while sum > 21 && aces > 0
      invariant 0 <= aces <= total
      invariant sum == raw - 10 * (total - aces)
      invariant total - aces <= SoftenCount(raw, total)
    {
      sum := sum - 10;
      aces := aces - 1;
    }
  }

  /** Both tallies split over a concatenation. */
  lemma {:induction false} TalliesAppend(a: seq<Card>, b: seq<Card>)
    ensures RawSum(a + b) == RawSum(a) + RawSum(b)
    ensures AceCount(a + b) == AceCount(a) + AceCount(b)
    decreases |b|
  {
    if b == [] {
      assert a + b == a;
    } else {
      var b' := b[..|b| - 1];
      assert (a + b)[..|a + b| - 1] == a + b';
      TalliesAppend(a, b');
    }
  }

  /** Taking the card at `i` out of a hand takes its value out of both tallies. */
  lemma TalliesRemoveAt(b: seq<Card>, i: nat)
    requires i < |b|
    ensures RawSum(b) == RawSum(b[..i] + b[i + 1..]) + CardValue(b[i])
    ensures AceCount(b) == AceCount(b[..i] + b[i + 1..]) + (if b[i].rank == Ace then 1 else 0)
  {
    var x := b[i];
    assert b == b[..i] + ([x] + b[i + 1..]);
    TalliesAppend(b[..i], [x] + b[i + 1..]);
    TalliesAppend([x], b[i + 1..]);
    TalliesAppend(b[..i], b[i + 1..]);
    assert [x][..0] == [];
  }

  /** Taking the element at `i` out of a sequence takes one copy out of its multiset. */
  lemma MultisetRemoveAt<T>(b: seq<T>, i: nat)
    requires i < |b|
    ensures multiset(b[..i] + b[i + 1..]) == multiset(b) - multiset{b[i]}
  {
    assert b == b[..i] + [b[i]] + b[i + 1..];
  }

  /** Both tallies depend only on which cards are held, not on their order. */
  lemma {:induction false} TalliesOfPermutation(a: seq<Card>, b: seq<Card>)
    requires multiset(a) == multiset(b)
    ensures RawSum(a) == RawSum(b)
    ensures AceCount(a) == AceCount(b)
    decreases |a|
  {
    if a != [] {
      var n := |a| - 1;
      var x := a[n];
      assert x in multiset(b);
      var i :| 0 <= i < |b| && b[i] == x;
      MultisetRemoveAt(a, n);
      MultisetRemoveAt(b, i);
      assert a[..n] + a[n + 1..] == a[..n];
      TalliesOfPermutation(a[..n], b[..i] + b[i + 1..]);
      TalliesRemoveAt(b, i);
    }
  }

  /** The value of a hand does not depend on the order of its cards. */
  lemma PointsOfPermutation(a: seq<Card>, b: seq<Card>)
    requires multiset(a) == multiset(b)
    ensures Points(a) == Points(b)
  {
    TalliesOfPermutation(a, b);
  }

  /** Each card adds between 1 and 10 beyond 10 per Ace. */
  lemma {:induction false} RawSumBounds(hand: seq<Card>)
    ensures |hand| + 10 * AceCount(hand) <= RawSum(hand) <= 10 * |hand| + AceCount(hand)
    ensures AceCount(hand) <= |hand|
  {
    if hand != [] {
      RawSumBounds(hand[..|hand| - 1]);
    }
  }

  /** `|hand| <= Points(hand) <= 11 * |hand|`. */
  lemma PointsBounds(hand: seq<Card>)
    ensures |hand| <= Points(hand) <= 11 * |hand|
  {
    RawSumBounds(hand);
  }

  /** A hand over 21 counts every Ace as 1; and a hand holding an Ace whose
      raw total is over 21 counts at least one Ace as 1. */
  lemma BustCountsAcesHard(hand: seq<Card>)
    ensures Points(hand) > 21 ==> Points(hand) == RawSum(hand) - 10 * AceCount(hand)
    ensures AceCount(hand) > 0 && RawSum(hand) > 21 ==> Points(hand) <= RawSum(hand) - 10
  {
  }

  /** Two cards are never over 21: two Aces count 12. */
  lemma TwoCardsNeverBust(hand: seq<Card>)
    requires |hand| == 2
    ensures Points(hand) <= 21
  {
    RawSumBounds(hand);
  }
}
