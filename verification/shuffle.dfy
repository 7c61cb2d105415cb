/** The Fisher-Yates shuffle of the deck.

    The random source is replaced by a sequence of choices supplied by the
    caller: `js[i]` is the index the loop picks when it is at position `i`,
    and, like `Math.floor(Math.random() * (i + 1))`, it lies in `0..i`. No
    claim is made about how the choices are distributed. */
module Shuffle {
  import opened Cards

  /** `js` gives one admissible choice for every position of an `n`-element deck. */
  predicate ValidChoices(js: seq<nat>, n: nat) {
    |js| == n && forall i :: 0 <= i < n ==> js[i] <= i
  }

  /** Exchange the elements at `i` and `j`. */
  function Swap<T>(s: seq<T>, i: nat, j: nat): (r: seq<T>)
    requires i < |s| && j < |s|
    ensures |r| == |s|
    ensures r[i] == s[j] && r[j] == s[i]
    ensures forall k :: 0 <= k < |s| && k != i && k != j ==> r[k] == s[k]
    ensures multiset(r) == multiset(s)
  {
    s[i := s[j]][j := s[i]]
  }

  /** The loop iterations for positions `n - 1` down to `1`, in that order:
      position `i` is swapped with position `js[i]`. */
  function ShuffleDown<T>(s: seq<T>, js: seq<nat>, n: nat): (r: seq<T>)
    requires n <= |s| && n <= |js|
    requires forall i :: 0 <= i < n ==> js[i] <= i
    ensures |r| == |s|
    ensures multiset(r) == multiset(s)
    ensures r[n..] == s[n..]
    decreases n
  {
    if n <= 1 then s else ShuffleDown(Swap(s, n - 1, js[n - 1]), js, n - 1)
  }

  /** The shuffled order for the choices `js`. */
  function Shuffled<T>(s: seq<T>, js: seq<nat>): (r: seq<T>)
    requires ValidChoices(js, |s|)
    ensures |r| == |s|
    ensures multiset(r) == multiset(s)
  {
    ShuffleDown(s, js, |s|)
  }

  /** `shuffleDeck`: copy the deck into a fresh array, then for `i` from the
      last index down to 1 swap `a[i]` with `a[js[i]]`. The argument is a
      value and is left as it was; the result is a permutation of it. */
  method ShuffleDeck<T>(deck: seq<T>, js: seq<nat>) returns (r: seq<T>)
    requires ValidChoices(js, |deck|)
    ensures r == Shuffled(deck, js)
    ensures |r| == |deck|
    ensures multiset(r) == multiset(deck)
  {
    ghost var target := Shuffled(deck, js);
    var a := new T[|deck|](k requires 0 <= k < |deck| => deck[k]);
    assert a[..] == deck;
    var i := |deck| - 1;
    while i > 0
      invariant -1 <= i < |deck|
      invariant a.Length == |deck|
      invariant ShuffleDown(a[..], js, i + 1) == target
    {
      ghost var before := a[..];
      var j := js[i];
      a[i], a[j] := a[j], a[i];
      assert a[..] == Swap(before, i, j);
      i := i - 1;
    }
    r := a[..];
    assert ShuffleDown(r, js, i + 1) == r;
  }

  /** Whatever the choices, a shuffled standard deck holds every card exactly once. */
  lemma ShuffledDeckIsComplete(js: seq<nat>)
    requires ValidChoices(js, DeckSize)
    ensures |Shuffled(Deck, js)| == DeckSize
    ensures forall c: Card :: multiset(Shuffled(Deck, js))[c] == 1
  {
    DeckIsStandard();
    forall c: Card ensures multiset(Shuffled(Deck, js))[c] == 1 {
      DeckCountsOne(c);
    }
  }
}
