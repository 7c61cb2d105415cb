/** Playing cards and the ordered 52-card deck.

    The program writes a card as the text `${rank}${suit}`; here a card is a
    rank and a suit, and `CardLabel` gives back the text so that the way the
    hand evaluator reads a card (strip the last character, then look at the
    rank text) can be checked against the structured value. */
module Cards {
  import opened Options

  datatype Suit = Spades | Hearts | Diamonds | Clubs

  datatype Rank =
    | Ace | Two | Three | Four | Five | Six | Seven
    | Eight | Nine | Ten | Jack | Queen | King

  datatype Card = Card(rank: Rank, suit: Suit)

  /** The suits in the order the program lists them. */
  const Suits: seq<Suit> := [Spades, Hearts, Diamonds, Clubs]

  /** The ranks in the order the program lists them. */
  const Ranks: seq<Rank> :=
    [Ace, Two, Three, Four, Five, Six, Seven, Eight, Nine, Ten, Jack, Queen, King]

  /** `ranks.map(rank => card of rank and suit)`: one row of the deck. */
  function SuitRow(s: Suit): (row: seq<Card>)
    ensures |row| == |Ranks|
    ensures forall i :: 0 <= i < |row| ==> row[i] == Card(Ranks[i], s)
  {
    seq(|Ranks|, i requires 0 <= i < |Ranks| => Card(Ranks[i], s))
  }

  /** `suits.flatMap(suit => row of suit)`: the rows one after the other. */
  function FlatMapSuits(ss: seq<Suit>): (d: seq<Card>)
    ensures |d| == |Ranks| * |ss|
  {
    if ss == [] then [] else SuitRow(ss[0]) + FlatMapSuits(ss[1..])
  }

  /** The unshuffled deck: all of spades A..K, then hearts, diamonds, clubs. */
  const Deck: seq<Card> := FlatMapSuits(Suits)

  /** The size of the deck (`|Deck|`, see `DeckIsStandard`). */
  const DeckSize: nat := 52

  lemma DeckLength()
    ensures |Deck| == DeckSize
  {
  }

  function RankIndex(r: Rank): (k: nat)
    ensures k < |Ranks| && Ranks[k] == r
  {
    match r
    case Ace => 0
    case Two => 1
    case Three => 2
    case Four => 3
    case Five => 4
    case Six => 5
    case Seven => 6
    case Eight => 7
    case Nine => 8
    case Ten => 9
    case Jack => 10
    case Queen => 11
    case King => 12
  }

  function SuitIndex(s: Suit): (k: nat)
    ensures k < |Suits| && Suits[k] == s
  {
    match s
    case Spades => 0
    case Hearts => 1
    case Diamonds => 2
    case Clubs => 3
  }

  /** Position of a card in the unshuffled deck. */
  function DeckPosition(c: Card): nat {
    |Ranks| * SuitIndex(c.suit) + RankIndex(c.rank)
  }

  lemma RankIndexOfRanks(i: nat)
    requires i < |Ranks|
    ensures RankIndex(Ranks[i]) == i
  {
  }

  lemma SuitIndexOfSuits(i: nat)
    requires i < |Suits|
    ensures SuitIndex(Suits[i]) == i
  {
  }

  /** Element `i` of a flat-mapped row sequence is rank `i % 13` of suit `i / 13`. */
  lemma {:induction false} FlatMapSuitsAt(ss: seq<Suit>, i: nat)
    requires i < |FlatMapSuits(ss)|
    ensures FlatMapSuits(ss)[i] == Card(Ranks[i % 13], ss[i / 13])
    decreases |ss|
  {
    if i >= 13 {
      FlatMapSuitsAt(ss[1..], i - 13);
      assert (i - 13) % 13 == i % 13 && (i - 13) / 13 == i / 13 - 1;
    }
  }

  /** The deck is laid out suit by suit, each suit in rank order. */
  lemma DeckAt(i: nat)
    requires i < |Deck|
    ensures Deck[i] == Card(Ranks[i % 13], Suits[i / 13])
    ensures DeckPosition(Deck[i]) == i
  {
    FlatMapSuitsAt(Suits, i);
    RankIndexOfRanks(i % 13);
    SuitIndexOfSuits(i / 13);
  }

  /** Every card sits in the deck at its own position. */
  lemma DeckAtPosition(c: Card)
    ensures DeckPosition(c) < |Deck|
    ensures Deck[DeckPosition(c)] == c
  {
    var p := DeckPosition(c);
    FlatMapSuitsAt(Suits, p);
    assert p % 13 == RankIndex(c.rank) && p / 13 == SuitIndex(c.suit);
  }

  /** The deck holds exactly 52 cards, every rank-and-suit pair, with no duplicates. */
  lemma DeckIsStandard()
    ensures |Deck| == DeckSize
    ensures forall c: Card :: c in Deck
    ensures forall i, j :: 0 <= i < j < |Deck| ==> Deck[i] != Deck[j]
  {
    forall c: Card ensures c in Deck {
      DeckAtPosition(c);
    }
    forall i, j | 0 <= i < j < |Deck| ensures Deck[i] != Deck[j] {
      DeckAt(i);
      DeckAt(j);
    }
  }

  /** A sequence without duplicates holds each of its elements exactly once. */
  lemma {:induction false} DistinctCounts<T>(s: seq<T>, x: T)
    requires forall i, j :: 0 <= i < j < |s| ==> s[i] != s[j]
    ensures multiset(s)[x] == (if x in s then 1 else 0)
  {
    if s != [] {
      assert s == [s[0]] + s[1..];
      DistinctCounts(s[1..], x);
      if x == s[0] {
        assert x !in s[1..] by {
          forall k | 0 <= k < |s[1..]| ensures s[1..][k] != x {
            assert s[1..][k] == s[k + 1];
          }
        }
      }
    }
  }

  /** Each card occurs exactly once in the deck's multiset. */
  lemma DeckCountsOne(c: Card)
    ensures multiset(Deck)[c] == 1
  {
    DeckIsStandard();
    DistinctCounts(Deck, c);
  }

  // ---------------------------------------------------------------------
  // Card text and the evaluator's reading of it.

  /** The rank text the program uses: "A", "2" .. "10", "J", "Q", "K". */
  function RankLabel(r: Rank): string {
    match r
    case Ace => "A"
    case Two => "2"
    case Three => "3"
    case Four => "4"
    case Five => "5"
    case Six => "6"
    case Seven => "7"
    case Eight => "8"
    case Nine => "9"
    case Ten => "10"
    case Jack => "J"
    case Queen => "Q"
    case King => "K"
  }

  /** The suit symbols, each a single UTF-16 code unit. */
  function SuitSymbol(s: Suit): char {
    match s
    case Spades => '\U{2660}'
    case Hearts => '\U{2665}'
    case Diamonds => '\U{2666}'
    case Clubs => '\U{2663}'
  }

  /** The card text `${rank}${suit}`. */
  function CardLabel(c: Card): string {
    RankLabel(c.rank) + [SuitSymbol(c.suit)]
  }

  /** `text.slice(0, -1)`: everything but the last character. */
  function DropLast(text: string): string {
    if text == [] then [] else text[..|text| - 1]
  }

  predicate IsDigit(ch: char) {
    '0' <= ch <= '9'
  }

  function DigitValue(ch: char): int {
    ch as int - '0' as int
  }

  /** Value of the longest run of decimal digits at the start of `text`. */
  function LeadingDigitsValue(text: string, acc: nat): nat
    decreases |text|
  {
    if text == [] || !IsDigit(text[0]) then acc
    else LeadingDigitsValue(text[1..], 10 * acc + DigitValue(text[0]))
  }

  /** `parseInt` on text without sign or leading blanks: `None` is `NaN`. */
  function ParseDecimal(text: string): (r: Option<int>)
    ensures r.Some? <==> (text != [] && IsDigit(text[0]))
    ensures |text| >= 1 && IsDigit(text[0]) && (|text| == 1 || !IsDigit(text[1])) ==>
      r == Some(DigitValue(text[0]))
    ensures |text| >= 2 && IsDigit(text[0]) && IsDigit(text[1]) && (|text| == 2 || !IsDigit(text[2])) ==>
      r == Some(10 * DigitValue(text[0]) + DigitValue(text[1]))
  {
    if text == [] || !IsDigit(text[0]) then None
    else
      var d0 := DigitValue(text[0]);
      assert LeadingDigitsValue(text, 0) == LeadingDigitsValue(text[1..], d0);
      assert |text| >= 2 && IsDigit(text[1]) ==>
        LeadingDigitsValue(text[1..], d0) == LeadingDigitsValue(text[2..], 10 * d0 + DigitValue(text[1]));
      Some(LeadingDigitsValue(text, 0))
  }

  /** How the evaluator scores one piece of rank text: "A" is 11, "J", "Q"
      and "K" are 10, and anything else is whatever `parseInt` makes of it. */
  function LabelValue(rankText: string): (r: Option<int>)
    ensures rankText == "A" ==> r == Some(11)
    ensures rankText in ["J", "Q", "K"] ==> r == Some(10)
    ensures rankText !in ["A", "J", "Q", "K"] ==> r == ParseDecimal(rankText)
  {
    if rankText == "A" then Some(11)
    else if rankText in ["J", "Q", "K"] then Some(10)
    else ParseDecimal(rankText)
  }

  /** The raw value of a rank, an Ace counted as 11. */
  function RankValue(r: Rank): nat {
    match r
    case Ace => 11
    case Two => 2
    case Three => 3
    case Four => 4
    case Five => 5
    case Six => 6
    case Seven => 7
    case Eight => 8
    case Nine => 9
    case Ten => 10
    case Jack => 10
    case Queen => 10
    case King => 10
  }

  /** The raw value of a card, every Ace counted as 11. */
  function CardValue(c: Card): nat {
    RankValue(c.rank)
  }

  /** Scoring a rank's text the way the evaluator does gives the rank's raw value. */
  lemma RankLabelValue(r: Rank)
    ensures LabelValue(RankLabel(r)) == Some(RankValue(r))
  {
    var text := RankLabel(r);
    if r == Ten {
      assert text[1..][1..] == [];
      assert LeadingDigitsValue(text, 0) == LeadingDigitsValue(text[1..], 1) == 10;
    } else if r !in {Ace, Jack, Queen, King} {
      assert text[1..] == [];
      assert LeadingDigitsValue(text, 0) == LeadingDigitsValue(text[1..], RankValue(r));
    }
  }

  /** Reading a card's text the way the evaluator does (drop the suit
      character, then score the rank text) gives the card's raw value:
      the suit symbol is one character, so "10" survives whole. */
  lemma LabelReadsAsCardValue(c: Card)
    ensures DropLast(CardLabel(c)) == RankLabel(c.rank)
    ensures LabelValue(DropLast(CardLabel(c))) == Some(CardValue(c))
  {
    assert CardLabel(c)[..|CardLabel(c)| - 1] == RankLabel(c.rank);
    RankLabelValue(c.rank);
  }

  /** Raw values: 11 for an Ace, 10 for a face card, the pip count otherwise. */
  lemma CardValueRange(c: Card)
    ensures c.rank == Ace <==> CardValue(c) == 11
    ensures c.rank in {Jack, Queen, King} ==> CardValue(c) == 10
    ensures 2 <= CardValue(c) <= 11
    ensures c.rank !in {Ace, Jack, Queen, King} ==> CardValue(c) == RankIndex(c.rank) + 1
  {
  }
}
