# Blackjack table logic in Dafny

A model of the sequential logic of a single-player Blackjack page: the
52-card deck and its Fisher-Yates shuffle, the hand evaluator (Aces 11,
recounted as 1 while the hand is over 21), the round transitions
`startGame`, `playerHit` and `dealerTurn` (the dealer draws to 17, then the
totals are compared), and the bet input's `increment`, `decrement` and
`commitValue`.

Modules, one per concern of `src/data/cards.ts`, `src/pages/Game.tsx` and
`src/components/BetControl.tsx`:

- `Options` (options.dfy): `Option<T>`; `None` stands for `NaN`.
- `Cards` (cards.dfy): `Rank`, `Suit`, `Card`; the deck built as
  `suits.flatMap(ranks.map)`; the card text `${rank}${suit}` and the way the
  evaluator reads it back.
- `Shuffle` (shuffle.dfy): the shuffle, with `Math.random` replaced by a
  caller-supplied choice sequence `js` where `js[i]` (in `0..i`) is the index
  picked at loop position `i`.
- `HandValue` (hand_value.dfy): `calculatePoints`, as a closed-form function
  `Points` and as the method `CalculatePoints` that follows the program's
  two loops.
- `Game` (game.dfy): the page state as an immutable `Table` record (player
  hand, dealer hand, remaining deck, `isPlayerTurn`, `dealerReveal`, result
  message as an `Outcome`) with pure transitions. The four timed deal steps
  are one step; the timed `dealOne` chain is the recursion `DrawCount` on the
  deck length. `Run` replays any sequence of button presses.
- `BetControl` (bet_control.dfy): the three bet operations over
  `(bet, minBet, step, disabled)`; the parsed text box is an `Option<int>`.

The program allows a hit at 21 (only going over 21 ends the turn), makes
no natural-21 check after the deal, and judges a dealer who runs out of
cards below 17 as it stands; the model does the same.

The property that the shuffle leaves its argument unchanged holds by
construction: `ShuffleDeck` takes the deck as an immutable sequence and
works on a fresh array copy of it.

## Model

| member | source | states |
|---|---|---|
| `Cards.FlatMapSuits` | src/data/cards.ts:4 | flat-mapping rows of one card per rank gives 13 cards per suit |
| `Cards.DeckIsStandard` | src/data/cards.ts:1-4 | the deck has exactly 52 cards, contains every rank-and-suit pair, and no two positions hold the same card |
| `Cards.DeckAt` | src/data/cards.ts:1-4 | card `i` of the deck is rank `i % 13` of suit `i / 13`, and its deck position is `i` |
| `Cards.DeckCountsOne` | src/data/cards.ts:1-4 | every card occurs exactly once in the deck's multiset |
| `Cards.ParseDecimal` | src/data/cards.ts:29 | the rank text parses to a number exactly when it starts with a digit; a single leading digit reads as its own value and two leading digits as the two-digit number, whatever non-digit follows |
| `Cards.LabelValue` | src/data/cards.ts:23-30 | "A" scores 11, "J", "Q" and "K" score 10, and any other text scores what `parseInt` makes of it |
| `Cards.RankLabelValue` | src/data/cards.ts:23-30 | scoring a rank's text ("A" 11, "J"/"Q"/"K" 10, else `parseInt`) gives the rank's raw value |
| `Cards.LabelReadsAsCardValue` | src/data/cards.ts:21-31 | dropping the last character of `${rank}${suit}` leaves exactly the rank text, "10" included, and its score is the card's raw value |
| `Cards.CardValueRange` | src/data/cards.ts:23-30 | an Ace is the only card worth 11, face cards are worth 10, pips their number; every raw value is in 2..11 |
| `Shuffle.Swap` | src/data/cards.ts:11 | the swap exchanges two positions, keeps all others, and keeps the multiset |
| `Shuffle.ShuffleDown` | src/data/cards.ts:9-12 | running the loop from position `n - 1` down to 1 keeps the length, the multiset and the positions at or past `n` |
| `Shuffle.Shuffled` | src/data/cards.ts:7-14 | for any admissible choices the shuffled deck has the input's length and multiset |
| `Shuffle.ShuffleDeck` | src/data/cards.ts:7-14 | the array loop on a copy computes the shuffled order, a permutation of its input |
| `Shuffle.ShuffledDeckIsComplete` | src/data/cards.ts:4-14 | a shuffled standard deck has 52 cards and holds every card exactly once |
| `HandValue.SoftenCount` | src/data/cards.ts:34-37 | the number of Aces recounted is at most the Ace count, is the least that brings the total to 21 or below, and is all Aces when none does |
| `HandValue.Points` | src/data/cards.ts:17-39 | a hand's value lies between its raw sum with every Ace counted as 1 and its raw sum; it differs from the raw sum by a multiple of 10; it is the raw sum when that is 21 or less, and is over 21 only with every Ace counted as 1 |
| `HandValue.CalculatePoints` | src/data/cards.ts:17-39 | the summing loop and the softening loop terminate with the raw sum less 10 per recounted Ace, the least such count |
| `HandValue.RawSumBounds` | src/data/cards.ts:21-31 | each card adds between 1 and 10 plus 10 per Ace to the raw sum |
| `HandValue.TalliesOfPermutation` | src/data/cards.ts:21-31 | the raw sum and Ace count depend only on the multiset of cards |
| `HandValue.PointsOfPermutation` | src/data/cards.ts:21-37 | reordering a hand does not change its value |
| `HandValue.PointsBounds` | src/data/cards.ts:17-39 | a hand's value lies between its card count and 11 times it |
| `HandValue.BustCountsAcesHard` | src/data/cards.ts:34-37 | a value over 21 counts every Ace as 1; a hand with an Ace and raw sum over 21 counts at least one Ace as 1 |
| `HandValue.TwoCardsNeverBust` | src/data/cards.ts:17-39 | no two-card hand is over 21 |
| `Game.StartGame` | src/pages/Game.tsx:14-37 | the player gets cards 0-1 of the shuffled deck, the dealer cards 2-3, the rest stays as the deck; the table holds the whole deck; it is the player's turn with the dealer's card hidden and no result |
| `Game.DealSplit` | src/pages/Game.tsx:24-37 | cutting the shuffled deck into 2, 2 and the rest loses no card and adds none |
| `Game.PlayerHit` | src/pages/Game.tsx:41-54 | with an empty deck or off turn nothing changes; otherwise the top card moves to the end of the player's hand, the dealer's hand stays, the turn ends and the dealer is revealed exactly when the player goes over 21 (21 itself does not end it), and no card is gained or lost |
| `Game.DrawCount` | src/pages/Game.tsx:65-73 | the dealer's draw loop terminates, never takes more cards than the deck has, and ends at 17 or more or with the deck empty |
| `Game.DealerStopsAt17` | src/pages/Game.tsx:66-67 | every hand the dealer drew to was under 17 |
| `Game.Settle` | src/pages/Game.tsx:76-85 | every judgement is one of the four result messages |
| `Game.SettleRule` | src/pages/Game.tsx:76-85 | the player comes out ahead exactly when the dealer is over 21 or the player is higher; a tie exactly on equal totals with the dealer not over 21; otherwise the dealer wins |
| `Game.DealerTurn` | src/pages/Game.tsx:56-90 | off turn or with a result already shown nothing changes; otherwise the player's hand is untouched, the dealer's hand grows by a prefix of the deck, stopping at the first hand of 17 or more (every hand it drew to was under 17) or when the deck runs out, the turn ends, the dealer is revealed, the message judges the final totals, and no card is gained or lost |
| `Game.Step` | src/pages/Game.tsx:111-131 | "new round" leaves exactly the whole deck on the table; "hit" and "stand" neither gain nor lose a card |
| `Game.Run` | src/pages/Game.tsx:111-131 | over any sequence of presses, a table holding the whole deck keeps holding it, and once any press starts a round the table holds exactly the whole deck |
| `Game.InitialConsistent` | src/pages/Game.tsx:7-12 | the state before any round is consistent |
| `Game.StepConsistent` | src/pages/Game.tsx:14-90 | each button keeps the table consistent: on the player's turn there is no result, the dealer card is hidden and the player is not over 21; after it the dealer is revealed, every hand the dealer drew to beyond the first two cards was under 17, and the message is the correct one for the final hands |
| `Game.RunConsistent` | src/pages/Game.tsx:14-90 | any sequence of button presses keeps the table consistent, so a bust player is never compared with the dealer |
| `Game.RunConservesDeck` | src/pages/Game.tsx:14-90 | once a round has started, the hands and the deck together always hold each of the 52 cards exactly once |
| `Game.SettledRoundIsFrozen` | src/pages/Game.tsx:41-57 | once the player's turn is over, hitting and standing change nothing |
| `BetControl.FloorDiv` | src/components/BetControl.tsx:44 | the quotient is `Math.floor(a / b)` for either sign of `b` |
| `BetControl.Increment` | src/components/BetControl.tsx:20-25 | enabled, the bet goes up by exactly one step; disabled, it stays |
| `BetControl.Decrement` | src/components/BetControl.tsx:27-32 | enabled, the bet becomes the larger of the minimum and one step down, so never under the minimum; disabled, it stays |
| `BetControl.HandleInputChange` | src/components/BetControl.tsx:34-37 | enabled, the text box takes what was typed; disabled, it keeps its text |
| `BetControl.ClampInput` | src/components/BetControl.tsx:41-43 | `NaN` and amounts under the minimum become the minimum; others pass unchanged |
| `BetControl.CommitValue` | src/components/BetControl.tsx:39-47 | disabled, the bet stays; a zero step gives `NaN`; otherwise the result is a multiple of the step within one step of the clamped amount, at or below it for a positive step and at or above it for a negative one |
| `BetControl.CommitAtLeastMinimum` | src/components/BetControl.tsx:39-47 | when the minimum is a multiple of a positive step, a committed bet is never under the minimum |
| `BetControl.DefaultsCommitAtLeastMinimum` | src/components/BetControl.tsx:14-15 | with the default minimum 100 and step 100, every commit yields a bet of at least 100 |
| `BetControl.CommitIdempotent` | src/components/BetControl.tsx:41-46 | under the same condition, committing the committed bet again returns it unchanged |
| `BetControl.CommitCanFallUnderMinimum` | src/components/BetControl.tsx:42-44 | without that condition the rounding can undo the clamping: minimum 150, step 100, typed 150 commits 100 |
| `BetControl.DecrementUndoesIncrement` | src/components/BetControl.tsx:20-32 | from a bet at or above the minimum, a step down undoes a step up |
| `BetControl.IncrementUndoesDecrement` | src/components/BetControl.tsx:20-32 | a step up undoes a step down that the minimum did not cut short |
| `BetControl.DisabledChangesNothing` | src/components/BetControl.tsx:20-47 | while disabled, increment, decrement and commit leave the bet as it was, and typing leaves the text box as it was |

## Left out

- Randomness: `Math.random` becomes the choice sequence `js`; nothing is claimed about how likely each permutation is.
- Pacing: the `setTimeout` chains in `startGame` and `dealerTurn` are collapsed, so the intermediate hand snapshots are not modelled.
- Re-entrancy: "new round" is never disabled, so pressing it again during the two-second deal chain (src/pages/Game.tsx:23-35) or during the dealer's timed draws interleaves two timer chains, and the hands can then show cards of two different shuffles or lose a draw. `Step`, `Run`, `RunConsistent` and `RunConservesDeck` hold when each press's effects complete before the next press.
- React state: `useState` setters and stale closure values are replaced by one immutable `Table` per step.
- Messages: the localised message texts are the `Outcome` values.
- Rendering: the card, player-hand and dealer-hand components, including the hidden second dealer card, are presentation only.
- `parseInt` on arbitrary text: the bet text box enters as its parse result; `Cards.ParseDecimal` covers only unsigned digit text, which is all the rank texts need.
- JavaScript numbers: bets are unbounded integers; floating-point rounding of very large or fractional amounts is not modelled.
- Insurance, double-down, surrender, chip balance and payouts: none of them exists in the code.
