/** One table of the game: the player's hand, the dealer's hand, the rest of
    the deck, whose turn it is, whether the dealer's second card is shown,
    and the round's result message.

    Every paced step of the program (the four timed deal steps, the timed
    dealer draws) is collapsed into one transition that yields the state the
    last step leaves behind. */
module Game {
  import opened Cards
  import opened Shuffle
  import opened HandValue

  /** The result message; `NoMessage` is the empty message of a round in play. */
  datatype Outcome = NoMessage | PlayerBust | DealerBust | PlayerWins | Tie | DealerWins

  datatype Table = Table(
    player: seq<Card>,
    dealer: seq<Card>,
    deck: seq<Card>,
    isPlayerTurn: bool,
    dealerReveal: bool,
    message: Outcome)

  /** The state before the first round: nothing dealt, player's turn. */
  const Initial: Table := Table([], [], [], true, false, NoMessage)

  /** All cards on the table: both hands and the remaining deck. */
  function CardsOnTable(t: Table): multiset<Card> {
    multiset(t.player) + multiset(t.dealer) + multiset(t.deck)
  }

  /** `startGame`: shuffle a fresh deck with the choices `js`; the player gets
      its first two cards, the dealer the next two, the rest is the deck. */
  function StartGame(t: Table, js: seq<nat>): (r: Table)
    requires ValidChoices(js, DeckSize)
    ensures |r.player| == 2 && |r.dealer| == 2 && |r.deck| == DeckSize - 4
    ensures r.player + r.dealer + r.deck == Shuffled(Deck, js)
    ensures CardsOnTable(r) == multiset(Deck)
    ensures r.isPlayerTurn && !r.dealerReveal && r.message == NoMessage
  {
    DeckLength();
    var d := Shuffled(Deck, js);
    DealSplit(d);
    Table(d[..2], d[2..4], d[4..], true, false, NoMessage)
  }

  /** Cutting a deck into two, two and the rest loses and adds no card. */
  lemma DealSplit(d: seq<Card>)
    requires |d| >= 4
    ensures d[..2] + d[2..4] + d[4..] == d
    ensures multiset(d[..2]) + multiset(d[2..4]) + multiset(d[4..]) == multiset(d)
  {
    assert d == d[..2] + d[2..4] + d[4..];
  }

  /** `playerHit`: on the player's turn and with cards left, the top card of
      the deck goes to the end of the player's hand; going over 21 ends the
      round with the player bust. */
  function PlayerHit(t: Table): (r: Table)
    ensures |t.deck| == 0 || !t.isPlayerTurn ==> r == t
    ensures |t.deck| > 0 && t.isPlayerTurn ==>
      && r.player == t.player + [t.deck[0]]
      && r.deck == t.deck[1..]
      && r.dealer == t.dealer
      && (r.isPlayerTurn <==> Points(r.player) <= 21)
      && (r.dealerReveal <==> t.dealerReveal || Points(r.player) > 21)
      && r.message == (if Points(r.player) > 21 then PlayerBust else t.message)
    ensures CardsOnTable(r) == CardsOnTable(t)
  {
    if |t.deck| == 0 || !t.isPlayerTurn then t
    else
      var hand := t.player + [t.deck[0]];
      assert t.deck == [t.deck[0]] + t.deck[1..];
      var moved := t.(player := hand, deck := t.deck[1..]);
      if Points(hand) > 21 then
        moved.(message := PlayerBust, dealerReveal := true, isPlayerTurn := false)
      else moved
  }

  /** `dealOne`, repeated: the dealer draws from the top of the deck while its
      hand is under 17 and cards remain. Returns how many cards it draws; it
      then holds its hand followed by that many cards from the top of the deck. */
  function DrawCount(hand: seq<Card>, deck: seq<Card>): (n: nat)
    ensures n <= |deck|
    ensures Points(hand + deck[..n]) >= 17 || n == |deck|
    decreases |deck|
  {
    if Points(hand) < 17 && |deck| > 0 then
      var n := 1 + DrawCount(hand + [deck[0]], deck[1..]);
      assert hand + [deck[0]] + deck[1..][..n - 1] == hand + deck[..n];
      n
    else
      assert hand + deck[..0] == hand;
      0
  }

  /** The dealer never draws on 17 or more: every hand it drew to was under 17. */
  lemma {:induction false} DealerStopsAt17(hand: seq<Card>, deck: seq<Card>)
    ensures forall m :: 0 <= m < DrawCount(hand, deck) ==> Points(hand + deck[..m]) < 17
    decreases |deck|
  {
    var n := DrawCount(hand, deck);
    if n > 0 {
      var next := hand + [deck[0]];
      DealerStopsAt17(next, deck[1..]);
      forall m | 0 <= m < n ensures Points(hand + deck[..m]) < 17 {
        if m == 0 {
          assert hand + deck[..0] == hand;
        } else {
          assert next + deck[1..][..m - 1] == hand + deck[..m];
        }
      }
    }
  }

  /** How a finished round is judged: a dealer over 21 loses; otherwise the
      higher total wins and equal totals tie. */
  function Settle(playerPoints: int, dealerPoints: int): (o: Outcome)
    ensures o != NoMessage && o != PlayerBust
  {
    if dealerPoints > 21 then DealerBust
    else if playerPoints > dealerPoints then PlayerWins
    else if dealerPoints == playerPoints then Tie
    else DealerWins
  }

  /** The player comes out ahead exactly when the dealer is over 21 or the
      player's total is higher; a tie exactly when both totals are equal and
      the dealer is not over 21. */
  lemma SettleRule(p: int, d: int)
    ensures Settle(p, d) in {DealerBust, PlayerWins} <==> d > 21 || p > d
    ensures Settle(p, d) == Tie <==> d <= 21 && p == d
    ensures Settle(p, d) == DealerWins <==> d <= 21 && p < d
    ensures Settle(p, d) == DealerBust <==> d > 21
  {
  }

  /** `dealerTurn`: once the player stands (on the player's turn, with no
      result yet), reveal the dealer's card, let the dealer draw, and judge. */
  function DealerTurn(t: Table): (r: Table)
    ensures !t.isPlayerTurn || t.message != NoMessage ==> r == t
    ensures t.isPlayerTurn && t.message == NoMessage ==>
      var n := |r.dealer| - |t.dealer|;
      && r.player == t.player
      && 0 <= n <= |t.deck|
      && r.dealer == t.dealer + t.deck[..n]
      && r.deck == t.deck[n..]
      && (Points(r.dealer) >= 17 || r.deck == [])
      && (forall m :: 0 <= m < n ==> Points(t.dealer + t.deck[..m]) < 17)
      && !r.isPlayerTurn && r.dealerReveal
      && r.message == Settle(Points(t.player), Points(r.dealer))
    ensures CardsOnTable(r) == CardsOnTable(t)
  {
    if !t.isPlayerTurn || t.message != NoMessage then t
    else
      var n := DrawCount(t.dealer, t.deck);
      DealerStopsAt17(t.dealer, t.deck);
      var hand := t.dealer + t.deck[..n];
      assert t.deck == t.deck[..n] + t.deck[n..];
      Table(t.player, hand, t.deck[n..], false, true, Settle(Points(t.player), Points(hand)))
  }

  // ---------------------------------------------------------------------
  // Rounds as sequences of button presses.

  datatype Action = NewRound(choices: seq<nat>) | Hit | Stand

  predicate ValidAction(a: Action) {
    a.NewRound? ==> ValidChoices(a.choices, DeckSize)
  }

  /** One button press: "new round", "hit" or "stand". */
  function Step(t: Table, a: Action): (r: Table)
    requires ValidAction(a)
    ensures a.NewRound? ==> CardsOnTable(r) == multiset(Deck)
    ensures !a.NewRound? ==> CardsOnTable(r) == CardsOnTable(t)
  {
    match a
    case NewRound(js) => StartGame(t, js)
    case Hit => PlayerHit(t)
    case Stand => DealerTurn(t)
  }

  /** A sequence of button presses, each completing before the next. Once
      any of them starts a round, the table holds exactly the whole deck. */
  function Run(t: Table, acts: seq<Action>): (r: Table)
    requires forall i :: 0 <= i < |acts| ==> ValidAction(acts[i])
    ensures CardsOnTable(t) == multiset(Deck) ==> CardsOnTable(r) == multiset(Deck)
    ensures forall i :: 0 <= i < |acts| && acts[i].NewRound? ==> CardsOnTable(r) == multiset(Deck)
    decreases |acts|
  {
    if acts == [] then t
    else
      var rest := acts[1..];
      assert forall i :: 1 <= i < |acts| ==> acts[i] == rest[i - 1];
      Run(Step(t, acts[0]), rest)
  }

  /** What holds of every table the buttons can reach when each press
      completes before the next: while it is the player's turn there is no
      result, the dealer's card is hidden, the dealer holds at most the two
      dealt cards and the player is not over 21; once the turn is over the
      dealer's card is shown, every hand the dealer drew to beyond the two
      dealt cards was under 17, and the message is the correct judgement of
      the final hands. */
  predicate Consistent(t: Table) {
    && (t.isPlayerTurn ==>
          t.message == NoMessage && !t.dealerReveal && Points(t.player) <= 21 && |t.dealer| <= 2)
    && (!t.isPlayerTurn ==> t.message != NoMessage && t.dealerReveal)
    && (t.message == PlayerBust ==> Points(t.player) > 21)
    && (t.message in {DealerBust, PlayerWins, Tie, DealerWins} ==>
          && Points(t.player) <= 21
          && (Points(t.dealer) >= 17 || t.deck == [])
          && (forall m :: 2 <= m < |t.dealer| ==> Points(t.dealer[..m]) < 17)
          && t.message == Settle(Points(t.player), Points(t.dealer)))
  }

  lemma InitialConsistent()
    ensures Consistent(Initial)
  {
  }

  /** Each button keeps the table consistent. */
  lemma StepConsistent(t: Table, a: Action)
    requires ValidAction(a)
    requires Consistent(t)
    ensures Consistent(Step(t, a))
  {
    match a
    case NewRound(js) =>
      TwoCardsNeverBust(StartGame(t, js).player);
    case Hit =>
    case Stand =>
      if t.isPlayerTurn {
        var r := DealerTurn(t);
        var k := |t.dealer|;
        forall m | 2 <= m < |r.dealer| ensures Points(r.dealer[..m]) < 17 {
          assert r.dealer[..m] == t.dealer + t.deck[..m - k];
        }
      }
  }

  /** Any sequence of button presses, each completing before the next, keeps
      the table consistent: in particular a bust player is never judged
      against the dealer. That a settled round stays settled until a new one
      starts is `SettledRoundIsFrozen`. */
  lemma {:induction false} RunConsistent(t: Table, acts: seq<Action>)
    requires forall i :: 0 <= i < |acts| ==> ValidAction(acts[i])
    requires Consistent(t)
    ensures Consistent(Run(t, acts))
    decreases |acts|
  {
    if acts != [] {
      StepConsistent(t, acts[0]);
      RunConsistent(Step(t, acts[0]), acts[1..]);
    }
  }

  /** Once a round has started, the table always holds the whole deck, each
      card exactly once, whatever buttons are pressed, when each press
      completes before the next. */
  lemma {:induction false} RunConservesDeck(t: Table, acts: seq<Action>)
    requires forall i :: 0 <= i < |acts| ==> ValidAction(acts[i])
    requires CardsOnTable(t) == multiset(Deck)
    ensures CardsOnTable(Run(t, acts)) == multiset(Deck)
    ensures forall c: Card :: CardsOnTable(Run(t, acts))[c] == 1
    decreases |acts|
  {
    if acts != [] {
      RunConservesDeck(Step(t, acts[0]), acts[1..]);
    } else {
      forall c: Card ensures CardsOnTable(t)[c] == 1 {
        DeckCountsOne(c);
      }
    }
  }

  /** When it is not the player's turn, hitting and standing change nothing. */
  lemma SettledRoundIsFrozen(t: Table)
    requires !t.isPlayerTurn
    ensures PlayerHit(t) == t && DealerTurn(t) == t
  {
  }
}
