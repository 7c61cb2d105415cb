/** The bet input: a minus button, a text box and a plus button.

    An enabled operation yields the bet it hands to `setBet`, and the text
    box is then set to the same number; a disabled one calls neither and
    yields the unchanged bet, so the text box keeps whatever it showed. The
    text box's content enters only through what
    `parseInt` makes of it, an `Option<int>` whose `None` is `NaN`. */
module BetControl {
  import opened Options

  /** The component's settings; the defaults are 100, 100 and enabled. */
  datatype BetProps = BetProps(minBet: int, step: int, disabled: bool)

  const DefaultProps: BetProps := BetProps(100, 100, false)

  /** `Math.floor(a / b)` for a non-zero divisor. Dafny's `/` rounds so that
      the remainder is never negative, which is the floor only for `b > 0`. */
  function FloorDiv(a: int, b: int): (q: int)
    requires b != 0
    ensures b > 0 ==> q * b <= a < q * b + b
    ensures b < 0 ==> q * b >= a > q * b + b
  {
    if b > 0 then a / b else (-a) / (-b)
  }

  /** `increment`: one step up, unless disabled. */
  function Increment(bet: int, p: BetProps): (r: int)
    ensures p.disabled ==> r == bet
    ensures !p.disabled ==> r - bet == p.step
  {
    if p.disabled then bet else bet + p.step
  }

  /** `decrement`: one step down but never under the minimum, unless disabled. */
  function Decrement(bet: int, p: BetProps): (r: int)
    ensures p.disabled ==> r == bet
    ensures !p.disabled ==> r >= p.minBet && r >= bet - p.step
    ensures !p.disabled ==> r == p.minBet || r == bet - p.step
  {
    if p.disabled then bet
    else if p.minBet > bet - p.step then p.minBet
    else bet - p.step
  }

  /** `handleInputChange`: the text box takes what was typed, unless disabled. */
  function HandleInputChange(text: string, typed: string, p: BetProps): (r: string)
    ensures p.disabled ==> r == text
    ensures !p.disabled ==> r == typed
  {
    if p.disabled then text else typed
  }

  /** The typed amount once `NaN` and amounts under the minimum are replaced
      by the minimum. */
  function ClampInput(typed: Option<int>, minBet: int): (v: int)
    ensures v >= minBet
    ensures typed.Some? && typed.value >= minBet ==> v == typed.value
    ensures typed.None? || typed.value < minBet ==> v == minBet
  {
    match typed
    case None => minBet
    case Some(n) => if n < minBet then minBet else n
  }

  /** `commitValue`: clamp the typed amount, then round it down to a multiple
      of the step. With a zero step the division yields `NaN` (`None`). */
  function CommitValue(bet: int, typed: Option<int>, p: BetProps): (r: Option<int>)
    ensures p.disabled ==> r == Some(bet)
    ensures !p.disabled && p.step == 0 ==> r == None
    ensures !p.disabled && p.step != 0 ==> r.Some? && r.value % p.step == 0
    ensures !p.disabled && p.step > 0 ==>
      var v := ClampInput(typed, p.minBet); r.Some? && v - p.step < r.value <= v
    ensures !p.disabled && p.step < 0 ==>
      var v := ClampInput(typed, p.minBet); r.Some? && v <= r.value < v - p.step
  {
    if p.disabled then Some(bet)
    else
      var v := ClampInput(typed, p.minBet);
      if p.step == 0 then None
      else
        var q := FloorDiv(v, p.step);
        MultipleMod(q, p.step);
        Some(q * p.step)
  }

  /** A multiple of `b` leaves no remainder. */
  lemma MultipleMod(q: int, b: int)
    requires b != 0
    ensures (q * b) % b == 0
  {
    var m := q * b;
    var d, r := m / b, m % b;
    assert (q - d) * b == r;
    // Case split for the solver: neither q - d >= 1 nor q - d <= -1 fits 0 <= r < |b|.
    if q - d >= 1 {
    } else if q - d <= -1 {
    }
  }

  lemma MulMonotone(x: int, y: int, b: int)
    requires x <= y && b > 0
    ensures x * b <= y * b
  {
    assert y * b - x * b == (y - x) * b;
  }

  lemma MulCancel(x: int, y: int, b: int)
    requires b > 0 && x * b < y * b
    ensures x < y
  {
    if x >= y {
      MulMonotone(y, x, b);
    }
  }

  /** A remainder-free amount is its own rounding. */
  lemma FloorDivOfMultiple(v: int, b: int)
    requires b > 0 && v % b == 0
    ensures FloorDiv(v, b) * b == v
  {
  }

  /** Rounding down to a multiple of `b` never drops below a multiple of `b`
      that the amount was at least. */
  lemma FloorDivMonotone(v: int, m: int, b: int)
    requires b > 0 && m % b == 0 && v >= m
    ensures FloorDiv(v, b) * b >= m
  {
    var q := FloorDiv(v, b);
    var k := m / b;
    assert m == k * b;
    assert k * b < (q + 1) * b;
    MulCancel(k, q + 1, b);
    MulMonotone(k, q, b);
  }

  /** When the minimum is a multiple of a positive step, a committed bet is never under the minimum. */
  lemma CommitAtLeastMinimum(bet: int, typed: Option<int>, p: BetProps)
    requires !p.disabled && p.step > 0 && p.minBet % p.step == 0
    ensures CommitValue(bet, typed, p).Some?
    ensures CommitValue(bet, typed, p).value >= p.minBet
  {
    FloorDivMonotone(ClampInput(typed, p.minBet), p.minBet, p.step);
  }

  /** The default settings (minimum 100, step 100) meet that condition, so
      with them a committed bet is never under 100. */
  lemma DefaultsCommitAtLeastMinimum(bet: int, typed: Option<int>)
    ensures CommitValue(bet, typed, DefaultProps).Some?
    ensures CommitValue(bet, typed, DefaultProps).value >= 100
  {
    CommitAtLeastMinimum(bet, typed, DefaultProps);
  }

  /** Under the same condition, committing the committed bet again (the text
      box now shows it) changes nothing. */
  lemma CommitIdempotent(bet: int, typed: Option<int>, p: BetProps)
    requires !p.disabled && p.step > 0 && p.minBet % p.step == 0
    ensures var r := CommitValue(bet, typed, p);
      r.Some? && CommitValue(r.value, r, p) == r
  {
    CommitAtLeastMinimum(bet, typed, p);
    var r := CommitValue(bet, typed, p).value;
    assert ClampInput(Some(r), p.minBet) == r;
    FloorDivOfMultiple(r, p.step);
  }

  /** Without that condition the rounding can undo the clamping: with a
      minimum of 150 and a step of 100, committing 150 gives 100. */
  lemma CommitCanFallUnderMinimum()
    ensures CommitValue(100, Some(150), BetProps(150, 100, false)) == Some(100)
  {
  }

  /** A step down undoes a step up from any bet at or above the minimum. */
  lemma DecrementUndoesIncrement(bet: int, p: BetProps)
    requires bet >= p.minBet
    ensures Decrement(Increment(bet, p), p) == bet
  {
  }

  /** A step up undoes a step down that the minimum did not cut short. */
  lemma IncrementUndoesDecrement(bet: int, p: BetProps)
    requires bet - p.step >= p.minBet
    ensures Increment(Decrement(bet, p), p) == bet
  {
  }

  /** While disabled, increment, decrement and commit leave the bet as it was,
      and typing leaves the text box as it was. */
  lemma DisabledChangesNothing(bet: int, text: string, typed: string, parsed: Option<int>, p: BetProps)
    requires p.disabled
    ensures Increment(bet, p) == bet
    ensures Decrement(bet, p) == bet
    ensures CommitValue(bet, parsed, p) == Some(bet)
    ensures HandleInputChange(text, typed, p) == text
  {
  }
}
