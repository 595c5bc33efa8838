/** The coin-flip page: the quick-bet buttons, the guard in front of a flip (also the state of the flip
    button), the win flag, and the outcome line shown after the animation. The balance is `None` while no
    portfolio is loaded (`portfolio?.cash` is `undefined`); a bet of `None` stands for `NaN`. The flip
    itself is drawn by the server and reaches the model as the reply. */
module CoinFlip {
  import opened Common
  import opened Text

  /** `maxBet`. */
  const MaxBet: int := 10000

  datatype Side = Heads | Tails

  function SideName(s: Side): string
  {
    match s
    case Heads => "heads"
    case Tails => "tails"
  }

  /** `handlePercentageBet`: `pct` percent of the balance, rounded down and capped at the maximum bet;
      `NaN` when no balance is loaded (`undefined * pct` is `NaN`, and so are its floor and minimum). */
  function PercentageBet(cash: Option<int>, pct: int): (bet: Option<int>)
    ensures bet.None? <==> cash.None?
    ensures bet.Some? ==> bet.value <= MaxBet && bet.value * 100 <= cash.value * pct
    ensures bet.Some? && bet.value < MaxBet ==> cash.value * pct < (bet.value + 1) * 100
  {
    if cash.None? then None else Some(Min((cash.value * pct) / 100, MaxBet))
  }

  /** For a quick-bet percentage and a non-negative balance, the bet never exceeds the balance. */
  lemma {:induction false} PercentageBetBounds(cash: int, pct: int)
    requires cash >= 0 && 0 <= pct <= 100
    ensures var bet := PercentageBet(Some(cash), pct).value;
      0 <= bet <= cash && bet <= MaxBet
  {
    var q := (cash * pct) / 100;
    assert cash * pct <= cash * 100 by {
      assert cash * (100 - pct) >= 0;
    }
    assert q * 100 <= cash * pct;
    assert q <= cash;
    assert q >= 0;
  }

  /** `handleFlip` returns at once when this holds. Each comparison with `NaN` or `undefined` is false, so
      a `NaN` bet is never blocked and a missing balance blocks nothing. */
  predicate FlipBlocked(bet: Option<int>, cash: Option<int>)
    ensures bet.None? ==> !FlipBlocked(bet, cash)
    ensures cash.None? ==> (FlipBlocked(bet, cash) <==> bet.Some? && (bet.value <= 0 || bet.value > MaxBet))
  {
    bet.Some? && (bet.value <= 0 || (cash.Some? && bet.value > cash.value) || bet.value > MaxBet)
  }

  /** The flip button: disabled while a flip runs and whenever `handleFlip` would refuse. */
  function FlipButtonDisabled(isFlipping: bool, bet: Option<int>, cash: Option<int>): (d: bool)
    ensures d <==> isFlipping || FlipBlocked(bet, cash)
    ensures !isFlipping && bet.Some? && d ==> bet.value <= 0 || bet.value > MaxBet || (cash.Some? && bet.value > cash.value)
  {
    isFlipping || FlipBlocked(bet, cash)
  }

  /** A quick bet on a loaded, non-negative balance passes the guard exactly when it is positive. */
  lemma QuickBetIsFlippable(cash: int, pct: int)
    requires cash >= 0 && 0 <= pct <= 100
    ensures !FlipBlocked(PercentageBet(Some(cash), pct), Some(cash)) <==> PercentageBet(Some(cash), pct).value > 0
  {
    PercentageBetBounds(cash, pct);
  }

  /** Before the portfolio has loaded, a quick bet is `NaN` and the guard lets it through. */
  lemma NaNQuickBetPassesGuard(pct: int)
    ensures PercentageBet(None, pct).None?
    ensures !FlipBlocked(PercentageBet(None, pct), None)
  {
  }

  /** The JSON body the server sends for a flip: success, the drawn side, and no `AmountWagered` field
      (`None`). */
  datatype FlipReply = FlipReply(success: bool, result: Side, amountWagered: Option<int>)

  /** `coinflip` of `GamblingController`: always a success carrying the drawn side; no amount. */
  function ServerReply(flip: Side): (r: FlipReply)
    ensures r.success && r.result == flip && r.amountWagered.None?
  {
    FlipReply(true, flip, None)
  }

  /** `isWin`: the drawn side is the side bet on, compared as the strings `"heads"` and `"tails"`. */
  predicate IsWin(result: Side, chosen: Side)
    ensures IsWin(result, chosen) <==> SideName(result) == SideName(chosen)
  {
    result == chosen
  }

  /** An integer as JavaScript prints it. */
  function NumberText(n: int): (s: string)
    ensures n >= 0 ==> s == NatToString(n)
    ensures n < 0 ==> s == "-" + NatToString(-n)
  {
    if n < 0 then "-" + NatToString(-n) else NatToString(n)
  }

  /** The outcome line. A missing amount prints as `NaN` on a win (`undefined * 2`) and as `undefined` on
      a loss. */
  function OutcomeText(isWin: bool, wagered: Option<int>, side: Side): (s: string)
    ensures |s| > 0 && (s[0] == 'W' <==> isWin) && (s[0] == 'L' <==> !isWin)
  {
    if isWin then
      "Won $" + (if wagered.Some? then NumberText(wagered.value * 2) else "NaN") + " on your " + SideName(side) + " bet!"
    else
      "Lost $" + (if wagered.Some? then NumberText(wagered.value) else "undefined") + " on your " + SideName(side) + " bet"
  }

  /** The line as the page builds it: the win flag from the reply's side, the amount from the reply's
      `AmountWagered`. */
  function ShownOutcome(reply: FlipReply, chosen: Side): (s: string)
    ensures |s| > 0 && (s[0] == 'W' <==> reply.result == chosen)
  {
    OutcomeText(IsWin(reply.result, chosen), reply.amountWagered, chosen)
  }

  /** With the reply the server actually sends, the amount is never shown: a win reads `Won $NaN` and a
      loss `Lost $undefined`. */
  lemma ShownOutcomeLosesAmount(flip: Side, chosen: Side)
    ensures IsWin(flip, chosen) ==> ShownOutcome(ServerReply(flip), chosen) == "Won $NaN on your " + SideName(chosen) + " bet!"
    ensures !IsWin(flip, chosen) ==> ShownOutcome(ServerReply(flip), chosen) == "Lost $undefined on your " + SideName(chosen) + " bet"
  {
  }

  /** The line with the amount the page itself sent as `betAmount`. */
  function CorrectedOutcome(result: Side, chosen: Side, betAmount: int): string
  {
    OutcomeText(IsWin(result, chosen), Some(betAmount), chosen)
  }

  /** A number printed behind a fixed prefix reads back from the end of the prefix. */
  lemma NumberBehindPrefix(prefix: string, n: nat, rest: string)
    requires rest == [] || !IsDigit(rest[0])
    ensures (prefix + NatToString(n) + rest)[|prefix|..] == NatToString(n) + rest
    ensures ParseIntPrefix((prefix + NatToString(n) + rest)[|prefix|..]) == Some(n)
  {
    assert (prefix + NatToString(n) + rest)[|prefix|..] == NatToString(n) + rest;
    ParseIntOfPrintedNumber(n, rest);
  }

  /** The win line for the bet the page sent, spelled out. */
  lemma CorrectedWinText(side: Side, betAmount: nat)
    ensures CorrectedOutcome(side, side, betAmount) == "Won $" + NatToString(betAmount * 2) + (" on your " + SideName(side) + " bet!")
  {
  }

  /** With the bet the page sent, a win shows twice the bet, readable back with `parseInt` behind
      `Won $`. */
  lemma CorrectedWinShowsDouble(side: Side, betAmount: nat)
    ensures ParseIntPrefix(CorrectedOutcome(side, side, betAmount)[5..]) == Some(betAmount * 2)
  {
    CorrectedWinText(side, betAmount);
    NumberBehindPrefix("Won $", betAmount * 2, " on your " + SideName(side) + " bet!");
  }

  /** The loss line for the bet the page sent, spelled out. */
  lemma CorrectedLossText(result: Side, chosen: Side, betAmount: nat)
    requires result != chosen
    ensures CorrectedOutcome(result, chosen, betAmount) == "Lost $" + NatToString(betAmount) + (" on your " + SideName(chosen) + " bet")
  {
  }

  /** A loss shows the bet itself behind `Lost $`. */
  lemma CorrectedLossShowsBet(result: Side, chosen: Side, betAmount: nat)
    requires result != chosen
    ensures ParseIntPrefix(CorrectedOutcome(result, chosen, betAmount)[6..]) == Some(betAmount)
  {
    CorrectedLossText(result, chosen, betAmount);
    NumberBehindPrefix("Lost $", betAmount, " on your " + SideName(chosen) + " bet");
  }
}
