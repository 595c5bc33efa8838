/** The betting statistics of the public profile page, computed from the bets of the profile reply
    (`None` when the reply has no `bets` field). Each bet arrives as text: the amount as the database
    prints its `DECIMAL(20, 7)` column, the result as `"win"` or `"lose"`. */
module BetStats {
  import opened Common
  import opened Text

  datatype BetView = BetView(betAmount: string, betResult: string)

  /** The activity table lists at most this many bets. */
  const ShownBets: nat := 10

  predicate IsWinView(b: BetView)
  {
    b.betResult == "win"
  }

  /** `bets?.length || 0`. */
  function TotalBets(bets: Option<seq<BetView>>): (n: nat)
    ensures bets.None? ==> n == 0
    ensures bets.Some? ==> n == |bets.value|
  {
    if bets.None? then 0 else |bets.value|
  }

  /** `bets?.filter(bet => bet.bet_result === 'win').length || 0`: never more than the bets, all of them
      exactly when every bet is a win, and none exactly when no bet is. */
  function TotalWins(bets: Option<seq<BetView>>): (n: nat)
    ensures n <= TotalBets(bets)
    ensures bets.Some? ==> (n == TotalBets(bets) <==> forall i :: 0 <= i < |bets.value| ==> IsWinView(bets.value[i]))
    ensures bets.Some? ==> (n == 0 <==> forall i :: 0 <= i < |bets.value| ==> !IsWinView(bets.value[i]))
    ensures bets.None? ==> n == 0
  {
    if bets.None? then 0
    else
      FilterKeepsAll(bets.value, IsWinView);
      FilterKeepsNone(bets.value, IsWinView);
      Count(bets.value, IsWinView)
  }

  /** The losses shown, `totalBets - totalWins`: never negative, and together with the wins they make up
      all bets. */
  function Losses(bets: Option<seq<BetView>>): (n: int)
    ensures n >= 0 && n + TotalWins(bets) == TotalBets(bets)
  {
    TotalBets(bets) - TotalWins(bets)
  }

  /** A count of at most `total` makes up a share between 0 and 1 of it. */
  lemma ShareOfTotal(part: nat, total: nat)
    requires 0 < total && part <= total
    ensures (part as real / total as real) * total as real == part as real
    ensures 0.0 <= part as real / total as real <= 1.0
  {
    var share := part as real / total as real;
    assert share * total as real == part as real;
    assert (1.0 - share) * total as real == (total - part) as real;
  }

  /** `winRate` before its rounding to one decimal: 0 without bets, else the share of wins in percent. */
  function WinRate(bets: Option<seq<BetView>>): (r: real)
    ensures TotalBets(bets) == 0 ==> r == 0.0
    ensures TotalBets(bets) > 0 ==> r * TotalBets(bets) as real == TotalWins(bets) as real * 100.0
    ensures 0.0 <= r <= 100.0
  {
    var total := TotalBets(bets);
    var wins := TotalWins(bets);
    if total > 0 then
      ShareOfTotal(wins, total);
      (wins as real / total as real) * 100.0
    else 0.0
  }

  /** `parseInt(bet.bet_amount)` for each bet, `None` standing for `NaN`. */
  function ParsedAmounts(bets: seq<BetView>): (r: seq<Option<int>>)
    ensures |r| == |bets| && forall i :: 0 <= i < |bets| ==> r[i] == ParseIntPrefix(bets[i].betAmount)
  {
    seq(|bets|, i requires 0 <= i < |bets| => ParseIntPrefix(bets[i].betAmount))
  }

  /** The running sum of the `reduce`, one term per bet in order; `None` (`NaN`) as soon as one term is
      `NaN`, since `NaN` absorbs every later addition. */
  function SumParsed(values: seq<Option<int>>): (r: Option<int>)
    ensures r.None? <==> exists k :: 0 <= k < |values| && values[k].None?
  {
    if values == [] then Some(0)
    else
      assert forall k :: 0 <= k < |values| - 1 ==> values[..|values| - 1][k] == values[k];
      match (SumParsed(values[..|values| - 1]), values[|values| - 1])
      case (Some(sum), Some(v)) => Some(sum + v)
      case _ => None
  }

  /** `bets?.reduce((sum, bet) => sum + parseInt(bet.bet_amount), 0) || 0`: the sum, with `NaN` and a
      missing list both shown as 0. */
  function TotalWagered(bets: Option<seq<BetView>>): (r: int)
    ensures bets.None? ==> r == 0
    ensures r != 0 ==> bets.Some? && SumParsed(ParsedAmounts(bets.value)) == Some(r)
  {
    if bets.None? then 0
    else match SumParsed(ParsedAmounts(bets.value))
      case None => 0
      case Some(v) => v
  }

  /** One `NaN` term anywhere makes the whole sum `NaN`. */
  lemma {:induction false} NaNAbsorbs(values: seq<Option<int>>, k: int)
    requires 0 <= k < |values| && values[k].None?
    ensures SumParsed(values).None?
  {
    if k < |values| - 1 {
      var front := values[..|values| - 1];
      assert front[k] == values[k];
      NaNAbsorbs(front, k);
    }
  }

  /** So one unreadable amount anywhere turns the shown total into 0. */
  lemma UnreadableAmountZeroesTotal(bets: seq<BetView>, k: int)
    requires 0 <= k < |bets| && ParseIntPrefix(bets[k].betAmount).None?
    ensures TotalWagered(Some(bets)) == 0
  {
    NaNAbsorbs(ParsedAmounts(bets), k);
  }

  /** How the database prints a whole amount in a `DECIMAL(20, 7)` column. */
  function StoredAmount(n: nat): string
  {
    NatToString(n) + ".0000000"
  }

  /** `parseInt` reads a printed amount back, stopping at the decimal point. */
  lemma StoredAmountReadsBack(n: nat)
    ensures ParseIntPrefix(StoredAmount(n)) == Some(n)
  {
    ParseIntOfPrintedNumber(n, ".0000000");
  }

  function SumOf(amounts: seq<nat>): nat
  {
    if amounts == [] then 0 else SumOf(amounts[..|amounts| - 1]) + amounts[|amounts| - 1]
  }

  /** When no term is `NaN`, the reduce adds up exactly the numbers. */
  lemma {:induction false} SumOfNumbers(values: seq<Option<int>>, amounts: seq<nat>)
    requires |values| == |amounts|
    requires forall i :: 0 <= i < |values| ==> values[i] == Some(amounts[i] as int)
    ensures SumParsed(values) == Some(SumOf(amounts) as int)
  {
    if values != [] {
      var n := |values| - 1;
      assert forall i :: 0 <= i < n ==> values[..n][i] == values[i] && amounts[..n][i] == amounts[i];
      SumOfNumbers(values[..n], amounts[..n]);
    }
  }

  /** For bets of whole amounts as the database prints them, `totalWagered` is the sum of the amounts:
      `parseInt` stops at the decimal point. */
  lemma TotalWageredOfStoredAmounts(bets: seq<BetView>, amounts: seq<nat>)
    requires |bets| == |amounts|
    requires forall i :: 0 <= i < |bets| ==> bets[i].betAmount == StoredAmount(amounts[i])
    ensures TotalWagered(Some(bets)) == SumOf(amounts)
  {
    var values := ParsedAmounts(bets);
    forall i | 0 <= i < |bets| ensures values[i] == Some(amounts[i] as int) {
      StoredAmountReadsBack(amounts[i]);
    }
    SumOfNumbers(values, amounts);
  }

  /** `bets.slice(0, 10)`: the first ten bets in the order of the reply (newest first), or all of them. */
  function Shown(bets: Option<seq<BetView>>): (r: seq<BetView>)
    ensures |r| == if bets.None? then 0 else Min(ShownBets, |bets.value|)
    ensures bets.Some? ==> r == bets.value[..|r|]
  {
    if bets.None? then [] else bets.value[..Min(ShownBets, |bets.value|)]
  }
}
