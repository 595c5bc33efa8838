/** The `transactions` table: an append-only trade log with three read queries. `now` stands for the
    database clock (`CURRENT_TIMESTAMP`, `NOW()`); times are milliseconds since the epoch. */
module Transactions {
  import opened Common

  const DayMs: int := 24 * 60 * 60 * 1000

  datatype TxRow = TxRow(
    tid: int,
    userId: int,
    coinId: int,
    kind: string,
    amount: int,
    pricePerToken: real,
    totalCost: real,
    createdAt: int)

  /** One point of a price history: the two columns `getPriceHistoryByCoin` selects. */
  datatype PricePoint = PricePoint(pricePerToken: real, createdAt: int)

  function CreatedAt(t: TxRow): int { t.createdAt }

  /** Rows of coin `coinId`. */
  function OfCoin(coinId: int): TxRow -> bool
  {
    (t: TxRow) => t.coinId == coinId
  }

  /** Rows of coin `coinId` written at most 24 hours before `now`. */
  function InLastDay(coinId: int, now: int): TxRow -> bool
  {
    (t: TxRow) => t.coinId == coinId && t.createdAt >= now - DayMs
  }

  function ToPoint(t: TxRow): PricePoint { PricePoint(t.pricePerToken, t.createdAt) }

  function Points(s: seq<TxRow>): (r: seq<PricePoint>)
    ensures |r| == |s| && forall i :: 0 <= i < |s| ==> r[i] == ToPoint(s[i])
  {
    if s == [] then [] else [ToPoint(s[0])] + Points(s[1..])
  }

  function SumAmounts(s: seq<TxRow>): int
  {
    if s == [] then 0 else SumAmounts(s[..|s| - 1]) + s[|s| - 1].amount
  }

  function PointTime(p: PricePoint): int { p.createdAt }

  /** `getPriceHistoryByCoin`: the price and time of every row of that coin, each exactly as often as it
      was logged, oldest first. */
  function PriceHistory(rows: seq<TxRow>, coinId: int): (r: seq<PricePoint>)
    ensures SortedBy(r, PointTime)
    ensures multiset(r) == multiset(Points(Filter(rows, OfCoin(coinId))))
  {
    SortBy(Points(Filter(rows, OfCoin(coinId))), PointTime)
  }

  /** Every logged trade of the coin shows up in its price history, and nothing else does. */
  lemma PriceHistoryMembers(rows: seq<TxRow>, coinId: int, p: PricePoint)
    ensures p in PriceHistory(rows, coinId) <==> exists t :: t in rows && t.coinId == coinId && ToPoint(t) == p
  {
    var mine := Filter(rows, OfCoin(coinId));
    assert p in PriceHistory(rows, coinId) <==> p in multiset(Points(mine));
    if p in Points(mine) {
      var i :| 0 <= i < |mine| && Points(mine)[i] == p;
      FilterMembers(rows, OfCoin(coinId), mine[i]);
    }
    if t :| t in rows && t.coinId == coinId && ToPoint(t) == p {
      FilterMembers(rows, OfCoin(coinId), t);
      var i :| 0 <= i < |mine| && mine[i] == t;
      assert Points(mine)[i] == p;
    }
  }

  /** No row of the last day survives the filter exactly when no row of the log is of the last day. */
  lemma NoRecentRows(rows: seq<TxRow>, coinId: int, now: int)
    ensures Filter(rows, InLastDay(coinId, now)) == [] <==> forall i :: 0 <= i < |rows| ==> !InLastDay(coinId, now)(rows[i])
  {
    var recent := Filter(rows, InLastDay(coinId, now));
    if recent != [] {
      FilterMembers(rows, InLastDay(coinId, now), recent[0]);
    } else {
      forall i | 0 <= i < |rows| ensures !InLastDay(coinId, now)(rows[i]) {
        FilterMembers(rows, InLastDay(coinId, now), rows[i]);
      }
    }
  }

  /** `getVolume24hByCoin`: the sum of the amounts of that coin's rows of the last 24 hours; `SUM` over
      no row is SQL NULL (`None`). */
  function Volume24h(rows: seq<TxRow>, coinId: int, now: int): (r: Option<int>)
    ensures r.None? <==> forall i :: 0 <= i < |rows| ==> !InLastDay(coinId, now)(rows[i])
  {
    NoRecentRows(rows, coinId, now);
    var recent := Filter(rows, InLastDay(coinId, now));
    if recent == [] then None else Some(SumAmounts(recent))
  }

  /** Logging one more trade of the coin adds its amount to the 24-hour volume; a trade of another coin,
      or one older than 24 hours, leaves the volume as it was. */
  lemma {:induction false} VolumeAfterAppend(rows: seq<TxRow>, t: TxRow, coinId: int, now: int)
    ensures Volume24h(rows + [t], coinId, now) ==
      if InLastDay(coinId, now)(t) then Some(match Volume24h(rows, coinId, now) case None => t.amount case Some(v) => v + t.amount)
      else Volume24h(rows, coinId, now)
  {
    FilterAppend(rows, t, InLastDay(coinId, now));
    var recent := Filter(rows, InLastDay(coinId, now));
    if InLastDay(coinId, now)(t) {
      assert (recent + [t])[..|recent|] == recent;
      assert SumAmounts(recent + [t]) == SumAmounts(recent) + t.amount;
      assert Filter(rows + [t], InLastDay(coinId, now)) == recent + [t] != [];
      assert Volume24h(rows + [t], coinId, now) == Some(SumAmounts(recent) + t.amount);
      if recent == [] {
        assert SumAmounts(recent) == 0;
        assert Volume24h(rows, coinId, now) == None;
      } else {
        assert Volume24h(rows, coinId, now) == Some(SumAmounts(recent));
      }
    } else {
      assert recent + [] == recent;
    }
  }

  /** The first of the recent rows in time order is a recent row of the log, no later than any other. */
  lemma EarliestRecentRow(rows: seq<TxRow>, coinId: int, now: int)
    requires Filter(rows, InLastDay(coinId, now)) != []
    ensures var first := SortBy(Filter(rows, InLastDay(coinId, now)), CreatedAt)[0];
      && first in rows && InLastDay(coinId, now)(first)
      && forall u :: u in rows && InLastDay(coinId, now)(u) ==> first.createdAt <= u.createdAt
  {
    var recent := Filter(rows, InLastDay(coinId, now));
    var sorted := SortBy(recent, CreatedAt);
    assert sorted[0] in multiset(recent);
    FilterMembers(rows, InLastDay(coinId, now), sorted[0]);
    forall u | u in rows && InLastDay(coinId, now)(u) ensures sorted[0].createdAt <= u.createdAt {
      FilterMembers(rows, InLastDay(coinId, now), u);
      assert u in multiset(sorted);
      var j :| 0 <= j < |sorted| && sorted[j] == u;
      assert j == 0 || CreatedAt(sorted[0]) <= CreatedAt(sorted[j]);
    }
  }

  /** `getPrice24hAgoByCoin`: the price of the earliest row of that coin in the last 24 hours, or null
      when there is none. */
  function Price24hAgo(rows: seq<TxRow>, coinId: int, now: int): (r: Option<real>)
    ensures r.None? <==> forall i :: 0 <= i < |rows| ==> !InLastDay(coinId, now)(rows[i])
    ensures r.Some? ==>
      exists t :: (t in rows && InLastDay(coinId, now)(t) && t.pricePerToken == r.value
        && forall u :: u in rows && InLastDay(coinId, now)(u) ==> t.createdAt <= u.createdAt)
  {
    NoRecentRows(rows, coinId, now);
    var recent := Filter(rows, InLastDay(coinId, now));
    if recent == [] then None
    else
      EarliestRecentRow(rows, coinId, now);
      Some(SortBy(recent, CreatedAt)[0].pricePerToken)
  }

  class TransactionLog {
    var rows: seq<TxRow>
    /** The next value of the `tid SERIAL` sequence. */
    var nextTid: int

    ghost predicate Valid()
      reads this
    {
      && nextTid >= 1
      && (forall i :: 0 <= i < |rows| ==> 1 <= rows[i].tid < nextTid)
      && (forall i, j :: 0 <= i < j < |rows| ==> rows[i].tid < rows[j].tid)
    }

    constructor ()
      ensures Valid() && rows == [] && nextTid == 1
    {
      rows := [];
      nextTid := 1;
    }

    /** `createTransaction`: appends exactly one row carrying the given fields, stamped `now`. The log
        has no other mutator, so rows are never edited or removed. */
    method CreateTransaction(userId: int, coinId: int, kind: string, amount: int, pricePerToken: real,
                             totalCost: real, now: int)
      returns (t: TxRow)
      requires Valid()
      modifies this
      ensures Valid()
      ensures t == TxRow(old(nextTid), userId, coinId, kind, amount, pricePerToken, totalCost, now)
      ensures rows == old(rows) + [t]
      ensures nextTid == old(nextTid) + 1
    {
      t := TxRow(nextTid, userId, coinId, kind, amount, pricePerToken, totalCost, now);
      rows := rows + [t];
      nextTid := nextTid + 1;
    }
  }
}
