/** The `portfolios` table (one holding per user and coin) and the statements of `PortfolioModel`:
    the upsert of `buyCoin`, the conditional decrement of `sellCoin`, the holding lookup, and the two
    holdings reports that join coins, users and the trade log. */
module Portfolio {
  import opened Common
  import Coins
  import Users
  import Transactions

  datatype HoldingRow = HoldingRow(pid: int, userId: int, coinId: int, amount: int)

  function KeyIs(userId: int, coinId: int): HoldingRow -> bool
  {
    (h: HoldingRow) => h.userId == userId && h.coinId == coinId
  }

  /** `UNIQUE(user_id, coin_id)`. */
  ghost predicate UniqueKeys(rows: seq<HoldingRow>)
  {
    forall i, j :: 0 <= i < j < |rows| ==> !(rows[i].userId == rows[j].userId && rows[i].coinId == rows[j].coinId)
  }

  ghost predicate AmountsNonNegative(rows: seq<HoldingRow>)
  {
    forall i :: 0 <= i < |rows| ==> rows[i].amount >= 0
  }

  /** `getPortfolioForUpdate`: the holding of that user in that coin, or null when there is none. */
  function GetPortfolioForUpdate(rows: seq<HoldingRow>, userId: int, coinId: int): (r: Option<HoldingRow>)
    ensures r.None? <==> forall i :: 0 <= i < |rows| ==> !(rows[i].userId == userId && rows[i].coinId == coinId)
    ensures r.Some? ==> r.value in rows && r.value.userId == userId && r.value.coinId == coinId
  {
    match IndexWhere(rows, KeyIs(userId, coinId))
    case None => None
    case Some(i) => Some(rows[i])
  }

  /** With unique keys the lookup returns the one holding of that pair. */
  lemma GetPortfolioIsTheHolding(rows: seq<HoldingRow>, h: HoldingRow)
    requires UniqueKeys(rows) && h in rows
    ensures GetPortfolioForUpdate(rows, h.userId, h.coinId) == Some(h)
  {
    var k :| 0 <= k < |rows| && rows[k] == h;
    var i := IndexWhere(rows, KeyIs(h.userId, h.coinId)).value;
    assert i == k;
  }

  class HoldingTable {
    var rows: seq<HoldingRow>
    /** The next value of the `pid SERIAL` sequence. */
    var nextPid: int

    ghost predicate Valid()
      reads this
    {
      && nextPid >= 1
      && (forall i :: 0 <= i < |rows| ==> 1 <= rows[i].pid < nextPid)
      && UniqueKeys(rows)
    }

    constructor ()
      ensures Valid() && rows == [] && nextPid == 1
    {
      rows := [];
      nextPid := 1;
    }

    /** `buyCoin`: `INSERT ... ON CONFLICT (user_id, coin_id) DO UPDATE SET amount = amount + $3`. A new
        pair gets a row holding `amount`; an existing one has `amount` added; no other row changes.
        `BigInt` throws on a fractional amount (`None`, nothing changes). The insert draws a `pid` from
        the sequence even when it turns into an update. */
    method BuyCoin(userId: int, coinId: int, amount: real) returns (r: Option<HoldingRow>)
      requires Valid()
      modifies this
      ensures Valid()
      ensures r.None? <==> amount.Floor as real != amount
      ensures r.None? ==> rows == old(rows) && nextPid == old(nextPid)
      ensures r.Some? ==> nextPid == old(nextPid) + 1
      ensures r.Some? ==>
        (match IndexWhere(old(rows), KeyIs(userId, coinId))
         case None =>
           && r.value == HoldingRow(old(nextPid), userId, coinId, amount.Floor)
           && rows == old(rows) + [r.value]
         case Some(i) =>
           && r.value == old(rows)[i].(amount := old(rows)[i].amount + amount.Floor)
           && rows == old(rows)[i := r.value])
      ensures old(AmountsNonNegative(rows)) && amount >= 0.0 ==> AmountsNonNegative(rows)
    {
      if amount.Floor as real != amount {
        return None;
      }
      var n := amount.Floor;
      var pid := nextPid;
      nextPid := nextPid + 1;
      match IndexWhere(rows, KeyIs(userId, coinId))
      case None =>
        var h := HoldingRow(pid, userId, coinId, n);
        rows := rows + [h];
        r := Some(h);
      case Some(i) =>
        var h := rows[i].(amount := rows[i].amount + n);
        rows := rows[i := h];
        r := Some(h);
    }

    /** `sellCoin`: floors the requested amount, then `amount - n WHERE amount >= n` on that pair's row.
        When there is no such row or it holds less, nothing is returned and nothing changes. A
        decrement never leaves a negative amount. */
    method SellCoin(userId: int, coinId: int, amount: real) returns (r: Option<HoldingRow>)
      requires Valid()
      modifies this`rows
      ensures Valid()
      ensures r.Some? <==>
        exists i :: 0 <= i < |old(rows)| && KeyIs(userId, coinId)(old(rows)[i]) && old(rows)[i].amount >= amount.Floor
      ensures r.None? ==> rows == old(rows)
      ensures r.Some? ==>
        exists i :: (0 <= i < |old(rows)| && KeyIs(userId, coinId)(old(rows)[i])
          && r.value == old(rows)[i].(amount := old(rows)[i].amount - amount.Floor)
          && r.value.amount >= 0
          && rows == old(rows)[i := r.value])
      ensures old(AmountsNonNegative(rows)) ==> AmountsNonNegative(rows)
    {
      var n := amount.Floor;
      match IndexWhere(rows, KeyIs(userId, coinId))
      case None =>
        r := None;
      case Some(i) =>
        if rows[i].amount >= n {
          var h := rows[i].(amount := rows[i].amount - n);
          rows := rows[i := h];
          r := Some(h);
        } else {
          forall j | 0 <= j < |rows| && KeyIs(userId, coinId)(rows[j]) ensures j == i { }
          r := None;
        }
    }
  }

  /** The trades that count towards `total_spent`: that user's `buy` rows for that coin. */
  function BuysOf(userId: int, coinId: int): Transactions.TxRow -> bool
  {
    (t: Transactions.TxRow) => t.userId == userId && t.coinId == coinId && t.kind == "buy"
  }

  function SumCosts(s: seq<Transactions.TxRow>): real
  {
    if s == [] then 0.0 else SumCosts(s[..|s| - 1]) + s[|s| - 1].totalCost
  }

  /** `COALESCE(SUM(total_cost of the buys), 0)`. */
  function TotalSpent(txs: seq<Transactions.TxRow>, userId: int, coinId: int): (r: real)
    ensures (forall i :: 0 <= i < |txs| ==> !BuysOf(userId, coinId)(txs[i])) ==> r == 0.0
  {
    FilterKeepsNone(txs, BuysOf(userId, coinId));
    SumCosts(Filter(txs, BuysOf(userId, coinId)))
  }

  /** `current_price`: `base_reserve / token_reserve` when the token reserve is positive, else 0. */
  function CurrentPrice(c: Coins.CoinRow): (p: real)
    ensures c.tokenReserve > 0 ==> p * c.tokenReserve as real == c.baseReserve as real
    ensures c.tokenReserve <= 0 ==> p == 0.0
    ensures c.tokenReserve > 0 && c.baseReserve >= 0 ==> p >= 0.0
  {
    if c.tokenReserve > 0 then c.baseReserve as real / c.tokenReserve as real else 0.0
  }

  /** One row of `getUserCoinHoldings`. */
  datatype CoinHolding = CoinHolding(
    amount: int, cid: int, name: string, symbol: string, tokenReserve: int, baseReserve: int,
    totalSpent: real, currentPrice: real)

  function CoinHoldingOf(h: HoldingRow, c: Coins.CoinRow, txs: seq<Transactions.TxRow>): CoinHolding
  {
    CoinHolding(h.amount, c.cid, c.name, c.symbol, c.tokenReserve, c.baseReserve,
                TotalSpent(txs, h.userId, c.cid), CurrentPrice(c))
  }

  /** The coin a holding refers to (the inner join on `coin_id = cid`). */
  function CoinOf(coins: seq<Coins.CoinRow>, h: HoldingRow): Option<Coins.CoinRow>
  {
    match Coins.IndexOfCid(coins, h.coinId)
    case None => None
    case Some(i) => Some(coins[i])
  }

  /** The rows `getUserCoinHoldings` reports, before ordering: one per positive holding of the user
      whose coin exists. */
  function CoinHoldingRows(hs: seq<HoldingRow>, coins: seq<Coins.CoinRow>, txs: seq<Transactions.TxRow>, userId: int)
    : seq<CoinHolding>
  {
    if hs == [] then []
    else
      var h := hs[0];
      var here := if h.userId == userId && h.amount > 0 && CoinOf(coins, h).Some?
                  then [CoinHoldingOf(h, CoinOf(coins, h).value, txs)] else [];
      here + CoinHoldingRows(hs[1..], coins, txs, userId)
  }

  lemma {:induction false} CoinHoldingRowsMembers(hs: seq<HoldingRow>, coins: seq<Coins.CoinRow>,
                                                 txs: seq<Transactions.TxRow>, userId: int, x: CoinHolding)
    ensures x in CoinHoldingRows(hs, coins, txs, userId) <==>
      exists h :: h in hs && h.userId == userId && h.amount > 0 && CoinOf(coins, h).Some?
        && x == CoinHoldingOf(h, CoinOf(coins, h).value, txs)
  {
    if hs != [] {
      CoinHoldingRowsMembers(hs[1..], coins, txs, userId, x);
      assert hs == [hs[0]] + hs[1..];
    }
  }

  function HigherAmountFirst(x: CoinHolding): int { -x.amount }

  /** `getUserCoinHoldings`: the user's positive holdings joined with their coins, largest amount first. */
  function GetUserCoinHoldings(hs: seq<HoldingRow>, coins: seq<Coins.CoinRow>, txs: seq<Transactions.TxRow>, userId: int)
    : (r: seq<CoinHolding>)
    ensures forall i, j :: 0 <= i < j < |r| ==> r[i].amount >= r[j].amount
    ensures multiset(r) == multiset(CoinHoldingRows(hs, coins, txs, userId))
  {
    var r := SortBy(CoinHoldingRows(hs, coins, txs, userId), HigherAmountFirst);
    assert forall i, j :: 0 <= i < j < |r| ==> HigherAmountFirst(r[i]) <= HigherAmountFirst(r[j]);
    r
  }

  /** What `getUserCoinHoldings` reports: exactly the user's holdings with a positive amount in an
      existing coin, each with that coin's price (`base_reserve / token_reserve`, or 0 for an empty
      token reserve) and the user's total spent on buys of it. */
  lemma UserCoinHoldingsReport(hs: seq<HoldingRow>, coins: seq<Coins.CoinRow>, txs: seq<Transactions.TxRow>,
                               userId: int, x: CoinHolding)
    ensures x in GetUserCoinHoldings(hs, coins, txs, userId) <==>
      exists h, c :: h in hs && h.userId == userId && h.amount > 0 && CoinOf(coins, h) == Some(c)
        && x == CoinHolding(h.amount, c.cid, c.name, c.symbol, c.tokenReserve, c.baseReserve,
                            TotalSpent(txs, userId, c.cid), CurrentPrice(c))
  {
    assert x in GetUserCoinHoldings(hs, coins, txs, userId) <==> x in multiset(CoinHoldingRows(hs, coins, txs, userId));
    CoinHoldingRowsMembers(hs, coins, txs, userId, x);
    if h :| (h in hs && h.userId == userId && h.amount > 0 && CoinOf(coins, h).Some?
             && x == CoinHoldingOf(h, CoinOf(coins, h).value, txs)) {
      var c := CoinOf(coins, h).value;
      assert CoinOf(coins, h) == Some(c);
    }
  }

  /** One row of `getHoldersByCoinId`. */
  datatype Holder = Holder(username: string, name: string, amount: int, totalSpent: real)

  function HolderOf(h: HoldingRow, u: Users.UserRow, txs: seq<Transactions.TxRow>): Holder
  {
    Holder(u.username, u.name, h.amount, TotalSpent(txs, h.userId, h.coinId))
  }

  /** The rows `getHoldersByCoinId` reports, before ordering: one per positive holding of the coin whose
      user exists. */
  function HolderRows(hs: seq<HoldingRow>, users: map<int, Users.UserRow>, txs: seq<Transactions.TxRow>, coinId: int)
    : seq<Holder>
  {
    if hs == [] then []
    else
      var h := hs[0];
      var here := if h.coinId == coinId && h.amount > 0 && h.userId in users
                  then [HolderOf(h, users[h.userId], txs)] else [];
      here + HolderRows(hs[1..], users, txs, coinId)
  }

  lemma {:induction false} HolderRowsMembers(hs: seq<HoldingRow>, users: map<int, Users.UserRow>,
                                            txs: seq<Transactions.TxRow>, coinId: int, x: Holder)
    ensures x in HolderRows(hs, users, txs, coinId) <==>
      exists h :: h in hs && h.coinId == coinId && h.amount > 0 && h.userId in users
        && x == HolderOf(h, users[h.userId], txs)
  {
    if hs != [] {
      HolderRowsMembers(hs[1..], users, txs, coinId, x);
      assert hs == [hs[0]] + hs[1..];
    }
  }

  function LargerHolderFirst(x: Holder): int { -x.amount }

  /** `getHoldersByCoinId`: the coin's positive holders joined with their users, largest amount first. */
  function GetHoldersByCoinId(hs: seq<HoldingRow>, users: map<int, Users.UserRow>, txs: seq<Transactions.TxRow>, coinId: int)
    : (r: seq<Holder>)
    ensures forall i, j :: 0 <= i < j < |r| ==> r[i].amount >= r[j].amount
    ensures multiset(r) == multiset(HolderRows(hs, users, txs, coinId))
  {
    var r := SortBy(HolderRows(hs, users, txs, coinId), LargerHolderFirst);
    assert forall i, j :: 0 <= i < j < |r| ==> LargerHolderFirst(r[i]) <= LargerHolderFirst(r[j]);
    r
  }

  /** What `getHoldersByCoinId` reports: exactly the coin's holdings with a positive amount, with the
      holder's user name and the sum of the `total_cost` of that user's buys of the coin. */
  lemma HoldersReport(hs: seq<HoldingRow>, users: map<int, Users.UserRow>, txs: seq<Transactions.TxRow>,
                      coinId: int, x: Holder)
    ensures x in GetHoldersByCoinId(hs, users, txs, coinId) <==>
      exists h :: h in hs && h.coinId == coinId && h.amount > 0 && h.userId in users
        && x == Holder(users[h.userId].username, users[h.userId].name, h.amount,
                       SumCosts(Filter(txs, BuysOf(h.userId, coinId))))
  {
    assert x in GetHoldersByCoinId(hs, users, txs, coinId) <==> x in multiset(HolderRows(hs, users, txs, coinId));
    HolderRowsMembers(hs, users, txs, coinId, x);
  }

  /** `total_spent` counts exactly the user's buys of the coin: logging a buy of it adds its cost, and
      logging anything else (a sell, another user, another coin) leaves it unchanged. */
  lemma TotalSpentAfterAppend(txs: seq<Transactions.TxRow>, t: Transactions.TxRow, userId: int, coinId: int)
    ensures TotalSpent(txs + [t], userId, coinId) ==
      if BuysOf(userId, coinId)(t) then TotalSpent(txs, userId, coinId) + t.totalCost
      else TotalSpent(txs, userId, coinId)
  {
    FilterAppend(txs, t, BuysOf(userId, coinId));
    var bought := Filter(txs, BuysOf(userId, coinId));
    if BuysOf(userId, coinId)(t) {
      assert (bought + [t])[..|bought|] == bought;
    } else {
      assert bought + [] == bought;
    }
  }
}
