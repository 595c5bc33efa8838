/** The sell dialog: the constant-product quote shown while typing, the lookup of the user's own holding
    in the coin's holder list, and the guards in front of the sell request. The amount field reaches the
    model already parsed (`None` for `NaN`). Reserves are integers; the arithmetic is exact. */
module SellModal {
  import opened Common
  import Users
  import Transactions
  import opened Portfolio

  /** The quote: with `k = token * base`, the base the pool keeps after taking in `amount` tokens is
      `k / (token + amount)`, and the seller receives the floor of the difference. No quote (0) for a
      `NaN` or non-positive amount or an empty reserve. */
  function SellQuote(amount: Option<real>, tokenReserve: int, baseReserve: int): int
  {
    if amount.Some? && amount.value > 0.0 && tokenReserve > 0 && baseReserve > 0 then
      var k := (tokenReserve * baseReserve) as real;
      var newTokenReserve := tokenReserve as real + amount.value;
      (baseReserve as real - k / newTokenReserve).Floor
    else 0
  }

  predicate Quotable(amount: Option<real>, tokenReserve: int, baseReserve: int)
  {
    amount.Some? && amount.value > 0.0 && tokenReserve > 0 && baseReserve > 0
  }

  /** The base reserve left in the pool, `k / (token + amount)`, lies strictly between 0 and the old base
      reserve. */
  lemma {:induction false} NewBaseReserveBounds(tokenReserve: int, baseReserve: int, amount: real)
    requires tokenReserve > 0 && baseReserve > 0 && amount > 0.0
    ensures var k := (tokenReserve * baseReserve) as real;
      var newBase := k / (tokenReserve as real + amount);
      && newBase * (tokenReserve as real + amount) == k
      && 0.0 < newBase < baseReserve as real
  {
    var k := (tokenReserve * baseReserve) as real;
    var n := tokenReserve as real + amount;
    var newBase := k / n;
    assert newBase * n == k;
    assert k == tokenReserve as real * baseReserve as real;
    assert k > 0.0;
    assert baseReserve as real * n > k;
    assert newBase < baseReserve as real;
    assert newBase > 0.0;
  }

  /** A quote is never negative and always leaves something in the pool: `0 <= out < base`. */
  lemma QuoteBounds(amount: Option<real>, tokenReserve: int, baseReserve: int)
    ensures Quotable(amount, tokenReserve, baseReserve) ==> 0 <= SellQuote(amount, tokenReserve, baseReserve) < baseReserve
    ensures !Quotable(amount, tokenReserve, baseReserve) ==> SellQuote(amount, tokenReserve, baseReserve) == 0
  {
    if Quotable(amount, tokenReserve, baseReserve) {
      NewBaseReserveBounds(tokenReserve, baseReserve, amount.value);
    }
  }

  /** Flooring favours the pool: after the quoted trade the product of the reserves is at least `k`. */
  lemma QuoteKeepsProduct(amount: Option<real>, tokenReserve: int, baseReserve: int)
    requires Quotable(amount, tokenReserve, baseReserve)
    ensures var out := SellQuote(amount, tokenReserve, baseReserve);
      (tokenReserve as real + amount.value) * (baseReserve - out) as real >= (tokenReserve * baseReserve) as real
  {
    var k := (tokenReserve * baseReserve) as real;
    var n := tokenReserve as real + amount.value;
    var newBase := k / n;
    NewBaseReserveBounds(tokenReserve, baseReserve, amount.value);
    var out := SellQuote(amount, tokenReserve, baseReserve);
    assert out as real <= baseReserve as real - newBase;
    assert (baseReserve - out) as real >= newBase;
    assert n * (baseReserve - out) as real >= n * newBase;
  }

  /** Selling more never quotes less. */
  lemma QuoteMonotone(a1: real, a2: real, tokenReserve: int, baseReserve: int)
    requires 0.0 < a1 <= a2
    ensures SellQuote(Some(a1), tokenReserve, baseReserve) <= SellQuote(Some(a2), tokenReserve, baseReserve)
  {
    if tokenReserve > 0 && baseReserve > 0 {
      var k := (tokenReserve * baseReserve) as real;
      var n1 := tokenReserve as real + a1;
      var n2 := tokenReserve as real + a2;
      NewBaseReserveBounds(tokenReserve, baseReserve, a1);
      NewBaseReserveBounds(tokenReserve, baseReserve, a2);
      var b1 := k / n1;
      var b2 := k / n2;
      assert b2 * n2 == b1 * n1;
      assert b2 <= b1;
      assert baseReserve as real - b1 <= baseReserve as real - b2;
    }
  }

  /** The real quotient of two integers floors to their integer quotient. */
  lemma {:induction false} FloorOfQuotient(p: int, q: int)
    requires q > 0
    ensures (p as real / q as real).Floor == p / q
  {
    var d := p / q;
    var m := p % q;
    assert p == d * q + m && 0 <= m < q;
    assert p as real == d as real * q as real + m as real;
    assert p as real / q as real == d as real + m as real / q as real;
    assert 0.0 <= m as real / q as real < 1.0;
  }

  /** For a whole number of tokens the quote is the integer `base * amount / (token + amount)`. */
  lemma IntegerQuote(amount: int, tokenReserve: int, baseReserve: int)
    requires amount > 0 && tokenReserve > 0 && baseReserve > 0
    ensures SellQuote(Some(amount as real), tokenReserve, baseReserve) == (baseReserve * amount) / (tokenReserve + amount)
  {
    var total := tokenReserve + amount;
    var k := tokenReserve * baseReserve;
    assert baseReserve * total - k == baseReserve * amount;
    var n := total as real;
    assert tokenReserve as real + amount as real == n;
    var newBase := k as real / n;
    assert newBase * n == k as real;
    var out := baseReserve as real - newBase;
    assert out * n == (baseReserve * total - k) as real;
    assert out == (baseReserve * amount) as real / n;
    FloorOfQuotient(baseReserve * amount, total);
  }

  /** `userHoldings`: with a user and a holder list, the amount of the first holder carrying the user's
      name, or 0 when none does; 0 without a user or a list. */
  function UserHoldings(user: Option<string>, holders: Option<seq<Holder>>): (r: int)
    ensures user.None? || holders.None? ==> r == 0
    ensures user.Some? && holders.Some? && (forall i :: 0 <= i < |holders.value| ==> holders.value[i].username != user.value)
      ==> r == 0
    ensures user.Some? && holders.Some? ==>
      forall i :: 0 <= i < |holders.value| && holders.value[i].username == user.value
        && (forall j :: 0 <= j < i ==> holders.value[j].username != user.value)
        ==> r == holders.value[i].amount
  {
    if user.None? || holders.None? then 0
    else match IndexWhere(holders.value, (h: Holder) => h.username == user.value)
      case None => 0
      case Some(i) => holders.value[i].amount
  }

  ghost predicate UniqueUsernames(users: map<int, Users.UserRow>)
  {
    forall a, b :: a in users && b in users && a != b ==> users[a].username != users[b].username
  }

  /** Looking the user up in the list `getHoldersByCoinId` returns finds exactly their own holding: its
      amount when it is positive, else 0 (holders of zero are not listed). */
  lemma UserHoldingsFindsOwnHolding(hs: seq<HoldingRow>, users: map<int, Users.UserRow>, txs: seq<Transactions.TxRow>,
                                    coinId: int, uid: int)
    requires UniqueKeys(hs) && UniqueUsernames(users) && uid in users
    ensures var listed := UserHoldings(Some(users[uid].username), Some(GetHoldersByCoinId(hs, users, txs, coinId)));
      match GetPortfolioForUpdate(hs, uid, coinId)
      case Some(h) => listed == if h.amount > 0 then h.amount else 0
      case None => listed == 0
  {
    var name := users[uid].username;
    var r := GetHoldersByCoinId(hs, users, txs, coinId);
    var p := (x: Holder) => x.username == name;
    // Every listed holder with this name comes from the user's own holding of the coin.
    forall i | 0 <= i < |r| && r[i].username == name
      ensures GetPortfolioForUpdate(hs, uid, coinId).Some?
      ensures GetPortfolioForUpdate(hs, uid, coinId).value.amount == r[i].amount > 0
    {
      HoldersReport(hs, users, txs, coinId, r[i]);
      var h :| h in hs && h.coinId == coinId && h.amount > 0 && h.userId in users
        && r[i] == Holder(users[h.userId].username, users[h.userId].name, h.amount, SumCosts(Filter(txs, BuysOf(h.userId, coinId))));
      assert h.userId == uid;
      GetPortfolioIsTheHolding(hs, h);
    }
    if IndexWhere(r, p).None? {
      var found := GetPortfolioForUpdate(hs, uid, coinId);
      if found.Some? && found.value.amount > 0 {
        // The user's positive holding is listed under their name, so the lookup cannot come back empty.
        HoldersReport(hs, users, txs, coinId, HolderOf(found.value, users[uid], txs));
      }
    }
  }

  datatype SellStep = LoginRequired | InvalidAmount | InsufficientTokens | SubmitSell(value: real)

  /** `handleSell`: in this order, a user must be logged in, the amount must be a positive number, and it
      must not exceed the user's holding; only then is the sell request sent, with the amount as typed. */
  function HandleSell(user: Option<string>, value: Option<real>, userHoldings: int): (r: SellStep)
    ensures r.LoginRequired? <==> user.None?
    ensures r.InvalidAmount? <==> user.Some? && (value.None? || value.value <= 0.0)
    ensures r.SubmitSell? <==> user.Some? && value.Some? && 0.0 < value.value <= userHoldings as real
    ensures r.SubmitSell? ==> r.value == value.value
  {
    if user.None? then LoginRequired
    else if value.None? || value.value <= 0.0 then InvalidAmount
    else if value.value > userHoldings as real then InsufficientTokens
    else SubmitSell(value.value)
  }

  /** A sale the dialog lets through asks the backend for a whole amount (after `sellCoin`'s floor)
      between 0 and the holding, so its conditional decrement applies. A fractional amount below one
      floors to a sale of zero tokens. */
  lemma SubmittedSaleIsCovered(user: Option<string>, value: Option<real>, holding: int)
    requires HandleSell(user, value, holding).SubmitSell?
    ensures 0 <= value.value.Floor <= holding
    ensures value.value < 1.0 ==> value.value.Floor == 0
  {
  }
}
