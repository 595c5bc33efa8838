/** The `createCoin` request handler of `CoinController`. A missing body field reads as its falsy value
    (`""` for the strings, 0 for the supply). */
module CoinCreation {
  import opened Common
  import opened Text
  import opened Coins

  datatype CreateReply = Unauthorized401 | BadRequest400 | Created201(coin: CoinRow) | ServerError500

  /** `!name || !symbol || !circulating_supply`. */
  predicate MissingField(name: string, symbol: string, circulatingSupply: int)
  {
    name == [] || symbol == [] || circulatingSupply == 0
  }

  /** `createCoin`: 401 without a creator uid (or the falsy uid 0), 400 when a field is missing or the
      supply is 0, otherwise one insert through `CoinModel.createCoin` and 201 with the stored coin; the
      insert's unique-symbol failure reaches the catch-all and answers 500. The handler touches only the
      coin table: no balance is read or debited. */
  method CreateCoin(coins: CoinTable, creatorId: Option<int>, name: string, symbol: string, circulatingSupply: int,
                    now: int)
    returns (r: CreateReply)
    requires coins.Valid()
    modifies coins`rows, coins`nextCid
    ensures coins.Valid()
    ensures r.Unauthorized401? <==> creatorId.None? || creatorId.value == 0
    ensures r.BadRequest400? <==> !r.Unauthorized401? && MissingField(name, symbol, circulatingSupply)
    ensures r.Unauthorized401? || r.BadRequest400? ==> coins.rows == old(coins.rows) && coins.nextCid == old(coins.nextCid)
    ensures r.ServerError500? <==>
      && creatorId.Some? && creatorId.value != 0 && !MissingField(name, symbol, circulatingSupply)
      && exists i :: 0 <= i < |old(coins.rows)| && old(coins.rows)[i].symbol == Upper(symbol)
    ensures r.ServerError500? ==> coins.rows == old(coins.rows)
    ensures r.Created201? ==>
      && coins.rows == old(coins.rows) + [r.coin]
      && r.coin.creatorId == creatorId.value && r.coin.name == name && r.coin.symbol == Upper(symbol)
      && r.coin.circulatingSupply == circulatingSupply && r.coin.totalSupply == DefaultTotalSupply
  {
    if creatorId.None? || creatorId.value == 0 {
      return Unauthorized401;
    }
    if MissingField(name, symbol, circulatingSupply) {
      return BadRequest400;
    }
    var coin := coins.CreateCoin(name, symbol, creatorId.value, circulatingSupply, now);
    if coin.None? {
      return ServerError500;
    }
    r := Created201(coin.value);
  }
}
