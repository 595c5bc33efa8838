/** The `coins` table and the statements of `CoinModel`. Symbols are stored upper-cased and are UNIQUE;
    lookups upper-case their argument first. */
module Coins {
  import opened Common
  import opened Text

  /** The `total_supply` column default. */
  const DefaultTotalSupply: int := 1000000000

  datatype CoinRow = CoinRow(
    cid: int,
    name: string,
    symbol: string,
    creatorId: int,
    totalSupply: int,
    circulatingSupply: int,
    initialPrice: real,
    priceMultiplier: real,
    tokenReserve: int,
    baseReserve: int,
    createdAt: int)

  /** Position of the coin whose stored symbol is exactly `symbol`. */
  function IndexOfSymbol(rows: seq<CoinRow>, symbol: string): Option<nat>
  {
    IndexWhere(rows, (c: CoinRow) => c.symbol == symbol)
  }

  /** Position of the coin with id `cid`. */
  function IndexOfCid(rows: seq<CoinRow>, cid: int): Option<nat>
  {
    IndexWhere(rows, (c: CoinRow) => c.cid == cid)
  }

  /** The stored coin a symbol lookup finds: the argument is upper-cased, then matched exactly. */
  function LookupSymbol(rows: seq<CoinRow>, symbol: string): (r: Option<CoinRow>)
    ensures r.Some? ==> r.value in rows && r.value.symbol == Upper(symbol)
    ensures r.None? <==> forall i :: 0 <= i < |rows| ==> rows[i].symbol != Upper(symbol)
  {
    match IndexOfSymbol(rows, Upper(symbol))
    case None => None
    case Some(i) => Some(rows[i])
  }

  /** Lookup ignores the case of its argument: a symbol and its upper-cased form find the same coin. */
  lemma LookupIgnoresCase(rows: seq<CoinRow>, symbol: string)
    ensures LookupSymbol(rows, symbol) == LookupSymbol(rows, Upper(symbol))
  {
    UpperIdempotent(symbol);
  }

  /** Stored symbols are unique. */
  ghost predicate UniqueSymbols(rows: seq<CoinRow>)
  {
    forall i, j :: 0 <= i < j < |rows| ==> rows[i].symbol != rows[j].symbol
  }

  /** With unique upper-case symbols, a lookup finds a stored coin exactly when that coin's symbol is the
      upper-cased argument, so differently cased spellings of a stored symbol all find it. */
  lemma LookupFindsStoredCoin(rows: seq<CoinRow>, symbol: string, c: CoinRow)
    requires UniqueSymbols(rows)
    ensures LookupSymbol(rows, symbol) == Some(c) <==> c in rows && c.symbol == Upper(symbol)
  {
    if c in rows && c.symbol == Upper(symbol) {
      var k :| 0 <= k < |rows| && rows[k] == c;
      var i := IndexOfSymbol(rows, Upper(symbol)).value;
      assert i == k;
    }
  }

  class CoinTable {
    var rows: seq<CoinRow>
    /** The next value of the `cid SERIAL` sequence. */
    var nextCid: int
    /** Values the reserve columns take on insertion: `createCoin` does not set them and the table
        definition does not declare them, so the model leaves them as parameters. */
    const tokenReserveDefault: int
    const baseReserveDefault: int

    ghost predicate Valid()
      reads this
    {
      && nextCid >= 1
      && (forall i :: 0 <= i < |rows| ==> 1 <= rows[i].cid < nextCid)
      && (forall i, j :: 0 <= i < j < |rows| ==> rows[i].cid < rows[j].cid)
      && UniqueSymbols(rows)
      && (forall i :: 0 <= i < |rows| ==> IsUpperCase(rows[i].symbol))
    }

    constructor (tokenReserveDefault: int, baseReserveDefault: int)
      ensures Valid()
      ensures rows == [] && nextCid == 1
      ensures this.tokenReserveDefault == tokenReserveDefault && this.baseReserveDefault == baseReserveDefault
    {
      rows := [];
      nextCid := 1;
      this.tokenReserveDefault := tokenReserveDefault;
      this.baseReserveDefault := baseReserveDefault;
    }

    /** `getAllCoins`: every stored coin, in storage order. */
    function AllCoins(): (r: seq<CoinRow>)
      reads this
      ensures |r| == |rows| && forall c :: c in rows <==> c in r
    {
      rows
    }

    /** `getCoinBySymbol` and `getCoinBySymbolForUpdate`: the coin whose symbol is the argument upper-cased. */
    function GetCoinBySymbol(symbol: string): (r: Option<CoinRow>)
      reads this
      requires Valid()
      ensures r.Some? <==> exists i :: 0 <= i < |rows| && rows[i].symbol == Upper(symbol)
      ensures r.Some? ==> r.value in rows && r.value.symbol == Upper(symbol)
    {
      LookupSymbol(rows, symbol)
    }

    /** `createCoin`: inserts one row holding the upper-cased symbol, the default total supply of one
        billion and the given circulating supply. When the upper-cased symbol is already stored the
        UNIQUE constraint rejects the insert (`None`), nothing is stored, and the `cid` sequence has
        still advanced. */
    method CreateCoin(name: string, symbol: string, creatorId: int, circulatingSupply: int, now: int)
      returns (r: Option<CoinRow>)
      requires Valid()
      modifies this`rows, this`nextCid
      ensures Valid()
      ensures nextCid == old(nextCid) + 1
      ensures r.None? <==> exists i :: 0 <= i < |old(rows)| && old(rows)[i].symbol == Upper(symbol)
      ensures r.None? ==> rows == old(rows)
      ensures r.Some? ==>
        && r.value == CoinRow(old(nextCid), name, Upper(symbol), creatorId, DefaultTotalSupply, circulatingSupply,
                              0.001, 0.00000001, tokenReserveDefault, baseReserveDefault, now)
        && rows == old(rows) + [r.value]
    {
      var upper := Upper(symbol);
      var cid := nextCid;
      nextCid := nextCid + 1;
      if IndexOfSymbol(rows, upper).Some? {
        return None;
      }
      UpperIsUpperCase(symbol);
      var coin := CoinRow(cid, name, upper, creatorId, DefaultTotalSupply, circulatingSupply,
                          0.001, 0.00000001, tokenReserveDefault, baseReserveDefault, now);
      rows := rows + [coin];
      r := Some(coin);
    }

    /** `updateCirculatingSupply`: adds `amount` to the circulating supply of exactly the coin `cid`,
        with no bound against the total supply; other coins are unchanged. */
    method UpdateCirculatingSupply(cid: int, amount: int) returns (r: Option<CoinRow>)
      requires Valid()
      modifies this`rows
      ensures Valid()
      ensures |rows| == |old(rows)|
      ensures r.None? <==> forall i :: 0 <= i < |old(rows)| ==> old(rows)[i].cid != cid
      ensures r.None? ==> rows == old(rows)
      ensures r.Some? ==>
        exists i :: (0 <= i < |rows| && old(rows)[i].cid == cid
          && r.value == old(rows)[i].(circulatingSupply := old(rows)[i].circulatingSupply + amount)
          && rows == old(rows)[i := r.value])
    {
      match IndexOfCid(rows, cid)
      case None =>
        r := None;
      case Some(i) =>
        var updated := rows[i].(circulatingSupply := rows[i].circulatingSupply + amount);
        rows := rows[i := updated];
        r := Some(updated);
    }
  }
}
