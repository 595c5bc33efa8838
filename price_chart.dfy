/** The price chart of the coin page: `processPriceHistory` groups the price history into one-minute
    buckets and turns each bucket into an open/high/low/close candle. Each point arrives with its time
    in milliseconds and its parsed price. */
module PriceChart {
  import opened Common

  /** The bucket width, one minute. */
  const IntervalMs: int := 60 * 1000

  datatype ChartPoint = ChartPoint(createdAt: int, price: real)

  datatype Ohlc = Ohlc(date: int, open: real, high: real, low: real, close: real)

  /** `Math.floor(time / interval) * interval`; for a positive divisor Dafny's `/` is the floor. */
  function BucketOf(t: int): int
  {
    (t / IntervalMs) * IntervalMs
  }

  /** A point's bucket starts at a minute boundary at most one minute before the point. */
  lemma BucketBounds(t: int)
    ensures BucketOf(t) <= t < BucketOf(t) + IntervalMs
    ensures BucketOf(t) % IntervalMs == 0
  {
  }

  /** Each time lies in exactly one bucket: the only minute boundary within a minute before it. */
  lemma BucketIsUnique(t: int, b: int)
    requires b % IntervalMs == 0 && b <= t < b + IntervalMs
    ensures b == BucketOf(t)
  {
    var q := b / IntervalMs;
    assert b == q * IntervalMs;
    assert q * IntervalMs <= t < (q + 1) * IntervalMs;
    assert t / IntervalMs == q;
  }

  /** `Math.max(...prices)`. */
  function MaxOf(s: seq<real>): (m: real)
    requires |s| > 0
    ensures m in s && forall i :: 0 <= i < |s| ==> s[i] <= m
  {
    if |s| == 1 then s[0]
    else
      var m := MaxOf(s[1..]);
      assert forall i :: 1 <= i < |s| ==> s[i] == s[1..][i - 1];
      if s[0] >= m then s[0] else m
  }

  /** `Math.min(...prices)`. */
  function MinOf(s: seq<real>): (m: real)
    requires |s| > 0
    ensures m in s && forall i :: 0 <= i < |s| ==> m <= s[i]
  {
    if |s| == 1 then s[0]
    else
      var m := MinOf(s[1..]);
      assert forall i :: 1 <= i < |s| ==> s[i] == s[1..][i - 1];
      if s[0] <= m then s[0] else m
  }

  /** The prices of the points that fall in bucket `b`, in input order (the `buckets[b]` array). */
  function BucketPrices(history: seq<ChartPoint>, b: int): seq<real>
  {
    if history == [] then []
    else
      var last := history[|history| - 1];
      BucketPrices(history[..|history| - 1], b) + (if BucketOf(last.createdAt) == b then [last.price] else [])
  }

  /** A bucket holds a price exactly when some point falls in it. */
  lemma {:induction false} BucketPricesNonEmpty(history: seq<ChartPoint>, b: int)
    ensures BucketPrices(history, b) != [] <==> exists k :: 0 <= k < |history| && BucketOf(history[k].createdAt) == b
  {
    if history != [] {
      var front := history[..|history| - 1];
      BucketPricesNonEmpty(front, b);
      assert forall k :: 0 <= k < |front| ==> front[k] == history[k];
    }
  }

  /** The first price of a bucket is the price of the first point that falls in it. */
  lemma {:induction false} BucketOpensWithFirstPoint(history: seq<ChartPoint>, k: int)
    requires 0 <= k < |history|
    requires forall j :: 0 <= j < k ==> BucketOf(history[j].createdAt) != BucketOf(history[k].createdAt)
    ensures var prices := BucketPrices(history, BucketOf(history[k].createdAt));
      prices != [] && prices[0] == history[k].price
  {
    var b := BucketOf(history[k].createdAt);
    var front := history[..|history| - 1];
    if k == |history| - 1 {
      BucketPricesNonEmpty(front, b);
      assert forall j :: 0 <= j < |front| ==> front[j] == history[j];
    } else {
      assert forall j :: 0 <= j <= k ==> front[j] == history[j];
      BucketOpensWithFirstPoint(front, k);
    }
  }

  /** The last price of a bucket is the price of the last point that falls in it. */
  lemma BucketClosesWithLastPoint(history: seq<ChartPoint>, k: int)
    requires 0 <= k < |history|
    requires forall j :: k < j < |history| ==> BucketOf(history[j].createdAt) != BucketOf(history[k].createdAt)
    ensures var prices := BucketPrices(history, BucketOf(history[k].createdAt));
      prices != [] && prices[|prices| - 1] == history[k].price
    decreases |history|
  {
    if k < |history| - 1 {
      var front := history[..|history| - 1];
      assert front[k] == history[k];
      BucketClosesWithLastPoint(front, k);
    }
  }

  /** The candle of one bucket: the first and last price as open and close, the extremes as high and low. */
  function OhlcOf(b: int, prices: seq<real>): (o: Ohlc)
    requires |prices| > 0
    ensures o.date == b && o.open == prices[0] && o.close == prices[|prices| - 1]
    ensures o.low <= o.open <= o.high && o.low <= o.close <= o.high
    ensures o.high in prices && o.low in prices
    ensures forall i :: 0 <= i < |prices| ==> o.low <= prices[i] <= o.high
  {
    Ohlc(b, prices[0], MaxOf(prices), MinOf(prices), prices[|prices| - 1])
  }

  /** The `buckets` object after the `forEach` has seen the points of `history`. */
  function Buckets(history: seq<ChartPoint>): map<int, seq<real>>
  {
    if history == [] then map[]
    else
      var m := Buckets(history[..|history| - 1]);
      var last := history[|history| - 1];
      var b := BucketOf(last.createdAt);
      m[b := (if b in m then m[b] else []) + [last.price]]
  }

  /** The keys of that object, each once, in the order their first point came. */
  function BucketKeys(history: seq<ChartPoint>): seq<int>
  {
    if history == [] then []
    else
      var keys := BucketKeys(history[..|history| - 1]);
      var b := BucketOf(history[|history| - 1].createdAt);
      if b in keys then keys else keys + [b]
  }

  /** The object has a key exactly where the key list names one. */
  lemma {:induction false} BucketKeysMatchBuckets(history: seq<ChartPoint>, b: int)
    ensures b in Buckets(history) <==> b in BucketKeys(history)
  {
    if history != [] {
      BucketKeysMatchBuckets(history[..|history| - 1], b);
    }
  }

  /** Under each key the object files exactly the prices of that minute, and a minute without a key has
      no prices. */
  lemma {:induction false} BucketsHoldBucketPrices(history: seq<ChartPoint>, b: int)
    ensures b in Buckets(history) ==> Buckets(history)[b] == BucketPrices(history, b) != []
    ensures b !in Buckets(history) ==> BucketPrices(history, b) == []
  {
    if history != [] {
      BucketsHoldBucketPrices(history[..|history| - 1], b);
    }
  }

  /** Each key is listed once. */
  lemma {:induction false} BucketKeysDistinct(history: seq<ChartPoint>)
    ensures Distinct(BucketKeys(history))
  {
    if history != [] {
      BucketKeysDistinct(history[..|history| - 1]);
    }
  }

  /** The `forEach` of `processPriceHistory`: files every point's price under its bucket, creating a
      bucket at its first point, and lists the bucket keys. */
  method FillBuckets(history: seq<ChartPoint>) returns (buckets: map<int, seq<real>>, keys: seq<int>)
    ensures buckets == Buckets(history) && keys == BucketKeys(history)
  {
    buckets := map[];
    keys := [];
    var n := 0;
    while n < |history|
      invariant 0 <= n <= |history|
      invariant buckets == Buckets(history[..n]) && keys == BucketKeys(history[..n])
    {
      var b := BucketOf(history[n].createdAt);
      assert history[..n + 1][..n] == history[..n];
      BucketKeysMatchBuckets(history[..n], b);
      if b !in buckets {
        buckets := buckets[b := []];
        keys := keys + [b];
      }
      buckets := buckets[b := buckets[b] + [history[n].price]];
      n := n + 1;
    }
    assert history[..n] == history;
  }

  /** A sorted list without repetitions is strictly ascending. */
  lemma SortedDistinctAscending(s: seq<int>)
    requires SortedBy(s, Identity) && Distinct(s)
    ensures forall i, j :: 0 <= i < j < |s| ==> s[i] < s[j]
  {
    forall i, j | 0 <= i < j < |s| ensures s[i] < s[j] {
      assert Identity(s[i]) <= Identity(s[j]);
    }
  }

  function Identity(x: int): int { x }

  /** `sortedKeys.map(...)`: the candle of each key, in key order. */
  function Candles(keys: seq<int>, buckets: map<int, seq<real>>): (r: seq<Ohlc>)
    requires forall i :: 0 <= i < |keys| ==> keys[i] in buckets && buckets[keys[i]] != []
    ensures |r| == |keys|
    ensures forall i :: 0 <= i < |keys| ==> r[i] == OhlcOf(keys[i], buckets[keys[i]])
  {
    if keys == [] then []
    else [OhlcOf(keys[0], buckets[keys[0]])] + Candles(keys[1..], buckets)
  }

  /** Candles built from strictly ascending keys whose entries are the bucket prices are ascending and
      each made from its bucket. */
  lemma CandlesOfBuckets(history: seq<ChartPoint>, keys: seq<int>, buckets: map<int, seq<real>>)
    requires forall i :: 0 <= i < |keys| ==> keys[i] in buckets && buckets[keys[i]] == BucketPrices(history, keys[i]) != []
    requires forall i, j :: 0 <= i < j < |keys| ==> keys[i] < keys[j]
    ensures forall i, j :: 0 <= i < j < |Candles(keys, buckets)| ==> Candles(keys, buckets)[i].date < Candles(keys, buckets)[j].date
    ensures forall i :: 0 <= i < |Candles(keys, buckets)| ==>
      var c := Candles(keys, buckets)[i];
      BucketPrices(history, c.date) != [] && c == OhlcOf(c.date, BucketPrices(history, c.date))
  {
    var r := Candles(keys, buckets);
    forall i, j | 0 <= i < j < |r| ensures r[i].date < r[j].date {
      assert r[i].date == keys[i] && r[j].date == keys[j];
    }
    forall i | 0 <= i < |r| ensures BucketPrices(history, r[i].date) != [] && r[i] == OhlcOf(r[i].date, BucketPrices(history, r[i].date)) {
      assert r[i].date == keys[i];
    }
  }

  /** Every key has its candle. */
  lemma CandlesCoverKeys(keys: seq<int>, buckets: map<int, seq<real>>, b: int)
    requires forall i :: 0 <= i < |keys| ==> keys[i] in buckets && buckets[keys[i]] != []
    requires b in keys
    ensures exists i :: 0 <= i < |Candles(keys, buckets)| && Candles(keys, buckets)[i].date == b
  {
    var i :| 0 <= i < |keys| && keys[i] == b;
    assert Candles(keys, buckets)[i].date == b;
  }

  /** The bucket keys in ascending order are strictly ascending, each names a bucket holding the prices
      of its minute, and every point's minute is among them. */
  lemma SortedBucketKeys(history: seq<ChartPoint>)
    ensures var sorted := SortBy(BucketKeys(history), Identity);
      && (forall i :: 0 <= i < |sorted| ==>
            sorted[i] in Buckets(history) && Buckets(history)[sorted[i]] == BucketPrices(history, sorted[i]) != [])
      && (forall i, j :: 0 <= i < j < |sorted| ==> sorted[i] < sorted[j])
      && (forall k :: 0 <= k < |history| ==> BucketOf(history[k].createdAt) in sorted)
  {
    var keys := BucketKeys(history);
    var sorted := SortBy(keys, Identity);
    forall i | 0 <= i < |sorted|
      ensures sorted[i] in Buckets(history) && Buckets(history)[sorted[i]] == BucketPrices(history, sorted[i]) != []
    {
      SortedMember(keys, Identity, i);
      BucketKeysMatchBuckets(history, sorted[i]);
      BucketsHoldBucketPrices(history, sorted[i]);
    }
    BucketKeysDistinct(history);
    DistinctPermutation(keys, sorted);
    SortedDistinctAscending(sorted);
    forall k | 0 <= k < |history| ensures BucketOf(history[k].createdAt) in sorted {
      var b := BucketOf(history[k].createdAt);
      BucketPricesNonEmpty(history, b);
      BucketsHoldBucketPrices(history, b);
      BucketKeysMatchBuckets(history, b);
      assert b in multiset(sorted);
    }
  }

  /** `processPriceHistory`: one candle per bucket that some point falls in, in strictly ascending bucket
      time, each built from that bucket's prices in input order; no candle for an empty history. */
  method ProcessPriceHistory(history: seq<ChartPoint>) returns (r: seq<Ohlc>)
    ensures history == [] ==> r == []
    ensures forall i, j :: 0 <= i < j < |r| ==> r[i].date < r[j].date
    ensures forall i :: 0 <= i < |r| ==>
      BucketPrices(history, r[i].date) != [] && r[i] == OhlcOf(r[i].date, BucketPrices(history, r[i].date))
    ensures forall k :: 0 <= k < |history| ==> exists i :: 0 <= i < |r| && r[i].date == BucketOf(history[k].createdAt)
  {
    if |history| == 0 {
      return [];
    }
    var buckets, keys := FillBuckets(history);
    var sorted := SortBy(keys, Identity);
    SortedBucketKeys(history);
    CandlesOfBuckets(history, sorted, buckets);
    r := Candles(sorted, buckets);
    forall k | 0 <= k < |history| {
      CandlesCoverKeys(sorted, buckets, BucketOf(history[k].createdAt));
    }
  }
}
