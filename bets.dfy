/** The `bets` table: an append-only log of coin-flip bets and the per-user history query. */
module Bets {
  import opened Common

  /** `LIMIT 20` of `findAllBetsByUser`. */
  const HistoryLimit: nat := 20

  datatype BetRow = BetRow(bid: int, uid: int, betAmount: real, betResult: string, createdAt: int)

  function OfUser(uid: int): BetRow -> bool
  {
    (b: BetRow) => b.uid == uid
  }

  /** Sort key that puts the newest bet first. */
  function Newest(b: BetRow): int { -b.createdAt }

  /** `findAllBetsByUser`: that user's bets, newest first, at most twenty of them, each as often as it
      was logged; all of them when the user has at most twenty. */
  function FindAllBetsByUser(rows: seq<BetRow>, uid: int): (r: seq<BetRow>)
    ensures |r| == Min(HistoryLimit, |Filter(rows, OfUser(uid))|)
    ensures forall i :: 0 <= i < |r| ==> r[i].uid == uid && r[i] in rows
    ensures forall i, j :: 0 <= i < j < |r| ==> r[i].createdAt >= r[j].createdAt
    ensures multiset(r) <= multiset(Filter(rows, OfUser(uid)))
    ensures |Filter(rows, OfUser(uid))| <= HistoryLimit ==> multiset(r) == multiset(Filter(rows, OfUser(uid)))
  {
    var mine := Filter(rows, OfUser(uid));
    var r := SortBy(mine, Newest)[..Min(HistoryLimit, |mine|)];
    NewestPrefix(mine, |r|);
    forall i | 0 <= i < |r| ensures r[i].uid == uid && r[i] in rows {
      FilterMembers(rows, OfUser(uid), r[i]);
    }
    r
  }

  /** The first `n` bets of a list sorted newest first come from the list, newest first, each at most as
      often as in the list, and all of them when `n` is the whole list. */
  lemma NewestPrefix(mine: seq<BetRow>, n: nat)
    requires n <= |mine|
    ensures var r := SortBy(mine, Newest)[..n];
      && (forall i :: 0 <= i < |r| ==> r[i] in mine)
      && (forall i, j :: 0 <= i < j < |r| ==> r[i].createdAt >= r[j].createdAt)
      && multiset(r) <= multiset(mine)
      && (n == |mine| ==> multiset(r) == multiset(mine))
  {
    var sorted := SortBy(mine, Newest);
    var r := sorted[..n];
    PrefixSubMultiset(sorted, n);
    forall i | 0 <= i < |r| ensures r[i] in mine {
      SortedMember(mine, Newest, i);
    }
    forall i, j | 0 <= i < j < |r| ensures r[i].createdAt >= r[j].createdAt {
      assert Newest(sorted[i]) <= Newest(sorted[j]);
    }
  }

  /** The history holds the user's most recent bets: a bet of that user left out of it is no newer than
      any bet shown. */
  lemma HistoryIsMostRecent(rows: seq<BetRow>, uid: int, b: BetRow)
    requires b in rows && b.uid == uid && b !in FindAllBetsByUser(rows, uid)
    ensures forall i :: 0 <= i < |FindAllBetsByUser(rows, uid)| ==> FindAllBetsByUser(rows, uid)[i].createdAt >= b.createdAt
  {
    var mine := Filter(rows, OfUser(uid));
    var sorted := SortBy(mine, Newest);
    var r := FindAllBetsByUser(rows, uid);
    FilterMembers(rows, OfUser(uid), b);
    assert b in multiset(sorted);
    var k :| 0 <= k < |sorted| && sorted[k] == b;
    assert r == sorted[..|r|];
    assert k >= |r|;
    forall i | 0 <= i < |r| ensures r[i].createdAt >= b.createdAt {
      assert Newest(sorted[i]) <= Newest(sorted[k]);
    }
  }

  class BetLog {
    var rows: seq<BetRow>
    /** The next value of the `bid SERIAL` sequence. */
    var nextBid: int

    ghost predicate Valid()
      reads this
    {
      && nextBid >= 1
      && (forall i :: 0 <= i < |rows| ==> 1 <= rows[i].bid < nextBid)
      && (forall i, j :: 0 <= i < j < |rows| ==> rows[i].bid < rows[j].bid)
    }

    constructor ()
      ensures Valid() && rows == [] && nextBid == 1
    {
      rows := [];
      nextBid := 1;
    }

    /** `createBet`: appends one row with the given user, amount and result, stamped `now`. */
    method CreateBet(uid: int, betAmount: real, betResult: string, now: int) returns (b: BetRow)
      requires Valid()
      modifies this
      ensures Valid()
      ensures b == BetRow(old(nextBid), uid, betAmount, betResult, now)
      ensures rows == old(rows) + [b] && nextBid == old(nextBid) + 1
    {
      b := BetRow(nextBid, uid, betAmount, betResult, now);
      rows := rows + [b];
      nextBid := nextBid + 1;
    }
  }
}
