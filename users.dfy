/** The `users` table and the statements of `UserModel` that read and update it. Every statement is one
    atomic step; row locks (`FOR UPDATE`) are not modelled. Times are milliseconds since the epoch. */
module Users {
  import opened Common
  import opened Text

  const HourMs: int := 60 * 60 * 1000

  datatype UserRow = UserRow(
    uid: int,
    googleId: string,
    username: string,
    email: string,
    name: string,
    balance: int,
    claimedCash: int,
    lastClaimDate: int)

  /** A freshly inserted row: the column defaults give no balance, nothing claimed, and a last claim
      25 hours before the insertion. */
  function NewUser(uid: int, googleId: string, email: string, name: string, username: string, now: int): (u: UserRow)
    ensures u.uid == uid && u.googleId == googleId && u.email == email && u.name == name && u.username == username
    ensures u.balance == 0 && u.claimedCash == 0
    ensures now - u.lastClaimDate == 25 * HourMs
  {
    UserRow(uid, googleId, username, email, name, 0, 0, now - 25 * HourMs)
  }

  /** `email.split('@')[0]`: everything before the first `@`, or the whole address when it has none. */
  function LocalPart(email: string): (r: string)
    ensures |r| <= |email| && r == email[..|r|]
    ensures '@' !in r
    ensures |r| < |email| ==> email[|r|] == '@'
  {
    if email == [] || email[0] == '@' then [] else [email[0]] + LocalPart(email[1..])
  }

  /** `replace(/[^a-zA-Z0-9]/g, '')`: the ASCII letters and digits of `s`, in order. */
  function StripNonAlnum(s: string): (r: string)
    ensures forall i :: 0 <= i < |r| ==> IsAsciiAlnum(r[i])
    ensures forall i :: 0 <= i < |r| ==> r[i] in s
    ensures forall i :: 0 <= i < |s| && IsAsciiAlnum(s[i]) ==> s[i] in r
    ensures forall c :: multiset(r)[c] == if IsAsciiAlnum(c) then multiset(s)[c] else 0
  {
    var r := Filter(s, IsAsciiAlnum);
    assert forall c :: c in r <==> c in s && IsAsciiAlnum(c) by {
      forall c { FilterMembers(s, IsAsciiAlnum, c); }
    }
    forall c ensures multiset(r)[c] == if IsAsciiAlnum(c) then multiset(s)[c] else 0 {
      FilterMultiset(s, IsAsciiAlnum, c);
    }
    r
  }

  /** The replace scans left to right: nothing comes of the empty string, and one more character at the
      end adds itself exactly when it is an ASCII letter or digit; so the kept characters stay in order. */
  lemma StripNonAlnumScan(s: string, c: char)
    ensures StripNonAlnum([]) == []
    ensures StripNonAlnum(s + [c]) == StripNonAlnum(s) + (if IsAsciiAlnum(c) then [c] else [])
  {
    FilterAppend(s, c, IsAsciiAlnum);
  }

  /** The generated user name: the cleaned local part of the address followed by the random number
      `suffix` (a value below 1000 in the source, drawn by `Math.random`). */
  function GeneratedUsername(email: string, suffix: nat): (r: string)
    ensures |r| > 0 && forall i :: 0 <= i < |r| ==> IsAsciiAlnum(r[i])
  {
    StripNonAlnum(LocalPart(email)) + NatToString(suffix)
  }

  /** A generated user name starts with the local part of the address stripped of every character
      outside `[A-Za-z0-9]`, and the rest is the decimal suffix. */
  lemma GeneratedUsernameShape(email: string, suffix: nat)
    ensures var prefix := StripNonAlnum(LocalPart(email));
      && GeneratedUsername(email, suffix)[..|prefix|] == prefix
      && GeneratedUsername(email, suffix)[|prefix|..] == NatToString(suffix)
      && forall i :: 0 <= i < |GeneratedUsername(email, suffix)| ==> IsAsciiAlnum(GeneratedUsername(email, suffix)[i])
  {
  }

  /** The `findOrCreate` match rule: same Google id or same e-mail. */
  predicate Matches(u: UserRow, googleId: string, email: string)
  {
    u.googleId == googleId || u.email == email
  }

  class UserTable {
    var rows: map<int, UserRow>
    /** The next value of the `uid SERIAL` sequence. */
    var nextUid: int

    /** Rows are keyed by their uid, uids come from the sequence, and the UNIQUE columns are unique. */
    ghost predicate Valid()
      reads this
    {
      && nextUid >= 1
      && (forall id :: id in rows ==> rows[id].uid == id && 1 <= id < nextUid)
      && (forall a, b :: a in rows && b in rows && a != b ==>
            && rows[a].googleId != rows[b].googleId
            && rows[a].email != rows[b].email
            && rows[a].username != rows[b].username)
    }

    ghost predicate BalancesNonNegative()
      reads this
    {
      forall id :: id in rows ==> rows[id].balance >= 0
    }

    constructor ()
      ensures Valid() && BalancesNonNegative()
      ensures rows == map[] && nextUid == 1
    {
      rows := map[];
      nextUid := 1;
    }

    /** `findById` / `findByIdForUpdate`: the row with that uid, or null. */
    function FindById(uid: int): (r: Option<UserRow>)
      reads this
      ensures r.None? <==> uid !in rows
      ensures r.Some? ==> r.value == rows[uid]
    {
      if uid in rows then Some(rows[uid]) else None
    }

    /** `findOrCreate`: returns an existing row whose Google id or e-mail matches and inserts nothing;
        otherwise inserts a row with the column defaults and a generated user name. The insert fails
        (`None`, the database error the source rethrows) when that user name is already taken; the
        `uid` sequence is consumed even then. */
    method FindOrCreate(googleId: string, email: string, name: string, suffix: nat, now: int)
      returns (r: Option<UserRow>)
      requires Valid()
      modifies this
      ensures Valid()
      ensures (exists id :: id in old(rows) && Matches(old(rows)[id], googleId, email)) ==>
        && rows == old(rows) && nextUid == old(nextUid)
        && r.Some? && r.value.uid in rows && rows[r.value.uid] == r.value && Matches(r.value, googleId, email)
      ensures (forall id :: id in old(rows) ==> !Matches(old(rows)[id], googleId, email)) ==>
        && nextUid == old(nextUid) + 1
        && var username := GeneratedUsername(email, suffix);
           if exists id :: id in old(rows) && old(rows)[id].username == username then
             r.None? && rows == old(rows)
           else
             && r == Some(NewUser(old(nextUid), googleId, email, name, username, now))
             && rows == old(rows)[old(nextUid) := r.value]
      ensures old(BalancesNonNegative()) ==> BalancesNonNegative()
    {
      if id :| id in rows && Matches(rows[id], googleId, email) {
        r := Some(rows[id]);
        return;
      }
      var username := GeneratedUsername(email, suffix);
      var uid := nextUid;
      nextUid := nextUid + 1;
      if id :| id in rows && rows[id].username == username {
        r := None;
        return;
      }
      var row := NewUser(uid, googleId, email, name, username, now);
      assert uid !in rows;
      rows := rows[uid := row];
      r := Some(row);
    }

    /** `updateClaim`: credits `cash` to both the balance and the claimed total and records `time` as
        the last claim; no row changes when the uid is unknown. */
    method UpdateClaim(uid: int, cash: int, time: int) returns (r: Option<UserRow>)
      requires Valid()
      modifies this`rows
      ensures Valid()
      ensures r.None? <==> uid !in old(rows)
      ensures r.None? ==> rows == old(rows)
      ensures r.Some? ==>
        var u := old(rows)[uid];
        && r.value == u.(balance := u.balance + cash, claimedCash := u.claimedCash + cash, lastClaimDate := time)
        && rows == old(rows)[uid := r.value]
    {
      if uid !in rows {
        return None;
      }
      var u := rows[uid];
      var updated := u.(balance := u.balance + cash, claimedCash := u.claimedCash + cash, lastClaimDate := time);
      rows := rows[uid := updated];
      r := Some(updated);
    }

    /** `updateBalance`: `balance - amountCut WHERE balance >= amountCut`. When the condition fails or
        the uid is unknown no row is returned and nothing changes; a debited balance is never negative. */
    method UpdateBalance(uid: int, amountCut: int) returns (r: Option<UserRow>)
      requires Valid()
      modifies this`rows
      ensures Valid()
      ensures r.Some? <==> uid in old(rows) && old(rows)[uid].balance >= amountCut
      ensures r.None? ==> rows == old(rows)
      ensures r.Some? ==>
        && r.value == old(rows)[uid].(balance := old(rows)[uid].balance - amountCut)
        && r.value.balance >= 0
        && rows == old(rows)[uid := r.value]
      ensures old(BalancesNonNegative()) ==> BalancesNonNegative()
    {
      if uid !in rows || rows[uid].balance < amountCut {
        return None;
      }
      var updated := rows[uid].(balance := rows[uid].balance - amountCut);
      rows := rows[uid := updated];
      r := Some(updated);
    }

    /** `addBalance`: unconditional `balance + amount` on exactly the row `uid`; every other row is unchanged. */
    method AddBalance(uid: int, amount: int) returns (r: Option<UserRow>)
      requires Valid()
      modifies this`rows
      ensures Valid()
      ensures r.None? <==> uid !in old(rows)
      ensures r.None? ==> rows == old(rows)
      ensures r.Some? ==>
        && r.value == old(rows)[uid].(balance := old(rows)[uid].balance + amount)
        && rows == old(rows)[uid := r.value]
      ensures rows.Keys == old(rows.Keys)
      ensures forall id :: id in rows && id != uid ==> rows[id] == old(rows)[id]
      ensures old(BalancesNonNegative()) && amount >= 0 ==> BalancesNonNegative()
    {
      if uid !in rows {
        return None;
      }
      var updated := rows[uid].(balance := rows[uid].balance + amount);
      rows := rows[uid := updated];
      r := Some(updated);
    }
  }
}
