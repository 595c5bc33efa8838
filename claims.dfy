/** The cash faucet of `AuthController`: `canClaimCash` reports whether a claim is open, and `ClaimCash`
    credits 1500 at most once every 12 hours. The caller's uid comes from the session (`None` when there
    is none); times are milliseconds since the epoch. */
module Claims {
  import opened Common
  import opened Users

  /** The amount one claim credits. */
  const ClaimAmount: int := 1500
  const CooldownMs: int := 12 * HourMs

  /** `!userid`: no session, or the falsy uid 0. */
  predicate Unauthenticated(uid: Option<int>)
  {
    uid.None? || uid.value == 0
  }

  /** The test of `canClaimCash`: the last claim lies strictly before `now` minus 12 hours. */
  predicate CanClaim(lastClaimDate: int, now: int)
    ensures CanClaim(lastClaimDate, now) <==> now > lastClaimDate + CooldownMs
  {
    lastClaimDate < now - CooldownMs
  }

  /** The test of `ClaimCash`: at least 12 hours from the last claim to the client-supplied time. An
      unparseable `currentTime` (`None`, an invalid `Date`) gives `NaN` hours, and `NaN >= 12` is false. */
  predicate ClaimDue(lastClaimDate: int, currentTime: Option<int>)
    ensures currentTime.None? ==> !ClaimDue(lastClaimDate, currentTime)
    ensures currentTime.Some? ==>
      (ClaimDue(lastClaimDate, currentTime) <==> CanClaim(lastClaimDate, currentTime.value) || currentTime.value == lastClaimDate + CooldownMs)
  {
    currentTime.Some? && currentTime.value - lastClaimDate >= CooldownMs
  }

  /** The row a successful claim leaves behind: both the balance and the claimed total rise by 1500 and
      the claim time becomes the client-supplied time. */
  function Claimed(u: UserRow, time: int): (v: UserRow)
    ensures v.balance - u.balance == v.claimedCash - u.claimedCash == ClaimAmount
    ensures v.lastClaimDate == time
    ensures v.uid == u.uid && v.username == u.username && v.email == u.email && v.googleId == u.googleId
  {
    u.(balance := u.balance + ClaimAmount, claimedCash := u.claimedCash + ClaimAmount, lastClaimDate := time)
  }

  datatype CanClaimReply = CanClaimUnauthorized | CanClaimNotFound | CanClaimAnswer(canClaim: bool, lastClaimDate: int)

  /** `canClaimCash`: 401 without a uid, 404 for an unknown one, else the answer with the stored claim date. */
  function CanClaimCash(users: UserTable, uid: Option<int>, now: int): (r: CanClaimReply)
    reads users
    ensures r.CanClaimUnauthorized? <==> Unauthenticated(uid)
    ensures r.CanClaimNotFound? <==> !Unauthenticated(uid) && uid.value !in users.rows
    ensures r.CanClaimAnswer? ==>
      && uid.value in users.rows
      && r.lastClaimDate == users.rows[uid.value].lastClaimDate
      && (r.canClaim <==> CanClaim(users.rows[uid.value].lastClaimDate, now))
  {
    if Unauthenticated(uid) then CanClaimUnauthorized
    else match users.FindById(uid.value)
      case None => CanClaimNotFound
      case Some(u) => CanClaimAnswer(CanClaim(u.lastClaimDate, now), u.lastClaimDate)
  }

  datatype ClaimReply = ClaimUnauthorized | ClaimNotFound | ClaimTooSoon | ClaimSucceeded(cash: int)

  /** `ClaimCash`: 401 without a uid, 404 for an unknown one, 400 while the cooldown runs; otherwise
      `updateClaim` credits 1500 and records `currentTime`. Only a success changes the table, and it
      changes only the caller's row. */
  method ClaimCash(users: UserTable, uid: Option<int>, currentTime: Option<int>) returns (r: ClaimReply)
    requires users.Valid()
    modifies users`rows
    ensures users.Valid()
    ensures r.ClaimUnauthorized? <==> Unauthenticated(uid)
    ensures r.ClaimNotFound? <==> !Unauthenticated(uid) && uid.value !in old(users.rows)
    ensures r.ClaimTooSoon? <==>
      !Unauthenticated(uid) && uid.value in old(users.rows) && !ClaimDue(old(users.rows)[uid.value].lastClaimDate, currentTime)
    ensures !r.ClaimSucceeded? ==> users.rows == old(users.rows)
    ensures r.ClaimSucceeded? ==>
      && r.cash == ClaimAmount
      && users.rows == old(users.rows)[uid.value := Claimed(old(users.rows)[uid.value], currentTime.value)]
  {
    if Unauthenticated(uid) {
      return ClaimUnauthorized;
    }
    var user := users.FindById(uid.value);
    if user.None? {
      return ClaimNotFound;
    }
    if !ClaimDue(user.value.lastClaimDate, currentTime) {
      return ClaimTooSoon;
    }
    var updated := users.UpdateClaim(uid.value, ClaimAmount, currentTime.value);
    r := ClaimSucceeded(ClaimAmount);
  }

  /** The two tests disagree only at the boundary: whenever `canClaimCash` says yes a claim at that
      time succeeds, and a claim that succeeds while it says no is made exactly 12 hours after the last one. */
  lemma CanClaimVersusClaimDue(lastClaimDate: int, now: int)
    ensures CanClaim(lastClaimDate, now) ==> ClaimDue(lastClaimDate, Some(now))
    ensures ClaimDue(lastClaimDate, Some(now)) && !CanClaim(lastClaimDate, now) <==> now - lastClaimDate == CooldownMs
  {
  }

  /** The boundary mismatch itself: exactly 12 hours after a claim, `canClaimCash` answers false while
      `ClaimCash` credits the user. */
  lemma BoundaryMismatch(u: UserRow)
    ensures !CanClaim(u.lastClaimDate, u.lastClaimDate + CooldownMs)
    ensures ClaimDue(u.lastClaimDate, Some(u.lastClaimDate + CooldownMs))
  {
  }

  /** A freshly created user (last claim 25 hours before creation) may claim at once. */
  lemma NewUserMayClaimAtOnce(uid: int, googleId: string, email: string, name: string, username: string, now: int)
    ensures CanClaim(NewUser(uid, googleId, email, name, username, now).lastClaimDate, now)
    ensures ClaimDue(NewUser(uid, googleId, email, name, username, now).lastClaimDate, Some(now))
  {
  }

  /** At most one claim every 12 hours: after a claim at `t1`, a further claim at `t2` is due exactly
      when `t2` is at least 12 hours later, and two claims together credit 3000. */
  lemma OneClaimPerCooldown(u: UserRow, t1: int, t2: int)
    requires ClaimDue(u.lastClaimDate, Some(t1))
    ensures ClaimDue(Claimed(u, t1).lastClaimDate, Some(t2)) <==> t2 - t1 >= CooldownMs
    ensures Claimed(Claimed(u, t1), t2).balance == u.balance + 2 * ClaimAmount
    ensures Claimed(Claimed(u, t1), t2).claimedCash - u.claimedCash == Claimed(Claimed(u, t1), t2).balance - u.balance
  {
  }
}
