/** The claim button of the side bar: the time left until the next claim, its `Xh Ymin` rendering, and the
    state of the button. Times are milliseconds since the epoch; `now` is the browser clock, passed in. */
module ClaimCountdown {
  import opened Common
  import opened Text
  import Users
  import Claims

  const MinuteMs: int := 60 * 1000

  /** The text `${hours}h ${minutes}min`. */
  function Render(hours: nat, minutes: nat): string
  {
    NatToString(hours) + "h " + NatToString(minutes) + "min"
  }

  /** Behind the hours and `"h "` come the minutes and `"min"`. */
  lemma RenderMinutesPart(hours: nat, minutes: nat)
    ensures Render(hours, minutes)[|NatToString(hours)| + 2..] == NatToString(minutes) + "min"
  {
    assert Render(hours, minutes) == NatToString(hours) + ("h " + NatToString(minutes) + "min");
  }

  /** `parseInt` reads the hours back from the front of the text. */
  lemma RenderReadsHours(hours: nat, minutes: nat)
    ensures ParseIntPrefix(Render(hours, minutes)) == Some(hours)
  {
    var rest := NatToString(minutes) + "min";
    assert Render(hours, minutes) == NatToString(hours) + ("h " + rest);
    ParseIntOfPrintedNumber(hours, "h " + rest);
  }

  /** `parseInt` reads the minutes back from behind `"h "`. */
  lemma RenderReadsMinutes(hours: nat, minutes: nat)
    ensures ParseIntPrefix(Render(hours, minutes)[|NatToString(hours)| + 2..]) == Some(minutes)
  {
    RenderMinutesPart(hours, minutes);
    ParseIntOfPrintedNumber(minutes, "min");
  }

  /** `formatTimeLeft`: `"0h 0min"` for a non-positive duration, else the whole hours and the remaining
      whole minutes. */
  function FormatTimeLeft(ms: int): (s: string)
    ensures ms <= 0 ==> s == "0h 0min"
    ensures ms > 0 ==> exists h: nat, m: nat :: h * 60 + m == ms / MinuteMs && m < 60 && s == Render(h, m)
  {
    if ms <= 0 then "0h 0min"
    else
      var totalMinutes := ms / MinuteMs;
      Render(totalMinutes / 60, totalMinutes % 60)
  }

  /** Whole minutes divided into whole hours are the whole hours. */
  lemma WholeHours(ms: int)
    requires ms > 0
    ensures (ms / MinuteMs) / 60 == ms / Users.HourMs
  {
    var q := ms / Users.HourMs;
    var r := ms % Users.HourMs;
    assert ms == q * Users.HourMs + r && 0 <= r < Users.HourMs;
    assert ms == (q * 60 + r / MinuteMs) * MinuteMs + r % MinuteMs;
    assert ms / MinuteMs == q * 60 + r / MinuteMs;
  }

  /** Read back with `parseInt`, the text starts with the whole hours left. */
  lemma FormatTimeLeftShowsHours(ms: int)
    requires ms > 0
    ensures ParseIntPrefix(FormatTimeLeft(ms)) == Some(ms / Users.HourMs)
  {
    WholeHours(ms);
    RenderReadsHours((ms / MinuteMs) / 60, (ms / MinuteMs) % 60);
  }

  /** After the hours and `"h "` come the whole minutes left over. */
  lemma FormatTimeLeftShowsMinutes(ms: int)
    requires ms > 0
    ensures var text := FormatTimeLeft(ms);
      var hours := NatToString(ms / Users.HourMs);
      |hours| + 2 <= |text| && ParseIntPrefix(text[|hours| + 2..]) == Some((ms / MinuteMs) % 60)
  {
    var h := (ms / MinuteMs) / 60;
    var m := (ms / MinuteMs) % 60;
    WholeHours(ms);
    assert FormatTimeLeft(ms) == Render(h, m);
    RenderMinutesPart(h, m);
    RenderReadsMinutes(h, m);
  }

  /** `nextClaimDate`: twelve hours after the last claim. */
  function NextClaim(lastClaimDate: int): (t: int)
    ensures t - lastClaimDate == Claims.CooldownMs
  {
    lastClaimDate + Claims.CooldownMs
  }

  /** `timeLeft`: the time until the next claim, clamped at 0. It is 0 exactly when a claim sent now would
      pass the cooldown test of `ClaimCash`, and never more than twelve hours for a claim in the past. */
  function TimeLeft(lastClaimDate: int, now: int): (r: int)
    ensures r >= 0
    ensures r == 0 <==> Claims.ClaimDue(lastClaimDate, Some(now))
    ensures r > 0 ==> now + r == NextClaim(lastClaimDate)
    ensures lastClaimDate <= now ==> r <= Claims.CooldownMs
  {
    Max(0, NextClaim(lastClaimDate) - now)
  }

  datatype ButtonLabel = Loading | NextIn(text: string) | ClaimOffer

  datatype ClaimButton = ClaimButton(disabled: bool, caption: ButtonLabel)

  /** The button: disabled while loading or when the server says no claim is open; it shows the spinner,
      then the countdown while no claim is open, and otherwise the offer of $1500. */
  function Button(canClaim: bool, isLoading: bool, timeLeft: int): (b: ClaimButton)
    ensures b.disabled <==> !canClaim || isLoading
    ensures b.caption.Loading? <==> isLoading
    ensures b.caption.ClaimOffer? <==> !b.disabled
    ensures b.caption.NextIn? ==> b.caption.text == FormatTimeLeft(timeLeft)
  {
    var caption := if isLoading then Loading else if !canClaim then NextIn(FormatTimeLeft(timeLeft)) else ClaimOffer;
    ClaimButton(!canClaim || isLoading, caption)
  }

  /** The server's strict test and the countdown disagree exactly twelve hours after a claim: the button
      stays disabled and reads `Next in 0h 0min`, although a claim made then would succeed. Here
      `canClaim` is taken as computed at the same instant as the countdown, with one clock for server and
      browser; the page refreshes `canClaim` only on load, on a change of user and after a claim, so a
      stale `false` keeps the button in this state past the boundary too. */
  lemma ZeroCountdownAtBoundary(lastClaimDate: int)
    ensures var now := NextClaim(lastClaimDate);
      && Button(Claims.CanClaim(lastClaimDate, now), false, TimeLeft(lastClaimDate, now)) == ClaimButton(true, NextIn("0h 0min"))
      && Claims.ClaimDue(lastClaimDate, Some(now))
  {
  }

  /** Whenever the server offers a claim the countdown has run out, so a running countdown never
      appears next to an open claim (for a `canClaim` computed at the same instant, on the same clock). */
  lemma OfferImpliesCountdownDone(lastClaimDate: int, now: int)
    ensures Claims.CanClaim(lastClaimDate, now) ==> TimeLeft(lastClaimDate, now) == 0
    ensures TimeLeft(lastClaimDate, now) > 0 ==> !Claims.CanClaim(lastClaimDate, now)
  {
  }
}
