/**
 * The package page (app/subscription/page.tsx): the table of packages and
 * what confirming the selected one does to the authentication state and
 * whether the page then moves on to the features.
 */
module Subscription {
  import opened Common
  import opened Auth

  /** A package; `duration` is the string of days the page hands to `parseInt`. */
  datatype Package = Package(name: string, price: int, duration: string)

  /** What `handleConfirmation` ends with. */
  datatype Confirmation =
    | Ignored           // nothing selected
    | TrialAlreadyUsed  // the "already used your free trial" alert, no navigation
    | Navigated         // `router.push('/features')`

  const FreeTrial: string := "Free Trial"

  /** The five packages; prices in cents. */
  const Packages: seq<Package> := [
    Package(FreeTrial, 0, "30"),
    Package("Daily", 500, "1"),
    Package("Weekly", 2500, "7"),
    Package("Monthly", 8000, "30"),
    Package("Yearly", 80000, "365")]

  /** `parseInt(pkg.duration)` for a package of the table: 30, 1, 7, 30 or 365 days. */
  function DurationDays(p: Package): (d: int)
    requires p in Packages
    ensures d >= 1
    ensures p.name == FreeTrial ==> d == TrialDays
    ensures d == 1 || d == 7 || d == 30 || d == 365
  {
    assert p == Packages[0] || p == Packages[1] || p == Packages[2] || p == Packages[3] || p == Packages[4];
    DurationStringsParse();
    DigitsValue(p.duration)
  }

  /** The duration strings of the table read as 1, 7, 30 and 365. */
  lemma DurationStringsParse()
    ensures DigitsValue("1") == 1 && DigitsValue("7") == 7
    ensures DigitsValue("30") == 30 && DigitsValue("365") == 365
  {
    assert "30"[..1] == "3";
    assert "365"[..2] == "36" && "36"[..1] == "3";
  }

  /**
   * `handleConfirmation` on the authentication state. Nothing selected:
   * nothing happens. The free trial starts a trial only when no trial end is
   * recorded, and otherwise stops without navigating; any other package
   * subscribes for its duration. Every confirmation that navigates leaves
   * the account active.
   */
  function Confirm(s: AuthState, selected: Option<Package>, now: int): (r: (AuthState, Confirmation))
    requires selected.Some? ==> selected.value in Packages
    ensures r.1 == Ignored <==> selected.None?
    ensures r.1 == TrialAlreadyUsed <==> selected.Some? && selected.value.name == FreeTrial && s.trialEnds.Some?
    ensures r.1 != Navigated ==> r.0 == s
    ensures r.1 == Navigated ==> Active(r.0, now) && r.0.user == s.user
    ensures selected.Some? && selected.value.name == FreeTrial && s.trialEnds.None? ==>
      r.0 == s.(trialEnds := Some(now + TrialDays * DayMs))
    ensures selected.Some? && selected.value.name != FreeTrial ==>
      r.0 == s.(subscriptionEnds := Some(now + DurationDays(selected.value) * DayMs), trialEnds := None)
  {
    match selected
    case None => (s, Ignored)
    case Some(p) =>
      if p.name == FreeTrial then
        if s.trialEnds.None? then (TrialStarted(s, now), Navigated) else (s, TrialAlreadyUsed)
      else (Subscribed(s, DurationDays(p), now), Navigated)
  }

  /**
   * Subscribing clears the recorded trial end, so once a trial and a
   * one-day subscription have both run out, choosing the free trial again
   * navigates and starts a second 30-day trial.
   */
  lemma SecondTrialAfterLapse(s: AuthState, t0: int, t1: int, t2: int)
    requires t1 + DayMs <= t2
    ensures var lapsed := Subscribed(TrialStarted(s, t0), 1, t1);
            && !Active(lapsed, t2)
            && Confirm(lapsed, Some(Packages[0]), t2).1 == Navigated
            && Confirm(lapsed, Some(Packages[0]), t2).0.trialEnds == Some(t2 + TrialDays * DayMs)
  {
    var lapsed := Subscribed(TrialStarted(s, t0), 1, t1);
    assert Packages[0] in Packages && Packages[0].name == FreeTrial;
    assert lapsed.trialEnds.None?;
  }

  /** `handleConfirmation`, calling the provider's operations. */
  method HandleConfirmation(auth: AuthProvider, selected: Option<Package>, now: int) returns (outcome: Confirmation)
    requires selected.Some? ==> selected.value in Packages
    modifies auth
    ensures (auth.State(), outcome) == Confirm(old(auth.State()), selected, now)
  {
    if selected.None? {
      return Ignored;
    }
    var p := selected.value;
    if p.name == FreeTrial {
      if auth.trialEnds.None? {
        auth.StartTrial(now);
      } else {
        return TrialAlreadyUsed;
      }
    } else {
      auth.UpdateSubscription(DurationDays(p), now);
    }
    return Navigated;
  }
}
