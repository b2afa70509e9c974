/**
 * The trial guard (components/trial-expiration-check.tsx): when a signed-in
 * user's trial is over and nothing was bought the guard sends them to the
 * package page; while the trial runs it shows a banner with the days left.
 */
module TrialCheck {
  import opened Common
  import opened Auth

  /** The redirect condition: a user, a trial end in the past, no subscription; it redirects only an inactive account. */
  predicate Redirects(s: AuthState, now: int)
    ensures Redirects(s, now) ==> s.user.Some? && !Active(s, now)
  {
    s.user.Some? && s.trialEnds.Some? && now > s.trialEnds.value && s.subscriptionEnds.None?
  }

  /** The banner condition: a user, a trial end in the future, no subscription; it shows only on an active account. */
  predicate ShowsBanner(s: AuthState, now: int)
    ensures ShowsBanner(s, now) ==> s.user.Some? && Active(s, now)
  {
    s.user.Some? && s.trialEnds.Some? && now < s.trialEnds.value && s.subscriptionEnds.None?
  }

  /** `Math.ceil(ms / (1000 * 3600 * 24))`: whole days, rounded up. */
  function CeilDays(ms: int): (d: int)
    ensures (d - 1) * DayMs < ms <= d * DayMs
  {
    -((-ms) / DayMs)
  }

  /** `daysLeft` of the banner: the time to the trial end in whole days, rounded up. */
  function DaysLeft(trialEnds: int, now: int): (d: int)
    ensures (d - 1) * DayMs < trialEnds - now <= d * DayMs
  {
    CeilDays(trialEnds - now)
  }

  /**
   * The guard never both redirects and shows the banner, and at the very
   * instant the trial ends it does neither.
   */
  lemma RedirectAndBannerExclusive(s: AuthState, now: int)
    ensures !(Redirects(s, now) && ShowsBanner(s, now))
    ensures s.trialEnds == Some(now) ==> !Redirects(s, now) && !ShowsBanner(s, now)
  {
  }

  /** Whenever the banner shows, at least one day is announced, and no more than the time left allows. */
  lemma BannerDaysLeft(s: AuthState, now: int)
    requires ShowsBanner(s, now)
    ensures DaysLeft(s.trialEnds.value, now) >= 1
    ensures (DaysLeft(s.trialEnds.value, now) - 1) * DayMs < s.trialEnds.value - now
  {
  }

  /** A trial just started shows the banner with 30 days left. */
  lemma FreshTrialBanner(s: AuthState, now: int)
    requires s.user.Some? && s.trialEnds.None? && s.subscriptionEnds.None?
    ensures ShowsBanner(TrialStarted(s, now), now)
    ensures DaysLeft(TrialStarted(s, now).trialEnds.value, now) == TrialDays
  {
  }
}
