/**
 * The authentication and subscription state (components/auth-provider.tsx):
 * the signed-in user and the two end dates, the operations that change
 * them, and the "has an active subscription" query. Instants are integer
 * milliseconds; `now` is a parameter wherever the source reads the clock.
 */
module Auth {
  import opened Common

  datatype User = User(username: string, subscriptionStartDate: int)

  /** `user`, `trialEnds` and `subscriptionEnds`; `null` is None. */
  datatype AuthState = AuthState(user: Option<User>, trialEnds: Option<int>, subscriptionEnds: Option<int>)

  const SignedOut: AuthState := AuthState(None, None, None)

  const AdminUsername: string := "admin"
  const AdminPassword: string := "password"

  /** Length of the free trial in days. */
  const TrialDays: int := 30

  /** `hasActiveSubscription`: a trial or a subscription ends after `now`; with neither date nothing is active. */
  predicate Active(s: AuthState, now: int)
    ensures s.trialEnds.None? && s.subscriptionEnds.None? ==> !Active(s, now)
  {
    || (s.trialEnds.Some? && now < s.trialEnds.value)
    || (s.subscriptionEnds.Some? && now < s.subscriptionEnds.value)
  }

  /**
   * `login`: only admin/password signs in, as a user whose subscription
   * start is now; the end dates are left as they are.
   */
  function LoggedIn(s: AuthState, username: string, password: string, now: int): (r: (AuthState, bool))
    ensures r.1 <==> username == AdminUsername && password == AdminPassword
    ensures r.1 ==> r.0.user == Some(User(AdminUsername, now))
    ensures r.0.trialEnds == s.trialEnds && r.0.subscriptionEnds == s.subscriptionEnds
    ensures !r.1 ==> r.0 == s
  {
    if username == AdminUsername && password == AdminPassword then
      (s.(user := Some(User(username, now))), true)
    else (s, false)
  }

  /**
   * `startTrial`: with no trial end set, the trial ends 30 days from now;
   * a trial already started (running or over) is never restarted.
   */
  function TrialStarted(s: AuthState, now: int): (r: AuthState)
    ensures s.trialEnds.Some? ==> r == s
    ensures s.trialEnds.None? ==> r == s.(trialEnds := Some(now + TrialDays * DayMs))
    ensures r.trialEnds.Some?
  {
    if s.trialEnds.Some? then s else s.(trialEnds := Some(now + TrialDays * DayMs))
  }

  /**
   * `updateSubscription`: the subscription ends `durationDays` days from
   * now and the trial is dropped, so access lasts exactly until then.
   */
  function Subscribed(s: AuthState, durationDays: int, now: int): (r: AuthState)
    ensures r.user == s.user
    ensures r.subscriptionEnds == Some(now + durationDays * DayMs) && r.trialEnds.None?
    ensures forall t :: Active(r, t) <==> t < now + durationDays * DayMs
  {
    s.(subscriptionEnds := Some(now + durationDays * DayMs), trialEnds := None)
  }

  /** Access only runs out as time passes: active at an instant means active at every earlier one. */
  lemma ActiveEarlier(s: AuthState, t: int, now: int)
    requires t <= now && Active(s, now)
    ensures Active(s, t)
  {
  }

  /** Starting a trial twice is starting it once, whenever the second call comes. */
  lemma StartTrialIdempotent(s: AuthState, now: int, later: int)
    ensures TrialStarted(TrialStarted(s, now), later) == TrialStarted(s, now)
  {
  }

  /** A trial that was just started keeps the account active for its 30 days. */
  lemma ActiveAfterStartTrial(s: AuthState, now: int, t: int)
    requires s.trialEnds.None?
    requires now <= t < now + TrialDays * DayMs
    ensures Active(TrialStarted(s, now), t)
  {
  }

  /** A subscription of at least a day is active at once. */
  lemma ActiveAfterUpdate(s: AuthState, durationDays: int, now: int)
    requires durationDays >= 1
    ensures Active(Subscribed(s, durationDays, now), now)
  {
  }

  /** After logging out nothing is active. */
  lemma SignedOutInactive(now: int)
    ensures !Active(SignedOut, now)
  {
  }

  /** The provider component: its three pieces of state and the operations on them. */
  class AuthProvider {
    var user: Option<User>
    var trialEnds: Option<int>
    var subscriptionEnds: Option<int>

    function State(): AuthState
      reads this
    {
      AuthState(user, trialEnds, subscriptionEnds)
    }

    /** Nobody signed in and no dates, as before anything is read from storage. */
    constructor ()
      ensures State() == SignedOut
    {
      user := None;
      trialEnds := None;
      subscriptionEnds := None;
    }

    predicate HasActiveSubscription(now: int)
      reads this
    {
      Active(State(), now)
    }

    method Login(username: string, password: string, now: int) returns (ok: bool)
      modifies this
      ensures (State(), ok) == LoggedIn(old(State()), username, password, now)
    {
      if username == AdminUsername && password == AdminPassword {
        user := Some(User(username, now));
        return true;
      }
      return false;
    }

    method Logout()
      modifies this
      ensures State() == SignedOut
    {
      user := None;
      trialEnds := None;
      subscriptionEnds := None;
    }

    method StartTrial(now: int)
      modifies this
      ensures State() == TrialStarted(old(State()), now)
    {
      if trialEnds.Some? {
        return;
      }
      trialEnds := Some(now + TrialDays * DayMs);
    }

    method UpdateSubscription(durationDays: int, now: int)
      modifies this
      ensures State() == Subscribed(old(State()), durationDays, now)
    {
      subscriptionEnds := Some(now + durationDays * DayMs);
      trialEnds := None;
    }
  }
}
