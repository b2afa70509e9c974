/**
 * The countdown panel (components/subscription-status.tsx): which end date
 * it counts down to, the split of the time left into days, hours and
 * minutes, and the clamped progress bar. Instants are integer milliseconds.
 */
module SubscriptionStatus {
  import opened Common
  import opened Auth

  /** What one run of `updateTimer` shows. `progress` is None where the source divides by zero. */
  datatype Countdown = Countdown(days: int, hours: int, minutes: int, progress: Option<real>)

  /** `trialEnds ? trialEnds : (subscriptionEnds ? subscriptionEnds : null)`. */
  function EndDate(s: AuthState): (r: Option<int>)
    ensures s.trialEnds.Some? ==> r == s.trialEnds
    ensures s.trialEnds.None? ==> r == s.subscriptionEnds
  {
    if s.trialEnds.Some? then s.trialEnds else s.subscriptionEnds
  }

  /** JavaScript's `a % b` for b > 0: truncated, so the remainder takes the sign of a. */
  function JsRem(a: int, b: int): (r: int)
    requires b > 0
    ensures a >= 0 ==> 0 <= r < b && r == a % b
    ensures a < 0 ==> -b < r <= 0 && (r == 0 || r == a % b - b)
  {
    if a >= 0 then a % b
    else
      NegativeRemainder(a, b);
      -((-a) % b)
  }

  /** For a < 0, the truncated remainder is 0 or the Euclidean one less b. */
  lemma NegativeRemainder(a: int, b: int)
    requires a < 0 < b
    ensures (-a) % b == 0 || -((-a) % b) == a % b - b
  {
    var q := (-a) / b;
    var m := (-a) % b;
    assert -a == q * b + m;
    if m != 0 {
      assert a == (-q - 1) * b + (b - m);
      ModOfDecomposition(a, b, -q - 1, b - m);
    }
  }

  /** The Euclidean remainder is the r of any a == q * b + r with 0 <= r < b. */
  lemma ModOfDecomposition(a: int, b: int, q: int, r: int)
    requires 0 <= r < b && a == q * b + r
    ensures a % b == r
  {
    var q' := a / b;
    var r' := a % b;
    assert a == q' * b + r';
    assert (q - q') * b == r' - r;
    if q > q' {
      MultipleAtLeast(q - q', b);
    } else if q < q' {
      assert (q' - q) * b == r - r';
      MultipleAtLeast(q' - q, b);
    }
  }

  lemma {:induction false} MultipleAtLeast(k: int, b: int)
    requires k >= 1 && b > 0
    ensures k * b >= b
    decreases k
  {
    if k > 1 {
      MultipleAtLeast(k - 1, b);
      assert k * b == (k - 1) * b + b;
    }
  }

  /** `Math.max(0, Math.min(100, x))`. */
  function Clamp(x: real): (r: real)
    ensures 0.0 <= r <= 100.0
    ensures 0.0 <= x <= 100.0 ==> r == x
  {
    if x < 0.0 then 0.0 else if x > 100.0 then 100.0 else x
  }

  datatype Parts = Parts(days: int, hours: int, minutes: int)

  /**
   * Days, hours and minutes of `timeLeft`, as `Math.floor` of the quotients
   * and remainders: the days are the whole days rounded down, and the
   * truncated remainders keep hours and minutes within one day and one hour
   * of zero, on the side of the sign of `timeLeft`.
   */
  function Split(timeLeft: int): (p: Parts)
    ensures p.days * DayMs <= timeLeft < (p.days + 1) * DayMs
    ensures timeLeft >= 0 ==> 0 <= p.hours < 24 && 0 <= p.minutes < 60
    ensures timeLeft < 0 ==> -24 <= p.hours <= 0 && -60 <= p.minutes <= 0
  {
    Parts(timeLeft / DayMs, JsRem(timeLeft, DayMs) / HourMs, JsRem(timeLeft, HourMs) / MinuteMs)
  }

  /**
   * `updateTimer`: nothing without a user or without an end date; otherwise
   * the split of `end - now` and the share of `end - start` still left.
   */
  function UpdateTimer(s: AuthState, now: int): (r: Option<Countdown>)
    ensures r.None? <==> s.user.None? || (s.trialEnds.None? && s.subscriptionEnds.None?)
    ensures r.Some? ==> && EndDate(s).Some? && s.user.Some?
                        && (r.value.progress.Some? <==> EndDate(s).value != s.user.value.subscriptionStartDate)
    ensures r.Some? ==> var p := Split(EndDate(s).value - now);
                        r.value.days == p.days && r.value.hours == p.hours && r.value.minutes == p.minutes
    ensures r.Some? && r.value.progress.Some? ==>
              r.value.progress.value
              == Clamp((EndDate(s).value - now) as real / (EndDate(s).value - s.user.value.subscriptionStartDate) as real * 100.0)
  {
    match (EndDate(s), s.user)
    case (Some(end), Some(user)) =>
      var totalDuration := end - user.subscriptionStartDate;
      var timeLeft := end - now;
      var parts := Split(timeLeft);
      var progress := if totalDuration == 0 then None
                      else Some(Clamp(timeLeft as real / totalDuration as real * 100.0));
      Some(Countdown(parts.days, parts.hours, parts.minutes, progress))
    case _ => None
  }

  /** One day is 24 hours: the remainder by an hour of the remainder by a day is the remainder by an hour. */
  lemma RemainderByHour(t: int)
    requires t >= 0
    ensures (t % DayMs) % HourMs == t % HourMs
  {
    var q := t / DayMs;
    var r := t % DayMs;
    assert t == q * DayMs + r;
    assert q * DayMs == (q * 24) * HourMs;
    var k := r / HourMs;
    assert r == k * HourMs + r % HourMs;
    assert t == (q * 24 + k) * HourMs + r % HourMs;
  }

  /**
   * With time left, hours lie in [0, 24) and minutes in [0, 60), and the
   * three parts give the time left to within a minute, rounded down.
   */
  lemma SplitBounds(timeLeft: int)
    requires timeLeft >= 0
    ensures var Parts(days, hours, minutes) := Split(timeLeft);
            && 0 <= hours < 24 && 0 <= minutes < 60
            && days * DayMs + hours * HourMs + minutes * MinuteMs <= timeLeft
            && timeLeft < days * DayMs + hours * HourMs + (minutes + 1) * MinuteMs
  {
    var Parts(days, hours, minutes) := Split(timeLeft);
    var r := timeLeft % DayMs;
    assert timeLeft == days * DayMs + r;
    assert r == hours * HourMs + r % HourMs;
    RemainderByHour(timeLeft);
    assert r % HourMs == minutes * MinuteMs + (r % HourMs) % MinuteMs;
  }

  /**
   * Once the end has passed every part reads as zero or below: the days
   * are negative, and the truncated remainders make hours and minutes
   * non-positive rather than wrapping around.
   */
  lemma SplitWhenOverdue(timeLeft: int)
    requires timeLeft < 0
    ensures var Parts(days, hours, minutes) := Split(timeLeft);
            days < 0 && -24 <= hours <= 0 && -60 <= minutes <= 0
  {
  }

  /**
   * Before the end, the panel shows the time left to the end date rounded
   * down to the minute, with hours below 24 and minutes below 60.
   */
  lemma CountdownShowsTimeLeft(s: AuthState, now: int)
    requires UpdateTimer(s, now).Some? && now <= EndDate(s).value
    ensures var c := UpdateTimer(s, now).value;
            var timeLeft := EndDate(s).value - now;
            && 0 <= c.hours < 24 && 0 <= c.minutes < 60
            && c.days * DayMs + c.hours * HourMs + c.minutes * MinuteMs <= timeLeft
            && timeLeft < c.days * DayMs + c.hours * HourMs + (c.minutes + 1) * MinuteMs
  {
    SplitBounds(EndDate(s).value - now);
  }

  /** After the end, the panel shows negative days and no positive hours or minutes. */
  lemma CountdownWhenOverdue(s: AuthState, now: int)
    requires UpdateTimer(s, now).Some? && now > EndDate(s).value
    ensures var c := UpdateTimer(s, now).value;
            c.days < 0 && -24 <= c.hours <= 0 && -60 <= c.minutes <= 0
  {
    SplitWhenOverdue(EndDate(s).value - now);
  }

  /** With a duration to divide by, the progress bar is shown and lies in [0, 100]. */
  lemma ProgressInRange(s: AuthState, now: int)
    requires UpdateTimer(s, now).Some?
    requires EndDate(s).value != s.user.value.subscriptionStartDate
    ensures UpdateTimer(s, now).value.progress.Some?
    ensures 0.0 <= UpdateTimer(s, now).value.progress.value <= 100.0
  {
  }
}
