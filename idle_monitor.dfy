/**
 * The idle/heartbeat session monitor of `src/hooks/useIdleTimeout.js`.
 *
 * Two timestamps, the last user activity and the last liveness probe, are
 * compared against the clock on each 5-second tick and on each activity
 * event. The wall clock is a parameter (`now`); timers and DOM listeners are
 * explicit state: whether the interval is armed and which events are
 * listened to.
 */
module IdleMonitor {
  import opened Wrappers
  import AuthStore

  /** `SESSION_IDLE_TIMEOUT`, the default `timeoutMs`: fifteen minutes. */
  const SESSION_IDLE_TIMEOUT := 900000
  /** The tick period of the `setInterval`. */
  const TICK_PERIOD := 5000
  /** A tick probes when the last probe is strictly older than this. */
  const HEARTBEAT_INTERVAL := 15000
  /** An activity event probes when the last probe is strictly older than this. */
  const ACTIVITY_PROBE_GAP := 5000

  /** The six DOM events the monitor listens to. */
  const ACTIVITY_EVENTS := ["mousedown", "mousemove", "keypress", "scroll", "touchstart", "click"]

  /** What a tick decides (`checkIdle`). */
  datatype TickDecision = IdleLogout | Probe | NoAction

  /** Idle is checked first and ends the tick; otherwise a probe is due strictly after 15 s. */
  function Decide(now: int, lastActivity: int, lastHeartbeat: int, timeoutMs: int): TickDecision {
    if now - lastActivity >= timeoutMs then IdleLogout
    else if now - lastHeartbeat > HEARTBEAT_INTERVAL then Probe
    else NoAction
  }

  /** Whether an activity event at `now` probes (`activityHandler`). */
  predicate ActivityProbes(now: int, lastHeartbeat: int) {
    now - lastHeartbeat > ACTIVITY_PROBE_GAP
  }

  /**
   * The tick decision in both directions: logout exactly when idle, and a
   * probe exactly when not idle and the heartbeat is stale; never both.
   */
  lemma DecideIff(now: int, lastActivity: int, lastHeartbeat: int, timeoutMs: int)
    ensures Decide(now, lastActivity, lastHeartbeat, timeoutMs) == IdleLogout <==> now - lastActivity >= timeoutMs
    ensures Decide(now, lastActivity, lastHeartbeat, timeoutMs) == Probe <==>
      now - lastActivity < timeoutMs && now - lastHeartbeat > HEARTBEAT_INTERVAL
    ensures Decide(now, lastActivity, lastHeartbeat, timeoutMs) == NoAction <==>
      now - lastActivity < timeoutMs && now - lastHeartbeat <= HEARTBEAT_INTERVAL
  {
  }

  // ---------------------------------------------------------------- the monitor as a state machine

  /**
   * The monitor's observable state: both timestamps, whether the interval
   * and listeners are installed, whether a user is present, and how many
   * probes and idle logouts have happened.
   */
  datatype MonitorState = MonitorState(
    lastActivity: int,
    lastHeartbeat: int,
    armed: bool,
    userPresent: bool,
    probes: nat,
    logouts: nat)

  /** The inputs that drive the monitor. */
  datatype Event =
    | Arm(at: int)          // the effect runs (mount, or user/timeout/handleLogout changed)
    | Tick(at: int)         // the interval fires
    | Activity(at: int)     // one of the six DOM events fires
    | Teardown              // the effect's cleanup runs

  /** `verifySessionStatus`: the heartbeat is set before the call, whose outcome is ignored. */
  function ProbeAt(s: MonitorState, now: int): MonitorState {
    s.(lastHeartbeat := now, probes := s.probes + 1)
  }

  /**
   * One event. `handleLogout` tests the user captured by the render whose
   * effect installed the interval; the effect installs it only when that
   * user is truthy, so an idle tick of an armed monitor always logs out,
   * whatever the store holds by then. It is the effect re-running when the
   * user changes that stops further logouts.
   */
  function Step(s: MonitorState, e: Event, timeoutMs: int): MonitorState {
    match e
    case Arm(now) =>
      if !s.userPresent then s.(armed := false)
      else s.(lastActivity := now, lastHeartbeat := now, armed := true)
    case Tick(now) =>
      if !s.armed then s
      else (match Decide(now, s.lastActivity, s.lastHeartbeat, timeoutMs)
        case IdleLogout => s.(userPresent := false, logouts := s.logouts + 1)
        case Probe => ProbeAt(s, now)
        case NoAction => s)
    case Activity(now) =>
      if !s.armed then s
      else
        var s' := s.(lastActivity := now);
        if ActivityProbes(now, s.lastHeartbeat) then ProbeAt(s', now) else s'
    case Teardown => s.(armed := false)
  }

  function Run(s: MonitorState, events: seq<Event>, timeoutMs: int): MonitorState
    decreases |events|
  {
    if events == [] then s else Run(Step(s, events[0], timeoutMs), events[1..], timeoutMs)
  }

  function RunConcat(s: MonitorState, a: seq<Event>, b: seq<Event>, timeoutMs: int): MonitorState {
    Run(Run(s, a, timeoutMs), b, timeoutMs)
  }

  lemma {:induction false} RunAppend(s: MonitorState, a: seq<Event>, b: seq<Event>, timeoutMs: int)
    ensures Run(s, a + b, timeoutMs) == RunConcat(s, a, b, timeoutMs)
    decreases |a|
  {
    if a != [] {
      assert (a + b)[1..] == a[1..] + b;
      RunAppend(Step(s, a[0], timeoutMs), a[1..], b, timeoutMs);
    } else {
      assert a + b == b;
    }
  }

  predicate IsTickOrActivity(e: Event) { e.Tick? || e.Activity? }

  /** The time of the latest activity event in `events`, or `initial` when there is none. */
  function LatestActivity(initial: int, events: seq<Event>): int
    decreases |events|
  {
    if events == [] then initial
    else LatestActivity(if events[0].Activity? then events[0].at else initial, events[1..])
  }

  /**
   * Only activity events move `lastActivity`: while the monitor stays armed,
   * it always equals the time of the latest activity event (ticks and probes
   * never touch it). Hence a tick logs out exactly when that latest activity
   * is `timeoutMs` or more in the past.
   */
  lemma {:induction false} LastActivityIsLatestActivity(s: MonitorState, events: seq<Event>, timeoutMs: int)
    requires s.armed
    requires forall i :: 0 <= i < |events| ==> IsTickOrActivity(events[i])
    ensures Run(s, events, timeoutMs).armed
    ensures Run(s, events, timeoutMs).lastActivity == LatestActivity(s.lastActivity, events)
    decreases |events|
  {
    if events != [] {
      var s' := Step(s, events[0], timeoutMs);
      assert s'.armed;
      assert s'.lastActivity == (if events[0].Activity? then events[0].at else s.lastActivity);
      forall i | 0 <= i < |events[1..]| ensures IsTickOrActivity(events[1..][i]) {
        assert events[1..][i] == events[i + 1];
      }
      LastActivityIsLatestActivity(s', events[1..], timeoutMs);
    }
  }

  predicate NoArm(events: seq<Event>) {
    forall i :: 0 <= i < |events| ==> !events[i].Arm?
  }

  /**
   * After teardown, and until the effect runs again, nothing fires: no
   * probe, no logout, and neither timestamp moves.
   */
  lemma {:induction false} NothingFiresAfterTeardown(s: MonitorState, events: seq<Event>, timeoutMs: int)
    requires NoArm(events)
    ensures Run(Step(s, Teardown, timeoutMs), events, timeoutMs) == s.(armed := false)
    decreases |events|
  {
    if events != [] {
      assert NoArm(events[1..]) by {
        forall i | 0 <= i < |events[1..]| ensures !events[1..][i].Arm? {
          assert events[1..][i] == events[i + 1];
        }
      }
      assert Step(s.(armed := false), events[0], timeoutMs) == s.(armed := false);
      NothingFiresAfterTeardown(s, events[1..], timeoutMs);
    }
  }

  /**
   * Once the user is gone and the effect has re-run without one (or been
   * torn down), no further idle logout happens until a user is back: an
   * effect run without a user installs nothing.
   */
  lemma {:induction false} AtMostOneLogoutWithoutLogin(s: MonitorState, events: seq<Event>, timeoutMs: int)
    requires !s.userPresent && !s.armed
    ensures Run(s, events, timeoutMs).logouts == s.logouts
    ensures !Run(s, events, timeoutMs).userPresent && !Run(s, events, timeoutMs).armed
    decreases |events|
  {
    if events != [] {
      var s' := Step(s, events[0], timeoutMs);
      assert !s'.userPresent && !s'.armed && s'.logouts == s.logouts;
      AtMostOneLogoutWithoutLogin(s', events[1..], timeoutMs);
    }
  }

  /**
   * An idle logout followed by the re-render it causes (cleanup, then the
   * effect with no user) logs out exactly once, whatever happens afterwards.
   */
  lemma LogoutThenRerenderLogsOutOnce(s: MonitorState, now: int, later: int, events: seq<Event>, timeoutMs: int)
    requires s.armed && Decide(now, s.lastActivity, s.lastHeartbeat, timeoutMs) == IdleLogout
    ensures Run(s, [Tick(now), Teardown, Arm(later)] + events, timeoutMs).logouts == s.logouts + 1
  {
    var s1 := Step(s, Tick(now), timeoutMs);
    assert s1 == s.(userPresent := false, logouts := s.logouts + 1);
    var s2 := Step(s1, Teardown, timeoutMs);
    var t := Step(s2, Arm(later), timeoutMs);
    assert !t.userPresent && !t.armed && t.logouts == s.logouts + 1;
    assert [Tick(now), Teardown, Arm(later)][1..] == [Teardown, Arm(later)];
    assert [Teardown, Arm(later)][1..] == [Arm(later)];
    assert Run(s, [Tick(now), Teardown, Arm(later)], timeoutMs) == Run(s1, [Teardown, Arm(later)], timeoutMs);
    assert Run(s1, [Teardown, Arm(later)], timeoutMs) == Run(s2, [Arm(later)], timeoutMs);
    assert Run(s2, [Arm(later)], timeoutMs) == t;
    RunAppend(s, [Tick(now), Teardown, Arm(later)], events, timeoutMs);
    AtMostOneLogoutWithoutLogin(t, events, timeoutMs);
  }

  /**
   * The guard alone does not stop a second logout: a tick that comes before
   * the cleanup logs out again, since the captured user is still truthy.
   */
  lemma SecondTickBeforeCleanupLogsOutAgain(s: MonitorState, now: int, next: int, timeoutMs: int)
    requires s.armed && Decide(now, s.lastActivity, s.lastHeartbeat, timeoutMs) == IdleLogout && next >= now
    ensures Run(s, [Tick(now), Tick(next)], timeoutMs).logouts == s.logouts + 2
    ensures !Run(s, [Tick(now), Tick(next)], timeoutMs).userPresent
  {
    var s1 := Step(s, Tick(now), timeoutMs);
    assert s1 == s.(userPresent := false, logouts := s.logouts + 1);
    assert Decide(next, s1.lastActivity, s1.lastHeartbeat, timeoutMs) == IdleLogout;
    assert [Tick(now), Tick(next)][1..] == [Tick(next)];
    assert Run(s, [Tick(now), Tick(next)], timeoutMs) == Run(s1, [Tick(next)], timeoutMs);
    assert Run(s1, [Tick(next)], timeoutMs) == Step(s1, Tick(next), timeoutMs);
  }

  /** `n` ticks of the interval, the first at `first`, then every 5 s. */
  function PeriodicTicks(first: int, n: nat): (ticks: seq<Event>)
    ensures |ticks| == n
    ensures forall k :: 0 <= k < n ==> ticks[k] == Tick(first + TICK_PERIOD * k)
  {
    seq(n, k => Tick(first + TICK_PERIOD * k))
  }

  /**
   * Ticks that all come before the idle deadline keep the session: the user
   * stays, no logout happens and `lastActivity` stays where it was.
   */
  lemma {:induction false} TicksBeforeDeadlineKeepSession(s: MonitorState, events: seq<Event>, timeoutMs: int)
    requires forall i :: 0 <= i < |events| ==> events[i].Tick? && events[i].at - s.lastActivity < timeoutMs
    ensures var t := Run(s, events, timeoutMs);
      t.userPresent == s.userPresent && t.logouts == s.logouts &&
      t.lastActivity == s.lastActivity && t.armed == s.armed
    decreases |events|
  {
    if events != [] {
      var s' := Step(s, events[0], timeoutMs);
      assert s'.lastActivity == s.lastActivity && s'.userPresent == s.userPresent;
      assert s'.logouts == s.logouts && s'.armed == s.armed;
      forall i | 0 <= i < |events[1..]|
        ensures events[1..][i].Tick? && events[1..][i].at - s'.lastActivity < timeoutMs
      {
        assert events[1..][i] == events[i + 1];
      }
      TicksBeforeDeadlineKeepSession(s', events[1..], timeoutMs);
    }
  }

  /**
   * The fifteen-minute scenario: a user logged in at t=0, a pointer event at
   * t=5000 and no further activity. The 180 ticks from t=5000 to t=900000
   * keep the session, and the tick at t=905000, the first at least 900000 ms
   * after the last activity, performs exactly one idle logout.
   */
  lemma IdleScenario(s0: MonitorState)
    requires s0.userPresent && !s0.armed && s0.logouts == 0
    ensures var s1 := Run(s0, [Arm(0), Activity(5000)], SESSION_IDLE_TIMEOUT);
      var s2 := Run(s1, PeriodicTicks(5000, 180), SESSION_IDLE_TIMEOUT);
      var s3 := Step(s2, Tick(905000), SESSION_IDLE_TIMEOUT);
      && s1.lastActivity == 5000
      && s2.userPresent && s2.logouts == 0
      && !s3.userPresent && s3.logouts == 1
  {
    var s1 := Run(s0, [Arm(0), Activity(5000)], SESSION_IDLE_TIMEOUT);
    assert s1 == s0.(lastActivity := 5000, lastHeartbeat := 0, armed := true);
    TicksBeforeDeadlineKeepSession(s1, PeriodicTicks(5000, 180), SESSION_IDLE_TIMEOUT);
  }

  /**
   * Heartbeat independence: with the interval ticking every 5 s and no
   * activity, a session that is not idle is never left more than 15 s
   * without a probe, whatever the initial heartbeat lag up to 20 s.
   */
  lemma {:induction false} HeartbeatNeverLags(s: MonitorState, first: int, n: nat, timeoutMs: int)
    requires s.armed && first - s.lastHeartbeat <= HEARTBEAT_INTERVAL + TICK_PERIOD
    requires first + TICK_PERIOD * n - s.lastActivity < timeoutMs + TICK_PERIOD
    ensures var t := Run(s, PeriodicTicks(first, n), timeoutMs);
      n > 0 ==> first + TICK_PERIOD * (n - 1) - t.lastHeartbeat <= HEARTBEAT_INTERVAL
    decreases n
  {
    if n > 0 {
      var ticks := PeriodicTicks(first, n);
      var s' := Step(s, Tick(first), timeoutMs);
      assert first - s.lastActivity < timeoutMs;
      assert first - s'.lastHeartbeat <= HEARTBEAT_INTERVAL;
      assert s'.armed && s'.lastActivity == s.lastActivity;
      assert ticks[1..] == PeriodicTicks(first + TICK_PERIOD, n - 1);
      HeartbeatNeverLags(s', first + TICK_PERIOD, n - 1, timeoutMs);
    }
  }

  /** A single non-idle tick with a heartbeat older than 15 s probes, without any activity. */
  lemma QuietTickProbes(s: MonitorState, now: int, timeoutMs: int)
    requires s.armed && now - s.lastActivity < timeoutMs && now - s.lastHeartbeat > HEARTBEAT_INTERVAL
    ensures Step(s, Tick(now), timeoutMs).probes == s.probes + 1
    ensures Step(s, Tick(now), timeoutMs).lastHeartbeat == now
    ensures Step(s, Tick(now), timeoutMs).lastActivity == s.lastActivity
  {
  }

  // ---------------------------------------------------------------- the hook instance

  /** Browser effects of an idle logout. */
  datatype Effect =
    | SessionExpiredNavigation(from: string)   // toast, then navigate('/login') with from and the message

  /**
   * One mounted instance of the hook: its refs, the installed listeners and
   * interval, the auth store it reads and clears, and the probes and
   * navigations it has issued.
   */
  class Monitor {
    const auth: AuthStore.Store
    const timeoutMs: int
    var lastActivity: int
    var lastHeartbeat: int
    var intervalArmed: bool
    var listeners: seq<string>
    /** The `user` of the render whose effect ran last, which its `handleLogout` tests. */
    var renderUser: Option<AuthStore.User>
    var probesIssued: nat
    var effects: seq<Effect>

    /**
     * The listeners and the interval are installed and removed together, and
     * only by an effect whose render had a user.
     */
    ghost predicate Valid()
      reads this
    {
      && ((intervalArmed && listeners == ACTIVITY_EVENTS) || (!intervalArmed && listeners == []))
      && (intervalArmed ==> renderUser.Some?)
    }

    function State(): MonitorState
      reads this, auth
    {
      MonitorState(lastActivity, lastHeartbeat, intervalArmed, auth.user.Some?, probesIssued, |effects|)
    }

    /** The refs start at the mount time; nothing is installed until the effect runs. */
    constructor (store: AuthStore.Store, now: int, timeout: int)
      ensures auth == store && timeoutMs == timeout
      ensures lastActivity == now && lastHeartbeat == now
      ensures Valid() && !intervalArmed && probesIssued == 0 && effects == []
      ensures renderUser == store.user
    {
      auth, timeoutMs := store, timeout;
      renderUser := store.user;
      lastActivity, lastHeartbeat := now, now;
      intervalArmed, listeners := false, [];
      probesIssued, effects := 0, [];
    }

    /**
     * The effect body. React runs the previous run's cleanup first, so
     * nothing is installed on entry. With no user the interval is cleared and
     * nothing is installed; with a user both timestamps are reset to `now`
     * and the six listeners and the interval are installed.
     */
    method ArmEffect(now: int)
      requires Valid() && !intervalArmed
      modifies this
      ensures Valid() && State() == Step(old(State()), Arm(now), timeoutMs)
      ensures auth.user.None? ==> listeners == [] && !intervalArmed
      ensures auth.user.Some? ==> listeners == ACTIVITY_EVENTS && intervalArmed
      ensures renderUser == auth.user && effects == old(effects)
    {
      renderUser := auth.user;
      if auth.user.None? {
        intervalArmed := false;
        return;
      }
      lastActivity := now;
      lastHeartbeat := now;
      listeners := ACTIVITY_EVENTS;
      intervalArmed := true;
    }

    /** The cleanup: all six listeners removed and the interval cleared. */
    method TeardownEffect()
      requires Valid()
      modifies this
      ensures Valid() && listeners == [] && !intervalArmed
      ensures State() == Step(old(State()), Teardown, timeoutMs)
      ensures effects == old(effects) && renderUser == old(renderUser)
    {
      listeners := [];
      intervalArmed := false;
    }

    /** `verifySessionStatus`: the heartbeat moves to `now` before the (ignored) call. */
    method VerifySessionStatus(now: int)
      modifies this
      ensures lastHeartbeat == now && probesIssued == old(probesIssued) + 1
      ensures lastActivity == old(lastActivity) && intervalArmed == old(intervalArmed)
      ensures listeners == old(listeners) && effects == old(effects) && renderUser == old(renderUser)
    {
      lastHeartbeat := now;
      probesIssued := probesIssued + 1;
    }

    /**
     * `handleLogout`: if the render's user is truthy, logs out and navigates
     * to /login with `from` = `path`, whatever the store holds by now.
     */
    method HandleLogout(path: string)
      modifies auth, this
      ensures old(renderUser).Some? ==>
        && auth.user == None && !auth.isAuthenticated
        && auth.storage == old(auth.storage) - {AuthStore.USER_KEY}
        && effects == old(effects) + [SessionExpiredNavigation(path)]
      ensures old(renderUser).None? ==> unchanged(auth) && effects == old(effects)
      ensures lastActivity == old(lastActivity) && lastHeartbeat == old(lastHeartbeat)
      ensures intervalArmed == old(intervalArmed) && listeners == old(listeners)
      ensures probesIssued == old(probesIssued) && renderUser == old(renderUser)
    {
      if renderUser.Some? {
        auth.Logout();
        effects := effects + [SessionExpiredNavigation(path)];
      }
    }

    /** `checkIdle`, fired by the interval; `path` is the current location. */
    method OnTick(now: int, path: string)
      requires Valid()
      modifies this, auth
      ensures Valid() && State() == Step(old(State()), Tick(now), timeoutMs)
      ensures old(intervalArmed) && Decide(now, old(lastActivity), old(lastHeartbeat), timeoutMs) == IdleLogout ==>
        && auth.user == None && !auth.isAuthenticated
        && auth.storage == old(auth.storage) - {AuthStore.USER_KEY}
        && effects == old(effects) + [SessionExpiredNavigation(path)]
      ensures !(old(intervalArmed) && Decide(now, old(lastActivity), old(lastHeartbeat), timeoutMs) == IdleLogout) ==>
        unchanged(auth) && effects == old(effects)
      ensures renderUser == old(renderUser)
    {
      if !intervalArmed {
        return;
      }
      var decision := Decide(now, lastActivity, lastHeartbeat, timeoutMs);
      match decision
      case IdleLogout =>
        HandleLogout(path);
      case Probe =>
        VerifySessionStatus(now);
      case NoAction =>
    }

    /** `activityHandler`, fired by any of the six listeners. */
    method OnActivity(now: int)
      requires Valid()
      modifies this
      ensures Valid() && State() == Step(old(State()), Activity(now), timeoutMs)
      ensures effects == old(effects) && renderUser == old(renderUser)
    {
      if listeners == [] {
        return;
      }
      var probe := ActivityProbes(now, lastHeartbeat);
      lastActivity := now;
      if probe {
        VerifySessionStatus(now);
      }
    }
  }
}
