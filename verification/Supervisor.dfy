/**
 The supervisor of the sing-box child: start, startup monitoring, crash detection by SIGCHLD and by
 polling, paced restarts, health timer, reload and stop. Kernel and reactor outcomes are parameters;
 `trace` records what the supervisor did, and the theorems are statements about traces.
 */
module Supervisor {
  import opened Options
  import opened RetryPolicy

  datatype State = Stopped | Starting | Running | Failed | Stopping

  /** One observable act. Children are numbered in the order in which they were forked. */
  datatype Act =
    | Spawned(child: nat, breakerOpen: bool)
    | Reaped(child: nat)
    | SeenDead(child: nat)
    | Killed(child: nat)                  // SIGKILL sent
    | Attempt                             // a retry reached service_spawn
    | EpisodeEnd                          // start, entry to RUNNING, stop
    | Scheduled(delay: nat)
    | BackoffReset

  // What a trace says.

  /** Children that were spawned and not yet reaped, seen dead or sent SIGKILL. */
  ghost function Outstanding(tr: seq<Act>): (r: set<nat>)
  {
    if |tr| == 0 then {}
    else
      var before := Outstanding(tr[..|tr| - 1]);
      match tr[|tr| - 1]
      case Spawned(c, _) => before + {c}
      case Reaped(c) => before - {c}
      case SeenDead(c) => before - {c}
      case Killed(c) => before - {c}
      case _ => before
  }

  /** Retry attempts in the current failure episode. */
  ghost function Attempts(tr: seq<Act>): (n: nat)
  {
    if |tr| == 0 then 0
    else
      match tr[|tr| - 1]
      case Attempt => Attempts(tr[..|tr| - 1]) + 1
      case EpisodeEnd => 0
      case _ => Attempts(tr[..|tr| - 1])
  }

  /** Retries scheduled since the last backoff reset. */
  ghost function Retries(tr: seq<Act>): (n: nat)
  {
    if |tr| == 0 then 0
    else
      match tr[|tr| - 1]
      case Scheduled(_) => Retries(tr[..|tr| - 1]) + 1
      case BackoffReset => 0
      case _ => Retries(tr[..|tr| - 1])
  }

  /** May `a` happen after `tr`? No spawn beside a live child or an open breaker; delays as promised. */
  ghost predicate Proper(tr: seq<Act>, a: Act)
  {
    && (a.Spawned? ==> Outstanding(tr) == {} && !a.breakerOpen)
    && (a.Scheduled? ==> a.delay == Delay(Retries(tr)))
  }

  ghost predicate Sound(tr: seq<Act>)
  {
    |tr| > 0 ==> Sound(tr[..|tr| - 1]) && Proper(tr[..|tr| - 1], tr[|tr| - 1])
  }

  ghost predicate Disposes(a: Act, child: nat)
  {
    (a.Reaped? || a.SeenDead? || a.Killed?) && a.child == child
  }

  lemma {:induction false} StaysOutstanding(tr: seq<Act>, i: nat)
    requires i < |tr| && tr[i].Spawned?
    requires forall k :: i < k < |tr| ==> !Disposes(tr[k], tr[i].child)
    ensures tr[i].child in Outstanding(tr)
    decreases |tr|
  {
    if i < |tr| - 1 {
      StaysOutstanding(tr[..|tr| - 1], i);
    }
  }

  lemma {:induction false} SoundAt(tr: seq<Act>, j: nat)
    requires Sound(tr) && j < |tr|
    ensures Proper(tr[..j], tr[j])
    decreases |tr|
  {
    if j < |tr| - 1 {
      SoundAt(tr[..|tr| - 1], j);
      assert tr[..|tr| - 1][..j] == tr[..j];
    }
  }

  /**
   No child is spawned while an earlier one is neither reaped, nor seen dead, nor sent SIGKILL: between
   any two spawns of a sound trace lies an act that disposes of the earlier child.
   */
  lemma SpawnsAreSeparated(tr: seq<Act>, i: nat, j: nat)
    requires Sound(tr) && i < j < |tr| && tr[i].Spawned? && tr[j].Spawned?
    ensures !tr[j].breakerOpen
    ensures exists k :: i < k < j && Disposes(tr[k], tr[i].child)
  {
    SoundAt(tr, j);
    if forall k :: i < k < j ==> !Disposes(tr[k], tr[i].child) {
      StaysOutstanding(tr[..j], i);
    }
  }

  /** The delays of a sound trace follow the exponential schedule. */
  lemma DelaysFollowSchedule(tr: seq<Act>, j: nat)
    requires Sound(tr) && j < |tr| && tr[j].Scheduled?
    ensures tr[j].delay == Delay(Retries(tr[..j]))
  {
    SoundAt(tr, j);
  }

  // The supervisor.

  datatype Kind = MonitorTimer | RecheckTimer | RetryTimer | HealthTimer

  /** `reactor_add_timer(timeout, period)`; a period of 0 fires once. */
  datatype TimerInfo = TimerInfo(kind: Kind, timeout: nat, period: nat)

  /** `waitpid(child, WNOHANG)` after EINTR retries. */
  datatype Wait = StillRunning | Exited | NoSuchChild

  /** What the process table and `waitpid` say about the child. */
  datatype Look = Look(alive: bool, wait: Wait)

  /** How far `service_spawn` gets. */
  datatype Fork = NotForked | NoStartTime(ticks: nat) | NoPidFile | Forked(ticks: nat)

  /** Everything the kernel, the clock and the allocator answer during one callback. */
  datatype Env = Env(
    now: int, nowMs: nat, memory: bool, fork: Fork, binary: bool, wait: Wait,
    first: Look, second: Look, third: Look, looksLikeUs: bool, apiAnswers: bool, snapshotFresh: bool)

  /** The timer handles kept in the context. */
  datatype Handles = Handles(monitor: Option<nat>, retry: Option<nat>, health: Option<nat>)

  /** `service_ctx_t` without paths and credentials. */
  datatype Context = Context(
    state: State, child: Option<nat>, ticks: nat, validated: bool, healthy: bool,
    failCount: nat, maxFailures: nat, startTimeoutMs: nat, startMs: nat, healthInterval: nat,
    attached: bool,                        // reactor != NULL
    handles: Handles,
    backoff: Backoff, breaker: Breaker)

  /** The reactor's live timers and the kernel's process numbers. */
  datatype System = System(timers: map<nat, TimerInfo>, nextTimer: nat, nextChild: nat)

  /** What happened so far. */
  datatype Past = Past(
    trace: seq<Act>, calls: seq<Call>,
    time: int,                             // latest clock reading given to the breaker
    highest: nat,                          // largest maxFailures so far
    raises: nat)                           // changes of maxFailures in this episode

  /** Every handle names a live timer; at most one monitor, retry and health timer exist. */
  ghost predicate TimersOwned(h: Handles, timers: map<nat, TimerInfo>, next: nat)
  {
    && (h.monitor.Some? ==> h.monitor.value in timers && timers[h.monitor.value].kind == MonitorTimer)
    && (h.retry.Some? ==> h.retry.value in timers && timers[h.retry.value].kind == RetryTimer)
    && (h.health.Some? ==> h.health.value in timers && timers[h.health.value].kind == HealthTimer)
    && (forall id :: id in timers ==> id < next && OwnedBy(h, id, timers[id].kind))
  }

  ghost predicate OwnedBy(h: Handles, id: nat, kind: Kind)
  {
    match kind
    case MonitorTimer => h.monitor == Some(id)
    case RetryTimer => h.retry == Some(id)
    case HealthTimer => h.health == Some(id)
    case RecheckTimer => true
  }

  /** Handles after the one of this kind is cleared or set. */
  function SetHandle(h: Handles, kind: Kind, id: Option<nat>): (r: Handles)
  {
    match kind
    case MonitorTimer => h.(monitor := id)
    case RetryTimer => h.(retry := id)
    case HealthTimer => h.(health := id)
    case RecheckTimer => h
  }

  function HandleOf(h: Handles, kind: Kind): (id: Option<nat>)
  {
    match kind
    case MonitorTimer => h.monitor
    case RetryTimer => h.retry
    case HealthTimer => h.health
    case RecheckTimer => None
  }

  lemma OwnedAfterCancel(h: Handles, timers: map<nat, TimerInfo>, next: nat, kind: Kind)
    requires TimersOwned(h, timers, next) && HandleOf(h, kind).Some?
    ensures HandleOf(h, kind).value in timers
    ensures TimersOwned(SetHandle(h, kind, None), timers - {HandleOf(h, kind).value}, next)
  {
  }

  lemma OwnedAfterAdd(h: Handles, timers: map<nat, TimerInfo>, next: nat, t: TimerInfo)
    requires TimersOwned(h, timers, next) && HandleOf(h, t.kind).None?
    ensures TimersOwned(SetHandle(h, t.kind, Some(next)), timers[next := t], next + 1)
  {
  }

  /**
   In RUNNING the health timer has the configured period; in STOPPED there is nothing to retry or probe;
   without a reactor there are no timers.
   */
  ghost predicate TimersFit(c: Context, sys: System)
  {
    && (c.state == Running && c.attached ==>
          && c.handles.health.Some? && c.handles.health.value < sys.nextTimer && c.handles.health.value in sys.timers
          && sys.timers[c.handles.health.value] == TimerInfo(HealthTimer, c.healthInterval, c.healthInterval))
    && (c.state == Stopped ==> c.handles.retry.None? && c.handles.health.None?)
    && (!c.attached ==> c.handles.monitor.None? && c.handles.retry.None? && c.handles.health.None?)
  }

  ghost predicate ChildrenAccounted(c: Context, nextChild: nat, alive: set<nat>)
  {
    && alive <= (if c.child.Some? then {c.child.value} else {})
    && (c.child.Some? ==> c.child.value < nextChild)
    && (c.handles.retry.Some? || c.state == Stopped ==> alive == {})
    && (c.state == Stopped ==> c.child.None?)
  }

  ghost predicate RetriesBounded(c: Context, highest: nat, raises: nat, attempts: nat)
  {
    && 0 < c.maxFailures <= highest
    && c.failCount <= highest + 1
    && (c.handles.retry.Some? || c.state in {Starting, Running} ==> c.failCount <= highest)
    && (c.handles.retry.Some? && c.state in {Starting, Running} ==> c.failCount < highest)
    && attempts <= highest + 1 + raises
    && attempts <= c.failCount + 1 + raises
    && (c.handles.retry.Some? || (c.attached && c.state == Failed && c.failCount < c.maxFailures) ==>
          attempts <= c.failCount + raises)
  }

  ghost predicate BreakerTrue(b: Breaker, calls: seq<Call>, time: int)
  {
    && b == After(b.threshold, b.cooldown, calls) && b.threshold > 0 && Monotone(calls)
    && (forall i :: 0 <= i < |calls| && !calls[i].Success? ==> calls[i].at <= time)
  }

  ghost predicate BackoffTrue(b: Backoff, retries: nat)
  {
    b == INITIAL_BACKOFF.(current := Delay(retries))
  }

  /** The child looks alive and has not been waited for. */
  predicate StillStarting(c: Context, look: Look)
  {
    c.child.Some? && c.ticks != 0 && look.alive && look.wait == StillRunning
  }

  /** The child is still in the process table, but a wait finds it gone. */
  predicate JustExited(c: Context, look: Look)
  {
    c.child.Some? && c.ticks != 0 && look.alive && look.wait != StillRunning
  }

  function Forgotten(c: Context): (r: Context)
  {
    c.(child := None, ticks := 0, validated := false)
  }

  /** No timer has appeared under an old number. */
  ghost predicate OnlyNew(before: System, after: System)
  {
    && before.nextTimer <= after.nextTimer
    && forall id :: id in after.timers ==> id in before.timers || id >= before.nextTimer
  }

  lemma NoTimerReturns(before: System, after: System, id: nat)
    requires OnlyNew(before, after) && id !in before.timers && id < before.nextTimer
    ensures id !in after.timers
  {
  }

  lemma OnlyNewSelf(sys: System)
    ensures OnlyNew(sys, sys)
  {
  }

  lemma SameTimers(before: System, after: System)
    requires after.timers == before.timers && after.nextTimer == before.nextTimer
    ensures OnlyNew(before, after)
  {
  }

  lemma OnlyNewTrans(a: System, b: System, c: System)
    requires OnlyNew(a, b) && OnlyNew(b, c)
    ensures OnlyNew(a, c)
  {
  }

  lemma RetryIsOld(h: Handles, timers: map<nat, TimerInfo>, next: nat)
    requires TimersOwned(h, timers, next)
    ensures h.retry.Some? ==> h.retry.value in timers && h.retry.value < next
  {
  }

  /** With every handle cleared only one-shot readiness checks can be left. */
  lemma OnlyRechecks(timers: map<nat, TimerInfo>, next: nat)
    requires TimersOwned(Handles(None, None, None), timers, next)
    ensures forall id :: id in timers ==> timers[id].kind == RecheckTimer
  {
  }

  /** The trace and the bookkeeping that does not depend on the state. */
  ghost predicate Faithful(c: Context, sys: System, past: Past)
  {
    && Sound(past.trace) && TimersOwned(c.handles, sys.timers, sys.nextTimer) && TimersFit(c, sys)
    && ChildrenAccounted(c, sys.nextChild, Outstanding(past.trace))
    && BreakerTrue(c.breaker, past.calls, past.time) && BackoffTrue(c.backoff, Retries(past.trace))
  }

  /** The retry budget was not raised. */
  ghost predicate SameBudget(c: Context, past: Past, c': Context, past': Past)
  {
    c'.maxFailures == c.maxFailures && past'.highest == past.highest && past'.raises <= past.raises
  }

  lemma BreakerTold(b: Breaker, calls: seq<Call>, time: int, c: Call)
    requires BreakerTrue(b, calls, time) && (!c.Success? ==> c.at >= time)
    ensures BreakerTrue(Apply(b, c), calls + [c], if c.Success? then time else c.at)
  {
    var more := calls + [c];
    assert more[..|more| - 1] == calls;
  }

  lemma OwnedAfterReplace(h: Handles, timers: map<nat, TimerInfo>, next: nat, t: TimerInfo)
    requires TimersOwned(h, timers, next) && h.health.Some? && t.kind == HealthTimer
    ensures h.health.value in timers && h.health.value < next
    ensures TimersOwned(h.(health := Some(next)), timers[next := t] - {h.health.value}, next + 1)
  {
  }

  /** A one-shot timer without a handle goes away after it fired. */
  lemma OwnedAfterRecheck(h: Handles, timers: map<nat, TimerInfo>, next: nat, id: nat)
    requires TimersOwned(h, timers, next) && (id in timers ==> timers[id].kind == RecheckTimer)
    ensures TimersOwned(h, timers - {id}, next)
  {
  }

  // What an operation does to the service.

  /** The context, the reactor's timers and the record. */
  datatype View = View(ctx: Context, sys: System, past: Past)

  /** The record only grows. */
  ghost predicate Grew(before: Past, after: Past)
  {
    before.trace <= after.trace && before.calls <= after.calls
  }

  /** Nothing but the state, the counters and the retry timer differs. */
  ghost predicate OnlyRetrying(c: Context, c': Context)
  {
    c' == c.(state := c'.state, failCount := c'.failCount, backoff := c'.backoff, breaker := c'.breaker,
             handles := c.handles.(retry := c'.handles.retry))
  }

  /** A new one-shot timer will retry after the delay that comes next in the schedule. */
  ghost predicate RetryPending(a: View, b: View)
  {
    && b.ctx.handles.retry == Some(a.sys.nextTimer) && a.sys.nextTimer in b.sys.timers
    && b.sys.timers[a.sys.nextTimer] == TimerInfo(RetryTimer, Delay(Retries(a.past.trace)), 0)
  }

  /** A retry is pending and the state is `onto`; or there is no timer for it and the service has failed. */
  ghost predicate RetryAsked(a: View, memory: bool, onto: State, b: View)
  {
    if a.ctx.attached && memory then RetryPending(a, b) && b.ctx.state == onto
    else b.ctx.handles.retry.None? && b.ctx.state == Failed
  }

  /** One more failure, told to the breaker; within the budget a retry, otherwise the service has failed. */
  ghost predicate Counted(a: View, env: Env, onto: State, b: View)
  {
    && b.ctx.failCount == a.ctx.failCount + 1 && b.ctx.breaker == a.ctx.breaker.RecordFailure(env.now)
    && if a.ctx.failCount + 1 < a.ctx.maxFailures then RetryAsked(a, env.memory, onto, b)
       else b.ctx.state == Failed && b.ctx.handles.retry == a.ctx.handles.retry
  }

  /** The start succeeds exactly when the breaker allows it, the binary exists and the fork goes through. */
  ghost predicate Started(a: View, now: int, nowMs: nat, binary: bool, how: Fork, b: View)
  {
    var breaker := a.ctx.breaker.Check(now);
    && b.sys == a.sys.(nextChild := b.sys.nextChild)
    && if breaker.open then b.ctx == a.ctx.(breaker := breaker) && b.past.trace == a.past.trace
       else if binary && how.Forked? then
         && b.ctx == a.ctx.(state := Starting, child := Some(a.sys.nextChild), ticks := how.ticks, validated := true,
                            startMs := nowMs, failCount := 0, backoff := a.ctx.backoff.Reset(), breaker := breaker)
         && b.past.trace == a.past.trace + [EpisodeEnd, Spawned(a.sys.nextChild, false), BackoffReset]
       else
         && b.ctx.state == Failed && b.ctx.child.None? && b.ctx.failCount == a.ctx.failCount
         && b.ctx.handles == a.ctx.handles
         && b.ctx.breaker == if binary then breaker.RecordFailure(now) else breaker
  }

  /**
   A retry whose turn has come: an open breaker puts it off, a fork that goes through starts a new child, and
   one that does not counts as a failure.
   */
  ghost predicate Tried(a: View, env: Env, b: View)
  {
    var breaker := a.ctx.breaker.Check(env.now);
    if breaker.open then
      && RetryAsked(a, env.memory, a.ctx.state, b) && OnlyRetrying(a.ctx, b.ctx)
      && b.ctx.failCount == a.ctx.failCount && b.ctx.breaker == breaker
      && b.past.trace == a.past.trace + [Scheduled(Delay(Retries(a.past.trace)))]
    else if env.fork.Forked? then
      && b.ctx == a.ctx.(state := Starting, child := Some(a.sys.nextChild), ticks := env.fork.ticks,
                         validated := true, startMs := env.nowMs, breaker := breaker)
      && b.past.trace == a.past.trace + [Attempt, Spawned(a.sys.nextChild, false)]
      && (a.ctx.attached && env.memory ==>
            a.sys.nextTimer in b.sys.timers && b.sys.timers[a.sys.nextTimer] == TimerInfo(RecheckTimer, 100, 0))
    else
      && Counted(a.(ctx := a.ctx.(breaker := breaker)), env, a.ctx.state, b)
      && (b.ctx.child.None? || b.ctx.child == a.ctx.child)
      && a.past.trace + [Attempt] <= b.past.trace
  }

  /** The retry timer: nothing in STOPPED, otherwise the retry it stood for. */
  ghost predicate Retried(a: View, env: Env, b: View)
  {
    if a.ctx.state == Stopped then b == a
    else Tried(a.(ctx := a.ctx.(handles := a.ctx.handles.(retry := None))), env, b)
  }

  /** Counting depends on the counters, the breaker and the numbers to come. */
  lemma CountedFrom(a: View, a': View, env: Env, onto: State, b: View)
    requires Counted(a', env, onto, b) && a'.sys.nextTimer == a.sys.nextTimer
    requires Retries(a'.past.trace) == Retries(a.past.trace)
    requires a'.ctx.failCount == a.ctx.failCount && a'.ctx.maxFailures == a.ctx.maxFailures
    requires a'.ctx.breaker == a.ctx.breaker && a'.ctx.attached == a.ctx.attached
    requires a'.ctx.handles.retry == a.ctx.handles.retry
    ensures Counted(a, env, onto, b)
  {
    hide Delay, Retries;
  }

  /** Which timers were live before does not matter to an attempt. */
  lemma TriedWhateverTimers(a: View, timers: map<nat, TimerInfo>, env: Env, b: View)
    requires Tried(a.(sys := a.sys.(timers := timers)), env, b)
    ensures Tried(a, env, b)
  {
  }

  lemma MonitoredWhateverTimers(a: View, timers: map<nat, TimerInfo>, env: Env, b: View)
    requires Monitored(a.(sys := a.sys.(timers := timers)), env, b)
    ensures Monitored(a, env, b)
  {
  }

  /** SIGCHLD: a child that exited is forgotten, and within the budget a crash leaves a retry pending. */
  ghost predicate Signalled(a: View, env: Env, b: View)
  {
    if a.ctx.child.None? || env.wait != Exited then b == a
    else
      var c := Forgotten(a.ctx).(healthy := false);
      var crashed := c.state in {Starting, Running};
      var again := crashed && c.attached && c.failCount < c.maxFailures;
      && OnlyRetrying(c, b.ctx)
      && b.ctx.state == (if crashed then Failed else c.state)
      && b.ctx.breaker == (if crashed then c.breaker.RecordFailure(env.now) else c.breaker)
      && b.ctx.failCount == (if again then c.failCount + 1 else c.failCount)
      && (if again then RetryAsked(a, env.memory, Failed, b) else b.ctx.handles == c.handles && b.sys == a.sys)
      && b.past.trace == a.past.trace + [Reaped(a.ctx.child.value)]
                         + if again then [Scheduled(Delay(Retries(a.past.trace)))] else []
  }

  predicate TimedOut(c: Context, nowMs: nat)
  {
    c.startMs > 0 && nowMs - c.startMs >= c.startTimeoutMs
  }

  /** The child was validated, and the API answered between two looks that found it running. */
  predicate Ready(c: Context, env: Env)
  {
    && (c.validated || env.looksLikeUs)
    && StillStarting(c, env.second) && env.apiAnswers && StillStarting(c, env.third)
  }

  /** One of the looks around the probe found the child gone. */
  predicate ExitedAtProbe(c: Context, env: Env)
  {
    JustExited(c, env.second) || (StillStarting(c, env.second) && env.apiAnswers && JustExited(c, env.third))
  }

  /** RUNNING with fresh counters and a health timer; FAILED when there is no memory for the timer. */
  ghost predicate Entered(a: View, env: Env, b: View)
  {
    && b.ctx == a.ctx.(state := if a.ctx.attached && !env.memory then Failed else Running,
                       validated := true, healthy := true, failCount := 0, backoff := a.ctx.backoff.Reset(),
                       breaker := a.ctx.breaker.RecordSuccess(),
                       handles := a.ctx.handles.(health := if a.ctx.attached && env.memory then Some(a.sys.nextTimer)
                                                           else None))
    && b.past.trace == a.past.trace + [EpisodeEnd, BackoffReset]
  }

  /** A look at a starting child that is alive and in time. */
  ghost predicate Probed(a: View, env: Env, b: View)
  {
    if !a.ctx.validated && !env.looksLikeUs then
      && a.ctx.child.Some? && b.ctx == a.ctx.(child := None)
      && b.past.trace == a.past.trace + [Killed(a.ctx.child.value), Reaped(a.ctx.child.value)]
    else if Ready(a.ctx, env) then Entered(a, env, b)
    else b.ctx == if ExitedAtProbe(a.ctx, env) then Forgotten(a.ctx) else a.ctx.(validated := true)
  }

  /** STARTING fails only after the start timeout or when the child is gone. */
  ghost predicate StartupChecked(a: View, env: Env, b: View)
  {
    if TimedOut(a.ctx, env.nowMs) then
      && Counted(a, env, Failed, b) && OnlyRetrying(a.ctx, b.ctx)
      && (a.ctx.child.Some? ==> a.past.trace + [Killed(a.ctx.child.value)] <= b.past.trace)
    else if StillStarting(a.ctx, env.first) then Probed(a, env, b)
    else
      && Counted(a, env, Starting, b)
      && OnlyRetrying(if JustExited(a.ctx, env.first) then Forgotten(a.ctx) else a.ctx, b.ctx)
  }

  /** One call of the monitor. */
  ghost predicate Monitored(a: View, env: Env, b: View)
  {
    match a.ctx.state
    case Starting => StartupChecked(a, env, b)
    case Running =>
      if a.ctx.child.Some? && a.ctx.ticks != 0 && env.first.alive then b.ctx == a.ctx && b.past == a.past
      else Counted(a, env, Failed, b) && OnlyRetrying(a.ctx, b.ctx)
    case Failed =>
      if a.ctx.attached && a.ctx.child.None? && a.ctx.failCount < a.ctx.maxFailures && a.ctx.handles.retry.None? then
        && RetryAsked(a, env.memory, Failed, b) && OnlyRetrying(a.ctx, b.ctx)
        && b.ctx.failCount == a.ctx.failCount && b.ctx.breaker == a.ctx.breaker
      else b.ctx == a.ctx && b.past == a.past
    case _ => b.ctx == a.ctx && b.past == a.past
  }

  /** One health check: only the health flag and the breaker can change. */
  ghost predicate Checked(a: View, env: Env, b: View)
  {
    var alive := a.ctx.child.Some? && a.ctx.ticks != 0 && env.first.alive;
    && b.sys == a.sys
    && b.ctx == if a.ctx.state != Running then a.ctx
                else if !alive then a.ctx.(healthy := false)
                else if env.snapshotFresh then a.ctx.(healthy := true, breaker := a.ctx.breaker.RecordSuccess())
                else a.ctx.(healthy := false, breaker := a.ctx.breaker.RecordFailure(env.now))
  }

  /** The callback of a live timer. */
  ghost predicate Fired(a: View, id: nat, env: Env, b: View)
    requires id in a.sys.timers
  {
    match a.sys.timers[id].kind
    case MonitorTimer => Monitored(a, env, b)
    case RecheckTimer => Monitored(a, env, b) && id !in b.sys.timers
    case RetryTimer => Retried(a, env, b) && id !in b.sys.timers
    case HealthTimer => Checked(a, env, b)
  }

  /** A reload takes the new settings over, or leaves everything as it was when a new health timer is refused. */
  ghost predicate Reloaded(a: View, maxFailures: nat, startTimeoutMs: nat, healthInterval: nat, memory: bool, b: View)
  {
    var renew := healthInterval != a.ctx.healthInterval && a.ctx.attached && a.ctx.state == Running;
    if renew && !memory then b == a
    else
      && b.ctx == a.ctx.(maxFailures := maxFailures, startTimeoutMs := startTimeoutMs,
                         healthInterval := healthInterval,
                         handles := if renew then a.ctx.handles.(health := Some(a.sys.nextTimer)) else a.ctx.handles)
      && b.past.trace == a.past.trace && (!renew ==> b.sys == a.sys)
  }

  /** STOPPED without child, reactor and timers; the failure count is kept. */
  ghost predicate Halted(a: View, b: View)
  {
    b.ctx == Forgotten(a.ctx).(state := Stopped, healthy := false, attached := false,
                               handles := Handles(None, None, None))
  }

  /** A child that is found gone in time is only reaped; otherwise it is killed first. */
  ghost function StopActs(child: Option<nat>, waits: seq<Wait>): (acts: seq<Act>)
  {
    if child.None? then []
    else if exists i :: 0 <= i < |waits| && waits[i] != StillRunning then [Reaped(child.value)]
    else [Killed(child.value), Reaped(child.value)]
  }

  /** The monitor timer looks after 100 ms and then every second. */
  ghost predicate Attached(a: View, memory: bool, b: View)
  {
    && b.past == a.past
    && b.ctx == a.ctx.(attached := true,
                       handles := a.ctx.handles.(monitor := if memory then Some(a.sys.nextTimer) else None))
    && (memory ==> a.sys.nextTimer in b.sys.timers
                   && b.sys.timers[a.sys.nextTimer] == TimerInfo(MonitorTimer, 100, 1000))
  }

  /** What can happen to the daemon's supervisor. */
  datatype Event =
    | Fires(id: nat, env: Env)             // a reactor timer
    | ChildSignal(env: Env)
    | Reload(maxFailures: nat, startTimeoutMs: nat, healthInterval: nat, memory: bool)
    | StartRequest(env: Env)
    | StopRequest(waits: seq<Wait>)
    | Attach(memory: bool)

  /** The effect of one event; an event that does not apply has none. */
  ghost predicate Delivered(a: View, e: Event, b: View)
  {
    match e
    case Fires(id, env) => if id in a.sys.timers then Fired(a, id, env, b) else b == a
    case ChildSignal(env) => Signalled(a, env, b)
    case Reload(max, timeout, interval, memory) =>
      if max > 0 && interval > 0 then Reloaded(a, max, timeout, interval, memory, b) else b == a
    case StartRequest(env) =>
      if a.ctx.state != Stopped then b == a
      else Started(a, env.now, env.nowMs, env.binary, env.fork, b)
    case StopRequest(_) => Halted(a, b)
    case Attach(memory) => if a.ctx.state == Stopped || a.ctx.attached then Attached(a, memory, b) else b == a
  }

  /**
   A crash of a running child within the budget is repaired: the signal leaves a retry pending, the retry starts
   the next child, and once that child is ready the service runs again with a clean failure count.
   */
  lemma CrashIsRepaired(path: seq<View>, crash: Env, retry: Env, ready: Env)
    requires |path| == 4 && path[0].ctx.state == Running && path[0].ctx.attached && path[0].ctx.child.Some?
    requires path[0].ctx.failCount < path[0].ctx.maxFailures && crash.wait == Exited && crash.memory
    requires Delivered(path[0], ChildSignal(crash), path[1])
    requires !path[0].ctx.breaker.RecordFailure(crash.now).Check(retry.now).open
    requires retry.fork.Forked? && retry.fork.ticks != 0 && retry.memory
    requires Delivered(path[1], Fires(path[0].sys.nextTimer, retry), path[2])
    requires Delivered(path[2], Fires(path[1].sys.nextTimer, ready), path[3]) && ready.memory && ready.apiAnswers
    requires ready.nowMs - retry.nowMs < path[0].ctx.startTimeoutMs
    requires ready.first == ready.second == ready.third == Look(true, StillRunning)
    ensures path[1].ctx.state == Failed && path[2].ctx.state == Starting && path[3].ctx.state == Running
    ensures path[2].ctx.child == path[3].ctx.child == Some(path[1].sys.nextChild)
    ensures path[3].ctx.failCount == 0 && !path[3].ctx.breaker.open
    ensures path[3].past.trace
         == path[0].past.trace + [Reaped(path[0].ctx.child.value), Scheduled(Delay(Retries(path[0].past.trace)))]
            + [Attempt, Spawned(path[1].sys.nextChild, false)] + [EpisodeEnd, BackoffReset]
  {
    hide Delay, Retries;
    assert RetryPending(path[0], path[1]);
    assert Tried(path[1].(ctx := path[1].ctx.(handles := path[1].ctx.handles.(retry := None))), retry, path[2]);
    assert path[2].sys.timers[path[1].sys.nextTimer].kind == RecheckTimer;
    assert Probed(path[2], ready, path[3]);
  }

  /** Every event had its effect, one after the other, and the record only grew. */
  ghost predicate Follows(path: seq<View>, events: seq<Event>)
  {
    && |path| == |events| + 1
    && forall i :: 0 <= i < |events| ==>
         Delivered(path[i], events[i], path[i + 1]) && Grew(path[i].past, path[i + 1].past)
  }

  lemma FollowsNothing(a: View, events: seq<Event>)
    ensures Follows([a], events[..0])
  {
  }

  lemma FollowsMore(path: seq<View>, events: seq<Event>, n: nat, b: View)
    requires n < |events| && Follows(path, events[..n])
    requires Delivered(path[n], events[n], b) && Grew(path[n].past, b.past)
    ensures Follows(path + [b], events[..n + 1])
  {
  }

  function ClockOf(e: Event): (t: Option<int>)
  {
    if e.Fires? || e.ChildSignal? || e.StartRequest? then Some(e.env.now) else None
  }

  ghost predicate ClockForward(events: seq<Event>, start: int)
  {
    && (forall i :: 0 <= i < |events| && ClockOf(events[i]).Some? ==> ClockOf(events[i]).value >= start)
    && (forall i, j :: 0 <= i < j < |events| && ClockOf(events[i]).Some? && ClockOf(events[j]).Some? ==>
          ClockOf(events[i]).value <= ClockOf(events[j]).value)
  }

  /** No reload of the run changes the number of failures that are tolerated. */
  ghost predicate FixedBudget(events: seq<Event>, maxFailures: nat)
  {
    forall i :: 0 <= i < |events| && events[i].Reload? ==> events[i].maxFailures in {0, maxFailures}
  }

  class Service {
    var ctx: Context
    var sys: System
    ghost var past: Past

    ghost predicate Valid()
      reads this
    {
      && Faithful(ctx, sys, past)
      && RetriesBounded(ctx, past.highest, past.raises, Attempts(past.trace))
    }

    ghost function Seen(): (v: View)
      reads this
    {
      View(ctx, sys, past)
    }

    /** `service_init` with a configuration whose defaults are filled in. */
    constructor (maxFailures: nat, startTimeoutMs: nat, healthInterval: nat, threshold: nat, cooldown: nat)
      requires maxFailures > 0 && threshold > 0 && healthInterval > 0
      ensures Valid() && ctx.state == Stopped && !ctx.attached && past.trace == []
      ensures ctx.maxFailures == maxFailures && ctx.healthInterval == healthInterval
      ensures ctx.breaker == Fresh(threshold, cooldown)
      ensures past.highest == maxFailures && past.raises == 0 && past.time == 0
    {
      ctx := Context(Stopped, None, 0, false, false, 0, maxFailures, startTimeoutMs, 0, healthInterval,
                     false, Handles(None, None, None), INITIAL_BACKOFF, Fresh(threshold, cooldown));
      sys := System(map[], 0, 0);
      past := Past([], [], 0, maxFailures, 0);
    }

    /** Appends to the trace; what the trace says changes by this one act. */
    ghost method Note(a: Act)
      requires Sound(past.trace) && Proper(past.trace, a)
      modifies this`past
      ensures past == old(past).(trace := old(past).trace + [a]) && Sound(past.trace)
      ensures Outstanding(past.trace)
           == if a.Spawned? then Outstanding(old(past).trace) + {a.child}
              else if a.Reaped? || a.SeenDead? || a.Killed? then Outstanding(old(past).trace) - {a.child}
              else Outstanding(old(past).trace)
      ensures Attempts(past.trace) == if a.Attempt? then Attempts(old(past).trace) + 1
                                      else if a.EpisodeEnd? then 0 else Attempts(old(past).trace)
      ensures Retries(past.trace) == if a.Scheduled? then Retries(old(past).trace) + 1
                                     else if a.BackoffReset? then 0 else Retries(old(past).trace)
    {
      past := past.(trace := past.trace + [a]);
      assert past.trace[..|past.trace| - 1] == old(past).trace;
    }

    /** `circuit_breaker_record_failure`, `..._record_success` and `..._should_allow`. */
    method TellBreaker(c: Call)
      requires BreakerTrue(ctx.breaker, past.calls, past.time) && (!c.Success? ==> c.at >= past.time)
      modifies this`ctx, this`past
      ensures ctx == old(ctx).(breaker := Apply(old(ctx).breaker, c))
      ensures past == old(past).(calls := old(past).calls + [c], time := if c.Success? then old(past).time else c.at)
      ensures BreakerTrue(ctx.breaker, past.calls, past.time)
    {
      BreakerTold(ctx.breaker, past.calls, past.time, c);
      ctx := ctx.(breaker := Apply(ctx.breaker, c));
      past := past.(calls := past.calls + [c], time := if c.Success? then past.time else c.at);
    }

    // Timers.

    /** `reactor_add_timer`; fails without a reactor or without memory. */
    method AddTimer(t: TimerInfo, memory: bool) returns (id: Option<nat>)
      modifies this`sys
      ensures id == if ctx.attached && memory then Some(old(sys).nextTimer) else None
      ensures sys == if id.None? then old(sys)
                     else old(sys).(timers := old(sys).timers[id.value := t], nextTimer := id.value + 1)
    {
      if !ctx.attached || !memory { return None; }
      id := Some(sys.nextTimer);
      sys := sys.(timers := sys.timers[sys.nextTimer := t], nextTimer := sys.nextTimer + 1);
    }

    /** `reactor_cancel_timer` on a handle that must be live. */
    method CancelTimer(id: nat)
      requires id in sys.timers
      modifies this`sys
      ensures sys == old(sys).(timers := old(sys).timers - {id})
    {
      sys := sys.(timers := sys.timers - {id});
    }

    /** The pattern `if (handle) { cancel; handle = NULL; }`. */
    method DropTimer(kind: Kind)
      requires TimersOwned(ctx.handles, sys.timers, sys.nextTimer)
      modifies this`ctx, this`sys
      ensures ctx == old(ctx).(handles := SetHandle(old(ctx).handles, kind, None))
      ensures sys == old(sys).(timers := sys.timers) && sys.timers.Keys <= old(sys).timers.Keys
      ensures forall id :: id in old(sys).timers && old(sys).timers[id].kind != kind ==>
                id in sys.timers && sys.timers[id] == old(sys).timers[id]
      ensures OnlyNew(old(sys), sys)
      ensures HandleOf(old(ctx).handles, kind).Some? ==> HandleOf(old(ctx).handles, kind).value !in sys.timers
      ensures TimersOwned(ctx.handles, sys.timers, sys.nextTimer)
    {
      var id := HandleOf(ctx.handles, kind);
      if id.Some? {
        OwnedAfterCancel(ctx.handles, sys.timers, sys.nextTimer, kind);
        CancelTimer(id.value);
        ctx := ctx.(handles := SetHandle(ctx.handles, kind, None));
      }
    }

    /** The pattern `handle = reactor_add_timer(...)` on a cleared handle. */
    method KeepTimer(t: TimerInfo, memory: bool)
      requires TimersOwned(ctx.handles, sys.timers, sys.nextTimer) && HandleOf(ctx.handles, t.kind).None?
      modifies this`ctx, this`sys
      ensures var id := if ctx.attached && memory then Some(old(sys).nextTimer) else None;
              ctx == old(ctx).(handles := SetHandle(old(ctx).handles, t.kind, id))
              && sys == if id.None? then old(sys)
                        else old(sys).(timers := old(sys).timers[id.value := t], nextTimer := id.value + 1)
      ensures TimersOwned(ctx.handles, sys.timers, sys.nextTimer) && OnlyNew(old(sys), sys)
    {
      OwnedAfterAdd(ctx.handles, sys.timers, sys.nextTimer, t);
      var id := AddTimer(t, memory);
      ctx := ctx.(handles := SetHandle(ctx.handles, t.kind, id));
    }

    /** Nothing stands in the way of a retry: the last child is disposed of and the budget is not used up. */
    ghost predicate MayRetry()
      reads this
    {
      && Faithful(ctx, sys, past) && Outstanding(past.trace) == {}
      && ctx.state != Stopped && (ctx.state in {Starting, Running} ==> ctx.failCount < past.highest)
      && 0 < ctx.maxFailures <= past.highest && ctx.failCount <= past.highest
      && Attempts(past.trace) <= ctx.failCount + past.raises
    }

    /** `service_schedule_retry`. */
    method ScheduleRetry(memory: bool)
      requires MayRetry()
      modifies this
      ensures Valid() && Outstanding(past.trace) == {}
      ensures ctx.handles.retry == if ctx.attached && memory then Some(old(sys).nextTimer) else None
      ensures ctx == old(ctx).(backoff := ctx.backoff, handles := old(ctx).handles.(retry := ctx.handles.retry),
                               state := if ctx.handles.retry.Some? then old(ctx).state else Failed)
      ensures past == old(past).(trace := old(past).trace + [Scheduled(Delay(Retries(old(past).trace)))])
      ensures RetryAsked(old(Seen()), memory, old(ctx).state, Seen()) && OnlyRetrying(old(ctx), ctx)
      ensures OnlyNew(old(sys), sys)
    {
      hide Outstanding, Attempts, Retries, Sound, BreakerTrue, Delay, TimersOwned, OnlyNew;
      ghost var sys0 := sys;
      NextDelay(Retries(past.trace));
      var delay := ctx.backoff.current;
      ctx := ctx.(backoff := ctx.backoff.Next());
      Note(Scheduled(delay));
      DropTimer(RetryTimer);
      ghost var sys1 := sys;
      KeepTimer(TimerInfo(RetryTimer, delay, 0), memory);
      OnlyNewTrans(sys0, sys1, sys);
      if ctx.handles.retry.None? { ctx := ctx.(state := Failed); }
    }

    // Spawning.

    /** `service_spawn`. */
    method Spawn(how: Fork, nowMs: nat) returns (ok: bool)
      requires Sound(past.trace) && ChildrenAccounted(ctx, sys.nextChild, Outstanding(past.trace))
      requires Outstanding(past.trace) == {} && !ctx.breaker.open && ctx.state != Stopped && ctx.handles.retry.None?
      modifies this
      ensures Sound(past.trace) && ChildrenAccounted(ctx, sys.nextChild, Outstanding(past.trace))
      ensures ok <==> how.Forked?
      ensures ctx == old(ctx).(child := ctx.child, ticks := ctx.ticks, validated := ctx.validated,
                               startMs := ctx.startMs)
      ensures sys == old(sys).(nextChild := sys.nextChild) && past == old(past).(trace := past.trace)
      ensures ok ==> ctx.child == Some(old(sys).nextChild) && ctx.validated
      ensures ok ==> ctx.startMs == nowMs && ctx.ticks == how.ticks
      ensures ok ==> past.trace == old(past).trace + [Spawned(old(sys).nextChild, false)]
      ensures !ok ==> Outstanding(past.trace) == {} && (ctx.child.None? || (how.NotForked? && ctx == old(ctx)))
      ensures how.NotForked? ==> ctx == old(ctx) && sys == old(sys) && past == old(past)
      ensures how.NoStartTime? || how.NoPidFile? ==>
                var pid := old(sys).nextChild;
                past.trace == old(past).trace + [Spawned(pid, false)] + [Killed(pid)] + [Reaped(pid)]
      ensures Attempts(past.trace) == Attempts(old(past).trace) && Retries(past.trace) == Retries(old(past).trace)
    {
      hide Outstanding, Attempts, Retries, Sound;
      if how.NotForked? { return false; }
      var pid := sys.nextChild;
      sys := sys.(nextChild := pid + 1);
      Note(Spawned(pid, ctx.breaker.open));
      ctx := ctx.(child := Some(pid));
      if how.NoStartTime? {
        Note(Killed(pid));
        Note(Reaped(pid));
        ctx := ctx.(ticks := how.ticks, child := None);
        return false;
      }
      ctx := ctx.(ticks := if how.Forked? then how.ticks else 1, validated := true, startMs := nowMs);
      if how.NoPidFile? {
        Note(Killed(pid));
        Note(Reaped(pid));
        ctx := ctx.(child := None, ticks := 0, validated := false);
        return false;
      }
      ok := true;
    }

    /** `service_start_async`, issued from STOPPED. */
    method Start(now: int, nowMs: nat, binary: bool, how: Fork) returns (ok: bool)
      requires Valid() && ctx.state == Stopped && now >= past.time
      modifies this
      ensures past.time == now
      ensures SameBudget(old(ctx), old(past), ctx, past)
      ensures Valid()
      ensures ok <==> !old(ctx).breaker.Check(now).open && binary && how.Forked?
      ensures Started(old(Seen()), now, nowMs, binary, how, Seen()) && Grew(old(past), past)
      ensures !ok ==> ctx.state in {Stopped, Failed} && Outstanding(past.trace) == {}
    {
      hide Outstanding, Attempts, Retries, Sound, BreakerTrue, TimersOwned, Delay;
      TellBreaker(Asked(now));
      if ctx.breaker.open { return false; }
      Note(EpisodeEnd);
      past := past.(raises := 0);
      ctx := ctx.(state := Failed);
      if !binary { return false; }
      ok := Launch(now, nowMs, how);
    }

    /** The first spawn of an episode. */
    method Launch(now: int, nowMs: nat, how: Fork) returns (ok: bool)
      requires Valid() && ctx.state == Failed && ctx.child.None? && ctx.handles.retry.None? && !ctx.breaker.open
      requires Attempts(past.trace) == 0 && past.raises == 0 && past.time == now
      modifies this
      ensures past.time == now && SameBudget(old(ctx), old(past), ctx, past) && Valid() && (ok <==> how.Forked?)
      ensures sys == old(sys).(nextChild := sys.nextChild) && Grew(old(past), past)
      ensures ok ==>
                && ctx == old(ctx).(state := Starting, child := Some(old(sys).nextChild), ticks := how.ticks,
                                    validated := true, startMs := nowMs, failCount := 0,
                                    backoff := old(ctx).backoff.Reset())
                && past.trace == old(past).trace + [Spawned(old(sys).nextChild, false), BackoffReset]
      ensures !ok ==>
                && ctx.state == Failed && ctx.child.None? && ctx.failCount == old(ctx).failCount
                && ctx.handles == old(ctx).handles && ctx.breaker == old(ctx).breaker.RecordFailure(now)
                && Outstanding(past.trace) == {}
    {
      hide Outstanding, Attempts, Retries, Sound, BreakerTrue, TimersOwned, Delay;
      ok := Spawn(how, nowMs);
      if ok {
        ctx := ctx.(state := Starting, startMs := nowMs, failCount := 0, backoff := ctx.backoff.Reset());
        NextDelay(0);
        Note(BackoffReset);
      } else {
        TellBreaker(Failure(now));
      }
    }

    /** `service_delayed_spawn_cb`, run by the retry timer. */
    method DelayedSpawn(env: Env)
      requires Valid() && env.now >= past.time && (ctx.state != Stopped ==> ctx.handles.retry.Some?)
      modifies this
      ensures past.time in {old(past).time, env.now}
      ensures SameBudget(old(ctx), old(past), ctx, past)
      ensures Valid()
      ensures Retried(old(Seen()), env, Seen()) && Grew(old(past), past)
      ensures ctx.handles.retry.Some? ==> ctx.handles.retry.value >= old(sys.nextTimer)
      ensures old(ctx).handles.retry.Some? ==> old(ctx).handles.retry.value !in sys.timers
    {
      RetryIsOld(ctx.handles, sys.timers, sys.nextTimer);
      hide Outstanding, Attempts, Retries, Sound, BreakerTrue, Delay, TimersOwned, OnlyNew, Tried;
      if ctx.state == Stopped { return; }
      ghost var before, retry := Seen(), ctx.handles.retry.value;
      DropTimer(RetryTimer);
      ghost var sys1 := sys;
      Retry(env);
      TriedWhateverTimers(before.(ctx := before.ctx.(handles := before.ctx.handles.(retry := None))), sys1.timers,
                          env, Seen());
      NoTimerReturns(sys1, sys, retry);
    }

    /** The rest of the callback, once its own timer is gone. */
    method Retry(env: Env)
      requires MayRetry() && ctx.handles.retry.None? && env.now >= past.time
      modifies this
      ensures past.time in {old(past).time, env.now}
      ensures SameBudget(old(ctx), old(past), ctx, past)
      ensures Valid()
      ensures Tried(old(Seen()), env, Seen()) && Grew(old(past), past)
      ensures ctx.handles.retry.Some? ==> ctx.handles.retry.value == old(sys).nextTimer
      ensures OnlyNew(old(sys), sys)
    {
      hide Outstanding, Attempts, Retries, Sound, BreakerTrue, Delay, TimersOwned, OnlyNew;
      TellBreaker(Asked(env.now));
      if ctx.breaker.open {
        ScheduleRetry(env.memory);
      } else {
        RetrySpawn(env);
      }
    }

    /** The attempt itself, with the breaker closed. */
    method RetrySpawn(env: Env)
      requires MayRetry() && ctx.handles.retry.None? && !ctx.breaker.open && env.now >= past.time
      modifies this
      ensures past.time in {old(past).time, env.now}
      ensures SameBudget(old(ctx), old(past), ctx, past)
      ensures Valid()
      ensures ctx.handles.retry.Some? ==> ctx.handles.retry.value == old(sys).nextTimer
      ensures env.fork.Forked? ==>
                && ctx == old(ctx).(state := Starting, child := Some(old(sys).nextChild), ticks := env.fork.ticks,
                                    validated := true, startMs := env.nowMs)
                && past == old(past).(trace := old(past).trace + [Attempt, Spawned(old(sys).nextChild, false)])
                && (ctx.attached && env.memory ==>
                      old(sys).nextTimer in sys.timers
                      && sys.timers[old(sys).nextTimer] == TimerInfo(RecheckTimer, 100, 0))
      ensures !env.fork.Forked? ==>
                && Counted(old(Seen()), env, old(ctx).state, Seen())
                && (ctx.child.None? || ctx.child == old(ctx).child)
                && old(past).trace + [Attempt] <= past.trace
      ensures OnlyNew(old(sys), sys) && Grew(old(past), past)
    {
      hide Outstanding, Attempts, Retries, Sound, BreakerTrue, Delay, TimersOwned, OnlyNew, Counted;
      ghost var before, sys0 := Seen(), sys;
      OnlyNewSelf(sys);
      Note(Attempt);
      var ok := Spawn(env.fork, env.nowMs);
      ghost var sys1 := sys;
      SameTimers(sys0, sys1);
      if ok {
        ctx := ctx.(state := Starting);
        KeepTimer(TimerInfo(RecheckTimer, 100, 0), env.memory);
        OnlyNewTrans(sys0, sys1, sys);
      } else {
        ghost var failed := Seen();
        AttemptFailed(env);
        CountedFrom(before, failed, env, before.ctx.state, Seen());
        OnlyNewTrans(sys0, sys1, sys);
      }
    }

    /** A retry that spawned nothing. */
    method AttemptFailed(env: Env)
      requires Faithful(ctx, sys, past) && Outstanding(past.trace) == {} && ctx.handles.retry.None?
      requires ctx.state != Stopped && (ctx.state in {Starting, Running} ==> ctx.failCount < past.highest)
      requires 0 < ctx.maxFailures <= past.highest && ctx.failCount <= past.highest
      requires Attempts(past.trace) <= ctx.failCount + 1 + past.raises && env.now >= past.time
      modifies this
      ensures past.time == env.now && SameBudget(old(ctx), old(past), ctx, past) && Valid()
      ensures Counted(old(Seen()), env, old(ctx).state, Seen()) && OnlyRetrying(old(ctx), ctx)
      ensures Outstanding(past.trace) == {}
      ensures ctx.handles.retry.Some? ==> ctx.handles.retry.value == old(sys).nextTimer
      ensures OnlyNew(old(sys), sys) && Grew(old(past), past)
    {
      hide Outstanding, Attempts, Retries, Sound, BreakerTrue, Delay, TimersOwned, OnlyNew;
      OnlyNewSelf(sys);
      ctx := ctx.(failCount := ctx.failCount + 1);
      TellBreaker(Failure(env.now));
      if ctx.failCount >= ctx.maxFailures {
        ctx := ctx.(state := Failed);
      } else {
        ScheduleRetry(env.memory);
      }
    }

    /** `service_sigchld_cb`. */
    method SigChld(env: Env)
      requires Valid() && env.now >= past.time
      modifies this
      ensures past.time in {old(past).time, env.now}
      ensures SameBudget(old(ctx), old(past), ctx, past)
      ensures Valid()
      ensures old(ctx).child.Some? && env.wait == Exited ==> ctx.child.None? && Outstanding(past.trace) == {}
      ensures Signalled(old(Seen()), env, Seen()) && Grew(old(past), past)
    {
      hide Outstanding, Attempts, Retries, Sound, BreakerTrue, Delay, TimersOwned;
      if ctx.child.None? || env.wait != Exited { return; }
      Note(Reaped(ctx.child.value));
      ctx := ctx.(child := None, ticks := 0, validated := false, healthy := false);
      if ctx.state in {Running, Starting} {
        ctx := ctx.(state := Failed);
        TellBreaker(Failure(env.now));
        if ctx.attached && ctx.failCount < ctx.maxFailures {
          ctx := ctx.(failCount := ctx.failCount + 1);
          ScheduleRetry(env.memory);
        }
      }
    }

    /** `service_is_alive`. A child that does not look alive counts as observed dead. */
    method LooksAlive(look: Look) returns (alive: bool)
      requires Sound(past.trace) && ChildrenAccounted(ctx, sys.nextChild, Outstanding(past.trace))
      modifies this`past
      ensures Sound(past.trace) && ChildrenAccounted(ctx, sys.nextChild, Outstanding(past.trace))
      ensures alive <==> ctx.child.Some? && ctx.ticks != 0 && look.alive
      ensures alive ==> past == old(past)
      ensures past == old(past).(trace := past.trace) && old(past).trace <= past.trace
      ensures !alive ==> Outstanding(past.trace) == {}
      ensures Attempts(past.trace) == Attempts(old(past).trace) && Retries(past.trace) == Retries(old(past).trace)
    {
      hide Outstanding, Attempts, Retries, Sound;
      alive := ctx.child.Some? && ctx.ticks != 0 && look.alive;
      if !alive && ctx.child.Some? { Note(SeenDead(ctx.child.value)); }
    }

    /** `service_starting_child_alive`: also reaps a child that has just exited. */
    method StartingChildAlive(look: Look) returns (alive: bool)
      requires Sound(past.trace) && ChildrenAccounted(ctx, sys.nextChild, Outstanding(past.trace))
      modifies this`past, this`ctx
      ensures Sound(past.trace) && ChildrenAccounted(ctx, sys.nextChild, Outstanding(past.trace))
      ensures alive <==> StillStarting(old(ctx), look)
      ensures alive ==> ctx == old(ctx) && past == old(past)
      ensures !alive ==> Outstanding(past.trace) == {}
      ensures ctx == if JustExited(old(ctx), look) then Forgotten(old(ctx)) else old(ctx)
      ensures JustExited(old(ctx), look) ==> past.trace == old(past).trace + [Reaped(old(ctx).child.value)]
      ensures past == old(past).(trace := past.trace) && old(past).trace <= past.trace
      ensures Attempts(past.trace) == Attempts(old(past).trace) && Retries(past.trace) == Retries(old(past).trace)
    {
      hide Outstanding, Attempts, Retries, Sound;
      alive := LooksAlive(look);
      if alive && look.wait != StillRunning {
        Note(Reaped(ctx.child.value));
        ctx := Forgotten(ctx);
        alive := false;
      }
    }

    /** What every failure path of the monitor does once the child is disposed of. */
    method CountFailure(env: Env, onto: State)
      requires Faithful(ctx, sys, past) && Outstanding(past.trace) == {} && ctx.state != Stopped && env.now >= past.time
      requires RetriesBounded(ctx, past.highest, past.raises, Attempts(past.trace)) && ctx.state in {Starting, Running}
      requires onto in {Starting, Failed}
      modifies this
      ensures past.time in {old(past).time, env.now}
      ensures SameBudget(old(ctx), old(past), ctx, past)
      ensures Valid()
      ensures Counted(old(Seen()), env, onto, Seen()) && OnlyRetrying(old(ctx), ctx)
      ensures OnlyNew(old(sys), sys) && Grew(old(past), past)
    {
      hide Outstanding, Attempts, Retries, Sound, BreakerTrue, Delay, TimersOwned, OnlyNew;
      OnlyNewSelf(sys);
      ctx := ctx.(state := onto, failCount := ctx.failCount + 1);
      TellBreaker(Failure(env.now));
      if ctx.failCount >= ctx.maxFailures {
        ctx := ctx.(state := Failed);
      } else {
        ScheduleRetry(env.memory);
      }
    }

    /** The entry to RUNNING. */
    method EnterRunning(env: Env)
      requires Valid() && ctx.state == Starting && ctx.validated
      modifies this
      ensures past.time == old(past).time
      ensures SameBudget(old(ctx), old(past), ctx, past)
      ensures Valid()
      ensures Attempts(past.trace) == 0 && Retries(past.trace) == 0
      ensures Entered(old(Seen()), env, Seen())
      ensures OnlyNew(old(sys), sys) && Grew(old(past), past)
    {
      hide Outstanding, Attempts, Retries, Sound, BreakerTrue, Delay, TimersOwned, OnlyNew;
      OnlyNewSelf(sys);
      ctx := ctx.(state := Running, failCount := 0, healthy := true, backoff := ctx.backoff.Reset());
      NextDelay(0);
      Note(EpisodeEnd);
      Note(BackoffReset);
      past := past.(raises := 0);
      TellBreaker(Success);
      if ctx.attached {
        RenewHealthTimer(env.memory);
        if ctx.handles.health.None? { ctx := ctx.(state := Failed); }
      }
    }

    /** One health timer with the configured period, or none when there is no memory for it. */
    method RenewHealthTimer(memory: bool)
      requires TimersOwned(ctx.handles, sys.timers, sys.nextTimer) && ctx.attached
      modifies this`ctx, this`sys
      ensures TimersOwned(ctx.handles, sys.timers, sys.nextTimer) && OnlyNew(old(sys), sys)
      ensures sys == old(sys).(timers := sys.timers, nextTimer := sys.nextTimer)
      ensures var health := if memory then Some(old(sys).nextTimer) else None;
              && ctx == old(ctx).(handles := old(ctx).handles.(health := health))
              && (memory ==> health.value < sys.nextTimer && health.value in sys.timers
                             && sys.timers[health.value]
                                == TimerInfo(HealthTimer, ctx.healthInterval, ctx.healthInterval))
    {
      hide TimersOwned, OnlyNew;
      ghost var sys0 := sys;
      DropTimer(HealthTimer);
      ghost var sys1 := sys;
      KeepTimer(TimerInfo(HealthTimer, ctx.healthInterval, ctx.healthInterval), memory);
      OnlyNewTrans(sys0, sys1, sys);
    }

    /** `service_probe_native_api`: the RPC between two looks at the child. */
    method ApiAnswers(env: Env) returns (ready: bool)
      requires Sound(past.trace) && ChildrenAccounted(ctx, sys.nextChild, Outstanding(past.trace))
      modifies this`past, this`ctx
      ensures Sound(past.trace) && ChildrenAccounted(ctx, sys.nextChild, Outstanding(past.trace))
      ensures ready <==> StillStarting(old(ctx), env.second) && env.apiAnswers && StillStarting(old(ctx), env.third)
      ensures ready ==> ctx == old(ctx) && past == old(past)
      ensures ctx == if ExitedAtProbe(old(ctx), env) then Forgotten(old(ctx)) else old(ctx)
      ensures past == old(past).(trace := past.trace) && Grew(old(past), past)
      ensures Attempts(past.trace) == Attempts(old(past).trace) && Retries(past.trace) == Retries(old(past).trace)
    {
      ready := StartingChildAlive(env.second);
      if !ready || !env.apiAnswers { return false; }
      ready := StartingChildAlive(env.third);
    }

    /** The STARTING case of `service_monitor_cb`. */
    method MonitorStarting(env: Env)
      requires Valid() && ctx.state == Starting && env.now >= past.time
      modifies this
      ensures past.time in {old(past).time, env.now}
      ensures SameBudget(old(ctx), old(past), ctx, past)
      ensures Valid()
      ensures StartupChecked(old(Seen()), env, Seen())
      ensures OnlyNew(old(sys), sys) && Grew(old(past), past)
    {
      hide Outstanding, Attempts, Retries, Sound, BreakerTrue, Delay, TimersOwned, OnlyNew;
      OnlyNewSelf(sys);
      if ctx.startMs > 0 && env.nowMs - ctx.startMs >= ctx.startTimeoutMs {
        StartupTimeout(env);
        return;
      }
      var alive := StartingChildAlive(env.first);
      if alive {
        Probe(env);
      } else {
        CountFailure(env, Starting);
      }
    }

    /** The child is alive and in time: validate it, and enter RUNNING when the API answers. */
    method Probe(env: Env)
      requires Valid() && ctx.state == Starting && ctx.child.Some?
      modifies this
      ensures past.time == old(past).time
      ensures SameBudget(old(ctx), old(past), ctx, past)
      ensures Valid()
      ensures Probed(old(Seen()), env, Seen())
      ensures OnlyNew(old(sys), sys) && Grew(old(past), past)
    {
      hide Outstanding, Attempts, Retries, Sound, BreakerTrue, Delay, TimersOwned, OnlyNew;
      OnlyNewSelf(sys);
      if !ctx.validated {
        if env.looksLikeUs {
          ctx := ctx.(validated := true);
        } else {
          Note(Killed(ctx.child.value));
          Note(Reaped(ctx.child.value));
          ctx := ctx.(child := None);
        }
      }
      if ctx.validated {
        var ready := ApiAnswers(env);
        if ready { EnterRunning(env); }
      }
    }

    method StartupTimeout(env: Env)
      requires Valid() && ctx.state == Starting && env.now >= past.time
      modifies this
      ensures past.time in {old(past).time, env.now}
      ensures SameBudget(old(ctx), old(past), ctx, past)
      ensures Valid() && Outstanding(past.trace) == {}
      ensures Counted(old(Seen()), env, Failed, Seen()) && OnlyRetrying(old(ctx), ctx)
      ensures ctx.child.Some? ==> old(past).trace + [Killed(ctx.child.value)] <= past.trace
      ensures OnlyNew(old(sys), sys) && Grew(old(past), past)
    {
      hide Outstanding, Attempts, Retries, Sound, BreakerTrue, Delay, TimersOwned, OnlyNew;
      OnlyNewSelf(sys);
      if ctx.child.Some? { Note(Killed(ctx.child.value)); }
      ctx := ctx.(state := Failed, failCount := ctx.failCount + 1);
      TellBreaker(Failure(env.now));
      if ctx.attached && ctx.failCount < ctx.maxFailures { ScheduleRetry(env.memory); }
    }

    /** `service_monitor_cb`. */
    method Monitor(env: Env)
      requires Valid() && env.now >= past.time
      modifies this
      ensures past.time in {old(past).time, env.now}
      ensures SameBudget(old(ctx), old(past), ctx, past)
      ensures Valid()
      ensures Monitored(old(Seen()), env, Seen())
      ensures old(ctx).state == Failed && old(ctx).child.None? && old(ctx).failCount < old(ctx).maxFailures ==>
                ctx.attached && env.memory ==> ctx.handles.retry.Some?
      ensures OnlyNew(old(sys), sys) && Grew(old(past), past)
    {
      hide Outstanding, Attempts, Retries, Sound, BreakerTrue, Delay, TimersOwned, OnlyNew;
      OnlyNewSelf(sys);
      match ctx.state {
        case Starting =>
          MonitorStarting(env);
        case Running =>
          var alive := LooksAlive(env.first);
          if !alive { CountFailure(env, Failed); }
        case Failed =>
          if ctx.attached && ctx.child.None? && ctx.failCount < ctx.maxFailures && ctx.handles.retry.None? {
            ScheduleRetry(env.memory);
          }
        case _ =>
      }
    }

    /** `service_health_check_cb`. */
    method HealthCheck(env: Env)
      requires Valid() && env.now >= past.time
      modifies this
      ensures past.time in {old(past).time, env.now}
      ensures SameBudget(old(ctx), old(past), ctx, past)
      ensures Valid() && Checked(old(Seen()), env, Seen()) && Grew(old(past), past)
      ensures old(ctx).state != Running ==> past == old(past)
    {
      hide Outstanding, Attempts, Retries, Sound, BreakerTrue, Delay, TimersOwned;
      if ctx.state != Running { return; }
      var alive := LooksAlive(env.first);
      if !alive {
        ctx := ctx.(healthy := false);
        return;
      }
      ctx := ctx.(healthy := env.snapshotFresh);
      TellBreaker(if env.snapshotFresh then Success else Failure(env.now));
    }

    /** `service_apply_config`: a failed reload leaves everything as it was. */
    method ApplyConfig(maxFailures: nat, startTimeoutMs: nat, healthInterval: nat, memory: bool) returns (ok: bool)
      requires Valid() && maxFailures > 0 && healthInterval > 0
      modifies this
      ensures past.time == old(past).time
      ensures Valid()
      ensures !ok ==> ctx == old(ctx) && sys == old(sys) && past == old(past)
      ensures ok <==> healthInterval == old(ctx).healthInterval || !ctx.attached || ctx.state != Running || memory
      ensures Reloaded(old(Seen()), maxFailures, startTimeoutMs, healthInterval, memory, Seen())
      ensures past.trace == old(past).trace && past.calls == old(past).calls
      ensures maxFailures == old(ctx).maxFailures ==> past == old(past)
    {
      hide Outstanding, Attempts, Retries, Sound, BreakerTrue, Delay, TimersOwned;
      if healthInterval != ctx.healthInterval && ctx.attached && ctx.state == Running {
        var timer := TimerInfo(HealthTimer, healthInterval, healthInterval);
        OwnedAfterReplace(ctx.handles, sys.timers, sys.nextTimer, timer);
        var replacement := AddTimer(timer, memory);
        if replacement.None? { return false; }
        CancelTimer(ctx.handles.health.value);
        ctx := ctx.(handles := ctx.handles.(health := replacement));
      }
      if maxFailures != ctx.maxFailures {
        past := past.(raises := past.raises + 1,
                      highest := if maxFailures > past.highest then maxFailures else past.highest);
      }
      ctx := ctx.(maxFailures := maxFailures, startTimeoutMs := startTimeoutMs, healthInterval := healthInterval);
      ok := true;
    }

    /** `service_set_reactor`, before the service is started or again with the same reactor. */
    method SetReactor(memory: bool) returns (ok: bool)
      requires Valid() && (ctx.state == Stopped || ctx.attached)
      modifies this
      ensures past.time == old(past).time
      ensures SameBudget(old(ctx), old(past), ctx, past)
      ensures Valid() && Attached(old(Seen()), memory, Seen()) && (ok <==> memory)
    {
      hide Outstanding, Attempts, Retries, Sound, BreakerTrue, Delay, TimersOwned;
      ctx := ctx.(attached := true);
      DropTimer(MonitorTimer);
      KeepTimer(TimerInfo(MonitorTimer, 100, 1000), memory);
      ok := ctx.handles.monitor.Some?;
    }

    /** `service_stop_sync`. `waits` is what the polls after SIGTERM find; then comes SIGKILL. */
    method StopSync(waits: seq<Wait>)
      requires Valid()
      modifies this
      ensures past.time == old(past).time
      ensures SameBudget(old(ctx), old(past), ctx, past)
      ensures Valid() && Halted(old(Seen()), Seen()) && Outstanding(past.trace) == {}
      ensures past.trace == old(past).trace + StopActs(old(ctx).child, waits) + [EpisodeEnd]
      ensures forall id :: id in sys.timers ==> sys.timers[id].kind == RecheckTimer
      ensures past.calls == old(past).calls
    {
      hide Outstanding, Attempts, Retries, Sound, BreakerTrue, Delay, TimersOwned;
      ctx := ctx.(state := Stopping);
      if ctx.attached {
        DropTimers();
        ctx := ctx.(attached := false);
      }
      OnlyRechecks(sys.timers, sys.nextTimer);
      if ctx.child.Some? { WaitForChild(ctx.child.value, waits); }
      Note(EpisodeEnd);
      past := past.(raises := 0);
      ctx := ctx.(child := None, ticks := 0, validated := false, healthy := false, state := Stopped);
    }

    method DropTimers()
      requires TimersOwned(ctx.handles, sys.timers, sys.nextTimer)
      modifies this`ctx, this`sys
      ensures ctx == old(ctx).(handles := Handles(None, None, None)) && sys == old(sys).(timers := sys.timers)
      ensures TimersOwned(ctx.handles, sys.timers, sys.nextTimer)
    {
      hide TimersOwned, OnlyNew;
      DropTimer(MonitorTimer);
      DropTimer(RetryTimer);
      DropTimer(HealthTimer);
    }

    method WaitForChild(pid: nat, waits: seq<Wait>)
      requires Sound(past.trace) && Outstanding(past.trace) <= {pid}
      modifies this`past
      ensures Sound(past.trace) && Outstanding(past.trace) == {}
      ensures past == old(past).(trace := old(past).trace + StopActs(Some(pid), waits))
      ensures Attempts(past.trace) == Attempts(old(past).trace) && Retries(past.trace) == Retries(old(past).trace)
    {
      hide Outstanding, Attempts, Retries, Sound;
      for i := 0 to |waits|
        invariant past == old(past) && forall j :: 0 <= j < i ==> waits[j] == StillRunning
      {
        if waits[i] != StillRunning {
          Note(Reaped(pid));
          return;
        }
      }
      Note(Killed(pid));
      Note(Reaped(pid));
    }

    /** The reactor runs the callback of a live timer; a one-shot timer is gone afterwards. */
    method Fire(id: nat, env: Env)
      requires Valid() && id in sys.timers && env.now >= past.time
      modifies this
      ensures past.time in {old(past).time, env.now}
      ensures SameBudget(old(ctx), old(past), ctx, past)
      ensures Valid()
      ensures Fired(old(Seen()), id, env, Seen()) && Grew(old(past), past)
    {
      hide Outstanding, Attempts, Retries, Sound, BreakerTrue, Delay, OnlyNew;
      match sys.timers[id].kind {
        case MonitorTimer => Monitor(env);
        case HealthTimer => HealthCheck(env);
        case RetryTimer => DelayedSpawn(env);
        case RecheckTimer =>
          RunRecheck(id, env);
      }
    }

    method RunRecheck(id: nat, env: Env)
      requires Valid() && id in sys.timers && sys.timers[id].kind == RecheckTimer && env.now >= past.time
      modifies this
      ensures past.time in {old(past).time, env.now}
      ensures SameBudget(old(ctx), old(past), ctx, past)
      ensures Valid() && id !in sys.timers
      ensures Monitored(old(Seen()), env, Seen()) && Grew(old(past), past)
    {
      hide Outstanding, Attempts, Retries, Sound, BreakerTrue, Delay, OnlyNew, Monitored;
      ghost var before := Seen();
      OwnedAfterRecheck(ctx.handles, sys.timers, sys.nextTimer, id);
      sys := sys.(timers := sys.timers - {id});
      ghost var sys1 := sys;
      Monitor(env);
      MonitoredWhateverTimers(before, sys1.timers, env, Seen());
      NoTimerReturns(sys1, sys, id);
    }

    /** Delivers one event; the daemon starts and attaches only a stopped service. */
    method Deliver(e: Event)
      requires Valid() && (ClockOf(e).Some? ==> ClockOf(e).value >= past.time)
      modifies this
      ensures Valid() && (past.time == old(past).time || Some(past.time) == ClockOf(e))
      ensures Delivered(old(Seen()), e, Seen()) && Grew(old(past), past)
      ensures e.Reload? ==> e.maxFailures in {0, old(ctx).maxFailures} ==> SameBudget(old(ctx), old(past), ctx, past)
      ensures !e.Reload? ==> SameBudget(old(ctx), old(past), ctx, past)
    {
      hide Faithful, RetriesBounded;
      match e {
        case Fires(id, env) => if id in sys.timers { Fire(id, env); }
        case ChildSignal(env) => SigChld(env);
        case Reload(max, timeout, interval, memory) =>
          if max > 0 && interval > 0 { var _ := ApplyConfig(max, timeout, interval, memory); }
        case StartRequest(env) =>
          if ctx.state == Stopped { var _ := Start(env.now, env.nowMs, env.binary, env.fork); }
        case StopRequest(waits) => StopSync(waits);
        case Attach(memory) => if ctx.state == Stopped || ctx.attached { var _ := SetReactor(memory); }
      }
    }

    /**
     Any sequence of timer callbacks, signals, reloads, starts and stops under a nondecreasing clock: spawns
     stay separated, delays follow the schedule, the retry budget and the breaker's meaning hold.
     */
    method Run(events: seq<Event>) returns (ghost path: seq<View>)
      requires Valid() && ClockForward(events, past.time)
      modifies this
      ensures Follows(path, events) && path[0] == old(Seen()) && path[|events|] == Seen()
      ensures Valid() && Sound(past.trace)
      ensures ctx.failCount <= past.highest + 1 && Attempts(past.trace) <= past.highest + 1 + past.raises
      ensures ctx.handles.retry.Some? ==> ctx.failCount <= past.highest && Outstanding(past.trace) == {}
      ensures ctx.breaker.open <==>
                Strikes(ctx.breaker.threshold, ctx.breaker.cooldown, past.calls) >= ctx.breaker.threshold
      ensures ctx.state == Running && ctx.attached ==>
                ctx.handles.health.Some? && ctx.handles.health.value in sys.timers
                && sys.timers[ctx.handles.health.value].period == ctx.healthInterval
      ensures old(past).highest == old(ctx).maxFailures && old(past).raises == 0
              && FixedBudget(events, old(ctx).maxFailures) ==>
                && ctx.maxFailures == old(ctx).maxFailures
                && Attempts(past.trace) <= ctx.maxFailures + 1 && ctx.failCount <= ctx.maxFailures + 1
                && (ctx.handles.retry.Some? ==> ctx.failCount <= ctx.maxFailures)
    {
      hide Faithful, RetriesBounded, Delivered, Grew, Follows;
      ghost var c0, p0 := ctx, past;
      path := [Seen()];
      FollowsNothing(Seen(), events);
      for i := 0 to |events|
        invariant Follows(path, events[..i]) && |path| == i + 1 && path[0] == old(Seen()) && path[i] == Seen()
        invariant FixedBudget(events, c0.maxFailures) ==> SameBudget(c0, p0, ctx, past)
        invariant Valid()
        invariant forall j :: i <= j < |events| && ClockOf(events[j]).Some? ==> ClockOf(events[j]).value >= past.time
      {
        Deliver(events[i]);
        FollowsMore(path, events, i, Seen());
        path := path + [Seen()];
      }
      assert events[..|events|] == events;
      Consequences();
    }

    lemma Consequences()
      requires Valid()
      ensures Sound(past.trace)
      ensures ctx.failCount <= past.highest + 1 && Attempts(past.trace) <= past.highest + 1 + past.raises
      ensures ctx.handles.retry.Some? ==> ctx.failCount <= past.highest && Outstanding(past.trace) == {}
      ensures ctx.breaker.open <==>
                Strikes(ctx.breaker.threshold, ctx.breaker.cooldown, past.calls) >= ctx.breaker.threshold
      ensures ctx.state == Running && ctx.attached ==>
                ctx.handles.health.Some? && ctx.handles.health.value in sys.timers
                && sys.timers[ctx.handles.health.value].period == ctx.healthInterval
    {
      OpenIffStruckOut(ctx.breaker.threshold, ctx.breaker.cooldown, past.calls);
    }
  }

  /**
   The life of a service from `service_init` on, under any events that keep max_failures: the trace is sound, at most
   max_failures + 1 retries are attempted in an episode, and nothing is outstanding while a retry is pending.
   */
  method Supervise(
      maxFailures: nat, startTimeoutMs: nat, healthInterval: nat, threshold: nat, cooldown: nat, events: seq<Event>)
      returns (s: Service, ghost path: seq<View>)
    requires maxFailures > 0 && threshold > 0 && healthInterval > 0
    requires ClockForward(events, 0) && FixedBudget(events, maxFailures)
    ensures Follows(path, events) && path[0].ctx.state == Stopped && path[0].past.trace == []
    ensures fresh(s) && path[|events|] == s.Seen()
    ensures s.Valid() && Sound(s.past.trace) && s.ctx.maxFailures == maxFailures
    ensures Attempts(s.past.trace) <= maxFailures + 1 && s.ctx.failCount <= maxFailures + 1
    ensures s.ctx.handles.retry.Some? ==> s.ctx.failCount <= maxFailures && Outstanding(s.past.trace) == {}
  {
    hide Faithful, RetriesBounded, Sound, Attempts, Outstanding, FixedBudget, ClockForward;
    s := new Service(maxFailures, startTimeoutMs, healthInterval, threshold, cooldown);
    path := s.Run(events);
  }
}
