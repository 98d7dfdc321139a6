/**
  The work-timer orchestrator: it drives the work-session entity and the
  interval timer, keeps a window of the last ten click timestamps, derives
  smoothness and rewards from that window on every click, and pushes a
  metrics snapshot to its single subscriber.

  The subscriber callback is represented by an opaque handle; invoking it
  is represented by the snapshot an operation returns in `pushed`.

  The orchestrator registers a closure with the timer that pushes
  `getCurrentMetrics()` to the subscriber, and the timer calls that closure
  from every refresh of its elapsed time, including the refresh that
  `getCurrentMetrics` itself triggers through `getElapsedTimeMs`. With an
  active timer and a subscriber the two call each other without end. Every
  operation therefore takes a `Wiring`: `AsWritten` is that re-entrant
  wiring, whose unbounded recursion ends in a stack overflow, and
  `SingleNotify` is the evidently intended one, where a read refreshes the
  timer silently and each refresh notifies the subscriber once.
 */
module WorkTimer {
  import opened Basics
  import opened Metrics
  import WorkSessions
  import IntervalTimer
  import Smoothness
  import RewardSystem

  /** Capacity of the click-timestamp window. */
  const WindowSize := 10

  /** Appends a click time and drops the oldest entry once the window overflows. */
  function PushClick(window: seq<int>, t: int): (r: seq<int>)
    ensures |r| > 0 && r[|r| - 1] == t
    ensures r[..|r| - 1] == if |window| >= WindowSize then window[1..] else window
    ensures |window| <= WindowSize ==> |r| <= WindowSize
  {
    var pushed := window + [t];
    if |pushed| > WindowSize then pushed[1..] else pushed
  }

  /** The window after recording each time of `history` in turn, from empty. */
  function WindowOf(history: seq<int>): seq<int>
  {
    if |history| == 0 then [] else PushClick(WindowOf(history[..|history| - 1]), history[|history| - 1])
  }

  function Min(a: int, b: int): int {
    if a <= b then a else b
  }

  /** The window always holds exactly the latest (up to) ten click times, oldest first. */
  lemma {:induction false} WindowIsLatestTen(history: seq<int>)
    ensures WindowOf(history) == history[|history| - Min(|history|, WindowSize)..]
  {
    if |history| > 0 {
      var prefix, last := history[..|history| - 1], history[|history| - 1];
      WindowIsLatestTen(prefix);
      var w := WindowOf(prefix);
      var k := |history| - Min(|history|, WindowSize);
      assert history == prefix + [last];
      assert history[k..] == prefix[k..] + [last];
      if |prefix| >= WindowSize {
        assert w == prefix[k - 1..];
        assert WindowOf(history) == (w + [last])[1..] == w[1..] + [last];
        assert w[1..] == prefix[k..];
      } else {
        assert k == 0 && w == prefix;
        assert WindowOf(history) == w + [last];
      }
    }
  }

  /** Differences between consecutive window entries. */
  function Gaps(window: seq<int>): (r: seq<int>)
    ensures |r| == if |window| == 0 then 0 else |window| - 1
    ensures forall i :: 0 <= i < |r| ==> r[i] == window[i + 1] - window[i]
  {
    if |window| == 0 then []
    else
      var later := window[1..];
      seq(|later|, i requires 0 <= i < |later| => later[i] - window[i])
  }

  function Total(s: seq<int>): int
  {
    if |s| == 0 then 0 else Total(s[..|s| - 1]) + s[|s| - 1]
  }

  /** The gaps telescope: together they span the window from its first to its last click. */
  lemma {:induction false} GapsSpanWindow(window: seq<int>)
    requires |window| > 0
    ensures Total(Gaps(window)) == window[|window| - 1] - window[0]
  {
    if |window| > 1 {
      var prefix := window[..|window| - 1];
      GapsSpanWindow(prefix);
      var g := Gaps(window);
      assert g[..|g| - 1] == Gaps(prefix);
    }
  }

  /** Clicks recorded at non-decreasing times give non-negative gaps. */
  lemma GapsOfOrderedWindow(window: seq<int>)
    requires forall i, j :: 0 <= i <= j < |window| ==> window[i] <= window[j]
    ensures forall i :: 0 <= i < |Gaps(window)| ==> Gaps(window)[i] >= 0
  {
  }

  /** Integer gaps as JavaScript numbers. */
  function AsReals(s: seq<int>): (r: seq<real>)
    ensures |r| == |s|
    ensures forall i :: 0 <= i < |s| ==> r[i] == s[i] as real
  {
    seq(|s|, i requires 0 <= i < |s| => s[i] as real)
  }

  /** The orchestrator's state. `subscriber` is the handle of the registered callback, if any. */
  datatype Orchestrator = Orchestrator(
    session: WorkSessions.WorkSession,
    timer: IntervalTimer.Timer,
    rewardSystem: RewardSystem.RewardCache,
    clickTimes: seq<int>,
    subscriber: Option<nat>)

  /** What every operation keeps true. */
  predicate Valid(o: Orchestrator) {
    && |o.clickTimes| <= WindowSize
    && RewardSystem.Coherent(o.rewardSystem)
    && WorkSessions.Wf(o.session)
    && o.session.elapsedTimeMs == 0
  }

  /** The constructor, over an injected work session with fresh timer and reward system. */
  function Create(session: WorkSessions.WorkSession): (r: Orchestrator)
    ensures r.clickTimes == [] && r.subscriber.None? && !r.timer.active
    ensures WorkSessions.Wf(session) && session.elapsedTimeMs == 0 ==> Valid(r)
  {
    Orchestrator(session, IntervalTimer.New(), RewardSystem.EmptyCache, [], None)
  }

  /** How a timer refresh reaches the subscriber; see the module comment. */
  datatype Wiring = AsWritten | SingleNotify

  /** How a call ends: with a value, or by exhausting the call stack. */
  datatype Outcome<T> = Returned(value: T) | StackOverflow

  /**
    A read of the elapsed time re-enters itself exactly when the wiring is
    the re-entrant one, the interval is set and a subscriber is registered.
   */
  predicate ReEnters(o: Orchestrator, w: Wiring) {
    w == AsWritten && o.timer.active && o.subscriber.Some?
  }

  /**
    An operation's new state, how it ended and the snapshot pushed to the
    subscriber. On a stack overflow the state holds every assignment made
    before the recursion began, and nothing was pushed.
   */
  datatype Step<T> = Step(state: Orchestrator, result: Outcome<T>, pushed: Option<MetricsUpdate>)

  datatype Read = Read(state: Orchestrator, metrics: Outcome<MetricsUpdate>)

  /**
    `getCurrentMetrics`: reading the elapsed time refreshes the timer as a
    tick would. The refresh stores the new time before it calls back, so the
    state is the same whether or not the read re-enters.
   */
  function GetCurrentMetrics(o: Orchestrator, now: int, w: Wiring): (r: Read)
    ensures r.metrics.StackOverflow? <==> ReEnters(o, w)
    ensures r.metrics.Returned? ==>
              var m := r.metrics.value;
              && m.elapsedTimeMs == (if o.timer.active then now - o.timer.startTime else o.timer.elapsedTimeMs)
              && m.upm == UnitsPerMinute(m.elapsedTimeMs, o.session.clicks)
              && m.isRunning == WorkSessions.IsRunning(o.session)
              && m.clicks == o.session.clicks
              && m.smoothness == o.session.smoothness && m.rewards == o.session.rewards
    ensures r.state == o.(timer := IntervalTimer.Tick(o.timer, now))
    ensures Valid(o) ==> Valid(r.state)
  {
    var reading := IntervalTimer.GetElapsedTimeMs(o.timer, now);
    var clicks := o.session.clicks;
    var state := o.(timer := reading.timer);
    if ReEnters(o, w) then Read(state, StackOverflow)
    else
      Read(
        state,
        Returned(MetricsUpdate(
          reading.elapsedMs,
          UnitsPerMinute(reading.elapsedMs, clicks),
          WorkSessions.IsRunning(o.session),
          clicks,
          o.session.smoothness,
          o.session.rewards)))
  }

  /**
    The common tail of the commands: the snapshot just read goes to the
    subscriber, if any, and the command returns `result`; a read that
    overflowed propagates.
   */
  function Publish<T>(o: Orchestrator, read: Read, result: T): (r: Step<T>)
    ensures r.state == read.state
    ensures r.result == if read.metrics.Returned? then Returned(result) else StackOverflow
    ensures r.pushed == if read.metrics.Returned? && o.subscriber.Some? then Some(read.metrics.value) else None
  {
    match read.metrics
    case StackOverflow => Step(read.state, StackOverflow, None)
    case Returned(m) => Step(read.state, Returned(result), if o.subscriber.Some? then Some(m) else None)
  }

  /**
    The timer's callback, and the tail of a click: a snapshot for the
    subscriber, read only when there is one.
   */
  function NotifySubscriber(o: Orchestrator, now: int, w: Wiring): (r: Step<()>)
    ensures r.result.StackOverflow? <==> ReEnters(o, w)
    ensures r.pushed.Some? <==> o.subscriber.Some? && !ReEnters(o, w)
    ensures r.pushed.Some? ==> r.pushed.value.elapsedTimeMs == if o.timer.active then now - o.timer.startTime else o.timer.elapsedTimeMs
    ensures o.subscriber.None? ==> r.state == o
    ensures o.subscriber.Some? ==> r.state == o.(timer := IntervalTimer.Tick(o.timer, now))
    ensures Valid(o) ==> Valid(r.state)
  {
    if o.subscriber.Some? then Publish(o, GetCurrentMetrics(o, now, w), ())
    else Step(o, Returned(()), None)
  }

  /**
    `startTimer`: starts entity and timer, then reads and pushes a snapshot
    and returns true. As written, the read re-enters whenever a subscriber
    is registered, because the timer is active by then.
   */
  function StartTimer(o: Orchestrator, now: int, w: Wiring): (r: Step<bool>)
    ensures r.result == if w == AsWritten && o.subscriber.Some? then StackOverflow else Returned(true)
    ensures r.state.timer.active
    ensures !o.timer.active ==> r.state.timer.startTime == now
    ensures r.state.subscriber == o.subscriber
    ensures WorkSessions.Wf(o.session) && o.session.startTime.None? ==> WorkSessions.IsRunning(r.state.session)
    ensures r.pushed.Some? <==> w == SingleNotify && o.subscriber.Some?
    ensures r.pushed.Some? ==> r.pushed.value.clicks == o.session.clicks && r.pushed.value.elapsedTimeMs == now - r.state.timer.startTime
    ensures r.state.clickTimes == o.clickTimes && r.state.session.clicks == o.session.clicks
    ensures Valid(o) ==> Valid(r.state)
  {
    var started := o.(session := WorkSessions.Start(o.session, now), timer := IntervalTimer.Start(o.timer, now));
    Publish(o, GetCurrentMetrics(started, now, w), true)
  }

  /**
    `pauseTimer`: pauses entity and timer, pushes a snapshot, and returns
    false. The interval is cleared before the read, so under either wiring
    the read cannot re-enter.
   */
  function PauseTimer(o: Orchestrator, now: int, w: Wiring): (r: Step<bool>)
    ensures r.result == Returned(false)
    ensures r.state.subscriber == o.subscriber
    ensures !r.state.timer.active && !WorkSessions.IsRunning(r.state.session)
    ensures r.state.timer.elapsedTimeMs == o.timer.elapsedTimeMs
    ensures r.pushed.Some? <==> o.subscriber.Some?
    ensures r.pushed.Some? ==>
              && r.pushed.value.elapsedTimeMs == o.timer.elapsedTimeMs
              && r.pushed.value.clicks == o.session.clicks
              && !r.pushed.value.isRunning
              && r.pushed.value.upm == UnitsPerMinute(o.timer.elapsedTimeMs, o.session.clicks)
    ensures r.state.clickTimes == o.clickTimes && r.state.session.clicks == o.session.clicks
    ensures Valid(o) ==> Valid(r.state)
  {
    var paused := o.(session := WorkSessions.Pause(o.session, now), timer := IntervalTimer.Pause(o.timer));
    Publish(o, GetCurrentMetrics(paused, now, w), false)
  }

  /**
    `incrementClicks`: counts the click and records its time whether or not
    the timer runs, then recomputes smoothness from the window's gaps and
    rewards from the smoothness, storing both on the entity, and finally
    notifies the subscriber. As written, that last read re-enters while the
    timer runs; everything before it has already been stored.
   */
  function IncrementClicks(o: Orchestrator, now: int, sqrt: real -> real, w: Wiring): (r: Step<()>)
    ensures r.state.session.clicks == o.session.clicks + 1
    ensures r.state.clickTimes == PushClick(o.clickTimes, now)
    ensures r.state.session.smoothness == Smoothness.CalculateSmoothnessScore(AsReals(Gaps(r.state.clickTimes)), sqrt)
    ensures WorkSessions.PhaseOf(r.state.session) == WorkSessions.PhaseOf(o.session)
    ensures r.state.timer.active == o.timer.active && r.state.timer.startTime == o.timer.startTime
    ensures r.state.subscriber == o.subscriber
    ensures r.result.StackOverflow? <==> ReEnters(o, w)
    ensures r.pushed.Some? <==> o.subscriber.Some? && !ReEnters(o, w)
    ensures r.pushed.Some? ==> r.pushed.value.clicks == o.session.clicks + 1
    ensures Valid(o) ==> Valid(r.state)
    ensures Valid(o) ==> r.state.session.rewards == RewardSystem.Compute(r.state.session.smoothness)
  {
    var session := WorkSessions.RecordClick(o.session);
    var window := PushClick(o.clickTimes, now);
    var metrics := Smoothness.CalculateSmoothnessScore(AsReals(Gaps(window)), sqrt);
    var scored := RewardSystem.CalculateRewards(o.rewardSystem, metrics);
    var session' := WorkSessions.UpdateRewards(WorkSessions.UpdateSmoothnessMetrics(session, metrics), scored.rewards);
    NotifySubscriber(o.(session := session', clickTimes := window, rewardSystem := scored.cache), now, w)
  }

  /**
    `resetSession`: resets the entity and the timer and empties the window.
    The returned snapshot shows no time, no clicks, no rate and a stopped
    timer; the stored smoothness and rewards are not reset. The interval is
    cleared before the read, so it never re-enters.
   */
  function ResetSession(o: Orchestrator, now: int, w: Wiring): (r: Step<MetricsUpdate>)
    ensures r.state.clickTimes == []
    ensures r.state.timer == IntervalTimer.New()
    ensures r.state.session == WorkSessions.Reset(o.session)
    ensures r.result.Returned?
    ensures var m := r.result.value;
      m.elapsedTimeMs == 0 && m.upm == 0.0 && m.clicks == 0 && !m.isRunning && m.smoothness == o.session.smoothness
    ensures r.pushed == if o.subscriber.Some? then Some(r.result.value) else None
    ensures Valid(o) ==> Valid(r.state)
  {
    var cleared := o.(session := WorkSessions.Reset(o.session), timer := IntervalTimer.Reset(o.timer), clickTimes := []);
    var read := GetCurrentMetrics(cleared, now, w);
    match read.metrics
    case StackOverflow => Step(read.state, StackOverflow, None)
    case Returned(m) => Step(read.state, Returned(m), if o.subscriber.Some? then Some(m) else None)
  }

  /**
    One firing of the 16 ms interval, which exists only while the timer is
    active: the timer refreshes its elapsed time and calls back, and the
    callback reads a snapshot for the subscriber, if any. As written, that
    read re-enters.
   */
  function Tick(o: Orchestrator, now: int, w: Wiring): (r: Step<()>)
    ensures !o.timer.active ==> r == Step(o, Returned(()), None)
    ensures o.timer.active ==> r.state.timer.elapsedTimeMs == now - o.timer.startTime
    ensures r.state.timer.active == o.timer.active && r.state.session == o.session
    ensures r.state.subscriber == o.subscriber
    ensures r.result.StackOverflow? <==> ReEnters(o, w)
    ensures r.pushed.Some? <==> o.timer.active && o.subscriber.Some? && w == SingleNotify
    ensures Valid(o) ==> Valid(r.state)
  {
    if o.timer.active then NotifySubscriber(o.(timer := IntervalTimer.Tick(o.timer, now)), now, w)
    else Step(o, Returned(()), None)
  }

  /** `onMetricsUpdate`: the new callback replaces any previous one. */
  function OnMetricsUpdate(o: Orchestrator, callback: nat): (r: Orchestrator)
    ensures r.subscriber == Some(callback)
    ensures r.(subscriber := o.subscriber) == o
  {
    o.(subscriber := Some(callback))
  }

  /** `clearMetricsUpdateCallback`: no subscriber remains. */
  function ClearMetricsUpdateCallback(o: Orchestrator): (r: Orchestrator)
    ensures r.subscriber.None?
    ensures r.(subscriber := o.subscriber) == o
  {
    o.(subscriber := None)
  }

  /** Everything a caller or the interval can do to the orchestrator. */
  datatype Command =
    | StartAt(now: int)
    | PauseAt(now: int)
    | ClickAt(now: int)
    | TickAt(now: int)
    | ResetAt(now: int)
    | ReadAt(now: int)
    | Subscribe(callback: nat)
    | Unsubscribe

  /** The state after a command, whether the command returned or overflowed. */
  function Apply(o: Orchestrator, c: Command, sqrt: real -> real, w: Wiring): Orchestrator {
    match c
    case StartAt(now) => StartTimer(o, now, w).state
    case PauseAt(now) => PauseTimer(o, now, w).state
    case ClickAt(now) => IncrementClicks(o, now, sqrt, w).state
    case TickAt(now) => Tick(o, now, w).state
    case ResetAt(now) => ResetSession(o, now, w).state
    case ReadAt(now) => GetCurrentMetrics(o, now, w).state
    case Subscribe(callback) => OnMetricsUpdate(o, callback)
    case Unsubscribe => ClearMetricsUpdateCallback(o)
  }

  function Run(o: Orchestrator, cs: seq<Command>, sqrt: real -> real, w: Wiring): Orchestrator
  {
    if |cs| == 0 then o else Apply(Run(o, cs[..|cs| - 1], sqrt, w), cs[|cs| - 1], sqrt, w)
  }

  /**
    Over any sequence of commands the window never exceeds ten entries, the
    reward memo stays coherent and the entity's elapsed field stays 0.
   */
  lemma {:induction false} RunKeepsValid(o: Orchestrator, cs: seq<Command>, sqrt: real -> real, w: Wiring)
    requires Valid(o)
    ensures Valid(Run(o, cs, sqrt, w))
  {
    if |cs| > 0 {
      RunKeepsValid(o, cs[..|cs| - 1], sqrt, w);
    }
  }

  /**
    The two wirings differ only in how calls end and what reaches the
    subscriber: over any sequence of commands they leave the same state.
   */
  lemma {:induction false} WiringsAgreeOnState(o: Orchestrator, cs: seq<Command>, sqrt: real -> real)
    ensures Run(o, cs, sqrt, AsWritten) == Run(o, cs, sqrt, SingleNotify)
  {
    if |cs| > 0 {
      WiringsAgreeOnState(o, cs[..|cs| - 1], sqrt);
    }
  }

  /**
    As written, starting the timer once a subscriber is registered never
    returns: the read after the start re-enters until the stack is
    exhausted, and the subscriber receives nothing.
   */
  lemma StartWithSubscriberOverflows(o: Orchestrator, callback: nat, now: int)
    ensures var r := StartTimer(OnMetricsUpdate(o, callback), now, AsWritten);
      r.result == StackOverflow && r.pushed.None? && r.state.timer.active
  {
  }

  /**
    With single notification the same start returns true and pushes one
    snapshot, of the clicks so far and the time since the timer's anchor.
   */
  lemma StartWithSubscriberNotifiesOnce(o: Orchestrator, callback: nat, now: int)
    requires !o.timer.active
    ensures var r := StartTimer(OnMetricsUpdate(o, callback), now, SingleNotify);
      && r.result == Returned(true)
      && r.pushed.Some?
      && r.pushed.value.elapsedTimeMs == 0
      && r.pushed.value.clicks == o.session.clicks
      && r.pushed.value.upm == 0.0
  {
  }

  /** A click changes neither the timer's anchor and activity nor the subscriber. */
  lemma ClickLeavesTimer(o: Orchestrator, now: int, sqrt: real -> real, w: Wiring)
    ensures var r := IncrementClicks(o, now, sqrt, w).state;
      && r.timer.active == o.timer.active
      && r.timer.startTime == o.timer.startTime
      && r.subscriber == o.subscriber
      && r.session.clicks == o.session.clicks + 1
  {
  }

  /**
    A pause reports the elapsed time of the last refresh: after an interval
    tick at `tickAt` and a pause at any later `pauseAt`, the pushed snapshot
    shows `tickAt - startTime`, the click count, a stopped timer and the
    rate over that span. This holds under either wiring, since the tick
    stores its refresh before it calls back.
   */
  lemma PauseReportsLastTick(o: Orchestrator, tickAt: int, pauseAt: int, w: Wiring)
    requires o.timer.active && o.subscriber.Some?
    ensures var p := PauseTimer(Tick(o, tickAt, w).state, pauseAt, w);
      && p.pushed.Some?
      && p.pushed.value.elapsedTimeMs == tickAt - o.timer.startTime
      && p.pushed.value.clicks == o.session.clicks
      && !p.pushed.value.isRunning
      && p.pushed.value.upm == UnitsPerMinute(tickAt - o.timer.startTime, o.session.clicks)
  {
  }

  /**
    Restarting after a pause restarts the interval but not the entity,
    which stays paused: the timer ticks again from the restart while every
    snapshot reports a stopped session.
   */
  lemma RestartTicksWhilePaused(o: Orchestrator, pauseAt: int, startAt: int, readAt: int)
    requires o.session.startTime.Some?
    ensures var s := StartTimer(PauseTimer(o, pauseAt, SingleNotify).state, startAt, SingleNotify).state;
      && s.timer.active
      && !WorkSessions.IsRunning(s.session)
      && var m := GetCurrentMetrics(s, readAt, SingleNotify).metrics;
      && m.Returned?
      && m.value.elapsedTimeMs == readAt - startAt
      && !m.value.isRunning
  {
  }
}
