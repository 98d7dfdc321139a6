/**
  The live work-session entity: start and pause timestamps, the click
  counter and the elapsed-time field, plus the two derived records the
  timer orchestrator stores on it (last smoothness metrics and rewards).

  A pause sets the end timestamp; because `start` only acts while no start
  timestamp is set, a paused session cannot be resumed, only reset.
 */
module WorkSessions {
  import opened Basics
  import opened Metrics

  datatype WorkSession = WorkSession(
    startTime: Option<int>,
    endTime: Option<int>,
    elapsedTimeMs: int,
    clicks: nat,
    smoothness: SmoothnessMetrics,
    rewards: Rewards)

  /** `isRunning`: started and not yet paused. */
  predicate IsRunning(s: WorkSession)
    ensures IsRunning(s) <==> PhaseOf(s) == Running
  {
    s.startTime.Some? && s.endTime.None?
  }

  /** Reachable shape: an end time is only ever stamped after a start time. */
  predicate Wf(s: WorkSession) {
    s.endTime.Some? ==> s.startTime.Some?
  }

  /** The three observable phases of the entity. */
  datatype Phase = Idle | Running | Paused

  function PhaseOf(s: WorkSession): Phase {
    if s.startTime.None? then Idle
    else if s.endTime.None? then Running
    else Paused
  }

  /** A fresh entity: not running, no clicks, nothing elapsed, no timestamps. */
  function New(): (r: WorkSession)
    ensures !IsRunning(r) && PhaseOf(r) == Idle
    ensures r.clicks == 0 && r.elapsedTimeMs == 0
    ensures r.startTime.None? && r.endTime.None?
  {
    WorkSession(None, None, 0, 0, ZeroSmoothness, ZeroRewards)
  }

  /** `start`: stamps the start time only if none is set yet. */
  function Start(s: WorkSession, now: int): (r: WorkSession)
    ensures s.startTime.None? ==> r.startTime == Some(now)
    ensures Wf(s) && s.startTime.None? ==> IsRunning(r)
    ensures s.startTime.Some? ==> r == s
    ensures r.(startTime := s.startTime) == s
  {
    if s.startTime.None? then s.(startTime := Some(now)) else s
  }

  /** `pause`: stamps the end time only while started and not yet paused. */
  function Pause(s: WorkSession, now: int): (r: WorkSession)
    ensures IsRunning(s) ==> PhaseOf(r) == Paused && r.endTime == Some(now)
    ensures !IsRunning(s) ==> r == s
    ensures !IsRunning(r)
    ensures r.(endTime := s.endTime) == s
  {
    if s.startTime.Some? && s.endTime.None? then s.(endTime := Some(now)) else s
  }

  /** `recordClick`: one more click, in any phase, and nothing else changes. */
  function RecordClick(s: WorkSession): (r: WorkSession)
    ensures r.clicks == s.clicks + 1
    ensures PhaseOf(r) == PhaseOf(s)
    ensures r.(clicks := s.clicks) == s
  {
    s.(clicks := s.clicks + 1)
  }

  /**
    `reset`: back to the fresh entity's timestamps, counter and elapsed
    time; it does not assign the two derived records.
   */
  function Reset(s: WorkSession): (r: WorkSession)
    ensures r == New().(smoothness := s.smoothness, rewards := s.rewards)
    ensures PhaseOf(r) == Idle
  {
    s.(startTime := None, endTime := None, elapsedTimeMs := 0, clicks := 0)
  }

  /** The setter the orchestrator uses for the smoothness record. */
  function UpdateSmoothnessMetrics(s: WorkSession, m: SmoothnessMetrics): (r: WorkSession)
    ensures r.smoothness == m && r.(smoothness := s.smoothness) == s
    ensures PhaseOf(r) == PhaseOf(s) && IsRunning(r) == IsRunning(s) && r.clicks == s.clicks
  {
    s.(smoothness := m)
  }

  /** The setter the orchestrator uses for the rewards record. */
  function UpdateRewards(s: WorkSession, w: Rewards): (r: WorkSession)
    ensures r.rewards == w && r.(rewards := s.rewards) == s
    ensures PhaseOf(r) == PhaseOf(s) && IsRunning(r) == IsRunning(s) && r.clicks == s.clicks
  {
    s.(rewards := w)
  }

  /** Pausing twice is pausing once. */
  lemma PauseIdempotent(s: WorkSession, t1: int, t2: int)
    ensures Pause(Pause(s, t1), t2) == Pause(s, t1)
  {
  }

  /** Starting twice is starting once. */
  lemma StartIdempotent(s: WorkSession, t1: int, t2: int)
    ensures Start(Start(s, t1), t2) == Start(s, t1)
  {
  }

  /** Everything that can happen to the entity. */
  datatype Event =
    | StartAt(now: int)
    | PauseAt(now: int)
    | Click
    | ResetAll
    | SetSmoothness(m: SmoothnessMetrics)
    | SetRewards(w: Rewards)

  function Apply(s: WorkSession, e: Event): WorkSession {
    match e
    case StartAt(now) => Start(s, now)
    case PauseAt(now) => Pause(s, now)
    case Click => RecordClick(s)
    case ResetAll => Reset(s)
    case SetSmoothness(m) => UpdateSmoothnessMetrics(s, m)
    case SetRewards(w) => UpdateRewards(s, w)
  }

  /** The entity after a sequence of events, oldest first. */
  function Run(s: WorkSession, es: seq<Event>): WorkSession
    decreases |es|
  {
    if |es| == 0 then s else Apply(Run(s, es[..|es| - 1]), es[|es| - 1])
  }

  /**
    Only the constructor and `reset` assign the elapsed field, both to 0, so
    it reads 0 after every sequence of events.
   */
  lemma {:induction false} ElapsedAlwaysZero(es: seq<Event>)
    ensures Run(New(), es).elapsedTimeMs == 0
    ensures Wf(Run(New(), es))
  {
    if |es| > 0 {
      ElapsedAlwaysZero(es[..|es| - 1]);
    }
  }

  /**
    Once paused, no event other than a reset makes the entity run again:
    both timestamps stay exactly as they were.
   */
  lemma {:induction false} PausedStaysPaused(s: WorkSession, es: seq<Event>)
    requires PhaseOf(s) == Paused
    requires forall i :: 0 <= i < |es| ==> !es[i].ResetAll?
    ensures !IsRunning(Run(s, es)) && PhaseOf(Run(s, es)) == Paused
    ensures Run(s, es).startTime == s.startTime && Run(s, es).endTime == s.endTime
  {
    if |es| > 0 {
      PausedStaysPaused(s, es[..|es| - 1]);
    }
  }

  /** A reset anywhere in the history leaves the entity idle with no clicks if nothing follows it. */
  lemma ResetFromAnyHistory(s: WorkSession, es: seq<Event>)
    ensures var r := Run(s, es + [ResetAll]);
      PhaseOf(r) == Idle && r.clicks == 0 && r.elapsedTimeMs == 0
  {
    assert (es + [ResetAll])[..|es|] == es;
  }
}
