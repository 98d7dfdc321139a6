/**
  The interval timer service. The interval handle is reduced to the flag
  `active`; each firing of the 16 ms interval is the `Tick` operation.

  Elapsed time is measured from the latest start: a resume re-anchors the
  start time, so time from earlier running segments is not carried over.
 */
module IntervalTimer {

  datatype Timer = Timer(active: bool, startTime: int, elapsedTimeMs: int, lastUpdateTime: int)

  /** The field initialisers: inactive, all numbers 0. */
  function New(): (r: Timer)
    ensures !r.active && r.startTime == 0 && r.elapsedTimeMs == 0 && r.lastUpdateTime == 0
  {
    Timer(false, 0, 0, 0)
  }

  /** `start`: anchors at `now` and activates, unless already active. */
  function Start(t: Timer, now: int): (r: Timer)
    ensures r.active
    ensures t.active ==> r == t
    ensures !t.active ==> r.startTime == now && r.lastUpdateTime == now
    ensures r.elapsedTimeMs == t.elapsedTimeMs
  {
    if !t.active then t.(active := true, startTime := now, lastUpdateTime := now) else t
  }

  /** `pause`: deactivates without refreshing the elapsed value. */
  function Pause(t: Timer): (r: Timer)
    ensures !r.active
    ensures r.elapsedTimeMs == t.elapsedTimeMs && r.startTime == t.startTime
  {
    t.(active := false)
  }

  /** `reset`: inactive, with start, elapsed and last-update all 0. */
  function Reset(t: Timer): (r: Timer)
    ensures r == New()
  {
    Timer(false, 0, 0, 0)
  }

  /** `updateElapsedTime`: while active, elapsed becomes `now - startTime`; inactive, nothing changes. */
  function Tick(t: Timer, now: int): (r: Timer)
    ensures t.active ==> r.elapsedTimeMs == now - t.startTime && r.lastUpdateTime == now
    ensures !t.active ==> r == t
    ensures r.active == t.active && r.startTime == t.startTime
  {
    if t.active then t.(elapsedTimeMs := now - t.startTime, lastUpdateTime := now) else t
  }

  datatype Reading = Reading(timer: Timer, elapsedMs: int)

  /** `getElapsedTimeMs`: refreshes as a tick would, then reports the stored value. */
  function GetElapsedTimeMs(t: Timer, now: int): (r: Reading)
    ensures t.active ==> r.elapsedMs == now - t.startTime
    ensures !t.active ==> r.elapsedMs == t.elapsedTimeMs && r.timer == t
    ensures r.timer.elapsedTimeMs == r.elapsedMs
  {
    var u := Tick(t, now);
    Reading(u, u.elapsedTimeMs)
  }

  /** After a pause the reported value is the one from the last refresh, whenever it is read. */
  lemma PauseFreezesLastRefresh(t: Timer, refreshedAt: int, now: int)
    requires t.active
    ensures GetElapsedTimeMs(Pause(Tick(t, refreshedAt)), now).elapsedMs == refreshedAt - t.startTime
  {
  }

  /**
    Resuming discards earlier running segments: after a pause and a start
    at `resumedAt`, the reading at `now` is `now - resumedAt`, whatever had
    elapsed before.
   */
  lemma ResumeReanchors(t: Timer, pausedAt: int, resumedAt: int, now: int)
    requires t.active
    ensures GetElapsedTimeMs(Start(Pause(Tick(t, pausedAt)), resumedAt), now).elapsedMs == now - resumedAt
  {
  }

  /** While active, readings taken at non-decreasing times do not decrease. */
  lemma ReadingsMonotone(t: Timer, t1: int, t2: int)
    requires t.active && t1 <= t2
    ensures var first := GetElapsedTimeMs(t, t1);
      first.elapsedMs <= GetElapsedTimeMs(first.timer, t2).elapsedMs
  {
  }
}
