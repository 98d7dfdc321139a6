/**
  The persisted session record: identity, start and end stamps, click
  total, notes, the final units-per-minute figure, a duration that drives
  its recomputation, and the last smoothness snapshot; with its JSON form.
 */
module Sessions {
  import opened Basics
  import opened Metrics

  /** A note, stamped in milliseconds since the session's start. */
  datatype Note = Note(timestamp: int, text: string)

  datatype Session = Session(
    id: string,
    startTime: int,
    endTime: Option<int>,
    totalClicks: int,
    notes: seq<Note>,
    finalUPM: real,
    duration: int,
    smoothness: SmoothnessMetrics)

  /** `isComplete`: an end time has been stamped. */
  predicate IsComplete(s: Session) {
    s.endTime.Some?
  }

  /** The constructor: open, no clicks, no notes, zero rate, duration and smoothness. */
  function NewSession(id: string, startTime: int): (r: Session)
    ensures r.id == id && r.startTime == startTime
    ensures !IsComplete(r)
    ensures r.totalClicks == 0 && r.notes == [] && r.finalUPM == 0.0 && r.duration == 0
    ensures r.smoothness == ZeroSmoothness
  {
    Session(id, startTime, None, 0, [], 0.0, 0, ZeroSmoothness)
  }

  /** `setEndTime`: completes the session. */
  function SetEndTime(s: Session, endTime: int): (r: Session)
    ensures IsComplete(r) && r.endTime == Some(endTime)
    ensures r.(endTime := s.endTime) == s
  {
    s.(endTime := Some(endTime))
  }

  /** `setTotalClicks`: the rate is recomputed only when a positive duration is known. */
  function SetTotalClicks(s: Session, clicks: int): (r: Session)
    ensures r.totalClicks == clicks
    ensures s.duration > 0 ==> r.finalUPM == UnitsPerMinute(s.duration, clicks)
    ensures s.duration <= 0 ==> r.finalUPM == s.finalUPM
    ensures r.(totalClicks := s.totalClicks, finalUPM := s.finalUPM) == s
  {
    var counted := s.(totalClicks := clicks);
    if s.duration > 0 then counted.(finalUPM := UnitsPerMinute(s.duration, clicks)) else counted
  }

  /** `setDuration`: the rate is recomputed only when some clicks are known. */
  function SetDuration(s: Session, durationMs: int): (r: Session)
    ensures r.duration == durationMs
    ensures s.totalClicks > 0 ==> r.finalUPM == UnitsPerMinute(durationMs, s.totalClicks)
    ensures s.totalClicks <= 0 ==> r.finalUPM == s.finalUPM
    ensures r.(duration := s.duration, finalUPM := s.finalUPM) == s
  {
    var timed := s.(duration := durationMs);
    if s.totalClicks > 0 then timed.(finalUPM := UnitsPerMinute(durationMs, s.totalClicks)) else timed
  }

  /**
    Once both clicks and duration are positive, the rate reflects both,
    whichever setter ran last.
   */
  lemma SettersAgree(s: Session, clicks: int, durationMs: int)
    requires clicks > 0 && durationMs > 0
    ensures SetDuration(SetTotalClicks(s, clicks), durationMs) == SetTotalClicks(SetDuration(s, durationMs), clicks)
    ensures SetDuration(SetTotalClicks(s, clicks), durationMs).finalUPM == UnitsPerMinute(durationMs, clicks)
  {
  }

  /** `addNote`: appends at the end, with no validation and no completeness check. */
  function AddNote(s: Session, note: Note): (r: Session)
    ensures |r.notes| == |s.notes| + 1
    ensures r.notes[..|s.notes|] == s.notes && r.notes[|s.notes|] == note
    ensures r.(notes := s.notes) == s
  {
    s.(notes := s.notes + [note])
  }

  /** `updateSmoothnessMetrics`: replaces the smoothness snapshot. */
  function UpdateSmoothnessMetrics(s: Session, m: SmoothnessMetrics): (r: Session)
    ensures r.smoothness == m && r.(smoothness := s.smoothness) == s
  {
    s.(smoothness := m)
  }

  /**
    The optional properties of `setProperties`. `endTime` is `None` when the
    key is absent and `Some(None)` when it is present but null or undefined.
   */
  datatype Properties = Properties(
    id: Option<string>,
    startTime: Option<int>,
    endTime: Option<Option<int>>,
    totalClicks: Option<int>,
    notes: Option<seq<Note>>,
    finalUPM: Option<real>)

  /**
    `setProperties`: a falsy id (empty) or start time (zero) is ignored; a
    present end-time key is taken even when null; clicks go through
    `SetTotalClicks`; a `finalUPM` property only reads the getter, so it has
    no effect.
   */
  function SetProperties(s: Session, p: Properties): (r: Session)
    ensures r.id == if p.id.Some? && p.id.value != "" then p.id.value else s.id
    ensures r.startTime == if p.startTime.Some? && p.startTime.value != 0 then p.startTime.value else s.startTime
    ensures r.endTime == if p.endTime.Some? then p.endTime.value else s.endTime
    ensures r.totalClicks == if p.totalClicks.Some? then p.totalClicks.value else s.totalClicks
    ensures r.notes == if p.notes.Some? then p.notes.value else s.notes
    ensures p.totalClicks.None? || s.duration <= 0 ==> r.finalUPM == s.finalUPM
    ensures p.totalClicks.Some? && s.duration > 0 ==> r.finalUPM == UnitsPerMinute(s.duration, p.totalClicks.value)
    ensures r.duration == s.duration && r.smoothness == s.smoothness
  {
    var s1 := if p.id.Some? && p.id.value != "" then s.(id := p.id.value) else s;
    var s2 := if p.startTime.Some? && p.startTime.value != 0 then s1.(startTime := p.startTime.value) else s1;
    var s3 := if p.endTime.Some? then s2.(endTime := p.endTime.value) else s2;
    var s4 := if p.totalClicks.Some? then SetTotalClicks(s3, p.totalClicks.value) else s3;
    if p.notes.Some? then s4.(notes := p.notes.value) else s4
  }

  /** The JSON object written by `toJSON`; the duration is not part of it. */
  datatype SessionJson = SessionJson(
    id: string,
    startTime: int,
    endTime: Option<int>,
    totalClicks: int,
    notes: seq<Note>,
    finalUPM: real,
    smoothness: SmoothnessMetrics)

  /** `fromJSON`, as written: the stored rate is handed to `setProperties`, which ignores it. */
  function FromJson(j: SessionJson): (r: Session)
    ensures r.id == j.id && r.startTime == j.startTime && r.endTime == j.endTime
    ensures r.totalClicks == j.totalClicks && r.notes == j.notes && r.smoothness == j.smoothness
    ensures r.finalUPM == 0.0 && r.duration == 0
  {
    var props := Properties(None, None, Some(j.endTime), Some(j.totalClicks), Some(j.notes), Some(j.finalUPM));
    UpdateSmoothnessMetrics(SetProperties(NewSession(j.id, j.startTime), props), j.smoothness)
  }

  /**
    `toJSON`. Read back through `fromJSON`, a record keeps its id, stamps,
    clicks, notes and smoothness, but its rate and duration come back as 0.
   */
  function ToJson(s: Session): (j: SessionJson)
    ensures FromJson(j) == s.(finalUPM := 0.0, duration := 0)
  {
    SessionJson(s.id, s.startTime, s.endTime, s.totalClicks, s.notes, s.finalUPM, s.smoothness)
  }

  /**
    Completion comes only from `setEndTime`: the other operations keep
    `isComplete` as it was, `setEndTime` always completes, and a new record
    is open.
   */
  lemma CompletionOnlyByEndTime(s: Session, clicks: int, durationMs: int, note: Note, m: SmoothnessMetrics, t: int)
    ensures IsComplete(SetTotalClicks(s, clicks)) == IsComplete(s)
    ensures IsComplete(SetDuration(s, durationMs)) == IsComplete(s)
    ensures IsComplete(AddNote(s, note)) == IsComplete(s)
    ensures IsComplete(UpdateSmoothnessMetrics(s, m)) == IsComplete(s)
    ensures IsComplete(SetEndTime(s, t)) && !IsComplete(NewSession(s.id, t))
  {
  }

  /** A record whose rate does not survive the round trip. */
  lemma RoundTripDropsRate()
    ensures var s := NewSession("1", 0).(totalClicks := 3, finalUPM := 150.0, endTime := Some(1200));
      FromJson(ToJson(s)).finalUPM == 0.0 != s.finalUPM
  {
  }

  /** `setProperties` with the evident intent of its last line: a numeric rate is stored. */
  function SetPropertiesStoringRate(s: Session, p: Properties): (r: Session)
    ensures p.finalUPM.Some? ==> r.finalUPM == p.finalUPM.value
    ensures p.finalUPM.None? ==> r == SetProperties(s, p)
    ensures r.(finalUPM := SetProperties(s, p).finalUPM) == SetProperties(s, p)
  {
    var r := SetProperties(s, p);
    if p.finalUPM.Some? then r.(finalUPM := p.finalUPM.value) else r
  }

  /** `fromJSON` over the corrected `setProperties`. */
  function FromJsonStoringRate(j: SessionJson): (r: Session)
    ensures r.finalUPM == j.finalUPM
    ensures r.(finalUPM := 0.0) == FromJson(j)
  {
    var props := Properties(None, None, Some(j.endTime), Some(j.totalClicks), Some(j.notes), Some(j.finalUPM));
    UpdateSmoothnessMetrics(SetPropertiesStoringRate(NewSession(j.id, j.startTime), props), j.smoothness)
  }

  /** With the rate stored, the round trip loses only the duration, which is never serialised. */
  lemma RoundTripStoringRate(s: Session)
    ensures FromJsonStoringRate(ToJson(s)) == s.(duration := 0)
  {
  }
}
