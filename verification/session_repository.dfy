/**
  The session service: the list of session records plus the currently open
  one. A session started in this process is one object with its list
  entry, so an update to the current session shows in the list; here that
  sharing is the `shared` flag, and a shared update is applied to the list
  entry carrying the current session's id. After `initialize` the list and
  the current session are decoded separately and share nothing.
  Persistence to storage is left out.
 */
module SessionRepository {
  import opened Basics
  import opened Metrics
  import opened Sessions

  /**
    `shared`: the current session is the same object as its list entry, so
    updating one updates the other.
   */
  datatype Repository = Repository(sessions: seq<Session>, current: Option<Session>, shared: bool)

  const Empty := Repository([], None, false)

  /** The two errors the service throws. */
  datatype RepositoryError = SessionAlreadyActive | NoActiveSession

  /** Replaces every list entry with `s`'s id by `s`. */
  function ReplaceById(ss: seq<Session>, s: Session): (r: seq<Session>)
    ensures |r| == |ss|
    ensures forall i :: 0 <= i < |ss| ==> r[i] == if ss[i].id == s.id then s else ss[i]
  {
    if |ss| == 0 then []
    else ReplaceById(ss[..|ss| - 1], s) + [if ss[|ss| - 1].id == s.id then s else ss[|ss| - 1]]
  }

  predicate UniqueIds(ss: seq<Session>) {
    forall i, j :: 0 <= i < j < |ss| ==> ss[i].id != ss[j].id
  }

  predicate HasOpenCurrent(r: Repository) {
    r.current.Some? && !IsComplete(r.current.value)
  }

  /**
    The repository invariant: ids are unique, the current session is open,
    listed and shared with its entry, and every other listed session is
    complete.
   */
  predicate Valid(r: Repository) {
    && UniqueIds(r.sessions)
    && (r.current.Some? ==> !IsComplete(r.current.value) && r.current.value in r.sessions && r.shared)
    && forall i :: 0 <= i < |r.sessions| && !IsComplete(r.sessions[i]) ==>
         r.current.Some? && r.sessions[i].id == r.current.value.id
  }

  /** The service starts with no sessions and no current one, which satisfies the invariant. */
  lemma EmptyValid()
    ensures Valid(Empty) && !HasOpenCurrent(Empty)
  {
  }

  /** Under the invariant at most one listed session is open. */
  lemma AtMostOneOpen(r: Repository, i: int, j: int)
    requires Valid(r)
    requires 0 <= i < |r.sessions| && 0 <= j < |r.sessions|
    requires !IsComplete(r.sessions[i]) && !IsComplete(r.sessions[j])
    ensures i == j
  {
  }

  /** `getCurrentSession`: under the invariant, a current session is open and listed. */
  function GetCurrentSession(r: Repository): (c: Option<Session>)
    ensures c == r.current
    ensures Valid(r) && c.Some? ==> !IsComplete(c.value) && c.value in r.sessions
  {
    r.current
  }

  /**
    `startNewSession`: refused while an open current session exists;
    otherwise a new open session is appended and becomes current.
   */
  function StartNewSession(r: Repository, id: string, now: int): (res: Result<Repository, RepositoryError>)
    ensures res.Err? <==> HasOpenCurrent(r)
    ensures res.Err? ==> res.error == SessionAlreadyActive
    ensures res.Ok? ==> res.value.sessions == r.sessions + [NewSession(id, now)]
    ensures res.Ok? ==> res.value.current == Some(NewSession(id, now)) && res.value.shared
  {
    if r.current.Some? && !IsComplete(r.current.value) then Err(SessionAlreadyActive)
    else
      var s := NewSession(id, now);
      Ok(Repository(r.sessions + [s], Some(s), true))
  }

  /** Starting with a fresh id keeps the invariant. */
  lemma StartKeepsValid(r: Repository, id: string, now: int)
    requires Valid(r)
    requires forall i :: 0 <= i < |r.sessions| ==> r.sessions[i].id != id
    ensures StartNewSession(r, id, now).Ok? ==> Valid(StartNewSession(r, id, now).value)
  {
    var res := StartNewSession(r, id, now);
    if res.Ok? {
      var r' := res.value;
      assert r'.sessions[|r.sessions|] == NewSession(id, now);
    }
  }

  /** A second start without an end in between is refused, leaving one new entry. */
  lemma SecondStartRefused(r: Repository, id1: string, t1: int, id2: string, t2: int)
    requires StartNewSession(r, id1, t1).Ok?
    ensures var r1 := StartNewSession(r, id1, t1).value;
      && StartNewSession(r1, id2, t2) == Err(SessionAlreadyActive)
      && |r1.sessions| == |r.sessions| + 1
  {
  }

  datatype Ended = Ended(repository: Repository, closed: Option<Session>)

  /**
    `endCurrentSession`: with no open current session nothing changes and
    nothing is returned. Otherwise the current session takes the click
    total, the supplied rate verbatim, the smoothness snapshot and the end
    time `now`; its list entry is updated alike when the two are shared;
    current is cleared.
   */
  function EndCurrentSession(r: Repository, clicks: int, upm: real, m: SmoothnessMetrics, now: int): (e: Ended)
    ensures !HasOpenCurrent(r) ==> e == Ended(r, None)
    ensures HasOpenCurrent(r) ==>
              var c := r.current.value;
              && e.closed.Some?
              && e.closed.value == c.(totalClicks := clicks, finalUPM := upm, smoothness := m, endTime := Some(now))
              && IsComplete(e.closed.value)
              && e.repository.current.None? && !e.repository.shared
              && e.repository.sessions == if r.shared then ReplaceById(r.sessions, e.closed.value) else r.sessions
  {
    if r.current.Some? && !IsComplete(r.current.value) then
      var counted := SetTotalClicks(r.current.value, clicks);
      var rated := counted.(finalUPM := upm);
      var closed := SetEndTime(UpdateSmoothnessMetrics(rated, m), now);
      var sessions := if r.shared then ReplaceById(r.sessions, closed) else r.sessions;
      Ended(Repository(sessions, None, false), Some(closed))
    else
      Ended(r, None)
  }

  /** Ending keeps the invariant; afterwards every listed session is complete. */
  lemma EndKeepsValid(r: Repository, clicks: int, upm: real, m: SmoothnessMetrics, now: int)
    requires Valid(r)
    ensures Valid(EndCurrentSession(r, clicks, upm, m, now).repository)
    ensures HasOpenCurrent(r) ==>
              var r' := EndCurrentSession(r, clicks, upm, m, now).repository;
              forall i :: 0 <= i < |r'.sessions| ==> IsComplete(r'.sessions[i])
  {
  }

  /**
    `addNote`: refused without a current session; otherwise the note is
    appended to the current session, and to its list entry only when the
    two are shared.
   */
  function AddNote(r: Repository, note: Note): (res: Result<Repository, RepositoryError>)
    ensures res.Err? <==> r.current.None?
    ensures res.Err? ==> res.error == NoActiveSession
    ensures res.Ok? ==> res.value.current == Some(Sessions.AddNote(r.current.value, note))
    ensures res.Ok? ==> res.value.sessions == if r.shared then ReplaceById(r.sessions, res.value.current.value) else r.sessions
    ensures res.Ok? ==> res.value.shared == r.shared
  {
    if r.current.None? then Err(NoActiveSession)
    else
      var noted := Sessions.AddNote(r.current.value, note);
      var sessions := if r.shared then ReplaceById(r.sessions, noted) else r.sessions;
      Ok(Repository(sessions, Some(noted), r.shared))
  }

  /** Adding a note keeps the invariant and touches no session with another id. */
  lemma AddNoteKeepsValid(r: Repository, note: Note)
    requires Valid(r)
    ensures AddNote(r, note).Ok? ==> Valid(AddNote(r, note).value)
    ensures AddNote(r, note).Ok? ==>
              var r' := AddNote(r, note).value;
              forall i :: 0 <= i < |r.sessions| && r.sessions[i].id != r.current.value.id ==>
                r'.sessions[i] == r.sessions[i]
  {
    if r.current.Some? {
      var c := r.current.value;
      var noted := Sessions.AddNote(c, note);
      var ss := ReplaceById(r.sessions, noted);
      var k :| 0 <= k < |r.sessions| && r.sessions[k] == c;
      assert ss[k] == noted;
    }
  }

  /**
    `initialize` on a fresh service, given the records read back from the
    two storage keys. Each is decoded by its own `fromJSON`, so the current
    session is a copy of its list entry and shares nothing with it: a
    reloaded open session breaks the invariant.
   */
  function Initialize(stored: seq<Session>, storedCurrent: Option<Session>): (r: Repository)
    ensures r.sessions == stored && r.current == storedCurrent
    ensures !r.shared
    ensures HasOpenCurrent(r) ==> !Valid(r)
  {
    Repository(stored, storedCurrent, false)
  }

  /**
    As written: after a reload with an open session, ending it closes only
    the copy, so the list keeps it open, and a new session can then start
    beside it, leaving two open entries.
   */
  lemma ReloadThenEndLeavesOpenEntry(id1: string, t1: int, clicks: int, upm: real, m: SmoothnessMetrics, t2: int, id2: string, t3: int)
    ensures var r0 := StartNewSession(Empty, id1, t1).value;
      var r1 := Initialize(r0.sessions, r0.current);
      var r2 := EndCurrentSession(r1, clicks, upm, m, t2).repository;
      var r3 := StartNewSession(r2, id2, t3);
      && Valid(r0) && !Valid(r1)
      && !IsComplete(r2.sessions[0])
      && r3.Ok? && |r3.value.sessions| == 2
      && !IsComplete(r3.value.sessions[0]) && !IsComplete(r3.value.sessions[1])
  {
  }

  /**
    Corrected: `initialize` makes the current session the very list entry
    that carries its id, as a session started in this process is.
   */
  function InitializeSharing(stored: seq<Session>, storedCurrent: Option<Session>): (r: Repository)
    ensures r.sessions == stored && r.current == storedCurrent
    ensures r.shared <==> storedCurrent.Some? && storedCurrent.value in stored
  {
    Repository(stored, storedCurrent, storedCurrent.Some? && storedCurrent.value in stored)
  }

  /** With the corrected reload, whatever a valid service persisted loads back valid. */
  lemma ReloadKeepsValid(r: Repository)
    requires Valid(r)
    ensures Valid(InitializeSharing(r.sessions, r.current))
  {
  }

  /**
    Corrected: after a reload with an open session, ending it closes its
    list entry too, and the next session is the only open one.
   */
  lemma ReloadThenEndClosesEntry(id1: string, t1: int, clicks: int, upm: real, m: SmoothnessMetrics, t2: int, id2: string, t3: int)
    ensures var r0 := StartNewSession(Empty, id1, t1).value;
      var r1 := InitializeSharing(r0.sessions, r0.current);
      var r2 := EndCurrentSession(r1, clicks, upm, m, t2).repository;
      var r3 := StartNewSession(r2, id2, t3);
      && Valid(r1)
      && IsComplete(r2.sessions[0])
      && r3.Ok? && |r3.value.sessions| == 2
      && IsComplete(r3.value.sessions[0]) && !IsComplete(r3.value.sessions[1])
  {
  }

  predicate SortedByStartDesc(ss: seq<Session>) {
    forall i, j :: 0 <= i < j < |ss| ==> ss[i].startTime >= ss[j].startTime
  }

  /** Inserts `x` into a list sorted most recent first, ahead of entries that started no later. */
  function InsertByStartDesc(x: Session, ss: seq<Session>): (r: seq<Session>)
    requires SortedByStartDesc(ss)
    ensures SortedByStartDesc(r)
    ensures multiset(r) == multiset(ss) + multiset{x}
    ensures |r| > 0 && (r[0] == x || (|ss| > 0 && r[0] == ss[0]))
  {
    if |ss| == 0 then [x]
    else if ss[0].startTime <= x.startTime then [x] + ss
    else
      var rest := InsertByStartDesc(x, ss[1..]);
      assert rest[0].startTime <= ss[0].startTime;
      assert ss == [ss[0]] + ss[1..];
      assert multiset(ss) == multiset{ss[0]} + multiset(ss[1..]);
      var r := [ss[0]] + rest;
      assert forall j :: 0 < j < |r| ==> r[j] == rest[j - 1];
      r
  }

  /** Sorts most recent first. */
  function SortByStartDesc(ss: seq<Session>): (r: seq<Session>)
    ensures SortedByStartDesc(r)
    ensures multiset(r) == multiset(ss)
  {
    if |ss| == 0 then []
    else
      assert ss == [ss[0]] + ss[1..];
      InsertByStartDesc(ss[0], SortByStartDesc(ss[1..]))
  }

  /** `getAllSessions`: every stored session, most recent start first; the store is left as it was. */
  function GetAllSessions(r: Repository): (all: seq<Session>)
    ensures multiset(all) == multiset(r.sessions)
    ensures |all| == |r.sessions|
    ensures SortedByStartDesc(all)
  {
    var sorted := SortByStartDesc(r.sessions);
    assert |sorted| == |multiset(sorted)| == |multiset(r.sessions)| == |r.sessions|;
    sorted
  }
}
