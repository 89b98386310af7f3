/** The live ride recorder (src/services/LocationTracking.js): module-level
    state driven by batches of GPS fixes, a one-second timer tick, and manual
    pause and resume. Time is passed in as `now` (milliseconds); the great-circle
    distance between two fixes is the function parameter `dist` (kilometres).
    The callbacks become an event log: a snapshot or pause change is appended
    to `events` exactly when the source would call the registered callback. */
module LocationTracking {
  import opened Common

  /** A stored fix: `{ latitude, longitude, timestamp }`. */
  datatype Point = Point(latitude: real, longitude: real, timestamp: int)

  /** A call of the update callback, or of the pause-change callback. */
  datatype Event = Snapshot(distanceKm: real, durationSec: real, path: seq<Point>) | PauseChanged(paused: bool)

  /** The module's variables: `isPaused`, `pausedTime`, `pauseStartTime`,
      `lastMovementTime`, `currentRideData` (distance, startTime, locations),
      whether `timerInterval` is set, whether `updateCallback` and
      `onPauseChangeCallback` are set, and the callbacks' calls so far. */
  datatype Session = Session(
    paused: bool,
    pausedMs: int,
    pauseStart: Option<int>,
    lastMovement: Option<int>,
    distance: real,
    startTime: Option<int>,
    path: seq<Point>,
    timerOn: bool,
    onUpdate: bool,
    onPauseChange: bool,
    events: seq<Event>)

  /** The state when the module is loaded. */
  const Idle := Session(false, 0, None, None, 0.0, None, [], false, false, false, [])

  /** `{ distance, duration, locations }` returned by `stopTracking`. */
  datatype StopResult = StopResult(distanceKm: real, durationMin: int, locations: seq<Point>)

  /** A move larger than this (10 m) while paused resumes the ride. */
  const AutoResumeKm: real := 0.01

  /** Longer than this without movement pauses the ride at the next tick. */
  const AutoPauseMs: int := 10000

  /** `isPaused` and `pauseStartTime` are set and cleared together. */
  predicate Coherent(s: Session) {
    s.paused <==> s.pauseStart.Some?
  }

  function NotifyPause(s: Session, paused: bool): Session {
    if s.onPauseChange then s.(events := s.events + [PauseChanged(paused)]) else s
  }

  /** `pauseTracking()`: a running ride becomes paused from `now`, and the
      pause callback hears of it; a paused ride is left alone. The ride data
      is untouched either way. */
  function Pause(s: Session, now: int): (r: Session)
    ensures r.paused
    ensures s.paused ==> r == s
    ensures !s.paused ==>
      && r.pauseStart == Some(now) && r.pausedMs == s.pausedMs
      && r.events == (if s.onPauseChange then s.events + [PauseChanged(true)] else s.events)
    ensures r.distance == s.distance && r.path == s.path && r.startTime == s.startTime && r.timerOn == s.timerOn
  {
    if !s.paused then NotifyPause(s.(paused := true, pauseStart := Some(now)), true) else s
  }

  /** `resumeTracking()`: a paused ride runs again, with the open pause moved
      into the paused total, so the paused time so far is the same at `now`;
      the pause callback hears of it. A running ride is left alone. */
  function Resume(s: Session, now: int): (r: Session)
    ensures Coherent(s) ==> !r.paused && r.pauseStart.None?
    ensures PausedSoFar(r, now) == PausedSoFar(s, now)
    ensures !s.paused ==> r == s
    ensures s.paused && s.pauseStart.Some? ==>
      r.events == (if s.onPauseChange then s.events + [PauseChanged(false)] else s.events)
    ensures r.distance == s.distance && r.path == s.path && r.startTime == s.startTime && r.timerOn == s.timerOn
  {
    if s.paused && s.pauseStart.Some? then
      NotifyPause(s.(pausedMs := s.pausedMs + (now - s.pauseStart.value), pauseStart := None, paused := false), false)
    else s
  }

  /** Paused milliseconds so far, the open pause included. */
  function PausedSoFar(s: Session, now: int): int {
    s.pausedMs + (if s.paused && s.pauseStart.Some? then now - s.pauseStart.value else 0)
  }

  /** The milliseconds a snapshot reports: wall clock since the start, minus
      paused time. */
  function ActiveMs(s: Session, now: int): int
    requires s.startTime.Some?
  {
    (now - s.startTime.value) - PausedSoFar(s, now)
  }

  /** `emitUpdate()`: with a subscriber and a ride, one snapshot of the
      distance, the active seconds and the path is appended; nothing else
      changes. */
  function Emit(s: Session, now: int): (r: Session)
    ensures r.(events := s.events) == s
    ensures s.onUpdate && s.startTime.Some? ==>
      r.events == s.events + [Snapshot(s.distance, ActiveMs(s, now) as real / 1000.0, s.path)]
    ensures !(s.onUpdate && s.startTime.Some?) ==> r == s
  {
    if s.onUpdate && s.startTime.Some? then
      s.(events := s.events + [Snapshot(s.distance, ActiveMs(s, now) as real / 1000.0, s.path)])
    else s
  }

  /** One fix of `handleNewLocations`: measured against the last stored fix; a
      large move resumes a paused ride; while not paused a positive move adds
      to the distance and stamps `lastMovementTime`; the fix is stored anyway. */
  function Absorb(s: Session, p: Point, now: int, dist: (Point, Point) -> real): (r: Session)
    ensures r.path == s.path + [p]
    ensures r.distance >= s.distance
    ensures r.distance > s.distance ==> !r.paused && r.lastMovement == Some(now)
    ensures r.paused ==> s.paused
    ensures r.startTime == s.startTime && r.timerOn == s.timerOn && r.onUpdate == s.onUpdate
  {
    var moved :=
      if |s.path| == 0 then s
      else
        var d := dist(s.path[|s.path| - 1], p);
        var s1 := if s.paused && d > AutoResumeKm then Resume(s, now) else s;
        if !s1.paused && d > 0.0 then s1.(distance := s1.distance + d, lastMovement := Some(now)) else s1;
    moved.(path := moved.path + [p])
  }

  /** The fixes of a batch absorbed in order. */
  function AbsorbAll(s: Session, batch: seq<Point>, now: int, dist: (Point, Point) -> real): (r: Session)
    ensures |r.path| == |s.path| + |batch|
    ensures r.distance >= s.distance
    ensures r.paused ==> s.paused
    ensures r.startTime == s.startTime && r.timerOn == s.timerOn && r.onUpdate == s.onUpdate
    decreases |batch|
  {
    if batch == [] then s
    else Absorb(AbsorbAll(s, batch[..|batch| - 1], now, dist), batch[|batch| - 1], now, dist)
  }

  /** `handleNewLocations(batch)`: ignored when no ride is active. */
  function HandleBatch(s: Session, batch: seq<Point>, now: int, dist: (Point, Point) -> real): (r: Session)
    ensures s.startTime.None? ==> r == s
    ensures s.startTime.Some? ==>
      && r.path == s.path + batch && r.distance >= s.distance && r.startTime == s.startTime
      && (s.onUpdate ==>
            |r.events| > 0 && r.events[|r.events| - 1] == Snapshot(r.distance, ActiveMs(r, now) as real / 1000.0, r.path))
  {
    if s.startTime.None? then s
    else
      AbsorbAllPath(s, batch, now, dist);
      AbsorbAllKeeps(s, batch, now, dist);
      Emit(AbsorbAll(s, batch, now, dist), now)
  }

  /** One run of the one-second interval: auto-pause after inactivity, then a
      snapshot. A cleared interval does not run. */
  function Tick(s: Session, now: int): (r: Session)
    ensures !s.timerOn ==> r == s
    ensures r.path == s.path && r.distance == s.distance && r.startTime == s.startTime
    ensures s.timerOn && !s.paused && s.startTime.Some? && s.lastMovement.Some? && now - s.lastMovement.value > AutoPauseMs
      ==> r.paused && r.pauseStart == Some(now)
    ensures !(s.timerOn && !s.paused && s.startTime.Some? && s.lastMovement.Some? && now - s.lastMovement.value > AutoPauseMs)
      ==> r.paused == s.paused && r.pauseStart == s.pauseStart && r.pausedMs == s.pausedMs
    ensures s.timerOn && s.onUpdate && s.startTime.Some? ==>
      |r.events| > 0 && r.events[|r.events| - 1] == Snapshot(r.distance, ActiveMs(r, now) as real / 1000.0, r.path)
  {
    if !s.timerOn then s
    else
      var s1 :=
        if !s.paused && s.startTime.Some? && s.lastMovement.Some? && now - s.lastMovement.value > AutoPauseMs
        then Pause(s, now) else s;
      Emit(s1, now)
  }

  /** `startTracking(callback)`: a fresh `currentRideData`, the movement clock
      set to now, the callback registered and the interval (re)started. The
      pause fields and the pause callback are kept. */
  function Start(s: Session, now: int, subscribe: bool): (r: Session)
    ensures r.startTime == Some(now) && r.distance == 0.0 && r.path == [] && r.lastMovement == Some(now)
    ensures r.timerOn && r.onUpdate == subscribe
    ensures r.paused == s.paused && r.pausedMs == s.pausedMs && r.pauseStart == s.pauseStart
    ensures r.onPauseChange == s.onPauseChange && r.events == s.events
  {
    s.(distance := 0.0, startTime := Some(now), path := [], lastMovement := Some(now), onUpdate := subscribe, timerOn := true)
  }

  /** `toFixed(2)` then `parseFloat`, for a non-negative distance: a whole
      number of hundredths, within half a hundredth of the input. */
  function Round2(km: real): (r: real)
    ensures km - 0.005 < r <= km + 0.005
    ensures (r * 100.0).Floor as real == r * 100.0
  {
    Round(km * 100.0) as real / 100.0
  }

  /** What `stopTracking` returns: the rounded distance and the wall-clock
      minutes since the start (`now - null` counts from 0). */
  function StopReport(s: Session, now: int): (r: StopResult)
    ensures r.locations == s.path
    ensures s.distance - 0.005 < r.distanceKm <= s.distance + 0.005
    ensures var elapsed := (now - s.startTime.GetOr(0)) as real;
      r.durationMin as real * 60000.0 - 30000.0 <= elapsed < r.durationMin as real * 60000.0 + 30000.0
  {
    StopResult(Round2(s.distance), Round((now - s.startTime.GetOr(0)) as real / 60000.0), s.path)
  }

  /** The state `stopTracking` leaves: no ride, no interval, no callbacks. */
  function AfterStop(s: Session): (r: Session)
    ensures r.startTime.None? && !r.timerOn && !r.onUpdate && !r.onPauseChange
    ensures r.path == [] && r.distance == 0.0
    ensures r.paused == s.paused && r.pausedMs == s.pausedMs && r.pauseStart == s.pauseStart
    ensures r.lastMovement == s.lastMovement && r.events == s.events
  {
    s.(distance := 0.0, startTime := None, path := [], timerOn := false, onUpdate := false, onPauseChange := false)
  }

  // ---------------------------------------------------------------------------
  // Properties of the state machine

  lemma {:induction false} AbsorbAllPath(s: Session, batch: seq<Point>, now: int, dist: (Point, Point) -> real)
    ensures AbsorbAll(s, batch, now, dist).path == s.path + batch
    decreases |batch|
  {
    if batch != [] {
      var init := batch[..|batch| - 1];
      AbsorbAllPath(s, init, now, dist);
      assert init + [batch[|batch| - 1]] == batch;
    }
  }

  /** A batch never lowers the distance, and leaves the start time, the
      interval and the callbacks as they were. */
  lemma {:induction false} AbsorbAllKeeps(s: Session, batch: seq<Point>, now: int, dist: (Point, Point) -> real)
    ensures var r := AbsorbAll(s, batch, now, dist);
      && r.distance >= s.distance
      && r.startTime == s.startTime && r.timerOn == s.timerOn
      && r.onUpdate == s.onUpdate && r.onPauseChange == s.onPauseChange
      && (Coherent(s) ==> Coherent(r))
    decreases |batch|
  {
    if batch != [] {
      AbsorbAllKeeps(s, batch[..|batch| - 1], now, dist);
    }
  }

  /** The fix stored before `batch[i]`: the previous fix of the batch, or the
      last fix of the path the batch arrives on. */
  function Before(path: seq<Point>, batch: seq<Point>, i: nat): Option<Point>
    requires i < |batch|
  {
    if i > 0 then Some(batch[i - 1]) else if |path| > 0 then Some(path[|path| - 1]) else None
  }

  /** No fix of the batch is more than 10 m from the fix before it. */
  predicate Quiet(path: seq<Point>, batch: seq<Point>, dist: (Point, Point) -> real) {
    forall i :: 0 <= i < |batch| && Before(path, batch, i).Some? ==>
      dist(Before(path, batch, i).value, batch[i]) <= AutoResumeKm
  }

  /** A prefix of a quiet batch is quiet. */
  lemma QuietPrefix(path: seq<Point>, batch: seq<Point>, dist: (Point, Point) -> real, n: nat)
    requires Quiet(path, batch, dist) && n <= |batch|
    ensures Quiet(path, batch[..n], dist)
  {
    var init := batch[..n];
    forall i | 0 <= i < |init| && Before(path, init, i).Some?
      ensures dist(Before(path, init, i).value, init[i]) <= AutoResumeKm
    {
      assert Before(path, init, i) == Before(path, batch, i);
    }
  }

  /** A fix within 10 m of the last stored one leaves a paused ride paused,
      with its distance and pause fields as they were. */
  lemma QuietFixWhilePaused(s: Session, p: Point, now: int, dist: (Point, Point) -> real)
    requires s.paused && Coherent(s)
    requires |s.path| > 0 ==> dist(s.path[|s.path| - 1], p) <= AutoResumeKm
    ensures var r := Absorb(s, p, now, dist);
      && r.distance == s.distance && r.paused && r.pauseStart == s.pauseStart && r.pausedMs == s.pausedMs
  {
  }

  /** While paused, a batch without a move over 10 m adds no distance and
      leaves the ride paused; its fixes are still stored. */
  lemma {:induction false} QuietBatchWhilePausedAddsNothing(s: Session, batch: seq<Point>, now: int, dist: (Point, Point) -> real)
    requires s.paused && Coherent(s) && Quiet(s.path, batch, dist)
    ensures var r := AbsorbAll(s, batch, now, dist);
      && r.distance == s.distance && r.paused && r.pauseStart == s.pauseStart && r.pausedMs == s.pausedMs
      && r.path == s.path + batch
    decreases |batch|
  {
    AbsorbAllPath(s, batch, now, dist);
    if batch != [] {
      var n := |batch| - 1;
      var init := batch[..n];
      QuietPrefix(s.path, batch, dist, n);
      QuietBatchWhilePausedAddsNothing(s, init, now, dist);
      AbsorbAllPath(s, init, now, dist);
      var m := AbsorbAll(s, init, now, dist);
      assert AbsorbAll(s, batch, now, dist) == Absorb(m, batch[n], now, dist);
      if n > 0 {
        assert m.path[|m.path| - 1] == init[n - 1] == batch[n - 1];
      } else if |s.path| > 0 {
        assert m.path == s.path;
      }
      QuietFixWhilePaused(m, batch[n], now, dist);
    }
  }

  /** The first fix of a ride is stored and adds no distance. */
  lemma FirstFixAddsNothing(s: Session, p: Point, now: int, dist: (Point, Point) -> real)
    requires s.path == []
    ensures Absorb(s, p, now, dist).distance == s.distance
    ensures Absorb(s, p, now, dist).path == [p]
  {
  }

  /** Distance only grows by the measured move, and only when the ride is
      running afterwards; that move also stamps `lastMovementTime`. */
  lemma MoveCountsOnlyWhileRunning(s: Session, p: Point, now: int, dist: (Point, Point) -> real)
    requires |s.path| > 0
    ensures var r := Absorb(s, p, now, dist);
      var d := dist(s.path[|s.path| - 1], p);
      && (r.distance == s.distance || (r.distance == s.distance + d && d > 0.0 && !r.paused && r.lastMovement == Some(now)))
      && (!s.paused && d > 0.0 ==> r.distance == s.distance + d)
  {
  }

  /** A move over 10 m while paused resumes the ride, closes the pause, and
      that same move is counted. */
  lemma AutoResumeCountsTheMove(s: Session, p: Point, now: int, dist: (Point, Point) -> real)
    requires s.paused && Coherent(s) && |s.path| > 0
    requires dist(s.path[|s.path| - 1], p) > AutoResumeKm
    ensures var r := Absorb(s, p, now, dist);
      && !r.paused && r.pauseStart.None?
      && r.pausedMs == s.pausedMs + (now - s.pauseStart.value)
      && r.distance == s.distance + dist(s.path[|s.path| - 1], p)
      && r.lastMovement == Some(now)
  {
  }

  /** Fixes that arrive when no ride is active change nothing, also after a stop. */
  lemma InactiveBatchIgnored(s: Session, batch: seq<Point>, now: int, dist: (Point, Point) -> real)
    ensures s.startTime.None? ==> HandleBatch(s, batch, now, dist) == s
    ensures HandleBatch(AfterStop(s), batch, now, dist) == AfterStop(s)
  {
  }

  /** A batch on an active ride stores every fix in order. */
  lemma ActiveBatchStoresEveryFix(s: Session, batch: seq<Point>, now: int, dist: (Point, Point) -> real)
    requires s.startTime.Some?
    ensures HandleBatch(s, batch, now, dist).path == s.path + batch
    ensures HandleBatch(s, batch, now, dist).distance >= s.distance
  {
    AbsorbAllPath(s, batch, now, dist);
    AbsorbAllKeeps(s, batch, now, dist);
  }

  /** Pausing twice is pausing once: only the first call stamps the pause
      and notifies. */
  lemma PauseIdempotent(s: Session, t1: int, t2: int)
    ensures Pause(Pause(s, t1), t2) == Pause(s, t1)
    ensures !s.paused ==> Pause(s, t1).pauseStart == Some(t1) && Pause(s, t1).paused
    ensures s.paused ==> Pause(s, t1) == s
  {
  }

  /** Resuming adds exactly the pause's length to the paused time; it is a
      no-op on a running ride. */
  lemma ResumeAddsPauseLength(s: Session, now: int)
    requires Coherent(s)
    ensures !s.paused ==> Resume(s, now) == s
    ensures s.paused ==>
      var r := Resume(s, now);
      !r.paused && r.pauseStart.None? && r.pausedMs == s.pausedMs + (now - s.pauseStart.value)
  {
  }

  /** While paused, the reported duration does not grow. */
  lemma PausedDurationFrozen(s: Session, t1: int, t2: int)
    requires s.startTime.Some? && s.paused && Coherent(s)
    ensures ActiveMs(s, t1) == ActiveMs(s, t2)
  {
  }

  /** A pause from `t1` to `t2` removes exactly `t2 - t1` from the reported
      duration at any later time. */
  lemma PauseIntervalExcluded(s: Session, t1: int, t2: int, t: int)
    requires s.startTime.Some? && !s.paused && Coherent(s)
    ensures ActiveMs(Resume(Pause(s, t1), t2), t) == ActiveMs(s, t) - (t2 - t1)
  {
  }

  /** Pausing or resuming does not make the reported duration jump. */
  lemma PauseResumeContinuous(s: Session, t: int)
    requires s.startTime.Some? && Coherent(s)
    ensures ActiveMs(Pause(s, t), t) == ActiveMs(s, t)
    ensures ActiveMs(Resume(s, t), t) == ActiveMs(s, t)
  {
  }

  /** The tick pauses a running ride more than 10 s after the last movement,
      and leaves it running otherwise. */
  lemma TickAutoPause(s: Session, now: int)
    requires s.timerOn && !s.paused && s.startTime.Some? && s.lastMovement.Some?
    ensures now - s.lastMovement.value > AutoPauseMs ==> Tick(s, now).paused && Tick(s, now).pauseStart == Some(now)
    ensures now - s.lastMovement.value <= AutoPauseMs ==> !Tick(s, now).paused && Tick(s, now).pausedMs == s.pausedMs
  {
  }

  /** Every transition keeps `isPaused` and `pauseStartTime` together. */
  lemma TransitionsStayCoherent(s: Session, now: int, subscribe: bool, batch: seq<Point>, dist: (Point, Point) -> real)
    requires Coherent(s)
    ensures Coherent(Pause(s, now)) && Coherent(Resume(s, now)) && Coherent(Tick(s, now))
    ensures Coherent(Start(s, now, subscribe)) && Coherent(AfterStop(s)) && Coherent(Emit(s, now))
    ensures Coherent(HandleBatch(s, batch, now, dist))
  {
    AbsorbAllKeeps(s, batch, now, dist);
  }

  /** `stopTracking` reports wall-clock minutes: the active time plus the
      time spent paused, rounded; so the report is never below the active
      minutes while the paused total is not negative. */
  lemma StopCountsPausedTime(s: Session, now: int)
    requires s.startTime.Some?
    ensures StopReport(s, now).durationMin == Round((ActiveMs(s, now) + PausedSoFar(s, now)) as real / 60000.0)
    ensures PausedSoFar(s, now) >= 0 ==> StopReport(s, now).durationMin >= Round(ActiveMs(s, now) as real / 60000.0)
    ensures StopReport(s, now).distanceKm == Round2(s.distance) && StopReport(s, now).locations == s.path
  {
    var a := ActiveMs(s, now) as real / 60000.0;
    var w := (ActiveMs(s, now) + PausedSoFar(s, now)) as real / 60000.0;
    assert (now - s.startTime.value) as real / 60000.0 == w;
    if PausedSoFar(s, now) >= 0 {
      assert a <= w;
      assert (a + 0.5).Floor <= (w + 0.5).Floor;
    }
  }

  /** A ride started at 0, paused after one minute and stopped at ten
      minutes reports 10 minutes, though its snapshots stopped at 60 s. */
  lemma StopTenMinutesPausedAfterOne()
    ensures var s := Pause(Start(Idle, 0, true), 60000);
      && ActiveMs(s, 600000) == 60000
      && StopReport(s, 600000).durationMin == 10
  {
  }

  /** Once stopped, nothing runs: a late batch and a tick leave the state
      as it is. */
  lemma StoppedRideIgnoresUpdates(s: Session, batch: seq<Point>, now: int, dist: (Point, Point) -> real)
    ensures HandleBatch(AfterStop(s), batch, now, dist) == AfterStop(s)
    ensures Tick(AfterStop(s), now) == AfterStop(s)
  {
  }

  /** `startTracking` keeps the pause fields: a ride stopped while paused
      starts the next ride paused, with the old paused time, so its first
      snapshot reports a negative duration. */
  lemma RestartInheritsPause(s: Session, t: int, subscribe: bool)
    requires s.paused && Coherent(s) && s.pausedMs >= 0 && t > s.pauseStart.value
    ensures var n := Start(AfterStop(s), t, subscribe);
      && n.paused && n.pausedMs == s.pausedMs && n.pauseStart == s.pauseStart
      && ActiveMs(n, t) < 0
  {
  }

  /** The recorder as the module holds it. Each method states its new state
      as the corresponding transition of the old one. */
  class Tracker {
    var isPaused: bool
    var pausedTime: int
    var pauseStartTime: Option<int>
    var lastMovementTime: Option<int>
    var distance: real
    var startTime: Option<int>
    var locations: seq<Point>
    var timerOn: bool
    var updateSubscribed: bool
    var pauseSubscribed: bool
    var events: seq<Event>

    function State(): Session
      reads this
    {
      Session(isPaused, pausedTime, pauseStartTime, lastMovementTime, distance, startTime, locations,
              timerOn, updateSubscribed, pauseSubscribed, events)
    }

    constructor ()
      ensures State() == Idle
    {
      isPaused, pausedTime, pauseStartTime, lastMovementTime := false, 0, None, None;
      distance, startTime, locations := 0.0, None, [];
      timerOn, updateSubscribed, pauseSubscribed, events := false, false, false, [];
    }

    /** `setOnPauseChange(callback)`. */
    method SetOnPauseChange(subscribe: bool)
      modifies this
      ensures State() == old(State()).(onPauseChange := subscribe)
    {
      pauseSubscribed := subscribe;
    }

    method NotifyPauseChange(paused: bool)
      modifies this
      ensures State() == NotifyPause(old(State()), paused)
    {
      if pauseSubscribed {
        events := events + [PauseChanged(paused)];
      }
    }

    /** `pauseTracking()`. */
    method PauseTracking(now: int)
      modifies this
      ensures State() == Pause(old(State()), now)
    {
      if !isPaused {
        isPaused := true;
        pauseStartTime := Some(now);
        NotifyPauseChange(true);
      }
    }

    /** `resumeTracking()`. */
    method ResumeTracking(now: int)
      modifies this
      ensures State() == Resume(old(State()), now)
    {
      if isPaused && pauseStartTime.Some? {
        pausedTime := pausedTime + (now - pauseStartTime.value);
        pauseStartTime := None;
        isPaused := false;
        NotifyPauseChange(false);
      }
    }

    /** `emitUpdate()`. */
    method EmitUpdate(now: int)
      modifies this
      ensures State() == Emit(old(State()), now)
    {
      if updateSubscribed && startTime.Some? {
        var totalPausedTime := pausedTime;
        if isPaused && pauseStartTime.Some? {
          totalPausedTime := totalPausedTime + (now - pauseStartTime.value);
        }
        var duration := ((now - startTime.value) - totalPausedTime) as real / 1000.0;
        events := events + [Snapshot(distance, duration, locations)];
      }
    }

    /** The body of `handleNewLocations`'s loop, for one fix. */
    method AbsorbFix(loc: Point, now: int, dist: (Point, Point) -> real)
      modifies this
      ensures State() == Absorb(old(State()), loc, now, dist)
    {
      if |locations| > 0 {
        var lastLoc := locations[|locations| - 1];
        var d := dist(lastLoc, loc);
        if isPaused && d > AutoResumeKm {
          ResumeTracking(now);
        }
        if !isPaused {
          if d > 0.0 {
            distance := distance + d;
            lastMovementTime := Some(now);
          }
        }
      }
      locations := locations + [loc];
    }

    /** `handleNewLocations(batch)`. */
    method HandleNewLocations(batch: seq<Point>, now: int, dist: (Point, Point) -> real)
      modifies this
      ensures State() == HandleBatch(old(State()), batch, now, dist)
    {
      if startTime.None? {
        return;
      }
      ghost var s0 := State();
      for i := 0 to |batch|
        invariant State() == AbsorbAll(s0, batch[..i], now, dist)
      {
        AbsorbFix(batch[i], now, dist);
        assert batch[..i + 1][..i] == batch[..i];
      }
      assert batch[..|batch|] == batch;
      EmitUpdate(now);
    }

    /** One run of the interval started by `startTracking`. */
    method TimerTick(now: int)
      modifies this
      ensures State() == Tick(old(State()), now)
    {
      if !timerOn {
        return;
      }
      if !isPaused && startTime.Some? && lastMovementTime.Some? {
        var timeSinceLastMove := now - lastMovementTime.value;
        if timeSinceLastMove > AutoPauseMs {
          PauseTracking(now);
        }
      }
      EmitUpdate(now);
    }

    /** `startTracking(callback)`. The state is reset and the interval started
        before permissions are asked, so a refusal (the thrown error, `ok` false)
        leaves the ride started. */
    method StartTracking(now: int, subscribe: bool, permissionGranted: bool) returns (ok: bool)
      modifies this
      ensures State() == Start(old(State()), now, subscribe)
      ensures ok == permissionGranted
    {
      distance, startTime, locations := 0.0, Some(now), [];
      lastMovementTime := Some(now);
      updateSubscribed := subscribe;
      timerOn := true;
      ok := permissionGranted;
    }

    /** `stopTracking()`. */
    method StopTracking(now: int) returns (result: StopResult)
      modifies this
      ensures result == StopReport(old(State()), now)
      ensures State() == AfterStop(old(State()))
    {
      timerOn := false;
      var endTime := now;
      var durationMin := Round((endTime - startTime.GetOr(0)) as real / 60000.0);
      var distanceKm := Round2(distance);
      result := StopResult(distanceKm, durationMin, locations);
      distance, startTime, locations := 0.0, None, [];
      updateSubscribed := false;
      pauseSubscribed := false;
    }

    /** `getCurrentStats()`: zeros without a ride; otherwise the distance and
        the wall-clock seconds since the start, paused time included. */
    method GetCurrentStats(now: int) returns (km: real, seconds: real)
      ensures startTime.None? ==> km == 0.0 && seconds == 0.0
      ensures startTime.Some? ==> km == distance && seconds == (now - startTime.value) as real / 1000.0
      ensures startTime.Some? ==> seconds * 1000.0 == (ActiveMs(State(), now) + PausedSoFar(State(), now)) as real
    {
      if startTime.None? {
        return 0.0, 0.0;
      }
      km := distance;
      seconds := (now - startTime.value) as real / 1000.0;
    }
  }
}
