/**
 * The race stopwatch of an event: the `EventStopwatch` record the hub mutates
 * in place, its value view, and the transitions the hub's stopwatch operations
 * apply to it.
 */
module Stopwatch {
  import opened Common

  /** The contents of an `EventStopwatch` at one moment; timestamps are integer milliseconds. */
  datatype StopwatchView = StopwatchView(
    id: Guid,
    eventCode: string,
    leaderboardName: string,
    name: string,
    addedAt: int,
    startedAt: Option<int>,
    laps: seq<int>,
    stoppedAt: Option<int>)
  {
    /** Laps are only ever recorded on a started stopwatch. */
    predicate WellFormed() {
      |laps| > 0 ==> startedAt.Some?
    }
  }

  datatype Phase = NotStarted | Running | Finished

  /** The phase is decided by the presence of the start and stop timestamps alone. */
  function PhaseOf(v: StopwatchView): (p: Phase)
    ensures p == Running <==> v.startedAt.Some? && v.stoppedAt.None?
    ensures p == NotStarted <==> v.startedAt.None? && v.stoppedAt.None?
    ensures p == Finished <==> v.stoppedAt.Some?
  {
    if v.stoppedAt.Some? then Finished
    else if v.startedAt.Some? then Running
    else NotStarted
  }

  /** A stopwatch as `AddStopwatch` creates it: no start, no laps, no stop. */
  function Created(id: Guid, eventCode: string, leaderboardName: string, name: string, now: int): (v: StopwatchView)
    ensures PhaseOf(v) == NotStarted && v.laps == []
    ensures v.id == id && v.eventCode == eventCode && v.addedAt == now
    ensures v.leaderboardName == leaderboardName && v.name == name
  {
    StopwatchView(id, eventCode, leaderboardName, name, now, None, [], None)
  }

  /** `StartStopwatch` and one step of `StartAllStopwatches`: only a stopwatch with neither start nor stop starts. */
  function Started(v: StopwatchView, now: int): (r: StopwatchView)
    ensures PhaseOf(v) == NotStarted ==> PhaseOf(r) == Running && r.startedAt == Some(now)
    ensures PhaseOf(v) != NotStarted ==> r == v
    ensures r.laps == v.laps
    ensures r.(startedAt := v.startedAt, stoppedAt := v.stoppedAt) == v
  {
    if v.startedAt.None? && v.stoppedAt.None? then v.(startedAt := Some(now), stoppedAt := None) else v
  }

  /** `RestartStopwatch`: whatever the phase, start now, with no stop and no laps. */
  function Restarted(v: StopwatchView, now: int): (r: StopwatchView)
    ensures PhaseOf(r) == Running && r.startedAt == Some(now) && r.laps == []
    ensures r.(startedAt := v.startedAt, stoppedAt := v.stoppedAt, laps := v.laps) == v
  {
    v.(startedAt := Some(now), stoppedAt := None, laps := [])
  }

  /**
   * `LapStopwatch`: a running stopwatch records one more lap at `now`, and stops
   * at that same instant when the lap count reaches the event's required count.
   */
  function Lapped(v: StopwatchView, now: int, requiredLaps: nat): (r: StopwatchView)
    ensures PhaseOf(v) != Running ==> r == v
    ensures PhaseOf(v) == Running ==>
      && r.laps == v.laps + [now]
      && r.startedAt == v.startedAt
      && (r.stoppedAt == if |r.laps| == requiredLaps then Some(now) else None)
    ensures r.(laps := v.laps, stoppedAt := v.stoppedAt) == v
  {
    if v.startedAt.Some? && v.stoppedAt.None? then
      var laps := v.laps + [now];
      v.(laps := laps, stoppedAt := if |laps| == requiredLaps then Some(now) else None)
    else v
  }

  /** `StopStopwatch`: whatever the phase, the stop time becomes `now`. */
  function Stopped(v: StopwatchView, now: int): (r: StopwatchView)
    ensures PhaseOf(r) == Finished && r.stoppedAt == Some(now)
    ensures r.(stoppedAt := v.stoppedAt) == v
  {
    v.(stoppedAt := Some(now))
  }

  /** The transitions above keep laps confined to started stopwatches. */
  lemma TransitionsKeepWellFormed(v: StopwatchView, now: int, requiredLaps: nat)
    requires v.WellFormed()
    ensures Started(v, now).WellFormed() && Restarted(v, now).WellFormed()
    ensures Lapped(v, now, requiredLaps).WellFormed() && Stopped(v, now).WellFormed()
  {
  }

  // ---------------------------------------------------------------------------
  // Runs of operations on one stopwatch
  // ---------------------------------------------------------------------------

  /** One client operation on a stopwatch, with the clock reading it happens at. */
  datatype Operation = Start(at: int) | Restart(at: int) | Lap(at: int) | Stop(at: int)

  function Step(v: StopwatchView, op: Operation, requiredLaps: nat): StopwatchView {
    match op
    case Start(t) => Started(v, t)
    case Restart(t) => Restarted(v, t)
    case Lap(t) => Lapped(v, t, requiredLaps)
    case Stop(t) => Stopped(v, t)
  }

  /** The stopwatch after applying `ops` in order. */
  function Run(v: StopwatchView, ops: seq<Operation>, requiredLaps: nat): StopwatchView
    decreases |ops|
  {
    if |ops| == 0 then v else Run(Step(v, ops[0], requiredLaps), ops[1..], requiredLaps)
  }

  /**
   * The lap bound the auto-stop maintains: never more laps than required, and a
   * stopwatch holding all of them is stopped.
   */
  predicate WithinLaps(v: StopwatchView, requiredLaps: nat) {
    |v.laps| <= requiredLaps && (|v.laps| == requiredLaps ==> v.stoppedAt.Some?)
  }

  lemma StepKeepsWithinLaps(v: StopwatchView, op: Operation, requiredLaps: nat)
    requires requiredLaps >= 1 && WithinLaps(v, requiredLaps)
    ensures WithinLaps(Step(v, op, requiredLaps), requiredLaps)
  {
  }

  /**
   * Whatever operations a fresh stopwatch goes through, as long as the event
   * requires at least one lap, it never holds more laps than required.
   */
  lemma {:induction false} LapsNeverExceedRequired(v: StopwatchView, ops: seq<Operation>, requiredLaps: nat)
    requires requiredLaps >= 1 && WithinLaps(v, requiredLaps)
    ensures |Run(v, ops, requiredLaps).laps| <= requiredLaps
    ensures WithinLaps(Run(v, ops, requiredLaps), requiredLaps)
    decreases |ops|
  {
    if |ops| > 0 {
      StepKeepsWithinLaps(v, ops[0], requiredLaps);
      LapsNeverExceedRequired(Step(v, ops[0], requiredLaps), ops[1..], requiredLaps);
    }
  }

  /** The bound holds for every run of a freshly created stopwatch. */
  lemma CreatedStaysWithinLaps(id: Guid, eventCode: string, leaderboardName: string, name: string,
                               now: int, ops: seq<Operation>, requiredLaps: nat)
    requires requiredLaps >= 1
    ensures |Run(Created(id, eventCode, leaderboardName, name, now), ops, requiredLaps).laps| <= requiredLaps
  {
    LapsNeverExceedRequired(Created(id, eventCode, leaderboardName, name, now), ops, requiredLaps);
  }

  /** With no required laps the auto-stop never fires: every lap of a running stopwatch is recorded. */
  lemma {:induction false} NoRequiredLapsNeverAutoStops(v: StopwatchView, ts: seq<int>)
    requires PhaseOf(v) == Running
    ensures var r := Run(v, LapsAt(ts), 0); PhaseOf(r) == Running && r.laps == v.laps + ts
    decreases |ts|
  {
    if |ts| > 0 {
      var v' := Lapped(v, ts[0], 0);
      assert LapsAt(ts)[0] == Lap(ts[0]) && LapsAt(ts)[1..] == LapsAt(ts[1..]);
      NoRequiredLapsNeverAutoStops(v', ts[1..]);
      assert v.laps + [ts[0]] + ts[1..] == v.laps + ts;
    }
  }

  function LapsAt(ts: seq<int>): (ops: seq<Operation>)
    ensures |ops| == |ts| && forall i :: 0 <= i < |ts| ==> ops[i] == Lap(ts[i])
  {
    seq(|ts|, i requires 0 <= i < |ts| => Lap(ts[i]))
  }

  // ---------------------------------------------------------------------------
  // The mutable record
  // ---------------------------------------------------------------------------

  /**
   * `EventStopwatch`. The identity fields are set once at creation and never
   * reassigned by the hub, so they are constants here; the start, lap and stop
   * timestamps are updated in place.
   */
  class EventStopwatch {
    const id: Guid
    const eventCode: string
    const leaderboardName: string
    const name: string
    const addedAt: int
    var startedAt: Option<int>
    var laps: seq<int>
    var stoppedAt: Option<int>

    constructor (id: Guid, eventCode: string, leaderboardName: string, name: string, now: int)
      ensures View() == Created(id, eventCode, leaderboardName, name, now)
    {
      this.id := id;
      this.eventCode := eventCode;
      this.leaderboardName := leaderboardName;
      this.name := name;
      this.addedAt := now;
      startedAt := None;
      laps := [];
      stoppedAt := None;
    }

    function View(): StopwatchView
      reads this
    {
      StopwatchView(id, eventCode, leaderboardName, name, addedAt, startedAt, laps, stoppedAt)
    }

    /**
     * One step of `StartAllStopwatches`: a stopwatch with neither start nor stop
     * starts at the shared start time; `started` tells whether it did.
     */
    method StartAt(now: int) returns (started: bool)
      modifies this
      ensures View() == Started(old(View()), now)
      ensures started <==> PhaseOf(old(View())) == NotStarted
    {
      started := startedAt.None? && stoppedAt.None?;
      if started {
        startedAt := Some(now);
        stoppedAt := None;
      }
    }
  }
}
