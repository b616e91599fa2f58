/**
 Reservation of scheduled runs (schedule_lifecycle.go, service.go, task_groups.go). The methods of Scheduler are
 the sections that hold scheduleMu; a World interleaves such sections of any number of callers.
 */
module ScheduleReservation {
  import opened Common

  /** A run that was reserved; `closes` counts the closings of its done channel, which must happen once. */
  datatype ScheduledRun = ScheduledRun(id: string, cancelled: bool, closes: nat)

  datatype Refusal = AlreadyStopped | GroupRunning | AlreadyRunning

  /** What scheduleMu protects. Runs are numbered in the order they were reserved, loops in the order they began. */
  datatype Shared = Shared(
    runs: seq<ScheduledRun>, running: map<string, nat>, stopped: bool, groupRunning: bool, loop: Option<nat>, loops: nat)

  const IDLE := Shared([], map[], false, false, None, 0)

  predicate Live(s: Shared, r: nat) {
    r < |s.runs| && s.runs[r].closes == 0
  }

  /** The table of running schedules holds exactly the live runs, each under its own schedule. */
  ghost predicate Consistent(s: Shared) {
    && (forall id | id in s.running :: Live(s, s.running[id]) && s.runs[s.running[id]].id == id)
    && (forall r: nat | r < |s.runs| :: s.runs[r].closes <= 1)
    && (forall r: nat | Live(s, r) :: s.runs[r].id in s.running && s.running[s.runs[r].id] == r)
  }

  /** At most one run of a schedule is live. */
  lemma OneLiveRun(s: Shared, r: nat, q: nat)
    requires Consistent(s) && Live(s, r) && Live(s, q) && s.runs[r].id == s.runs[q].id
    ensures r == q
  {
  }

  function RefusalOf(s: Shared, id: string, fromGroup: bool): Option<Refusal> {
    if s.stopped then Some(AlreadyStopped)
    else if s.groupRunning && !fromGroup then Some(GroupRunning)
    else if id in s.running then Some(AlreadyRunning)
    else None
  }

  function Reserved(s: Shared, id: string): Shared {
    s.(runs := s.runs + [ScheduledRun(id, false, 0)], running := s.running[id := |s.runs|])
  }

  function Released(s: Shared, r: nat): Shared
    requires Live(s, r)
  {
    s.(runs := s.runs[r := s.runs[r].(cancelled := true, closes := 1)], running := s.running - {s.runs[r].id})
  }

  predicate MayStart(s: Shared) {
    s.loop.None? && (s.running == map[] || !s.stopped)
  }

  function Started(s: Shared): Shared {
    s.(loop := Some(s.loops), loops := s.loops + 1, stopped := false)
  }

  function Cancelled(runs: seq<ScheduledRun>, which: set<nat>): seq<ScheduledRun> {
    seq(|runs|, r requires 0 <= r < |runs| => if r in which then runs[r].(cancelled := true) else runs[r])
  }

  /** Every running schedule is cancelled and no other can be reserved. */
  function Stopped(s: Shared): Shared {
    s.(stopped := true, runs := Cancelled(s.runs, s.running.Values))
  }

  class Scheduler {
    var runs: seq<ScheduledRun>
    var running: map<string, nat>
    var stopped: bool
    var groupRunning: bool
    var loop: Option<nat>
    var loops: nat

    function View(): Shared
      reads this
    {
      Shared(runs, running, stopped, groupRunning, loop, loops)
    }

    ghost predicate Valid()
      reads this
    {
      Consistent(View())
    }

    constructor ()
      ensures Valid() && View() == IDLE
    {
      runs, running, stopped, groupRunning, loop, loops := [], map[], false, false, None, 0;
    }

    /** reserveSchedule */
    method Reserve(id: string, fromGroup: bool) returns (run: Result<nat, Refusal>)
      requires Valid()
      modifies this
      ensures Valid()
      ensures match RefusalOf(old(View()), id, fromGroup)
        case Some(refusal) => run == Err(refusal) && View() == old(View())
        case None => run == Ok(|old(runs)|) && View() == Reserved(old(View()), id) && Live(View(), run.value)
    {
      if stopped { return Err(AlreadyStopped); }
      if groupRunning && !fromGroup { return Err(GroupRunning); }
      if id in running { return Err(AlreadyRunning); }
      running := running[id := |runs|];
      runs := runs + [ScheduledRun(id, false, 0)];
      run := Ok(|runs| - 1);
    }

    /** releaseSchedule deletes by schedule ID, which is right because a live run is the only one of its schedule. */
    method Release(r: nat)
      requires Valid() && Live(View(), r)
      modifies this
      ensures Valid() && View() == Released(old(View()), r) && !Live(View(), r) && runs[r].closes == 1
    {
      runs := runs[r := runs[r].(cancelled := true)];
      running := running - {runs[r].id};
      runs := runs[r := runs[r].(closes := runs[r].closes + 1)];
      assert forall q: nat | Live(View(), q) :: q != r && Live(old(View()), q);
    }

    /** StartSchedules */
    method Start() returns (began: bool)
      requires Valid()
      modifies this
      ensures Valid() && began == MayStart(old(View()))
      ensures View() == if began then Started(old(View())) else old(View())
    {
      if loop.Some? || (|running| > 0 && stopped) { return false; }
      assert running == map[] || !stopped;
      loop, loops, stopped := Some(loops), loops + 1, false;
      began := true;
    }

    /** cancelScheduledRuns; `waits` are the runs whose end the caller will await. */
    method CancelRuns() returns (waits: set<nat>, awaited: Option<nat>)
      requires Valid()
      modifies this
      ensures Valid() && View() == Stopped(old(View())) && awaited == loop
      ensures forall r: nat :: r in waits <==> Live(View(), r)
    {
      hide Consistent, Cancelled;
      ghost var before := View();
      InRange(before);
      stopped, awaited := true, loop;
      waits := CancelLive();
      CancelKeeps(before);
    }

    /** Cancels every run in the table. */
    method CancelLive() returns (waits: set<nat>)
      requires forall id | id in running :: running[id] < |runs|
      modifies this`runs
      ensures waits == running.Values && runs == Cancelled(old(runs), running.Values)
    {
      hide Cancelled, NumbersOf;
      waits := {};
      Nothing(runs);
      NumbersEnds(running);
      var left := running.Keys;
      ghost var done := {};
      while left != {}
        invariant done + left == running.Keys && |runs| == |old(runs)|
        invariant runs == Cancelled(old(runs), waits) && waits == NumbersOf(running, done)
        decreases |left|
      {
        var id :| id in left;
        OneMore(old(runs), waits, running[id]);
        NumbersStep(running, done, id);
        runs := runs[running[id] := runs[running[id]].(cancelled := true)];
        waits := waits + {running[id]};
        left, done := left - {id}, done + {id};
      }
      assert done == running.Keys;
    }

    /** The last section of StopSchedulesContext. */
    method ForgetLoop()
      requires Valid()
      modifies this
      ensures Valid() && View() == old(View()).(loop := None)
    {
      loop := None;
    }

    method SetGroup(on: bool)
      requires Valid()
      modifies this
      ensures Valid() && View() == old(View()).(groupRunning := on)
    {
      groupRunning := on;
    }

    /** Whatever other goroutines do between two sections of the holder of run `mine`. */
    method Others(mine: nat)
      requires Valid() && Live(View(), mine)
      modifies this
      ensures Valid() && Live(View(), mine) && runs[mine].id == old(runs[mine].id)
    {
      var steps: nat := *;
      ghost var id := runs[mine].id;
      while steps > 0
        invariant Valid() && Live(View(), mine) && runs[mine].id == id
      {
        steps := steps - 1;
        var choice: int := *;
        if choice == 0 {
          var other: string := *;
          var fromGroup: bool := *;
          var reserved := Reserve(other, fromGroup);
        } else if choice == 1 {
          var r: int := *;
          if 0 <= r < |runs| && r != mine && runs[r].closes == 0 { Release(r); }
        } else if choice == 2 {
          var began := Start();
        } else if choice == 3 {
          var waits, awaited := CancelRuns();
        } else if choice == 4 {
          ForgetLoop();
        } else {
          var on: bool := *;
          SetGroup(on);
        }
      }
    }

    /**
     runSchedule: once a run is reserved, every early return releases it once; otherwise the follow-up holds it.
     The stages answer arbitrarily: the schedule, its channels, the preview and the recording of the start.
     */
    method RunSchedule(id: string, fromGroup: bool, cancelled: bool, schedules: seq<string>)
      returns (run: Option<nat>, accepted: bool)
      requires Valid()
      modifies this
      ensures Valid() && (accepted ==> run.Some?)
      ensures run.None? ==> View() == old(View())
      ensures run.Some? ==> run.value < |runs| && runs[run.value].id == id
      ensures run.Some? ==> runs[run.value].closes == if accepted then 0 else 1
      ensures accepted ==> id in schedules && !cancelled && RefusalOf(old(View()), id, fromGroup).None?
    {
      run, accepted := None, false;
      if cancelled { return; }
      var reserved := Reserve(id, fromGroup);
      if reserved.Err? { return; }
      var r := reserved.value;
      run := Some(r);
      Others(r);
      var read: bool := *;
      if !read {
        Release(r);
        return;
      }
      for k := 0 to |schedules|
        invariant Valid() && Live(View(), r) && runs[r].id == id && !accepted
      {
        if schedules[k] != id { continue; }
        accepted := Prepare(r);
        return;
      }
      Release(r);
    }

    /** The part of runSchedule that follows the schedule's discovery. */
    method Prepare(r: nat) returns (accepted: bool)
      requires Valid() && Live(View(), r)
      modifies this
      ensures Valid() && r < |runs| && runs[r].id == old(runs[r].id) && runs[r].closes == if accepted then 0 else 1
    {
      var hasChannels: bool := *;
      var latest: bool := *;
      if hasChannels && !latest {
        Release(r);
        return false;
      }
      Others(r);
      var previewed: bool := *;
      if !previewed {
        Release(r);
        return false;
      }
      Others(r);
      var recorded: bool := *;
      if !recorded {
        Release(r);
        return false;
      }
      accepted := true;
    }

    /** The follow-up of an accepted run: whatever its outcome, it releases the run once. */
    method Follow(r: nat)
      requires Valid() && Live(View(), r)
      modifies this
      ensures Valid() && r < |runs| && runs[r].closes == 1
    {
      Others(r);
      Release(r);
    }
  }

  /** The runs of some of the running schedules. */
  ghost function NumbersOf(running: map<string, nat>, ids: set<string>): set<nat> {
    set id | id in ids && id in running :: running[id]
  }

  lemma NumbersEnds(running: map<string, nat>)
    ensures NumbersOf(running, {}) == {} && NumbersOf(running, running.Keys) == running.Values
  {
  }

  lemma NumbersStep(running: map<string, nat>, ids: set<string>, id: string)
    requires id in running
    ensures NumbersOf(running, ids + {id}) == NumbersOf(running, ids) + {running[id]}
  {
  }

  lemma Nothing(runs: seq<ScheduledRun>)
    ensures runs == Cancelled(runs, {})
  {
  }

  lemma OneMore(runs: seq<ScheduledRun>, which: set<nat>, r: nat)
    requires r < |runs|
    ensures |Cancelled(runs, which)| == |runs|
    ensures Cancelled(runs, which + {r}) == Cancelled(runs, which)[r := Cancelled(runs, which)[r].(cancelled := true)]
  {
  }

  lemma InRange(s: Shared)
    requires Consistent(s)
    ensures forall id | id in s.running :: s.running[id] < |s.runs|
  {
  }

  /** Cancelling closes nothing: the table holds exactly the live runs, before and after. */
  lemma CancelKeeps(s: Shared)
    requires Consistent(s)
    ensures Consistent(Stopped(s)) && forall r: nat :: r in s.running.Values <==> Live(Stopped(s), r)
  {
    forall r: nat ensures r in s.running.Values <==> Live(Stopped(s), r) {
      if Live(s, r) { assert s.running[s.runs[r].id] == r; }
    }
  }

  // ---- Interleavings of any number of callers ----

  datatype Loop = Looping | Draining | LoopEnded

  datatype Outcome = Waiting | Returned | TimedOut

  /** One call of StopSchedulesContext, and how many loops had been started and runs reserved when it began. */
  datatype Stop = Stop(waits: set<nat>, awaited: Option<nat>, startsBefore: nat, runsBefore: nat, outcome: Outcome)

  /** `held` are the runs whose goroutine still owes its release. */
  datatype World = World(shared: Shared, held: set<nat>, loops: seq<Loop>, stops: seq<Stop>)

  datatype Step =
    | ReserveStep(id: string, fromGroup: bool)
    | ReleaseStep(r: nat)
    | StartStep
    | LoopDrains(l: nat)
    | LoopEnds(l: nat)
    | StopBegins
    | StopReturns(k: nat)
    | StopTimesOut(k: nat)
    | GroupStep(on: bool)

  const START := World(IDLE, {}, [], [])

  predicate AllEnded(w: World, stop: Stop) {
    && (forall r | r in stop.waits :: r < |w.shared.runs| && w.shared.runs[r].closes > 0)
    && (stop.awaited.Some? ==> stop.awaited.value < |w.loops| && w.loops[stop.awaited.value] == LoopEnded)
  }

  predicate Waits(w: World, k: nat) {
    k < |w.stops| && w.stops[k].outcome == Waiting
  }

  ghost predicate Next(w: World, step: Step, v: World) {
    match step
    case ReserveStep(id, fromGroup) =>
      if RefusalOf(w.shared, id, fromGroup).Some? then v == w
      else v == w.(shared := Reserved(w.shared, id), held := w.held + {|w.shared.runs|})
    case ReleaseStep(r) =>
      r in w.held && Live(w.shared, r) && v == w.(shared := Released(w.shared, r), held := w.held - {r})
    case StartStep =>
      if MayStart(w.shared) then v == w.(shared := Started(w.shared), loops := w.loops + [Looping]) else v == w
    case LoopDrains(l) =>
      l < |w.loops| && w.loops[l] == Looping && v == w.(shared := Stopped(w.shared), loops := w.loops[l := Draining])
    case LoopEnds(l) =>
      l < |w.loops| && w.loops[l] == Draining && v == w.(loops := w.loops[l := LoopEnded])
    case StopBegins =>
      v == w.(shared := Stopped(w.shared),
              stops := w.stops + [Stop(w.shared.running.Values, w.shared.loop, |w.loops|, |w.shared.runs|, Waiting)])
    case StopReturns(k) =>
      && Waits(w, k) && AllEnded(w, w.stops[k])
      && v == w.(shared := w.shared.(loop := None), stops := w.stops[k := w.stops[k].(outcome := Returned)])
    case StopTimesOut(k) =>
      Waits(w, k) && v == w.(stops := w.stops[k := w.stops[k].(outcome := TimedOut)])
    case GroupStep(on) => v == w.(shared := w.shared.(groupRunning := on))
  }

  /** No loop was started since the call began. */
  predicate Undisturbed(w: World, stop: Stop) {
    stop.startsBefore == |w.loops|
  }

  ghost predicate StopHolds(w: World, stop: Stop) {
    && stop.startsBefore <= |w.loops| && stop.runsBefore <= |w.shared.runs|
    && (stop.outcome == Returned ==> AllEnded(w, stop))
    && (forall r: nat | r < stop.runsBefore && Live(w.shared, r) :: r in stop.waits && w.shared.runs[r].cancelled)
    && (Undisturbed(w, stop) ==> w.shared.stopped && |w.shared.runs| == stop.runsBefore)
  }

  ghost predicate WorldInv(w: World) {
    && Consistent(w.shared)
    && (forall r: nat :: r in w.held <==> Live(w.shared, r))
    && (forall k | 0 <= k < |w.stops| :: StopHolds(w, w.stops[k]))
  }

  lemma ReserveKeeps(s: Shared, id: string)
    requires Consistent(s) && id !in s.running
    ensures Consistent(Reserved(s, id))
    ensures forall r: nat :: Live(Reserved(s, id), r) <==> Live(s, r) || r == |s.runs|
  {
  }

  lemma ReleaseKeeps(s: Shared, r: nat)
    requires Consistent(s) && Live(s, r)
    ensures Consistent(Released(s, r))
    ensures forall q: nat :: Live(Released(s, r), q) <==> Live(s, q) && q != r
  {
  }

  lemma StepKeepsShared(w: World, step: Step, v: World)
    requires WorldInv(w) && Next(w, step, v)
    ensures Consistent(v.shared) && forall r: nat :: r in v.held <==> Live(v.shared, r)
  {
    hide StopHolds, AllEnded, Cancelled;
    match step
    case ReserveStep(id, fromGroup) =>
      if RefusalOf(w.shared, id, fromGroup).None? {
        ReserveKeeps(w.shared, id);
        hide Consistent, Reserved;
      }
    case ReleaseStep(r) =>
      ReleaseKeeps(w.shared, r);
      hide Consistent, Released;
    case LoopDrains(_) => StopKeepsLive(w.shared);
    case StopBegins => StopKeepsLive(w.shared);
    case _ =>
  }

  lemma StopKeepsLive(s: Shared)
    requires Consistent(s)
    ensures Consistent(Stopped(s)) && forall r: nat :: Live(s, r) <==> Live(Stopped(s), r)
  {
    CancelKeeps(s);
  }

  /** No run is revived or taken back its cancellation, and no loop, once ended, goes on. */
  lemma StepGoesOn(w: World, step: Step, v: World)
    requires Consistent(w.shared) && Next(w, step, v)
    ensures |w.loops| <= |v.loops| && forall l: nat | l < |w.loops| && w.loops[l] == LoopEnded :: v.loops[l] == LoopEnded
    ensures |w.shared.runs| <= |v.shared.runs|
    ensures forall r: nat | r < |w.shared.runs| ::
      && (w.shared.runs[r].closes > 0 ==> v.shared.runs[r].closes > 0)
      && (w.shared.runs[r].cancelled ==> v.shared.runs[r].cancelled)
    ensures w.shared.stopped ==> (v.shared.stopped && |v.shared.runs| == |w.shared.runs|) || |v.loops| > |w.loops|
  {
  }

  /** A call that neither returns nor times out in this step. */
  lemma StopStillHolds(w: World, step: Step, v: World, stop: Stop)
    requires Consistent(w.shared) && Next(w, step, v) && StopHolds(w, stop)
    ensures StopHolds(v, stop)
  {
    StepGoesOn(w, step, v);
    hide Next, Consistent;
  }

  lemma StepKeepsStops(w: World, step: Step, v: World)
    requires WorldInv(w) && Next(w, step, v)
    ensures forall k | 0 <= k < |v.stops| :: StopHolds(v, v.stops[k])
  {
    CancelKeeps(w.shared);
    forall k | 0 <= k < |v.stops| ensures StopHolds(v, v.stops[k]) {
      if k < |w.stops| {
        StopStillHolds(w, step, v, w.stops[k]);
        hide Consistent, Undisturbed;
      } else {
        assert step.StopBegins?;
      }
    }
  }

  /** A run of the service: what it was in after every step. */
  ghost predicate Behavior(worlds: seq<World>, steps: seq<Step>) {
    && |worlds| == |steps| + 1 && worlds[0] == START
    && forall i | 0 <= i < |steps| :: Next(worlds[i], steps[i], worlds[i + 1])
  }

  lemma {:induction false} EveryBehavior(worlds: seq<World>, steps: seq<Step>, n: nat)
    requires Behavior(worlds, steps) && n < |worlds|
    ensures WorldInv(worlds[n])
  {
    if n > 0 {
      EveryBehavior(worlds, steps, n - 1);
      StepKeepsShared(worlds[n - 1], steps[n - 1], worlds[n]);
      StepKeepsStops(worlds[n - 1], steps[n - 1], worlds[n]);
    }
  }

  /** Under every interleaving a schedule has at most one live run, and no run is released twice. */
  lemma AtMostOneRunEach(worlds: seq<World>, steps: seq<Step>, n: nat, r: nat, q: nat)
    requires Behavior(worlds, steps) && n < |worlds|
    requires r < |worlds[n].shared.runs| && q < |worlds[n].shared.runs|
    ensures worlds[n].shared.runs[r].closes == if r in worlds[n].held then 0 else 1
    ensures r in worlds[n].held && q in worlds[n].held && worlds[n].shared.runs[r].id == worlds[n].shared.runs[q].id ==>
      r == q
  {
    EveryBehavior(worlds, steps, n);
    assert r in worlds[n].held <==> Live(worlds[n].shared, r);
    assert q in worlds[n].held <==> Live(worlds[n].shared, q);
  }

  /**
   Once StopSchedulesContext has returned nil and no loop was started since it began, no run is live, none can
   be reserved, and the loop it found has ended.
   */
  lemma StopMeansStopped(worlds: seq<World>, steps: seq<Step>, n: nat, k: nat)
    requires Behavior(worlds, steps) && n < |worlds| && k < |worlds[n].stops|
    requires worlds[n].stops[k].outcome == Returned && Undisturbed(worlds[n], worlds[n].stops[k])
    ensures worlds[n].held == {} && worlds[n].shared.running == map[]
    ensures forall id, fromGroup :: RefusalOf(worlds[n].shared, id, fromGroup) == Some(AlreadyStopped)
    ensures worlds[n].stops[k].awaited.Some? ==>
      worlds[n].stops[k].awaited.value < |worlds[n].loops| && worlds[n].loops[worlds[n].stops[k].awaited.value] == LoopEnded
  {
    EveryBehavior(worlds, steps, n);
    var w := worlds[n];
    assert StopHolds(w, w.stops[k]);
    assert forall r: nat :: !Live(w.shared, r);
    assert forall r | r in w.held :: Live(w.shared, r);
    if w.shared.running != map[] {
      var r := SomeRunLive(w.shared);
      assert false;
    }
  }

  lemma SomeRunLive(s: Shared) returns (r: nat)
    requires Consistent(s) && s.running != map[]
    ensures Live(s, r)
  {
    var id :| id in s.running;
    r := s.running[id];
  }

  /** While a stop waits undisturbed, whatever is still live was told to stop. */
  lemma StopCancelsTheRest(worlds: seq<World>, steps: seq<Step>, n: nat, k: nat, r: nat)
    requires Behavior(worlds, steps) && n < |worlds| && k < |worlds[n].stops| && r in worlds[n].held
    requires Undisturbed(worlds[n], worlds[n].stops[k])
    ensures r < |worlds[n].shared.runs| && worlds[n].shared.runs[r].cancelled && r in worlds[n].stops[k].waits
  {
    EveryBehavior(worlds, steps, n);
    assert StopHolds(worlds[n], worlds[n].stops[k]);
    assert Live(worlds[n].shared, r);
  }

  /** A run is live, or one could be reserved. */
  ghost predicate LeavesRun(s: Shared) {
    (exists r: nat :: Live(s, r)) || (exists id, fromGroup :: RefusalOf(s, id, fromGroup).None?)
  }

  predicate StartsLoop(w: World, step: Step) {
    step.StartStep? && MayStart(w.shared)
  }

  predicate StopsAll(step: Step) {
    step.StopBegins? || step.LoopDrains?
  }

  predicate Reserves(w: World, step: Step) {
    step.ReserveStep? && RefusalOf(w.shared, step.id, step.fromGroup).None?
  }

  /** After step b a loop was started, and nothing was stopped since. */
  ghost predicate StartedSince(worlds: seq<World>, steps: seq<Step>, b: nat, n: nat)
    requires n <= |steps| < |worlds|
  {
    exists j | b < j < n :: StartsLoop(worlds[j], steps[j]) && forall m | j < m < n :: !StopsAll(steps[m])
  }

  /** After step b the run of this number was reserved, and it was not released since. */
  ghost predicate HeldSince(worlds: seq<World>, steps: seq<Step>, b: nat, n: nat, r: nat)
    requires n <= |steps| < |worlds|
  {
    exists j | b < j < n :: Reserves(worlds[j], steps[j]) && |worlds[j].shared.runs| == r
      && forall m | j < m < n :: steps[m] != ReleaseStep(r)
  }

  lemma StartedStep(worlds: seq<World>, steps: seq<Step>, b: nat, n: nat)
    requires b < n < |steps| < |worlds|
    ensures StartedSince(worlds, steps, b, n + 1) <==>
      StartsLoop(worlds[n], steps[n]) || (StartedSince(worlds, steps, b, n) && !StopsAll(steps[n]))
  {
    hide StartsLoop, StopsAll;
    if StartedSince(worlds, steps, b, n) && !StopsAll(steps[n]) {
      var j :| b < j < n && StartsLoop(worlds[j], steps[j]) && forall m | j < m < n :: !StopsAll(steps[m]);
      assert StartsLoop(worlds[j], steps[j]) && forall m | j < m < n + 1 :: !StopsAll(steps[m]);
    }
  }

  lemma HeldStep(worlds: seq<World>, steps: seq<Step>, b: nat, n: nat, r: nat)
    requires b < n < |steps| < |worlds|
    ensures HeldSince(worlds, steps, b, n + 1, r) <==>
      || (Reserves(worlds[n], steps[n]) && |worlds[n].shared.runs| == r)
      || (HeldSince(worlds, steps, b, n, r) && steps[n] != ReleaseStep(r))
  {
    hide Reserves;
    if HeldSince(worlds, steps, b, n, r) && steps[n] != ReleaseStep(r) {
      var j :| b < j < n && Reserves(worlds[j], steps[j]) && |worlds[j].shared.runs| == r
        && forall m | j < m < n :: steps[m] != ReleaseStep(r);
      assert Reserves(worlds[j], steps[j]) && forall m | j < m < n + 1 :: steps[m] != ReleaseStep(r);
    }
  }

  lemma StepAt(worlds: seq<World>, steps: seq<Step>, n: nat)
    requires Behavior(worlds, steps) && n + 1 < |worlds|
    ensures |worlds| == |steps| + 1 && Next(worlds[n], steps[n], worlds[n + 1])
  {
  }

  lemma NothingSince(worlds: seq<World>, steps: seq<Step>, b: nat, r: nat)
    requires b < |steps| < |worlds|
    ensures !StartedSince(worlds, steps, b, b + 1) && !HeldSince(worlds, steps, b, b + 1, r)
  {
  }

  lemma NothingReserved(w: World, step: Step, r: nat)
    requires step.StopBegins? && r >= |w.shared.runs|
    ensures !Live(w.shared, r) && !Reserves(w, step) && !StartsLoop(w, step)
  {
  }

  lemma {:induction false} OpenExactlyIf(worlds: seq<World>, steps: seq<Step>, b: nat, n: nat)
    requires Behavior(worlds, steps) && b < n < |worlds| && steps[b].StopBegins?
    ensures !worlds[n].shared.stopped <==> StartedSince(worlds, steps, b, n)
  {
    hide Next, Behavior, StartedSince, HeldSince, StartsLoop;
    StepAt(worlds, steps, n - 1);
    OpenAfter(worlds[n - 1], steps[n - 1], worlds[n]);
    if n > b + 1 {
      OpenExactlyIf(worlds, steps, b, n - 1);
      StartedStep(worlds, steps, b, n - 1);
    } else {
      NothingSince(worlds, steps, b, 0);
      NothingReserved(worlds[b], steps[b], |worlds[b].shared.runs|);
    }
  }

  lemma OpenAfter(w: World, step: Step, v: World)
    requires Next(w, step, v)
    ensures !v.shared.stopped <==> StartsLoop(w, step) || (!w.shared.stopped && !StopsAll(step))
  {
  }

  lemma {:induction false} LiveExactlyIf(worlds: seq<World>, steps: seq<Step>, b: nat, n: nat, r: nat)
    requires Behavior(worlds, steps) && b < n < |worlds| && steps[b].StopBegins? && r >= |worlds[b].shared.runs|
    ensures Live(worlds[n].shared, r) <==> HeldSince(worlds, steps, b, n, r)
  {
    hide Next, Behavior, HeldSince, Reserves, Live;
    StepAt(worlds, steps, n - 1);
    LiveAfter(worlds[n - 1], steps[n - 1], worlds[n], r);
    if n > b + 1 {
      LiveExactlyIf(worlds, steps, b, n - 1, r);
      HeldStep(worlds, steps, b, n - 1, r);
    } else {
      NothingSince(worlds, steps, b, r);
      NothingReserved(worlds[b], steps[b], r);
    }
  }

  lemma LiveAfter(w: World, step: Step, v: World, r: nat)
    requires Next(w, step, v)
    ensures Live(v.shared, r) <==>
      (Reserves(w, step) && |w.shared.runs| == r) || (Live(w.shared, r) && step != ReleaseStep(r))
  {
  }

  /** A call keeps what it was when it began. */
  lemma {:induction false} StopSince(worlds: seq<World>, steps: seq<Step>, b: nat, n: nat)
    requires Behavior(worlds, steps) && b < n < |worlds| && steps[b].StopBegins?
    ensures |worlds[b].stops| < |worlds[n].stops|
    ensures worlds[n].stops[|worlds[b].stops|].runsBefore == |worlds[b].shared.runs|
  {
    assert Next(worlds[n - 1], steps[n - 1], worlds[n]);
    if n > b + 1 { StopSince(worlds, steps, b, n - 1); }
  }

  /**
   A stop that began with step b and returned nil leaves a run that is live or can be reserved exactly if, during the
   call or later, another caller started a loop and nothing was stopped since, or a run was reserved and is not released
   yet; either way a loop was started after the call began. No run that was live when the call began is live.
   */
  lemma StopLeavesRunExactlyIf(worlds: seq<World>, steps: seq<Step>, b: nat, n: nat)
    requires Behavior(worlds, steps) && b < n < |worlds| && steps[b].StopBegins?
    requires |worlds[b].stops| < |worlds[n].stops| && worlds[n].stops[|worlds[b].stops|].outcome == Returned
    ensures LeavesRun(worlds[n].shared) <==>
      StartedSince(worlds, steps, b, n) || exists r :: HeldSince(worlds, steps, b, n, r)
    ensures LeavesRun(worlds[n].shared) ==> exists j :: b < j < n && StartsLoop(worlds[j], steps[j])
    ensures forall r: nat | r < |worlds[b].shared.runs| :: !Live(worlds[n].shared, r)
  {
    EveryBehavior(worlds, steps, n);
    OldRunsEnded(worlds, steps, b, n);
    OpenExactlyIf(worlds, steps, b, n);
    var s := worlds[n].shared;
    LeavesRunMeans(s);
    hide Behavior, Next, WorldInv, StartedSince, HeldSince, LeavesRun, StartsLoop, Live;
    if r: nat :| Live(s, r) {
      LiveExactlyIf(worlds, steps, b, n, r);
      HeldMeansStarted(worlds, steps, b, n, r);
    } else if r :| HeldSince(worlds, steps, b, n, r) {
      HeldIsNew(worlds, steps, b, n, r);
      LiveExactlyIf(worlds, steps, b, n, r);
    }
    if StartedSince(worlds, steps, b, n) { SomeLoopStarted(worlds, steps, b, n, n); }
  }

  lemma OldRunsEnded(worlds: seq<World>, steps: seq<Step>, b: nat, n: nat)
    requires Behavior(worlds, steps) && b < n < |worlds| && steps[b].StopBegins?
    requires |worlds[b].stops| < |worlds[n].stops| && worlds[n].stops[|worlds[b].stops|].outcome == Returned
    ensures forall r: nat | r < |worlds[b].shared.runs| :: !Live(worlds[n].shared, r)
  {
    EveryBehavior(worlds, steps, n);
    StopSince(worlds, steps, b, n);
    assert StopHolds(worlds[n], worlds[n].stops[|worlds[b].stops|]);
  }

  lemma LeavesRunMeans(s: Shared)
    requires Consistent(s)
    ensures LeavesRun(s) <==> !s.stopped || exists r: nat :: Live(s, r)
  {
    if !s.stopped {
      if s.running == map[] { assert RefusalOf(s, "", true).None?; } else { var r := SomeRunLive(s); }
    }
  }

  lemma SomeLoopStarted(worlds: seq<World>, steps: seq<Step>, b: nat, m: nat, n: nat)
    requires m <= n <= |steps| < |worlds| && StartedSince(worlds, steps, b, m)
    ensures exists j :: b < j < n && StartsLoop(worlds[j], steps[j])
  {
  }

  /** What was reserved since the call began was reserved after a loop had been started. */
  lemma HeldMeansStarted(worlds: seq<World>, steps: seq<Step>, b: nat, n: nat, r: nat)
    requires Behavior(worlds, steps) && b < n < |worlds| && steps[b].StopBegins? && HeldSince(worlds, steps, b, n, r)
    ensures exists j :: b < j < n && StartsLoop(worlds[j], steps[j])
  {
    var j :| b < j < n && Reserves(worlds[j], steps[j]);
    OpenExactlyIf(worlds, steps, b, j);
    SomeLoopStarted(worlds, steps, b, j, n);
  }

  lemma {:induction false} RunsGrow(worlds: seq<World>, steps: seq<Step>, b: nat, n: nat)
    requires Behavior(worlds, steps) && b <= n < |worlds|
    ensures |worlds[b].shared.runs| <= |worlds[n].shared.runs|
  {
    if b < n {
      RunsGrow(worlds, steps, b, n - 1);
      assert Next(worlds[n - 1], steps[n - 1], worlds[n]);
    }
  }

  lemma HeldIsNew(worlds: seq<World>, steps: seq<Step>, b: nat, n: nat, r: nat)
    requires Behavior(worlds, steps) && b < n < |worlds| && HeldSince(worlds, steps, b, n, r)
    ensures r >= |worlds[b].shared.runs|
  {
    var j :| b < j < n && Reserves(worlds[j], steps[j]) && |worlds[j].shared.runs| == r;
    RunsGrow(worlds, steps, b, j);
  }

  /** Without that proviso the promise fails: a loop started during the stop lets a new run through. */
  lemma StartDuringStop() returns (worlds: seq<World>, steps: seq<Step>)
    ensures Behavior(worlds, steps) && |worlds[|steps|].stops| == 1
    ensures worlds[|steps|].stops[0].outcome == Returned && worlds[|steps|].held == {0}
    ensures !Undisturbed(worlds[|steps|], worlds[|steps|].stops[0])
  {
    steps := [StopBegins, StartStep, ReserveStep("daily", false), StopReturns(0)];
    var stopping := START.(shared := Stopped(IDLE), stops := [Stop({}, None, 0, 0, Waiting)]);
    var started := stopping.(shared := Started(stopping.shared), loops := [Looping]);
    var reserved := started.(shared := Reserved(started.shared, "daily"), held := {0});
    var returned := reserved.(shared := reserved.shared.(loop := None), stops := [Stop({}, None, 0, 0, Returned)]);
    worlds := [START, stopping, started, reserved, returned];
    assert Cancelled([], {}) == [] && IDLE.running.Values == {};
    assert Next(START, steps[0], stopping) && Next(stopping, steps[1], started);
    assert Next(started, steps[2], reserved) && Next(reserved, steps[3], returned);
  }
}
