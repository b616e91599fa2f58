/** When a schedule runs next (accountautomation/schedule_time.go), with instants in nanoseconds. */
module ScheduleTime {
  import opened Common

  const MINUTE := 60_000_000_000
  const DAY := 1440 * MINUTE

  /** Beijing time is eight hours ahead of UTC. */
  const OFFSET := 480 * MINUTE

  const BEIJING := "Asia/Shanghai"

  /** A clock is the minute of the day that "HH:mm" denotes; the accepted notation gives each minute one text. */
  datatype Timing = Timing(kind: string, intervalMinutes: int, clocks: seq<int>, timezone: string)

  /** validateScheduleTiming */
  ghost predicate Valid(timing: Timing) {
    if timing.kind == "" || timing.kind == "interval" then
      1 <= timing.intervalMinutes <= 10080 && timing.clocks == [] && timing.timezone == ""
    else
      && timing.kind == "daily" && 1 <= |timing.clocks| <= 24 && timing.timezone == BEIJING
      && (forall c | c in timing.clocks :: 0 <= c < 1440) && AllDistinct(timing.clocks)
  }

  method ValidateTiming(timing: Timing) returns (ok: bool)
    ensures ok <==> Valid(timing)
  {
    if timing.kind == "" || timing.kind == "interval" {
      return 1 <= timing.intervalMinutes <= 10080 && timing.clocks == [] && timing.timezone == "";
    }
    if timing.kind != "daily" || |timing.clocks| < 1 || |timing.clocks| > 24 || timing.timezone != BEIJING { return false; }
    var seen := {};
    for i := 0 to |timing.clocks|
      invariant forall c :: c in seen <==> exists k :: 0 <= k < i && timing.clocks[k] == c
      invariant forall k | 0 <= k < i :: 0 <= timing.clocks[k] < 1440
      invariant forall j, k | 0 <= j < k < i :: timing.clocks[j] != timing.clocks[k]
    {
      var clock := timing.clocks[i];
      assert clock in timing.clocks;
      if clock < 0 || clock >= 1440 || clock in seen { return false; }
      seen := seen + {clock};
    }
    ok := true;
  }

  /** Saving and loading spell out the default kind. */
  function Normalized(timing: Timing): Timing {
    if timing.kind == "" then timing.(kind := "interval") else timing
  }

  // ---- The next run ----

  /** The start of the instant's day in Beijing. */
  function Midnight(instant: int): int {
    (instant + OFFSET) / DAY * DAY - OFFSET
  }

  /** Today's run at this clock or, if that is not after the instant, tomorrow's. */
  function Candidate(clock: int, after: int): int {
    var today := Midnight(after) + clock * MINUTE;
    if today > after then today else today + DAY
  }

  function NextDaily(clocks: seq<int>, after: int): int
    requires clocks != []
  {
    var last := Candidate(clocks[|clocks| - 1], after);
    if |clocks| == 1 then last
    else
      var earlier := NextDaily(clocks[..|clocks| - 1], after);
      if last < earlier then last else earlier
  }

  function NextRun(timing: Timing, after: int): int
    requires timing.kind == "daily" ==> timing.clocks != []
  {
    if timing.kind != "daily" then after + timing.intervalMinutes * MINUTE else NextDaily(timing.clocks, after)
  }

  /** NextRunAfter */
  method NextRunAfter(timing: Timing, after: int) returns (next: int)
    requires Valid(timing)
    ensures next == NextRun(timing, after)
  {
    if timing.kind != "daily" { return after + timing.intervalMinutes * MINUTE; }
    var earliest: Option<int> := None;
    for i := 0 to |timing.clocks|
      invariant if i == 0 then earliest == None else earliest == Some(NextDaily(timing.clocks[..i], after))
    {
      assert timing.clocks[..i + 1][..i] == timing.clocks[..i];
      var candidate := Midnight(after) + timing.clocks[i] * MINUTE;
      if candidate <= after { candidate := candidate + DAY; }
      if earliest.None? || candidate < earliest.value { earliest := Some(candidate); }
    }
    assert timing.clocks[..|timing.clocks|] == timing.clocks;
    next := earliest.value;
  }

  /** The instant shows one of the clocks in Beijing, to the nanosecond. */
  predicate Occurs(clocks: seq<int>, instant: int) {
    exists c :: c in clocks && instant + OFFSET == (instant + OFFSET) / DAY * DAY + c * MINUTE
  }

  lemma CandidateOccurs(clock: int, after: int)
    requires 0 <= clock < 1440
    ensures after < Candidate(clock, after) <= after + DAY
    ensures Occurs([clock], Candidate(clock, after))
  {
    var r := Candidate(clock, after) + OFFSET;
    var day := (after + OFFSET) / DAY;
    DivisionIs(r, if Midnight(after) + clock * MINUTE > after then day else day + 1);
    assert clock in [clock];
  }

  lemma DivisionIs(n: int, q: int)
    requires q * DAY <= n < q * DAY + DAY
    ensures n / DAY == q
  {
  }

  /** Between an instant and a clock's candidate the clock is not shown. */
  lemma CandidateIsFirst(clock: int, after: int, instant: int)
    requires 0 <= clock < 1440 && after < instant && Occurs([clock], instant)
    ensures Candidate(clock, after) <= instant
  {
    var day, other := (after + OFFSET) / DAY, (instant + OFFSET) / DAY;
    assert other >= day;
  }

  ghost predicate Clocks(clocks: seq<int>) {
    clocks != [] && forall c | c in clocks :: 0 <= c < 1440
  }

  /** The daily next run comes within a day, at one of the clocks, and none comes sooner. */
  lemma {:induction false} NextDailyIsEarliest(clocks: seq<int>, after: int)
    requires Clocks(clocks)
    ensures after < NextDaily(clocks, after) <= after + DAY && Occurs(clocks, NextDaily(clocks, after))
    ensures forall t | after < t < NextDaily(clocks, after) :: !Occurs(clocks, t)
  {
    hide Candidate;
    var n := |clocks| - 1;
    assert clocks[n] in clocks;
    assert forall c | c in clocks[..n] :: c in clocks;
    CandidateOccurs(clocks[n], after);
    if n > 0 { NextDailyIsEarliest(clocks[..n], after); }
    forall t | after < t < NextDaily(clocks, after) ensures !Occurs(clocks, t) {
      if Occurs([clocks[n]], t) { CandidateIsFirst(clocks[n], after, t); }
      OccursInParts(clocks, t);
    }
    OccursInParts(clocks, NextDaily(clocks, after));
  }

  lemma OccursInParts(clocks: seq<int>, t: int)
    requires clocks != []
    ensures Occurs(clocks, t) <==> Occurs(clocks[..|clocks| - 1], t) || Occurs([clocks[|clocks| - 1]], t)
  {
    var n := |clocks| - 1;
    assert clocks == clocks[..n] + [clocks[n]];
    forall c | c in clocks && t + OFFSET == (t + OFFSET) / DAY * DAY + c * MINUTE
      ensures Occurs(clocks[..n], t) || Occurs([clocks[n]], t)
    {
      assert c in clocks[..n] || c in [clocks[n]];
    }
    forall c | (c in clocks[..n] || c in [clocks[n]]) && t + OFFSET == (t + OFFSET) / DAY * DAY + c * MINUTE
      ensures Occurs(clocks, t)
    {
      assert c in clocks;
    }
  }

  /** There is only one earliest run, so clocks that occur alike give the same next run. */
  lemma SameOccurrencesSameNext(a: seq<int>, b: seq<int>, after: int)
    requires Clocks(a) && Clocks(b) && forall c :: c in a <==> c in b
    ensures NextDaily(a, after) == NextDaily(b, after)
  {
    NextDailyIsEarliest(a, after);
    NextDailyIsEarliest(b, after);
    assert Occurs(a, NextDaily(b, after)) && Occurs(b, NextDaily(a, after));
  }

  // ---- Comparing two schedules ----

  /** sameScheduleTiming tests membership in one direction only. */
  predicate SameTiming(a: Timing, b: Timing) {
    && a.kind == b.kind
    && if a.kind != "daily" then a.intervalMinutes == b.intervalMinutes
       else a.timezone == b.timezone && |a.clocks| == |b.clocks| && forall c | c in a.clocks :: c in b.clocks
  }

  /** At every instant the two schedules run next at the same time. */
  ghost predicate AgreeAlways(a: Timing, b: Timing)
    requires Valid(a) && Valid(b)
  {
    forall after :: NextRun(a, after) == NextRun(b, after)
  }

  /**
   sameScheduleTiming, on schedules with the default kind spelled out, tells exactly whether two valid schedules run
   next at the same time, whenever one asks.
   */
  lemma SameTimingIsAgreement(a: Timing, b: Timing)
    requires Valid(a) && Valid(b)
    ensures SameTiming(Normalized(a), Normalized(b)) <==> AgreeAlways(a, b)
  {
    if SameTiming(Normalized(a), Normalized(b)) {
      SameTimingAgrees(a, b);
    } else if AgreeAlways(a, b) {
      AgreementIsSameTiming(a, b);
    }
  }

  lemma ClocksFit(a: seq<int>, b: seq<int>)
    requires AllDistinct(a) && forall c | c in a :: c in b
    ensures |a| <= |b| && (|a| == |b| ==> forall c :: c in a <==> c in b)
  {
    forall i | 0 <= i < |a| ensures a[i] in b {
      var c := a[i];
      assert c in a;
    }
    DistinctMembersFit(a, b);
  }

  lemma SameTimingAgrees(a: Timing, b: Timing)
    requires Valid(a) && Valid(b) && SameTiming(Normalized(a), Normalized(b))
    ensures AgreeAlways(a, b)
  {
    if a.kind == "daily" {
      ClocksFit(a.clocks, b.clocks);
      assert forall c :: c in a.clocks <==> c in b.clocks;
      forall after ensures NextRun(a, after) == NextRun(b, after) {
        SameOccurrencesSameNext(a.clocks, b.clocks, after);
      }
    }
  }

  lemma AgreementIsSameTiming(a: Timing, b: Timing)
    requires Valid(a) && Valid(b) && AgreeAlways(a, b)
    ensures SameTiming(Normalized(a), Normalized(b))
  {
    if a.kind != "daily" && b.kind != "daily" {
      assert NextRun(a, 0) == NextRun(b, 0);
    } else if a.kind != "daily" {
      IntervalIsNotDaily(a, b);
    } else if b.kind != "daily" {
      IntervalIsNotDaily(b, a);
    } else {
      ClocksFound(a, b);
      ClocksFound(b, a);
      ClocksFit(a.clocks, b.clocks);
      ClocksFit(b.clocks, a.clocks);
    }
  }

  /** An interval also ends one nanosecond past midnight, where no clock points. */
  lemma IntervalIsNotDaily(a: Timing, b: Timing)
    requires Valid(a) && Valid(b) && a.kind != "daily" && b.kind == "daily"
    ensures !AgreeAlways(a, b)
  {
    var after := 1 - OFFSET - a.intervalMinutes * MINUTE;
    NextDailyIsEarliest(b.clocks, after);
    var r := NextRun(b, after);
    var c :| c in b.clocks && r + OFFSET == (r + OFFSET) / DAY * DAY + c * MINUTE;
    assert r + OFFSET == MINUTE * ((r + OFFSET) / DAY * 1440 + c);
    assert NextRun(a, after) + OFFSET == 1;
    assert NextRun(a, after) != NextRun(b, after);
  }

  /** Just before one of its clocks a daily schedule is due at that clock, so the other must list it. */
  lemma ClocksFound(a: Timing, b: Timing)
    requires Valid(a) && Valid(b) && a.kind == b.kind == "daily" && AgreeAlways(a, b)
    ensures forall c | c in a.clocks :: c in b.clocks
  {
    forall c | c in a.clocks ensures c in b.clocks {
      var due := c * MINUTE - OFFSET;
      DivisionIs(c * MINUTE, 0);
      assert Occurs(a.clocks, due);
      NextDailyIsEarliest(a.clocks, due - 1);
      assert NextRun(a, due - 1) == NextRun(b, due - 1) == due;
      NextDailyIsEarliest(b.clocks, due - 1);
      var d :| d in b.clocks && due + OFFSET == (due + OFFSET) / DAY * DAY + d * MINUTE;
    }
  }

  /** Without spelling out the default kind the comparison misses two equal schedules. */
  lemma BlankKindIsMissed(minutes: int)
    requires 1 <= minutes <= 10080
    ensures var a, b := Timing("", minutes, [], ""), Timing("interval", minutes, [], "");
      Valid(a) && Valid(b) && AgreeAlways(a, b) && !SameTiming(a, b)
  {
  }

  // ---- Editing a schedule ----

  /** A stored schedule; `request` stands for what it runs. */
  datatype Schedule = Schedule(
    id: string, request: string, enabled: bool, timing: Timing, lastRun: Option<int>, nextRun: Option<int>)

  ghost predicate Loadable(schedule: Schedule) {
    Valid(schedule.timing) && schedule.timing == Normalized(schedule.timing)
  }

  /** The run planned after an edit: the stored one if no future run moves, and none for a disabled schedule. */
  ghost function PlannedRun(schedule: Schedule, current: Schedule, now: int): Option<int>
    requires Loadable(schedule) && Loadable(current)
  {
    if !schedule.enabled then None
    else if current.enabled && current.nextRun.Some? && AgreeAlways(schedule.timing, current.timing) then current.nextRun
    else Some(NextRun(schedule.timing, now))
  }

  /**
   preserveScheduleRunTimes: an edit that leaves every future run where it was keeps the planned one; any other plans
   anew from now. The run history is the stored one.
   */
  method PreserveRunTimes(schedule: Schedule, current: Schedule, now: int) returns (kept: Schedule)
    requires Loadable(schedule) && Loadable(current)
    ensures kept == schedule.(lastRun := current.lastRun, nextRun := kept.nextRun)
    ensures kept.nextRun == PlannedRun(schedule, current, now)
  {
    kept := schedule.(lastRun := current.lastRun, nextRun := None);
    if !schedule.enabled { return; }
    SameTimingIsAgreement(schedule.timing, current.timing);
    if current.enabled && current.nextRun.Some? && SameTiming(schedule.timing, current.timing) {
      kept := kept.(nextRun := current.nextRun);
      return;
    }
    var next := NextRunAfter(schedule.timing, now);
    kept := kept.(nextRun := Some(next));
  }
}
