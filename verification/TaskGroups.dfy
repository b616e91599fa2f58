/**
 Schedules and the task groups that list them (accountautomation/service.go, task_groups.go, schedule_settings.go).
 Every operation is one transaction over both settings; it takes effect whole or not at all.
 */
module TaskGroups {
  import opened Common
  import opened ScheduleTime

  datatype Group = Group(id: string, name: string, members: seq<string>)

  predicate HexId(id: string) {
    |id| == 32 && forall c | c in id :: '0' <= c <= '9' || 'a' <= c <= 'f' || 'A' <= c <= 'F'
  }

  predicate Exists(schedules: seq<Schedule>, id: string) {
    exists k :: 0 <= k < |schedules| && schedules[k].id == id
  }

  /** validateTaskGroup; without `available` the members need not exist. */
  ghost predicate Acceptable(group: Group, available: Option<set<string>>) {
    && (group.id != "" ==> HexId(group.id))
    && Trim(group.name) != "" && |Trim(group.name)| <= 128
    && 2 <= |group.members| <= 50 && AllDistinct(group.members)
    && forall k | 0 <= k < |group.members| ::
      HexId(group.members[k]) && (available.Some? ==> group.members[k] in available.value)
  }

  method ValidateTaskGroup(group: Group, available: Option<set<string>>) returns (ok: bool)
    ensures ok <==> Acceptable(group, available)
  {
    hide HexId, Trim;
    if group.id != "" && !HexId(group.id) { return false; }
    if Trim(group.name) == "" || |Trim(group.name)| > 128 { return false; }
    if |group.members| < 2 || |group.members| > 50 { return false; }
    var seen := {};
    for i := 0 to |group.members|
      invariant forall id :: id in seen <==> exists k :: 0 <= k < i && group.members[k] == id
      invariant forall j, k | 0 <= j < k < i :: group.members[j] != group.members[k]
      invariant forall k | 0 <= k < i ::
        HexId(group.members[k]) && (available.Some? ==> group.members[k] in available.value)
    {
      if !HexId(group.members[i]) || group.members[i] in seen { return false; }
      if available.Some? && group.members[i] !in available.value { return false; }
      seen := seen + {group.members[i]};
    }
    ok := true;
  }

  // ---- Removal in place ----

  /** The plain filter. */
  function Kept<T>(items: seq<T>, keep: T -> bool): seq<T> {
    if items == [] then []
    else
      var earlier, last := Kept(items[..|items| - 1], keep), items[|items| - 1];
      if keep(last) then earlier + [last] else earlier
  }

  function WithoutSchedule(schedules: seq<Schedule>, id: string): seq<Schedule> {
    Kept(schedules, (s: Schedule) => s.id != id)
  }

  function WithoutGroup(groups: seq<Group>, id: string): seq<Group> {
    Kept(groups, (g: Group) => g.id != id)
  }

  function WithoutMember(members: seq<string>, id: string): seq<string> {
    Kept(members, (m: string) => m != id)
  }

  /** The groups, each without one member. */
  function Shrunk(groups: seq<Group>, id: string): seq<Group> {
    seq(|groups|, k requires 0 <= k < |groups| => groups[k].(members := WithoutMember(groups[k].members, id)))
  }

  predicate KeepsTwo(group: Group) {
    |group.members| >= 2
  }

  /** Groups that keep two members or more once a schedule is gone. */
  function WithoutMemberships(groups: seq<Group>, id: string): seq<Group> {
    Kept(Shrunk(groups, id), KeepsTwo)
  }

  lemma KeptOneMore<T>(items: seq<T>, i: nat, keep: T -> bool)
    requires i < |items|
    ensures Kept(items[..i + 1], keep) ==
      if keep(items[i]) then Kept(items[..i], keep) + [items[i]] else Kept(items[..i], keep)
  {
    assert items[..i + 1][..i] == items[..i];
  }

  /** The filtered list shares its storage with the list that is read: writing never overtakes reading. */
  method FilterSchedules(slice: array<Schedule>, id: string) returns (n: nat)
    modifies slice
    ensures n <= slice.Length && slice[..n] == WithoutSchedule(old(slice[..]), id)
  {
    n := 0;
    ghost var before := slice[..];
    for i := 0 to slice.Length
      invariant n <= i && (forall j | i <= j < slice.Length :: slice[j] == before[j])
      invariant slice[..n] == WithoutSchedule(before[..i], id)
    {
      var schedule := slice[i];
      KeptOneMore(before, i, (s: Schedule) => s.id != id);
      if schedule.id != id {
        slice[n] := schedule;
        n := n + 1;
      }
    }
    assert before[..slice.Length] == before;
  }

  method FilterGroups(slice: array<Group>, id: string) returns (n: nat)
    modifies slice
    ensures n <= slice.Length && slice[..n] == WithoutGroup(old(slice[..]), id)
  {
    n := 0;
    ghost var before := slice[..];
    for i := 0 to slice.Length
      invariant n <= i && (forall j | i <= j < slice.Length :: slice[j] == before[j])
      invariant slice[..n] == WithoutGroup(before[..i], id)
    {
      var group := slice[i];
      KeptOneMore(before, i, (g: Group) => g.id != id);
      if group.id != id {
        slice[n] := group;
        n := n + 1;
      }
    }
    assert before[..slice.Length] == before;
  }

  method RemoveMember(members: seq<string>, id: string) returns (kept: seq<string>)
    ensures kept == WithoutMember(members, id)
  {
    kept := [];
    for k := 0 to |members|
      invariant kept == WithoutMember(members[..k], id)
    {
      KeptOneMore(members, k, (m: string) => m != id);
      if members[k] != id { kept := kept + [members[k]]; }
    }
    assert members[..|members|] == members;
  }

  /** The first groups, shrunk, that keep two members or more. */
  function Surviving(groups: seq<Group>, id: string, i: nat): seq<Group>
    requires i <= |groups|
  {
    Kept(Shrunk(groups, id)[..i], KeepsTwo)
  }

  lemma SurvivingEnds(groups: seq<Group>, id: string)
    ensures Surviving(groups, id, 0) == [] && Surviving(groups, id, |groups|) == WithoutMemberships(groups, id)
  {
    assert Shrunk(groups, id)[..|groups|] == Shrunk(groups, id);
  }

  lemma SurvivingStep(groups: seq<Group>, id: string, i: nat)
    requires i < |groups|
    ensures Surviving(groups, id, i + 1) ==
      var group := groups[i].(members := WithoutMember(groups[i].members, id));
      if |group.members| >= 2 then Surviving(groups, id, i) + [group] else Surviving(groups, id, i)
  {
    KeptOneMore(Shrunk(groups, id), i, KeepsTwo);
  }

  /** removeScheduleFromTaskGroups; the member lists are built anew, only the list of groups is shared. */
  method RemoveMemberships(slice: array<Group>, id: string) returns (n: nat)
    modifies slice
    ensures n <= slice.Length && slice[..n] == WithoutMemberships(old(slice[..]), id)
  {
    hide Surviving, WithoutMember, WithoutMemberships;
    n := 0;
    ghost var before := slice[..];
    SurvivingEnds(before, id);
    for i := 0 to slice.Length
      invariant n <= i && (forall j | i <= j < slice.Length :: slice[j] == before[j])
      invariant slice[..n] == Surviving(before, id, i)
    {
      var group := slice[i];
      SurvivingStep(before, id, i);
      var kept := RemoveMember(group.members, id);
      if |kept| >= 2 {
        slice[n] := group.(members := kept);
        n := n + 1;
      }
    }
  }

  // ---- What removal keeps ----

  ghost predicate UniqueIds(schedules: seq<Schedule>) {
    forall i, j | 0 <= i < j < |schedules| :: schedules[i].id != schedules[j].id
  }

  ghost predicate UniqueGroups(groups: seq<Group>) {
    forall i, j | 0 <= i < j < |groups| :: groups[i].id != groups[j].id
  }

  lemma {:induction false} KeptMembers<T>(items: seq<T>, keep: T -> bool)
    ensures |Kept(items, keep)| <= |items| && forall x :: x in Kept(items, keep) <==> x in items && keep(x)
    ensures (forall x | x in items :: keep(x)) ==> Kept(items, keep) == items
  {
    if items != [] {
      var n := |items| - 1;
      KeptMembers(items[..n], keep);
      assert items == items[..n] + [items[n]];
    }
  }

  lemma {:induction false} KeptPlace<T>(items: seq<T>, keep: T -> bool, i: nat) returns (p: nat)
    requires i < |Kept(items, keep)|
    ensures p < |items| && items[p] == Kept(items, keep)[i]
  {
    var n := |items| - 1;
    if i < |Kept(items[..n], keep)| {
      p := KeptPlace(items[..n], keep, i);
    } else {
      p := n;
    }
  }

  /** A filter keeps the order: any two kept places come from two places in the same order. */
  lemma {:induction false} KeptOrder<T>(items: seq<T>, keep: T -> bool, i: nat, j: nat) returns (p: nat, q: nat)
    requires i < j < |Kept(items, keep)|
    ensures p < q < |items| && items[p] == Kept(items, keep)[i] && items[q] == Kept(items, keep)[j]
  {
    var n := |items| - 1;
    if j < |Kept(items[..n], keep)| {
      p, q := KeptOrder(items[..n], keep, i, j);
    } else {
      p := KeptPlace(items[..n], keep, i);
      q := n;
    }
  }

  lemma WithoutScheduleKeeps(schedules: seq<Schedule>, id: string)
    requires UniqueIds(schedules)
    ensures UniqueIds(WithoutSchedule(schedules, id))
    ensures forall s :: s in WithoutSchedule(schedules, id) <==> s in schedules && s.id != id
  {
    var keep := (s: Schedule) => s.id != id;
    KeptMembers(schedules, keep);
    var kept := WithoutSchedule(schedules, id);
    forall i, j | 0 <= i < j < |kept| ensures kept[i].id != kept[j].id {
      var p, q := KeptOrder(schedules, keep, i, j);
    }
  }

  lemma WithoutGroupKeeps(groups: seq<Group>, id: string)
    requires UniqueGroups(groups)
    ensures UniqueGroups(WithoutGroup(groups, id))
    ensures forall g :: g in WithoutGroup(groups, id) <==> g in groups && g.id != id
  {
    var keep := (g: Group) => g.id != id;
    KeptMembers(groups, keep);
    var kept := WithoutGroup(groups, id);
    forall i, j | 0 <= i < j < |kept| ensures kept[i].id != kept[j].id {
      var p, q := KeptOrder(groups, keep, i, j);
    }
  }

  lemma WithoutMemberKeeps(members: seq<string>, id: string)
    requires AllDistinct(members)
    ensures AllDistinct(WithoutMember(members, id)) && |WithoutMember(members, id)| <= |members|
    ensures forall m :: m in WithoutMember(members, id) <==> m in members && m != id
    ensures id !in members ==> WithoutMember(members, id) == members
  {
    var keep := (m: string) => m != id;
    KeptMembers(members, keep);
    var kept := WithoutMember(members, id);
    forall i, j | 0 <= i < j < |kept| ensures kept[i] != kept[j] {
      var p, q := KeptOrder(members, keep, i, j);
    }
  }

  /** A group survives, without the member, exactly if at least two members remain. */
  lemma WithoutMembershipsKeeps(groups: seq<Group>, id: string)
    requires UniqueGroups(groups)
    ensures UniqueGroups(WithoutMemberships(groups, id))
    ensures forall g :: g in WithoutMemberships(groups, id) <==> g in Shrunk(groups, id) && |g.members| >= 2
  {
    KeptMembers(Shrunk(groups, id), KeepsTwo);
    var kept := WithoutMemberships(groups, id);
    forall i, j | 0 <= i < j < |kept| ensures kept[i].id != kept[j].id {
      var p, q := KeptOrder(Shrunk(groups, id), KeepsTwo, i, j);
      assert groups[p].id != groups[q].id;
    }
  }

  // ---- The settings ----

  ghost predicate Linked(schedules: seq<Schedule>, groups: seq<Group>) {
    forall g | g in groups ::
      g.id != "" && Acceptable(g, None) && forall k | 0 <= k < |g.members| :: Exists(schedules, g.members[k])
  }

  class Settings {
    var schedules: seq<Schedule>
    var groups: seq<Group>

    /** Schedule IDs are unique, and every group lists two to fifty different schedules that exist. */
    ghost predicate Valid()
      reads this
    {
      && UniqueIds(schedules) && UniqueGroups(groups) && Linked(schedules, groups)
      && forall s | s in schedules :: Loadable(s)
    }

    constructor ()
      ensures Valid() && schedules == [] && groups == []
    {
      schedules, groups := [], [];
    }

    /** Whether the repository commits the transaction. */
    method Commits() returns (b: bool) {
      b := *;
    }

    /** The place of a schedule among the stored ones. */
    method Find(id: string) returns (index: Option<nat>)
      ensures match index
        case Some(k) => k < |schedules| && schedules[k].id == id && forall j | 0 <= j < k :: schedules[j].id != id
        case None => !Exists(schedules, id)
    {
      for k := 0 to |schedules|
        invariant forall j | 0 <= j < k :: schedules[j].id != id
      {
        if schedules[k].id == id { return Some(k); }
      }
      index := None;
    }

    /** SaveSchedule: replaces the schedule of that ID, keeping its run times where the edit allows, or appends it. */
    method SaveSchedule(schedule: Schedule, newId: string, now: int, requestAccepted: bool)
      returns (saved: Option<Schedule>)
      requires Valid()
      modifies this`schedules
      ensures Valid()
      ensures saved.None? ==> schedules == old(schedules)
      ensures saved.Some? ==> requestAccepted && Put(old(schedules), schedules, saved.value, now)
      ensures saved.Some? && !Exists(old(schedules), saved.value.id) ==>
        && Loadable(saved.value)
        && saved.value.lastRun == schedule.lastRun
        && saved.value.nextRun == if schedule.enabled && schedule.nextRun.None?
             then Some(NextRun(saved.value.timing, now)) else schedule.nextRun
      ensures saved.Some? ==> saved.value == schedule.(id := if schedule.id == "" then newId else schedule.id,
        timing := Normalized(schedule.timing), lastRun := saved.value.lastRun, nextRun := saved.value.nextRun)
    {
      var value := schedule.(timing := Normalized(schedule.timing));
      var valid := ValidateTiming(value.timing);
      if !valid || !requestAccepted { return None; }
      if value.enabled && value.nextRun.None? {
        var next := NextRunAfter(value.timing, now);
        value := value.(nextRun := Some(next));
      }
      if value.id == "" { value := value.(id := newId); }
      var commits := Commits();
      if !commits { return None; }
      var stored := PutSchedule(value, now);
      saved := Some(stored);
    }

    method PutSchedule(schedule: Schedule, now: int) returns (stored: Schedule)
      requires Valid() && Loadable(schedule)
      modifies this`schedules
      ensures Valid() && Put(old(schedules), schedules, stored, now)
      ensures !Exists(old(schedules), schedule.id) ==> stored == schedule
      ensures stored == schedule.(lastRun := stored.lastRun, nextRun := stored.nextRun)
    {
      stored := schedule;
      var index := Find(schedule.id);
      if index.Some? {
        assert schedules[index.value] in schedules;
        stored := PreserveRunTimes(schedule, schedules[index.value], now);
        Replace(index.value, stored);
      } else {
        AppendKeepsExists(schedules, schedule);
        schedules := schedules + [schedule];
      }
    }

    method Replace(index: nat, schedule: Schedule)
      requires Valid() && index < |schedules| && schedules[index].id == schedule.id && Loadable(schedule)
      modifies this`schedules
      ensures Valid() && schedules == old(schedules)[index := schedule]
    {
      ghost var before := schedules;
      schedules := schedules[index := schedule];
      forall id | Exists(before, id) ensures Exists(schedules, id) {
        var k :| 0 <= k < |before| && before[k].id == id;
        assert schedules[k].id == id;
      }
    }

    /** DeleteSchedule: the schedule goes, and with it every membership; groups left with fewer than two go too. */
    method DeleteSchedule(id: string) returns (done: bool)
      requires Valid()
      modifies this
      ensures Valid()
      ensures schedules == if done then WithoutSchedule(old(schedules), id) else old(schedules)
      ensures groups == if done then WithoutMemberships(old(groups), id) else old(groups)
    {
      done := Commits();
      if !done { return; }
      var slice := new Schedule[|schedules|](k requires 0 <= k < |schedules| reads this => schedules[k]);
      assert slice[..] == schedules;
      var n := FilterSchedules(slice, id);
      var groupSlice := new Group[|groups|](k requires 0 <= k < |groups| reads this => groups[k]);
      assert groupSlice[..] == groups;
      var m := RemoveMemberships(groupSlice, id);
      DeletionKeepsLinks(schedules, groups, id);
      WithoutScheduleKeeps(schedules, id);
      WithoutMembershipsKeeps(groups, id);
      schedules, groups := slice[..n], groupSlice[..m];
    }

    method SaveTaskGroup(group: Group, newId: string) returns (saved: Option<Group>)
      requires Valid() && HexId(newId)
      modifies this`groups
      ensures Valid()
      ensures saved.None? ==> groups == old(groups)
      ensures saved.Some? ==>
        && saved.value == Group(if group.id == "" then newId else group.id, Trim(group.name), group.members)
        && saved.value in groups
        && forall g: Group | g.id != saved.value.id :: g in groups <==> g in old(groups)
    {
      var value := group.(name := Trim(group.name));
      if value.id == "" { value := value.(id := newId); }
      var commits := Commits();
      if !commits { return None; }
      var available := set k | 0 <= k < |schedules| :: schedules[k].id;
      var ok := ValidateTaskGroup(value, Some(available));
      if !ok { return None; }
      PutGroup(value);
      saved := Some(value);
    }

    method PutGroup(group: Group)
      requires Valid() && group.id != "" && Linked(schedules, [group])
      modifies this`groups
      ensures Valid() && group in groups && forall g: Group | g.id != group.id :: g in groups <==> g in old(groups)
    {
      ghost var before := groups;
      assert group in [group];
      for k := 0 to |groups|
        invariant groups == before && forall j | 0 <= j < k :: groups[j].id != group.id
      {
        if groups[k].id == group.id {
          groups := groups[k := group];
          assert forall g | g in groups :: g in before || g == group;
          assert groups[k] == group;
          forall g: Group | g.id != group.id && g in before ensures g in groups {
            var j :| 0 <= j < |before| && before[j] == g;
            assert groups[j] == g;
          }
          return;
        }
      }
      groups := groups + [group];
    }

    method DeleteTaskGroup(id: string) returns (done: bool)
      requires Valid()
      modifies this`groups
      ensures Valid()
      ensures groups == if done then WithoutGroup(old(groups), id) else old(groups)
    {
      done := Commits();
      if !done { return; }
      var slice := new Group[|groups|](k requires 0 <= k < |groups| reads this => groups[k]);
      assert slice[..] == groups;
      var n := FilterGroups(slice, id);
      WithoutGroupKeeps(groups, id);
      groups := slice[..n];
    }

    /** recordScheduleStart: only the very configuration the run read may be recorded as started. */
    method RecordScheduleStart(original: Schedule, started: Schedule) returns (done: bool)
      requires Valid() && started.id == original.id && Loadable(started)
      modifies this`schedules
      ensures Valid()
      ensures done ==> exists k ::
        0 <= k < |old(schedules)| && old(schedules)[k] == original && schedules == old(schedules)[k := started]
      ensures !done ==> schedules == old(schedules)
    {
      var commits := Commits();
      if !commits { return false; }
      var index := Find(original.id);
      if index.None? || schedules[index.value] != original { return false; }
      Replace(index.value, started);
      done := true;
    }
  }

  /**
   The schedule took the place of the one with its ID, whose last run it keeps and whose planned run it keeps where no
   future run moves; or it was added at the end.
   */
  ghost predicate Put(before: seq<Schedule>, after: seq<Schedule>, schedule: Schedule, now: int) {
    if Exists(before, schedule.id) then
      exists k :: 0 <= k < |before| && before[k].id == schedule.id
        && after == before[k := schedule] && schedule.lastRun == before[k].lastRun
        && Loadable(schedule) && Loadable(before[k]) && schedule.nextRun == PlannedRun(schedule, before[k], now)
    else after == before + [schedule]
  }

  lemma AppendKeepsExists(schedules: seq<Schedule>, schedule: Schedule)
    ensures forall id | Exists(schedules, id) :: Exists(schedules + [schedule], id)
  {
    forall id | Exists(schedules, id) ensures Exists(schedules + [schedule], id) {
      var k :| 0 <= k < |schedules| && schedules[k].id == id;
      assert (schedules + [schedule])[k].id == id;
    }
  }

  /** No surviving group lists the deleted schedule or one that does not exist. */
  lemma DeletionKeepsLinks(schedules: seq<Schedule>, groups: seq<Group>, id: string)
    requires UniqueIds(schedules) && UniqueGroups(groups) && Linked(schedules, groups)
    ensures Linked(WithoutSchedule(schedules, id), WithoutMemberships(groups, id))
    ensures forall g | g in WithoutMemberships(groups, id) :: id !in g.members
  {
    hide HexId, Trim;
    WithoutScheduleKeeps(schedules, id);
    WithoutMembershipsKeeps(groups, id);
    forall g | g in WithoutMemberships(groups, id)
      ensures g.id != "" && Acceptable(g, None) && id !in g.members
      ensures forall k | 0 <= k < |g.members| :: Exists(WithoutSchedule(schedules, id), g.members[k])
    {
      var j :| 0 <= j < |groups| && Shrunk(groups, id)[j] == g;
      var whole := groups[j];
      assert whole in groups;
      WithoutMemberKeeps(whole.members, id);
      forall k | 0 <= k < |g.members|
        ensures HexId(g.members[k]) && Exists(WithoutSchedule(schedules, id), g.members[k])
      {
        assert g.members[k] in whole.members && g.members[k] != id;
        var l :| 0 <= l < |whole.members| && whole.members[l] == g.members[k];
        var i :| 0 <= i < |schedules| && schedules[i].id == whole.members[l];
        assert schedules[i] in WithoutSchedule(schedules, id);
      }
    }
  }

  /** Any operations in any order, from empty settings. */
  method EverySettings() returns (settings: Settings)
    ensures settings.Valid()
  {
    settings := new Settings();
    var steps: nat := *;
    while steps > 0
      invariant settings.Valid()
    {
      steps := steps - 1;
      var choice: int := *;
      var id: string := *;
      var schedule: Schedule := *;
      if choice == 0 {
        var now: int := *;
        var accepted: bool := *;
        var saved := settings.SaveSchedule(schedule, id, now, accepted);
      } else if choice == 1 {
        var done := settings.DeleteSchedule(id);
      } else if choice == 2 {
        var group: Group := *;
        if HexId(id) { var saved := settings.SaveTaskGroup(group, id); }
      } else if choice == 3 {
        var done := settings.DeleteTaskGroup(id);
      } else {
        var index := settings.Find(id);
        if index.Some? {
          var original := settings.schedules[index.value];
          assert original in settings.schedules;
          var lastRun, nextRun, request := *, *, *;
          var started := original.(lastRun := lastRun, nextRun := nextRun, request := request, id := schedule.id);
          var done := settings.RecordScheduleStart(schedule, started);
        }
      }
    }
  }
}
