/**
 Changing an account's settings on the management site and in the local records (applySettings in
 accountops/service.go, with settings_readback.go and field_scheduling.go). Site and repository answer arbitrarily.
 */
module SettingsSaga {
  import opened Common

  /** A load factor as read: null or absent, a decimal in canonical form, or something unreadable. */
  datatype Load = Absent | Decimal(text: string) | Unreadable

  /** An account as read back; a field that is missing or malformed is None. */
  datatype Account = Account(priority: Option<int>, load: Load, concurrency: Option<int>, schedulable: Option<bool>)

  datatype Input = Input(priority: int, load: string, followConcurrency: bool, concurrency: int, paused: bool)

  /** The four values a rollback restores; a load factor of zero follows the concurrency. */
  datatype Values = Values(priority: int, load: string, concurrency: int, schedulable: bool)

  /** accountSettingsLoadFactor */
  function LoadOf(account: Account): Option<string> {
    match account.load
    case Absent => Some("0")
    case Decimal(text) => Some(text)
    case Unreadable => None
  }

  /** accountSettingsRollbackBody */
  function ValuesOf(account: Account): Option<Values> {
    if account.priority.Some? && account.priority.value >= 1 && LoadOf(account).Some?
       && account.concurrency.Some? && account.concurrency.value >= 1 && account.schedulable.Some?
    then Some(Values(account.priority.value, LoadOf(account).value, account.concurrency.value, account.schedulable.value))
    else None
  }

  function Requested(input: Input): Values {
    Values(input.priority, if input.followConcurrency then "0" else input.load, input.concurrency, !input.paused)
  }

  /** verifyAccountSettingsParameters; only an explicit decimal answers a requested one. */
  predicate ParametersHold(account: Account, input: Input) {
    && account.priority == Some(input.priority) && account.concurrency == Some(input.concurrency)
    && if input.followConcurrency then LoadOf(account) == Some("0") else account.load == Decimal(input.load)
  }

  // ---- History ----

  /** What the site answers to the dedicated request. */
  datatype Answer = Accepted | Missing | Refused

  datatype Event =
    | Admitted(ok: bool)              // the lease, full mode, no manual control, an ordinary priority
    | Read(account: Account)
    | SettingsPut(body: Values, acknowledged: bool)
    | SwitchPosted(on: bool, undo: bool, answer: Answer)    // the dedicated scheduling request, or its undoing
    | SwitchPut(on: bool, undo: bool, acknowledged: bool)   // its fallback, where the site lacks that request
    | RestorePut(body: Values, acknowledged: bool)
    | Committed(ok: bool)             // the local records, in one transaction

  datatype History = Begin | Then(before: History, event: Event)

  function LastRead(h: History): Option<Account> {
    if h.Begin? then None else if h.event.Read? then Some(h.event.account) else LastRead(h.before)
  }

  /** The site acknowledged the first write. */
  predicate Acknowledged(h: History) {
    h.Then? && ((h.event.SettingsPut? && h.event.acknowledged) || Acknowledged(h.before))
  }

  predicate WasAdmitted(h: History) {
    h.Then? && (h.event == Admitted(true) || WasAdmitted(h.before))
  }

  predicate WritesBegun(h: History) {
    h.Then? && (h.event.SettingsPut? || WritesBegun(h.before))
  }

  predicate Restoring(h: History) {
    h.Then? && (h.event.RestorePut? || Restoring(h.before))
  }

  /** The scheduling switch was touched. */
  predicate Touched(h: History) {
    h.Then? && ((h.event.SwitchPosted? && !h.event.undo) || Touched(h.before))
  }

  /** The site acknowledged the switch, in the dedicated request or in its fallback. */
  predicate Switched(h: History, on: bool, undo: bool) {
    h.Then? &&
    (h.event == SwitchPosted(on, undo, Accepted) || h.event == SwitchPut(on, undo, true) || Switched(h.before, on, undo))
  }

  /** The last read of the account came after the switch was acknowledged. */
  predicate ReadSinceSwitch(h: History, on: bool) {
    h.Then? && if h.event.Read? then Switched(h.before, on, false) else ReadSinceSwitch(h.before, on)
  }

  /** The site acknowledged the restored values, and the switch once more if it was touched. */
  predicate UndoneBySite(h: History, original: Values) {
    RestoreAcknowledged(h, original) && (Touched(h) ==> Switched(h, original.schedulable, true))
  }

  predicate RestoreAcknowledged(h: History, original: Values) {
    h.Then? && (h.event == RestorePut(original, true) || RestoreAcknowledged(h.before, original))
  }

  predicate IsCommitted(h: History) {
    h.Then? && (h.event == Committed(true) || IsCommitted(h.before))
  }

  /** The switch shows what was asked for, or the site acknowledged it and the account was read after that. */
  predicate SwitchSettled(h: History, input: Input) {
    LastRead(h).Some? && (LastRead(h).value.schedulable == Some(!input.paused) || ReadSinceSwitch(h, !input.paused))
  }

  /** The account as it was read before the first write. */
  function Original(h: History): Option<Account> {
    if h.Begin? then None
    else if h.event.SettingsPut? then LastRead(h.before)
    else Original(h.before)
  }

  /** Switching follows a readback of the requested parameters that shows the other position. */
  predicate MaySwitch(h: History, input: Input, on: bool) {
    && h.Then? && h.event.Read? && ParametersHold(h.event.account, input) && WritesBegun(h) && !Restoring(h)
    && on == !input.paused && h.event.account.schedulable == Some(!on)
  }

  predicate MayUndo(h: History, on: bool) {
    h.Then? && h.event.RestorePut? && Touched(h) && Original(h).Some? && Original(h).value.schedulable == Some(on)
  }

  /** The dedicated request was sent, and its fallback exactly where the site has none; `ok` if either took effect. */
  predicate SwitchWritten(before: History, after: History, on: bool, undo: bool, ok: bool) {
    || after == Then(before, SwitchPosted(on, undo, if ok then Accepted else Refused))
    || after == Then(Then(before, SwitchPosted(on, undo, Missing)), SwitchPut(on, undo, ok))
  }

  /** Nothing was read as the original, acknowledged first, restored or committed in between. */
  ghost predicate SameStage(before: History, after: History) {
    && WritesBegun(after) == WritesBegun(before) && Original(after) == Original(before)
    && Acknowledged(after) == Acknowledged(before) && Restoring(after) == Restoring(before)
    && IsCommitted(after) == IsCommitted(before)
    && forall original :: RestoreAcknowledged(after, original) == RestoreAcknowledged(before, original)
  }

  predicate Admissible(h: History, input: Input, e: Event) {
    match e
    case SettingsPut(body, _) =>
      !WritesBegun(h) && WasAdmitted(h) && body == Requested(input) && LastRead(h).Some? && ValuesOf(LastRead(h).value).Some?
    case SwitchPosted(on, undo, _) => if undo then MayUndo(h, on) else MaySwitch(h, input, on)
    case SwitchPut(on, undo, _) => h.Then? && h.event == SwitchPosted(on, undo, Missing)
    case RestorePut(body, _) =>
      && WritesBegun(h) && !Restoring(h) && !IsCommitted(h)
      && Original(h).Some? && ValuesOf(Original(h).value) == Some(body)
    case Committed(_) =>
      WritesBegun(h) && !Restoring(h) && LastRead(h).Some? && ParametersHold(LastRead(h).value, input)
      && LastRead(h).value.schedulable.Some? && SwitchSettled(h, input)
    case Read(_) => true
    case Admitted(_) => true
  }

  predicate Disciplined(h: History, input: Input) {
    h.Then? ==> Disciplined(h.before, input) && Admissible(h.before, input, h.event)
  }

  /** The last thing that happened is a readback of all four original values. */
  predicate RestoredAll(h: History) {
    && h.Then? && h.event.Read? && Restoring(h) && Original(h).Some?
    && ValuesOf(Original(h).value).Some? && ValuesOf(h.event.account) == ValuesOf(Original(h).value)
  }

  datatype Outcome = Done(readbackConfirmed: bool) | Failed(remoteWritten: bool)

  lemma {:induction false} NothingUndoneYet(h: History, input: Input, original: Values)
    requires Disciplined(h, input) && !Restoring(h)
    ensures !RestoreAcknowledged(h, original) && !Switched(h, original.schedulable, true)
  {
    if h.Then? { NothingUndoneYet(h.before, input, original); }
  }

  class Saga {
    const input: Input
    var history: History

    ghost predicate Valid()
      reads this
    {
      Disciplined(history, input)
    }

    constructor (input: Input)
      ensures Valid() && history == Begin && this.input == input
    {
      this.input, history := input, Begin;
    }

    method Record(e: Event)
      requires Valid() && Admissible(history, input, e)
      modifies this`history
      ensures Valid() && history == Then(old(history), e)
    {
      history := Then(history, e);
    }

    method Succeeds() returns (b: bool) {
      b := *;
    }

    method ReadAccount() returns (account: Option<Account>)
      requires Valid()
      modifies this`history
      ensures Valid() && SameStage(old(history), history) && Touched(history) == Touched(old(history))
      ensures forall on, undo :: Switched(history, on, undo) == Switched(old(history), on, undo)
      ensures account.Some? ==> history == Then(old(history), Read(account.value))
      ensures account.None? ==> history == old(history)
    {
      var answered: bool := *;
      var seen: Account := *;
      if !answered { return None; }
      Record(Read(seen));
      account := Some(seen);
    }

    /** writeAccountSchedulable: the dedicated request, and its fallback exactly where the site has none. */
    method WriteSwitch(on: bool, undo: bool) returns (ok: bool)
      requires Valid() && (if undo then MayUndo(history, on) else MaySwitch(history, input, on))
      modifies this`history
      ensures Valid() && SwitchWritten(old(history), history, on, undo, ok)
      ensures SameStage(old(history), history) && Touched(history) == (Touched(old(history)) || !undo)
      ensures Switched(history, on, undo) == (ok || Switched(old(history), on, undo))
    {
      var answer: Answer := *;
      Record(SwitchPosted(on, undo, answer));
      if answer.Accepted? { return true; }
      if answer.Refused? { return false; }
      ok := Succeeds();
      Record(SwitchPut(on, undo, ok));
    }

    /** The rollback closure: restores the four values, the scheduling switch once more if it was touched, and reads. */
    method Rollback(original: Values, touched: bool) returns (outcome: Outcome)
      requires Valid() && WritesBegun(history) && !Restoring(history) && !IsCommitted(history)
      requires Original(history).Some? && ValuesOf(Original(history).value) == Some(original)
      requires touched == Touched(history)
      modifies this`history
      ensures Valid() && outcome.Failed?
      ensures !outcome.remoteWritten <==> RestoredAll(history) && UndoneBySite(history, original)
      ensures Restoring(history) && Acknowledged(history) == Acknowledged(old(history)) && !IsCommitted(history)
      ensures Original(history) == Original(old(history)) && Touched(history) == Touched(old(history))
    {
      NothingUndoneYet(history, input, original);
      var confirmed := Succeeds();
      Record(RestorePut(original, confirmed));
      if touched {
        var switchedBack := WriteSwitch(original.schedulable, true);
        confirmed := confirmed && switchedBack;
      }
      if !confirmed { return Failed(true); }
      var restored := ReadAccount();
      if restored.None? || ValuesOf(restored.value) != Some(original) { return Failed(true); }
      outcome := Failed(false);
    }

    /** syncAccountScheduling: the switch, and a readback once it is acknowledged. */
    method SwitchScheduling() returns (account: Option<Account>)
      requires Valid() && WritesBegun(history) && !Restoring(history) && !IsCommitted(history)
      requires MaySwitch(history, input, !input.paused)
      modifies this`history
      ensures Valid() && WritesBegun(history) && !Restoring(history) && Original(history) == Original(old(history))
      ensures Acknowledged(history) == Acknowledged(old(history)) && Touched(history) && !IsCommitted(history)
      ensures account.Some? ==> LastRead(history) == account && ReadSinceSwitch(history, !input.paused)
    {
      var ok := WriteSwitch(!input.paused, false);
      if !ok { return None; }
      account := ReadAccount();
    }

    /** What follows an acknowledged write: verification, the scheduling switch if needed, and the local commit. */
    method Confirm() returns (outcome: Option<Outcome>, touched: bool)
      requires Valid() && WritesBegun(history) && !Restoring(history) && !Touched(history) && !IsCommitted(history)
      modifies this`history
      ensures Valid() && WritesBegun(history) && !Restoring(history) && Original(history) == Original(old(history))
      ensures Acknowledged(history) == Acknowledged(old(history)) && touched == Touched(history)
      ensures outcome.Some? <==> IsCommitted(history)
      ensures outcome.Some? ==> SwitchSettled(history, input)
      ensures outcome.Some? ==> outcome.value.Done? && history.Then? && history.event == Committed(true)
      ensures outcome.Some? ==>
        && LastRead(history).Some? && ParametersHold(LastRead(history).value, input)
        && outcome.value.readbackConfirmed == (LastRead(history).value.schedulable == Some(!input.paused))
    {
      touched := false;
      var after := ReadAccount();
      if after.None? || !ParametersHold(after.value, input) || after.value.schedulable.None? { return None, touched; }
      if after.value.schedulable.value != !input.paused {
        touched := true;
        after := SwitchScheduling();
        if after.None? || !ParametersHold(after.value, input) || after.value.schedulable.None? { return None, touched; }
      }
      var operationNamed := Succeeds();
      if !operationNamed { return None, touched; }
      var committed := Succeeds();
      Record(Committed(committed));
      if !committed { return None, touched; }
      outcome := Some(Done(after.value.schedulable.value == !input.paused));
    }

    /**
     applySettings: a failure after the first write was acknowledged either says so or ends with a readback of all
     four original values; success means the local commit, after the parameters were verified and the switch was found
     as asked for or acknowledged and read again. A rollback counts only once the site acknowledged all of it.
     */
    method Apply() returns (outcome: Outcome)
      requires history == Begin
      modifies this`history
      ensures Valid()
      ensures outcome.Done? <==> IsCommitted(history)
      ensures outcome.Failed? && Acknowledged(history) ==>
        && Original(history).Some? && ValuesOf(Original(history).value).Some?
        && (!outcome.remoteWritten <==>
              RestoredAll(history) && UndoneBySite(history, ValuesOf(Original(history).value).value))
      ensures outcome.Failed? && !Acknowledged(history) ==> !outcome.remoteWritten && !Restoring(history)
      ensures outcome.Failed? && Acknowledged(history) ==> Restoring(history)
      // After a write was sent, a failure neither says so nor restores exactly if the write was not acknowledged.
      ensures outcome.Failed? && WritesBegun(history) ==>
        ((!outcome.remoteWritten && !RestoredAll(history)) <==> !Acknowledged(history))
      ensures outcome.Done? ==> history.Then? && history.event == Committed(true) && !Restoring(history)
      ensures outcome.Done? ==> SwitchSettled(history, input)
      ensures outcome.Done? ==>
        && LastRead(history).Some? && ParametersHold(LastRead(history).value, input)
        && outcome.readbackConfirmed == (LastRead(history).value.schedulable == Some(!input.paused))
    {
      hide ParametersHold, ValuesOf;
      var allowed := Succeeds();
      Record(Admitted(allowed));
      if !allowed { return Failed(false); }
      var before := ReadAccount();
      if before.None? || ValuesOf(before.value).None? { return Failed(false); }
      var original := ValuesOf(before.value).value;
      var acknowledged := Succeeds();
      Record(SettingsPut(Requested(input), acknowledged));
      if !acknowledged { return Failed(false); }
      var confirmed, touched := Confirm();
      if confirmed.Some? { return confirmed.value; }
      outcome := Rollback(original, touched);
    }
  }

  // ---- What every history guarantees ----

  predicate IsPrefix(p: History, h: History) {
    p == h || (h.Then? && IsPrefix(p, h.before))
  }

  lemma {:induction false} EveryEventAdmissible(h: History, input: Input, p: History, e: Event)
    requires Disciplined(h, input) && IsPrefix(Then(p, e), h)
    ensures Disciplined(p, input) && Admissible(p, input, e)
  {
    if h != Then(p, e) { EveryEventAdmissible(h.before, input, p, e); }
  }

  /** Scheduling is switched only right after a readback of the requested parameters; likewise the commit. */
  lemma {:induction false} VerifiedBeforeSwitchAndCommit(h: History, input: Input, p: History, e: Event)
    requires Disciplined(h, input) && IsPrefix(Then(p, e), h) 
    requires e.Committed? || (e.SwitchPosted? && !e.undo)
    ensures LastRead(p).Some? && ParametersHold(LastRead(p).value, input) && !Restoring(p)
  {
    EveryEventAdmissible(h, input, p, e);
  }

  /** A write that the site may have applied is the last event of a run that Apply reports as not written. */
  lemma UnacknowledgedWriteIsLeft() returns (input: Input, h: History)
    ensures Disciplined(h, input) && WritesBegun(h) && !Acknowledged(h) && !Restoring(h)
    ensures h.Then? && h.event == SettingsPut(Requested(input), false)
    ensures Original(h).Some? && ValuesOf(Original(h).value).Some? && ValuesOf(Original(h).value) != Some(Requested(input))
  {
    input := Input(5, "1.5", false, 3, false);
    h := Then(Then(Then(Begin, Admitted(true)), Read(Account(Some(1), Absent, Some(2), Some(true)))), SettingsPut(Requested(input), false));
  }

  /** A change is committed only when the switch shows what was asked for, or was acknowledged and read again. */
  lemma {:induction false} CommitMeansSwitchSettled(h: History, input: Input, p: History, ok: bool)
    requires Disciplined(h, input) && IsPrefix(Then(p, Committed(ok)), h)
    ensures SwitchSettled(p, input)
    ensures LastRead(p).value.schedulable != Some(!input.paused) ==> Switched(p, !input.paused, false)
  {
    EveryEventAdmissible(h, input, p, Committed(ok));
    if ReadSinceSwitch(p, !input.paused) { ReadSinceMeansSwitched(p, !input.paused); }
  }

  lemma {:induction false} ReadSinceMeansSwitched(h: History, on: bool)
    requires ReadSinceSwitch(h, on)
    ensures Switched(h, on, false)
  {
    if !h.event.Read? { ReadSinceMeansSwitched(h.before, on); }
  }

  /** The account is written only after the change was admitted and the account read with four readable values. */
  lemma {:induction false} WritesWereAdmitted(h: History, input: Input, p: History, body: Values, acknowledged: bool)
    requires Disciplined(h, input) && IsPrefix(Then(p, SettingsPut(body, acknowledged)), h)
    ensures WasAdmitted(p) && !WritesBegun(p) && body == Requested(input)
    ensures LastRead(p).Some? && ValuesOf(LastRead(p).value).Some?
  {
    EveryEventAdmissible(h, input, p, SettingsPut(body, acknowledged));
  }

  /** No rollback begins once the change is committed, and none undoes a switch that was not touched. */
  lemma {:induction false} UndoneOnlyIfTouched(h: History, input: Input, p: History, e: Event)
    requires Disciplined(h, input) && IsPrefix(Then(p, e), h)
    ensures e.RestorePut? ==> !IsCommitted(p)
    ensures e.SwitchPosted? && e.undo ==> Touched(p) && Restoring(p)
    ensures e.SwitchPut? ==> p.Then? && p.event == SwitchPosted(e.on, e.undo, Missing)
  {
    EveryEventAdmissible(h, input, p, e);
  }

  /** Reading zero or nothing as the load factor is one and the same state: following the concurrency. */
  lemma RestoredMeansSameFour(original: Account, restored: Account)
    requires ValuesOf(original).Some?
    ensures ValuesOf(restored) == ValuesOf(original) <==>
      && restored.priority == original.priority && restored.concurrency == original.concurrency
      && restored.schedulable == original.schedulable
      && (restored.load == original.load
          || (restored.load in {Absent, Decimal("0")} && original.load in {Absent, Decimal("0")}))
  {
  }
}
