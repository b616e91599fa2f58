/**
 Deleting an account on both sides (accountdelete/service.go): first the upstream key with what is kept about it,
 then the management account, then the local records. Sites, stores and locks answer arbitrarily.
 */
module AccountDelete {
  import opened Common

  datatype Binding = Binding(id: int, upstreamId: string, upstreamHost: string, authHost: string, keyId: string)

  datatype Preview = Preview(
    accountId: string, accountName: string, baseUrl: string, fingerprint: string, binding: Option<Binding>)

  /** What became of the management account, as the read after its deletion showed: status 404, an account, or neither. */
  datatype Readback = Gone | Readable | Unclear

  /** The result flags of one deletion. */
  datatype Flags = Flags(
    keyDeleteRequested: bool, keyDeleted: bool, keyAlreadyAbsent: bool, keyReadbackFailed: bool, keyStillReadable: bool,
    keyProjectionDeleted: bool, keySecretDeleted: bool, accountDeleteRequested: bool, accountStillReadable: bool,
    accountReadbackFailed: bool, accountDeleted: bool, projectionDeleted: bool, readbackConfirmed: bool)

  const NO_FLAGS := Flags(false, false, false, false, false, false, false, false, false, false, false, false, false)

  datatype Stage =
    | RemoteDelete | KeyReadback | KeyReconcile | SecretReconcile | TargetCheck | ManagementReadback
    | ManagementStillReadable | LocalCommit | Done

  /** The audit record of a deletion. */
  datatype Operation = Operation(
    failed: bool, phase: Stage, remoteConfirmed: bool, readbackConfirmed: bool, writeback: bool, after: Flags)

  // ---- History ----

  datatype Event =
    | Admitted(locked: bool, full: bool)                 // the leases, and the runtime mode
    | Screened(unprotected: bool, confirmed: bool)       // the account's protection, and the target once more
    | Rechecked(current: Preview)                        // read again under the lock
    | KeysListed(keys: Option<seq<string>>)              // the upstream's key IDs, or a failed listing
    | KeyDeleteSent
    | KeyProjectionCleaned(ok: bool)
    | KeySecretCleaned(ok: bool)
    | TargetConfirmed(ok: bool)
    | AccountDeleteSent
    | AccountRead(seen: Readback)
    | ProjectionRemoved(operation: Operation, ok: bool)  // the local records go together with the final audit
    | Audited(operation: Operation)                      // the failure audit is handed to the store

  datatype History = Begin | Then(before: History, event: Event)

  predicate Happened(h: History, e: Event) {
    h.Then? && (h.event == e || Happened(h.before, e))
  }

  function Audits(h: History): nat {
    if h.Begin? then 0 else Audits(h.before) + if h.event.Audited? then 1 else 0
  }

  function AccountDeletes(h: History): nat {
    if h.Begin? then 0 else AccountDeletes(h.before) + if h.event.AccountDeleteSent? then 1 else 0
  }

  function KeyDeletes(h: History): nat {
    if h.Begin? then 0 else KeyDeletes(h.before) + if h.event.KeyDeleteSent? then 1 else 0
  }

  predicate Contains(keys: seq<string>, id: string) {
    exists i :: 0 <= i < |keys| && Trim(keys[i]) == id
  }

  predicate ShowsAbsent(e: Event, id: string) {
    e.KeysListed? && e.keys.Some? && !Contains(e.keys.value, id)
  }

  predicate ShowsPresent(e: Event, id: string) {
    e.KeysListed? && e.keys.Some? && Contains(e.keys.value, id)
  }

  /** Some listing did not contain the key. */
  predicate KeyAbsent(h: History, id: string) {
    h.Then? && (ShowsAbsent(h.event, id) || KeyAbsent(h.before, id))
  }

  /** The listing after the key's deletion failed, or still shows the key. */
  predicate ListingFailed(h: History) {
    h.Then? && ((h.event == KeysListed(None) && Happened(h.before, KeyDeleteSent)) || ListingFailed(h.before))
  }

  predicate KeyStillListed(h: History, id: string) {
    h.Then? && ((ShowsPresent(h.event, id) && Happened(h.before, KeyDeleteSent)) || KeyStillListed(h.before, id))
  }

  predicate ProjectionGone(h: History) {
    h.Then? && ((h.event.ProjectionRemoved? && h.event.ok) || ProjectionGone(h.before))
  }

  function KeyOf(preview: Preview): string {
    if preview.binding.Some? then preview.binding.value.keyId else ""
  }

  predicate Destroyed(h: History) {
    Happened(h, KeyDeleteSent) || Happened(h, AccountDeleteSent)
  }

  /** The leases were held in full mode, the account was read again as confirmed, and it was not protected. */
  predicate Cleared(h: History, expected: Preview) {
    Happened(h, Admitted(true, true)) && Happened(h, Rechecked(expected)) && Happened(h, Screened(true, true))
  }

  /** The deletion has begun in earnest: something was destroyed, or the key was found gone. */
  predicate Underway(h: History, expected: Preview) {
    Destroyed(h) || (expected.binding.Some? && KeyAbsent(h, KeyOf(expected)))
  }

  /** The upstream side is finished: key gone, its records and secret cleaned, the target confirmed just now. */
  predicate UpstreamFinished(h: History, expected: Preview) {
    && KeyAbsent(h, KeyOf(expected)) && Happened(h, KeyProjectionCleaned(true)) && Happened(h, KeySecretCleaned(true))
    && h.Then? && h.event == TargetConfirmed(true)
  }

  /** The stage whose failure the latest event is. */
  function FailedStage(h: History, expected: Preview): Option<Stage> {
    if h.Begin? then None
    else match h.event
      case KeysListed(_) =>
        if Happened(h.before, KeyDeleteSent) && !ShowsAbsent(h.event, KeyOf(expected)) then Some(KeyReadback) else None
      case KeyProjectionCleaned(ok) => if ok then None else Some(KeyReconcile)
      case KeySecretCleaned(ok) => if ok then None else Some(SecretReconcile)
      case TargetConfirmed(ok) => if ok then None else Some(TargetCheck)
      case AccountRead(seen) =>
        if seen == Readable then Some(ManagementStillReadable) else if seen == Unclear then Some(ManagementReadback) else None
      case ProjectionRemoved(_, ok) => if ok then None else Some(LocalCommit)
      case _ => None
  }

  /** What the audit of a deletion says, told from the history alone. */
  predicate Truthful(operation: Operation, h: History, expected: Preview) {
    && operation.writeback == Destroyed(h)
    && operation.remoteConfirmed ==
       (Happened(h, AccountRead(Gone)) && (expected.binding.None? || KeyAbsent(h, KeyOf(expected))))
    && operation.readbackConfirmed == operation.remoteConfirmed
  }

  predicate Admissible(h: History, expected: Preview, e: Event) {
    match e
    case Rechecked(current) => current == expected && Happened(h, Admitted(true, true))
    case KeyDeleteSent =>
      && expected.binding.Some? && Cleared(h, expected)
      && h.Then? && ShowsPresent(h.event, KeyOf(expected)) && KeyDeletes(h) == 0
    case KeyProjectionCleaned(_) => KeyAbsent(h, KeyOf(expected))
    case KeySecretCleaned(_) => Happened(h, KeyProjectionCleaned(true))
    case AccountDeleteSent =>
      && Cleared(h, expected) && AccountDeletes(h) == 0
      && (expected.binding.None? || UpstreamFinished(h, expected))
    case AccountRead(_) => h.Then? && h.event == AccountDeleteSent
    case ProjectionRemoved(operation, _) =>
      && h.Then? && h.event == AccountRead(Gone)
      && !operation.failed && operation.phase == Done && Truthful(operation, h, expected)
      && operation.after.projectionDeleted
      && FlagsTell(operation.after.(projectionDeleted := ProjectionGone(h)), h, expected)
    case Audited(operation) =>
      && Audits(h) == 0 && operation.failed && Truthful(operation, h, expected)
      && FailedStage(h, expected) == Some(operation.phase) && FlagsTell(operation.after, h, expected)
    case _ => true
  }

  predicate Disciplined(h: History, expected: Preview) {
    h.Then? ==> Disciplined(h.before, expected) && Admissible(h.before, expected, h.event)
  }

  // ---- The flags tell the history ----

  predicate FlagsTell(flags: Flags, h: History, expected: Preview) {
    && flags.keyDeleteRequested == Happened(h, KeyDeleteSent)
    && flags.keyDeleted == (expected.binding.Some? && KeyAbsent(h, KeyOf(expected)))
    && flags.keyAlreadyAbsent == (flags.keyDeleted && !flags.keyDeleteRequested)
    && flags.keyReadbackFailed == ListingFailed(h)
    && flags.keyStillReadable == (expected.binding.Some? && KeyStillListed(h, KeyOf(expected)))
    && flags.keyProjectionDeleted == Happened(h, KeyProjectionCleaned(true))
    && flags.keySecretDeleted == Happened(h, KeySecretCleaned(true))
    && flags.accountDeleteRequested == Happened(h, AccountDeleteSent)
    && flags.accountDeleted == flags.readbackConfirmed == Happened(h, AccountRead(Gone))
    && flags.accountStillReadable == Happened(h, AccountRead(Readable))
    && flags.accountReadbackFailed == Happened(h, AccountRead(Unclear))
    && flags.projectionDeleted == ProjectionGone(h)
  }

  /** accountDeleteOperation's choice of phase for a failure. */
  function PhaseOf(flags: Flags): Stage {
    if flags.accountDeleted then LocalCommit
    else if flags.accountStillReadable then ManagementStillReadable
    else if flags.accountReadbackFailed || flags.accountDeleteRequested then ManagementReadback
    else if flags.keyDeleted && !flags.keyProjectionDeleted then KeyReconcile
    else if flags.keyDeleted && !flags.keySecretDeleted then SecretReconcile
    else if flags.keyDeleted then TargetCheck
    else if flags.keyDeleteRequested then KeyReadback
    else RemoteDelete
  }

  /** accountDeleteOperation */
  function OperationOf(flags: Flags, bound: bool, failed: bool): Operation {
    var remote := flags.accountDeleted && (!bound || flags.keyDeleted);
    Operation(failed, if failed then PhaseOf(flags) else Done, remote, remote && flags.readbackConfirmed,
              flags.keyDeleteRequested || flags.accountDeleteRequested, flags)
  }

  // ---- The deletion ----

  class Deletion {
    const expected: Preview   // what the operator confirmed
    var history: History
    var flags: Flags

    ghost predicate Valid()
      reads this
    {
      Disciplined(history, expected) && FlagsTell(flags, history, expected)
    }

    constructor (expected: Preview)
      ensures Valid() && history == Begin && this.expected == expected && flags == NO_FLAGS
    {
      this.expected, history, flags := expected, Begin, NO_FLAGS;
    }

    method Succeeds() returns (b: bool) {
      b := *;
    }

    /** Adds one event to the history. */
    method Record(e: Event)
      requires Disciplined(history, expected) && Admissible(history, expected, e)
      modifies this`history
      ensures Disciplined(history, expected) && history == Then(old(history), e)
      ensures forall x :: Happened(history, x) <==> x == e || Happened(old(history), x)
      ensures forall id :: KeyAbsent(history, id) <==> ShowsAbsent(e, id) || KeyAbsent(old(history), id)
      ensures Audits(history) == Audits(old(history)) + if e.Audited? then 1 else 0
      ensures ProjectionGone(history) <==> (e.ProjectionRemoved? && e.ok) || ProjectionGone(old(history))
      ensures KeyDeletes(history) == KeyDeletes(old(history)) + if e.KeyDeleteSent? then 1 else 0
      ensures Cleared(old(history), expected) ==> Cleared(history, expected)
      ensures ListingFailed(history) <==>
        (e == KeysListed(None) && Happened(old(history), KeyDeleteSent)) || ListingFailed(old(history))
      ensures forall id :: KeyStillListed(history, id) <==>
        (ShowsPresent(e, id) && Happened(old(history), KeyDeleteSent)) || KeyStillListed(old(history), id)
    {
      history := Then(history, e);
    }

    /** recordFailureAudit: one record, under the phase the flags give. */
    method Audit()
      requires Valid() && Audits(history) == 0 && !ProjectionGone(history)
      requires FailedStage(history, expected) == Some(PhaseOf(flags))
      modifies this`history
      ensures Valid() && Audits(history) == 1
      ensures history == Then(old(history), Audited(OperationOf(flags, expected.binding.Some?, true)))
    {
      hide Disciplined, Happened, KeyAbsent, Audits, ProjectionGone, KeyDeletes, AccountDeletes, Contains, Trim;
      hide ListingFailed, KeyStillListed, Cleared;
      Record(Audited(OperationOf(flags, expected.binding.Some?, true)));
    }

    /** The key is deleted unless a listing shows it absent already; either way a listing must show it absent. */
    method DeleteKey() returns (absent: bool)
      requires Valid() && expected.binding.Some? && flags == NO_FLAGS && Cleared(history, expected)
      requires Audits(history) == 0 && KeyDeletes(history) == 0
      modifies this
      ensures Valid() && !Happened(history, AccountDeleteSent)
      ensures absent ==> Audits(history) == 0 && Cleared(history, expected)
      ensures absent ==>
        flags == NO_FLAGS.(keyDeleteRequested := flags.keyDeleteRequested, keyDeleted := true,
                           keyAlreadyAbsent := !flags.keyDeleteRequested)
      ensures !flags.projectionDeleted
      ensures !absent ==> (Audits(history) == 1 <==> Underway(history, expected)) && Audits(history) <= 1
    {
      hide Disciplined, Happened, KeyAbsent, Audits, ProjectionGone, KeyDeletes, AccountDeletes, Contains, Trim;
      hide ListingFailed, KeyStillListed, Cleared, KeyOf;
      var scopeConfirmed := Succeeds();
      if !scopeConfirmed { return false; }
      var keys: Option<seq<string>> := *;
      Record(KeysListed(keys));
      if keys.None? { return false; }
      if Contains(keys.value, KeyOf(expected)) {
        var authorized := Succeeds();
        if !authorized { return false; }
        absent := DeleteListedKey();
        return;
      }
      flags := flags.(keyDeleted := true, keyAlreadyAbsent := true);
      absent := true;
    }

    /** The deletion is requested, and the keys are listed. */
    method DeleteAndList() returns (keys: Option<seq<string>>)
      requires Disciplined(history, expected) && FlagsTell(NO_FLAGS, history, expected)
      requires expected.binding.Some? && Admissible(history, expected, KeyDeleteSent)
      modifies this`history
      ensures Disciplined(history, expected) && FlagsTell(FlagsListed(keys), history, expected)
      ensures history == Then(Then(old(history), KeyDeleteSent), KeysListed(keys)) && Happened(history, KeyDeleteSent)
      ensures Audits(history) == Audits(old(history)) && Cleared(history, expected)
      ensures keys.None? || Contains(keys.value, KeyOf(expected)) ==> FailedStage(history, expected) == Some(KeyReadback)
    {
      hide Disciplined, Happened, KeyAbsent, Audits, ProjectionGone, KeyDeletes, AccountDeletes, Contains, Trim;
      hide ListingFailed, KeyStillListed, Cleared;
      Record(KeyDeleteSent);
      keys := *;
      Record(KeysListed(keys));
    }

    /** What the flags say once the key was asked to go and the keys were listed. */
    function FlagsListed(keys: Option<seq<string>>): Flags {
      var listed := keys.Some? && Contains(keys.value, KeyOf(expected));
      NO_FLAGS.(keyDeleteRequested := true, keyReadbackFailed := keys.None?, keyStillReadable := listed,
                keyDeleted := keys.Some? && !listed)
    }

    /** Deletes the key that was just listed, and lists the keys again. */
    method DeleteListedKey() returns (absent: bool)
      requires Disciplined(history, expected) && FlagsTell(NO_FLAGS, history, expected) && flags == NO_FLAGS
      requires expected.binding.Some? && Admissible(history, expected, KeyDeleteSent)
      requires Audits(history) == 0 && !Happened(history, AccountDeleteSent)
      modifies this
      ensures Valid() && !Happened(history, AccountDeleteSent) && !flags.projectionDeleted
      ensures absent ==>
        && Audits(history) == 0 && Cleared(history, expected)
        && flags == NO_FLAGS.(keyDeleteRequested := true, keyDeleted := true)
      ensures !absent ==> Audits(history) == 1 && Underway(history, expected)
    {
      hide Disciplined, Happened, KeyAbsent, Audits, ProjectionGone, KeyDeletes, AccountDeletes, Contains, Trim;
      hide ListingFailed, KeyStillListed, Cleared, KeyOf;
      var keys := DeleteAndList();
      flags := flags.(keyDeleteRequested := true);
      if keys.None? {
        flags := flags.(keyReadbackFailed := true);
        Audit();
        return false;
      }
      if Contains(keys.value, KeyOf(expected)) {
        flags := flags.(keyStillReadable := true);
        Audit();
        return false;
      }
      flags := flags.(keyDeleted := true);
      absent := true;
    }

    /** With the key gone, its local records and its secret go, and the target is confirmed once more. */
    method CleanKey() returns (ok: bool)
      requires Cleaning() && flags.keyDeleted && !flags.keyProjectionDeleted && !flags.keySecretDeleted
      modifies this
      ensures Valid() && !Happened(history, AccountDeleteSent)
      ensures ok ==> Cleaning() && UpstreamFinished(history, expected)
      ensures ok ==> flags == old(flags).(keyProjectionDeleted := true, keySecretDeleted := true)
      ensures !ok ==> Audits(history) == 1 && Underway(history, expected) && !flags.projectionDeleted
    {
      hide Disciplined, Happened, KeyAbsent, Audits, ProjectionGone, KeyDeletes, AccountDeletes, Contains, Trim;
      hide ListingFailed, KeyStillListed, Cleared;
      ok := CleanRecords();
      if !ok { return; }
      ok := CleanSecret();
      if !ok { return; }
      ok := ConfirmTarget();
    }

    /** Nothing was audited yet, and the management account was not asked to go. */
    ghost predicate Cleaning()
      reads this
    {
      && Valid() && expected.binding.Some? && !Happened(history, AccountDeleteSent)
      && Audits(history) == 0 && Cleared(history, expected) && !flags.projectionDeleted
      && !flags.accountDeleted && !flags.accountStillReadable && !flags.accountReadbackFailed
    }

    method CleanRecords() returns (ok: bool)
      requires Cleaning() && flags.keyDeleted && !flags.keyProjectionDeleted && !flags.keySecretDeleted
      modifies this
      ensures Valid() && !Happened(history, AccountDeleteSent)
      ensures ok ==> Cleaning() && flags == old(flags).(keyProjectionDeleted := true)
      ensures !ok ==> Audits(history) == 1 && Underway(history, expected) && !flags.projectionDeleted
    {
      hide Disciplined, Happened, KeyAbsent, Audits, ProjectionGone, KeyDeletes, AccountDeletes, Contains, Trim;
      hide ListingFailed, KeyStillListed, Cleared;
      ok := Succeeds();
      Record(KeyProjectionCleaned(ok));
      if !ok {
        Audit();
        return;
      }
      flags := flags.(keyProjectionDeleted := true);
    }

    method CleanSecret() returns (ok: bool)
      requires Cleaning() && flags.keyDeleted && flags.keyProjectionDeleted && !flags.keySecretDeleted
      modifies this
      ensures Valid() && !Happened(history, AccountDeleteSent)
      ensures ok ==> Cleaning() && flags == old(flags).(keySecretDeleted := true)
      ensures !ok ==> Audits(history) == 1 && Underway(history, expected) && !flags.projectionDeleted
    {
      hide Disciplined, Happened, KeyAbsent, Audits, ProjectionGone, KeyDeletes, AccountDeletes, Contains, Trim;
      hide ListingFailed, KeyStillListed, Cleared;
      ok := Succeeds();
      Record(KeySecretCleaned(ok));
      if !ok {
        Audit();
        return;
      }
      flags := flags.(keySecretDeleted := true);
    }

    method ConfirmTarget() returns (ok: bool)
      requires Cleaning() && flags.keyDeleted && flags.keyProjectionDeleted && flags.keySecretDeleted
      modifies this`history
      ensures Valid() && !Happened(history, AccountDeleteSent)
      ensures ok ==> Cleaning() && UpstreamFinished(history, expected)
      ensures !ok ==> Audits(history) == 1 && Underway(history, expected) && !flags.projectionDeleted
    {
      hide Disciplined, Happened, KeyAbsent, Audits, ProjectionGone, KeyDeletes, AccountDeletes, Contains, Trim;
      hide ListingFailed, KeyStillListed, Cleared;
      ok := Succeeds();
      Record(TargetConfirmed(ok));
      if !ok { Audit(); }
    }

    method SendDeletion()
      requires Valid() && Cleared(history, expected) && !Happened(history, AccountDeleteSent)
      requires expected.binding.None? || UpstreamFinished(history, expected)
      modifies this`history
      ensures Disciplined(history, expected) && FlagsTell(flags.(accountDeleteRequested := true), history, expected)
      ensures history == Then(old(history), AccountDeleteSent) && Audits(history) == Audits(old(history))
    {
      hide Disciplined, Happened, KeyAbsent, Audits, ProjectionGone, KeyDeletes, AccountDeletes, Contains, Trim;
      hide ListingFailed, KeyStillListed, Cleared;
      NeverSent(history);
      Record(AccountDeleteSent);
    }

    /** The management account is asked to go, and read. */
    method SendAndRead() returns (seen: Readback)
      requires Valid() && Cleared(history, expected) && !Happened(history, AccountDeleteSent)
      requires expected.binding.None? || UpstreamFinished(history, expected)
      requires !flags.accountDeleted && !flags.accountStillReadable && !flags.accountReadbackFailed
      modifies this`history
      ensures Disciplined(history, expected) && FlagsTell(FlagsRead(flags, seen), history, expected)
      ensures history == Then(Then(old(history), AccountDeleteSent), AccountRead(seen))
      ensures Audits(history) == Audits(old(history))
    {
      hide Disciplined, Happened, KeyAbsent, Audits, ProjectionGone, KeyDeletes, AccountDeletes, Contains, Trim;
      hide ListingFailed, KeyStillListed, Cleared;
      SendDeletion();
      seen := *;
      Record(AccountRead(seen));
    }

    /** What the flags say once the management account was asked to go and read. */
    function FlagsRead(before: Flags, seen: Readback): Flags {
      before.(accountDeleteRequested := true, accountDeleted := seen == Gone, readbackConfirmed := seen == Gone,
              accountStillReadable := seen == Readable, accountReadbackFailed := seen == Unclear)
    }

    /** DeleteAccountWithVerification: only a read that answers 404 confirms the deletion. */
    method DeleteAndRead() returns (seen: Readback)
      requires Valid() && Cleared(history, expected) && !Happened(history, AccountDeleteSent)
      requires expected.binding.None? || UpstreamFinished(history, expected)
      requires !flags.accountDeleted && !flags.accountStillReadable && !flags.accountReadbackFailed
      modifies this
      ensures Valid() && history == Then(Then(old(history), AccountDeleteSent), AccountRead(seen))
      ensures Audits(history) == Audits(old(history))
      ensures flags == old(flags).(accountDeleteRequested := true, accountDeleted := seen == Gone,
        readbackConfirmed := seen == Gone, accountStillReadable := seen == Readable, accountReadbackFailed := seen == Unclear)
    {
      hide Disciplined, Happened, KeyAbsent, Audits, ProjectionGone, KeyDeletes, AccountDeletes, Contains, Trim;
      hide ListingFailed, KeyStillListed, Cleared, KeyOf;
      seen := SendAndRead();
      flags := flags.(accountDeleteRequested := true);
      match seen
      case Gone => flags := flags.(accountDeleted := true, readbackConfirmed := true);
      case Readable => flags := flags.(accountStillReadable := true);
      case Unclear => flags := flags.(accountReadbackFailed := true);
    }

    /** The management account, then the local records together with the final audit. */
    method DeleteManagement() returns (ok: bool)
      requires Valid() && Cleared(history, expected) && !Happened(history, AccountDeleteSent)
      requires expected.binding.None? || UpstreamFinished(history, expected)
      requires Audits(history) == 0 && !flags.projectionDeleted
      requires !flags.accountDeleted && !flags.accountStillReadable && !flags.accountReadbackFailed
      modifies this
      ensures Valid() && Underway(history, expected)
      ensures ok == flags.projectionDeleted && Audits(history) == if ok then 0 else 1
    {
      hide Disciplined, Happened, KeyAbsent, Audits, ProjectionGone, KeyDeletes, AccountDeletes, Contains, Trim;
      hide ListingFailed, KeyStillListed, Cleared;
      var seen := DeleteAndRead();
      if seen != Gone {
        Audit();
        return false;
      }
      var operation := OperationOf(flags.(projectionDeleted := true), expected.binding.Some?, false);
      ok := Succeeds();
      if ok {
        Record(ProjectionRemoved(operation, true));
        flags := flags.(projectionDeleted := true);
      } else {
        RecordRefusal(ProjectionRemoved(operation, false));
        Audit();
      }
    }

    /** A refused removal destroys nothing, so the flags stay. */
    method RecordRefusal(e: Event)
      requires Valid() && Admissible(history, expected, e) && e.ProjectionRemoved? && !e.ok
      modifies this`history
      ensures Valid() && history == Then(old(history), e) && Audits(history) == Audits(old(history))
      ensures Underway(old(history), expected) ==> Underway(history, expected)
    {
      hide Disciplined, Happened, KeyAbsent, Audits, ProjectionGone, KeyDeletes, AccountDeletes, Contains, Trim;
      hide ListingFailed, KeyStillListed, Cleared;
      Record(e);
    }

    /** Nothing was sent, audited or found gone. */
    ghost predicate Untouched()
      reads this
    {
      && Valid() && flags == NO_FLAGS && Audits(history) == 0 && KeyDeletes(history) == 0 && !ProjectionGone(history)
      && !Underway(history, expected) && !Happened(history, AccountDeleteSent)
    }

    /** The leases, the mode, the account read again as it was confirmed, and its protection. */
    method Clear() returns (cleared: bool)
      requires Valid() && history == Begin && flags == NO_FLAGS
      modifies this`history
      ensures Untouched() && (cleared ==> Cleared(history, expected))
    {
      assert Audits(Begin) == 0 && KeyDeletes(Begin) == 0 && !ProjectionGone(Begin);
      assert !Happened(Begin, KeyDeleteSent) && !Happened(Begin, AccountDeleteSent) && !KeyAbsent(Begin, KeyOf(expected));
      hide Disciplined, Happened, KeyAbsent, Audits, ProjectionGone, KeyDeletes, AccountDeletes, Contains, Trim;
      hide ListingFailed, KeyStillListed;
      cleared := Admit();
      if !cleared { return; }
      cleared := Recheck();
      if !cleared { return; }
      cleared := Screen();
    }

    method Admit() returns (admitted: bool)
      requires Untouched()
      modifies this`history
      ensures Untouched() && (admitted ==> Happened(history, Admitted(true, true)))
    {
      hide Disciplined, Happened, KeyAbsent, Audits, ProjectionGone, KeyDeletes, AccountDeletes, Contains, Trim;
      hide ListingFailed, KeyStillListed;
      var locked := Succeeds();
      var fullMode := Succeeds();
      Record(Admitted(locked, fullMode));
      admitted := locked && fullMode;
    }

    method Recheck() returns (same: bool)
      requires Untouched() && Happened(history, Admitted(true, true))
      modifies this`history
      ensures Untouched() && Happened(history, Admitted(true, true)) && (same ==> Happened(history, Rechecked(expected)))
    {
      hide Disciplined, Happened, KeyAbsent, Audits, ProjectionGone, KeyDeletes, AccountDeletes, Contains, Trim;
      hide ListingFailed, KeyStillListed;
      var read: bool := *;
      var current: Preview := *;
      if !read || expected.fingerprint == "" || current.fingerprint != expected.fingerprint
         || current.baseUrl != expected.baseUrl || current.accountId != expected.accountId
         || current.accountName != expected.accountName || current.binding != expected.binding {
        return false;
      }
      Record(Rechecked(current));
      same := true;
    }

    method Screen() returns (cleared: bool)
      requires Untouched() && Happened(history, Admitted(true, true)) && Happened(history, Rechecked(expected))
      modifies this`history
      ensures Untouched() && (cleared ==> Cleared(history, expected))
    {
      hide Disciplined, Happened, KeyAbsent, Audits, ProjectionGone, KeyDeletes, AccountDeletes, Contains, Trim;
      hide ListingFailed, KeyStillListed;
      var unprotected := Succeeds();
      var confirmed := Succeeds();
      Record(Screened(unprotected, confirmed));
      cleared := unprotected && confirmed;
    }

    /**
     Delete: success means the local records are gone; a failure is audited exactly if something was destroyed or
     the key was found gone.
     */
    method Delete() returns (ok: bool)
      requires Valid() && history == Begin && flags == NO_FLAGS
      modifies this
      ensures Valid() && (ok <==> ProjectionGone(history))
      ensures ok ==> Audits(history) == 0
      ensures !ok ==> Audits(history) == if Underway(history, expected) then 1 else 0
    {
      hide Disciplined, Happened, KeyAbsent, Audits, ProjectionGone, KeyDeletes, AccountDeletes, Contains, Trim;
      hide ListingFailed, KeyStillListed, Truthful, Cleared;
      var cleared := Clear();
      if !cleared { return false; }
      if expected.binding.Some? {
        ok := DeleteKey();
        if !ok { return; }
        ok := CleanKey();
        if !ok { return; }
      }
      ok := DeleteManagement();
    }
  }

  lemma {:induction false} NeverSent(h: History)
    requires !Happened(h, AccountDeleteSent)
    ensures AccountDeletes(h) == 0
  {
    if h.Then? { NeverSent(h.before); }
  }

  // ---- What every deletion guarantees ----

  predicate IsPrefix(p: History, h: History) {
    p == h || (h.Then? && IsPrefix(p, h.before))
  }

  lemma {:induction false} EveryEventAdmissible(h: History, expected: Preview, p: History, e: Event)
    requires Disciplined(h, expected) && IsPrefix(Then(p, e), h)
    ensures Disciplined(p, expected) && Admissible(p, expected, e)
  {
    if h != Then(p, e) { EveryEventAdmissible(h.before, expected, p, e); }
  }

  lemma {:induction false} WhenHappened(h: History, e: Event) returns (p: History)
    requires Happened(h, e)
    ensures IsPrefix(Then(p, e), h)
  {
    if h.event == e {
      p := h.before;
    } else {
      p := WhenHappened(h.before, e);
    }
  }

  lemma {:induction false} ListingOf(h: History, id: string) returns (p: History, keys: seq<string>)
    requires KeyAbsent(h, id)
    ensures IsPrefix(Then(p, KeysListed(Some(keys))), h) && !Contains(keys, id)
  {
    if ShowsAbsent(h.event, id) {
      p, keys := h.before, h.event.keys.value;
    } else {
      p, keys := ListingOf(h.before, id);
    }
  }

  /**
   The management account of a bound account is deleted only after a listing without the key, then the cleaning of
   its records and of its secret, with the target confirmed last; and never a second time.
   */
  lemma AccountGoesLast(h: History, expected: Preview, p: History)
    returns (listed: History, keys: seq<string>, cleaned: History)
    requires Disciplined(h, expected) && IsPrefix(Then(p, AccountDeleteSent), h)
    ensures AccountDeletes(p) == 0 && Cleared(p, expected)
    ensures expected.binding.Some? ==> p.Then? && p.event == TargetConfirmed(true) && Happened(p, KeySecretCleaned(true))
    ensures expected.binding.Some? ==> IsPrefix(Then(cleaned, KeyProjectionCleaned(true)), p)
    ensures expected.binding.Some? ==> IsPrefix(Then(listed, KeysListed(Some(keys))), cleaned)
    ensures expected.binding.Some? ==> !Contains(keys, expected.binding.value.keyId)
  {
    EveryEventAdmissible(h, expected, p, AccountDeleteSent);
    if expected.binding.Some? {
      cleaned := WhenHappened(p, KeyProjectionCleaned(true));
      EveryEventAdmissible(p, expected, cleaned, KeyProjectionCleaned(true));
      listed, keys := ListingOf(cleaned, KeyOf(expected));
    } else {
      listed, keys, cleaned := p, [], p;
    }
  }

  /** The local records are removed only after the site answered 404 for the account. */
  lemma RecordsGoAfterNotFound(h: History, expected: Preview, p: History, operation: Operation, ok: bool)
    requires Disciplined(h, expected) && IsPrefix(Then(p, ProjectionRemoved(operation, ok)), h)
    ensures p.Then? && p.event == AccountRead(Gone) && p.before.Then? && p.before.event == AccountDeleteSent
    ensures operation.remoteConfirmed && operation.writeback && operation.phase == Done
  {
    EveryEventAdmissible(h, expected, p, ProjectionRemoved(operation, ok));
    RemovalIsTruthful(p, expected, operation);
  }

  lemma RemovalIsTruthful(p: History, expected: Preview, operation: Operation)
    requires Disciplined(p, expected) && p.Then? && p.event == AccountRead(Gone) && Truthful(operation, p, expected)
    ensures p.before.Then? && p.before.event == AccountDeleteSent
    ensures operation.remoteConfirmed && operation.writeback
  {
    hide Contains;
    assert Admissible(p.before, expected, AccountRead(Gone));
    var sent := p.before.before;
    assert Admissible(sent, expected, AccountDeleteSent);
    assert expected.binding.Some? ==> KeyAbsent(sent, KeyOf(expected));
    hide Disciplined, Admissible, UpstreamFinished;
    assert Happened(p, AccountRead(Gone));
    assert Happened(p.before, AccountDeleteSent);
    assert expected.binding.Some? ==> KeyAbsent(p.before, KeyOf(expected));
  }

  /** A failure audit names the stage that failed, and there is one at most. */
  lemma {:induction false} AuditsNameTheStage(h: History, expected: Preview, p: History, operation: Operation)
    requires Disciplined(h, expected) && IsPrefix(Then(p, Audited(operation)), h)
    ensures FailedStage(p, expected) == Some(operation.phase) && operation.failed && Audits(p) == 0
    ensures operation.writeback <==> Destroyed(p)
    ensures FlagsTell(operation.after, p, expected)
  {
    EveryEventAdmissible(h, expected, p, Audited(operation));
  }
}
