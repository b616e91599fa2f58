/**
 Batches in which one row's account is configured, or enabled, twice: two refresh tokens that turn out to be of one
 account, and crashes. Every step is one the worker takes, and every stored record meets the record invariant.
 */
module RepeatedWrites {
  import opened Common
  import opened Json
  import opened Readback
  import opened RunHistory
  import InputBatch

  // ---- One account, as the site shows it and as the rows ask for it ----

  const SHARED := Identity("workspace", "user")

  /** What AccountPayload makes of its default settings, but for the credentials. */
  function Template(): Fields {
    map[Name := Text("shared", Plain), Concurrency := Number("1", Whole(1)), Priority := Number("50", Whole(50)),
        RateMultiplier := Number("1", Whole(1)), LoadFactor := Null, ProxyId := Null, ExpiresAt := Null,
        Notes := Text("", Plain), AutoPauseOnExpired := Bool(true), GroupIds := List([]), Extra := Object(map[])]
  }

  /** The site stores each of these fields as it is sent. */
  predicate StoredAsSent(key: Key, value: Value) {
    && key !in {Id, Credentials, Status, Schedulable, CredentialsStatus, Groups, AccountGroups}
    && Confirmable(value) && (key == GroupIds ==> value == List([])) && (key == ExpiresAt ==> value == Null)
  }

  lemma TemplateIsPlain()
    ensures forall key | key in Template() :: StoredAsSent(key, Template()[key])
  {
  }

  /** The two refresh tokens of the batch, and what the token endpoint answers to each. */
  function Pasted(k: nat): string {
    if k == 0 then "refresh-1" else "refresh-2"
  }

  function Answer(k: nat): Tokens {
    if k == 0 then Tokens("access-1", "renewed-1", SHARED) else Tokens("access-2", "renewed-2", SHARED)
  }

  function Secret(k: nat): Fields {
    map[AccessToken := Text(Answer(k).access, Plain), RefreshToken := Text(Answer(k).refresh, Plain)]
  }

  function Owner(): Fields {
    map[ChatgptAccountId := Text("workspace", Plain), ChatgptUserId := Text("user", Plain)]
  }

  function Payload(k: nat): Fields {
    Template()[Credentials := Object(Owner() + Secret(k))]
      [Platform := Text("openai", Plain)][AccountType := Text("oauth", Plain)]
  }

  /** The site shows the credentials without their secrets. */
  function Account(on: bool): Fields {
    Payload(0)[Credentials := Object(Owner())]
      [Id := Text("7", Plain)][Status := Text("active", Plain)][Schedulable := Bool(on)]
      [CredentialsStatus := Object(map[HasAccessToken := Bool(true), HasRefreshToken := Bool(true)])]
  }

  lemma OwnerIsShared()
    ensures CredentialIdentity(Owner()) == SHARED && Complete(SHARED)
  {
    assert Trim("workspace") == "workspace" && Trim("user") == "user";
  }

  lemma ExportHolds()
    ensures forall k: nat :: ExportOf(Payload(k), Answer(k))
  {
    hide ExportOf;
    forall k: nat ensures ExportOf(Payload(k), Answer(k)) { ExportAt(k); }
  }

  lemma ExportAt(k: nat)
    ensures ExportOf(Payload(k), Answer(k))
  {
    hide Template, Trim;
    OwnerIsShared();
    SecretTrimmed(k);
    assert FieldsOf(Get(Payload(k), Credentials)) == Owner() + Secret(k);
    assert CredentialIdentity(Owner() + Secret(k)) == CredentialIdentity(Owner());
  }

  lemma SecretTrimmed(k: nat)
    ensures Trim(Answer(k).access) == Answer(k).access && Trim(Answer(k).refresh) == Answer(k).refresh
  {
    assert Trim("access-1") == "access-1" && Trim("renewed-1") == "renewed-1";
    assert Trim("access-2") == "access-2" && Trim("renewed-2") == "renewed-2";
  }

  lemma AccountFacts(on: bool)
    ensures TextOf(Get(Account(on), Id)) == "7" && SameAccountIdentity(Account(on), SHARED)
    ensures AccountIdentity(Account(on)) == SHARED
    ensures if on then SwitchedOn(Account(on)) else SwitchedOff(Account(on))
    ensures Account(true)[Schedulable := Bool(false)] == Account(false) && !SwitchedOff(Account(true))
  {
    hide Template, Owner, CredentialIdentity;
    OwnerIsShared();
    assert Trim("openai") == "openai" && Trim("oauth") == "oauth" && Trim("7") == "7";
  }

  /** A field the site shows as it was sent is applied. */
  lemma ShownAsSent(account: Fields, key: Key, value: Value)
    requires key != GroupIds && key != Credentials && (key == ExpiresAt ==> value == Null)
    requires Get(account, key) == value && Confirmable(value)
    ensures FieldApplied(account, key, value)
  {
    AppliedToItself(value);
  }

  lemma PayloadApplied(on: bool, key: Key)
    requires key in Payload(0) && key != Credentials
    ensures FieldApplied(Account(on), key, Payload(0)[key])
  {
    TemplateIsPlain();
    hide Template, Owner, Secret;
    assert Get(Account(on), key) == Payload(0)[key];
    if key == GroupIds {
      assert Get(Account(on), Groups) == Null && Get(Account(on), AccountGroups) == Null;
      assert ShownGroups(Account(on)) == [];
    } else {
      hide FieldApplied;
      ShownAsSent(Account(on), key, Payload(0)[key]);
    }
  }

  lemma SwitchApplied(on: bool)
    ensures FieldApplied(Account(on), Schedulable, Bool(on))
    ensures FieldApplied(Account(on), Status, Text("active", Plain))
  {
    hide Template, Owner, Secret;
  }

  lemma GroupsApplied()
    ensures FieldApplied(Account(false), GroupIds, List([]))
  {
    TemplateIsPlain();
    hide Template, Owner, Secret;
    assert Get(Account(false), Groups) == Null && Get(Account(false), AccountGroups) == Null;
    assert ShownGroups(Account(false)) == [];
  }

  lemma SecretsKept(on: bool)
    ensures SecretConfigured(Account(on), Owner() + Secret(0), AccessToken, HasAccessToken)
    ensures SecretConfigured(Account(on), Owner() + Secret(0), RefreshToken, HasRefreshToken)
    ensures ModelMappingsVerified(Account(on), Owner() + Secret(0))
  {
    hide Template, TextOf;
  }

  /** The account shows the import of row 0 isolated. */
  lemma CreateApplied(row: Row)
    requires row.phase.Creating? && row.payload == Some(Payload(0))
    ensures Shown(AsIsolated, row, Account(false))
  {
    AccountFacts(false);
    hide Template, Owner, Secret, FieldApplied, SecretConfigured;
    var body := IsolatedBody(Payload(0), true) - {Status};
    SwitchApplied(false);
    GroupsApplied();
    forall key | key in body - {Credentials} ensures FieldApplied(Account(false), key, (body - {Credentials})[key]) {
      if key != Schedulable && key != GroupIds { PayloadApplied(false, key); }
    }
    SecretsKept(false);
  }

  lemma FinalBodyApplied(on: bool)
    ensures ImportApplied(Account(on), FinalBody(Payload(0), on))
  {
    hide Template, Owner, Secret, FieldApplied, SecretConfigured, Account;
    SwitchApplied(on);
    var body := FinalBody(Payload(0), on);
    forall key | key in body ensures FieldApplied(Account(on), key, body[key]) {
      if key in Payload(0) && key != Schedulable && key != Status { PayloadApplied(on, key); }
    }
    assert body - {Credentials} == body;
  }

  /** It shows the final configuration of row 0. */
  lemma FinalApplied(row: Row, on: bool)
    requires row.payload == Some(Payload(0))
    ensures Shown(if on then AsEnabled else AsConfigured, row, Account(on))
  {
    hide Template, Owner, Secret, ImportApplied, ModelMappingsVerified, FinalBody;
    AccountFacts(on);
    FinalBodyApplied(on);
    SecretsKept(on);
    assert Get(Payload(0), Credentials) == Object(Owner() + Secret(0));
  }

  // ---- The batch ----

  /** An item of the batch: a refresh token alone. */
  function Entered(k: nat): InputBatch.Item {
    InputBatch.Item("refresh_token", "", "", "", "", "", Pasted(k), "")
  }

  /** Reading the batch keeps both items: nothing about them is the same yet. */
  lemma BothAreKept(fold: Fold)
    ensures InputBatch.Deduplicated(fold, [Entered(0), Entered(1)]) == [Entered(0), Entered(1)]
  {
    var items := [Entered(0), Entered(1)];
    assert items[..1] == [Entered(0)] && items[..0] == [] && [Entered(0)][..0] == [];
    assert !InputBatch.Repeats(fold, Entered(0), Entered(1)) && !InputBatch.Repeats(fold, Entered(1), Entered(0));
    assert InputBatch.IsFirst(fold, items, 0) && InputBatch.IsFirst(fold, items, 1);
    assert InputBatch.Firsts(fold, [Entered(0)]) == [0] && InputBatch.Firsts(fold, items) == [0, 1];
    assert InputBatch.LastLike(fold, [Entered(0)], Entered(0)) == Entered(0);
    assert InputBatch.LastLike(fold, items, Entered(0)) == Entered(0);
    assert InputBatch.LastLike(fold, items, Entered(1)) == Entered(1);
  }

  // ---- The run ----

  const CHECK_OFF := Settings(false, true, None)

  /** Every record ever stored met the record invariant when it was stored, and still did at every later event. */
  ghost predicate AlwaysKept(h: History) {
    RecordInv(LastSaved(h), h) && (h.Then? ==> AlwaysKept(h.before))
  }

  function Beginning(h: History): Record {
    match h
    case Begin(record) => record
    case Then(before, _) => Beginning(before)
  }

  /** The row of an item, before anything happened. */
  function Fresh(k: nat, status: RowStatus): Row {
    Row(RefreshOnly, Tokens("", Entered(k).refreshToken, Identity("", "")), None, Unstarted, status, "", None, NoAction)
  }

  function Asking(k: nat): Row {
    Fresh(k, Preparing).(phase := Refreshing)
  }

  function Renewed(k: nat): Row {
    Fresh(k, Preparing).(kind := CodexJson, tokens := Answer(k), phase := Materialized)
  }

  /** A row whose credentials were verified. */
  function Given(k: nat, phase: Phase, status: RowStatus, id: string, action: ImportAction): Row {
    Row(CodexJson, Answer(k), Some(Payload(k)), phase, status, id, None, action)
  }

  function Off(): map<string, Version> {
    map["7" := AccountVersion(Account(false))]
  }

  function On(): map<string, Version> {
    map["7" := AccountVersion(Account(true))]
  }

  function Batch(first: Row, second: Row, versions: map<string, Version>, status: RunStatus): Record {
    Record([first, second], versions, {}, status)
  }

  /** The row's one refresh was answered. */
  function Asked(k: nat): RunHistory.Asking {
    RunHistory.Asking(0, true, false, Some(Answer(k)))
  }

  /** A history from two fresh rows on. */
  ghost predicate Reached(h: History) {
    && Disciplined(h, CHECK_OFF) && AlwaysKept(h) && Beginning(h) == START
    && |LastSaved(h).rows| == 2 && LastSaved(h).manual == {} && PassManual(h) == {} && !PastOf(h, 0).stuck && !PastOf(h, 1).stuck
  }

  /** What is stored, what happened to either row, and how the account was last seen. */
  ghost predicate At(h: History, record: Record, first: Past, second: Past, seen: Option<Fields>) {
    && Reached(h) && LastSaved(h) == record
    && PastOf(h, 0) == first && PastOf(h, 1) == second && LastSeen(h, "7") == seen
  }

  /** The record is stored. */
  lemma Saving(h: History, record: Record) returns (next: History)
    requires Reached(h) && |record.rows| == 2 && record.manual == {} && !record.rows[1].phase.Configured?
    requires TakenUp(record, 0) && TakenUp(record, 1)
    requires RowFits(record.rows[0], record.versions, PastOf(h, 0)) && RowFits(record.rows[1], record.versions, PastOf(h, 1))
    requires record.versions == map[] || record.versions == Off() || record.versions == On()
    ensures next == Then(h, Saved(record))
    ensures At(next, record,
      PastOf(h, 0).(configured := PastOf(h, 0).configured || record.rows[0].phase.Configured?), PastOf(h, 1), LastSeen(h, "7"))
  {
    hide AccountVersion, Account, RowFits, VersionsPinned;
    next := Then(h, Saved(record));
    assert LeavesStuck(h, LastSaved(h), record) && DoneEarned(h, CHECK_OFF, LastSaved(h), record);
    VersionsKept(record);
    EventKeepsRow(record.rows[0], record.versions, PastOf(h, 0), Saved(record), 0, LastSaved(h));
    EventKeepsRow(record.rows[1], record.versions, PastOf(h, 1), Saved(record), 1, LastSaved(h));
    assert RowInv(record, 0, next) && RowInv(record, 1, next);
  }

  lemma VersionsKept(record: Record)
    requires record.versions == map[] || record.versions == Off() || record.versions == On()
    ensures VersionsPinned(record)
  {
    hide Account;
    VersionKind(Account(false));
    VersionKind(Account(true));
    AccountFacts(false);
    AccountFacts(true);
  }

  function SeenAfter(seen: Option<Fields>, e: Event): Option<Fields> {
    if WritesAccount(e, "7") then None else if e.AccountRead? && e.id == "7" then Some(e.account) else seen
  }

  /** Something is sent, read or learned, or a pass begins. */
  lemma Happening(h: History, e: Event) returns (next: History)
    requires Reached(h) && !e.Saved? && Admissible(h, CHECK_OFF, e) && Fits(LastSaved(h), e)
    requires e.Launched? ==> e.manual == {} && !InOneUse(LastSaved(h), 0) && !InOneUse(LastSaved(h), 1)
    ensures next == Then(h, e)
    ensures At(next, LastSaved(h),
      After(PastOf(h, 0), e, 0, LastSaved(h)), After(PastOf(h, 1), e, 1, LastSaved(h)), SeenAfter(LastSeen(h, "7"), e))
  {
    hide Fits, Admissible;
    next := Then(h, e);
    EventKeepsRecord(LastSaved(h), h, e);
  }

  // What has happened to row 0, from its first verification on, and to row 1.

  function First(sent: Sent, stages: set<Stage>, configured: bool, shared: bool): Past {
    Past(sent, Asked(0), Known({SHARED}, if shared then {SHARED} else {}, shared),
         Readbacks(stages, if AsConfigured in stages then {AccountVersion(Account(false))} else {}), configured, NEW_PASS, false)
  }

  function Second(shared: bool): Past {
    NO_PAST.(asking := if shared then Asked(1) else NO_PAST.asking,
             known := Known(if shared then {SHARED} else {}, {SHARED}, shared))
  }

  const START := Batch(Fresh(0, Queued), Fresh(1, Queued), map[], RunQueued)
  const FINISHED := First(Sent(1, 1, 1), {AsIsolated, AsConfigured, AsEnabled}, true, false)
  const COLLIDED := First(Sent(1, 1, 1), {AsIsolated, AsConfigured, AsEnabled}, true, true)

  /** In the pass that enabled it; at the start of the next one this is forgotten. */
  const JUST_FINISHED := FINISHED.(pass := NEW_PASS.(enables := 1, enabled := true))

  function Finished(status: RowStatus): Row {
    Given(0, Completed, status, "7", CreatedAccount)
  }

  lemma Begun()
    ensures At(Begin(START), START, NO_PAST, NO_PAST, None)
    ensures RowFits(START.rows[0], map[], NO_PAST) && RowFits(START.rows[1], map[], NO_PAST)
  {
    assert RowInv(START, 0, Begin(START)) && RowInv(START, 1, Begin(START));
  }

  /** The pass begins with row 0, whose refresh is announced and answered. */
  lemma RowRefreshed() returns (h: History)
    ensures At(h, Batch(Asking(0), Fresh(1, Queued), map[], RunRunning), NO_PAST.(asking := Asked(0)), NO_PAST, None)
  {
    Begun();
    hide Payload, Account, AccountVersion;
    hide Disciplined, AlwaysKept, RecordInv, PastOf, LastSaved, LastSeen, Beginning;
    h := Saving(Begin(START), START);
    h := Happening(h, Launched({}));
    h := Saving(h, Batch(Asking(0), Fresh(1, Queued), map[], RunRunning));
    h := Happening(h, RefreshSent(0, Pasted(0)));
    h := Happening(h, TokensReceived(0, Answer(0)));
  }

  lemma VerifiedFits()
    ensures RowFits(Renewed(0), map[], NO_PAST.(asking := Asked(0))) && RowFits(Fresh(1, Queued), map[], NO_PAST)
    ensures RowFits(Given(0, Materialized, Preparing, "", NoAction), map[], First(Sent(0, 0, 0), {}, false, false))
    ensures RowFits(Fresh(1, Queued), map[], Second(false))
  {
    OwnerIsShared();
    hide Payload, Account, AccountVersion;
  }

  /** It passes the official verification. */
  lemma RowVerified() returns (h: History)
    ensures At(h, Batch(Given(0, Materialized, Preparing, "", NoAction), Fresh(1, Queued), map[], RunRunning),
               First(Sent(0, 0, 0), {}, false, false), Second(false), None)
  {
    hide Payload, Account, AccountVersion;
    hide RowFits, Disciplined, AlwaysKept, RecordInv, PastOf, LastSaved, LastSeen, Beginning;
    OwnerIsShared();
    VerifiedFits();
    h := RowRefreshed();
    h := Saving(h, Batch(Renewed(0), Fresh(1, Queued), map[], RunRunning));
    h := Happening(h, IdentityVerified(0, SHARED));
    assert PastOf(h, 0) == First(Sent(0, 0, 0), {}, false, false) && PastOf(h, 1) == Second(false);
    h := Saving(h, Batch(Given(0, Materialized, Preparing, "", NoAction), Fresh(1, Queued), map[], RunRunning));
  }

  /** Two listings are empty, so its creation is announced. */
  lemma CreateAnnounced() returns (h: History)
    ensures At(h, Batch(Given(0, Creating, Preparing, "", NoAction), Fresh(1, Queued), map[], RunRunning),
               First(Sent(0, 0, 0), {}, false, false), Second(false), None)
    ensures LastListing(h) == Some([])
  {
    hide ExportOf;
    ExportHolds();
    hide Payload, Account, AccountVersion, CreateBody, SameAccountIdentity, Shown, TextOf, Get;
    hide Disciplined, AlwaysKept, RecordInv, PastOf, LastSaved, LastSeen, Beginning;
    h := RowVerified();
    h := Happening(h, AccountsListed([]));
    h := Happening(h, AccountsListed([]));
    h := Saving(h, Batch(Given(0, Creating, Preparing, "", NoAction), Fresh(1, Queued), map[], RunRunning));
  }

  /** It is created and found isolated. */
  lemma RowCreated() returns (h: History)
    ensures At(h, Batch(Given(0, Isolated, Preparing, "7", CreatedAccount), Fresh(1, Queued), Off(), RunRunning),
               First(Sent(1, 0, 0), {AsIsolated}, false, false), Second(false), Some(Account(false)))
  {
    hide ExportOf;
    ExportHolds();
    hide Payload, Account, AccountVersion, CreateBody, SameAccountIdentity, Shown, TextOf, Get;
    hide Disciplined, AlwaysKept, RecordInv, PastOf, LastSaved, LastSeen, Beginning;
    AccountFacts(false);
    CreateApplied(Given(0, Creating, Preparing, "", NoAction));
    h := CreateAnnounced();
    h := Happening(h, CreateSent(0, CreateBody(Payload(0))));
    h := Happening(h, AccountRead("7", Account(false)));
    h := Confirming(h, AsIsolated, false);
    assert PastOf(h, 0) == First(Sent(1, 0, 0), {AsIsolated}, false, false) && PastOf(h, 1) == Second(false);
    h := Saving(h, Batch(Given(0, Isolated, Preparing, "7", CreatedAccount), Fresh(1, Queued), Off(), RunRunning));
  }

  /** Its final configuration is sent for the first time. */
  lemma ConfigurationSent() returns (h: History)
    ensures At(h, Batch(Given(0, Configuring, Preparing, "7", CreatedAccount), Fresh(1, Queued), Off(), RunRunning),
               First(Sent(1, 1, 0), {AsIsolated}, false, false), Second(false), None)
  {
    hide ExportOf;
    ExportHolds();
    hide Payload, Account, AccountVersion, FinalBody, SameAccountIdentity, SwitchedOff, TextOf, Get;
    hide Disciplined, AlwaysKept, RecordInv, PastOf, LastSaved, LastSeen, Beginning;
    AccountFacts(false);
    h := RowCreated();
    h := Happening(h, AccountRead("7", Account(false)));
    h := Saving(h, Batch(Given(0, Configuring, Preparing, "7", CreatedAccount), Fresh(1, Queued), Off(), RunRunning));
    h := Happening(h, ConfigureSent(0, "7", FinalBody(Payload(0), false)));
  }

  /** It is confirmed. */
  lemma RowConfigured() returns (h: History)
    ensures At(h, Batch(Given(0, Configured, Preparing, "7", CreatedAccount), Fresh(1, Queued), Off(), RunRunning),
               First(Sent(1, 1, 0), {AsIsolated, AsConfigured}, true, false), Second(false), Some(Account(false)))
  {
    hide Payload, Account, AccountVersion, SameAccountIdentity, Shown, TextOf, Get;
    hide RowFits, Disciplined, AlwaysKept, RecordInv, PastOf, LastSaved, LastSeen, Beginning;
    AccountFacts(false);
    FinalApplied(Given(0, Configuring, Preparing, "7", CreatedAccount), false);
    ConfiguredRowFits();
    h := ConfigurationSent();
    h := Happening(h, AccountRead("7", Account(false)));
    h := Confirming(h, AsConfigured, false);
    var past := First(Sent(1, 1, 0), {AsIsolated, AsConfigured}, false, false);
    assert PastOf(h, 0) == past && PastOf(h, 1) == Second(false);
    h := Saving(h, Batch(Given(0, Configured, Preparing, "7", CreatedAccount), Fresh(1, Queued), Off(), RunRunning));
  }

  /** It is enabled. */
  lemma RowEnabled() returns (h: History)
    ensures At(h, Batch(Given(0, Promoting, Preparing, "7", CreatedAccount), Fresh(1, Queued), Off(), RunRunning),
               First(Sent(1, 1, 1), {AsIsolated, AsConfigured}, true, false).(pass := NEW_PASS.(enables := 1)),
               Second(false), None)
  {
    hide ExportOf;
    ExportHolds();
    hide Payload, Account, AccountVersion, SameAccountIdentity, SwitchedOff, TextOf, Get;
    hide Disciplined, AlwaysKept, RecordInv, PastOf, LastSaved, LastSeen, Beginning;
    AccountFacts(false);
    h := RowConfigured();
    h := Happening(h, AccountRead("7", Account(false)));
    h := Saving(h, Batch(Given(0, Promoting, Preparing, "7", CreatedAccount), Fresh(1, Queued), Off(), RunRunning));
    h := EnablingAgain(h);
    var past := First(Sent(1, 1, 1), {AsIsolated, AsConfigured}, true, false).(pass := NEW_PASS.(enables := 1));
    assert PastOf(h, 0) == past && PastOf(h, 1) == Second(false);
  }

  /** The account, as last read, passes a verification of row 0. */
  lemma Confirming(h: History, stage: Stage, on: bool) returns (next: History)
    requires Reached(h) && LastSeen(h, "7") == Some(Account(on)) && SHARED in PastOf(h, 0).known.own
    requires Shown(stage, LastSaved(h).rows[0], Account(on))
    ensures
      var e, past := Confirmed(0, stage, Account(on)), PastOf(h, 0);
      var confirmed := past.(readbacks := ReadbacksAfter(past.readbacks, e), pass := PassAfter(past.pass, e));
      At(next, LastSaved(h), confirmed, PastOf(h, 1), Some(Account(on)))
  {
    hide Account, AccountVersion, SameAccountIdentity, Shown, TextOf, Get;
    hide Disciplined, AlwaysKept, RecordInv, PastOf, LastSaved, LastSeen, Beginning;
    AccountFacts(on);
    next := Happening(h, Confirmed(0, stage, Account(on)));
  }

  /** The old error is cleared and the account enabled. */
  lemma EnablingAgain(h: History) returns (next: History)
    requires Reached(h) && WithExport(LastSaved(h), 0, Promoting) && TakenUp(LastSaved(h), 0)
    requires LastSaved(h).rows[0].accountId == "7" && MayApply(LastSaved(h), 0, Account(false))
    requires LastSeen(h, "7") == Some(Account(false)) && PastOf(h, 0).configured && !PastOf(h, 0).asking.open
    requires PastOf(h, 0).known.shared ||
      (PastOf(h, 0).sent.enables == 0 && AccountVersion(Account(false)) in PastOf(h, 0).readbacks.versions)
    ensures At(next, LastSaved(h),
      PastOf(h, 0).(sent := PastOf(h, 0).sent.(enables := PastOf(h, 0).sent.enables + 1),
                    pass := PastOf(h, 0).pass.(enables := PastOf(h, 0).pass.enables + 1)), PastOf(h, 1), None)
  {
    hide MayApply, AccountVersion, Account, Disciplined, AlwaysKept, RecordInv, PastOf, LastSaved, LastSeen, Beginning;
    var cleared := Happening(h, ClearErrorSent(0, "7"));
    assert cleared == Then(h, ClearErrorSent(0, "7"));
    next := Happening(cleared, EnableSent(0, "7", Account(false)));
  }

  /** The phase `completed` is stored, and the service dies before the public status is. */
  lemma RowCompleted() returns (h: History)
    ensures At(h, Batch(Finished(Preparing), Fresh(1, Queued), On(), RunRunning),
               JUST_FINISHED, Second(false), Some(Account(true)))
  {
    hide Payload, Account, AccountVersion, SameAccountIdentity, Shown, TextOf, Get, SwitchedOn;
    hide RowFits, On, Disciplined, AlwaysKept, RecordInv, PastOf, LastSaved, LastSeen, Beginning;
    AccountFacts(true);
    FinalApplied(Given(0, Promoting, Preparing, "7", CreatedAccount), true);
    FinishedFits();
    SecondFits();
    h := RowEnabled();
    h := Happening(h, AccountRead("7", Account(true)));
    h := Confirming(h, AsEnabled, true);
    assert PastOf(h, 0) == JUST_FINISHED && PastOf(h, 1) == Second(false);
    h := Saving(h, Batch(Finished(Preparing), Fresh(1, Queued), On(), RunRunning));
  }

  lemma FinishedRowFits(status: RowStatus, versions: map<string, Version>, shared: bool, pass: Pass)
    requires versions == On() || (versions == Off() && shared)
    ensures
      var past := First(Sent(1, 1, 1), {AsIsolated, AsConfigured, AsEnabled}, true, shared);
      RowFits(Finished(status), versions, past.(pass := pass))
  {
    hide ExportOf;
    ExportHolds();
    AccountFacts(versions == On());
    VersionShows(Account(versions == On()));
    OwnerIsShared();
    hide Payload, Account, AccountVersion, SwitchedOn, SwitchedOff, SameAccountIdentity, AccountIdentity, TextOf, Get;
  }

  lemma FinishedFits()
    ensures forall status :: RowFits(Finished(status), On(), FINISHED)
    ensures forall status :: RowFits(Finished(status), On(), JUST_FINISHED)
    ensures forall status :: RowFits(Finished(status), On(), COLLIDED)
    ensures forall status :: RowFits(Finished(status), Off(), COLLIDED)
  {
    hide RowFits, Finished, On, Off;
    forall status
      ensures RowFits(Finished(status), On(), FINISHED) && RowFits(Finished(status), On(), JUST_FINISHED)
      ensures RowFits(Finished(status), On(), COLLIDED) && RowFits(Finished(status), Off(), COLLIDED)
    {
      FinishedRowFits(status, On(), false, NEW_PASS);
      FinishedRowFits(status, On(), false, JUST_FINISHED.pass);
      FinishedRowFits(status, On(), true, NEW_PASS);
      FinishedRowFits(status, Off(), true, NEW_PASS);
    }
  }

  lemma ConfiguringRowFits(phase: Phase, status: RowStatus)
    requires phase.Configuring? || phase.Configured? || phase.Promoting?
    ensures RowFits(Given(0, phase, status, "7", CreatedAccount), Off(), COLLIDED)
  {
    hide ExportOf;
    ExportHolds();
    hide Payload, Account, AccountVersion, SwitchedOn, AccountIdentity, TextOf, Get;
    OwnerIsShared();
  }

  lemma ConfiguredRowFits()
    ensures RowFits(Given(0, Configured, Preparing, "7", CreatedAccount), Off(),
                    First(Sent(1, 1, 0), {AsIsolated, AsConfigured}, false, false))
    ensures forall status :: RowFits(Fresh(1, status), Off(), Second(false))
  {
    hide ExportOf;
    ExportHolds();
    OwnerIsShared();
    hide Payload, Account, AccountVersion;
  }

  lemma ConfiguringFits()
    ensures forall phase: Phase, status | phase.Configuring? || phase.Configured? || phase.Promoting? ::
      RowFits(Given(0, phase, status, "7", CreatedAccount), Off(), COLLIDED)
  {
    hide RowFits, Given, Off;
    forall phase: Phase, status | phase.Configuring? || phase.Configured? || phase.Promoting?
      ensures RowFits(Given(0, phase, status, "7", CreatedAccount), Off(), COLLIDED)
    {
      ConfiguringRowFits(phase, status);
    }
  }

  lemma SecondFits()
    ensures forall status :: RowFits(Fresh(1, status), On(), Second(false))
    ensures RowFits(Asking(1), On(), Second(false))
    ensures RowFits(Renewed(1), On(), Second(false).(asking := Asked(1)))
    ensures RowFits(Given(1, Materialized, Preparing, "", NoAction), On(), Second(true))
    ensures forall status :: RowFits(Given(1, Isolating, status, "7", NoAction), Off(), Second(true))
  {
    hide RowFits, Fresh, Asking, Renewed, Given, Second, Asked;
    forall status ensures RowFits(Fresh(1, status), On(), Second(false)) { FreshFits(status); }
    RenewedFits();
    forall status ensures RowFits(Given(1, Isolating, status, "7", NoAction), Off(), Second(true)) { GivenFits(status); }
  }

  lemma FreshFits(status: RowStatus)
    ensures RowFits(Fresh(1, status), On(), Second(false))
  {
  }

  lemma RenewedFits()
    ensures RowFits(Asking(1), On(), Second(false)) && RowFits(Renewed(1), On(), Second(false).(asking := Asked(1)))
    ensures RowFits(Given(1, Materialized, Preparing, "", NoAction), On(), Second(true))
  {
    hide Payload, Account, AccountVersion;
  }

  lemma GivenFits(status: RowStatus)
    ensures RowFits(Given(1, Isolating, status, "7", NoAction), Off(), Second(true))
  {
    hide ExportOf;
    ExportHolds();
    hide Payload, Account, AccountVersion;
    OwnerIsShared();
    hide Payload, Account, AccountVersion;
  }

  /** After the restart a retry takes both rows up again. */
  lemma Restarted() returns (h: History)
    ensures At(h, Batch(Finished(Preparing), Fresh(1, Queued), On(), RunRunning),
               FINISHED, Second(false), Some(Account(true)))
  {
    hide Payload, Account, AccountVersion, SwitchedOff, SwitchedOn, TextOf, Get;
    hide RowFits, On, Off, Disciplined, AlwaysKept, RecordInv, PastOf, LastSaved, LastSeen, Beginning;
    OwnerIsShared();
    FinishedFits();
    SecondFits();
    h := RowCompleted();
    h := Saving(h, Batch(Finished(Interrupted), Fresh(1, Interrupted), On(), RunInterrupted));
    h := Saving(h, Batch(Finished(Queued), Fresh(1, Queued), On(), RunQueued));
    h := Happening(h, Launched({}));
    h := Happening(h, IdentityVerified(0, SHARED));
    assert PastOf(h, 0) == FINISHED && PastOf(h, 1) == Second(false);
    h := Saving(h, Batch(Finished(Preparing), Fresh(1, Queued), On(), RunRunning));
  }

  /** Row 0 fails, its account being enabled; the refresh of row 1 is announced. */
  lemma SecondRowAsks() returns (h: History)
    ensures At(h, Batch(Finished(Failed), Asking(1), On(), RunRunning), FINISHED, Second(false), Some(Account(true)))
  {
    hide Payload, Account, AccountVersion, SwitchedOn, TextOf, Get;
    hide RowFits, On, Off, Disciplined, AlwaysKept, RecordInv, PastOf, LastSaved, LastSeen, Beginning;
    AccountFacts(true);
    FinishedFits();
    SecondFits();
    h := Restarted();
    h := Happening(h, AccountRead("7", Account(true)));
    h := Saving(h, Batch(Finished(Failed), Fresh(1, Queued), On(), RunRunning));
    h := Saving(h, Batch(Finished(Failed), Asking(1), On(), RunRunning));
  }

  /** It is answered. */
  lemma SecondRowRefreshed() returns (h: History)
    ensures At(h, Batch(Finished(Failed), Asking(1), On(), RunRunning),
               FINISHED, Second(false).(asking := Asked(1)), Some(Account(true)))
  {
    hide Payload, Account, AccountVersion, On;
    hide RowFits, Disciplined, AlwaysKept, RecordInv, PastOf, LastSaved, LastSeen, Beginning;
    h := SecondRowAsks();
    h := Happening(h, RefreshSent(1, Pasted(1)));
    h := Happening(h, TokensReceived(1, Answer(1)));
  }

  /** It turns out to be the same account. */
  lemma SecondRowCollides() returns (h: History)
    ensures At(h, Batch(Finished(Failed), Given(1, Materialized, Preparing, "", NoAction), On(), RunRunning),
               COLLIDED, Second(true), Some(Account(true)))
  {
    hide Payload, Account, AccountVersion, SwitchedOn, TextOf, Get;
    hide RowFits, On, Off, Disciplined, AlwaysKept, RecordInv, PastOf, LastSaved, LastSeen, Beginning;
    OwnerIsShared();
    FinishedFits();
    SecondFits();
    h := SecondRowRefreshed();
    h := Saving(h, Batch(Finished(Failed), Renewed(1), On(), RunRunning));
    h := Happening(h, IdentityVerified(1, SHARED));
    assert PastOf(h, 0) == COLLIDED && PastOf(h, 1) == Second(true);
    h := Saving(h, Batch(Finished(Failed), Given(1, Materialized, Preparing, "", NoAction), On(), RunRunning));
  }

  /** It finds the account in two listings and alone, announces the pause, sends it, and the service dies again. */
  lemma SecondRowReopens() returns (h: History)
    ensures At(h, Batch(Finished(Failed), Given(1, Isolating, Preparing, "7", NoAction), Off(), RunRunning),
               COLLIDED, Second(true), None)
  {
    hide Payload, Account, AccountVersion, SwitchedOff, TextOf, Get;
    hide RowFits, On, Off, Disciplined, AlwaysKept, RecordInv, PastOf, LastSaved, LastSeen, Beginning;
    AccountFacts(true);
    AccountFacts(false);
    FinishedFits();
    SecondFits();
    h := SecondRowCollides();
    h := Happening(h, AccountRead("7", Account(true)));
    h := Happening(h, AccountRead("7", Account(true)));
    h := Happening(h, AccountRead("7", Account(true)));
    h := Saving(h, Batch(Finished(Failed), Given(1, Isolating, Preparing, "7", NoAction), Off(), RunRunning));
    h := Happening(h, PauseSent(1, "7"));
  }

  /** A second restart and retry: row 0, finished in phase but not in status, is verified once more. */
  lemma RestartedAgain() returns (h: History)
    ensures At(h, Batch(Finished(Preparing), Given(1, Isolating, Queued, "7", NoAction), Off(), RunRunning),
               COLLIDED, Second(true), None)
  {
    hide Payload, Account, AccountVersion, SwitchedOff, TextOf, Get;
    hide RowFits, On, Off, Disciplined, AlwaysKept, RecordInv, PastOf, LastSaved, LastSeen, Beginning;
    OwnerIsShared();
    FinishedFits();
    SecondFits();
    h := SecondRowReopens();
    h := Saving(h, Batch(Finished(Interrupted), Given(1, Isolating, Interrupted, "7", NoAction), Off(), RunInterrupted));
    h := Saving(h, Batch(Finished(Queued), Given(1, Isolating, Queued, "7", NoAction), Off(), RunQueued));
    h := Happening(h, Launched({}));
    h := Happening(h, IdentityVerified(0, SHARED));
    assert PastOf(h, 0) == COLLIDED && PastOf(h, 1) == Second(true);
    h := Saving(h, Batch(Finished(Preparing), Given(1, Isolating, Queued, "7", NoAction), Off(), RunRunning));
  }

  /** The account is switched off with the version that row 1 recorded, so row 0 announces its configuration again. */
  lemma AnnouncedAgain() returns (h: History)
    ensures At(h, Batch(Given(0, Configuring, Preparing, "7", CreatedAccount),
                        Given(1, Isolating, Queued, "7", NoAction), Off(), RunRunning),
               COLLIDED, Second(true), Some(Account(false)))
  {
    hide Payload, Account, AccountVersion, TextOf, Get;
    hide RowFits, Off, Disciplined, AlwaysKept, RecordInv, PastOf, LastSaved, LastSeen, Beginning;
    AccountFacts(false);
    ConfiguringFits();
    SecondFits();
    h := RestartedAgain();
    h := Happening(h, AccountRead("7", Account(false)));
    var configuring := Given(0, Configuring, Preparing, "7", CreatedAccount);
    h := Saving(h, Batch(configuring, Given(1, Isolating, Queued, "7", NoAction), Off(), RunRunning));
  }

  lemma MayApplyAgain(record: Record)
    requires |record.rows| == 2 && record.versions == Off()
    requires record.rows[0].accountId == "7" && record.rows[0].tokens == Answer(0)
    ensures MayApply(record, 0, Account(false)) && Reopened(record, 0)
  {
    AccountFacts(false);
    VersionShows(Account(false));
    VersionKind(Account(false));
    hide Account, AccountVersion, SameAccountIdentity, SwitchedOff;
  }

  /** The configuration of row 0 leaves a second time. */
  lemma SharedIdentityRepeatsConfiguration() returns (h: History)
    ensures Disciplined(h, CHECK_OFF) && AlwaysKept(h) && PastOf(h, 0).sent.configures == 2
    ensures Beginning(h) == Record([Fresh(0, Queued), Fresh(1, Queued)], map[], {}, RunQueued)
    ensures FreshRow(Fresh(0, Queued)) && FreshRow(Fresh(1, Queued))
  {
    hide Payload, Account, AccountVersion, FinalBody, MayApply, Reopened;
    hide RowFits, Disciplined, AlwaysKept, RecordInv, PastOf, LastSaved, LastSeen, Beginning;
    h := AnnouncedAgain();
    MayApplyAgain(LastSaved(h));
    h := Happening(h, ConfigureSent(0, "7", FinalBody(Payload(0), false)));
  }

  /** Or the service dies first, and the retry finds by reading that the configuration is already in place. */
  lemma ConfiguredByReading() returns (h: History)
    ensures At(h, Batch(Given(0, Configured, Queued, "7", CreatedAccount),
                        Given(1, Isolating, Queued, "7", NoAction), Off(), RunRunning),
               COLLIDED, Second(true), Some(Account(false)))
  {
    hide Payload, Account, AccountVersion, SameAccountIdentity, Shown, TextOf, Get;
    hide RowFits, Off, Disciplined, AlwaysKept, RecordInv, PastOf, LastSaved, LastSeen, Beginning;
    AccountFacts(false);
    ConfiguringFits();
    SecondFits();
    FinalApplied(Given(0, Configuring, Queued, "7", CreatedAccount), false);
    h := QueuedAgain();
    h := Happening(h, Launched({}));
    h := Happening(h, AccountRead("7", Account(false)));
    h := Confirming(h, AsConfigured, false);
    assert PastOf(h, 0) == COLLIDED;
    var configured := Given(0, Configured, Queued, "7", CreatedAccount);
    h := Saving(h, Batch(configured, Given(1, Isolating, Queued, "7", NoAction), Off(), RunRunning));
  }

  lemma QueuedAgain() returns (h: History)
    ensures At(h, Batch(Given(0, Configuring, Queued, "7", CreatedAccount),
                        Given(1, Isolating, Queued, "7", NoAction), Off(), RunQueued),
               COLLIDED, Second(true), Some(Account(false)))
  {
    hide Payload, Account, AccountVersion;
    hide RowFits, Off, Disciplined, AlwaysKept, RecordInv, PastOf, LastSaved, LastSeen, Beginning;
    ConfiguringFits();
    SecondFits();
    h := AnnouncedAgain();
    h := Saving(h, Batch(Given(0, Configuring, Interrupted, "7", CreatedAccount),
                         Given(1, Isolating, Interrupted, "7", NoAction), Off(), RunInterrupted));
    h := Saving(h, Batch(Given(0, Configuring, Queued, "7", CreatedAccount),
                         Given(1, Isolating, Queued, "7", NoAction), Off(), RunQueued));
  }

  /** Row 0 is verified, read and read again, and announces its enable. */
  lemma EnableAnnounced() returns (h: History)
    ensures At(h, Batch(Given(0, Promoting, Preparing, "7", CreatedAccount),
                        Given(1, Isolating, Queued, "7", NoAction), Off(), RunRunning),
               COLLIDED, Second(true), Some(Account(false)))
  {
    hide Payload, Account, AccountVersion, TextOf, Get;
    hide RowFits, Off, Disciplined, AlwaysKept, RecordInv, PastOf, LastSaved, LastSeen, Beginning;
    AccountFacts(false);
    ConfiguringFits();
    SecondFits();
    h := ConfiguredByReading();
    h := Happening(h, IdentityVerified(0, SHARED));
    assert PastOf(h, 0) == COLLIDED && PastOf(h, 1) == Second(true);
    var other := Given(1, Isolating, Queued, "7", NoAction);
    h := Saving(h, Batch(Given(0, Configured, Preparing, "7", CreatedAccount), other, Off(), RunRunning));
    h := Happening(h, AccountRead("7", Account(false)));
    h := Happening(h, AccountRead("7", Account(false)));
    h := Saving(h, Batch(Given(0, Promoting, Preparing, "7", CreatedAccount), other, Off(), RunRunning));
  }

  /** The enable of row 0 leaves a second time, its configuration having been sent once. */
  lemma SharedIdentityRepeatsEnable() returns (h: History)
    ensures Disciplined(h, CHECK_OFF) && AlwaysKept(h) && PastOf(h, 0).sent == Sent(1, 1, 2)
    ensures Beginning(h) == Record([Fresh(0, Queued), Fresh(1, Queued)], map[], {}, RunQueued)
    ensures FreshRow(Fresh(0, Queued)) && FreshRow(Fresh(1, Queued))
  {
    hide Payload, Account, AccountVersion, FinalBody, MayApply, Reopened;
    hide RowFits, Disciplined, AlwaysKept, RecordInv, PastOf, LastSaved, LastSeen, Beginning;
    h := EnableAnnounced();
    MayApplyAgain(LastSaved(h));
    h := EnablingAgain(h);
  }
}
