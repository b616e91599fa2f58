/**
 The stored record of an import run and the history of what its worker saved, sent and learned.
 A history is the evidence every safety statement about a run is made of.
 */
module RunHistory {
  import opened Common
  import opened Json
  import opened Readback

  // ---- The stored record ----

  datatype Kind = Login | RefreshOnly | CodexJson | Sub2ApiJson

  /** The durable phase of a row; it is saved before every one-use or uncertain request. */
  datatype Phase =
    | Unstarted | Refreshing | Exchanging | Materialized | Isolating | Creating | Updating | Isolated
    | Configuring | Configured | Promoting | Completed

  datatype RowStatus =
    | Queued | Preparing | Authorizing | WaitingInput | Checking | Review | Failed | Interrupted | Done

  datatype RunStatus = RunQueued | RunRunning | RunCompleted | RunNeedsAttention | RunInterrupted

  datatype Check = Check(verdict: string, error: string)

  datatype Tokens = Tokens(access: string, refresh: string, identity: Identity)

  datatype ImportAction = NoAction | CreatedAccount | UpdatedAccount

  /** One row: its stored input, export, phase and public state. */
  datatype Row = Row(
    kind: Kind, tokens: Tokens, payload: Option<Fields>, phase: Phase, status: RowStatus,
    accountId: string, check: Option<Check>, action: ImportAction)

  datatype Record = Record(rows: seq<Row>, versions: map<string, Version>, manual: set<nat>, status: RunStatus)

  datatype Remembered = Remembered(accountId: string, version: Version, identity: Identity)

  datatype Settings = Settings(check: bool, promote: bool, remembered: Option<Remembered>)

  /** A row as a run begins with it. */
  predicate FreshRow(row: Row) {
    && row.phase == Unstarted && row.accountId == "" && row.payload.None? && row.check.None?
    && (NeedsLogin(row.kind) ==> row.tokens.access == "")
  }

  /** A run bound to a remembered account imports into that account only. */
  predicate BoundTo(settings: Settings, id: string) {
    settings.remembered.Some? ==> settings.remembered.value.accountId == id
  }

  predicate PassedImportCheck(check: Check) {
    Trim(check.error) == "" && check.verdict in {"SOL_CONSISTENT", "MATCH", "GROUP_MATCH"}
  }

  /** A passed check is kept as it was answered; any other is kept as one that did not pass, with a known verdict. */
  predicate KeptOf(answer: Check, check: Check) {
    if PassedImportCheck(answer) then check == answer
    else !PassedImportCheck(check) && check.verdict in {"ERROR", "INCONCLUSIVE", "MISMATCH"}
  }

  // ---- Events ----

  /** What a verification of a readback establishes. */
  datatype Stage = AsIsolated | AsConfigured | AsEnabled

  datatype Event =
    | Saved(record: Record)                                   // a save of the record took effect
    | Launched(manual: set<nat>)                              // a worker pass began
    | RefreshSent(row: nat, token: string)                    // one-use refresh request
    | ExchangeSent(row: nat)                                  // one-use authorization-code exchange
    | TokensReceived(row: nat, tokens: Tokens)                // answer to either of the two
    | IdentityVerified(row: nat, who: Identity)               // official signature checked
    | PauseSent(row: nat, id: string)                         // POST schedulable=false
    | CreateSent(row: nat, body: Fields)                      // POST of a new account
    | UpdateSent(row: nat, id: string, body: Fields)          // PUT of the import
    | GroupsCleared(row: nat, id: string)                     // PUT of no groups on a created account
    | ConfigureSent(row: nat, id: string, body: Fields)       // PUT of the final configuration
    | AccountRead(id: string, account: Fields)                // the site showed the account, alone or in a listing
    | AccountsListed(accounts: seq<Fields>)                   // the site showed all accounts
    | Confirmed(row: nat, stage: Stage, account: Fields)      // that readback passed a verification
    | Checked(row: nat, answer: Check, check: Check)          // the import check answered, and what is kept of it
    | ClearErrorSent(row: nat, id: string)                    // POST clear-error
    | EnableSent(row: nat, id: string, seen: Fields)          // POST schedulable=true; seen is the last readback

  datatype History = Begin(record: Record) | Then(before: History, event: Event)

  function LastSaved(h: History): Record {
    match h
    case Begin(record) => record
    case Then(before, event) => if event.Saved? then event.record else LastSaved(before)
  }

  /** Requests that write the site, by kind. */
  datatype Sent = Sent(imports: nat, configures: nat, enables: nat)

  /** One-use requests: code exchanges, whether any was sent, whether the last is open, and its last answer. */
  datatype Asking = Asking(exchanges: nat, ever: bool, open: bool, answer: Option<Tokens>)

  /** Official identities of the row's credentials and of other rows' credentials; `shared` if they ever met. */
  datatype Known = Known(own: set<Identity>, others: set<Identity>, shared: bool)

  /** Verifications a readback passed, and the versions that passed the one of the final configuration. */
  datatype Readbacks = Readbacks(stages: set<Stage>, versions: set<Version>)

  /**
   What has happened in the current pass: the check's last answer, whether one of its answers passed, the enables sent,
   whether a readback showed the account enabled, and whether one did before any enable was sent.
   */
  datatype Pass = Pass(check: Option<Check>, passed: bool, enables: nat, enabled: bool, found: bool)

  const NEW_PASS := Pass(None, false, 0, false, false)

  /**
   What has happened for one row. `configured`: some saved record held it as configured. `stuck`: some pass began while
   the row's one-use request was unresolved.
   */
  datatype Past = Past(
    sent: Sent, asking: Asking, known: Known, readbacks: Readbacks, configured: bool, pass: Pass, stuck: bool)

  const NO_PAST := Past(
    Sent(0, 0, 0), Asking(0, false, false, None), Known({}, {}, false), Readbacks({}, {}), false, NEW_PASS, false)

  predicate OneUse(phase: Phase) {
    phase.Refreshing? || phase.Exchanging?
  }

  predicate InOneUse(record: Record, i: nat) {
    i < |record.rows| && OneUse(record.rows[i].phase)
  }

  predicate SavedConfigured(record: Record, i: nat) {
    i < |record.rows| && record.rows[i].phase == Configured
  }

  /** The past of row `i` once an event has happened; `saved` is the record that was stored then. */
  function After(past: Past, e: Event, i: nat, saved: Record): Past {
    match e
    case Saved(record) => past.(configured := past.configured || SavedConfigured(record, i))
    case Launched(_) => past.(pass := NEW_PASS, stuck := past.stuck || InOneUse(saved, i))
    case AccountRead(_, _) => past
    case AccountsListed(_) => past
    case IdentityVerified(row, who) => past.(known := Knowing(past.known, row == i, who))
    case _ => if e.row == i then AfterOwn(past, e) else past
  }

  function Knowing(known: Known, own: bool, who: Identity): Known {
    if own then Known(known.own + {who}, known.others, known.shared || who in known.others)
    else Known(known.own, known.others + {who}, known.shared || who in known.own)
  }

  function SentAfter(sent: Sent, e: Event): Sent {
    if e.CreateSent? || e.UpdateSent? then sent.(imports := sent.imports + 1)
    else if e.ConfigureSent? then sent.(configures := sent.configures + 1)
    else if e.EnableSent? then sent.(enables := sent.enables + 1)
    else sent
  }

  function AskingAfter(asking: Asking, e: Event): Asking {
    if e.RefreshSent? then asking.(ever := true, open := true)
    else if e.ExchangeSent? then asking.(ever := true, open := true, exchanges := asking.exchanges + 1)
    else if e.TokensReceived? then asking.(open := false, answer := Some(e.tokens))
    else asking
  }

  function ReadbacksAfter(readbacks: Readbacks, e: Event): Readbacks {
    if !e.Confirmed? then readbacks
    else if e.stage.AsConfigured? then
      Readbacks(readbacks.stages + {e.stage}, readbacks.versions + {AccountVersion(e.account)})
    else readbacks.(stages := readbacks.stages + {e.stage})
  }

  function PassAfter(pass: Pass, e: Event): Pass {
    if e.Checked? then pass.(check := Some(e.check), passed := pass.passed || PassedImportCheck(e.check))
    else if e.EnableSent? then pass.(enables := pass.enables + 1)
    else if e.Confirmed? && e.stage.AsEnabled? then
      pass.(enabled := true, found := pass.found || pass.enables == 0)
    else pass
  }

  /** The same for an event of the row itself. */
  function AfterOwn(past: Past, e: Event): Past {
    past.(sent := SentAfter(past.sent, e), asking := AskingAfter(past.asking, e),
          readbacks := ReadbacksAfter(past.readbacks, e), pass := PassAfter(past.pass, e))
  }

  function PastOf(h: History, i: nat): Past {
    match h
    case Begin(record) => NO_PAST.(configured := SavedConfigured(record, i))
    case Then(before, event) => After(PastOf(before, i), event, i, LastSaved(before))
  }

  /** A request that changes the account; the one that clears its old error is not counted. */
  predicate WritesAccount(e: Event, id: string) {
    (e.PauseSent? || e.UpdateSent? || e.GroupsCleared? || e.ConfigureSent? || e.EnableSent?) && e.id == id
  }

  /** The account as it was last read, if nothing was written to it since. */
  function LastSeen(h: History, id: string): Option<Fields> {
    if h.Begin? || WritesAccount(h.event, id) then None
    else if h.event.AccountRead? && h.event.id == id then Some(h.event.account)
    else LastSeen(h.before, id)
  }

  /** All accounts, as they were last listed. */
  function LastListing(h: History): Option<seq<Fields>> {
    if h.Begin? then None else if h.event.AccountsListed? then Some(h.event.accounts) else LastListing(h.before)
  }

  predicate NoneLike(accounts: seq<Fields>, who: Identity) {
    forall account | account in accounts :: !SameAccountIdentity(account, who)
  }

  /** The rows an operator chose by hand for the current pass. */
  function PassManual(h: History): set<nat> {
    if h.Begin? then {} else if h.event.Launched? then h.event.manual else PassManual(h.before)
  }

  /** The record that was stored when the current pass began. */
  function LaunchRecord(h: History): Record {
    if h.Begin? then h.record else if h.event.Launched? then LastSaved(h.before) else LaunchRecord(h.before)
  }

  // ---- What a row's export asks of its account ----

  /** An export for an OpenAI account with the row's own tokens and identity. */
  predicate ExportOf(payload: Fields, tokens: Tokens) {
    var credentials := FieldsOf(Get(payload, Credentials));
    && Get(payload, Platform) == Text("openai", Plain) && Get(payload, AccountType) == Text("oauth", Plain)
    && TextOf(Get(credentials, AccessToken)) == Trim(tokens.access)
    && TextOf(Get(credentials, RefreshToken)) == Trim(tokens.refresh)
    && CredentialIdentity(credentials) == tokens.identity
  }

  /** The tokens are those of the last answer, if there was any. */
  predicate LastAnswered(asking: Asking, tokens: Tokens) {
    asking.answer.Some? ==> asking.answer.value.access == tokens.access && asking.answer.value.refresh == tokens.refresh
  }

  /** What is imported is an export of the row's own tokens, the last it was issued, and of its verified identity. */
  predicate ImportsOwn(h: History, record: Record, i: nat)
    requires i < |record.rows|
  {
    var row := record.rows[i];
    && row.payload.Some? && ExportOf(row.payload.value, row.tokens) && LastAnswered(PastOf(h, i).asking, row.tokens)
    && Complete(row.tokens.identity) && row.tokens.identity in PastOf(h, i).known.own
  }

  /** The PUT of an import, and the POST of a new account. */
  function UpdateBody(payload: Fields): Fields {
    WithSwitch(payload, "inactive", false)
  }

  function CreateBody(payload: Fields): Fields {
    UpdateBody(payload)[GroupIds := List([])][SkipDefaultGroupBind := Bool(true)]
  }

  /** The final configuration, and what an enabled account is compared with. */
  function FinalBody(payload: Fields, on: bool): Fields {
    WithSwitch(payload - {Credentials, Platform, AccountType}, "active", on)
  }

  /** What an isolated account is compared with; a new one has no groups yet. */
  function IsolatedBody(payload: Fields, created: bool): Fields {
    var body := payload[Schedulable := Bool(false)];
    if created then body[GroupIds := List([])] else body
  }

  /** The account shows the final configuration and exactly the models of the export. */
  predicate ConfiguredAs(account: Fields, payload: Fields, on: bool) {
    ImportApplied(account, FinalBody(payload, on)) && ModelMappingsVerified(account, FieldsOf(Get(payload, Credentials)))
  }

  /** What each verification establishes: the account shows what the row's export asks for. */
  predicate Shown(stage: Stage, row: Row, account: Fields) {
    && row.payload.Some?
    && match stage
       case AsIsolated =>
         SwitchedOff(account) && ImportAppliedWhileIsolated(account, IsolatedBody(row.payload.value, row.phase.Creating?))
       case AsConfigured => SwitchedOff(account) && ConfiguredAs(account, row.payload.value, false)
       case AsEnabled =>
         && SwitchedOn(account) && Get(account, Status) == Text("active", Plain)
         && ConfiguredAs(account, row.payload.value, true)
  }

  // ---- Discipline: when an event may follow a history ----

  /** Enabling was asked for and checking is off or passed in this pass; or the operator chose the row for this pass. */
  predicate Gate(h: History, settings: Settings, i: nat) {
    || i in PassManual(h)
    || (settings.promote
        && (!settings.check || (PastOf(h, i).pass.check.Some? && PassedImportCheck(PastOf(h, i).pass.check.value))))
  }

  predicate ReadyForManual(row: Row) {
    row.status == Review && row.check.Some? && row.accountId != "" && (row.phase.Configured? || row.phase.Isolated?)
  }

  predicate InPhase(record: Record, i: nat, phase: Phase) {
    i < |record.rows| && record.rows[i].phase == phase
  }

  /** A request that switches the account off belongs to an import under way. */
  predicate MayPause(record: Record, i: nat) {
    InPhase(record, i, Isolating) || InPhase(record, i, Creating) || InPhase(record, i, Updating)
  }

  /** The request follows the one that clears the account's old error, which follows the last read. */
  predicate AdmissibleEnable(h: History, settings: Settings, i: nat, id: string, seen: Fields) {
    var saved, past := LastSaved(h), PastOf(h, i);
    && h.Then? && h.event == ClearErrorSent(i, id)
    && InPhase(saved, i, Promoting)
    && saved.rows[i].accountId == id && MayApply(saved, i, seen)
    && past.configured && Gate(h, settings, i) && LastSeen(h, id) == Some(seen)
    && (past.known.shared || (past.sent.enables == 0 && AccountVersion(seen) in past.readbacks.versions))
  }

  /** A write of the site on behalf of one row. */
  predicate WritesSite(e: Event) {
    || e.PauseSent? || e.CreateSent? || e.UpdateSent? || e.GroupsCleared? || e.ConfigureSent? || e.ClearErrorSent?
    || e.EnableSent?
  }

  /** Everything the worker sends or learns for one row. */
  predicate OfRow(e: Event) {
    !e.Saved? && !e.Launched? && !e.AccountRead? && !e.AccountsListed?
  }

  /**
   A verification passes for the account as it was last read, which shows an identity the row verified and what the
   row's stored export asks for.
   */
  predicate AdmissibleConfirmation(h: History, i: nat, stage: Stage, account: Fields) {
    && LastSeen(h, TextOf(Get(account, Id))) == Some(account)
    && SameAccountIdentity(account, AccountIdentity(account)) && AccountIdentity(account) in PastOf(h, i).known.own
    && i < |LastSaved(h).rows| && Shown(stage, LastSaved(h).rows[i], account)
  }

  predicate SameButStatus(before: Row, after: Row) {
    after == before.(status := after.status)
  }

  /** The announced row has an export to send. */
  predicate WithExport(record: Record, i: nat, phase: Phase) {
    InPhase(record, i, phase) && record.rows[i].payload.Some?
  }

  /** The account as last read is switched off and shows the row's identity. */
  predicate SeenIsolated(h: History, record: Record, i: nat, id: string)
    requires i < |record.rows|
  {
    && LastSeen(h, id).Some? && SwitchedOff(LastSeen(h, id).value)
    && SameAccountIdentity(LastSeen(h, id).value, record.rows[i].tokens.identity)
  }

  /** A row whose one-use request was unresolved when a pass began is left alone but for its public status. */
  ghost predicate LeavesStuck(h: History, before: Record, after: Record) {
    && |after.rows| == |before.rows|
    && forall i: nat | i < |before.rows| && PastOf(h, i).stuck :: SameButStatus(before.rows[i], after.rows[i])
  }

  /**
   What a row must have gone through to be finished: it is configured, or enabled as a readback of this pass showed;
   enabled, if that was asked for or the operator chose it; and past the check asked for, unless the operator chose it
   or it was found enabled.
   */
  predicate Earned(pass: Pass, settings: Settings, chosen: bool, phase: Phase) {
    && (phase.Configured? || phase.Completed?)
    && (phase.Completed? ==> pass.enabled)
    && (settings.promote || chosen ==> phase.Completed?)
    && (settings.check && !chosen ==> pass.passed || pass.found)
  }

  /** Rows that one record shows as finished and an earlier one does not have earned it. */
  ghost predicate DoneEarned(h: History, settings: Settings, before: Record, after: Record) {
    && |after.rows| == |before.rows|
    && forall i: nat | i < |before.rows| && after.rows[i].status.Done? && !before.rows[i].status.Done? ::
      Earned(PastOf(h, i).pass, settings, i in PassManual(h), after.rows[i].phase)
  }

  /** Nothing that showed a row's progress in this pass is taken back. */
  predicate PassGrows(earlier: Pass, later: Pass) {
    && (earlier.passed ==> later.passed) && (earlier.enabled ==> later.enabled) && (earlier.found ==> later.found)
    && earlier.enables <= later.enables
  }

  lemma EventKeepsDone(h: History, settings: Settings, before: Record, after: Record, e: Event)
    requires DoneEarned(h, settings, before, after) && !e.Launched?
    ensures DoneEarned(Then(h, e), settings, before, after)
  {
    forall i: nat | i < |before.rows| && after.rows[i].status.Done? && !before.rows[i].status.Done?
      ensures Earned(PastOf(Then(h, e), i).pass, settings, i in PassManual(Then(h, e)), after.rows[i].phase)
    {
      assert Earned(PastOf(h, i).pass, settings, i in PassManual(h), after.rows[i].phase);
      ProgressLasts(PastOf(h, i), e, i, LastSaved(h));
    }
  }

  lemma ProgressLasts(past: Past, e: Event, i: nat, saved: Record)
    requires !e.Launched?
    ensures PassGrows(past.pass, After(past, e, i, saved).pass)
    ensures !(OfRow(e) && e.row == i) ==> After(past, e, i, saved).pass == past.pass
  {
    hide PassedImportCheck;
  }

  /** A pass works on every row, or on those the operator chose for it. */
  predicate ActsOn(h: History, i: nat) {
    PassManual(h) == {} || i in PassManual(h)
  }

  predicate TakenUp(record: Record, i: nat) {
    i < |record.rows| && !record.rows[i].status.Done?
  }

  /** What must hold, of the last saved record above all, at the moment an event happens. */
  ghost predicate Admissible(h: History, settings: Settings, e: Event) {
    var saved := LastSaved(h);
    && (WritesSite(e) ==> !PastOf(h, e.row).asking.open && TakenUp(saved, e.row))
    && (OfRow(e) ==> !PastOf(h, e.row).stuck && ActsOn(h, e.row))
    && match e
    case Saved(record) => LeavesStuck(h, saved, record) && DoneEarned(h, settings, saved, record)
    case Launched(manual) =>
      manual == saved.manual && forall i | i in manual :: i < |saved.rows| && ReadyForManual(saved.rows[i])
    case RefreshSent(i, token) =>
      && InPhase(saved, i, Refreshing) && saved.rows[i].tokens.refresh == token
      && !PastOf(h, i).asking.open
      && (PastOf(h, i).asking.answer.Some? ==> PastOf(h, i).asking.answer.value.refresh == token)
    case ExchangeSent(i) => InPhase(saved, i, Exchanging) && !PastOf(h, i).asking.ever && PastOf(h, i).asking.exchanges == 0
    case TokensReceived(i, tokens) => PastOf(h, i).asking.open
    case IdentityVerified(i, who) => Complete(who)
    case PauseSent(i, id) => MayPause(saved, i) && LastSeen(h, id).Some? && !SwitchedOff(LastSeen(h, id).value)
    case CreateSent(i, body) =>
      && WithExport(saved, i, Creating) && ImportsOwn(h, saved, i) && body == CreateBody(saved.rows[i].payload.value)
      && BoundTo(settings, "") && PastOf(h, i).sent.imports == 0
      && LastListing(h).Some? && NoneLike(LastListing(h).value, saved.rows[i].tokens.identity)
    case UpdateSent(i, id, body) =>
      && WithExport(saved, i, Updating) && ImportsOwn(h, saved, i) && body == UpdateBody(saved.rows[i].payload.value)
      && PastOf(h, i).sent.imports == 0
      && saved.rows[i].accountId == id && BoundTo(settings, id) && SeenIsolated(h, saved, i, id)
    case GroupsCleared(i, id) => InPhase(saved, i, Creating)
    case ConfigureSent(i, id, body) =>
      && WithExport(saved, i, Configuring) && body == FinalBody(saved.rows[i].payload.value, false)
      && saved.rows[i].accountId == id && LastSeen(h, id).Some? && MayApply(saved, i, LastSeen(h, id).value)
      && (PastOf(h, i).sent.configures == 0
          || (PastOf(h, i).known.shared && AsEnabled in PastOf(h, i).readbacks.stages && Reopened(saved, i)))
    case AccountRead(id, account) => TextOf(Get(account, Id)) == id
    case AccountsListed(_) => true
    case Confirmed(i, stage, account) => AdmissibleConfirmation(h, i, stage, account)
    case Checked(i, answer, check) => settings.check && KeptOf(answer, check)
    case ClearErrorSent(i, id) => InPhase(saved, i, Promoting) && saved.rows[i].accountId == id
    case EnableSent(i, id, seen) => AdmissibleEnable(h, settings, i, id, seen)
  }

  /** Every event of the history was admissible when it happened. */
  ghost predicate Disciplined(h: History, settings: Settings) {
    h.Then? ==> Disciplined(h.before, settings) && Admissible(h.before, settings, h.event)
  }

  // ---- Invariant tying one row of a record to the history ----

  predicate BeforeImport(phase: Phase) {
    phase.Unstarted? || phase.Refreshing? || phase.Exchanging? || phase.Materialized?
  }

  predicate NeedsLogin(kind: Kind) {
    kind.Login? || kind.RefreshOnly?
  }

  /** Before any write of the import, and while only a pause was sent, nothing else was sent. */
  predicate WritesInv(row: Row, past: Past) {
    && (BeforeImport(row.phase) || row.phase.Isolating? ==> past.sent == Sent(0, 0, 0))
    && (row.phase.Creating? || row.phase.Updating? || row.phase.Isolated? ==> past.sent == Sent(past.sent.imports, 0, 0))
    && (row.phase.Configuring? || row.phase.Configured? ==> past.known.shared || past.sent.enables == 0)
  }

  /** Past `materialized` the row holds verified access tokens, so no later step can reset its phase. */
  predicate TokensInv(row: Row, past: Past) {
    && (NeedsLogin(row.kind) ==> row.tokens.access == "")
    && (BeforeImport(row.phase) ==> row.accountId == "")
    && (!BeforeImport(row.phase) ==>
          && !NeedsLogin(row.kind) && row.tokens.access != "" && row.payload.Some?
          && Complete(row.tokens.identity) && row.tokens.identity in past.known.own
          && ExportOf(row.payload.value, row.tokens))
    && (!BeforeImport(row.phase) && !row.phase.Creating? ==> row.accountId != "")
    && (!OneUse(row.phase) ==>
          && !past.asking.open
          && LastAnswered(past.asking, row.tokens))
    && (row.phase == Exchanging ==> row.kind == Login)
    && (row.phase == Refreshing ==> row.kind != Login)
    && (row.kind == Login && row.phase != Exchanging ==> !past.asking.ever)
    && (!past.asking.ever ==> past.asking.exchanges == 0 && !past.asking.open)
    && (past.stuck ==> OneUse(row.phase))
  }

  /** The recorded version of a finished row is the one the row recorded, unless another row shares the identity. */
  predicate VersionsInv(row: Row, versions: map<string, Version>, past: Past) {
    && (row.phase.Configured? || row.phase.Completed? ==> row.accountId in versions)
    && (row.phase == Configured ==>
          versions[row.accountId] in past.readbacks.versions || AccountIdentity(versions[row.accountId]) in past.known.others)
    && (row.phase == Completed ==>
          SwitchedOn(versions[row.accountId]) || AccountIdentity(versions[row.accountId]) in past.known.others)
  }

  /** A phase says which readback was verified last. */
  predicate ReadbackInv(row: Row, past: Past) {
    && (row.phase.Isolated? ==> AsIsolated in past.readbacks.stages)
    && (row.phase.Configured? || row.phase.Promoting? ==> AsConfigured in past.readbacks.stages)
    && (row.phase.Completed? ==> AsEnabled in past.readbacks.stages)
  }

  predicate RowInv(record: Record, i: nat, h: History)
    requires i < |record.rows|
  {
    RowFits(record.rows[i], record.versions, PastOf(h, i))
  }

  predicate RowFits(row: Row, versions: map<string, Version>, past: Past) {
    WritesInv(row, past) && TokensInv(row, past) && VersionsInv(row, versions, past) && ReadbackInv(row, past)
  }

  /** Recorded versions are versions of the accounts they are recorded under. */
  predicate VersionsPinned(record: Record) {
    forall id | id in record.versions ::
      AccountVersion(record.versions[id]) == record.versions[id] && TextOf(Get(record.versions[id], Id)) == id
  }

  ghost predicate RecordInv(record: Record, h: History) {
    VersionsPinned(record) && forall i: nat | i < |record.rows| :: RowInv(record, i, h)
  }

  predicate Uncertain(phase: Phase) {
    phase.Isolating? || phase.Creating? || phase.Updating? || phase.Configuring? || phase.Promoting?
  }

  /** Nothing was sent since; saves, reads and verifications may have happened. */
  predicate NothingSentSince(h: History, earlier: History) {
    h == earlier
    || (h.Then? && (h.event.Saved? || h.event.AccountRead? || h.event.AccountsListed? || h.event.Confirmed?)
        && NothingSentSince(h.before, earlier))
  }

  lemma {:induction false} NothingSentInAll(h: History, middle: History, earlier: History)
    requires NothingSentSince(h, middle) && NothingSentSince(middle, earlier)
    ensures NothingSentSince(h, earlier)
  {
    if h != middle { NothingSentInAll(h.before, middle, earlier); }
  }

  /** The row an event belongs to must show that the event fits its phase. */
  predicate Fits(record: Record, e: Event) {
    OfRow(e) && e.row < |record.rows| ==> FitsRow(record.rows[e.row], e)
  }

  /** What row `i` must show for its own events not to disturb what is promised about it. */
  predicate FitsRow(row: Row, e: Event) {
    match e
    case RefreshSent(_, _) => row.phase.Refreshing?
    case TokensReceived(_, _) => OneUse(row.phase)
    case ExchangeSent(_) => row.phase.Exchanging?
    case CreateSent(_, _) => row.phase.Creating?
    case UpdateSent(_, _, _) => row.phase.Updating?
    case ConfigureSent(_, _, _) => row.phase.Configuring?
    case EnableSent(_, _, _) => row.phase.Promoting?
    case _ => true
  }

  lemma OwnEventKeepsRow(row: Row, versions: map<string, Version>, past: Past, e: Event)
    requires RowFits(row, versions, past) && FitsRow(row, e)
    requires !e.Saved? && !e.Launched? && !e.AccountRead? && !e.AccountsListed? && !e.IdentityVerified?
    ensures RowFits(row, versions, AfterOwn(past, e))
  {
    if e.RefreshSent? || e.ExchangeSent? || e.TokensReceived? {
      assert WritesInv(row, AfterOwn(past, e));
    } else if e.CreateSent? || e.UpdateSent? || e.ConfigureSent? || e.EnableSent? {
      assert TokensInv(row, AfterOwn(past, e));
    }
  }

  lemma EventKeepsRow(row: Row, versions: map<string, Version>, past: Past, e: Event, i: nat, saved: Record)
    requires RowFits(row, versions, past) && (OfRow(e) && e.row == i ==> FitsRow(row, e))
    requires e.Launched? && InOneUse(saved, i) ==> OneUse(row.phase)
    ensures RowFits(row, versions, After(past, e, i, saved))
  {
    if OfRow(e) && !e.IdentityVerified? && e.row == i {
      OwnEventKeepsRow(row, versions, past, e);
      hide RowFits, AfterOwn;
    } else {
      hide AfterOwn, OneUse;
    }
  }

  lemma EventKeepsRecord(record: Record, h: History, e: Event)
    requires RecordInv(record, h) && Fits(record, e) && (e.Launched? ==> record == LastSaved(h))
    ensures RecordInv(record, Then(h, e))
  {
    hide RowFits, After;
    forall i: nat | i < |record.rows| ensures RowInv(record, i, Then(h, e)) {
      assert RowInv(record, i, h);
      EventKeepsRow(record.rows[i], record.versions, PastOf(h, i), e, i, LastSaved(h));
    }
  }

  /** What an event adds to the identities known of a row. */
  lemma IdentitiesGrow(past: Past, e: Event, i: nat, saved: Record)
    ensures After(past, e, i, saved).known ==
      if e.IdentityVerified? then Knowing(past.known, e.row == i, e.who) else past.known
  {
  }

  /** What an event adds to the requests of a row. */
  lemma RequestsGrow(past: Past, e: Event, i: nat, saved: Record)
    ensures After(past, e, i, saved).sent == if OfRow(e) && e.row == i then SentAfter(past.sent, e) else past.sent
    ensures After(past, e, i, saved).asking == if OfRow(e) && e.row == i then AskingAfter(past.asking, e) else past.asking
  {
  }

  function WithRow(record: Record, i: nat, row: Row): Record
    requires i < |record.rows|
  {
    record.(rows := record.rows[i := row])
  }

  lemma RowKeepsRecord(record: Record, h: History, i: nat, row: Row)
    requires RecordInv(record, h) && i < |record.rows|
    requires RowInv(WithRow(record, i, row), i, h)
    ensures RecordInv(WithRow(record, i, row), h)
  {
    forall j: nat | j < |record.rows| ensures RowInv(WithRow(record, i, row), j, h) {
      assert RowInv(record, j, h);
    }
  }

  /** Row `i` moves on and records the version of an account. */
  function WithVersion(record: Record, i: nat, row: Row, id: string, version: Version): Record
    requires i < |record.rows|
  {
    record.(rows := record.rows[i := row], versions := record.versions[id := version])
  }

  // ---- Facts about identities ----

  lemma {:induction false} OthersSee(h: History, w: nat, i: nat, who: Identity)
    requires who in PastOf(h, w).known.own && w != i
    ensures who in PastOf(h, i).known.others
  {
    hide After;
    if h.Then? {
      IdentitiesGrow(PastOf(h.before, w), h.event, w, LastSaved(h.before));
      IdentitiesGrow(PastOf(h.before, i), h.event, i, LastSaved(h.before));
      if who in PastOf(h.before, w).known.own { OthersSee(h.before, w, i, who); }
    }
  }

  lemma {:induction false} SharedMeansCollided(h: History, i: nat, who: Identity)
    requires who in PastOf(h, i).known.own && who in PastOf(h, i).known.others
    ensures PastOf(h, i).known.shared
  {
    hide After;
    if h.Then? {
      var past := PastOf(h.before, i);
      IdentitiesGrow(past, h.event, i, LastSaved(h.before));
      if who in past.known.own && who in past.known.others { SharedMeansCollided(h.before, i, who); }
    }
  }

  /** The recorded version of a row's account lets a write through: unscheduled, and the row's own identity. */
  predicate Reopened(record: Record, i: nat)
    requires i < |record.rows|
  {
    var row := record.rows[i];
    && row.accountId in record.versions
    && SwitchedOff(record.versions[row.accountId])
    && SameAccountIdentity(record.versions[row.accountId], row.tokens.identity)
  }

  /** A readback that applyImportedItem accepts: the recorded version, switched off, the row's own identity. */
  predicate MayApply(record: Record, i: nat, current: Fields)
    requires i < |record.rows|
  {
    var row := record.rows[i];
    && row.accountId in record.versions
    && AccountVersion(current) == record.versions[row.accountId]
    && SwitchedOff(current)
    && SameAccountIdentity(current, row.tokens.identity)
  }

  /** A recorded version whose identity another row verified too is a collision of this row. */
  lemma ForeignVersionMeansCollided(record: Record, i: nat, h: History, current: Fields)
    requires i < |record.rows| && RowInv(record, i, h) && MayApply(record, i, current)
    requires !BeforeImport(record.rows[i].phase)
    ensures AccountIdentity(record.versions[record.rows[i].accountId]) in PastOf(h, i).known.others ==>
      PastOf(h, i).known.shared
    ensures record.rows[i].phase == Completed ==> PastOf(h, i).known.shared && Reopened(record, i)
    ensures record.rows[i].phase == Configured ==>
      PastOf(h, i).known.shared || AccountVersion(current) in PastOf(h, i).readbacks.versions
  {
    VersionShows(current);
    VersionKind(current);
    var who := record.rows[i].tokens.identity;
    assert AccountIdentity(record.versions[record.rows[i].accountId]) == who;
    if who in PastOf(h, i).known.others { SharedMeansCollided(h, i, who); }
  }

  /** Recording a version of the row's own account keeps every other row's invariant. */
  lemma VersionKeepsRecord(record: Record, h: History, i: nat, row: Row, id: string, version: Version)
    requires RecordInv(record, h) && i < |record.rows|
    requires AccountIdentity(version) in PastOf(h, i).known.own
    requires AccountVersion(version) == version && TextOf(Get(version, Id)) == id
    requires RowInv(WithVersion(record, i, row, id, version), i, h)
    ensures RecordInv(WithVersion(record, i, row, id, version), h)
  {
    var after := WithVersion(record, i, row, id, version);
    forall j: nat | j < |record.rows| ensures RowInv(after, j, h) {
      assert RowInv(record, j, h);
      if j != i { OthersSee(h, i, j, AccountIdentity(version)); }
    }
  }
}
