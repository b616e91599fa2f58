/**
 The import worker (run_import.go, run_execute.go, run_reconcile.go, run_check.go, run_actions.go,
 run_start.go, lifecycle.go, protocol_payload.go).

 The site, the token endpoint, the checking service and the document store answer arbitrarily. A crash may strike at
 any save or request: from then on nothing the dead worker still computes is saved or sent, until Recover.
 */
module ImportRun {
  import opened Common
  import opened Json
  import opened Readback
  import opened RunHistory
  import RunSafety

  /** Nothing but row `i` and the recorded versions differs. */
  ghost predicate OnlyRow(before: Record, after: Record, i: nat) {
    && |after.rows| == |before.rows| && after.manual == before.manual
    && forall j: nat | j < |before.rows| && j != i :: after.rows[j] == before.rows[j]
  }

  ghost predicate SameInput(before: Row, after: Row) {
    && before.kind == after.kind && before.tokens == after.tokens && before.payload == after.payload
    && before.status == after.status
  }

  /** The row holds verified access tokens and an export. */
  ghost predicate Verified(row: Row, i: nat, h: History) {
    && !NeedsLogin(row.kind) && row.tokens.access != "" && row.payload.Some?
    && Complete(row.tokens.identity) && row.tokens.identity in PastOf(h, i).known.own
    && ExportOf(row.payload.value, row.tokens)
  }

  /** AccountPayload: the template's settings, other fields of the credentials, and the row's own tokens and identity. */
  function AccountPayload(template: Fields, others: Fields, tokens: Tokens): Fields {
    var credentials := WithSecret(WithSecret(others, AccessToken, tokens.access), RefreshToken, tokens.refresh)
      [ChatgptAccountId := Text(tokens.identity.workspace, Plain)][ChatgptUserId := Text(tokens.identity.user, Plain)];
    template[Credentials := Object(credentials)][Platform := Text("openai", Plain)][AccountType := Text("oauth", Plain)]
  }

  function WithSecret(fields: Fields, key: Key, secret: string): Fields {
    if secret == "" then fields - {key} else fields[key := Text(Trim(secret), Plain)]
  }

  lemma PayloadIsExport(template: Fields, others: Fields, tokens: Tokens)
    requires Complete(tokens.identity)
    requires Trim(tokens.identity.workspace) == tokens.identity.workspace && Trim(tokens.identity.user) == tokens.identity.user
    ensures ExportOf(AccountPayload(template, others, tokens), tokens)
  {
    assert Trim("") == "";
    hide Trim;
    TrimTwice(tokens.access);
    TrimTwice(tokens.refresh);
  }

  predicate NotYetImported(row: Row) {
    row.phase.Unstarted? || row.phase.Materialized?
  }

  predicate SamePass(earlier: History, later: History) {
    PassManual(later) == PassManual(earlier) && LaunchRecord(later) == LaunchRecord(earlier)
  }

  /** No row at all. */
  const NO_ROW := -1

  /** The later history belongs to the same pass, which took nothing back and went on with row `i` only. */
  ghost predicate Onward(earlier: History, later: History, i: int) {
    && SamePass(earlier, later)
    && (forall j :: PastOf(later, j).stuck <==> PastOf(earlier, j).stuck)
    && (forall j :: PastOf(earlier, j).configured ==> PastOf(later, j).configured)
    && (forall j :: PassGrows(PastOf(earlier, j).pass, PastOf(later, j).pass))
    && forall j | j != i :: PastOf(later, j).pass == PastOf(earlier, j).pass
  }

  function RowOf(e: Event): int {
    if OfRow(e) then e.row else NO_ROW
  }

  /** Only saves happened in between. */
  ghost predicate OnlySaves(earlier: History, later: History) {
    && (forall j: nat :: PastOf(later, j) == PastOf(earlier, j).(configured := PastOf(later, j).configured))
    && forall id :: LastSeen(later, id) == LastSeen(earlier, id)
  }

  /** Exactly so many imports, configurations and enables were sent for row `i` in between. */
  ghost predicate Requested(earlier: History, later: History, i: nat, imports: nat, configures: nat, enables: nat) {
    var before, after := PastOf(earlier, i).sent, PastOf(later, i).sent;
    after == Sent(before.imports + imports, before.configures + configures, before.enables + enables)
  }

  /** Whatever was claimed about the credentials is what the official signature names. */
  predicate Agrees(claimed: Identity, who: Identity) {
    (claimed.workspace == "" || claimed.workspace == who.workspace) && (claimed.user == "" || claimed.user == who.user)
  }

  function IdOf(account: Option<Fields>): string {
    if account.Some? then TextOf(Get(account.value, Id)) else ""
  }

  /** A run bound to a remembered account goes on only with that account in its remembered version. */
  predicate IsRemembered(settings: Settings, matched: Option<Fields>) {
    settings.remembered.Some? ==>
      && BoundTo(settings, IdOf(matched))
      && AccountVersion(if matched.Some? then matched.value else map[]) == settings.remembered.value.version
  }

  /** The versions agree but for the scheduling switch. */
  predicate SameButSwitch(a: Fields, b: Fields) {
    AccountVersion(a[Schedulable := Bool(false)]) == AccountVersion(b[Schedulable := Bool(false)])
  }

  lemma VersionOfSwitched(a: Fields)
    ensures AccountVersion(a[Schedulable := Bool(false)]) == AccountVersion(a)[Schedulable := Bool(false)]
  {
  }

  lemma SameVersionButSwitch(a: Fields, b: Fields)
    requires AccountVersion(a) == AccountVersion(b)
    ensures SameButSwitch(a, b)
  {
    hide AccountVersion;
    VersionOfSwitched(a);
    VersionOfSwitched(b);
  }

  /** The switch is no part of who the account is. */
  lemma AccountIdOf(account: Fields)
    ensures AccountIdentity(account[Schedulable := Bool(false)]) == AccountIdentity(account)
    ensures Get(account[Schedulable := Bool(false)], Id) == Get(account, Id)
    ensures forall who | SameAccountIdentity(account, who) :: AccountIdentity(account) == who
  {
  }

  lemma OffStaysOff(account: Fields)
    requires SwitchedOff(account)
    ensures account[Schedulable := Bool(false)] == account
  {
  }

  /** What one more event adds: something about its own row, and nothing about other rows and accounts. */
  ghost predicate Added(earlier: History, later: History, e: Event) {
    && (forall j: nat | !(OfRow(e) && e.row == j) && !e.IdentityVerified? :: PastOf(later, j) == PastOf(earlier, j))
    && (OfRow(e) && !e.IdentityVerified? ==> PastOf(later, e.row) == AfterOwn(PastOf(earlier, e.row), e))
    && forall id | !e.AccountRead? && !WritesAccount(e, id) :: LastSeen(later, id) == LastSeen(earlier, id)
  }

  /** No row differs but in its public status, and the same rows are finished. */
  ghost predicate StatusOnly(before: Record, after: Record) {
    && |after.rows| == |before.rows|
    && forall i: nat | i < |before.rows| ::
      SameButStatus(before.rows[i], after.rows[i]) && (before.rows[i].status.Done? <==> after.rows[i].status.Done?)
  }

  class Run {
    const settings: Settings
    const rowCount: nat
    var durable: Record     // the stored document
    var memory: Record      // the worker's copy of it
    var alive: bool         // false from a crash until the next Recover
    var history: History

    ghost predicate Stored()
      reads this
    {
      && durable == LastSaved(history)
      && RecordInv(durable, history)
      && Disciplined(history, settings)
    }

    ghost predicate Valid()
      reads this
    {
      && Stored()
      && |memory.rows| == |durable.rows| == rowCount
      && RecordInv(memory, history)
      && LeavesStuck(history, durable, memory)
      && DoneEarned(history, settings, durable, memory)
    }

    constructor (settings: Settings, inputs: seq<Row>)
      requires forall i | 0 <= i < |inputs| :: FreshRow(inputs[i])
      ensures Valid() && alive && this.settings == settings && rowCount == |inputs| && memory == durable
      ensures history == Begin(Record(inputs, map[], {}, RunQueued))
    {
      this.settings, rowCount := settings, |inputs|;
      var record := Record(inputs, map[], {}, RunQueued);
      durable, memory, alive, history := record, record, true, Begin(record);
    }

    lemma RowHolds(i: nat)
      requires Valid() && i < |memory.rows|
      ensures RowInv(memory, i, history)
    {
    }

    /** The row has gone through what a row finished in such a phase must. */
    ghost predicate HasEarned(i: nat, phase: Phase)
      reads this
    {
      Earned(PastOf(history, i).pass, settings, i in PassManual(history), phase)
    }

    /** The pass works on the row, which is not finished. */
    ghost predicate Working(i: nat)
      reads this
    {
      TakenUp(memory, i) && ActsOn(history, i)
    }

    // ---- The two effects, and everything that only reads ----

    method Persist() returns (ok: bool)
      requires Valid()
      modifies this`durable, this`alive, this`history
      ensures Valid() && Onward(old(history), history, NO_ROW) && OnlySaves(old(history), history)
      ensures ok ==> alive && durable == memory && history == Then(old(history), Saved(memory))
      ensures !ok ==>
        || (durable == old(durable) && history == old(history))
        || (durable == memory && history == Then(old(history), Saved(memory)))
      ensures !old(alive) ==> !alive && history == old(history) && durable == old(durable)
    {
      var takesEffect: bool := *;
      var crashes: bool := *;
      ok := *;
      if !alive { return false; }
      if takesEffect {
        EventKeepsRecord(memory, history, Saved(memory));
        durable, history := memory, Then(history, Saved(memory));
      }
      alive := !crashes;
      ok := ok && takesEffect && alive;
    }

    /** Moves row `i` in memory only. */
    method SetRow(i: nat, row: Row)
      requires Valid() && i < |memory.rows| && RowInv(WithRow(memory, i, row), i, history)
      requires PastOf(history, i).stuck ==> SameButStatus(memory.rows[i], row)
      requires row.status.Done? ==> HasEarned(i, row.phase)
      modifies this`memory
      ensures Valid() && memory == WithRow(old(memory), i, row)
    {
      RowKeepsRecord(memory, history, i, row);
      memory := WithRow(memory, i, row);
    }

    /** Moves row `i` and saves the record. */
    method SaveRow(i: nat, row: Row) returns (ok: bool)
      requires Valid() && i < |memory.rows| && RowInv(WithRow(memory, i, row), i, history)
      requires PastOf(history, i).stuck ==> SameButStatus(memory.rows[i], row)
      requires row.status.Done? ==> HasEarned(i, row.phase)
      modifies this`durable, this`memory, this`alive, this`history
      ensures Valid() && Onward(old(history), history, i) && OnlySaves(old(history), history)
      ensures memory == WithRow(old(memory), i, row)
      ensures row.phase.Configured? && ok ==> PastOf(history, i).configured
      ensures history == old(history) || history == Then(old(history), Saved(memory))
      ensures ok ==> alive && durable == memory && history == Then(old(history), Saved(memory))
    {
      RowKeepsRecord(memory, history, i, row);
      memory := WithRow(memory, i, row);
      ok := Persist();
    }

    /** Moves row `i`, records the version of its account and saves the record. */
    method SaveVersion(i: nat, row: Row, id: string, account: Fields) returns (ok: bool)
      requires Valid() && i < |memory.rows| && !PastOf(history, i).stuck
      requires row.status.Done? ==> HasEarned(i, row.phase)
      requires AccountIdentity(account) in PastOf(history, i).known.own
      requires TextOf(Get(account, Id)) == id
      requires RowInv(WithVersion(memory, i, row, id, AccountVersion(account)), i, history)
      modifies this`durable, this`memory, this`alive, this`history
      ensures Valid() && Onward(old(history), history, i) && OnlySaves(old(history), history)
      ensures memory == WithVersion(old(memory), i, row, id, AccountVersion(account))
      ensures row.phase.Configured? && ok ==> PastOf(history, i).configured
      ensures history == old(history) || history == Then(old(history), Saved(memory))
      ensures ok ==> alive && durable == memory && history == Then(old(history), Saved(memory))
    {
      VersionShows(account);
      VersionKind(account);
      VersionKeepsRecord(memory, history, i, row, id, AccountVersion(account));
      memory := WithVersion(memory, i, row, id, AccountVersion(account));
      ok := Persist();
    }

    /** One request, at most once; the authorization checked just before it may withhold it. */
    method Send(e: Event) returns (acknowledged: bool)
      requires Valid() && alive && !e.Saved? && !e.Launched?
      requires Admissible(history, settings, e) && Fits(durable, e) && Fits(memory, e)
      modifies this`alive, this`history
      ensures Valid() && Onward(old(history), history, RowOf(e))
      ensures acknowledged ==> alive && history == Then(old(history), e)
      ensures history == old(history) || history == Then(old(history), e)
      ensures history != old(history) ==> Added(old(history), history, e)
    {
      hide Admissible, Fits, RecordInv, SentAfter, AskingAfter, ReadbacksAfter, PassAfter, Knowing, OneUse;
      hide WritesAccount;
      forall j: nat { ProgressLasts(PastOf(history, j), e, j, LastSaved(history)); }
      var withheld: bool := *;
      var crashes: bool := *;
      acknowledged := *;
      if !withheld {
        EventKeepsRecord(memory, history, e);
        EventKeepsRecord(durable, history, e);
        EventKeepsDone(history, settings, durable, memory, e);
        history := Then(history, e);
      }
      alive := !crashes;
      acknowledged := acknowledged && !withheld && alive;
    }

    /** Records something the worker learned. */
    method Note(e: Event)
      requires Valid() && alive && !e.Saved? && !e.Launched?
      requires Admissible(history, settings, e) && Fits(durable, e) && Fits(memory, e)
      modifies this`history
      ensures Valid() && Onward(old(history), history, RowOf(e)) && history == Then(old(history), e)
      ensures Added(old(history), history, e)
    {
      hide Admissible, Fits, RecordInv, SentAfter, AskingAfter, ReadbacksAfter, PassAfter, Knowing, OneUse;
      forall j: nat { ProgressLasts(PastOf(history, j), e, j, LastSaved(history)); }
      EventKeepsRecord(memory, history, e);
      EventKeepsRecord(durable, history, e);
      EventKeepsDone(history, settings, durable, memory, e);
      history := Then(history, e);
    }

    /** The stored row announces the phase the worker is in, over the same export. */
    ghost predicate Announced(i: nat)
      reads this
    {
      && Working(i) && TakenUp(durable, i)
      && durable.rows[i].phase == memory.rows[i].phase && durable.rows[i].payload == memory.rows[i].payload
    }

    /** Records that the account, as last read, passed a verification for row `i`. */
    method NoteConfirmed(i: nat, stage: Stage, account: Fields)
      requires Valid() && alive && Announced(i) && !BeforeImport(memory.rows[i].phase)
      requires Shown(stage, memory.rows[i], account) && SameAccountIdentity(account, memory.rows[i].tokens.identity)
      requires LastSeen(history, TextOf(Get(account, Id))) == Some(account)
      modifies this`history
      ensures Valid() && Onward(old(history), history, i) && history == Then(old(history), Confirmed(i, stage, account))
      ensures Added(old(history), history, history.event)
      ensures stage in PastOf(history, i).readbacks.stages && AccountIdentity(account) in PastOf(history, i).known.own
      ensures stage.AsConfigured? ==> AccountVersion(account) in PastOf(history, i).readbacks.versions
      ensures stage.AsEnabled? ==>
        PastOf(history, i).pass.enabled && (PastOf(old(history), i).pass.enables == 0 ==> PastOf(history, i).pass.found)
    {
      hide RecordInv, Disciplined, DoneEarned, Earned, ExportOf, ImportApplied, ImportAppliedWhileIsolated;
      hide ConfiguredAs;
      hide IsolatedBody;
      RowHolds(i);
      Note(Confirmed(i, stage, account));
    }

    /** Session, target, template, proxy, expiry, management scope and mutation locks. */
    method Allowed() returns (b: bool) {
      b := *;
    }

    /** GET of one account; the client checks that the answer carries the requested ID. */
    method ReadAccount(id: string) returns (account: Option<Fields>)
      requires Valid()
      modifies this`history
      ensures Valid() && Onward(old(history), history, NO_ROW)
      ensures account.Some? ==>
        && alive && TextOf(Get(account.value, Id)) == id && LastSeen(history, id) == account
        && history == Then(old(history), AccountRead(id, account.value)) && Added(old(history), history, history.event)
      ensures account.None? ==> history == old(history)
    {
      account := *;
      if !(alive && account.Some? && TextOf(Get(account.value, Id)) == id) { return None; }
      Note(AccountRead(id, account.value));
    }

    /** Listing plus FindExistingAccount: an error, or the one account of the identity, which then has an ID, or none. */
    method FindExisting(who: Identity) returns (ok: bool, account: Option<Fields>)
      requires Valid() && Complete(who)
      modifies this`history
      ensures Valid() && Onward(old(history), history, NO_ROW)
      ensures forall j: nat :: PastOf(history, j) == PastOf(old(history), j)
      ensures ok ==> alive
      ensures ok && account.Some? ==>
        && TextOf(Get(account.value, Id)) != "" && SameAccountIdentity(account.value, who)
        && LastSeen(history, TextOf(Get(account.value, Id))) == account
      ensures ok && account.None? ==> LastListing(history).Some? && NoneLike(LastListing(history).value, who)
      ensures NothingSentSince(history, old(history))
    {
      hide RecordInv, Disciplined, DoneEarned, Earned, ExportOf, SameAccountIdentity, AccountIdentity;
      var accounts: Option<seq<Fields>> := *;
      if !accounts.Some? || !alive { return false, None; }
      Note(AccountsListed(accounts.value));
      assert NothingSentSince(history, old(history));
      ok, account := OnlyMatch(accounts.value, who);
      if ok && account.Some? { Note(AccountRead(TextOf(Get(account.value, Id)), account.value)); }
    }

    /** FindExistingAccount, for an item whose identity is known: several matches, or one without an ID, are an error. */
    method OnlyMatch(accounts: seq<Fields>, who: Identity) returns (ok: bool, matched: Option<Fields>)
      requires Complete(who)
      ensures ok <==>
        && (forall j | 0 <= j < |accounts| && SameAccountIdentity(accounts[j], who) :: TextOf(Get(accounts[j], Id)) != "")
        && forall j, k | 0 <= j < k < |accounts| ::
             !SameAccountIdentity(accounts[j], who) || !SameAccountIdentity(accounts[k], who)
      ensures ok && matched.None? ==> NoneLike(accounts, who)
      ensures ok && matched.Some? ==>
        matched.value in accounts && SameAccountIdentity(matched.value, who) && TextOf(Get(matched.value, Id)) != ""
    {
      hide SameAccountIdentity;
      matched := None;
      for k := 0 to |accounts|
        invariant matched.None? ==> forall j | 0 <= j < k :: !SameAccountIdentity(accounts[j], who)
        invariant matched.Some? ==> exists l ::
          && 0 <= l < k && accounts[l] == matched.value && SameAccountIdentity(accounts[l], who)
          && TextOf(Get(accounts[l], Id)) != ""
          && forall j | 0 <= j < k && j != l :: !SameAccountIdentity(accounts[j], who)
      {
        if !SameAccountIdentity(accounts[k], who) { continue; }
        if TextOf(Get(accounts[k], Id)) == "" || matched.Some? { return false, matched; }
        matched := Some(accounts[k]);
      }
      ok := true;
    }

    // ---- run_import.go ----

    method PauseImported(i: nat, id: string) returns (account: Option<Fields>)
      requires Valid() && Working(i) && alive
      requires MayPause(durable, i) && TakenUp(durable, i) && !BeforeImport(memory.rows[i].phase)
      requires LastSeen(history, id).Some? && !SwitchedOff(LastSeen(history, id).value)
      modifies this`alive, this`history
      ensures Valid() && Onward(old(history), history, i)
      ensures account.Some? ==>
        && alive && SwitchedOff(account.value) && TextOf(Get(account.value, Id)) == id
        && SameAccountIdentity(account.value, memory.rows[i].tokens.identity)
        && LastSeen(history, id) == account
      ensures PastOf(history, i).sent == PastOf(old(history), i).sent
    {
      hide RecordInv, Disciplined, DoneEarned, Earned, ExportOf;
      RowHolds(i);
      var sent := Send(PauseSent(i, id));
      if !sent { return None; }
      account := ReadAccount(id);
      if account.None? { return; }
      if !SwitchedOff(account.value) || !SameAccountIdentity(account.value, memory.rows[i].tokens.identity) {
        account := None;
      }
    }

    /** The same match found by two listings, and the remembered account if the run is bound to one. */
    method MatchExisting(who: Identity) returns (ok: bool, existing: Option<Fields>, matched: Option<Fields>)
      requires Valid() && Complete(who)
      modifies this`history
      ensures Valid() && Onward(old(history), history, NO_ROW)
      ensures forall j: nat :: PastOf(history, j) == PastOf(old(history), j)
      ensures ok ==> alive && IdOf(existing) == IdOf(matched) && (existing.Some? ==> IdOf(existing) != "")
      ensures ok ==> IsRemembered(settings, matched)
      ensures ok && existing.Some? ==> SameAccountIdentity(existing.value, who)
      ensures ok && existing.None? ==> LastListing(history).Some? && NoneLike(LastListing(history).value, who)
    {
      hide RecordInv, Disciplined, DoneEarned, Earned, ExportOf, PastOf, LastSeen, AccountVersion;
      ok, existing := FindExisting(who);
      if !ok { return false, None, None; }
      var allowed := Allowed();
      if !allowed { return false, None, None; }
      ok, matched := FindExisting(who);
      if !ok || IdOf(matched) != IdOf(existing) { return false, None, None; }
      if settings.remembered.Some? {
        var source := settings.remembered.value;
        var version := AccountVersion(if matched.Some? then matched.value else map[]);
        if IdOf(matched) != source.accountId || version != source.version { return false, None, None; }
      }
    }

    method ImportItem(i: nat, payload: Fields) returns (ok: bool)
      requires Valid() && Working(i)
      requires NotYetImported(memory.rows[i]) && memory.rows[i].payload == Some(payload)
      requires Verified(memory.rows[i], i, history)
      modifies this`durable, this`memory, this`alive, this`history
      ensures Valid() && Onward(old(history), history, i)
      ensures OnlyRow(old(memory), memory, i) && SameInput(old(memory).rows[i], memory.rows[i])
      ensures ok ==> alive && memory.rows[i].phase == Isolated
      ensures ok ==> Requested(old(history), history, i, 1, 0, 0)
      ensures ok ==> memory.rows[i].action in {CreatedAccount, UpdatedAccount}
    {
      hide RecordInv, Disciplined, DoneEarned, Earned, ExportOf, PastOf, LastSeen, Complete, AccountVersion;
      hide UpdateBody;
      hide CreateBody;
      var allowed := Allowed();
      if !allowed { return false; }
      var found, existing, matched := MatchExisting(memory.rows[i].tokens.identity);
      if !found { return false; }
      var account: Option<Fields>;
      var body := UpdateBody(payload);
      if existing.Some? {
        account := UpdateExisting(i, existing.value, body);
      } else {
        body := CreateBody(payload);
        account := CreateNew(i, body);
      }
      if account.None? { return false; }
      ok := FinishImport(i, account.value, body);
    }

    /** Stops scheduling with the dedicated request, which is all that is sent in this phase. */
    method IsolateExisting(i: nat, id: string, current: Fields) returns (ok: bool)
      requires Valid() && Working(i) && id != "" && NotYetImported(memory.rows[i])
      requires Verified(memory.rows[i], i, history)
      requires TextOf(Get(current, Id)) == id && SameAccountIdentity(current, memory.rows[i].tokens.identity)
      requires LastSeen(history, id) == Some(current) && !SwitchedOff(current)
      modifies this`durable, this`memory, this`alive, this`history
      ensures Valid() && Onward(old(history), history, i) && OnlyRow(old(memory), memory, i)
      ensures memory.rows[i] == old(memory).rows[i].(phase := Isolating, accountId := id)
      ensures PastOf(history, i).sent == PastOf(old(history), i).sent
      ensures ok ==> SeenIsolated(history, memory, i, id) && SameButSwitch(LastSeen(history, id).value, current)
    {
      hide RecordInv, Disciplined, DoneEarned, Earned, ExportOf, SwitchedOff, SameAccountIdentity;
      hide AccountVersion, PastOf;
      hide LastSeen;
      AccountIdOf(current);
      RowHolds(i);
      var expected := current[Schedulable := Bool(false)];
      var isolating := memory.rows[i].(phase := Isolating, accountId := id);
      ok := SaveVersion(i, isolating, id, expected);
      if !ok { return; }
      var paused := PauseImported(i, id);
      ok := paused.Some? && AccountVersion(paused.value) == memory.versions[id];
      if ok { OffStaysOff(paused.value); }
    }

    /** The account is already on the site: isolate it, then send the one update. */
    method UpdateExisting(i: nat, existing: Fields, body: Fields) returns (account: Option<Fields>)
      requires Valid() && Working(i) && TextOf(Get(existing, Id)) != ""
      requires NotYetImported(memory.rows[i]) && Verified(memory.rows[i], i, history)
      requires body == UpdateBody(memory.rows[i].payload.value) && BoundTo(settings, TextOf(Get(existing, Id)))
      modifies this`durable, this`memory, this`alive, this`history
      ensures Valid() && Onward(old(history), history, i)
      ensures OnlyRow(old(memory), memory, i) && SameInput(old(memory).rows[i], memory.rows[i])
      ensures account.Some? ==> alive && Announced(i) && memory.rows[i].phase == Updating
      ensures account.Some? ==> Requested(old(history), history, i, 1, 0, 0)
      ensures account.Some? ==> memory.rows[i].action == UpdatedAccount
    {
      hide RecordInv, Disciplined, DoneEarned, Earned, ExportOf, SameAccountIdentity, SwitchedOff;
      hide AccountVersion, PastOf;
      hide LastSeen, Complete, UpdateBody, Valid, ReadbackInv, Stored;
      account := None;
      var id := TextOf(Get(existing, Id));
      var managed := Allowed();
      if !managed { return; }
      var current := ReadAccount(id);
      if current.None? || AccountVersion(current.value) != AccountVersion(existing) { return; }
      var groupsUnlocked := Allowed();
      if !groupsUnlocked { return; }
      if !SameAccountIdentity(current.value, memory.rows[i].tokens.identity) { return; }
      SameVersionButSwitch(current.value, existing);
      if !SwitchedOff(current.value) {
        var isolated := IsolateExisting(i, id, current.value);
        if !isolated { return; }
        RowHolds(i);
      }
      account := SendUpdate(i, id, existing, body);
    }

    /** Overwrites an account that was read again as it was listed but for its switch. */
    method SendUpdate(i: nat, id: string, listed: Fields, body: Fields) returns (account: Option<Fields>)
      requires Valid() && Working(i) && id != "" && BoundTo(settings, id)
      requires NotYetImported(memory.rows[i]) || memory.rows[i].phase.Isolating?
      requires Verified(memory.rows[i], i, history)
      requires body == UpdateBody(memory.rows[i].payload.value)
      requires SeenIsolated(history, memory, i, id) && SameButSwitch(LastSeen(history, id).value, listed)
      modifies this`durable, this`memory, this`alive, this`history
      ensures Valid() && Onward(old(history), history, i)
      ensures OnlyRow(old(memory), memory, i) && SameInput(old(memory).rows[i], memory.rows[i])
      ensures account.Some? ==> alive && Announced(i) && memory.rows[i].phase == Updating
      ensures account.Some? ==> Requested(old(history), history, i, 1, 0, 0)
      ensures account.Some? ==> memory.rows[i].action == UpdatedAccount
    {
      hide RecordInv, Disciplined, DoneEarned, Earned, ExportOf, PastOf, LastSeen, Complete, UpdateBody;
      hide SameAccountIdentity, SwitchedOff;
      account := None;
      RowHolds(i);
      var saved := SaveRow(i, memory.rows[i].(phase := Updating, accountId := id));
      if !saved { return; }
      var sent := Send(UpdateSent(i, id, body));
      SetAction(i, UpdatedAccount);
      if sent {
        account := *; // the answer to the PUT is arbitrary
      }
    }

    method SetAction(i: nat, action: ImportAction)
      requires Valid() && Working(i) && !PastOf(history, i).stuck
      modifies this`memory
      ensures Valid() && memory == WithRow(old(memory), i, old(memory).rows[i].(action := action))
    {
      hide RecordInv, Disciplined, DoneEarned, Earned, ExportOf, PastOf;
      RowHolds(i);
      SetRow(i, memory.rows[i].(action := action));
    }

    /** The account is new: send the one create. */
    method CreateNew(i: nat, body: Fields) returns (account: Option<Fields>)
      requires Valid() && Working(i)
      requires NotYetImported(memory.rows[i]) && Verified(memory.rows[i], i, history)
      requires body == CreateBody(memory.rows[i].payload.value) && BoundTo(settings, "")
      requires LastListing(history).Some? && NoneLike(LastListing(history).value, memory.rows[i].tokens.identity)
      modifies this`durable, this`memory, this`alive, this`history
      ensures Valid() && Onward(old(history), history, i)
      ensures OnlyRow(old(memory), memory, i) && SameInput(old(memory).rows[i], memory.rows[i])
      ensures account.Some? ==> alive && Announced(i) && memory.rows[i].phase == Creating
      ensures account.Some? ==> Requested(old(history), history, i, 1, 0, 0)
      ensures account.Some? ==> memory.rows[i].action == CreatedAccount
    {
      hide RecordInv, Disciplined, DoneEarned, Earned, ExportOf, PastOf, LastSeen, CreateBody;
      account := None;
      RowHolds(i);
      var saved := SaveRow(i, memory.rows[i].(phase := Creating));
      if !saved { return; }
      var sent := Send(CreateSent(i, body));
      SetAction(i, CreatedAccount);
      if sent {
        account := *; // what the client returns for the POST is arbitrary
      }
    }

    /** The written account, read back with the row's identity and switched off, by a pause if need be. */
    method ReadWritten(i: nat, id: string) returns (account: Option<Fields>)
      requires Valid() && alive && i < |memory.rows|
      requires memory.rows[i].phase.Creating? || memory.rows[i].phase.Updating?
      requires Announced(i)
      modifies this`alive, this`history
      ensures Valid() && Onward(old(history), history, i) && PastOf(history, i).sent == PastOf(old(history), i).sent
      ensures account.Some? ==>
        && alive && SwitchedOff(account.value) && SameAccountIdentity(account.value, memory.rows[i].tokens.identity)
        && TextOf(Get(account.value, Id)) == id && LastSeen(history, id) == account
    {
      hide RecordInv, Disciplined, DoneEarned, Earned, ExportOf, SameAccountIdentity, SwitchedOff, WritesInv;
      hide VersionsInv;
      hide ReadbackInv, PastOf;
      hide LastSeen, After, Complete, ShownGroups, NeedsLogin, AfterOwn;
      var who := memory.rows[i].tokens.identity;
      account := ReadAccount(id);
      if account.None? { return; }
      if !SameAccountIdentity(account.value, who) { return None; }
      if !SwitchedOff(account.value) {
        account := PauseImported(i, id);
        if account.None? { return; }
      }
      if memory.rows[i].phase == Creating && ShownGroups(account.value) != [] {
        var cleared := ClearGroups(i, id);
        account := ReadAccount(id);
        if !cleared || account.None? { return None; }
        if !SwitchedOff(account.value) || !SameAccountIdentity(account.value, who) { return None; }
      }
    }

    /** The site bound default groups to the account it created. */
    method ClearGroups(i: nat, id: string) returns (cleared: bool)
      requires Valid() && alive && Announced(i) && memory.rows[i].phase.Creating?
      modifies this`alive, this`history
      ensures Valid() && Onward(old(history), history, i) && PastOf(history, i).sent == PastOf(old(history), i).sent
      ensures cleared ==> alive && history == Then(old(history), GroupsCleared(i, id))
    {
      hide RecordInv, Disciplined, DoneEarned, Earned, ExportOf, PastOf;
      RowHolds(i);
      cleared := Send(GroupsCleared(i, id));
    }

    /** Reads the written account back, isolates it if the site did not, and records its version. */
    method FinishImport(i: nat, account: Fields, body: Fields) returns (ok: bool)
      requires Valid() && alive && Announced(i) && memory.rows[i].payload.Some?
      requires memory.rows[i].phase.Creating? || memory.rows[i].phase.Updating?
      requires body == ImportBody(memory.rows[i])
      modifies this`durable, this`memory, this`alive, this`history
      ensures Valid() && Onward(old(history), history, i) && PastOf(history, i).sent == PastOf(old(history), i).sent
      ensures OnlyRow(old(memory), memory, i) && SameInput(old(memory).rows[i], memory.rows[i])
      ensures ok ==> alive && memory.rows[i].phase == Isolated
      ensures memory.rows[i].action == old(memory).rows[i].action
    {
      hide RecordInv, Disciplined, DoneEarned, Earned, ExportOf, PastOf, LastSeen, ImportAppliedWhileIsolated;
      var id := TextOf(Get(account, Id));
      if id == "" { return false; }
      RowHolds(i);
      SetRow(i, memory.rows[i].(accountId := id));
      var current := ReadWritten(i, id);
      if current.None? || !ImportAppliedWhileIsolated(current.value, body) { return false; }
      ShownIsolated(memory.rows[i], current.value);
      ok := SaveIsolated(i, id, current.value);
    }

    method SaveIsolated(i: nat, id: string, account: Fields) returns (ok: bool)
      requires Valid() && alive && Announced(i) && memory.rows[i].accountId == id != ""
      requires memory.rows[i].phase.Creating? || memory.rows[i].phase.Updating?
      requires Shown(AsIsolated, memory.rows[i], account)
      requires SameAccountIdentity(account, memory.rows[i].tokens.identity)
      requires TextOf(Get(account, Id)) == id && LastSeen(history, id) == Some(account)
      modifies this`durable, this`memory, this`alive, this`history
      ensures Valid() && Onward(old(history), history, i) && PastOf(history, i).sent == PastOf(old(history), i).sent
      ensures memory == WithVersion(old(memory), i, old(memory).rows[i].(phase := Isolated), id, AccountVersion(account))
      ensures ok ==> alive && history == Then(Then(old(history), Confirmed(i, AsIsolated, account)), Saved(memory))
    {
      hide RecordInv, Disciplined, DoneEarned, Earned, ExportOf, Shown, SameAccountIdentity, PastOf, LastSeen;
      NoteConfirmed(i, AsIsolated, account);
      RowHolds(i);
      ok := SaveVersion(i, memory.rows[i].(phase := Isolated), id, account);
    }

    /** applyImportedItem: the final configuration unless already confirmed, then enabling if asked. */
    method ApplyItem(i: nat, enable: bool) returns (ok: bool)
      requires Valid() && Working(i)
      requires memory.rows[i].phase.Isolated? || memory.rows[i].phase.Configured? || memory.rows[i].phase.Completed?
      requires memory.rows[i].phase.Configured? ==> PastOf(history, i).configured
      requires (enable ==> Gate(history, settings, i))
      modifies this`durable, this`memory, this`alive, this`history
      ensures Valid() && Onward(old(history), history, i) && OnlyRow(old(memory), memory, i)
      ensures TakenUp(memory, i)
      ensures ok ==> alive && memory.rows[i].phase == if enable then Completed else Configured
      ensures ok ==> PastOf(history, i).configured && (enable ==> PastOf(history, i).pass.enabled)
      ensures ok ==> Requested(old(history), history, i, 0,
        if old(memory).rows[i].phase.Configured? then 0 else 1, if enable then 1 else 0)
      ensures ok && !enable ==> memory.rows[i].status == old(memory).rows[i].status
      // A finished row is written again only if its recorded version was reopened.
      ensures old(memory).rows[i].phase.Completed? && !Reopened(old(memory), i) ==>
        !ok && memory == old(memory) && NothingSentSince(history, old(history))
    {
      hide RecordInv, Disciplined, DoneEarned, Earned, ExportOf, RowInv, MayApply, Reopened, PastOf, LastSeen;
      hide FinalBody;
      var read := ReadForApply(i);
      if read.None? { return false; }
      var current := read.value;
      if memory.rows[i].phase != Configured {
        var configured := Configure(i);
        if configured.None? { return false; }
        current := configured.value;
      }
      if !enable { return true; }
      ok := Enable(i, current);
    }

    /** The account of an imported row, if it is still as recorded, switched off and the row's own. */
    method ReadForApply(i: nat) returns (current: Option<Fields>)
      requires Valid() && Working(i)
      requires memory.rows[i].phase.Isolated? || memory.rows[i].phase.Configured? || memory.rows[i].phase.Completed?
      modifies this`history
      ensures Valid() && Onward(old(history), history, i) && NothingSentSince(history, old(history))
      ensures PastOf(history, i) == PastOf(old(history), i) && memory.rows[i].payload.Some?
      ensures current.Some? ==>
        && alive && MayApply(memory, i, current.value) && LastSeen(history, memory.rows[i].accountId) == current
        && (memory.rows[i].phase.Completed? ==> RepeatsWrites(i) && Reopened(memory, i))
    {
      hide RecordInv, Disciplined, DoneEarned, Earned, ExportOf, SameAccountIdentity, SwitchedOff;
      hide AccountVersion, PastOf;
      hide LastSeen, Complete;
      RowHolds(i);
      var id := memory.rows[i].accountId;
      if id == "" || id !in memory.versions { return None; }
      var allowed := Allowed();
      if !allowed { return None; }
      current := ReadAccount(id);
      if current.None? || !MayApply(memory, i, current.value) { return None; }
      RowHolds(i);
      ForeignVersionMeansCollided(memory, i, history, current.value);
    }

    /** A finished row is written again: its version was reopened, which takes another row of its identity. */
    ghost predicate RepeatsWrites(i: nat)
      reads this
      requires i < |memory.rows|
    {
      memory.rows[i].phase.Completed? && PastOf(history, i).known.shared && Reopened(memory, i)
    }

    /** Sends the one final configuration and confirms it by a readback that is still switched off. */
    method Configure(i: nat) returns (account: Option<Fields>)
      requires Valid() && alive && Working(i)
      requires memory.rows[i].phase.Isolated? || RepeatsWrites(i)
      requires SeenAsRecorded(i)
      modifies this`durable, this`memory, this`alive, this`history
      ensures Valid() && Onward(old(history), history, i) && OnlyRow(old(memory), memory, i)
      ensures memory.rows[i] == old(memory).rows[i].(phase := memory.rows[i].phase)
      ensures account.Some? ==>
        && alive && memory.rows[i].phase == Configured && MayApply(memory, i, account.value)
        && LastSeen(history, memory.rows[i].accountId) == account
        && PastOf(history, i).configured && PastOf(history, i).pass == PastOf(old(history), i).pass
        && Requested(old(history), history, i, 0, 1, 0)
    {
      hide RecordInv, Disciplined, DoneEarned, Earned, ExportOf, MayApply, PastOf, LastSeen, FinalBody;
      var unlocked := Allowed();
      if !unlocked { return None; }
      var sent := SendConfigure(i);
      if !sent { return None; }
      account := ConfirmConfigured(i);
    }

    /** The row's account was just read, as recorded, switched off and with the row's identity. */
    ghost predicate SeenAsRecorded(i: nat)
      reads this
      requires i < |memory.rows|
    {
      && LastSeen(history, memory.rows[i].accountId).Some?
      && MayApply(memory, i, LastSeen(history, memory.rows[i].accountId).value)
    }

    /** Reads the configured account back and records it. */
    method ConfirmConfigured(i: nat) returns (account: Option<Fields>)
      requires Valid() && alive && Announced(i) && memory.rows[i].phase.Configuring? && memory.rows[i].payload.Some?
      modifies this`durable, this`memory, this`alive, this`history
      ensures Valid() && Onward(old(history), history, i) && OnlyRow(old(memory), memory, i)
      ensures memory.rows[i] == old(memory).rows[i].(phase := memory.rows[i].phase)
      ensures PastOf(history, i).sent == PastOf(old(history), i).sent
      ensures account.Some? ==>
        && alive && memory.rows[i].phase == Configured && MayApply(memory, i, account.value)
        && LastSeen(history, memory.rows[i].accountId) == account
        && PastOf(history, i).configured && PastOf(history, i).pass == PastOf(old(history), i).pass
    {
      hide RecordInv, Disciplined, DoneEarned, Earned, ExportOf, SameAccountIdentity, PastOf, LastSeen, ImportApplied;
      hide ModelMappingsVerified, RowInv;
      hide FinalBody;
      var id, payload := memory.rows[i].accountId, memory.rows[i].payload.value;
      account := ReadAccount(id);
      if account.None? || !SameAccountIdentity(account.value, memory.rows[i].tokens.identity) { return None; }
      if !ModelMappingsVerified(account.value, FieldsOf(Get(payload, Credentials))) { return None; }
      if !ImportApplied(account.value, FinalBody(payload, false)) { return None; }
      var saved := SaveConfigured(i, account.value);
      if !saved { return None; }
    }

    method SendConfigure(i: nat) returns (ok: bool)
      requires Valid() && Working(i)
      requires memory.rows[i].phase.Isolated? || RepeatsWrites(i)
      requires SeenAsRecorded(i)
      modifies this`durable, this`memory, this`alive, this`history
      ensures Valid() && Onward(old(history), history, i)
      ensures memory == WithRow(old(memory), i, old(memory).rows[i].(phase := Configuring))
      ensures memory.rows[i].payload.Some?
      ensures ok ==> alive && Announced(i) && PastOf(history, i).pass == PastOf(old(history), i).pass
      ensures ok ==> Requested(old(history), history, i, 0, 1, 0)
    {
      hide RecordInv, Disciplined, DoneEarned, Earned, ExportOf, PastOf, LastSeen, Complete, SameAccountIdentity;
      hide SwitchedOff, AccountVersion, FinalBody, VersionsInv;
      RowHolds(i);
      ok := SaveRow(i, memory.rows[i].(phase := Configuring));
      if !ok { return; }
      ok := Send(ConfigureSent(i, memory.rows[i].accountId, FinalBody(memory.rows[i].payload.value, false)));
    }

    /** The readback passed: records its version as configured. */
    method SaveConfigured(i: nat, account: Fields) returns (ok: bool)
      requires Valid() && alive && Announced(i) && memory.rows[i].phase.Configuring? && memory.rows[i].payload.Some?
      requires ConfiguredAs(account, memory.rows[i].payload.value, false)
      requires SameAccountIdentity(account, memory.rows[i].tokens.identity)
      requires TextOf(Get(account, Id)) == memory.rows[i].accountId
      requires LastSeen(history, memory.rows[i].accountId) == Some(account)
      modifies this`durable, this`memory, this`alive, this`history
      ensures Valid() && Onward(old(history), history, i)
      ensures memory == WithVersion(
        old(memory), i, old(memory).rows[i].(phase := Configured), memory.rows[i].accountId, AccountVersion(account))
      ensures SwitchedOff(account)
      ensures LastSeen(history, memory.rows[i].accountId) == Some(account)
      ensures PastOf(history, i).pass == PastOf(old(history), i).pass
      ensures PastOf(history, i).sent == PastOf(old(history), i).sent
      ensures ok ==> PastOf(history, i).configured
      ensures ok ==> alive && history == Then(Then(old(history), Confirmed(i, AsConfigured, account)), Saved(memory))
    {
      hide RecordInv, Disciplined, DoneEarned, Earned, ExportOf, ConfiguredAs, PastOf, LastSeen, SameAccountIdentity;
      hide Shown, SwitchedOff;
      hide AccountVersion;
      ShownFinal(memory.rows[i], account, false);
      NoteConfirmed(i, AsConfigured, account);
      RowHolds(i);
      ok := SaveVersion(i, memory.rows[i].(phase := Configured), memory.rows[i].accountId, account);
    }

    /** Clears the old error, sends the one enable and confirms that it took effect. */
    method Enable(i: nat, current: Fields) returns (ok: bool)
      requires Valid() && alive && Working(i) && memory.rows[i].phase.Configured?
      requires MayApply(memory, i, current) && LastSeen(history, memory.rows[i].accountId) == Some(current)
      requires PastOf(history, i).configured && Gate(history, settings, i)
      modifies this`durable, this`memory, this`alive, this`history
      ensures Valid() && Onward(old(history), history, i) && OnlyRow(old(memory), memory, i)
      ensures TakenUp(memory, i)
      ensures ok ==> alive && memory.rows[i].phase == Completed && Requested(old(history), history, i, 0, 0, 1)
      ensures ok ==> PastOf(history, i).pass.enabled
    {
      hide RecordInv, Disciplined, DoneEarned, Earned, ExportOf, SameAccountIdentity, SwitchedOff;
      hide AccountVersion, PastOf;
      hide LastSeen, Complete;
      hide RowInv, MayApply, Gate;
      ok := SendEnable(i, current);
      if !ok { return; }
      ok := ConfirmEnabled(i);
    }

    /** Reads the enabled account back and records it. */
    method ConfirmEnabled(i: nat) returns (ok: bool)
      requires Valid() && alive && Announced(i) && memory.rows[i].phase.Promoting? && memory.rows[i].payload.Some?
      modifies this`durable, this`memory, this`alive, this`history
      ensures Valid() && Onward(old(history), history, i) && OnlyRow(old(memory), memory, i)
      ensures PastOf(history, i).sent == PastOf(old(history), i).sent
      ensures TakenUp(memory, i)
      ensures ok ==> alive && memory.rows[i].phase == Completed && PastOf(history, i).pass.enabled
    {
      hide RecordInv, Disciplined, DoneEarned, Earned, ExportOf, SameAccountIdentity, SwitchedOff;
      hide AccountVersion, PastOf;
      hide LastSeen, Complete;
      hide FinalBody, ImportApplied, ModelMappingsVerified, RowInv, SwitchedOn;
      var id, payload := memory.rows[i].accountId, memory.rows[i].payload.value;
      var read := ReadAccount(id);
      if read.None? || !SwitchedOn(read.value) || TextOf(Get(read.value, Status)) != "active" { return false; }
      if !SameAccountIdentity(read.value, memory.rows[i].tokens.identity) { return false; }
      if !ModelMappingsVerified(read.value, FieldsOf(Get(payload, Credentials))) { return false; }
      if !ImportApplied(read.value, FinalBody(payload, true)) { return false; }
      ShownFinal(memory.rows[i], read.value, true);
      NoteConfirmed(i, AsEnabled, read.value);
      ok := SaveCompleted(i, id, read.value);
    }

    method SendEnable(i: nat, current: Fields) returns (ok: bool)
      requires Valid() && alive && Working(i) && memory.rows[i].phase.Configured?
      requires MayApply(memory, i, current) && LastSeen(history, memory.rows[i].accountId) == Some(current)
      requires PastOf(history, i).configured && Gate(history, settings, i)
      modifies this`durable, this`memory, this`alive, this`history
      ensures Valid() && Onward(old(history), history, i)
      ensures memory == WithRow(old(memory), i, old(memory).rows[i].(phase := Promoting))
      ensures memory.rows[i].payload.Some?
      ensures ok ==> alive && Announced(i) && Requested(old(history), history, i, 0, 0, 1)
    {
      hide RecordInv, Disciplined, DoneEarned, Earned, ExportOf, SameAccountIdentity, SwitchedOff, AccountVersion;
      hide PassedImportCheck, Complete;
      hide PastOf, LastSeen;
      ok := ClearOldError(i, current);
      if !ok { return; }
      ok := Send(EnableSent(i, memory.rows[i].accountId, current));
    }

    /** Saves `promoting`, then clears the account's old error. */
    method ClearOldError(i: nat, current: Fields) returns (ok: bool)
      requires Valid() && alive && Working(i) && memory.rows[i].phase.Configured?
      requires MayApply(memory, i, current) && LastSeen(history, memory.rows[i].accountId) == Some(current)
      modifies this`durable, this`memory, this`alive, this`history
      ensures Valid() && Onward(old(history), history, i)
      ensures memory == WithRow(old(memory), i, old(memory).rows[i].(phase := Promoting))
      ensures memory.rows[i].payload.Some?
      ensures ok ==>
        && alive && durable == memory && !PastOf(history, i).asking.open && !PastOf(history, i).stuck
        && history == Then(Then(old(history), Saved(memory)), ClearErrorSent(i, memory.rows[i].accountId))
        && PastOf(history, i).pass == PastOf(old(history), i).pass
        && PastOf(history, i).sent == PastOf(old(history), i).sent
        && LastSeen(history, memory.rows[i].accountId) == Some(current) && EnableUnrepeated(i, current)
    {
      hide RecordInv, Disciplined, DoneEarned, Earned, ExportOf, SameAccountIdentity, SwitchedOff, AccountVersion;
      hide PassedImportCheck, Complete;
      hide LastSeen, PastOf, Gate, TextOf, Get;
      RowHolds(i);
      ForeignVersionMeansCollided(memory, i, history, current);
      ok := SaveRow(i, memory.rows[i].(phase := Promoting));
      if !ok { return; }
      assert EnableUnrepeated(i, current);
      ok := Send(ClearErrorSent(i, memory.rows[i].accountId));
    }

    /** Not enabled yet, and configured as the readback shows; or another row shares the identity. */
    ghost predicate EnableUnrepeated(i: nat, current: Fields)
      reads this
    {
      var past := PastOf(history, i);
      past.known.shared || (past.sent.enables == 0 && AccountVersion(current) in past.readbacks.versions)
    }

    method SaveCompleted(i: nat, id: string, account: Fields) returns (ok: bool)
      requires Valid() && alive && Working(i) && memory.rows[i].accountId == id
      requires memory.rows[i].phase.Promoting? && SwitchedOn(account) && AsEnabled in PastOf(history, i).readbacks.stages
      requires TextOf(Get(account, Id)) == id && SameAccountIdentity(account, memory.rows[i].tokens.identity)
      modifies this`durable, this`memory, this`alive, this`history
      ensures Valid() && Onward(old(history), history, i) && OnlyRow(old(memory), memory, i)
      ensures memory.rows[i] == old(memory).rows[i].(phase := Completed)
      ensures PastOf(history, i).sent == PastOf(old(history), i).sent
      ensures ok ==> alive
    {
      hide RecordInv, Disciplined, DoneEarned, Earned, ExportOf, PastOf;
      RowHolds(i);
      VersionShows(account);
      ok := SaveVersion(i, memory.rows[i].(phase := Completed), id, account);
    }

    // ---- run_reconcile.go ----

    /**
     reconcileItem: decides by reading alone what became of an uncertain request. Whatever phase it leaves
     behind is justified by the account it saw.
     */
    method ReconcileItem(i: nat) returns (ok: bool, seen: Option<Fields>)
      requires Valid() && Announced(i) && Uncertain(memory.rows[i].phase)
      requires PastOf(history, i).pass.enables == 0
      modifies this`durable, this`memory, this`alive, this`history
      ensures Valid() && Onward(old(history), history, i) && OnlyRow(old(memory), memory, i)
      ensures NothingSentSince(history, old(history))
      ensures
        || memory.rows[i].phase == old(memory).rows[i].phase
        || (seen.Some? && Justified(old(memory), memory, i, seen.value))
      ensures seen.Some? ==> LastSeen(history, TextOf(Get(seen.value, Id))) == seen
      ensures seen.Some? && old(memory).rows[i].accountId != "" ==>
        TextOf(Get(seen.value, Id)) == old(memory).rows[i].accountId
      ensures ok ==> alive && !Uncertain(memory.rows[i].phase)
      ensures ok && memory.rows[i].phase == Configured ==> PastOf(history, i).configured
      ensures ok && memory.rows[i].phase == Completed ==> memory.rows[i].status == Done
      ensures memory.rows[i].status.Done? ==> HasEarned(i, memory.rows[i].phase)
      ensures memory.rows[i].phase == old(memory).rows[i].phase ==> memory == old(memory)
    {
      hide RecordInv, Disciplined, DoneEarned, Earned, ExportOf, ImportApplied, AccountVersion, SameAccountIdentity;
      hide SwitchedOff, TextOf, Get, WritesInv, VersionsInv, PassedImportCheck, Justified, Valid, PastOf;
      ok, seen := false, None;
      var row := memory.rows[i];
      RowHolds(i);
      var allowed := Allowed();
      if !allowed { return; }
      if row.accountId != "" {
        seen := ReadAccount(row.accountId);
      } else {
        var found, account := FindExisting(row.tokens.identity);
        if found { seen := account; }
      }
      if seen.None? || !SameAccountIdentity(seen.value, row.tokens.identity) { return; }
      var current := seen.value;
      ghost var middle := history;
      if row.phase.Isolating? {
        ok := ReconcileIsolating(i, current);
      } else {
        var accepted, completed, requested := Decide(row, current);
        if !accepted || TextOf(Get(current, Id)) == "" { return; }
        ok := SaveReconciled(i, current, completed, requested);
      }
      NothingSentInAll(history, middle, old(history));
    }

    /** Only the pause was sent: the import may start over once the pause is confirmed. */
    method ReconcileIsolating(i: nat, current: Fields) returns (ok: bool)
      requires Valid() && Working(i) && memory.rows[i].phase.Isolating?
      requires SameAccountIdentity(current, memory.rows[i].tokens.identity)
      modifies this`durable, this`memory, this`alive, this`history
      ensures Valid() && Onward(old(history), history, i) && NothingSentSince(history, old(history))
      ensures history == old(history) || history == Then(old(history), Saved(memory))
      ensures OnlyRow(old(memory), memory, i)
      ensures memory == old(memory) || (memory.rows[i].phase.Materialized? && Justified(old(memory), memory, i, current))
      ensures TakenUp(memory, i)
      ensures ok ==> alive && memory.rows[i].phase.Materialized?
    {
      hide RecordInv, Disciplined, DoneEarned, Earned, ExportOf;
      RowHolds(i);
      var row := memory.rows[i];
      if !SwitchedOff(current) || row.accountId !in memory.versions { return false; }
      if AccountVersion(current) != memory.versions[row.accountId] { return false; }
      ok := SaveRow(i, row.(phase := Materialized, accountId := ""));
    }

    /** Enabling was asked for, and the check asked for has passed. */
    predicate MayPromote(row: Row) {
      settings.promote && (!settings.check || (row.check.Some? && PassedImportCheck(row.check.value)))
    }

    /** Whether the account shows the uncertain request done, and whether even enabling has taken effect. */
    method Decide(row: Row, current: Fields) returns (accepted: bool, completed: bool, requested: Fields)
      requires row.payload.Some? && Uncertain(row.phase) && !row.phase.Isolating?
      ensures completed <==>
        && (row.phase.Promoting? || MayPromote(row))
        && ImportApplied(current, WithSwitch(row.payload.value, "active", true))
      ensures accepted ==> requested == Expected(row, completed) && Shows(row, current, completed)
      ensures accepted <==> completed || (!row.phase.Promoting? && Shows(row, current, false))
    {
      accepted, completed, requested := true, false, row.payload.value;
      if row.phase.Promoting? || MayPromote(row) {
        requested := WithSwitch(requested, "active", true);
        completed := ImportApplied(current, requested);
      }
      if !completed {
        if row.phase.Promoting? { return false, false, requested; }
        requested := WithSwitch(requested, "active", false);
        if row.phase.Creating? { requested := requested[GroupIds := List([])]; }
        assert requested == Expected(row, false);
        if row.phase.Configuring? {
          accepted := ImportApplied(current, requested);
        } else {
          accepted := ImportAppliedWhileIsolated(current, requested);
        }
      }
    }

    /** Records that the account was verified, as enabled, configured or isolated. */
    method NoteReconciled(i: nat, current: Fields, completed: bool, requested: Fields)
      requires Valid() && alive && Announced(i) && memory.rows[i].payload.Some?
      requires Uncertain(memory.rows[i].phase) && !memory.rows[i].phase.Isolating?
      requires requested == Expected(memory.rows[i], completed) && Shows(memory.rows[i], current, completed)
      requires SameAccountIdentity(current, memory.rows[i].tokens.identity)
      requires LastSeen(history, TextOf(Get(current, Id))) == Some(current)
      modifies this`history
      ensures Valid() && Onward(old(history), history, i)
      ensures history == Then(old(history), Confirmed(i, StageOf(memory.rows[i], completed), current))
      ensures Added(old(history), history, history.event)
      ensures StageOf(memory.rows[i], completed) in PastOf(history, i).readbacks.stages
      ensures AccountIdentity(current) in PastOf(history, i).known.own
      ensures StageOf(memory.rows[i], completed).AsConfigured? ==>
        AccountVersion(current) in PastOf(history, i).readbacks.versions
      ensures completed ==>
        PastOf(history, i).pass.enabled && (PastOf(old(history), i).pass.enables == 0 ==> PastOf(history, i).pass.found)
    {
      hide RecordInv, Disciplined, DoneEarned, Earned, ExportOf, ImportApplied, AccountVersion, Shown, Shows;
      RowHolds(i);
      ShownReconciled(memory.rows[i], current, completed);
      NoteConfirmed(i, StageOf(memory.rows[i], completed), current);
    }

    /** Records what the readback established. */
    method SaveReconciled(i: nat, current: Fields, completed: bool, requested: Fields) returns (ok: bool)
      requires Valid() && alive && Announced(i) && memory.rows[i].payload.Some?
      requires Uncertain(memory.rows[i].phase) && !memory.rows[i].phase.Isolating?
      requires memory.rows[i].phase.Promoting? ==> completed
      requires requested == Expected(memory.rows[i], completed) && Shows(memory.rows[i], current, completed)
      requires TextOf(Get(current, Id)) != "" && SameAccountIdentity(current, memory.rows[i].tokens.identity)
      requires LastSeen(history, TextOf(Get(current, Id))) == Some(current)
      requires PastOf(history, i).pass.enables == 0
      modifies this`durable, this`memory, this`alive, this`history
      ensures Valid() && Onward(old(history), history, i) && OnlyRow(old(memory), memory, i)
      ensures Justified(old(memory), memory, i, current) && memory.rows[i].phase != old(memory).rows[i].phase
      ensures completed ==> memory.rows[i].phase.Completed? && memory.rows[i].status.Done? && HasEarned(i, Completed)
      ensures memory.rows[i].phase.Completed? ==> completed
      ensures !Uncertain(memory.rows[i].phase) && !memory.rows[i].phase.Materialized?
      ensures !OneUse(memory.rows[i].phase) && (!completed ==> memory.rows[i].status == old(memory).rows[i].status)
      ensures NothingSentSince(history, old(history)) && LastSeen(history, TextOf(Get(current, Id))) == Some(current)
      ensures ok ==> alive
      ensures ok && memory.rows[i].phase == Configured ==> PastOf(history, i).configured
    {
      hide RecordInv, Disciplined, DoneEarned, Shows, Justified, AccountVersion, SameAccountIdentity, PastOf;
      hide LastSeen, RowFits, AccountIdentity, Valid, VersionsInv;
      var id := TextOf(Get(current, Id));
      NoteReconciled(i, current, completed, requested);
      ghost var noted := history;
      RowHolds(i);
      ReconciledFits(memory.rows[i], memory.versions, PastOf(history, i), current, completed);
      ReconciledJustified(memory, i, current, completed);
      ok := SaveVersion(i, Reconciled(memory.rows[i], id, completed), id, current);
      assert NothingSentSince(noted, old(history));
      NothingSentInAll(history, noted, old(history));
    }

    // ---- run_check.go ----

    /** checkImportItem: the answer decides between going on and leaving the row for review. */
    method CheckItem(i: nat) returns (ok: bool)
      requires Valid() && settings.check && Working(i) && !OneUse(memory.rows[i].phase)
      modifies this`durable, this`memory, this`alive, this`history
      ensures Valid() && Onward(old(history), history, i) && OnlyRow(old(memory), memory, i)
      ensures memory.rows[i] == old(memory).rows[i].(status := memory.rows[i].status, check := memory.rows[i].check)
      ensures TakenUp(memory, i)
      ensures ok ==> alive && memory.rows[i].check.Some? && PastOf(history, i).pass.check == memory.rows[i].check
      ensures ok ==> (memory.rows[i].status == Review <==> !PassedImportCheck(memory.rows[i].check.value))
      ensures ok && !memory.rows[i].status.Review? ==> PastOf(history, i).pass.passed
      ensures ok ==>
        && history.Then? && history.event.Checked? && memory.rows[i].check == Some(history.event.check)
        && KeptOf(history.event.answer, history.event.check)
    {
      hide RecordInv, Disciplined, DoneEarned, Earned, ExportOf, Complete, NeedsLogin, AccountIdentity, SwitchedOn;
      var allowed := Allowed();
      if !allowed { return false; }
      RowHolds(i);
      var saved := SaveRow(i, memory.rows[i].(status := Checking, check := None));
      if !saved { return false; }
      var reply: Result<Check, string> := *;
      var answer := match reply case Ok(check) => check case Err(error) => Check("ERROR", error);
      var check, status := answer, Checking;
      if !PassedImportCheck(check) {
        if Trim(check.error) != "" {
          check := check.(verdict := "ERROR");
        } else if check.verdict != "INCONCLUSIVE" && check.verdict != "MISMATCH" {
          check := Check("ERROR", "no valid result");
        }
        status := Review;
        assert !PassedImportCheck(check) by {
          assert check.verdict == "ERROR" || check.verdict == "INCONCLUSIVE" || check.verdict == "MISMATCH";
        }
      }
      RecordCheck(i, answer, check, status);
      ok := true;
    }

    method RecordCheck(i: nat, answer: Check, check: Check, status: RowStatus)
      requires Valid() && settings.check && alive && Working(i) && !OneUse(memory.rows[i].phase) && !status.Done?
      requires KeptOf(answer, check)
      modifies this`memory, this`history
      ensures Valid() && Onward(old(history), history, i) && PastOf(history, i).pass.check == Some(check)
      ensures PassedImportCheck(check) ==> PastOf(history, i).pass.passed
      ensures history == Then(old(history), Checked(i, answer, check))
      ensures memory == WithRow(old(memory), i, old(memory).rows[i].(status := status, check := Some(check)))
    {
      hide RecordInv, Disciplined, DoneEarned, Earned, ExportOf, PassedImportCheck;
      RowHolds(i);
      Note(Checked(i, answer, check));
      RowHolds(i);
      SetRow(i, memory.rows[i].(status := status, check := Some(check)));
    }

    // ---- One-use credentials: protocol_payload.go, official.go, run_execute.go ----

    /** The answer to an acknowledged one-use request; a partial one is kept although it counts as a failure. */
    method ReceiveTokens(i: nat) returns (tokens: Option<Tokens>, complete: bool)
      requires Valid() && alive && Working(i) && PastOf(history, i).asking.open
      requires memory.rows[i].phase.Refreshing? || memory.rows[i].phase.Exchanging?
      requires InPhase(durable, i, memory.rows[i].phase) && !PastOf(history, i).stuck
      modifies this`history
      ensures Valid() && Onward(old(history), history, i)
      ensures tokens.Some? ==> history == Then(old(history), TokensReceived(i, tokens.value))
      ensures tokens.None? ==> history == old(history)
      ensures complete ==> tokens.Some? && tokens.value.access != ""
    {
      hide RecordInv, Disciplined, DoneEarned, Earned, ExportOf;
      tokens := *;
      complete := *;
      complete := complete && tokens.Some? && tokens.value.access != "" && tokens.value.refresh != "";
      if tokens.Some? { Note(TokensReceived(i, tokens.value)); }
    }

    /** exchangeProtocolCode: `exchanging` is durable before the one code exchange. */
    method ExchangeCode(i: nat) returns (tokens: Option<Tokens>, complete: bool)
      requires Valid() && Working(i) && memory.rows[i].kind.Login? && NotYetImported(memory.rows[i])
      modifies this`durable, this`memory, this`alive, this`history
      ensures Valid() && Onward(old(history), history, i)
      ensures memory == old(memory) || memory == WithRow(old(memory), i, old(memory).rows[i].(phase := Exchanging))
      ensures tokens.Some? ==>
        memory.rows[i].phase.Exchanging? && !PastOf(history, i).asking.open && PastOf(history, i).asking.answer == tokens
      ensures complete ==> tokens.Some? && tokens.value.access != ""
    {
      hide RecordInv, Disciplined, DoneEarned, Earned, ExportOf, VersionsInv, Valid, ReadbackInv;
      tokens, complete := None, false;
      var allowed := Allowed();
      if !allowed { return; }
      RowHolds(i);
      var saved := SaveRow(i, memory.rows[i].(phase := Exchanging));
      if !saved { return; }
      var sent := Send(ExchangeSent(i));
      if !sent { return; }
      tokens, complete := ReceiveTokens(i);
    }

    /** The login up to the exchange: it saves progress, and may stop anywhere. */
    method Authorize(i: nat) returns (tokens: Option<Tokens>, complete: bool)
      requires Valid() && Working(i) && memory.rows[i].kind.Login? && NotYetImported(memory.rows[i])
      modifies this`durable, this`memory, this`alive, this`history
      ensures Valid() && Onward(old(history), history, i) && OnlyRow(old(memory), memory, i)
      ensures memory.rows[i] == old(memory).rows[i].(phase := memory.rows[i].phase, status := memory.rows[i].status)
      ensures !memory.rows[i].status.Done?
      ensures tokens.Some? ==>
        memory.rows[i].phase.Exchanging? && !PastOf(history, i).asking.open && PastOf(history, i).asking.answer == tokens
      ensures complete ==> tokens.Some? && tokens.value.access != ""
    {
      hide RecordInv, Disciplined, DoneEarned, Earned, ExportOf, PastOf, LastSeen, Complete;
      tokens, complete := None, false;
      RowHolds(i);
      var saved := SaveRow(i, memory.rows[i].(status := Authorizing));
      if !saved { return; }
      var loggedIn: bool := *;
      if !loggedIn { return; }
      RowHolds(i);
      var prompted: bool := *;
      saved := SaveRow(i, memory.rows[i].(status := if prompted then WaitingInput else Authorizing));
      if !saved { return; }
      tokens, complete := ExchangeCode(i);
    }

    /** `refreshing` is durable before the one refresh; an unusable token sends nothing. */
    method Refresh(i: nat) returns (tokens: Option<Tokens>, complete: bool)
      requires Valid() && Working(i) && !memory.rows[i].kind.Login? && NotYetImported(memory.rows[i])
      modifies this`durable, this`memory, this`alive, this`history
      ensures Valid() && Onward(old(history), history, i)
      ensures memory == WithRow(old(memory), i, old(memory).rows[i].(phase := Refreshing))
      ensures tokens.Some? ==> !PastOf(history, i).asking.open && PastOf(history, i).asking.answer == tokens
      ensures complete ==> tokens.Some? && tokens.value.access != ""
    {
      hide RecordInv, Disciplined, DoneEarned, Earned, ExportOf;
      tokens, complete := None, false;
      RowHolds(i);
      var saved := SaveRow(i, memory.rows[i].(phase := Refreshing));
      if !saved { return; }
      var token := memory.rows[i].tokens.refresh;
      if token == "" { return; }
      var sent := Send(RefreshSent(i, token));
      if !sent { return; }
      tokens, complete := ReceiveTokens(i);
    }

    /** Received tokens replace the old ones and are saved before anything else. */
    method StoreTokens(i: nat, tokens: Tokens) returns (ok: bool)
      requires Valid() && Working(i)
      requires memory.rows[i].phase.Refreshing? || memory.rows[i].phase.Exchanging?
      requires !PastOf(history, i).asking.open && PastOf(history, i).asking.answer == Some(tokens)
      requires !PastOf(history, i).stuck
      modifies this`durable, this`memory, this`alive, this`history
      ensures Valid() && Onward(old(history), history, i)
      ensures memory == WithRow(old(memory), i,
        old(memory).rows[i].(tokens := tokens, kind := CodexJson, phase := Materialized))
    {
      hide RecordInv, Disciplined, DoneEarned, Earned, ExportOf;
      RowHolds(i);
      ok := SaveRow(i, memory.rows[i].(tokens := tokens, kind := CodexJson, phase := Materialized));
    }

    /** Ends with usable tokens, asking for them at most once; past `materialized` it asks for nothing. */
    method ObtainTokens(i: nat) returns (ok: bool)
      requires Valid() && Working(i) && !Uncertain(memory.rows[i].phase)
      requires !memory.rows[i].phase.Refreshing? && !memory.rows[i].phase.Exchanging?
      modifies this`durable, this`memory, this`alive, this`history
      ensures Valid() && Onward(old(history), history, i) && OnlyRow(old(memory), memory, i)
      ensures !BeforeImport(old(memory).rows[i].phase) ==> ok && history == old(history) && memory == old(memory)
      ensures TakenUp(memory, i)
      ensures ok ==> !NeedsLogin(memory.rows[i].kind) && memory.rows[i].tokens.access != ""
      ensures ok ==> memory.rows[i].phase.Materialized? || memory.rows[i].phase == old(memory).rows[i].phase
    {
      hide RecordInv, Disciplined, DoneEarned, Earned, ExportOf;
      RowHolds(i);
      var tokens: Option<Tokens>, complete := None, false;
      if memory.rows[i].kind.Login? {
        tokens, complete := Authorize(i);
      } else if memory.rows[i].kind.RefreshOnly? || memory.rows[i].tokens.access == "" {
        tokens, complete := Refresh(i);
      } else {
        return true;
      }
      if tokens.Some? {
        var saved := StoreTokens(i, tokens.value);
        if !saved { return false; }
      }
      ok := complete;
    }

    method NoteIdentity(i: nat, who: Identity)
      requires Valid() && alive && Working(i) && Complete(who)
      requires !memory.rows[i].phase.Refreshing? && !memory.rows[i].phase.Exchanging?
      modifies this`history
      ensures Valid() && Onward(old(history), history, i) && history == Then(old(history), IdentityVerified(i, who))
      ensures who in PastOf(history, i).known.own
    {
      hide RecordInv, Disciplined, DoneEarned, Earned, ExportOf;
      RowHolds(i);
      Note(IdentityVerified(i, who));
    }

    /** VerifyCredential, the export it allows, and the save of both. */
    method VerifyItem(i: nat) returns (ok: bool)
      requires Valid() && Working(i) && !Uncertain(memory.rows[i].phase)
      requires !memory.rows[i].phase.Refreshing? && !memory.rows[i].phase.Exchanging?
      requires !NeedsLogin(memory.rows[i].kind) && memory.rows[i].tokens.access != ""
      modifies this`durable, this`memory, this`alive, this`history
      ensures Valid() && Onward(old(history), history, i) && OnlyRow(old(memory), memory, i)
      ensures memory.rows[i].phase == old(memory).rows[i].phase && memory.rows[i].accountId == old(memory).rows[i].accountId
      ensures memory.rows[i].status == old(memory).rows[i].status
      ensures ok ==> alive && Verified(memory.rows[i], i, history)
      ensures ok ==> Agrees(old(memory).rows[i].tokens.identity, memory.rows[i].tokens.identity)
      ensures ok && settings.remembered.Some? ==> settings.remembered.value.identity == memory.rows[i].tokens.identity
    {
      hide RecordInv, Disciplined, DoneEarned, Earned, ExportOf, PastOf, LastSeen;
      var allowed := Allowed();
      if !allowed { return false; }
      var named: Option<Identity> := *;   // by an official signature
      if !named.Some? || !alive { return false; }
      var who, claimed := Identity(Trim(named.value.workspace), Trim(named.value.user)), memory.rows[i].tokens.identity;
      if !Complete(who) { return false; }
      if claimed.workspace != "" && claimed.workspace != who.workspace { return false; }
      if claimed.user != "" && claimed.user != who.user { return false; }
      if settings.remembered.Some? && settings.remembered.value.identity != who { return false; }
      NoteIdentity(i, who);
      TrimTwice(named.value.workspace);
      TrimTwice(named.value.user);
      ok := SaveVerified(i, who);
    }

    /** The official identity is stored with the export it allows. */
    method SaveVerified(i: nat, who: Identity) returns (ok: bool)
      requires Valid() && Working(i) && !Uncertain(memory.rows[i].phase) && !OneUse(memory.rows[i].phase)
      requires !NeedsLogin(memory.rows[i].kind) && memory.rows[i].tokens.access != ""
      requires Complete(who) && Trim(who.workspace) == who.workspace && Trim(who.user) == who.user
      requires who in PastOf(history, i).known.own
      modifies this`durable, this`memory, this`alive, this`history
      ensures Valid() && Onward(old(history), history, i) && OnlyRow(old(memory), memory, i)
      ensures memory.rows[i] == old(memory).rows[i].(
        tokens := old(memory).rows[i].tokens.(identity := who), payload := memory.rows[i].payload)
      ensures ok ==> alive && Verified(memory.rows[i], i, history)
    {
      hide RecordInv, Disciplined, DoneEarned, Earned, ExportOf, PastOf, LastSeen, Trim, AccountPayload;
      var template: Fields := *;   // what the template and the defaults make of the other settings
      var others: Fields := *;     // what is copied of the credentials beside tokens and identity
      RowHolds(i);
      var tokens := memory.rows[i].tokens.(identity := who);
      PayloadIsExport(template, others, tokens);
      ok := SaveRow(i, memory.rows[i].(tokens := tokens, payload := Some(AccountPayload(template, others, tokens))));
    }

    // ---- run_execute.go ----

    method ProcessItem(i: nat) returns (ok: bool)
      requires Valid() && Announced(i) && PastOf(history, i).pass.enables == 0
      requires memory.rows[i].phase.Configured? ==> PastOf(history, i).configured
      requires PassManual(history) == {}
      modifies this`durable, this`memory, this`alive, this`history
      ensures Valid() && Onward(old(history), history, i) && OnlyRow(old(memory), memory, i)
      // An unresolved one-use request is left alone: nothing is sent, read or saved.
      ensures OneUse(old(memory).rows[i].phase) ==> !ok && history == old(history) && memory == old(memory)
      ensures ok ==> memory.rows[i].status.Done? || memory.rows[i].status.Review?
      ensures memory.rows[i].status.Done? ==> HasEarned(i, memory.rows[i].phase)
    {
      hide RecordInv, Disciplined, DoneEarned, Earned, ExportOf, SameAccountIdentity, SwitchedOff;
      hide AccountVersion, PastOf;
      hide LastSeen, Complete;
      hide VersionsPinned, RowInv;
      var managed := Allowed();
      if !managed { return false; }
      if memory.rows[i].phase.Refreshing? || memory.rows[i].phase.Exchanging? { return false; }
      var settled := SettleItem(i);
      if !settled { return false; }
      if memory.rows[i].status.Done? { return true; }
      ok := PrepareItem(i);
      if !ok { return; }
      ok := PublishItem(i);
    }

    /** An interrupted phase is resolved first, and a fresh proxy session is stored. */
    method SettleItem(i: nat) returns (ok: bool)
      requires Valid() && Announced(i) && PastOf(history, i).pass.enables == 0 && !OneUse(memory.rows[i].phase)
      requires memory.rows[i].phase.Configured? ==> PastOf(history, i).configured
      modifies this`durable, this`memory, this`alive, this`history
      ensures Valid() && Onward(old(history), history, i) && OnlyRow(old(memory), memory, i)
      ensures ok && !memory.rows[i].status.Done? ==>
        && !Uncertain(memory.rows[i].phase) && !OneUse(memory.rows[i].phase)
        && (memory.rows[i].phase.Configured? ==> PastOf(history, i).configured)
      ensures memory.rows[i].status.Done? ==> HasEarned(i, memory.rows[i].phase)
    {
      hide RecordInv, Disciplined, DoneEarned, Earned, ExportOf, RowInv, PastOf, LastSeen, ImportApplied;
      if Uncertain(memory.rows[i].phase) {
        var reconciled, seen := ReconcileItem(i);
        if !reconciled { return false; }
        if memory.rows[i].status.Done? { return true; }
      }
      ok := true;
      var newProxySession: bool := *;
      if newProxySession { ok := Persist(); }
    }

    /** Tokens, verification, export: everything before the site is written. */
    method PrepareItem(i: nat) returns (ok: bool)
      requires Valid() && Working(i) && !Uncertain(memory.rows[i].phase)
      requires !memory.rows[i].phase.Refreshing? && !memory.rows[i].phase.Exchanging?
      modifies this`durable, this`memory, this`alive, this`history
      ensures Valid() && Onward(old(history), history, i) && OnlyRow(old(memory), memory, i) && TakenUp(memory, i)
      ensures ok ==> alive && Verified(memory.rows[i], i, history)
      ensures ok ==> memory.rows[i].phase.Materialized? || memory.rows[i].phase == old(memory).rows[i].phase
    {
      hide RecordInv, Disciplined, DoneEarned, Earned, ExportOf;
      RowHolds(i);
      SetRow(i, memory.rows[i].(status := Preparing));
      ok := ObtainTokens(i);
      if !ok { return; }
      ok := VerifyItem(i);
    }

    /** Import, configuration, check and enabling of a verified row. */
    method PublishItem(i: nat) returns (ok: bool)
      requires Valid() && Working(i) && !Uncertain(memory.rows[i].phase)
      requires !memory.rows[i].phase.Refreshing? && !memory.rows[i].phase.Exchanging?
      requires Verified(memory.rows[i], i, history)
      requires memory.rows[i].phase.Configured? ==> PastOf(history, i).configured
      requires PassManual(history) == {}
      modifies this`durable, this`memory, this`alive, this`history
      ensures Valid() && Onward(old(history), history, i) && OnlyRow(old(memory), memory, i)
      ensures ok ==> memory.rows[i].status.Done? || memory.rows[i].status.Review?
      ensures memory.rows[i].status.Done? ==> HasEarned(i, memory.rows[i].phase)
    {
      hide RecordInv, Disciplined, DoneEarned, Earned, ExportOf, PastOf;
      RowHolds(i);
      if memory.rows[i].accountId == "" {
        ok := ImportItem(i, memory.rows[i].payload.value);
        if !ok { return; }
      }
      ok := ApplyItem(i, false);
      if !ok { return; }
      var remembered := Allowed();
      if !remembered { return false; }
      ok := CheckAndPromote(i);
    }

    method CheckAndPromote(i: nat) returns (ok: bool)
      requires Valid() && Working(i) && memory.rows[i].phase.Configured? && PastOf(history, i).configured
      requires PassManual(history) == {}
      modifies this`durable, this`memory, this`alive, this`history
      ensures Valid() && Onward(old(history), history, i) && OnlyRow(old(memory), memory, i)
      ensures ok ==> memory.rows[i].status.Done? || memory.rows[i].status.Review?
      ensures memory.rows[i].status.Done? ==> HasEarned(i, memory.rows[i].phase)
    {
      hide RecordInv, Disciplined, DoneEarned, ExportOf;
      if settings.check {
        ok := CheckItem(i);
        if !ok || memory.rows[i].status.Review? { return; }
      }
      if settings.promote {
        ok := ApplyItem(i, true);
        if !ok { return; }
      }
      RowHolds(i);
      SetRow(i, memory.rows[i].(status := Done));
      ok := true;
    }

    /** promoteItem for a row the operator chose by hand. */
    method PromoteManually(i: nat) returns (ok: bool)
      requires Valid() && Working(i) && i in PassManual(history)
      requires memory.rows[i].phase.Configured? || memory.rows[i].phase.Isolated?
      requires memory.rows[i].phase.Configured? ==> PastOf(history, i).configured
      modifies this`durable, this`memory, this`alive, this`history
      ensures Valid() && Onward(old(history), history, i) && OnlyRow(old(memory), memory, i)
      ensures ok <==> memory.rows[i].status.Done?
      ensures ok ==> HasEarned(i, memory.rows[i].phase)
    {
      hide RecordInv, Disciplined, DoneEarned, ExportOf;
      ok := ApplyItem(i, true);
      if !ok { return; }
      RowHolds(i);
      SetRow(i, memory.rows[i].(status := Done));
    }

    /** The rows this pass works on: unfinished, and chosen if the operator chose any. */
    method WorkIndices() returns (indices: seq<nat>)
      ensures forall k | 0 <= k < |indices| :: indices[k] < |memory.rows|
      ensures forall k, l | 0 <= k < l < |indices| :: indices[k] < indices[l]
      ensures forall i: nat | i < |memory.rows| :: i in indices <==>
        !memory.rows[i].status.Done? && (memory.manual == {} || i in memory.manual)
    {
      indices := [];
      for i := 0 to |memory.rows|
        invariant forall k | 0 <= k < |indices| :: indices[k] < i
        invariant forall k, l | 0 <= k < l < |indices| :: indices[k] < indices[l]
        invariant forall j: nat | j < i :: j in indices <==>
          !memory.rows[j].status.Done? && (memory.manual == {} || j in memory.manual)
      {
        if memory.rows[i].status.Done? || (memory.manual != {} && i !in memory.manual) { continue; }
        indices := indices + [i];
      }
    }

    /** Changes the run's own state, which no row depends on. */
    method SetRun(manual: set<nat>, status: RunStatus)
      requires Valid()
      modifies this`memory
      ensures Valid() && memory == old(memory).(manual := manual, status := status)
    {
      var next := memory.(manual := manual, status := status);
      forall i: nat | i < |next.rows| ensures RowInv(next, i, history) { RowHolds(i); }
      memory := next;
    }

    method SetStatus(i: nat, status: RowStatus)
      requires Valid() && i < |memory.rows| && !status.Done?
      modifies this`memory
      ensures Valid() && memory == WithRow(old(memory), i, old(memory).rows[i].(status := status))
    {
      hide RecordInv, Disciplined, DoneEarned, Earned, ExportOf;
      RowHolds(i);
      SetRow(i, memory.rows[i].(status := status));
    }

    /** A row this pass has yet to work on. */
    ghost predicate Next(i: nat)
      reads this
    {
      && Announced(i) && PastOf(history, i).pass == NEW_PASS && memory.manual == PassManual(history)
      && (memory.rows[i].phase.Configured? ==> PastOf(history, i).configured)
      && (memory.manual != {} ==> memory.rows[i].phase.Configured? || memory.rows[i].phase.Isolated?)
    }

    /** One unit of a pass: by hand or in full, then the row's failure status. */
    method WorkOn(i: nat) returns (ok: bool)
      requires Valid() && Next(i)
      modifies this`durable, this`memory, this`alive, this`history
      ensures Valid() && Onward(old(history), history, i) && OnlyRow(old(memory), memory, i)
      ensures OneUse(old(memory).rows[i].phase) ==>
        history == old(history) && SameButStatus(old(memory).rows[i], memory.rows[i])
      ensures memory.rows[i].status.Done? ==> HasEarned(i, memory.rows[i].phase)
      ensures if ok then memory.rows[i].status.Done? || memory.rows[i].status.Review?
        else memory.rows[i].status == if HalfWay(memory.rows[i].phase) then Interrupted else Failed
    {
      hide RecordInv, Disciplined, DoneEarned, Earned, ExportOf;
      if memory.manual != {} {
        ok := PromoteManually(i);
      } else {
        ok := ProcessItem(i);
      }
      if !ok {
        var phase := memory.rows[i].phase;
        SetStatus(i, if HalfWay(phase) then Interrupted else Failed);
      }
    }

    /** One unit, its save and the task's progress; a pass that is stopped leaves the row interrupted. */
    method WorkUnit(i: nat) returns (progressed: bool)
      requires Valid() && Next(i)
      modifies this`durable, this`memory, this`alive, this`history
      ensures Valid() && Onward(old(history), history, i) && OnlyRow(old(memory), memory, i)
      ensures OneUse(old(memory).rows[i].phase) ==> SameButStatus(old(memory).rows[i], memory.rows[i])
      ensures memory.rows[i].status.Done? ==> HasEarned(i, memory.rows[i].phase)
      ensures progressed ==> durable == memory
      ensures SettledStatus(memory.rows[i].status)
    {
      hide RecordInv, Disciplined, DoneEarned, Earned, ExportOf, PastOf, LastSeen, Valid;
      var allowed := Allowed();
      if !allowed {
        SetStatus(i, Interrupted);
        return false;
      }
      var ok := WorkOn(i);
      var saved := Persist();
      progressed := *;
      progressed := progressed && saved;
      if !progressed { SetRun(memory.manual, RunInterrupted); }
    }

    /** The units in turn, until all are done or one stops the pass. */
    method WorkThrough(indices: seq<nat>)
      requires Valid() && forall k | 0 <= k < |indices| :: Next(indices[k])
      requires forall k, l | 0 <= k < l < |indices| :: indices[k] < indices[l]
      modifies this`durable, this`memory, this`alive, this`history
      ensures Valid() && |memory.rows| == |old(memory).rows| && SamePass(old(history), history)
      ensures forall i: nat | i < |memory.rows| && (i !in indices || OneUse(old(memory).rows[i].phase)) ::
        SameButStatus(old(memory).rows[i], memory.rows[i])
      ensures forall i: nat | i < |memory.rows| && memory.rows[i].status.Done? && !old(memory).rows[i].status.Done? ::
        HasEarned(i, memory.rows[i].phase)
    {
      hide RecordInv, Disciplined, DoneEarned, Earned, ExportOf, PastOf, LastSeen, Valid;
      for k := 0 to |indices|
        invariant Valid() && |memory.rows| == |old(memory).rows| && SamePass(old(history), history)
        invariant forall l | k <= l < |indices| :: Next(indices[l])
        invariant forall i: nat | i < |memory.rows| && (i !in indices || OneUse(old(memory).rows[i].phase)) ::
          SameButStatus(old(memory).rows[i], memory.rows[i])
        invariant forall i: nat | i < |memory.rows| && memory.rows[i].status.Done? && !old(memory).rows[i].status.Done? ::
          HasEarned(i, memory.rows[i].phase)
      {
        var progressed := WorkUnit(indices[k]);
        if !progressed { break; }
      }
    }

    /** A worker pass from launch to its final save. */
    method Execute()
      requires Valid() && durable == memory && memory.manual == PassManual(history)
      requires forall i | i in memory.manual :: i < |memory.rows| && ReadyForManual(memory.rows[i])
      requires forall i: nat | i < |memory.rows| && memory.rows[i].phase.Configured? :: PastOf(history, i).configured
      requires forall i: nat | i < |memory.rows| :: PastOf(history, i).pass == NEW_PASS
      modifies this`durable, this`memory, this`alive, this`history
      ensures Valid() && |memory.rows| == |old(memory).rows| && PassManual(history) == PassManual(old(history))
      // What this pass finished went through all that was asked for, and a completed run has nothing left.
      ensures forall i: nat | i < |memory.rows| && memory.rows[i].status.Done? && !old(memory).rows[i].status.Done? ::
        HasEarned(i, memory.rows[i].phase)
      ensures memory.status.RunCompleted? <==> AllDone(memory) && !memory.status.RunInterrupted?
      // The pass did not start, or no row is left as if somebody were at it.
      ensures
        || (memory == old(memory).(status := RunInterrupted) && NothingSentSince(history, old(history)))
        || (AllSettled(memory) && memory.manual == {})
      ensures LaunchRecord(history) == LaunchRecord(old(history))
      // Finished rows, rows the operator did not choose and unresolved one-use requests are not worked on.
      ensures forall i: nat | i < |memory.rows| && NotWorkedOn(old(memory), i) ::
        SameButStatus(old(memory).rows[i], memory.rows[i])
    {
      hide RecordInv, Disciplined, DoneEarned, Earned, ExportOf, PastOf, LastSeen, Complete, Valid;
      var running: bool := *;
      if !running {
        SetRun(memory.manual, RunInterrupted);
        var saved := Persist();
        return;
      }
      SetRun(memory.manual, RunRunning);
      var indices := WorkIndices();
      WorkThrough(indices);
      FinishPass();
    }

    /** Rows left half-way are interrupted, the choice by hand ends, and the run gets its outcome. */
    method FinishPass()
      requires Valid()
      modifies this`durable, this`memory, this`alive, this`history
      ensures Valid() && StatusOnly(old(memory), memory) && Onward(old(history), history, NO_ROW)
      ensures memory.status.RunCompleted? <==> AllDone(memory) && !memory.status.RunInterrupted?
      ensures AllSettled(memory) && memory.manual == {} && (old(memory).status.RunInterrupted? ==> memory.status.RunInterrupted?)
    {
      hide RecordInv, Disciplined, DoneEarned, Earned, ExportOf;
      var outcome := RunCompleted;
      for i := 0 to rowCount
        invariant Valid() && StatusOnly(old(memory), memory) && history == old(history)
        invariant outcome.RunCompleted? || outcome.RunNeedsAttention?
        invariant outcome.RunCompleted? <==> forall j: nat | j < i :: memory.rows[j].status.Done?
        invariant memory.status == old(memory).status && forall j: nat | j < i :: SettledStatus(memory.rows[j].status)
      {
        var status := memory.rows[i].status;
        if status.Queued? || status.Preparing? || status.Authorizing? || status.Checking? || status.WaitingInput? {
          SetStatus(i, Interrupted);
        }
        if !memory.rows[i].status.Done? { outcome := RunNeedsAttention; }
      }
      var cancelled: bool := *;
      if cancelled || memory.status.RunInterrupted? { outcome := RunInterrupted; }
      SetRun({}, outcome);
      var saved := Persist();
    }

    // ---- run_start.go, run_actions.go, lifecycle.go ----

    /** A worker's copy starts from the stored record. */
    method Load()
      requires Valid()
      modifies this`memory
      ensures Valid() && memory == durable
    {
      memory := durable;
    }

    /** Saves the record as queued, then runs one pass over it. */
    method Launch() returns (launched: bool)
      requires Valid()
      requires forall i | i in memory.manual :: i < |memory.rows| && ReadyForManual(memory.rows[i])
      modifies this`durable, this`memory, this`alive, this`history
      ensures Valid() && (!launched ==> NothingSentSince(history, old(history)))
      ensures launched ==> PassManual(history) == old(memory).manual
      ensures launched ==> LaunchRecord(history) == old(memory).(status := RunQueued)
      ensures launched ==> memory.status.RunInterrupted? || (AllSettled(memory) && memory.manual == {})
    {
      hide RecordInv, Disciplined, DoneEarned, Earned, ExportOf;
      SetRun(memory.manual, RunQueued);
      var saved := Persist();
      if !saved { return false; }
      var taskStored: bool := *;
      if !taskStored {
        SetRun(memory.manual, RunInterrupted);
        ghost var queued := history;
        saved := Persist();
        NothingSentInAll(history, queued, old(history));
        return false;
      }
      BeginPass();
      Execute();
      launched := true;
    }

    /** The pass begins on the record just saved. */
    method BeginPass()
      requires Valid() && durable == memory && history.Then? && history.event == Saved(memory)
      requires forall i | i in memory.manual :: i < |memory.rows| && ReadyForManual(memory.rows[i])
      modifies this`history
      ensures Valid() && durable == memory && PassManual(history) == memory.manual
      ensures LaunchRecord(history) == memory
      ensures forall i: nat | i < |memory.rows| && memory.rows[i].phase.Configured? :: PastOf(history, i).configured
      ensures forall i: nat | i < |memory.rows| :: PastOf(history, i).pass == NEW_PASS
    {
      assert forall i: nat | i < |memory.rows| && memory.rows[i].phase.Configured? :: PastOf(history, i).configured;
      EventKeepsRecord(memory, history, Launched(memory.manual));
      history := Then(history, Launched(memory.manual));
    }

    /** Retry: every unfinished row is queued again, except one whose one-use request is unresolved. */
    method Retry() returns (launched: bool)
      requires Valid() && alive
      modifies this`durable, this`memory, this`alive, this`history
      ensures Valid() && (!launched ==> NothingSentSince(history, old(history)))
      ensures launched ==> PassManual(history) == {}
      ensures launched ==> |LaunchRecord(history).rows| == |old(durable).rows| && forall i: nat | i < |old(durable).rows| ::
        LaunchRecord(history).rows[i] == QueuedAgain(old(durable).rows[i])
      ensures launched ==> exists i: nat :: i < |old(durable).rows| && Retryable(old(durable).rows[i])
    {
      hide RecordInv, Disciplined, DoneEarned, Earned, ExportOf;
      var allowed := Allowed();
      if !allowed { return false; }
      Load();
      var retryable := 0;
      for i := 0 to rowCount
        invariant Valid() && StatusOnly(durable, memory) && durable == old(durable) && history == old(history)
        invariant forall j: nat | i <= j < rowCount :: memory.rows[j] == durable.rows[j]
        invariant forall j: nat | j < i :: memory.rows[j] == QueuedAgain(durable.rows[j])
        invariant retryable > 0 ==> exists j: nat :: j < i && Retryable(durable.rows[j])
      {
        var row := memory.rows[i];
        if !Retryable(row) { continue; }
        SetStatus(i, Queued);
        retryable := retryable + 1;
      }
      if retryable == 0 { return false; }
      SetRun({}, memory.status);
      launched := Launch();
    }

    /** EnableReview: only rows under review, checked, imported and still isolated may be chosen by hand. */
    method EnableReview(ids: seq<nat>) returns (launched: bool)
      requires Valid() && alive
      modifies this`durable, this`memory, this`alive, this`history
      ensures Valid() && (!launched ==> NothingSentSince(history, old(history)))
      ensures launched ==> LaunchRecord(history).rows == old(durable).rows
      ensures launched ==>
        && ids != [] && AllDistinct(ids)
        && (forall k | 0 <= k < |ids| :: ids[k] < |old(durable).rows| && ReadyForManual(old(durable).rows[ids[k]]))
        // The pass works on the chosen rows and on no others.
        && forall i: nat :: ActsOn(history, i) <==> i in ids
    {
      hide RecordInv, Disciplined, DoneEarned, Earned, ExportOf;
      Load();
      if ids == [] || |ids| > |memory.rows| { return false; }
      var allowed := Allowed();
      if !allowed { return false; }
      var selected := {};
      for k := 0 to |ids|
        invariant forall i :: i in selected <==> exists j :: 0 <= j < k && ids[j] == i
        invariant forall j, l | 0 <= j < l < k :: ids[j] != ids[l]
      {
        if ids[k] in selected { return false; }
        selected := selected + {ids[k]};
      }
      for k := 0 to |ids|
        invariant forall j | 0 <= j < k :: ids[j] < |memory.rows| && ReadyForManual(memory.rows[ids[j]])
      {
        if ids[k] >= |memory.rows| || !ReadyForManual(memory.rows[ids[k]]) { return false; }
      }
      SetRun(selected, memory.status);
      launched := Launch();
      assert ids[0] in selected;
    }

    /** Recover, before the restarted service answers: the old worker and its copy are gone. */
    method Recover()
      requires Valid()
      modifies this`durable, this`memory, this`alive, this`history
      ensures Valid() && StatusOnly(old(durable), memory) && NothingSentSince(history, old(history))
      // A run that was under way is interrupted, with every row that is neither finished nor under review.
      ensures
        if old(durable).status.RunRunning? || old(durable).status.RunQueued? then
          && memory.status.RunInterrupted? && memory.manual == {}
          && forall i: nat | i < |memory.rows| :: memory.rows[i] == AfterRestart(old(durable).rows[i])
        else memory == old(durable) && alive
    {
      hide RecordInv, Disciplined, DoneEarned, Earned, ExportOf;
      Load();
      alive := true;
      if !memory.status.RunRunning? && !memory.status.RunQueued? { return; }
      for i := 0 to rowCount
        invariant Valid() && StatusOnly(old(durable), memory) && history == old(history)
        invariant forall j: nat | j < rowCount ::
          memory.rows[j] == if j < i then AfterRestart(old(durable).rows[j]) else old(durable).rows[j]
      {
        var status := memory.rows[i].status;
        if !status.Done? && !status.Review? { SetStatus(i, Interrupted); }
      }
      SetRun({}, RunInterrupted);
      var saved := Persist();
    }
  }

  /** A one-use request, or a write, whose outcome is open. */
  predicate HalfWay(phase: Phase) {
    OneUse(phase) || Uncertain(phase)
  }

  /** No worker is at the row any more. */
  predicate SettledStatus(status: RowStatus) {
    status.Done? || status.Review? || status.Failed? || status.Interrupted?
  }

  predicate AllSettled(record: Record) {
    forall i: nat | i < |record.rows| :: SettledStatus(record.rows[i].status)
  }

  predicate AllDone(record: Record) {
    forall i: nat | i < |record.rows| :: record.rows[i].status.Done?
  }

  predicate NotWorkedOn(record: Record, i: nat)
    requires i < |record.rows|
  {
    record.rows[i].status.Done? || (record.manual != {} && i !in record.manual) || OneUse(record.rows[i].phase)
  }

  function QueuedAgain(row: Row): Row {
    if Retryable(row) then row.(status := Queued) else row
  }

  function AfterRestart(row: Row): Row {
    if row.status.Done? || row.status.Review? then row else row.(status := Interrupted)
  }

  /** An unfinished row without an unresolved one-use request. */
  predicate Retryable(row: Row) {
    !row.status.Done? && !row.phase.Refreshing? && !row.phase.Exchanging?
  }

  /** Any number of starts, retries, manual enables and restarts, in any order, against any site. */
  method EveryRun(settings: Settings, inputs: seq<Row>) returns (history: History)
    requires forall i | 0 <= i < |inputs| :: FreshRow(inputs[i])
    ensures Disciplined(history, settings) && RecordInv(LastSaved(history), history)
    ensures |LastSaved(history).rows| == |inputs|
    ensures forall i: nat :: PastOf(history, i).sent.imports <= 1 && PastOf(history, i).asking.exchanges <= 1
    ensures forall i: nat | !PastOf(history, i).known.shared ::
      PastOf(history, i).sent.configures <= 1 && PastOf(history, i).sent.enables <= 1
  {
    var run := new Run(settings, inputs);
    var started := run.Launch();
    var steps: nat := *;
    while steps > 0
      invariant run.Valid()
    {
      steps := steps - 1;
      var choice: int := *;
      if !run.alive || choice == 0 {
        run.Recover();
      } else if choice == 1 {
        var launched := run.Retry();
      } else {
        var ids: seq<nat> := *;
        var launched := run.EnableReview(ids);
      }
    }
    history := run.history;
    forall i: nat
      ensures PastOf(history, i).sent.imports <= 1 && PastOf(history, i).asking.exchanges <= 1
      ensures !PastOf(history, i).known.shared ==>
        PastOf(history, i).sent.configures <= 1 && PastOf(history, i).sent.enables <= 1
    {
      RunSafety.AtMostOneImport(history, settings, i);
      RunSafety.AtMostOneConfigureAndEnable(history, settings, i);
    }
  }

  /** The fields an uncertain request is compared with. */
  function Expected(row: Row, completed: bool): Fields
    requires row.payload.Some?
  {
    var requested := WithSwitch(row.payload.value, "active", completed);
    if !completed && row.phase.Creating? then requested[GroupIds := List([])] else requested
  }

  function StageOf(row: Row, completed: bool): Stage {
    if completed then AsEnabled else if row.phase.Configuring? then AsConfigured else AsIsolated
  }

  /** The account shows that the row's uncertain request, or even its enabling, took effect. */
  predicate Shows(row: Row, current: Fields, completed: bool)
    requires row.payload.Some?
  {
    if completed || row.phase.Configuring? then ImportApplied(current, Expected(row, completed))
    else ImportAppliedWhileIsolated(current, Expected(row, completed))
  }

  /** Where a confirmed request leaves its row. */
  function Reconciled(row: Row, id: string, completed: bool): Row {
    row.(
      phase := if completed then Completed else if row.phase.Configuring? then Configured else Isolated,
      accountId := id,
      action := if row.phase.Creating? then CreatedAccount else if row.phase.Updating? then UpdatedAccount else row.action,
      status := if completed then Done else row.status)
  }

  lemma ReconciledFits(row: Row, versions: map<string, Version>, past: Past, current: Fields, completed: bool)
    requires RowFits(row, versions, past) && row.payload.Some?
    requires Uncertain(row.phase) && !row.phase.Isolating? && (row.phase.Promoting? ==> completed)
    requires TextOf(Get(current, Id)) != "" && Shows(row, current, completed)
    requires StageOf(row, completed) in past.readbacks.stages
    requires StageOf(row, completed).AsConfigured? ==> AccountVersion(current) in past.readbacks.versions
    ensures !past.stuck
    ensures RowFits(
      Reconciled(row, TextOf(Get(current, Id)), completed),
      versions[TextOf(Get(current, Id)) := AccountVersion(current)],
      past)
  {
    hide AccountVersion, SwitchedOff, SwitchedOn, Shows, AccountIdentity, TextOf;
    VersionShows(current);
    VerifiedStage(row, current, completed);
  }

  lemma ReconciledJustified(before: Record, i: nat, current: Fields, completed: bool)
    requires i < |before.rows| && before.rows[i].payload.Some?
    requires Uncertain(before.rows[i].phase) && !before.rows[i].phase.Isolating?
    requires before.rows[i].phase.Promoting? ==> completed
    requires Shows(before.rows[i], current, completed)
    requires SameAccountIdentity(current, before.rows[i].tokens.identity)
    ensures
      var id := TextOf(Get(current, Id));
      var after := WithVersion(before, i, Reconciled(before.rows[i], id, completed), id, AccountVersion(current));
      Justified(before, after, i, current)
  {
    hide AccountVersion, SameAccountIdentity, ImportApplied, ImportAppliedWhileIsolated, SwitchedOff, SwitchedOn;
    hide TextOf;
    VerifiedStage(before.rows[i], current, completed);
  }

  /** What a written account is compared with. */
  function ImportBody(row: Row): Fields
    requires row.payload.Some?
  {
    if row.phase.Creating? then CreateBody(row.payload.value) else UpdateBody(row.payload.value)
  }

  lemma ShownIsolated(row: Row, account: Fields)
    requires row.payload.Some? && SwitchedOff(account) && ImportAppliedWhileIsolated(account, ImportBody(row))
    ensures Shown(AsIsolated, row, account)
  {
    hide ImportApplied;
    AppliedInPart(account, ImportBody(row) - {Status}, IsolatedBody(row.payload.value, row.phase.Creating?) - {Status});
  }

  lemma ShownFinal(row: Row, account: Fields, on: bool)
    requires row.payload.Some? && ConfiguredAs(account, row.payload.value, on)
    ensures Shown(if on then AsEnabled else AsConfigured, row, account)
    ensures if on then SwitchedOn(account) else SwitchedOff(account)
  {
    VerifiedSwitch(account, row.payload.value - {Credentials, Platform, AccountType}, "active", on);
  }

  /** A reconciled request shows the same as one that was confirmed at once. */
  lemma ShownReconciled(row: Row, current: Fields, completed: bool)
    requires row.payload.Some? && Uncertain(row.phase) && !row.phase.Isolating? && Shows(row, current, completed)
    ensures Shown(StageOf(row, completed), row, current)
  {
    VerifiedStage(row, current, completed);
    var payload, expected := row.payload.value, Expected(row, completed);
    if completed || row.phase.Configuring? {
      AppliedInPart(current, expected, FinalBody(payload, completed));
      assert Get(expected, Credentials) == Get(payload, Credentials);
      assert ModelMappingsVerified(current, FieldsOf(Get(payload, Credentials)));
    } else {
      AppliedInPart(current, expected - {Status}, IsolatedBody(payload, row.phase.Creating?) - {Status});
    }
  }

  lemma VerifiedStage(row: Row, current: Fields, completed: bool)
    requires row.payload.Some? && Uncertain(row.phase) && !row.phase.Isolating? && Shows(row, current, completed)
    ensures if completed then SwitchedOn(current) && Get(current, Status) == Text("active", Plain) else SwitchedOff(current)
    ensures if completed then SwitchedOn(Expected(row, true)) else SwitchedOff(Expected(row, false))
  {
    var requested := Expected(row, completed);
    assert requested == WithSwitch(requested, "active", completed);
    if completed || row.phase.Configuring? {
      VerifiedSwitch(current, requested, "active", completed);
    } else {
      VerifiedIsolation(current, requested, "active");
    }
  }

  /** The account seen supports the phase a reconciled row moved to. */
  ghost predicate Justified(before: Record, after: Record, i: nat, seen: Fields)
    requires i < |before.rows| && i < |after.rows|
  {
    var row, next := before.rows[i], after.rows[i];
    && SameAccountIdentity(seen, row.tokens.identity) && row.payload.Some? && next.payload == row.payload
    && match next.phase
       case Materialized =>
         row.phase.Isolating? && SwitchedOff(seen) && row.accountId in before.versions
         && before.versions[row.accountId] == AccountVersion(seen)
       case Isolated =>
         (row.phase.Creating? || row.phase.Updating?) && SwitchedOff(seen) && PinnedTo(after, i, seen)
         && ImportAppliedWhileIsolated(seen, Expected(row, false))
       case Configured =>
         row.phase.Configuring? && SwitchedOff(seen) && PinnedTo(after, i, seen)
         && ImportApplied(seen, WithSwitch(row.payload.value, "active", false))
       case Completed =>
         SwitchedOn(seen) && Get(seen, Status) == Text("active", Plain) && PinnedTo(after, i, seen)
         && ImportApplied(seen, WithSwitch(row.payload.value, "active", true))
       case _ => false
  }

  ghost predicate PinnedTo(record: Record, i: nat, seen: Fields)
    requires i < |record.rows|
  {
    record.rows[i].accountId in record.versions && record.versions[record.rows[i].accountId] == AccountVersion(seen)
  }
}
