/** What every disciplined history of an import run guarantees, and the one way in which it is not enough. */
module RunSafety {
  import opened Common
  import opened Json
  import opened Readback
  import opened RunHistory

  /** The history up to some moment. */
  predicate IsPrefix(p: History, h: History) {
    p == h || (h.Then? && IsPrefix(p, h.before))
  }

  /** Every event met its conditions on the history before it. */
  lemma {:induction false} EveryEventAdmissible(h: History, settings: Settings, p: History, e: Event)
    requires Disciplined(h, settings) && IsPrefix(Then(p, e), h)
    ensures Disciplined(p, settings) && Admissible(p, settings, e)
  {
    if h != Then(p, e) { EveryEventAdmissible(h.before, settings, p, e); }
  }

  /** A row is created or updated at most once in total, and its code is exchanged at most once, whatever others do. */
  lemma {:induction false} AtMostOneImport(h: History, settings: Settings, i: nat)
    requires Disciplined(h, settings)
    ensures PastOf(h, i).sent.imports <= 1
    ensures PastOf(h, i).asking.exchanges <= 1
  {
    hide After;
    if h.Then? {
      AtMostOneImport(h.before, settings, i);
      RequestsGrow(PastOf(h.before, i), h.event, i, LastSaved(h.before));
    }
  }

  lemma {:induction false} NeverAskedIsClosed(h: History, i: nat)
    ensures !PastOf(h, i).asking.ever ==> !PastOf(h, i).asking.open && PastOf(h, i).asking.exchanges == 0
  {
    if h.Then? { NeverAskedIsClosed(h.before, i); }
  }

  predicate AsksTokens(e: Event, i: nat) {
    (e.RefreshSent? || e.ExchangeSent?) && e.row == i
  }

  lemma {:induction false} AskedLasts(p: History, h: History, i: nat)
    requires IsPrefix(p, h) && PastOf(p, i).asking.ever
    ensures PastOf(h, i).asking.ever
  {
    if p != h { AskedLasts(p, h.before, i); }
  }

  lemma {:induction false} CollisionLasts(p: History, h: History, i: nat)
    requires IsPrefix(p, h) && PastOf(p, i).known.shared
    ensures PastOf(h, i).known.shared
  {
    if p != h { CollisionLasts(p, h.before, i); }
  }

  /** Unless another row shares its official identity, a row is configured at most once and enabled at most once. */
  lemma {:induction false} AtMostOneConfigureAndEnable(h: History, settings: Settings, i: nat)
    requires Disciplined(h, settings)
    ensures PastOf(h, i).known.shared || (PastOf(h, i).sent.configures <= 1 && PastOf(h, i).sent.enables <= 1)
  {
    hide After;
    if h.Then? {
      AtMostOneConfigureAndEnable(h.before, settings, i);
      RequestsGrow(PastOf(h.before, i), h.event, i, LastSaved(h.before));
      IdentitiesGrow(PastOf(h.before, i), h.event, i, LastSaved(h.before));
    }
  }

  /**
   A row whose one-use request was unresolved when a pass began never sends or learns anything again, across any
   number of passes, retries and restarts, and its stored form changes in nothing but its public status.
   */
  lemma {:induction false} UnresolvedRowsStayAlone(h: History, settings: Settings, p: History, manual: set<nat>, i: nat)
    requires Disciplined(h, settings) && IsPrefix(Then(p, Launched(manual)), h) && InOneUse(LastSaved(p), i)
    ensures PastOf(h, i).stuck && i < |LastSaved(h).rows| && SameButStatus(LastSaved(p).rows[i], LastSaved(h).rows[i])
    ensures forall q, e | IsPrefix(Then(q, e), h) && IsPrefix(Then(p, Launched(manual)), q) && OfRow(e) :: e.row != i
  {
    if h != Then(p, Launched(manual)) {
      UnresolvedRowsStayAlone(h.before, settings, p, manual, i);
      forall q, e | IsPrefix(Then(q, e), h) && IsPrefix(Then(p, Launched(manual)), q) && OfRow(e) ensures e.row != i {
        if Then(q, e) != h { assert IsPrefix(Then(q, e), h.before); }
      }
    } else {
      forall q, e ensures !(IsPrefix(Then(q, e), h) && IsPrefix(h, q)) { NothingBeyond(h, q, e); }
    }
  }

  function Length(h: History): nat {
    if h.Begin? then 0 else Length(h.before) + 1
  }

  lemma {:induction false} PrefixShorter(p: History, h: History)
    requires IsPrefix(p, h)
    ensures Length(p) <= Length(h)
  {
    if p != h { PrefixShorter(p, h.before); }
  }

  /** No event of a history comes after all of it. */
  lemma NothingBeyond(h: History, q: History, e: Event)
    ensures !(IsPrefix(Then(q, e), h) && IsPrefix(h, q))
  {
    if IsPrefix(Then(q, e), h) { PrefixShorter(Then(q, e), h); }
    if IsPrefix(h, q) { PrefixShorter(h, q); }
  }

  /** The phase that must be durable before a request leaves. */
  predicate AnnouncedBy(e: Event, phase: Phase) {
    match e
    case RefreshSent(_, _) => phase.Refreshing?
    case ExchangeSent(_) => phase.Exchanging?
    case PauseSent(_, _) => phase.Isolating? || phase.Creating? || phase.Updating?
    case CreateSent(_, _) => phase.Creating?
    case GroupsCleared(_, _) => phase.Creating?
    case UpdateSent(_, _, _) => phase.Updating?
    case ConfigureSent(_, _, _) => phase.Configuring?
    case ClearErrorSent(_, _) => phase.Promoting?
    case EnableSent(_, _, _) => phase.Promoting?
    case _ => true
  }

  /**
   At the moment any request left, the stored record already announced it, and no one-use request of the row
   was unresolved: after a crash the record tells what may have been sent.
   */
  lemma {:induction false} RequestsAreAnnounced(h: History, settings: Settings, p: History, e: Event)
    requires Disciplined(h, settings) && IsPrefix(Then(p, e), h)
    requires WritesSite(e) || e.RefreshSent? || e.ExchangeSent?
    ensures e.row < |LastSaved(p).rows| && AnnouncedBy(e, LastSaved(p).rows[e.row].phase)
    ensures !PastOf(p, e.row).asking.open
  {
    EveryEventAdmissible(h, settings, p, e);
    NeverAskedIsClosed(p, e.row);
  }

  /** No request before the enable itself ever asks the site to schedule an account. */
  lemma {:induction false} BodiesStayOff(h: History, settings: Settings, p: History, e: Event)
    requires Disciplined(h, settings) && IsPrefix(Then(p, e), h)
    requires e.CreateSent? || e.UpdateSent? || e.ConfigureSent?
    ensures SwitchedOff(e.body)
  {
    EveryEventAdmissible(h, settings, p, e);
  }

  /**
   What is imported holds credentials of an identity that an official signature named for this row, and the tokens of
   the last answer to a one-use request of the row, if there was any.
   */
  lemma {:induction false} ImportsCarryIssuedTokens(h: History, settings: Settings, p: History, e: Event)
    returns (credentials: Fields, verified: History, answered: History)
    requires Disciplined(h, settings) && IsPrefix(Then(p, e), h) && (e.CreateSent? || e.UpdateSent?)
    ensures Get(e.body, Credentials) == Object(credentials) || (Get(e.body, Credentials) == Null && credentials == map[])
    ensures IsPrefix(Then(verified, IdentityVerified(e.row, CredentialIdentity(credentials))), p)
    ensures
      var answer := PastOf(p, e.row).asking.answer;
      answer.Some? ==>
        && IsPrefix(Then(answered, TokensReceived(e.row, answer.value)), p)
        && TextOf(Get(credentials, AccessToken)) == Trim(answer.value.access)
        && TextOf(Get(credentials, RefreshToken)) == Trim(answer.value.refresh)
  {
    EveryEventAdmissible(h, settings, p, e);
    var row := LastSaved(p).rows[e.row];
    credentials := FieldsOf(Get(row.payload.value, Credentials));
    verified := VerificationOf(p, e.row, row.tokens.identity);
    answered := p;
    if PastOf(p, e.row).asking.answer.Some? { answered := AnswerOf(p, e.row); }
  }

  lemma {:induction false} VerificationOf(h: History, i: nat, who: Identity) returns (q: History)
    requires who in PastOf(h, i).known.own
    ensures IsPrefix(Then(q, IdentityVerified(i, who)), h)
  {
    hide After;
    IdentitiesGrow(PastOf(h.before, i), h.event, i, LastSaved(h.before));
    if h.event == IdentityVerified(i, who) { q := h.before; } else { q := VerificationOf(h.before, i, who); }
  }

  lemma {:induction false} AnswerOf(h: History, i: nat) returns (q: History)
    requires PastOf(h, i).asking.answer.Some?
    ensures IsPrefix(Then(q, TokensReceived(i, PastOf(h, i).asking.answer.value)), h)
  {
    if h.event.TokensReceived? && h.event.row == i { q := h.before; } else { q := AnswerOf(h.before, i); }
  }

  /** An account is created only when the site, as last listed, shows none of the row's identity. */
  lemma {:induction false} CreatesFindNone(h: History, settings: Settings, p: History, i: nat, body: Fields)
    returns (q: History, accounts: seq<Fields>)
    requires Disciplined(h, settings) && IsPrefix(Then(p, CreateSent(i, body)), h)
    ensures IsPrefix(Then(q, AccountsListed(accounts)), p) && i < |LastSaved(p).rows|
    ensures forall account | account in accounts :: !SameAccountIdentity(account, LastSaved(p).rows[i].tokens.identity)
  {
    EveryEventAdmissible(h, settings, p, CreateSent(i, body));
    accounts := LastListing(p).value;
    q := ListingOf(p);
  }

  lemma {:induction false} ListingOf(h: History) returns (q: History)
    requires LastListing(h).Some?
    ensures IsPrefix(Then(q, AccountsListed(LastListing(h).value)), h)
  {
    if h.event.AccountsListed? { q := h.before; } else { q := ListingOf(h.before); }
  }

  /** An account is only switched off by request after it was read as not off, since when nothing was written to it. */
  lemma {:induction false} PausesAreNeeded(h: History, settings: Settings, p: History, i: nat, id: string)
    requires Disciplined(h, settings) && IsPrefix(Then(p, PauseSent(i, id)), h)
    ensures MayPause(LastSaved(p), i) && LastSeen(p, id).Some? && !SwitchedOff(LastSeen(p, id).value)
  {
    EveryEventAdmissible(h, settings, p, PauseSent(i, id));
  }

  /** The body has the key exactly if the export has it, with the same value. */
  predicate Carries(body: Fields, payload: Fields, key: Key) {
    (key in body <==> key in payload) && (key in payload ==> body[key] == payload[key])
  }

  /**
   Creates, updates and configurations carry what the row's stored export says, and nothing else: key by key, but for
   the switch, the status, the groups of a new account, and the parts that a configuration leaves alone.
   */
  lemma {:induction false} BodiesAreOfTheExport(h: History, settings: Settings, p: History, e: Event)
    requires Disciplined(h, settings) && IsPrefix(Then(p, e), h)
    requires e.CreateSent? || e.UpdateSent? || e.ConfigureSent?
    ensures e.row < |LastSaved(p).rows| && LastSaved(p).rows[e.row].payload.Some?
    ensures
      var payload := LastSaved(p).rows[e.row].payload.value;
      && (forall key | key !in {Status, Schedulable, GroupIds, SkipDefaultGroupBind, Credentials, Platform, AccountType} ::
            Carries(e.body, payload, key))
      && Get(e.body, Schedulable) == Bool(false)
      && Get(e.body, Status) == Text(if e.ConfigureSent? then "active" else "inactive", Plain)
      && (forall key | key in {Credentials, Platform, AccountType} ::
            if e.ConfigureSent? then key !in e.body else Carries(e.body, payload, key))
      && if e.CreateSent? then Get(e.body, GroupIds) == List([]) && Get(e.body, SkipDefaultGroupBind) == Bool(true)
         else Carries(e.body, payload, GroupIds) && Carries(e.body, payload, SkipDefaultGroupBind)
  {
    hide *;
    EveryEventAdmissible(h, settings, p, e);
    BodyIsOfTheExport(p, settings, e);
    BodiesCarry(LastSaved(p).rows[e.row].payload.value);
  }

  lemma BodyIsOfTheExport(p: History, settings: Settings, e: Event)
    requires Admissible(p, settings, e) && (e.CreateSent? || e.UpdateSent? || e.ConfigureSent?)
    ensures e.row < |LastSaved(p).rows| && LastSaved(p).rows[e.row].payload.Some?
    ensures
      var payload := LastSaved(p).rows[e.row].payload.value;
      e.body ==
        if e.CreateSent? then CreateBody(payload)
        else if e.UpdateSent? then UpdateBody(payload) else FinalBody(payload, false)
  {
    hide PastOf, LastSaved, LastSeen, MayApply, SeenIsolated, CreateBody, UpdateBody, FinalBody;
  }

  lemma BodiesCarry(payload: Fields)
    ensures forall key | key !in {Status, Schedulable} :: Carries(UpdateBody(payload), payload, key)
    ensures forall key | key !in {Status, Schedulable, GroupIds, SkipDefaultGroupBind} ::
      Carries(CreateBody(payload), payload, key)
    ensures forall key | key !in {Status, Schedulable, Credentials, Platform, AccountType} ::
      Carries(FinalBody(payload, false), payload, key)
    ensures forall key | key in {Credentials, Platform, AccountType} :: key !in FinalBody(payload, false)
    ensures Get(CreateBody(payload), GroupIds) == List([]) && Get(CreateBody(payload), SkipDefaultGroupBind) == Bool(true)
    ensures forall body | body in {CreateBody(payload), UpdateBody(payload)} ::
      Get(body, Schedulable) == Bool(false) && Get(body, Status) == Text("inactive", Plain)
    ensures
      Get(FinalBody(payload, false), Schedulable) == Bool(false)
      && Get(FinalBody(payload, false), Status) == Text("active", Plain)
  {
  }

  /** Something the row asked for and has not received is still outstanding, or the answer lies in between. */
  lemma {:induction false} AnswerInBetween(p: History, ask: Event, later: History, i: nat)
    returns (q: History, tokens: Tokens)
    requires AsksTokens(ask, i) && IsPrefix(Then(p, ask), later) && !PastOf(later, i).asking.open
    ensures IsPrefix(Then(p, ask), q) && IsPrefix(Then(q, TokensReceived(i, tokens)), later)
    ensures PastOf(later, i).asking.answer == Some(tokens)
  {
    if later.event.TokensReceived? && later.event.row == i {
      q, tokens := later.before, later.event.tokens;
    } else {
      q, tokens := AnswerInBetween(p, ask, later.before, i);
    }
  }

  /** The answer to the first of two one-use requests of a row came before the second. */
  lemma AnsweredBeforeAskingAgain(
    h: History, settings: Settings, i: nat, p: History, first: Event, later: History, second: Event)
    returns (q: History, tokens: Tokens)
    requires Disciplined(h, settings) && IsPrefix(Then(later, second), h) && IsPrefix(Then(p, first), later)
    requires AsksTokens(first, i) && AsksTokens(second, i)
    ensures IsPrefix(Then(p, first), q) && IsPrefix(Then(q, TokensReceived(i, tokens)), later)
    ensures PastOf(later, i).asking.answer == Some(tokens)
  {
    EveryEventAdmissible(h, settings, later, second);
    NeverAskedIsClosed(later, i);
    q, tokens := AnswerInBetween(p, first, later, i);
  }

  /** The second is a refresh with exactly the token of the last answer, which the stored record already held. */
  lemma SecondRequestUsesNewToken(
    h: History, settings: Settings, i: nat, p: History, first: Event, later: History, second: Event)
    requires Disciplined(h, settings) && IsPrefix(Then(later, second), h) && IsPrefix(Then(p, first), later)
    requires AsksTokens(first, i) && AsksTokens(second, i)
    ensures second.RefreshSent? && PastOf(later, i).asking.answer.Some?
    ensures second.token == PastOf(later, i).asking.answer.value.refresh
    ensures InPhase(LastSaved(later), i, Refreshing) && LastSaved(later).rows[i].tokens.refresh == second.token
  {
    EveryEventAdmissible(h, settings, later, second);
    AskedLasts(Then(p, first), later, i);
    var q, tokens := AnswerInBetween(p, first, later, i);
  }

  lemma {:induction false} ConfirmationOf(h: History, settings: Settings, i: nat, version: Version)
    returns (q: History, account: Fields)
    requires Disciplined(h, settings) && version in PastOf(h, i).readbacks.versions
    ensures IsPrefix(Then(q, Confirmed(i, AsConfigured, account)), h) && AccountVersion(account) == version
    ensures AdmissibleConfirmation(q, i, AsConfigured, account)
  {
    hide SentAfter, AskingAfter, PassAfter, AdmissibleConfirmation, AdmissibleEnable, MayApply, SeenIsolated, LastSeen;
    hide DoneEarned, LeavesStuck, AccountVersion;
    if h.event.Confirmed? && h.event.row == i && h.event.stage.AsConfigured?
       && AccountVersion(h.event.account) == version {
      q, account := h.before, h.event.account;
    } else {
      q, account := ConfirmationOf(h.before, settings, i, version);
    }
  }

  /** What was seen last was read from the site, and nothing was written to the account since. */
  lemma {:induction false} ReadOf(h: History, id: string) returns (q: History)
    requires LastSeen(h, id).Some?
    ensures IsPrefix(Then(q, AccountRead(id, LastSeen(h, id).value)), h)
    ensures forall r, e | IsPrefix(Then(r, e), h) && IsPrefix(Then(q, AccountRead(id, LastSeen(h, id).value)), r) ::
      !WritesAccount(e, id)
  {
    if h.event.AccountRead? && h.event.id == id {
      q := h.before;
      forall r, e ensures !(IsPrefix(Then(r, e), h) && IsPrefix(h, r)) { NothingBeyond(h, r, e); }
    } else {
      q := ReadOf(h.before, id);
      forall r, e | IsPrefix(Then(r, e), h) && IsPrefix(Then(q, AccountRead(id, LastSeen(h, id).value)), r)
        ensures !WritesAccount(e, id)
      {
        if Then(r, e) != h { assert IsPrefix(Then(r, e), h.before); }
      }
    }
  }

  /**
   An account is overwritten only after a read that showed it switched off and of the row's identity, nothing having
   been written to it since; a final configuration, moreover, only in the recorded version.
   */
  lemma {:induction false} OverwritesAreGuarded(h: History, settings: Settings, p: History, e: Event)
    returns (q: History, seen: Fields)
    requires Disciplined(h, settings) && IsPrefix(Then(p, e), h) && (e.UpdateSent? || e.ConfigureSent?)
    ensures IsPrefix(Then(q, AccountRead(e.id, seen)), p)
    ensures forall r, w | IsPrefix(Then(r, w), p) && IsPrefix(Then(q, AccountRead(e.id, seen)), r) ::
      !WritesAccount(w, e.id)
    ensures SwitchedOff(seen) && e.row < |LastSaved(p).rows|
    ensures SameAccountIdentity(seen, LastSaved(p).rows[e.row].tokens.identity)
    ensures e.ConfigureSent? ==> MayApply(LastSaved(p), e.row, seen)
  {
    EveryEventAdmissible(h, settings, p, e);
    seen := LastSeen(p, e.id).value;
    q := ReadOf(p, e.id);
  }

  /**
   Scheduling is switched on only for an account the site last showed switched off, with the row's own identity and
   the recorded version, nothing but the request that clears its old error having been sent for it since; after the
   row was stored as configured, and through the check gate.
   */
  lemma {:induction false} EnablesAreGuarded(h: History, settings: Settings, p: History, e: Event) returns (q: History)
    requires Disciplined(h, settings) && IsPrefix(Then(p, e), h) && e.EnableSent?
    ensures IsPrefix(Then(q, AccountRead(e.id, e.seen)), p)
    ensures forall r, w | IsPrefix(Then(r, w), p) && IsPrefix(Then(q, AccountRead(e.id, e.seen)), r) ::
      !WritesAccount(w, e.id)
    ensures SwitchedOff(e.seen) && PastOf(p, e.row).configured && Gate(p, settings, e.row)
    ensures InPhase(LastSaved(p), e.row, Promoting) && MayApply(LastSaved(p), e.row, e.seen)
    ensures SameAccountIdentity(e.seen, LastSaved(p).rows[e.row].tokens.identity)
    ensures p.Then? && p.event == ClearErrorSent(e.row, e.id)
  {
    EveryEventAdmissible(h, settings, p, e);
    q := ReadOf(p, e.id);
  }

  /**
   Unless another row shares its identity, the account enabled agrees, on every field a version pins, with one that was
   read from the site showing the final configuration, and the models, of the export that the row's record then held.
   */
  lemma {:induction false} EnabledAsConfirmed(h: History, settings: Settings, p: History, e: Event)
    returns (q: History, account: Fields)
    requires Disciplined(h, settings) && IsPrefix(Then(p, e), h) && e.EnableSent? && !PastOf(p, e.row).known.shared
    ensures IsPrefix(Then(q, Confirmed(e.row, AsConfigured, account)), p)
    ensures LastSeen(q, TextOf(Get(account, Id))) == Some(account)
    ensures e.row < |LastSaved(q).rows| && LastSaved(q).rows[e.row].payload.Some?
    ensures ConfiguredAs(account, LastSaved(q).rows[e.row].payload.value, false)
    ensures forall key | key in VERSION_KEYS :: Get(account, key) == Get(e.seen, key)
  {
    hide ConfiguredAs;
    EveryEventAdmissible(h, settings, p, e);
    q, account := ConfirmationOf(p, settings, e.row, AccountVersion(e.seen));
    VersionPins(account, e.seen);
  }

  /**
   A row that a stored record shows as finished, for the first time, had earned it in the pass under way: it is enabled
   wherever that was asked for, as a readback of this pass showed, or else configured, and past the check asked for.
   */
  lemma {:induction false} DoneRowsWereEarned(h: History, settings: Settings, p: History, record: Record, i: nat)
    requires Disciplined(h, settings) && IsPrefix(Then(p, Saved(record)), h) && i < |record.rows|
    requires record.rows[i].status.Done? && !(i < |LastSaved(p).rows| && LastSaved(p).rows[i].status.Done?)
    ensures i < |LastSaved(p).rows| && Earned(PastOf(p, i).pass, settings, i in PassManual(p), record.rows[i].phase)
    ensures PastOf(p, i).pass.enabled ==> PastOf(p, i).pass.found || PastOf(p, i).pass.enables > 0
  {
    EveryEventAdmissible(h, settings, p, Saved(record));
    FoundOrSent(p, i);
  }

  lemma {:induction false} FoundOrSent(h: History, i: nat)
    ensures PastOf(h, i).pass.enabled ==> PastOf(h, i).pass.found || PastOf(h, i).pass.enables > 0
  {
    hide PassedImportCheck;
    if h.Then? { FoundOrSent(h.before, i); }
  }

  /** The readback that showed the account of a finished row enabled belongs to the same pass. */
  lemma {:induction false} EnabledByReadback(h: History, settings: Settings, i: nat)
    returns (q: History, account: Fields)
    requires Disciplined(h, settings) && PastOf(h, i).pass.enabled
    ensures IsPrefix(Then(q, Confirmed(i, AsEnabled, account)), h) && AdmissibleConfirmation(q, i, AsEnabled, account)
    ensures forall r, manual | IsPrefix(Then(r, Launched(manual)), h) :: Length(r) < Length(q)
  {
    hide PassedImportCheck, AdmissibleConfirmation;
    if h.event.Confirmed? && h.event.row == i && h.event.stage.AsEnabled? {
      q, account := h.before, h.event.account;
      forall r, manual | IsPrefix(Then(r, Launched(manual)), h) ensures Length(r) < Length(q) {
        PrefixShorter(Then(r, Launched(manual)), q);
      }
    } else {
      q, account := EnabledByReadback(h.before, settings, i);
      forall r, manual | IsPrefix(Then(r, Launched(manual)), h) ensures Length(r) < Length(q) {
        assert IsPrefix(Then(r, Launched(manual)), h.before);
      }
    }
  }

  /** Whatever a pass sends or learns, it is for a row the operator chose, if any was chosen for it. */
  lemma {:induction false} OnlyChosenRowsAct(h: History, settings: Settings, p: History, e: Event)
    requires Disciplined(h, settings) && IsPrefix(Then(p, e), h) && OfRow(e)
    ensures PassManual(p) != {} ==> e.row in PassManual(p)
  {
    EveryEventAdmissible(h, settings, p, e);
  }

  /** A row an operator enables by hand was under review, checked and imported when the pass began. */
  lemma {:induction false} ManualRowsWereReady(h: History, settings: Settings, i: nat)
    returns (p: History)
    requires Disciplined(h, settings) && i in PassManual(h)
    ensures IsPrefix(Then(p, Launched(PassManual(h))), h)
    ensures i < |LastSaved(p).rows| && ReadyForManual(LastSaved(p).rows[i])
  {
    if h.event.Launched? {
      p := h.before;
    } else {
      p := ManualRowsWereReady(h.before, settings, i);
    }
  }

  // ---- Where at most once ends: rows that share an official identity ----

  /** The row is between passes over its phases, where applyImportedItem may be called for it. */
  predicate Applicable(record: Record, i: nat) {
    i < |record.rows|
    && (record.rows[i].phase.Isolated? || record.rows[i].phase.Configured? || record.rows[i].phase.Completed?)
  }

  /** applyImportedItem has read the account and stores the phase that announces its next request. */
  function Announcing(h: History, record: Record, i: nat, phase: Phase, current: Fields): History
    requires i < |record.rows|
  {
    Then(Then(h, AccountRead(record.rows[i].accountId, current)),
         Saved(WithRow(record, i, record.rows[i].(phase := phase))))
  }

  /** Then it sends the final configuration. */
  function Configuring(h: History, record: Record, i: nat, current: Fields): History
    requires i < |record.rows| && record.rows[i].payload.Some?
  {
    Then(Announcing(h, record, i, Phase.Configuring, current),
         ConfigureSent(i, record.rows[i].accountId, FinalBody(record.rows[i].payload.value, false)))
  }

  /** Or it clears the old error and enables the account. */
  function Enabling(h: History, record: Record, i: nat, current: Fields): History
    requires i < |record.rows|
  {
    var id := record.rows[i].accountId;
    Then(Then(Announcing(h, record, i, Phase.Promoting, current), ClearErrorSent(i, id)), EnableSent(i, id, current))
  }

  /** For some answer of the site the worker, past its guard, sends the row's configuration next. */
  ghost predicate CanConfigure(h: History, settings: Settings, record: Record, i: nat)
    requires i < |record.rows|
  {
    && !record.rows[i].phase.Configured? && record.rows[i].payload.Some?
    && exists current :: MayApply(record, i, current) && Disciplined(Configuring(h, record, i, current), settings)
  }

  /** For some answer of the site the worker, past its guard, enables the row's account next. */
  ghost predicate CanEnable(h: History, settings: Settings, record: Record, i: nat)
    requires i < |record.rows|
  {
    && record.rows[i].phase.Configured?
    && exists current :: MayApply(record, i, current) && Disciplined(Enabling(h, record, i, current), settings)
  }

  /**
   In every reachable state, a configuration that was sent before can be sent again exactly if the row is finished in
   phase but not in its public status, and the recorded version of its account was reopened.
   */
  lemma ConfiguredAgainExactlyIf(h: History, settings: Settings, record: Record, i: nat)
    requires Disciplined(h, settings) && LastSaved(h) == record && RecordInv(record, h) && Applicable(record, i)
    requires PastOf(h, i).sent.configures >= 1
    ensures CanConfigure(h, settings, record, i) <==>
      && record.rows[i].phase.Completed? && !record.rows[i].status.Done? && Reopened(record, i)
      && ActsOn(h, i)
  {
    assert RowInv(record, i, h);
    if CanConfigure(h, settings, record, i) {
      OnlyReopenedGoOn(h, settings, record, i);
    } else if record.rows[i].phase.Completed? && !record.rows[i].status.Done? && Reopened(record, i) && ActsOn(h, i) {
      ReopenedCanGoOn(h, settings, record, i);
    }
  }

  /**
   In every reachable state, an enable that was sent before can be sent again exactly if the row is configured and not
   finished in its public status, its recorded version was reopened, and the check gate lets it through.
   */
  lemma EnabledAgainExactlyIf(h: History, settings: Settings, record: Record, i: nat)
    requires Disciplined(h, settings) && LastSaved(h) == record && RecordInv(record, h) && Applicable(record, i)
    requires PastOf(h, i).sent.enables >= 1
    ensures CanEnable(h, settings, record, i) <==>
      && record.rows[i].phase.Configured? && !record.rows[i].status.Done? && Reopened(record, i)
      && Gate(h, settings, i) && ActsOn(h, i)
  {
    assert RowInv(record, i, h);
    if CanEnable(h, settings, record, i) {
      OnlyReopenedAreEnabled(h, settings, record, i);
    } else if record.rows[i].phase.Configured? && !record.rows[i].status.Done? && Reopened(record, i)
              && Gate(h, settings, i) && ActsOn(h, i) {
      ReopenedCanBeEnabled(h, settings, record, i);
    }
  }

  /** What passes the guard shows the recorded version to be reopened. */
  lemma AppliedIsReopened(record: Record, i: nat, current: Fields)
    requires i < |record.rows| && MayApply(record, i, current)
    ensures Reopened(record, i)
  {
    VersionShows(current);
    VersionKind(current);
  }

  lemma OnlyReopenedGoOn(h: History, settings: Settings, record: Record, i: nat)
    requires i < |record.rows| && RowInv(record, i, h) && Applicable(record, i) && PastOf(h, i).sent.configures >= 1
    requires CanConfigure(h, settings, record, i)
    ensures record.rows[i].phase.Completed? && !record.rows[i].status.Done? && Reopened(record, i) && ActsOn(h, i)
  {
    var current :| MayApply(record, i, current) && Disciplined(Configuring(h, record, i, current), settings);
    AppliedIsReopened(record, i, current);
    ConfiguringIsGuarded(h, settings, record, i, current);
  }

  lemma ConfiguringIsGuarded(h: History, settings: Settings, record: Record, i: nat, current: Fields)
    requires i < |record.rows| && record.rows[i].payload.Some?
    requires Disciplined(Configuring(h, record, i, current), settings)
    ensures !record.rows[i].status.Done? && ActsOn(h, i)
    ensures PastOf(h, i).sent.configures >= 1 ==> AsEnabled in PastOf(h, i).readbacks.stages && PastOf(h, i).known.shared
  {
    AnnouncedPast(h, record, i, Phase.Configuring, current);
    LastWasAdmissible(Announcing(h, record, i, Phase.Configuring, current), settings,
      ConfigureSent(i, record.rows[i].accountId, FinalBody(record.rows[i].payload.value, false)));
    hide Announcing, Disciplined, PastOf, LastSeen, LastSaved, PassManual, MayApply, Reopened, FinalBody;
  }

  lemma OnlyReopenedAreEnabled(h: History, settings: Settings, record: Record, i: nat)
    requires i < |record.rows| && CanEnable(h, settings, record, i)
    ensures record.rows[i].phase.Configured? && !record.rows[i].status.Done? && Reopened(record, i)
    ensures Gate(h, settings, i) && ActsOn(h, i)
  {
    var current :| MayApply(record, i, current) && Disciplined(Enabling(h, record, i, current), settings);
    AppliedIsReopened(record, i, current);
    EnablingIsGuarded(h, settings, record, i, current);
  }

  lemma EnablingIsGuarded(h: History, settings: Settings, record: Record, i: nat, current: Fields)
    requires i < |record.rows| && Disciplined(Enabling(h, record, i, current), settings)
    ensures !record.rows[i].status.Done? && Gate(h, settings, i) && ActsOn(h, i)
  {
    GateStays(h, settings, record, i, current);
    AnnouncedPast(h, record, i, Phase.Promoting, current);
    var id := record.rows[i].accountId;
    var cleared := Then(Announcing(h, record, i, Phase.Promoting, current), ClearErrorSent(i, id));
    assert LastSaved(cleared) == LastSaved(cleared.before);
    LastWasAdmissible(cleared, settings, EnableSent(i, id, current));
    hide Announcing, Disciplined, PastOf, LastSeen, LastSaved, Gate, MayApply;
  }

  lemma LastWasAdmissible(h: History, settings: Settings, e: Event)
    requires Disciplined(Then(h, e), settings)
    ensures Admissible(h, settings, e)
  {
    hide Admissible;
  }

  /** Reading, announcing and clearing an error change nothing that the gate looks at. */
  lemma GateStays(h: History, settings: Settings, record: Record, i: nat, current: Fields)
    requires i < |record.rows|
    ensures Gate(Enabling(h, record, i, current).before, settings, i) <==> Gate(h, settings, i)
    ensures ActsOn(Enabling(h, record, i, current).before, i) <==> ActsOn(h, i)
  {
    hide PassedImportCheck;
    var announced := Announcing(h, record, i, Phase.Promoting, current);
    AnnouncedPast(h, record, i, Phase.Promoting, current);
    assert PassManual(announced) == PassManual(announced.before) == PassManual(h);
    assert PassManual(Enabling(h, record, i, current).before) == PassManual(announced);
    assert PastOf(Enabling(h, record, i, current).before, i).pass == PastOf(announced, i).pass;
  }

  /** A reopened version is what the site may still show. */
  lemma ReopenedMayApply(h: History, record: Record, i: nat) returns (current: Fields)
    requires i < |record.rows| && RecordInv(record, h) && Reopened(record, i)
    requires record.rows[i].phase.Completed? || record.rows[i].phase.Configured?
    ensures MayApply(record, i, current) && TextOf(Get(current, Id)) == record.rows[i].accountId
    ensures !PastOf(h, i).asking.open && !PastOf(h, i).stuck && record.rows[i].payload.Some?
    ensures record.rows[i].phase.Completed? ==> PastOf(h, i).known.shared && AsEnabled in PastOf(h, i).readbacks.stages
    ensures record.rows[i].phase.Configured? && PastOf(h, i).sent.enables >= 1 ==> PastOf(h, i).known.shared
  {
    current := record.versions[record.rows[i].accountId];
    assert RowInv(record, i, h) && AccountVersion(current) == current && MayApply(record, i, current);
    ForeignVersionMeansCollided(record, i, h, current);
  }

  lemma ReopenedCanGoOn(h: History, settings: Settings, record: Record, i: nat)
    requires Disciplined(h, settings) && LastSaved(h) == record && i < |record.rows| && RecordInv(record, h)
    requires record.rows[i].phase.Completed? && !record.rows[i].status.Done? && Reopened(record, i) && ActsOn(h, i)
    ensures CanConfigure(h, settings, record, i)
  {
    var current := ReopenedMayApply(h, record, i);
    hide Disciplined, RecordInv, MayApply, Reopened;
    AnnouncementDisciplined(h, settings, record, i, Phase.Configuring, current);
    RepeatAdmissible(h, settings, record, i, current);
    LastIsDisciplined(Announcing(h, record, i, Phase.Configuring, current), settings,
      ConfigureSent(i, record.rows[i].accountId, FinalBody(record.rows[i].payload.value, false)));
    assert Disciplined(Configuring(h, record, i, current), settings);
  }

  lemma ReopenedCanBeEnabled(h: History, settings: Settings, record: Record, i: nat)
    requires Disciplined(h, settings) && LastSaved(h) == record && i < |record.rows| && RecordInv(record, h)
    requires record.rows[i].phase.Configured? && !record.rows[i].status.Done? && Reopened(record, i)
    requires Gate(h, settings, i) && ActsOn(h, i) && PastOf(h, i).sent.enables >= 1
    ensures CanEnable(h, settings, record, i)
  {
    var id := record.rows[i].accountId;
    var current := ReopenedMayApply(h, record, i);
    SavedMeansConfigured(h, i);
    hide Disciplined, RecordInv, MayApply, Reopened, Gate;
    AnnouncementDisciplined(h, settings, record, i, Phase.Promoting, current);
    EnableAdmissible(h, settings, record, i, current);
    var announced := Announcing(h, record, i, Phase.Promoting, current);
    LastIsDisciplined(announced, settings, ClearErrorSent(i, id));
    LastIsDisciplined(Then(announced, ClearErrorSent(i, id)), settings, EnableSent(i, id, current));
    assert Disciplined(Enabling(h, record, i, current), settings);
  }

  lemma {:induction false} SavedMeansConfigured(h: History, i: nat)
    requires SavedConfigured(LastSaved(h), i)
    ensures PastOf(h, i).configured
  {
    if h.Then? && !h.event.Saved? { SavedMeansConfigured(h.before, i); }
  }

  /** Announcing a phase changes nothing that happened to the row, nor what was seen of its account. */
  lemma AnnouncedPast(h: History, record: Record, i: nat, phase: Phase, current: Fields)
    requires i < |record.rows| && !phase.Configured?
    ensures PastOf(Announcing(h, record, i, phase, current), i) == PastOf(h, i)
    ensures LastSeen(Announcing(h, record, i, phase, current), record.rows[i].accountId) == Some(current)
    ensures LastSaved(Announcing(h, record, i, phase, current)) == WithRow(record, i, record.rows[i].(phase := phase))
    ensures PassManual(Announcing(h, record, i, phase, current)) == PassManual(h)
  {
    var read := Then(h, AccountRead(record.rows[i].accountId, current));
    assert PastOf(read, i) == PastOf(h, i);
  }

  lemma RepeatAdmissible(h: History, settings: Settings, record: Record, i: nat, current: Fields)
    requires i < |record.rows| && !record.rows[i].status.Done? && record.rows[i].payload.Some?
    requires !PastOf(h, i).asking.open && !PastOf(h, i).stuck && PastOf(h, i).known.shared
    requires AsEnabled in PastOf(h, i).readbacks.stages && Reopened(record, i) && MayApply(record, i, current)
    requires ActsOn(h, i)
    ensures Admissible(Announcing(h, record, i, Phase.Configuring, current), settings,
      ConfigureSent(i, record.rows[i].accountId, FinalBody(record.rows[i].payload.value, false)))
  {
    hide SameAccountIdentity, SwitchedOff, AccountVersion, FinalBody;
    AnnouncedPast(h, record, i, Phase.Configuring, current);
    hide PastOf, LastSeen, LastSaved, Announcing, PassManual;
  }

  /** Clearing an error changes nothing that an enable depends on. */
  lemma ClearedPast(h: History, i: nat, id: string)
    ensures PastOf(Then(h, ClearErrorSent(i, id)), i) == PastOf(h, i)
    ensures LastSeen(Then(h, ClearErrorSent(i, id)), id) == LastSeen(h, id)
    ensures LastSaved(Then(h, ClearErrorSent(i, id))) == LastSaved(h)
    ensures PassManual(Then(h, ClearErrorSent(i, id))) == PassManual(h)
  {
  }

  lemma EnableAdmissible(h: History, settings: Settings, record: Record, i: nat, current: Fields)
    requires i < |record.rows| && !record.rows[i].status.Done? && MayApply(record, i, current)
    requires !PastOf(h, i).asking.open && !PastOf(h, i).stuck && PastOf(h, i).known.shared && PastOf(h, i).configured
    requires Gate(h, settings, i) && ActsOn(h, i)
    ensures
      var announced, id := Announcing(h, record, i, Phase.Promoting, current), record.rows[i].accountId;
      && Admissible(announced, settings, ClearErrorSent(i, id))
      && Admissible(Then(announced, ClearErrorSent(i, id)), settings, EnableSent(i, id, current))
  {
    hide SameAccountIdentity, SwitchedOff, AccountVersion, PassedImportCheck;
    hide Announcing, PastOf, PassManual, LastSaved, LastSeen;
    AnnouncedPast(h, record, i, Phase.Promoting, current);
    ClearedPast(Announcing(h, record, i, Phase.Promoting, current), i, record.rows[i].accountId);
  }

  lemma LastIsDisciplined(h: History, settings: Settings, e: Event)
    requires Disciplined(h, settings) && Admissible(h, settings, e)
    ensures Disciplined(Then(h, e), settings)
  {
  }

  lemma AnnouncementDisciplined(h: History, settings: Settings, record: Record, i: nat, phase: Phase, current: Fields)
    requires Disciplined(h, settings) && LastSaved(h) == record && i < |record.rows| && !PastOf(h, i).stuck
    requires TextOf(Get(current, Id)) == record.rows[i].accountId
    ensures Disciplined(Announcing(h, record, i, phase, current), settings)
  {
    var read := Then(h, AccountRead(record.rows[i].accountId, current));
    var announced := WithRow(record, i, record.rows[i].(phase := phase));
    assert LeavesStuck(read, record, announced) && DoneEarned(read, settings, record, announced);
    LastIsDisciplined(h, settings, AccountRead(record.rows[i].accountId, current));
    LastIsDisciplined(read, settings, Saved(announced));
  }

  /** In any state the worker can reach, a finished row is reopened only if another row verified the same identity. */
  lemma ReopenedRowsShareAnIdentity(record: Record, i: nat, h: History)
    requires RecordInv(record, h) && i < |record.rows| && record.rows[i].phase.Completed? && Reopened(record, i)
    ensures record.rows[i].tokens.identity in PastOf(h, i).known.others && PastOf(h, i).known.shared
  {
    assert RowInv(record, i, h);
    SharedMeansCollided(h, i, record.rows[i].tokens.identity);
  }
}
