/** The maintenance attempts of a site and the history of what was saved and sent for them. */
module MaintenanceHistory {
  import opened Common
  import opened Json
  import opened Readback

  datatype Phase =
    | Refreshing | RefreshRejected | Refreshed | Reauthorizing | PendingIdentity | PendingUpload | Uploading
    | Uploaded | Verified | Recovering | Expired

  /** One repair attempt; the serial tells attempts apart that have served one account. */
  datatype Attempt = Attempt(
    serial: nat, phase: Phase, expiresAt: int, identity: Identity, accountVersion: Version, configuration: Version,
    credentialsBefore: Fields, credentials: Option<Fields>, verifiedCredentials: Fields)

  datatype Store = Store(attempts: map<string, Attempt>, checkAfterRepair: bool)

  /** `maintenanceConfiguration`: the version without credentials, status and scheduling. */
  function Configuration(account: Fields): Version {
    AccountVersion(account - {Credentials, Status, Schedulable})
  }

  function CredentialsOf(account: Fields): Fields {
    FieldsOf(Get(account, Credentials))
  }

  /** The credentials an attempt would upload. */
  function UploadedOf(attempt: Attempt): Fields {
    if attempt.credentials.Some? then attempt.credentials.value else map[]
  }

  /** What a check comes to: a failed one may tell that the authorization is at fault. */
  datatype Verdict = Passed | AuthorizationFailed | OtherwiseFailed

  datatype Event =
    | Saved(store: Store)
    | AccountRead(id: string, account: Fields)               // GET of one account
    | ClockRead(now: int)
    | RefreshSent(id: string, serial: nat)                   // POST refresh on the site
    | RefreshRefused(id: string, serial: nat)                // the site answered it with 401
    | ReauthorizeSent(id: string, serial: nat)               // a new login with its one code exchange
    | LoginAnswered(id: string, serial: nat, issued: Fields)   // the credentials that the login issued
    | SignatureChecked(id: string, serial: nat, who: Identity, email: string) // their official signature
    | UploadSent(id: string, serial: nat, body: Fields)      // PUT of the new credentials
    | Checked(id: string, serial: nat, verdict: Verdict)     // the checking service answered
    | Judged(id: string, serial: nat, required: bool, passed: bool) // the repair was found good enough
    | ClearErrorSent(id: string, serial: nat)
    | EnableSent(id: string, serial: nat, seen: Fields)      // POST schedulable=true
    | Recovered(id: string, serial: nat, seen: Fields)       // a readback confirmed the recovery
    | Replaced(id: string, serial: nat, attempt: Attempt, seen: Fields, now: int) // expired, and the credential changed

  datatype History = Begin(store: Store) | Then(before: History, event: Event)

  function LastSaved(h: History): Store {
    match h
    case Begin(store) => store
    case Then(before, event) => if event.Saved? then event.store else LastSaved(before)
  }

  /** An event of one attempt, not of the document, the account or the clock. */
  predicate OfAttempt(e: Event) {
    !e.Saved? && !e.AccountRead? && !e.ClockRead?
  }

  predicate Is(e: Event, id: string, serial: nat) {
    OfAttempt(e) && e.id == id && e.serial == serial
  }

  /** A request to the site or the login. */
  predicate Sends(e: Event) {
    e.RefreshSent? || e.ReauthorizeSent? || e.UploadSent? || e.ClearErrorSent? || e.EnableSent?
  }

  predicate NothingSentSince(h: History, earlier: History) {
    h == earlier || (h.Then? && !Sends(h.event) && NothingSentSince(h.before, earlier))
  }

  lemma {:induction false} NothingSentInAll(h: History, middle: History, earlier: History)
    requires NothingSentSince(h, middle) && NothingSentSince(middle, earlier)
    ensures NothingSentSince(h, earlier)
  {
    if h != middle { NothingSentInAll(h.before, middle, earlier); }
  }

  /** A request that changes the account; the one that clears its old error is not counted. */
  predicate WritesAccount(e: Event, id: string) {
    (e.RefreshSent? || e.UploadSent? || e.EnableSent?) && e.id == id
  }

  /** The account as it was last read, if nothing was written to it since. */
  function LastSeen(h: History, id: string): Option<Fields> {
    if h.Begin? || WritesAccount(h.event, id) then None
    else if h.event.AccountRead? && h.event.id == id then Some(h.event.account)
    else LastSeen(h.before, id)
  }

  function LastClock(h: History): Option<int> {
    if h.Begin? then None else if h.event.ClockRead? then Some(h.event.now) else LastClock(h.before)
  }

  /** The last answer of the check about an attempt, if nothing was written to the account since. */
  function LastCheck(h: History, id: string, serial: nat): Option<Verdict> {
    if h.Begin? || WritesAccount(h.event, id) then None
    else if h.event.Checked? && Is(h.event, id, serial) then Some(h.event.verdict)
    else LastCheck(h.before, id, serial)
  }

  function Refreshes(h: History, id: string, serial: nat): nat {
    if h.Begin? then 0
    else Refreshes(h.before, id, serial) + if h.event.RefreshSent? && Is(h.event, id, serial) then 1 else 0
  }

  function Reauthorizations(h: History, id: string, serial: nat): nat {
    if h.Begin? then 0
    else Reauthorizations(h.before, id, serial) + if h.event.ReauthorizeSent? && Is(h.event, id, serial) then 1 else 0
  }

  function Uploads(h: History, id: string, serial: nat): nat {
    if h.Begin? then 0
    else Uploads(h.before, id, serial) + if h.event.UploadSent? && Is(h.event, id, serial) then 1 else 0
  }

  function Enables(h: History, id: string, serial: nat): nat {
    if h.Begin? then 0
    else Enables(h.before, id, serial) + if h.event.EnableSent? && Is(h.event, id, serial) then 1 else 0
  }

  /** Nothing was ever sent for an attempt of this serial. */
  predicate Untouched(h: History, id: string, serial: nat) {
    Refreshes(h, id, serial) == 0 && Reauthorizations(h, id, serial) == 0
    && Uploads(h, id, serial) == 0 && Enables(h, id, serial) == 0
  }

  /** The attempt ended: its recovery was confirmed, or it expired and the site's credential was replaced. */
  predicate Ended(h: History, id: string, serial: nat) {
    h.Then? && (((h.event.Recovered? || h.event.Replaced?) && Is(h.event, id, serial)) || Ended(h.before, id, serial))
  }

  /** What the repair was last judged on: whether a check was required, and whether one passed. */
  datatype Judgement = Judgement(required: bool, passed: bool)

  function JudgementOf(h: History, id: string, serial: nat): Option<Judgement> {
    if h.Begin? then None
    else if h.event.Judged? && Is(h.event, id, serial) then Some(Judgement(h.event.required, h.event.passed))
    else JudgementOf(h.before, id, serial)
  }

  /** The repair was judged good, by a check that passed. */
  predicate PassedCheck(h: History, id: string, serial: nat) {
    JudgementOf(h, id, serial).Some? && JudgementOf(h, id, serial).value.passed
  }

  /** The repair was judged good with the option off. */
  predicate JudgedUnchecked(h: History, id: string, serial: nat) {
    JudgementOf(h, id, serial).Some? && !JudgementOf(h, id, serial).value.required
  }

  predicate SignatureSeen(h: History, id: string, serial: nat, who: Identity) {
    h.Then?
    && ((h.event.SignatureChecked? && Is(h.event, id, serial) && h.event.who == who)
        || SignatureSeen(h.before, id, serial, who))
  }

  predicate WasRefused(h: History, id: string, serial: nat) {
    h.Then? && ((h.event.RefreshRefused? && Is(h.event, id, serial)) || WasRefused(h.before, id, serial))
  }

  /** The clock, as last read, shows the attempt's time not yet over. */
  predicate InTime(h: History, attempt: Attempt) {
    LastClock(h).Some? && LastClock(h).value < attempt.expiresAt
  }

  /** The stored attempt is in this phase, and its time was not over when the clock was last read. */
  predicate Going(h: History, id: string, serial: nat, phase: Phase) {
    InPhase(LastSaved(h), id, serial, phase) && InTime(h, LastSaved(h).attempts[id])
  }

  /** The credentials the last login of an attempt issued. */
  function IssuedTo(h: History, id: string, serial: nat): Option<Fields> {
    if h.Begin? then None
    else if h.event.LoginAnswered? && Is(h.event, id, serial) then Some(h.event.issued)
    else IssuedTo(h.before, id, serial)
  }

  /** What new credentials are made of: the site's, the issued ones, and what their signature names. */
  datatype Making = Making(site: Fields, issued: Fields, who: Identity, email: string)

  /** At the last signature check of an attempt: the credentials last read from the site, and those the login issued. */
  function MakingOf(h: History, id: string, serial: nat): Option<Making> {
    if h.Begin? then None
    else if h.event.SignatureChecked? && Is(h.event, id, serial) then
      if LastSeen(h.before, id).Some? && IssuedTo(h.before, id, serial).Some? then
        Some(Making(CredentialsOf(LastSeen(h.before, id).value), IssuedTo(h.before, id, serial).value,
                    h.event.who, h.event.email))
      else None
    else MakingOf(h.before, id, serial)
  }

  const EMAIL := Other("email")

  /** Issued fields win over the site's, which are kept otherwise; identity and e-mail are those of the signature. */
  predicate MadeOf(credentials: Fields, making: Making) {
    && Get(credentials, ChatgptAccountId) == Text(making.who.workspace, Plain)
    && Get(credentials, ChatgptUserId) == Text(making.who.user, Plain)
    && Get(credentials, EMAIL) == Text(making.email, Plain)
    && (forall key | key in making.issued && key !in {ChatgptAccountId, ChatgptUserId, EMAIL} ::
          key in credentials && credentials[key] == making.issued[key])
    && (forall key | key in making.site && key !in making.issued && key !in {ChatgptAccountId, ChatgptUserId, EMAIL} ::
          key in credentials && credentials[key] == making.site[key])
    && forall key | key in credentials && key !in {ChatgptAccountId, ChatgptUserId, EMAIL} ::
          key in making.issued || key in making.site
  }

  predicate Repaired(attempt: Attempt) {
    attempt.phase.Verified? || attempt.phase.Recovering?
  }

  /** The option was turned on while the store held this attempt, already found good. */
  predicate TurnedOnLate(h: History, id: string, serial: nat) {
    h.Then?
    && (TurnedOnLate(h.before, id, serial)
        || (h.event.Saved? && h.event.store.checkAfterRepair && !LastSaved(h.before).checkAfterRepair
            && id in h.event.store.attempts && h.event.store.attempts[id].serial == serial
            && Repaired(h.event.store.attempts[id])))
  }

  predicate InPhase(store: Store, id: string, serial: nat, phase: Phase) {
    id in store.attempts && store.attempts[id].serial == serial && store.attempts[id].phase == phase
  }

  /** Every earlier refresh of the account belongs to an attempt that ended. */
  ghost predicate EarlierEnded(h: History, id: string, serial: nat) {
    forall m: nat :: m != serial && Refreshes(h, id, m) > 0 ==> Ended(h, id, m)
  }

  /** Credentials that carry an identity of their own. */
  predicate Stamped(credentials: Fields, who: Identity) {
    && Complete(who) && Trim(who.workspace) == who.workspace && Trim(who.user) == who.user
    && Get(credentials, ChatgptAccountId) == Text(who.workspace, Plain)
    && Get(credentials, ChatgptUserId) == Text(who.user, Plain)
  }

  lemma StampedIdentity(credentials: Fields, who: Identity)
    requires Stamped(credentials, who)
    ensures CredentialIdentity(credentials) == who
  {
  }

  /** A site that shows the stamped credentials applied shows their identity. */
  lemma AppliedIdentity(account: Fields, credentials: Fields, who: Identity)
    requires Stamped(credentials, who) && Applied(account, map[Credentials := Object(credentials)])
    ensures AccountIdentity(account) == who
  {
    var body := map[Credentials := Object(credentials)];
    assert FieldApplied(account, Credentials, body[Credentials]);
    var shown := Get(account, Credentials);
    assert ChatgptAccountId in credentials && ChatgptUserId in credentials;
    assert AppliedValue(Get(FieldsOf(shown), ChatgptAccountId), credentials[ChatgptAccountId]);
    assert AppliedValue(Get(FieldsOf(shown), ChatgptUserId), credentials[ChatgptUserId]);
  }

  /** The account was just read, with the version the stored attempt recorded. */
  predicate SeenAsRecorded(h: History, id: string, attempt: Attempt) {
    LastSeen(h, id).Some? && AccountVersion(LastSeen(h, id).value) == attempt.accountVersion
  }

  /** The account is scheduled and active with the identity and configuration under repair. */
  predicate ShowsRecovery(seen: Fields, attempt: Attempt) {
    && SwitchedOn(seen) && TextOf(Get(seen, Status)) == "active"
    && AccountIdentity(seen) == attempt.identity && Configuration(seen) == attempt.configuration
  }

  /** The last read of the account followed this attempt's own enable. */
  predicate ReadAfterEnable(h: History, id: string, serial: nat) {
    && h.Then? && h.event.AccountRead? && h.event.id == id
    && h.before.Then? && h.before.event.EnableSent? && Is(h.before.event, id, serial)
  }

  ghost predicate Admissible(h: History, e: Event) {
    var saved := LastSaved(h);
    match e
    case Saved(_) => true
    case AccountRead(id, account) => TextOf(Get(account, Id)) == id
    case ClockRead(_) => true
    case RefreshSent(id, n) =>
      && Going(h, id, n, Refreshing) && Refreshes(h, id, n) == 0 && EarlierEnded(h, id, n)
      && Complete(saved.attempts[id].identity)
      && SeenAsRecorded(h, id, saved.attempts[id])
    case RefreshRefused(id, n) => InPhase(saved, id, n, Refreshing) && Refreshes(h, id, n) > 0
    case ReauthorizeSent(id, n) =>
      && Going(h, id, n, Reauthorizing) && Reauthorizations(h, id, n) == 0
      && (WasRefused(h, id, n) || (LastCheck(h, id, n) == Some(AuthorizationFailed) && saved.checkAfterRepair))
    case LoginAnswered(id, n, _) => InPhase(saved, id, n, Reauthorizing) && Reauthorizations(h, id, n) > 0
    case SignatureChecked(id, n, who, _) =>
      Complete(who) && Going(h, id, n, PendingIdentity) && LastSeen(h, id).Some? && IssuedTo(h, id, n).Some?
    case UploadSent(id, n, body) =>
      && Going(h, id, n, Uploading) && Uploads(h, id, n) == 0
      && body == map[Credentials := Object(UploadedOf(saved.attempts[id]))]
      && CredentialIdentity(UploadedOf(saved.attempts[id])) == saved.attempts[id].identity
      && SignatureSeen(h, id, n, saved.attempts[id].identity)
      && MakingOf(h, id, n).Some? && MadeOf(UploadedOf(saved.attempts[id]), MakingOf(h, id, n).value)
      && SeenAsRecorded(h, id, saved.attempts[id])
      && SameAccountIdentity(LastSeen(h, id).value, saved.attempts[id].identity)
      && Configuration(LastSeen(h, id).value) == saved.attempts[id].configuration
    case Checked(id, n, _) =>
      saved.checkAfterRepair && (InPhase(saved, id, n, Refreshed) || InPhase(saved, id, n, Uploaded))
    case Judged(id, n, required, passed) =>
      && (InPhase(saved, id, n, Refreshed) || InPhase(saved, id, n, Uploaded))
      && required == saved.checkAfterRepair && passed == required && (passed ==> LastCheck(h, id, n) == Some(Passed))
    case ClearErrorSent(id, n) => Going(h, id, n, Recovering)
    case EnableSent(id, n, seen) =>
      && Going(h, id, n, Recovering) && Enables(h, id, n) == 0 && JudgementOf(h, id, n).Some?
      && LastSeen(h, id) == Some(seen) && saved.attempts[id].accountVersion == AccountVersion(seen)
      && h.Then? && h.event == ClearErrorSent(id, n)
      && (saved.checkAfterRepair && !TurnedOnLate(h, id, n) ==> PassedCheck(h, id, n))
    case Recovered(id, n, seen) =>
      && InPhase(saved, id, n, Recovering) && LastSeen(h, id) == Some(seen) && ShowsRecovery(seen, saved.attempts[id])
      && (ReadAfterEnable(h, id, n) || CredentialsOf(seen) == saved.attempts[id].verifiedCredentials)
    case Replaced(id, n, attempt, seen, now) =>
      && id in saved.attempts && attempt == saved.attempts[id] && attempt.serial == n
      && LastSeen(h, id) == Some(seen) && LastClock(h) == Some(now) && attempt.expiresAt <= now
      && AccountIdentity(seen) == attempt.identity && CredentialsOf(seen) != attempt.credentialsBefore
  }

  ghost predicate Disciplined(h: History) {
    h.Then? ==> Disciplined(h.before) && Admissible(h.before, h.event)
  }

  // ---- Invariant tying a store to the history ----

  predicate AttemptInv(attempt: Attempt, id: string, check: bool, h: History) {
    var n, phase := attempt.serial, attempt.phase;
    && (phase.Refreshing? || phase.RefreshRejected? || phase.Refreshed? ==> Reauthorizations(h, id, n) == 0)
    && (phase.RefreshRejected? ==> WasRefused(h, id, n))
    && ((phase.Refreshing? || phase.RefreshRejected? || phase.Refreshed? || phase.Reauthorizing?
         || phase.PendingIdentity? || phase.PendingUpload?) ==> Uploads(h, id, n) == 0)
    && (!phase.Recovering? && !phase.Expired? ==> Enables(h, id, n) == 0)
    && (phase.PendingUpload? || phase.Uploading? ==> SignatureSeen(h, id, n, attempt.identity))
    && (attempt.credentials.Some? && phase.PendingIdentity? ==> IssuedTo(h, id, n) == attempt.credentials)
    && (attempt.credentials.Some? && (phase.PendingUpload? || phase.Uploading?) ==>
          MakingOf(h, id, n).Some? && MadeOf(attempt.credentials.value, MakingOf(h, id, n).value))
    && (attempt.credentials.Some? && (phase.PendingUpload? || phase.Uploading?) ==>
          Stamped(attempt.credentials.value, attempt.identity))
    && (Repaired(attempt) ==> JudgementOf(h, id, n).Some? && (check && !TurnedOnLate(h, id, n) ==> PassedCheck(h, id, n)))
  }

  /** A refresh of an attempt that has not ended is the attempt the store still holds. */
  ghost predicate OpenHeld(store: Store, h: History) {
    forall id, m: nat :: Refreshes(h, id, m) > 0 && !Ended(h, id, m) ==>
      id in store.attempts && store.attempts[id].serial == m
  }

  ghost predicate StoreInv(store: Store, h: History, created: nat) {
    && (forall id | id in store.attempts ::
          AttemptInv(store.attempts[id], id, store.checkAfterRepair, h) && store.attempts[id].serial < created)
    && OpenHeld(store, h)
  }

  ghost predicate FutureUntouched(h: History, created: nat) {
    forall id, n: nat | n >= created :: Untouched(h, id, n)
  }

  /** The attempts must show that an event belongs to their present phase. */
  predicate Fits(store: Store, e: Event) {
    match e
    case RefreshSent(id, n) => InPhase(store, id, n, Refreshing)
    case ReauthorizeSent(id, n) => InPhase(store, id, n, Reauthorizing)
    case UploadSent(id, n, _) => InPhase(store, id, n, Uploading)
    case EnableSent(id, n, _) => InPhase(store, id, n, Recovering)
    case LoginAnswered(id, n, _) => InPhase(store, id, n, Reauthorizing)
    case SignatureChecked(id, n, _, _) => InPhase(store, id, n, PendingIdentity)
    case Judged(id, n, _, _) => id in store.attempts && store.attempts[id].serial == n ==> !Repaired(store.attempts[id])
    case _ => true
  }

  lemma EventKeepsStore(store: Store, h: History, created: nat, e: Event)
    requires StoreInv(store, h, created) && Fits(store, e)
    ensures StoreInv(store, Then(h, e), created)
  {
    forall id | id in store.attempts ensures AttemptInv(store.attempts[id], id, store.checkAfterRepair, Then(h, e)) {
      assert AttemptInv(store.attempts[id], id, store.checkAfterRepair, h);
    }
    forall id, m: nat | Refreshes(Then(h, e), id, m) > 0 && !Ended(Then(h, e), id, m)
      ensures id in store.attempts && store.attempts[id].serial == m
    {
      assert (Refreshes(h, id, m) > 0 && !Ended(h, id, m)) || (e.RefreshSent? && Is(e, id, m));
    }
  }

  lemma EventKeepsFuture(h: History, created: nat, e: Event)
    requires FutureUntouched(h, created) && (OfAttempt(e) ==> e.serial < created)
    ensures FutureUntouched(Then(h, e), created)
  {
    forall id, n: nat | n >= created ensures Untouched(Then(h, e), id, n) {
      assert Untouched(h, id, n);
    }
  }

  lemma AttemptKeepsStore(store: Store, h: History, created: nat, id: string, attempt: Attempt)
    requires StoreInv(store, h, created) && AttemptInv(attempt, id, store.checkAfterRepair, h) && attempt.serial < created
    requires id in store.attempts ==> store.attempts[id].serial == attempt.serial
    ensures StoreInv(store.(attempts := store.attempts[id := attempt]), h, created)
  {
  }

  lemma RemovalKeepsStore(store: Store, h: History, created: nat, id: string)
    requires StoreInv(store, h, created) && id in store.attempts && Ended(h, id, store.attempts[id].serial)
    ensures StoreInv(store.(attempts := store.attempts - {id}), h, created)
  {
  }

  // ---- What every disciplined history guarantees ----

  /** Within one attempt every kind of request is sent at most once. */
  lemma {:induction false} OncePerAttempt(h: History, id: string, serial: nat)
    requires Disciplined(h)
    ensures Refreshes(h, id, serial) <= 1 && Reauthorizations(h, id, serial) <= 1
    ensures Uploads(h, id, serial) <= 1 && Enables(h, id, serial) <= 1
  {
    hide MadeOf, MakingOf, IssuedTo, LastSeen, LastCheck, LastClock, JudgementOf, TurnedOnLate, ShowsRecovery, Stamped;
    if h.Then? { OncePerAttempt(h.before, id, serial); }
  }

  predicate IsPrefix(p: History, h: History) {
    p == h || (h.Then? && IsPrefix(p, h.before))
  }

  lemma {:induction false} EveryEventAdmissible(h: History, p: History, e: Event)
    requires Disciplined(h) && IsPrefix(Then(p, e), h)
    ensures Disciplined(p) && Admissible(p, e)
  {
    if h != Then(p, e) { EveryEventAdmissible(h.before, p, e); }
  }

  lemma {:induction false} EndOf(h: History, id: string, serial: nat) returns (q: History, e: Event)
    requires Disciplined(h) && Ended(h, id, serial)
    ensures IsPrefix(Then(q, e), h) && Is(e, id, serial) && Admissible(q, e)
    ensures e.Recovered? || e.Replaced?
  {
    if (h.event.Recovered? || h.event.Replaced?) && Is(h.event, id, serial) {
      q, e := h.before, h.event;
    } else {
      q, e := EndOf(h.before, id, serial);
    }
  }

  lemma {:induction false} SentLasts(p: History, id: string, serial: nat, h: History)
    requires IsPrefix(p, h)
    ensures Refreshes(p, id, serial) <= Refreshes(h, id, serial)
  {
    if p != h { SentLasts(p, id, serial, h.before); }
  }

  /**
   A second attempt refreshes an account only after the first ended: by a readback that showed the recovery, with
   the identity and the configuration under repair; or because the stored attempt had expired and the account, just
   read, held another credential of the same identity.
   */
  lemma NewRefreshNeedsEnd(h: History, id: string, p: History, first: nat, later: History, second: nat)
    returns (q: History, e: Event)
    requires Disciplined(h) && first != second
    requires IsPrefix(Then(later, RefreshSent(id, second)), h) && IsPrefix(Then(p, RefreshSent(id, first)), later)
    ensures IsPrefix(Then(q, e), later) && Is(e, id, first) && (e.Recovered? || e.Replaced?)
    ensures id in LastSaved(q).attempts && LastSaved(q).attempts[id].serial == first && LastSeen(q, id) == Some(e.seen)
    ensures AccountIdentity(e.seen) == LastSaved(q).attempts[id].identity
    ensures e.Recovered? ==>
      && ShowsRecovery(e.seen, LastSaved(q).attempts[id])
      && (ReadAfterEnable(q, id, first) || CredentialsOf(e.seen) == LastSaved(q).attempts[id].verifiedCredentials)
    ensures e.Replaced? ==>
      && CredentialsOf(e.seen) != LastSaved(q).attempts[id].credentialsBefore
      && LastClock(q).Some? && LastSaved(q).attempts[id].expiresAt <= LastClock(q).value
  {
    EveryEventAdmissible(h, later, RefreshSent(id, second));
    SentLasts(Then(p, RefreshSent(id, first)), id, first, later);
    q, e := EndOf(later, id, first);
  }

  /** What was seen last was read from the site, and nothing was written to the account since. */
  lemma {:induction false} ReadOf(h: History, id: string) returns (q: History)
    requires LastSeen(h, id).Some?
    ensures IsPrefix(Then(q, AccountRead(id, LastSeen(h, id).value)), h)
    ensures forall r, e | IsPrefix(Then(r, e), h) && IsPrefix(Then(q, AccountRead(id, LastSeen(h, id).value)), r) ::
      !WritesAccount(e, id)
  {
    if h.event.AccountRead? && h.event.id == id {
      q := h.before;
      forall r, e ensures !(IsPrefix(Then(r, e), h) && IsPrefix(h, r)) { NothingBeyond(h, r, e); }
    } else {
      q := ReadOf(h.before, id);
      forall r, e | IsPrefix(Then(r, e), h) && IsPrefix(Then(q, AccountRead(id, LastSeen(h, id).value)), r)
        ensures !WritesAccount(e, id)
      {
        if Then(r, e) != h { assert IsPrefix(Then(r, e), h.before); }
      }
    }
  }

  function Length(h: History): nat {
    if h.Begin? then 0 else Length(h.before) + 1
  }

  lemma {:induction false} PrefixShorter(p: History, h: History)
    requires IsPrefix(p, h)
    ensures Length(p) <= Length(h)
  {
    if p != h { PrefixShorter(p, h.before); }
  }

  /** No event of a history comes after all of it. */
  lemma NothingBeyond(h: History, q: History, e: Event)
    ensures !(IsPrefix(Then(q, e), h) && IsPrefix(h, q))
  {
    if IsPrefix(Then(q, e), h) { PrefixShorter(Then(q, e), h); }
    if IsPrefix(h, q) { PrefixShorter(h, q); }
  }

  /**
   Scheduling is restored only from a saved `recovering`, after the repair was judged good, for an account that was
   read back with the recorded version, nothing but the request that clears its old error having been sent for it since.
   */
  lemma {:induction false} RecoveryIsGuarded(h: History, p: History, e: Event) returns (q: History)
    requires Disciplined(h) && IsPrefix(Then(p, e), h) && e.EnableSent?
    ensures InPhase(LastSaved(p), e.id, e.serial, Recovering) && JudgementOf(p, e.id, e.serial).Some?
    ensures LastSaved(p).attempts[e.id].accountVersion == AccountVersion(e.seen)
    ensures IsPrefix(Then(q, AccountRead(e.id, e.seen)), p)
    ensures forall r, w | IsPrefix(Then(r, w), p) && IsPrefix(Then(q, AccountRead(e.id, e.seen)), r) ::
      !WritesAccount(w, e.id)
    ensures p.Then? && p.event == ClearErrorSent(e.id, e.serial)
  {
    EveryEventAdmissible(h, p, e);
    q := ReadOf(p, e.id);
  }

  /**
   With the option on, scheduling is restored without a passed check exactly if the option was off when this attempt
   was judged and was turned on over it.
   */
  lemma CheckIsSkippedExactlyIf(h: History, p: History, e: Event)
    requires Disciplined(h) && IsPrefix(Then(p, e), h) && e.EnableSent? && LastSaved(p).checkAfterRepair
    ensures !PassedCheck(p, e.id, e.serial) <==> JudgedUnchecked(p, e.id, e.serial) && TurnedOnLate(p, e.id, e.serial)
  {
    EveryEventAdmissible(h, p, e);
    JudgementsAgree(p, e.id, e.serial);
  }

  /** A repair counts as checked exactly where a check was required. */
  lemma {:induction false} JudgementsAgree(h: History, id: string, serial: nat)
    requires Disciplined(h) && JudgementOf(h, id, serial).Some?
    ensures JudgementOf(h, id, serial).value.passed == JudgementOf(h, id, serial).value.required
  {
    if !(h.event.Judged? && Is(h.event, id, serial)) { JudgementsAgree(h.before, id, serial); }
  }

  /**
   Whether a check was required is what the option said when the attempt was judged, and a required one had passed,
   with nothing written to the account since.
   */
  lemma {:induction false} JudgedByTheOption(h: History, id: string, serial: nat) returns (q: History)
    requires Disciplined(h) && JudgementOf(h, id, serial).Some?
    ensures
      var judgement := JudgementOf(h, id, serial).value;
      && IsPrefix(Then(q, Judged(id, serial, judgement.required, judgement.passed)), h)
      && judgement.required == LastSaved(q).checkAfterRepair
      && (judgement.passed ==> LastCheck(q, id, serial) == Some(Passed))
  {
    if h.event.Judged? && Is(h.event, id, serial) {
      q := h.before;
    } else {
      q := JudgedByTheOption(h.before, id, serial);
    }
  }

  /** Whatever is sent for an attempt is sent while its time is not over, as the clock was last read. */
  lemma {:induction false} RequestsInTime(h: History, p: History, e: Event)
    requires Disciplined(h) && IsPrefix(Then(p, e), h) && Sends(e)
    ensures e.id in LastSaved(p).attempts && LastSaved(p).attempts[e.id].serial == e.serial
    ensures LastClock(p).Some? && LastClock(p).value < LastSaved(p).attempts[e.id].expiresAt
  {
    EveryEventAdmissible(h, p, e);
  }

  /** A new login is made only where the site refused the refresh, or the check asked for says its credentials fail. */
  lemma {:induction false} LoginIsNeeded(h: History, p: History, id: string, serial: nat)
    requires Disciplined(h) && IsPrefix(Then(p, ReauthorizeSent(id, serial)), h)
    ensures
      || WasRefused(p, id, serial)
      || (LastCheck(p, id, serial) == Some(AuthorizationFailed) && LastSaved(p).checkAfterRepair)
  {
    EveryEventAdmissible(h, p, ReauthorizeSent(id, serial));
  }

  lemma {:induction false} LoginOf(h: History, id: string, serial: nat) returns (q: History)
    requires Disciplined(h) && IssuedTo(h, id, serial).Some?
    ensures IsPrefix(Then(q, LoginAnswered(id, serial, IssuedTo(h, id, serial).value)), h)
    ensures Reauthorizations(q, id, serial) > 0
  {
    if h.event.LoginAnswered? && Is(h.event, id, serial) {
      q := h.before;
    } else {
      q := LoginOf(h.before, id, serial);
    }
  }

  lemma {:induction false} CheckOf(h: History, id: string, serial: nat) returns (q: History)
    requires Disciplined(h) && MakingOf(h, id, serial).Some?
    ensures
      var making := MakingOf(h, id, serial).value;
      && IsPrefix(Then(q, SignatureChecked(id, serial, making.who, making.email)), h) && Disciplined(q)
      && LastSeen(q, id).Some? && making.site == CredentialsOf(LastSeen(q, id).value)
      && IssuedTo(q, id, serial) == Some(making.issued)
  {
    if h.event.SignatureChecked? && Is(h.event, id, serial) {
      q := h.before;
    } else {
      q := CheckOf(h.before, id, serial);
    }
  }

  /**
   New credentials are uploaded only when their official signature names the identity under repair. Field by field they
   are what the attempt's login issued, and the site's own where it issued nothing, as the account was last read when
   the signature was checked.
   */
  lemma UploadsAreOfTheAccount(h: History, p: History, e: Event)
    returns (uploaded: Fields, who: Identity, making: Making, login: History, check: History)
    requires Disciplined(h) && IsPrefix(Then(p, e), h) && e.UploadSent?
    ensures e.body == map[Credentials := Object(uploaded)] && CredentialIdentity(uploaded) == who
    ensures SignatureSeen(p, e.id, e.serial, who) && InPhase(LastSaved(p), e.id, e.serial, Uploading)
    ensures LastSaved(p).attempts[e.id].identity == who && MadeOf(uploaded, making)
    ensures IsPrefix(Then(check, SignatureChecked(e.id, e.serial, making.who, making.email)), p)
    ensures LastSeen(check, e.id).Some? && making.site == CredentialsOf(LastSeen(check, e.id).value)
    ensures IsPrefix(Then(login, LoginAnswered(e.id, e.serial, making.issued)), check)
  {
    EveryEventAdmissible(h, p, e);
    uploaded, who := UploadedOf(LastSaved(p).attempts[e.id]), LastSaved(p).attempts[e.id].identity;
    making := MakingOf(p, e.id, e.serial).value;
    check := CheckOf(p, e.id, e.serial);
    login := LoginOf(check, e.id, e.serial);
  }
}
