/**
 Account maintenance (maintenance_repair.go, maintenance_authorize.go, maintenance_lifecycle.go, maintenance.go).

 The site, the login, the checking service, the clock and the document store answer arbitrarily; a crash may strike at any
 save or request, and nothing a dead worker still computes is saved or sent.
 */
module Maintenance {
  import opened Common
  import opened Json
  import opened Readback
  import opened MaintenanceHistory

  /** The outcome of a request: an answer, a refusal with status 401, or anything else. */
  datatype Reply = Answered | Refused | Unknown

  /** Nothing but the attempt of one account differs. */
  ghost predicate OnlyAttempt(before: Store, after: Store, id: string) {
    after == before.(attempts := after.attempts) && after.attempts - {id} == before.attempts - {id}
  }

  /** Past its time an attempt loses its credentials and its phase; nothing else changes. */
  predicate KeptOrExpired(before: Attempt, after: Attempt, now: int) {
    after == before || (before.expiresAt <= now && after == before.(credentials := None, phase := Expired))
  }

  predicate Spent(attempt: Attempt) {
    attempt.phase.Expired? && attempt.credentials.None?
  }

  /** The attempt stays the same one, of the same account as it was found. */
  predicate SameAttempt(before: Store, after: Store, id: string) {
    && id in before.attempts && id in after.attempts && after.attempts[id].serial == before.attempts[id].serial
    && after.attempts[id].identity == before.attempts[id].identity
    && after.attempts[id].configuration == before.attempts[id].configuration
    && after.attempts[id].expiresAt == before.attempts[id].expiresAt
  }

  /** A login or an upload is still needed. */
  predicate Unauthorized(phase: Phase) {
    phase.RefreshRejected? || phase.PendingIdentity? || phase.PendingUpload? || phase.Uploading?
  }

  /** The attempt expired, and the site holds another credential of the same identity. */
  predicate GivesWay(attempt: Attempt, account: Fields, now: int) {
    && attempt.expiresAt <= now && AccountIdentity(account) == attempt.identity
    && CredentialsOf(account) != attempt.credentialsBefore
  }

  class Worker {
    var durable: Store      // the stored document
    var memory: Store       // the worker's copy of it
    var alive: bool         // false from a crash until the next Recover
    var history: History
    var created: nat        // attempts made so far

    ghost predicate Valid()
      reads this
    {
      && durable == LastSaved(history)
      && durable.checkAfterRepair == memory.checkAfterRepair
      && StoreInv(durable, history, created) && StoreInv(memory, history, created)
      && FutureUntouched(history, created)
      && Disciplined(history)
    }

    constructor (checkAfterRepair: bool)
      ensures Valid() && alive && history == Begin(Store(map[], checkAfterRepair)) && durable == memory
    {
      var store := Store(map[], checkAfterRepair);
      durable, memory, alive, history, created := store, store, true, Begin(store), 0;
    }

    lemma AttemptHolds(id: string)
      requires Valid() && id in memory.attempts
      ensures AttemptInv(memory.attempts[id], id, memory.checkAfterRepair, history)
      ensures memory.attempts[id].serial < created
    {
    }

    // ---- The effects, and everything that only reads ----

    method Persist() returns (ok: bool)
      requires Valid()
      modifies this`durable, this`alive, this`history
      ensures Valid() && LastClock(history) == LastClock(old(history))
      ensures ok ==> alive && durable == memory && history == Then(old(history), Saved(memory))
      ensures !ok ==>
        || (durable == old(durable) && history == old(history))
        || (durable == memory && history == Then(old(history), Saved(memory)))
    {
      var takesEffect: bool := *;
      var crashes: bool := *;
      ok := *;
      if !alive { return false; }
      if takesEffect {
        EventKeepsStore(memory, history, created, Saved(memory));
        EventKeepsFuture(history, created, Saved(memory));
        durable, history := memory, Then(history, Saved(memory));
      }
      alive := !crashes;
      ok := ok && takesEffect && alive;
    }

    /** Moves the attempt in memory only. */
    method SetAttempt(id: string, attempt: Attempt)
      requires Valid() && id in memory.attempts && attempt.serial == memory.attempts[id].serial
      requires AttemptInv(attempt, id, memory.checkAfterRepair, history)
      modifies this`memory
      ensures Valid() && memory == old(memory).(attempts := old(memory).attempts[id := attempt])
    {
      AttemptHolds(id);
      AttemptKeepsStore(memory, history, created, id, attempt);
      memory := memory.(attempts := memory.attempts[id := attempt]);
    }

    /** Moves the attempt and saves it. */
    method SaveAttempt(id: string, attempt: Attempt) returns (ok: bool)
      requires Valid() && id in memory.attempts && attempt.serial == memory.attempts[id].serial
      requires AttemptInv(attempt, id, memory.checkAfterRepair, history)
      modifies this`durable, this`memory, this`alive, this`history
      ensures Valid() && memory == old(memory).(attempts := old(memory).attempts[id := attempt])
      ensures LastClock(history) == LastClock(old(history))
      ensures history == old(history) || history == Then(old(history), Saved(memory))
      ensures ok ==> alive && durable == memory
    {
      hide StoreInv, FutureUntouched, Disciplined;
      SetAttempt(id, attempt);
      ok := Persist();
    }

    /** Records what was sent or learned for an attempt. */
    method Record(e: Event)
      requires Valid() && !e.Saved? && (OfAttempt(e) ==> e.serial < created)
      requires Admissible(history, e) && Fits(durable, e) && Fits(memory, e)
      modifies this`history
      ensures Valid() && history == Then(old(history), e)
    {
      hide Admissible, Fits, StoreInv, FutureUntouched;
      EventKeepsStore(memory, history, created, e);
      EventKeepsStore(durable, history, created, e);
      EventKeepsFuture(history, created, e);
      history := Then(history, e);
    }

    /** One request, sent at most once; the authorization checked just before it may withhold it. */
    method Send(e: Event) returns (reply: Reply)
      requires Valid() && alive && OfAttempt(e) && e.serial < created
      requires Admissible(history, e) && Fits(durable, e) && Fits(memory, e)
      modifies this`alive, this`history
      ensures Valid()
      ensures !reply.Unknown? ==> alive && history == Then(old(history), e)
      ensures history == old(history) || history == Then(old(history), e)
    {
      var withheld: bool := *;
      var crashes: bool := *;
      reply := *;
      if !withheld { Record(e); }
      alive := !crashes;
      if withheld || crashes { reply := Unknown; }
    }

    /** Target, revision, management scope, session, proxy and account locks. */
    method Allowed() returns (b: bool) {
      b := *;
    }

    method Now() returns (now: int)
      requires Valid()
      modifies this`history
      ensures Valid() && history == Then(old(history), ClockRead(now))
    {
      now := *;
      Record(ClockRead(now));
    }

    /** GET of one account; the client checks that the answer carries the requested ID. */
    method ReadAccount(id: string) returns (account: Option<Fields>)
      requires Valid()
      modifies this`history
      ensures Valid() && LastClock(history) == LastClock(old(history))
      ensures account.Some? ==>
        && alive && TextOf(Get(account.value, Id)) == id && LastSeen(history, id) == account
        && history == Then(old(history), AccountRead(id, account.value))
      ensures account.None? ==> history == old(history)
    {
      account := *;
      if !(alive && account.Some? && TextOf(Get(account.value, Id)) == id) { return None; }
      Record(AccountRead(id, account.value));
    }

    // ---- maintenance_repair.go ----

    /** One account of a pass; `repaired` is reported only after the recovery was read back. */
    method MaintainAccount(id: string, listed: Fields) returns (repaired: bool, ghost seen: Option<Fields>, ghost now: int)
      requires Valid() && durable == memory
      modifies this`durable, this`memory, this`alive, this`history, this`created
      ensures Valid() && OnlyAttempt(old(memory), memory, id)
      ensures repaired ==> Confirmed(id)
      // Only an account that is read as it was listed, with an identity, is worked on.
      ensures seen.Some? ==> AccountVersion(seen.value) == AccountVersion(listed) && Complete(AccountIdentity(seen.value))
      // An expired attempt of a credential that was replaced since is not gone on with.
      ensures seen.Some? && id in old(memory).attempts && GivesWay(old(memory).attempts[id], seen.value, now) ==>
        id !in memory.attempts || memory.attempts[id].serial != old(memory).attempts[id].serial
      ensures seen.None? ==> memory == old(memory) && durable == old(durable) && NothingSentSince(history, old(history))
    {
      hide StoreInv, FutureUntouched, Disciplined, AttemptInv;
      repaired, seen, now := false, None, 0;
      if id in memory.attempts { AttemptHolds(id); }
      var allowed := Allowed();
      if !allowed { return; }
      var read := ReadAccount(id);
      if read.None? { return; }
      var account := read.value;
      var who := AccountIdentity(account);
      if AccountVersion(account) != AccountVersion(listed) || !Complete(who) { return; }
      seen := Some(account);
      var clock := Now();
      now := clock;
      ForgetReplaced(id, account, clock);
      if id !in memory.attempts {
        var needsRefresh: bool := *;   // the account's condition is an authorization failure
        if !needsRefresh { return; }
        read := Refresh(id, account);
        if read.None? { return; }
        account := read.value;
      }
      var done, _ := Continue(id, account);
      repaired := done;
    }

    /** The recovery of the account was read back, and its attempt dropped. */
    ghost predicate Confirmed(id: string)
      reads this
    {
      id !in memory.attempts && history.Then? && history.event.Recovered? && history.event.id == id
    }

    /** What the store holds of an attempt that is about to be continued. */
    ghost predicate Held(id: string)
      reads this
    {
      id in memory.attempts && (durable == memory || memory.attempts[id].phase.RefreshRejected?)
    }

    /** An expired attempt gives way when the site holds another credential of the same identity. */
    method ForgetReplaced(id: string, account: Fields, now: int)
      requires Valid() && alive && durable == memory
      requires LastSeen(history, id) == Some(account) && LastClock(history) == Some(now)
      modifies this`memory, this`history
      ensures Valid() && OnlyAttempt(old(memory), memory, id) && LastSeen(history, id) == Some(account)
      ensures id in memory.attempts ==> memory == old(memory) && history == old(history)
      ensures id in old(memory).attempts ==> (id !in memory.attempts <==> GivesWay(old(memory).attempts[id], account, now))
    {
      hide FutureUntouched, Disciplined, AttemptInv;
      if id !in memory.attempts { return; }
      var attempt := memory.attempts[id];
      if attempt.expiresAt <= now && AccountIdentity(account) == attempt.identity
         && CredentialsOf(account) != attempt.credentialsBefore {
        Record(Replaced(id, attempt.serial, attempt, account, now));
        Forget(id);
      }
    }

    /** Drops an attempt that ended. */
    method Forget(id: string)
      requires Valid() && id in memory.attempts && Ended(history, id, memory.attempts[id].serial)
      modifies this`memory
      ensures Valid() && memory == old(memory).(attempts := old(memory).attempts - {id})
    {
      RemovalKeepsStore(memory, history, created, id);
      memory := memory.(attempts := memory.attempts - {id});
    }

    /** The new attempt of an account that has none. */
    method NewAttempt(id: string, account: Fields, now: int) returns (n: nat)
      requires Valid() && id !in memory.attempts
      modifies this`memory, this`created
      ensures Valid() && created == old(created) + 1 && n == old(created)
      ensures Untouched(history, id, n)
      ensures memory == old(memory).(attempts := old(memory).attempts[id :=
        Attempt(n, Refreshing, now + 7200, AccountIdentity(account), AccountVersion(account), Configuration(account),
                CredentialsOf(account), None, map[])])
    {
      n := created;
      created := created + 1;
      assert Untouched(history, id, n);
      assert StoreInv(memory, history, created) && StoreInv(durable, history, created);
      var attempt := Attempt(n, Refreshing, now + 7200, AccountIdentity(account), AccountVersion(account),
                             Configuration(account), CredentialsOf(account), None, map[]);
      AttemptKeepsStore(memory, history, created, id, attempt);
      memory := memory.(attempts := memory.attempts[id := attempt]);
    }

    /** The attempt is saved as `refreshing`, the refresh is sent, and the account is read again. */
    method Refresh(id: string, account: Fields) returns (current: Option<Fields>)
      requires Valid() && id !in memory.attempts && LastSeen(history, id) == Some(account)
      requires Complete(AccountIdentity(account))
      modifies this`durable, this`memory, this`alive, this`history, this`created
      ensures Valid() && OnlyAttempt(old(memory), memory, id)
      ensures id in memory.attempts ==> memory.attempts[id].serial == old(created)
      ensures current.Some? ==> alive && Held(id) && LastSeen(history, id) == current
    {
      hide StoreInv, FutureUntouched, Disciplined, AccountVersion, Configuration, CredentialsOf, AccountIdentity;
      var now := Now();
      EarlierAttemptsEnded(id);
      var n := NewAttempt(id, account, now);
      ghost var before := history;
      var saved := Persist();
      if !saved { return None; }
      MayRefresh(before, memory, id, n, account);
      current := SendRefresh(id);
    }

    /** The one refresh of an attempt just stored; without a clear answer only changed credentials count. */
    method SendRefresh(id: string) returns (current: Option<Fields>)
      requires Valid() && alive && durable == memory && id in memory.attempts && memory.attempts[id].phase.Refreshing?
      requires Admissible(history, RefreshSent(id, memory.attempts[id].serial))
      modifies this`memory, this`alive, this`history
      ensures Valid() && OnlyAttempt(old(memory), memory, id)
      ensures id in memory.attempts ==> memory.attempts[id].serial == old(memory).attempts[id].serial
      ensures current.Some? ==>
        && id in memory.attempts
        && (memory.attempts[id].phase.RefreshRejected? <==> WasRefused(history, id, memory.attempts[id].serial))
      ensures current.Some? ==> alive && Held(id) && LastSeen(history, id) == current
    {
      hide StoreInv, FutureUntouched, Disciplined, CredentialsOf, AccountVersion, EarlierEnded;
      AttemptHolds(id);
      NotYetRefused(history, id, memory.attempts[id].serial);
      var reply := Send(RefreshSent(id, memory.attempts[id].serial));
      if reply.Refused? { Record(RefreshRefused(id, memory.attempts[id].serial)); }
      current := ReadAccount(id);
      if current.None? { return; }
      if reply.Refused? {
        AttemptHolds(id);
        SetAttempt(id, memory.attempts[id].(phase := RefreshRejected));
      } else if reply.Unknown? && CredentialsOf(current.value) == memory.attempts[id].credentialsBefore {
        current := None;
      }
    }

    lemma {:induction false} NotYetRefused(h: History, id: string, n: nat)
      requires Disciplined(h) && Refreshes(h, id, n) == 0
      ensures !WasRefused(h, id, n)
    {
      if h.Then? { NotYetRefused(h.before, id, n); }
    }

    /** Stored as `refreshing`, a new attempt of an account just read may send its refresh. */
    lemma MayRefresh(before: History, store: Store, id: string, n: nat, account: Fields)
      requires InPhase(store, id, n, Refreshing) && Untouched(before, id, n) && LastSeen(before, id) == Some(account)
      requires store.attempts[id].accountVersion == AccountVersion(account) && Complete(store.attempts[id].identity)
      requires InTime(before, store.attempts[id])
      requires forall m: nat :: Refreshes(before, id, m) > 0 ==> Ended(before, id, m)
      ensures Admissible(Then(before, Saved(store)), RefreshSent(id, n))
    {
      forall m: nat | Refreshes(Then(before, Saved(store)), id, m) > 0 ensures Ended(Then(before, Saved(store)), id, m) {
        assert Refreshes(before, id, m) > 0;
      }
    }

    /** Without an attempt of the account, every refresh it ever had belongs to an attempt that ended. */
    lemma EarlierAttemptsEnded(id: string)
      requires Valid() && id !in memory.attempts
      ensures forall m: nat :: Refreshes(history, id, m) > 0 ==> Ended(history, id, m)
    {
    }

    /** The phases of one attempt, from wherever the last pass left it. */
    method Continue(id: string, seen: Fields) returns (repaired: bool, ghost now: int)
      requires Valid() && alive && Held(id) && LastSeen(history, id) == Some(seen)
      modifies this`durable, this`memory, this`alive, this`history
      ensures Valid() && OnlyAttempt(old(memory), memory, id)
      ensures repaired <==> Confirmed(id)
      ensures id in memory.attempts ==> memory.attempts[id].serial == old(memory).attempts[id].serial
      // One past its time loses its credentials, and nothing is sent for it.
      ensures old(memory).attempts[id].expiresAt <= now ==>
        && !repaired && NothingSentSince(history, old(history))
        && memory == old(memory).(attempts := old(memory).attempts[id := old(memory).attempts[id].(credentials := None)])
      // A refresh whose credentials did not change, and a recovery, are only looked at.
      ensures old(memory).attempts[id].phase.Recovering? ==> NothingSentSince(history, old(history))
      ensures old(memory).attempts[id].phase.Refreshing? && CredentialsOf(seen) == old(memory).attempts[id].credentialsBefore ==>
        !repaired && NothingSentSince(history, old(history))
    {
      hide StoreInv, FutureUntouched, Disciplined, AccountIdentity, Configuration, CredentialsOf, AccountVersion;
      hide AttemptInv;
      repaired := false;
      var clock := Now();
      now := clock;
      ghost var clocked := history;
      var attempt := memory.attempts[id];
      if attempt.expiresAt <= clock {
        DropCredentials(id);
        return;
      }
      var allowed := Allowed();
      if !allowed { return; }
      if AccountIdentity(seen) != attempt.identity || Configuration(seen) != attempt.configuration { return; }
      if attempt.phase.Refreshing? {
        if CredentialsOf(seen) == attempt.credentialsBefore { return; }
        var ok := SaveRefreshed(id, seen);
        if !ok { return; }
      }
      var account := Authorize(id, seen);
      if account.None? { return; }
      var ok := Verify(id, account.value);
      if !ok { return; }
      repaired := Finish(id, account.value);
      if attempt.phase.Recovering? { NothingSentInAll(history, clocked, old(history)); }
    }

    /** An attempt past its time loses its credentials. */
    method DropCredentials(id: string)
      requires Valid() && id in memory.attempts
      modifies this`memory
      ensures Valid() && memory == old(memory).(attempts := old(memory).attempts[id :=
        old(memory).attempts[id].(credentials := None)])
    {
      hide StoreInv, FutureUntouched, Disciplined;
      AttemptHolds(id);
      SetAttempt(id, memory.attempts[id].(credentials := None));
    }

    method SaveRefreshed(id: string, seen: Fields) returns (ok: bool)
      requires Valid() && id in memory.attempts && memory.attempts[id].phase.Refreshing?
      modifies this`durable, this`memory, this`alive, this`history
      ensures Valid() && memory == old(memory).(attempts := old(memory).attempts[id :=
        old(memory).attempts[id].(phase := Refreshed, accountVersion := AccountVersion(seen))])
      ensures history == old(history) || history == Then(old(history), Saved(memory))
      ensures LastClock(history) == LastClock(old(history))
      ensures ok ==> alive && durable == memory
    {
      hide StoreInv, FutureUntouched, Disciplined;
      AttemptHolds(id);
      ok := SaveAttempt(id, memory.attempts[id].(phase := Refreshed, accountVersion := AccountVersion(seen)));
    }

    /** A rejected refresh is answered by a new login, whose credentials are then uploaded. */
    method Authorize(id: string, seen: Fields) returns (account: Option<Fields>)
      requires Valid() && alive && Held(id) && !memory.attempts[id].phase.Refreshing?
      requires LastSeen(history, id) == Some(seen)
      requires InTime(history, memory.attempts[id])
      requires AccountIdentity(seen) == memory.attempts[id].identity
      modifies this`durable, this`memory, this`alive, this`history
      ensures Valid() && OnlyAttempt(old(memory), memory, id) && SameAttempt(old(memory), memory, id)
      ensures account.Some? ==> alive && durable == memory && !Unauthorized(memory.attempts[id].phase)
      ensures account.Some? ==> InTime(history, memory.attempts[id])
      ensures account.Some? ==> AccountIdentity(account.value) == memory.attempts[id].identity
      ensures !Unauthorized(old(memory).attempts[id].phase) ==>
        account == Some(seen) && memory == old(memory) && history == old(history)
      ensures account.Some? && Unauthorized(old(memory).attempts[id].phase) ==> memory.attempts[id].phase.Uploaded?
    {
      hide StoreInv, FutureUntouched, Disciplined, AttemptInv;
      account := None;
      if memory.attempts[id].phase.RefreshRejected? {
        RejectedWasRefused(id);
        var ok := Reauthorize(id, seen);
        if !ok { return; }
      }
      if memory.attempts[id].phase.PendingIdentity? {
        var ok := VerifyAuthorization(id, seen);
        if !ok { return; }
      }
      if memory.attempts[id].phase.PendingUpload? || memory.attempts[id].phase.Uploading? {
        account := Upload(id);
      } else {
        account := Some(seen);
      }
    }

    lemma RejectedWasRefused(id: string)
      requires Valid() && id in memory.attempts && memory.attempts[id].phase.RefreshRejected?
      ensures MayLogIn(id)
    {
      hide StoreInv, FutureUntouched, Disciplined;
      AttemptHolds(id);
    }

    /** The site refused the refresh, or the check rejected what it brought. */
    ghost predicate MayLogIn(id: string)
      reads this
      requires id in memory.attempts
    {
      var n := memory.attempts[id].serial;
      WasRefused(history, id, n) || (LastCheck(history, id, n) == Some(AuthorizationFailed) && memory.checkAfterRepair)
    }

    /** The repair is checked where the option asks for it; only a good one becomes `verified`. */
    method Verify(id: string, seen: Fields) returns (ok: bool)
      requires Valid() && alive && durable == memory && id in memory.attempts
      requires InTime(history, memory.attempts[id])
      requires memory.attempts[id].phase.Refreshed? ==> LastSeen(history, id) == Some(seen)
      modifies this`durable, this`memory, this`alive, this`history
      ensures Valid() && OnlyAttempt(old(memory), memory, id) && SameAttempt(old(memory), memory, id)
      ensures ok ==> alive && durable == memory && InTime(history, memory.attempts[id])
      ensures !old(memory).attempts[id].phase.Refreshed? && !old(memory).attempts[id].phase.Uploaded? ==>
        ok && memory == old(memory) && history == old(history)
      ensures ok && (old(memory).attempts[id].phase.Refreshed? || old(memory).attempts[id].phase.Uploaded?) ==>
        memory.attempts[id].phase.Verified?
    {
      hide StoreInv, FutureUntouched, Disciplined, AttemptInv;
      if !memory.attempts[id].phase.Refreshed? && !memory.attempts[id].phase.Uploaded? { return true; }
      var account := Some(seen);
      if memory.checkAfterRepair {
        var verdict := Check(id);
        if verdict.None? { return false; }
        if verdict.value != Passed {
          if !memory.attempts[id].phase.Refreshed? || verdict.value != AuthorizationFailed { return false; }
          account := Replace(id, seen);
          if account.None? { return false; }
          verdict := Check(id);
          if verdict != Some(Passed) { return false; }
        }
      }
      ok := SaveVerified(id, account.value);
    }

    /** The checking service answers, or fails to. */
    method Check(id: string) returns (verdict: Option<Verdict>)
      requires Valid() && alive && durable == memory && memory.checkAfterRepair && id in memory.attempts
      requires memory.attempts[id].phase.Refreshed? || memory.attempts[id].phase.Uploaded?
      modifies this`history
      ensures Valid()
      ensures verdict.Some? ==> LastCheck(history, id, memory.attempts[id].serial) == verdict
      ensures LastSeen(history, id) == LastSeen(old(history), id) && LastClock(history) == LastClock(old(history))
    {
      hide StoreInv, FutureUntouched, Disciplined, AttemptInv;
      verdict := *;
      AttemptHolds(id);
      if verdict.Some? { Record(Checked(id, memory.attempts[id].serial, verdict.value)); }
    }

    /** A refreshed credential the check rejects is replaced by a new login. */
    method Replace(id: string, seen: Fields) returns (account: Option<Fields>)
      requires Valid() && alive && id in memory.attempts && memory.attempts[id].phase.Refreshed?
      requires LastSeen(history, id) == Some(seen) && InTime(history, memory.attempts[id]) && MayLogIn(id)
      modifies this`durable, this`memory, this`alive, this`history
      ensures Valid() && OnlyAttempt(old(memory), memory, id) && SameAttempt(old(memory), memory, id)
      ensures account.Some? ==> InTime(history, memory.attempts[id])
      ensures account.Some? ==> alive && durable == memory && memory.attempts[id].phase.Uploaded?
    {
      hide StoreInv, FutureUntouched, Disciplined, AttemptInv;
      account := None;
      var ok := Reauthorize(id, seen);
      if !ok { return; }
      account := Upload(id);
    }

    method SaveVerified(id: string, account: Fields) returns (ok: bool)
      requires Valid() && alive && durable == memory && id in memory.attempts
      requires memory.attempts[id].phase.Refreshed? || memory.attempts[id].phase.Uploaded?
      requires memory.checkAfterRepair ==> LastCheck(history, id, memory.attempts[id].serial) == Some(Passed)
      modifies this`durable, this`memory, this`alive, this`history
      ensures Valid() && OnlyAttempt(old(memory), memory, id) && SameAttempt(old(memory), memory, id)
      ensures LastClock(history) == LastClock(old(history))
      ensures memory.attempts[id].phase.Verified? && (ok ==> alive && durable == memory)
    {
      hide StoreInv, FutureUntouched, Disciplined;
      AttemptHolds(id);
      Record(Judged(id, memory.attempts[id].serial, memory.checkAfterRepair, memory.checkAfterRepair));
      var verified := memory.attempts[id].(
        phase := Verified, accountVersion := AccountVersion(account), verifiedCredentials := CredentialsOf(account));
      AttemptHolds(id);
      ok := SaveAttempt(id, verified);
    }

    /** Restores scheduling from `verified`; an attempt found `recovering` is only read, never sent again. */
    method Finish(id: string, account: Fields) returns (repaired: bool)
      requires Valid() && alive && durable == memory && id in memory.attempts
      requires InTime(history, memory.attempts[id])
      requires AccountIdentity(account) == memory.attempts[id].identity
      requires memory.attempts[id].phase.Recovering? ==>
        LastSeen(history, id) == Some(account) && Configuration(account) == memory.attempts[id].configuration
      modifies this`durable, this`memory, this`alive, this`history
      ensures Valid() && OnlyAttempt(old(memory), memory, id)
      ensures repaired <==> Confirmed(id)
      ensures id in memory.attempts ==> memory.attempts[id].serial == old(memory).attempts[id].serial
      ensures old(memory).attempts[id].phase.Recovering? ==>
        (repaired <==> SwitchedOn(account) && TextOf(Get(account, Status)) == "active"
                       && CredentialsOf(account) == old(memory).attempts[id].verifiedCredentials)
      ensures old(memory).attempts[id].phase.Recovering? ==> NothingSentSince(history, old(history))
      ensures !old(memory).attempts[id].phase.Recovering? && !old(memory).attempts[id].phase.Verified? ==>
        !repaired && memory == old(memory) && history == old(history)
    {
      hide StoreInv, FutureUntouched, Disciplined;
      repaired := false;
      AttemptHolds(id);
      var attempt := memory.attempts[id];
      if attempt.phase.Recovering? {
        if SwitchedOn(account) && TextOf(Get(account, Status)) == "active"
           && CredentialsOf(account) == attempt.verifiedCredentials {
          Record(Recovered(id, attempt.serial, account));
          Forget(id);
          repaired := true;
        }
        return;
      }
      if !attempt.phase.Verified? { return; }
      var current := ReadAccount(id);
      if current.None? || AccountVersion(current.value) != attempt.accountVersion { return; }
      SetAttempt(id, attempt.(phase := Recovering));
      var allowed := Allowed();
      if !allowed { return; }
      var saved := Persist();
      if !saved { return; }
      repaired := SendRecovery(id, account, current.value);
    }

    method SendRecovery(id: string, account: Fields, current: Fields) returns (repaired: bool)
      requires Valid() && alive && durable == memory && id in memory.attempts
      requires memory.attempts[id].phase.Recovering? && memory.attempts[id].accountVersion == AccountVersion(current)
      requires AccountIdentity(account) == memory.attempts[id].identity && LastSeen(history, id) == Some(current)
      requires InTime(history, memory.attempts[id])
      requires Enables(history, id, memory.attempts[id].serial) == 0
      modifies this`memory, this`alive, this`history
      ensures Valid() && OnlyAttempt(old(memory), memory, id)
      ensures repaired <==> Confirmed(id)
      ensures id in memory.attempts ==> memory.attempts[id].serial == old(memory).attempts[id].serial
    {
      hide StoreInv, FutureUntouched, Disciplined;
      hide AccountVersion, Configuration, AccountIdentity, PassedCheck, TurnedOnLate;
      repaired := false;
      AttemptHolds(id);
      var attempt := memory.attempts[id];
      var reply := Send(ClearErrorSent(id, attempt.serial));
      if !reply.Answered? { return; }
      AttemptHolds(id);
      reply := Send(EnableSent(id, attempt.serial, current));
      if !reply.Answered? { return; }
      var last := ReadAccount(id);
      if last.None? || !SwitchedOn(last.value) || TextOf(Get(last.value, Status)) != "active"
         || !SameAccountIdentity(last.value, AccountIdentity(account))
         || Configuration(last.value) != attempt.configuration { return; }
      Record(Recovered(id, attempt.serial, last.value));
      Forget(id);
      repaired := true;
    }

    // ---- maintenance_authorize.go ----

    /** One login, whose single code exchange is announced by `reauthorizing`. */
    method Reauthorize(id: string, account: Fields) returns (ok: bool)
      requires Valid() && alive && id in memory.attempts && LastSeen(history, id) == Some(account)
      requires memory.attempts[id].phase.RefreshRejected? || memory.attempts[id].phase.Refreshed?
      requires InTime(history, memory.attempts[id]) && MayLogIn(id)
      modifies this`durable, this`memory, this`alive, this`history
      ensures Valid() && OnlyAttempt(old(memory), memory, id) && SameAttempt(old(memory), memory, id)
      ensures ok ==> alive && durable == memory && memory.attempts[id].phase.PendingUpload?
      ensures ok ==> InTime(history, memory.attempts[id])
    {
      hide StoreInv, FutureUntouched, Disciplined, AttemptInv;
      ok := false;
      var hasLogin := Allowed();
      if !hasLogin { return; }
      var issued := Login(id, account);
      if issued.None? { return; }
      var kept := KeepIssued(id, issued.value);
      var completed: bool := *;
      if !kept || !completed { return; }
      ok := VerifyAuthorization(id, account);
    }

    /** The login itself; what it issues is kept even if it fails after that. */
    method Login(id: string, account: Fields) returns (issued: Option<Fields>)
      requires Valid() && alive && id in memory.attempts && LastSeen(history, id) == Some(account)
      requires memory.attempts[id].phase.RefreshRejected? || memory.attempts[id].phase.Refreshed?
      requires InTime(history, memory.attempts[id]) && MayLogIn(id)
      modifies this`durable, this`memory, this`alive, this`history
      ensures Valid() && OnlyAttempt(old(memory), memory, id) && SameAttempt(old(memory), memory, id)
      ensures issued.Some? ==>
        && alive && memory.attempts[id].phase.Reauthorizing? && LastSeen(history, id) == Some(account)
        && memory.attempts[id].accountVersion == AccountVersion(account)
        && IssuedTo(history, id, memory.attempts[id].serial) == issued
    {
      hide StoreInv, FutureUntouched, Disciplined;
      AttemptHolds(id);
      var attempt := memory.attempts[id].(phase := Reauthorizing, accountVersion := AccountVersion(account));
      var saved := SaveAttempt(id, attempt);
      if !saved { return None; }
      assert LastSeen(history, id) == Some(account);
      var prepared := Allowed();
      if !prepared { return None; }
      var reply := Send(ReauthorizeSent(id, attempt.serial));
      assert LastSeen(history, id) == Some(account);
      if reply.Answered? {
        issued := *;
        if issued.Some? { Record(LoginAnswered(id, attempt.serial, issued.value)); }
      } else {
        issued := None;
      }
      assert LastSeen(history, id) == Some(account);
      saved := Persist();
      if !saved { return None; }
    }

    /** The issued credentials are stored before anything is done with them. */
    method KeepIssued(id: string, issued: Fields) returns (ok: bool)
      requires Valid() && alive && id in memory.attempts && memory.attempts[id].phase.Reauthorizing?
      requires IssuedTo(history, id, memory.attempts[id].serial) == Some(issued)
      modifies this`durable, this`memory, this`alive, this`history
      ensures Valid() && OnlyAttempt(old(memory), memory, id) && SameAttempt(old(memory), memory, id)
      ensures memory.attempts[id].phase.PendingIdentity? && LastSeen(history, id) == LastSeen(old(history), id)
      ensures ok ==> alive && durable == memory
    {
      hide StoreInv, FutureUntouched, Disciplined;
      AttemptHolds(id);
      ok := SaveAttempt(id, memory.attempts[id].(credentials := Some(issued), phase := PendingIdentity));
    }

    /** New credentials are kept for upload only if their official signature names the identity under repair. */
    method VerifyAuthorization(id: string, account: Fields) returns (ok: bool)
      requires Valid() && alive && durable == memory && id in memory.attempts
      requires memory.attempts[id].phase.PendingIdentity? && LastSeen(history, id) == Some(account)
      modifies this`durable, this`memory, this`alive, this`history
      ensures Valid() && OnlyAttempt(old(memory), memory, id) && SameAttempt(old(memory), memory, id)
      ensures NothingSentSince(history, old(history))
      ensures ok ==> alive && durable == memory && memory.attempts[id].phase.PendingUpload?
      ensures ok ==> InTime(history, memory.attempts[id])
    {
      hide StoreInv, FutureUntouched, Disciplined, AttemptInv, MadeOf;
      ok := false;
      var attempt := memory.attempts[id];
      var now := Now();
      var allowed := Allowed();
      if attempt.expiresAt <= now || !allowed { return; }
      ghost var clocked := history;
      var who, email := CheckSignature(id, account);
      NothingSentInAll(history, clocked, old(history));
      if who != Some(attempt.identity) { return; }
      ghost var checked := history;
      ok := SaveMerged(id, account, email);
      NothingSentInAll(history, checked, old(history));
    }

    /** VerifyCredential: it needs an access token, and names a complete identity. */
    method CheckSignature(id: string, account: Fields) returns (who: Option<Identity>, email: string)
      requires Valid() && alive && durable == memory && id in memory.attempts
      requires memory.attempts[id].phase.PendingIdentity? && LastSeen(history, id) == Some(account)
      requires InTime(history, memory.attempts[id])
      modifies this`history
      ensures Valid() && NothingSentSince(history, old(history)) && LastClock(history) == LastClock(old(history))
      ensures who.Some? ==>
        && Complete(who.value) && Trim(who.value.workspace) == who.value.workspace && Trim(who.value.user) == who.value.user
        && memory.attempts[id].credentials.Some? && SignatureSeen(history, id, memory.attempts[id].serial, who.value)
        && MakingOf(history, id, memory.attempts[id].serial) ==
           Some(Making(CredentialsOf(account), UploadedOf(memory.attempts[id]), who.value, email))
    {
      hide StoreInv, FutureUntouched, Disciplined, Trim;
      AttemptHolds(id);
      who, email := None, *;
      if TextOf(Get(UploadedOf(memory.attempts[id]), AccessToken)) == "" { return; }
      var claims: Option<Identity> := *;   // of a token whose signature is official
      if !claims.Some? { return; }
      var named := Identity(Trim(claims.value.workspace), Trim(claims.value.user));
      if !Complete(named) { return; }
      TrimTwice(claims.value.workspace);
      TrimTwice(claims.value.user);
      Record(SignatureChecked(id, memory.attempts[id].serial, named, email));
      who := Some(named);
    }

    /** The issued credentials are laid over the site's and stored for upload. */
    method SaveMerged(id: string, account: Fields, email: string) returns (ok: bool)
      requires Valid() && id in memory.attempts && memory.attempts[id].phase.PendingIdentity?
      requires var who := memory.attempts[id].identity;
        Complete(who) && Trim(who.workspace) == who.workspace && Trim(who.user) == who.user
      requires SignatureSeen(history, id, memory.attempts[id].serial, memory.attempts[id].identity)
      requires MakingOf(history, id, memory.attempts[id].serial) ==
        Some(Making(CredentialsOf(account), UploadedOf(memory.attempts[id]), memory.attempts[id].identity, email))
      modifies this`durable, this`memory, this`alive, this`history
      ensures Valid() && OnlyAttempt(old(memory), memory, id) && SameAttempt(old(memory), memory, id)
      ensures history == old(history) || history == Then(old(history), Saved(memory))
      ensures ok ==> alive && durable == memory && memory.attempts[id].phase.PendingUpload?
    {
      hide StoreInv, FutureUntouched, Disciplined, Trim, MadeOf, CredentialsOf, Issued;
      var attempt := memory.attempts[id];
      var merged := Issued(CredentialsOf(account), UploadedOf(attempt), attempt.identity, email);
      IssuedIsMade(CredentialsOf(account), UploadedOf(attempt), attempt.identity, email);
      AttemptHolds(id);
      ok := SaveAttempt(id, attempt.(credentials := Some(merged), phase := PendingUpload));
    }

    /** Sends the upload once; an upload found `uploading` is only compared with the site. */
    method Upload(id: string) returns (account: Option<Fields>)
      requires Valid() && alive && id in memory.attempts
      requires memory.attempts[id].phase.PendingUpload? || memory.attempts[id].phase.Uploading?
      modifies this`durable, this`memory, this`alive, this`history
      ensures Valid() && OnlyAttempt(old(memory), memory, id) && SameAttempt(old(memory), memory, id)
      ensures account.Some? ==> alive && durable == memory && memory.attempts[id].phase.Uploaded?
      ensures account.Some? ==> AccountIdentity(account.value) == memory.attempts[id].identity
      ensures account.Some? ==> InTime(history, memory.attempts[id])
      ensures account.Some? && old(memory).attempts[id].phase.PendingUpload? ==>
        Uploads(history, id, memory.attempts[id].serial) == 1
      ensures old(memory).attempts[id].phase.Uploading? ==> NothingSentSince(history, old(history))
    {
      hide StoreInv, FutureUntouched, Disciplined, AttemptInv, AccountIdentity, SameAccountIdentity, Applied;
      hide CredentialIdentity, AccountVersion, Configuration;
      account := None;
      var attempt := memory.attempts[id];
      var now := Now();
      assert NothingSentSince(history, old(history));
      if attempt.expiresAt <= now || UploadedOf(attempt) == map[] { return; }
      var allowed := Allowed();
      if !allowed { return; }
      var current := ReadAccount(id);
      assert NothingSentSince(history, old(history));
      if current.None? || !SameAccountIdentity(current.value, CredentialIdentity(UploadedOf(attempt)))
         || Configuration(current.value) != attempt.configuration { return; }
      var body := map[Credentials := Object(UploadedOf(attempt))];
      if attempt.phase.Uploading? {
        if !Applied(current.value, body) { return; }
      } else {
        if AccountVersion(current.value) != attempt.accountVersion { return; }
        var sourceUnchanged := Allowed();
        if !sourceUnchanged { return; }
        UploadedOwner(id);
        current := SendUpload(id, body);
        if current.None? { return; }
      }
      var kept := Allowed();
      if !kept { return; }
      AttemptHolds(id);
      var ok := SaveUploaded(id, current.value);
      if ok { account := current; }
    }

    lemma UploadedOwner(id: string)
      requires Valid() && id in memory.attempts && UploadedOf(memory.attempts[id]) != map[]
      requires memory.attempts[id].phase.PendingUpload? || memory.attempts[id].phase.Uploading?
      ensures CredentialIdentity(UploadedOf(memory.attempts[id])) == memory.attempts[id].identity
    {
      hide StoreInv, FutureUntouched, Disciplined;
      AttemptHolds(id);
      StampedIdentity(UploadedOf(memory.attempts[id]), memory.attempts[id].identity);
    }

    method SendUpload(id: string, body: Fields) returns (current: Option<Fields>)
      requires Valid() && id in memory.attempts && memory.attempts[id].phase.PendingUpload?
      requires memory.attempts[id].credentials.Some? && body == map[Credentials := Object(UploadedOf(memory.attempts[id]))]
      requires InTime(history, memory.attempts[id])
      requires SeenAsRecorded(history, id, memory.attempts[id])
      requires SameAccountIdentity(LastSeen(history, id).value, memory.attempts[id].identity)
      requires Configuration(LastSeen(history, id).value) == memory.attempts[id].configuration
      modifies this`durable, this`memory, this`alive, this`history
      ensures Valid() && OnlyAttempt(old(memory), memory, id) && SameAttempt(old(memory), memory, id)
      ensures memory.attempts[id].phase.Uploading? && LastClock(history) == LastClock(old(history))
      ensures UploadedOf(memory.attempts[id]) == UploadedOf(old(memory).attempts[id])
      ensures current.Some? ==> alive && Applied(current.value, body) && TextOf(Get(current.value, Id)) == id
      ensures current.Some? ==> Uploads(history, id, memory.attempts[id].serial) == 1
    {
      hide StoreInv, FutureUntouched, Disciplined, Applied, MadeOf, MakingOf, SignatureSeen, SameAccountIdentity;
      hide AccountVersion, Configuration, JudgementOf, TurnedOnLate, IssuedTo;
      current := None;
      AttemptHolds(id);
      var attempt := memory.attempts[id].(phase := Uploading);
      var saved := SaveAttempt(id, attempt);
      if !saved { return; }
      AttemptHolds(id);
      StampedIdentity(attempt.credentials.value, attempt.identity);
      var reply := Send(UploadSent(id, attempt.serial, body));
      if !reply.Answered? { return; }
      current := ReadAccount(id);
      if current.Some? && !Applied(current.value, body) { current := None; }
    }

    method SaveUploaded(id: string, current: Fields) returns (ok: bool)
      requires Valid() && id in memory.attempts && memory.attempts[id].phase.Uploading?
      requires UploadedOf(memory.attempts[id]) != map[]
      requires Applied(current, map[Credentials := Object(UploadedOf(memory.attempts[id]))])
      modifies this`durable, this`memory, this`alive, this`history
      ensures Valid() && OnlyAttempt(old(memory), memory, id) && SameAttempt(old(memory), memory, id)
      ensures memory.attempts[id].phase.Uploaded? && AccountIdentity(current) == memory.attempts[id].identity
      ensures history == old(history) || history == Then(old(history), Saved(memory))
      ensures ok ==> alive && durable == memory
    {
      hide StoreInv, FutureUntouched, Disciplined, Applied, AccountIdentity;
      AttemptHolds(id);
      AppliedIdentity(current, UploadedOf(memory.attempts[id]), memory.attempts[id].identity);
      ok := SaveAttempt(id, memory.attempts[id].(
        accountVersion := AccountVersion(current), phase := Uploaded, credentials := None));
    }

    // ---- Passes, settings, expiry, restart ----

    /** A worker's copy starts from the stored document. */
    method Load()
      requires Valid()
      modifies this`memory
      ensures Valid() && memory == durable
    {
      memory := durable;
    }

    /** A pass over the accounts the site lists; it stops at the first save that fails. */
    method Pass(listed: seq<Fields>)
      requires Valid()
      modifies this`durable, this`memory, this`alive, this`history, this`created
      ensures Valid()
    {
      hide StoreInv, FutureUntouched, Disciplined, AttemptInv;
      Load();
      var launched := Persist();
      if !launched { return; }
      for k := 0 to |listed|
        invariant Valid() && durable == memory
      {
        var eligible := Allowed();
        if !eligible { continue; }
        var repaired, _, _ := MaintainAccount(TextOf(Get(listed[k], Id)), listed[k]);
        var saved := Persist();
        if !saved { break; }
      }
      var saved := Persist();
    }

    /** New settings keep every attempt. */
    method Configure(checkAfterRepair: bool)
      requires Valid() && alive
      modifies this`durable, this`memory, this`alive, this`history
      ensures Valid() && durable.attempts == old(durable).attempts && memory == durable
      ensures durable == old(durable) || durable.checkAfterRepair == checkAfterRepair
    {
      Load();
      var takesEffect: bool := *;
      if takesEffect {
        var next := durable.(checkAfterRepair := checkAfterRepair);
        ghost var earlier := durable;
        EventKeepsStore(durable, history, created, Saved(next));
        EventKeepsFuture(history, created, Saved(next));
        forall id | id in next.attempts
          ensures AttemptInv(next.attempts[id], id, next.checkAfterRepair, Then(history, Saved(next)))
        {
          assert AttemptInv(earlier.attempts[id], id, earlier.checkAfterRepair, Then(history, Saved(next)));
          assert AttemptInv(earlier.attempts[id], id, earlier.checkAfterRepair, history);
        }
        durable, memory, history := next, next, Then(history, Saved(next));
      }
      var crashes: bool := *;
      alive := !crashes;
    }

    method Expire(id: string)
      requires Valid() && id in memory.attempts
      modifies this`memory
      ensures Valid() && memory == old(memory).(attempts := old(memory).attempts[id :=
        old(memory).attempts[id].(credentials := None, phase := Expired)])
    {
      hide StoreInv, FutureUntouched, Disciplined;
      AttemptHolds(id);
      SetAttempt(id, memory.attempts[id].(credentials := None, phase := Expired));
    }

    method ExpireAll(now: int, ids: seq<string>)
      requires Valid()
      modifies this`memory
      ensures Valid() && memory.attempts.Keys == old(memory).attempts.Keys
      ensures forall id | id in memory.attempts :: KeptOrExpired(old(memory).attempts[id], memory.attempts[id], now)
      ensures forall id | id in ids && id in memory.attempts && memory.attempts[id].expiresAt <= now ::
        Spent(memory.attempts[id])
    {
      hide Valid, StoreInv, FutureUntouched, Disciplined, AttemptInv;
      for k := 0 to |ids|
        invariant Valid() && memory.attempts.Keys == old(memory).attempts.Keys
        invariant forall id | id in memory.attempts :: KeptOrExpired(old(memory).attempts[id], memory.attempts[id], now)
        invariant forall j | 0 <= j < k && ids[j] in memory.attempts && memory.attempts[ids[j]].expiresAt <= now ::
          Spent(memory.attempts[ids[j]])
      {
        if ids[k] in memory.attempts && memory.attempts[ids[k]].expiresAt <= now { Expire(ids[k]); }
      }
    }

    /** Attempts past their time lose their credentials and can only end. */
    method Cleanup(now: int, ids: seq<string>)
      requires Valid() && alive
      modifies this`durable, this`memory, this`alive, this`history
      ensures Valid() && memory.attempts.Keys == old(durable).attempts.Keys
      ensures forall id | id in memory.attempts :: KeptOrExpired(old(durable).attempts[id], memory.attempts[id], now)
      ensures forall id | id in ids && id in memory.attempts && memory.attempts[id].expiresAt <= now ::
        Spent(memory.attempts[id])
      ensures history == old(history) || history == Then(old(history), Saved(memory))
    {
      hide StoreInv, FutureUntouched, Disciplined, AttemptInv, KeptOrExpired, Spent;
      Load();
      ExpireAll(now, ids);
      var saved := Persist();
    }

    /** The restarted service works from the stored document. */
    method Recover()
      requires Valid()
      modifies this`memory, this`alive
      ensures Valid() && alive && memory == durable
    {
      hide StoreInv, FutureUntouched, Disciplined;
      Load();
      alive := true;
    }
  }

  /** The site's credentials overlaid with the issued ones, stamped with the verified identity. */
  function Issued(current: Fields, issued: Fields, who: Identity, email: string): Fields {
    current + issued[ChatgptAccountId := Text(who.workspace, Plain)][ChatgptUserId := Text(who.user, Plain)]
      [EMAIL := Text(email, Plain)]
  }

  lemma IssuedIsMade(current: Fields, issued: Fields, who: Identity, email: string)
    requires Complete(who) && Trim(who.workspace) == who.workspace && Trim(who.user) == who.user
    ensures Stamped(Issued(current, issued, who, email), who)
    ensures MadeOf(Issued(current, issued, who, email), Making(current, issued, who, email))
  {
  }

  /** Any number of passes, setting changes, clean-ups and restarts, against any site. */
  method EveryMaintenance(checkAfterRepair: bool) returns (history: History)
    ensures Disciplined(history)
    ensures forall id, n: nat :: Refreshes(history, id, n) <= 1 && Reauthorizations(history, id, n) <= 1
    ensures forall id, n: nat :: Uploads(history, id, n) <= 1 && Enables(history, id, n) <= 1
  {
    var worker := new Worker(checkAfterRepair);
    var steps: nat := *;
    while steps > 0
      invariant worker.Valid()
    {
      steps := steps - 1;
      var choice: int := *;
      if !worker.alive || choice == 0 {
        worker.Recover();
      } else if choice == 1 {
        var listed: seq<Fields> := *;
        worker.Pass(listed);
      } else if choice == 2 {
        var option: bool := *;
        worker.Configure(option);
      } else {
        var now: int := *;
        var ids: seq<string> := *;
        worker.Cleanup(now, ids);
      }
    }
    history := worker.history;
    forall id, n: nat
      ensures Refreshes(history, id, n) <= 1 && Reauthorizations(history, id, n) <= 1
      ensures Uploads(history, id, n) <= 1 && Enables(history, id, n) <= 1
    {
      OncePerAttempt(history, id, n);
    }
  }
}
