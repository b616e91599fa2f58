/**
 A maintenance run in which scheduling is restored with the check option on and no check ever passed: the option was
 off when the attempt was judged, and saving the settings keeps the attempts. Every step is one the worker takes, and
 every stored document meets the store invariant.
 */
module UncheckedRecovery {
  import opened Common
  import opened Json
  import opened Readback
  import opened MaintenanceHistory

  // ---- The account before and after its refresh ----

  const OWNER := Identity("workspace", "user")

  function Issued(expiry: int): Fields {
    map[ChatgptAccountId := Text("workspace", Plain), ChatgptUserId := Text("user", Plain),
        ExpiresAt := Number("", Whole(expiry))]
  }

  /** Its authorization failed, so the site took it out of scheduling. */
  function Account(expiry: int): Fields {
    map[Id := Text("7", Plain), Platform := Text("openai", Plain), AccountType := Text("oauth", Plain),
        Status := Text("error", Plain), Schedulable := Bool(false), Credentials := Object(Issued(expiry))]
  }

  /** What the worker compares before it goes on: the account keeps its identity and configuration, not its credentials. */
  lemma AccountFacts(before: int, after: int)
    ensures TextOf(Get(Account(after), Id)) == "7" && AccountIdentity(Account(after)) == OWNER && Complete(OWNER)
    ensures Configuration(Account(after)) == Configuration(Account(before))
    ensures CredentialsOf(Account(after)) == CredentialsOf(Account(before)) <==> after == before
  {
    assert Trim("7") == "7" && Trim("workspace") == "workspace" && Trim("user") == "user";
    var hidden := {Credentials, Status, Schedulable};
    assert Account(after) - hidden == Account(before) - hidden;
    assert Account(after) - {Credentials, Status, Schedulable} == Account(before) - {Credentials, Status, Schedulable};
    assert CredentialsOf(Account(after)) == Issued(after) && CredentialsOf(Account(before)) == Issued(before);
    assert Issued(after)[ExpiresAt] == Number("", Whole(after)) && Issued(before)[ExpiresAt] == Number("", Whole(before));
  }

  // ---- The run ----

  /** Every document ever stored met the store invariant, and still did at every later event. */
  ghost predicate AlwaysKept(h: History) {
    StoreInv(LastSaved(h), h, 1) && (h.Then? ==> AlwaysKept(h.before))
  }

  function Beginning(h: History): Store {
    match h
    case Begin(store) => store
    case Then(before, _) => Beginning(before)
  }

  /** What has happened to the one attempt, and how the account was last seen. */
  datatype Story = Story(refreshes: nat, judgement: Option<Judgement>, late: bool, seen: Option<Fields>, clock: Option<int>)

  /** A history from the empty store on, in which only this attempt was ever made. */
  ghost predicate At(h: History, store: Store, story: Story) {
    && Disciplined(h) && AlwaysKept(h) && Beginning(h) == Store(map[], false) && LastSaved(h) == store
    && OnlyOneAttempt(h)
    && Refreshes(h, "7", 0) == story.refreshes && Reauthorizations(h, "7", 0) == 0 && Uploads(h, "7", 0) == 0
    && Enables(h, "7", 0) == 0 && JudgementOf(h, "7", 0) == story.judgement && TurnedOnLate(h, "7", 0) == story.late
    && LastSeen(h, "7") == story.seen && LastClock(h) == story.clock
  }

  ghost predicate OnlyOneAttempt(h: History) {
    forall id, m: nat :: Refreshes(h, id, m) > 0 ==> id == "7" && m == 0
  }

  lemma StillOneAttempt(h: History, e: Event)
    requires OnlyOneAttempt(h) && (e.RefreshSent? ==> e.id == "7" && e.serial == 0)
    ensures OnlyOneAttempt(Then(h, e))
  {
    forall id, m: nat | Refreshes(Then(h, e), id, m) > 0 ensures id == "7" && m == 0 {
      assert Refreshes(h, id, m) > 0 || (e.RefreshSent? && Is(e, id, m));
    }
  }

  function StoryAfter(story: Story, e: Event): Story {
    match e
    case ClockRead(now) => story.(clock := Some(now))
    case AccountRead(_, account) => story.(seen := Some(account))
    case RefreshSent(_, _) => story.(refreshes := story.refreshes + 1, seen := None)
    case Judged(_, _, required, passed) => story.(judgement := Some(Judgement(required, passed)))
    case _ => story
  }

  /** The account or the clock is read, the attempt is judged, or a request is sent for it. */
  lemma Happening(h: History, store: Store, story: Story, e: Event) returns (next: History)
    requires At(h, store, story) && Admissible(h, e) && Fits(store, e)
    requires e.ClockRead? || ((e.AccountRead? || e.RefreshSent? || e.Judged? || e.ClearErrorSent?) && e.id == "7")
    requires OfAttempt(e) ==> e.serial == 0
    ensures next == Then(h, e) && At(next, store, StoryAfter(story, e))
  {
    hide Admissible, Fits, StoreInv, OnlyOneAttempt;
    next := Then(h, e);
    EventKeepsStore(store, h, 1, e);
    StillOneAttempt(h, e);
  }

  /** The attempt moves on and is stored. */
  lemma Moving(h: History, store: Store, story: Story, attempt: Attempt) returns (next: History)
    requires At(h, store, story) && attempt.serial == 0 && AttemptInv(attempt, "7", store.checkAfterRepair, h)
    requires "7" in store.attempts ==> store.attempts["7"].serial == 0
    ensures next == Then(h, Saved(store.(attempts := store.attempts["7" := attempt])))
    ensures At(next, store.(attempts := store.attempts["7" := attempt]), story)
  {
    hide StoreInv, AttemptInv, OnlyOneAttempt;
    var moved := store.(attempts := store.attempts["7" := attempt]);
    next := Then(h, Saved(moved));
    AttemptKeepsStore(store, h, 1, "7", attempt);
    EventKeepsStore(moved, h, 1, Saved(moved));
    StillOneAttempt(h, Saved(moved));
  }

  /** A pass begins: the document is stored as it is. */
  lemma Launching(h: History, store: Store, story: Story) returns (next: History)
    requires At(h, store, story)
    ensures next == Then(h, Saved(store)) && At(next, store, story)
  {
    hide StoreInv, OnlyOneAttempt;
    next := Then(h, Saved(store));
    EventKeepsStore(store, h, 1, Saved(store));
    StillOneAttempt(h, Saved(store));
  }

  function Begun(phase: Phase): Attempt {
    Attempt(0, phase, 7200, OWNER, AccountVersion(Account(0)), Configuration(Account(0)), CredentialsOf(Account(0)), None, map[])
  }

  function Refreshed(): Attempt {
    Begun(Phase.Refreshed).(accountVersion := AccountVersion(Account(1)))
  }

  function Good(phase: Phase): Attempt {
    Refreshed().(phase := phase, verifiedCredentials := CredentialsOf(Account(1)))
  }

  function Holding(attempt: Attempt, check: bool): Store {
    Store(map["7" := attempt], check)
  }

  const EMPTY := Store(map[], false)

  lemma Started()
    ensures At(Begin(EMPTY), EMPTY, Story(0, None, false, None, None))
  {
  }

  /** The account's authorization failed: an attempt is stored. */
  lemma AttemptStored() returns (h: History)
    ensures At(h, Holding(Begun(Refreshing), false), Story(0, None, false, Some(Account(0)), Some(0)))
  {
    AccountFacts(0, 0);
    Started();
    hide Account, AccountVersion, Configuration, CredentialsOf, TextOf, Get;
    hide Disciplined, AlwaysKept, StoreInv, Beginning, LastSaved, LastSeen, LastClock, LastCheck, Refreshes;
    hide Reauthorizations;
    hide Uploads, Enables, Ended, JudgementOf, TurnedOnLate;
    var story := Story(0, None, false, None, None);
    h := Launching(Begin(EMPTY), EMPTY, story);
    h := Happening(h, EMPTY, story, AccountRead("7", Account(0)));
    h := Happening(h, EMPTY, story.(seen := Some(Account(0))), ClockRead(0));
    story := Story(0, None, false, Some(Account(0)), Some(0));
    h := Happening(h, EMPTY, story, ClockRead(0));
    h := Moving(h, EMPTY, story, Begun(Refreshing));
  }

  /** It is refreshed while the option is off. */
  lemma AccountRefreshed() returns (h: History)
    ensures At(h, Holding(Begun(Refreshing), false), Story(1, None, false, Some(Account(1)), Some(0)))
  {
    AccountFacts(0, 1);
    hide Account, AccountVersion, Configuration, CredentialsOf, TextOf, Get;
    hide Disciplined, AlwaysKept, StoreInv, Beginning, LastSaved, LastSeen, LastClock, LastCheck, Reauthorizations;
    hide Uploads, Enables, Ended, JudgementOf, TurnedOnLate, Refreshes;
    h := AttemptStored();
    var store := Holding(Begun(Refreshing), false);
    h := Happening(h, store, Story(0, None, false, Some(Account(0)), Some(0)), RefreshSent("7", 0));
    h := Happening(h, store, Story(1, None, false, None, Some(0)), AccountRead("7", Account(1)));
  }

  /** It is judged good without a check; the service dies before scheduling is restored. */
  lemma JudgedGood() returns (h: History)
    ensures At(h, Holding(Good(Verified), false), Story(1, Some(Judgement(false, false)), false, Some(Account(1)), Some(30)))
  {
    hide Account, AccountVersion, Configuration, CredentialsOf, TextOf, Get;
    hide Disciplined, AlwaysKept, StoreInv, Beginning, LastSaved, LastSeen, LastClock, LastCheck, Refreshes;
    hide Reauthorizations;
    hide Uploads, Enables, Ended, JudgementOf, TurnedOnLate;
    h := AccountRefreshed();
    var story := Story(1, None, false, Some(Account(1)), Some(0));
    h := Happening(h, Holding(Begun(Refreshing), false), story, ClockRead(30));
    story := story.(clock := Some(30));
    h := Moving(h, Holding(Begun(Refreshing), false), story, Refreshed());
    h := Happening(h, Holding(Refreshed(), false), story, Judged("7", 0, false, false));
    story := Story(1, Some(Judgement(false, false)), false, Some(Account(1)), Some(30));
    h := Moving(h, Holding(Refreshed(), false), story, Good(Verified));
  }

  /** The option is turned on. */
  lemma TurnedOn() returns (h: History)
    ensures At(h, Holding(Good(Verified), true), Story(1, Some(Judgement(false, false)), true, Some(Account(1)), Some(30)))
  {
    hide Account, AccountVersion, Configuration, CredentialsOf, TextOf, Get;
    var before := JudgedGood();
    var store := Holding(Good(Verified), true);
    h := Then(before, Saved(store));
    StillOneAttempt(before, Saved(store));
    assert AttemptInv(store.attempts["7"], "7", true, h);
  }

  /** The next pass finds the attempt good, reads the account and announces the recovery. */
  lemma RecoveryAnnounced() returns (h: History)
    ensures At(h, Holding(Good(Recovering), true), Story(1, Some(Judgement(false, false)), true, Some(Account(1)), Some(60)))
  {
    AccountFacts(0, 1);
    hide Account, AccountVersion, Configuration, CredentialsOf, TextOf, Get;
    hide Disciplined, AlwaysKept, StoreInv, Beginning, LastSaved, LastSeen, LastClock, LastCheck, Refreshes, Reauthorizations;
    hide Uploads, Enables, Ended, JudgementOf, TurnedOnLate;
    h := TurnedOn();
    var store := Holding(Good(Verified), true);
    var story := Story(1, Some(Judgement(false, false)), true, Some(Account(1)), Some(30));
    h := Launching(h, store, story);
    h := Happening(h, store, story, AccountRead("7", Account(1)));
    h := Happening(h, store, story, ClockRead(60));
    story := story.(clock := Some(60));
    h := Happening(h, store, story, ClockRead(60));
    h := Happening(h, store, story, AccountRead("7", Account(1)));
    h := Moving(h, store, story, Good(Recovering));
  }

  /** With the option on, scheduling is restored although the attempt was judged without a check. */
  lemma OptionTurnedOnLateSkipsCheck() returns (h: History)
    ensures Disciplined(h) && AlwaysKept(h) && Beginning(h) == Store(map[], false)
    ensures h.Then? && h.event.EnableSent? && LastSaved(h.before).checkAfterRepair
    ensures !PassedCheck(h.before, h.event.id, h.event.serial)
    ensures JudgedUnchecked(h.before, h.event.id, h.event.serial) && TurnedOnLate(h.before, h.event.id, h.event.serial)
  {
    hide Account, AccountVersion, Configuration, CredentialsOf, TextOf, Get;
    hide Disciplined, AlwaysKept, StoreInv, Beginning, LastSaved, LastSeen, LastClock, LastCheck, Refreshes, Reauthorizations;
    hide Uploads, Enables, Ended, JudgementOf, TurnedOnLate;
    h := RecoveryAnnounced();
    var store := Holding(Good(Recovering), true);
    var story := Story(1, Some(Judgement(false, false)), true, Some(Account(1)), Some(60));
    h := Happening(h, store, story, ClearErrorSent("7", 0));
    h := Enabling(h, store, story);
  }

  lemma Enabling(h: History, store: Store, story: Story) returns (next: History)
    requires At(h, store, story) && story.seen.Some? && store == Holding(Good(Recovering), true)
    requires Admissible(h, EnableSent("7", 0, story.seen.value))
    ensures next == Then(h, EnableSent("7", 0, story.seen.value)) && Disciplined(next) && AlwaysKept(next)
    ensures Beginning(next) == Beginning(h) && next.before == h
  {
    hide StoreInv, Admissible;
    var e := EnableSent("7", 0, story.seen.value);
    next := Then(h, e);
    EventKeepsStore(store, h, 1, e);
  }
}
