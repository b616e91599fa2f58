/**
 Which account a creation produced (createAccount, createdAccountObject and reconcileCreatedAccount in
 adminclient/client.go): from the answer if it names exactly one, otherwise from the account list.
 */
module CreatedAccount {
  import opened Common
  import AdminRequest

  // ---- Answers ----

  /** A decoded JSON value, of which only its printed text and its nested objects matter here. */
  datatype Payload = Leaf(text: string) | Items(elements: seq<string>) | Nested(fields: Fields)

  type Fields = map<string, Payload>

  /** Trimmed fmt.Sprint of a value; a list or an object prints with brackets, so it is never an ID. */
  function Printed(value: Payload): string {
    if value.Leaf? then Trim(value.text) else "[]"
  }

  const NESTED_KEYS := ["data", "account", "result", "item", "record", "created_account"]
  const MAX_DEPTH := 4

  /** The first of the ID keys an object has decides what it says about its ID. */
  function OwnId(node: Fields): Option<string> {
    if "id" in node then Some(Printed(node["id"]))
    else if "account_id" in node then Some(Printed(node["account_id"]))
    else if "accountId" in node then Some(Printed(node["accountId"]))
    else None
  }

  /** The stable IDs named, whether something else was given as an ID, and how many objects were counted. */
  datatype Census = Census(ids: set<string>, invalid: bool, objects: nat)

  const NOTHING := Census({}, false, 0)

  function Plus(a: Census, b: Census): Census {
    Census(a.ids + b.ids, a.invalid || b.invalid, a.objects + b.objects)
  }

  function OwnCensus(node: Fields): Census {
    match OwnId(node)
    case None => Census({}, false, 1)
    case Some(id) => if StableId(id) then Census({id}, false, 1) else Census({}, true, 1)
  }

  /** What an answer names in its objects nested up to `budget` levels below it. */
  function CensusOf(node: Fields, budget: nat): Census
    decreases budget, |NESTED_KEYS| + 2
  {
    Plus(OwnCensus(node), if budget == 0 then NOTHING else CensusBelow(node, 0, budget))
  }

  /** What is named under the nested keys from the k-th on. */
  function CensusBelow(node: Fields, k: nat, budget: nat): Census
    requires budget > 0 && k <= |NESTED_KEYS|
    decreases budget, |NESTED_KEYS| + 1 - k
  {
    if k == |NESTED_KEYS| then NOTHING else Plus(CensusUnder(node, NESTED_KEYS[k], budget), CensusBelow(node, k + 1, budget))
  }

  function CensusUnder(node: Fields, key: string, budget: nat): Census
    requires budget > 0
    decreases budget, 0
  {
    if key !in node then NOTHING
    else match node[key]
      case Nested(fields) => CensusOf(fields, budget - 1)
      case value => if StableId(Printed(value)) then Census({Printed(value)}, false, 0) else NOTHING
  }

  /** Every stable ID the answer names, in objects nested at most four levels deep. */
  function NamedIds(payload: Fields): set<string> {
    CensusOf(payload, MAX_DEPTH).ids
  }

  predicate NamesInvalid(payload: Fields) {
    CensusOf(payload, MAX_DEPTH).invalid
  }

  // ---- The search ----

  datatype Candidate = Candidate(value: Fields, depth: nat)

  datatype SearchError = SeveralIds | InvalidId

  function CandidateCensus(c: Candidate): Census {
    if c.depth <= MAX_DEPTH then CensusOf(c.value, MAX_DEPTH - c.depth) else NOTHING
  }

  function QueueCensus(queue: seq<Candidate>): Census {
    if queue == [] then NOTHING else Plus(CandidateCensus(queue[0]), QueueCensus(queue[1..]))
  }

  predicate Shallow(queue: seq<Candidate>) {
    queue == [] || (queue[0].depth <= MAX_DEPTH && Shallow(queue[1..]))
  }

  lemma {:induction false} Enqueued(queue: seq<Candidate>, c: Candidate)
    ensures QueueCensus(queue + [c]) == Plus(QueueCensus(queue), CandidateCensus(c))
    ensures Shallow(queue + [c]) == (Shallow(queue) && c.depth <= MAX_DEPTH)
  {
    hide CandidateCensus;
    if queue == [] {
      assert queue + [c] == [c] && [c][1..] == [];
      assert QueueCensus([c]) == Plus(CandidateCensus(c), QueueCensus([]));
    } else {
      Enqueued(queue[1..], c);
      assert (queue + [c])[1..] == queue[1..] + [c];
    }
  }

  /** The object, with the ID it gives under `accountId` copied to `id`. */
  function WithId(node: Fields): (shown: Fields)
    requires OwnId(node).Some?
    ensures OwnId(shown) == OwnId(node) && ("id" in shown || "account_id" in shown)
  {
    if "id" in node || "account_id" in node then node else node["id" := node["accountId"]]
  }

  /** Every match is filed under the ID it shows. */
  ghost predicate Filed(matches: map<string, Fields>) {
    forall id | id in matches :: OwnId(matches[id]) == Some(id)
  }

  /** What was found so far together with what the queue still holds. */
  function Found(matches: map<string, Fields>, invalid: bool, queue: seq<Candidate>): Census {
    Plus(Census(matches.Keys, invalid, 0), QueueCensus(queue))
  }

  /** createdAccountObject: the object of the one stable ID the answer names, if it names exactly one. */
  method CreatedAccountObject(payload: Fields) returns (found: Result<Option<Fields>, SearchError>)
    ensures match found
      case Ok(Some(node)) => OwnId(node).Some? && NamedIds(payload) == {OwnId(node).value}
      case Ok(None) => NamedIds(payload) == {} && !NamesInvalid(payload)
      case Err(SeveralIds) => exists a, b :: a != b && {a, b} <= NamedIds(payload)
      case Err(InvalidId) => NamedIds(payload) == {} && NamesInvalid(payload)
  {
    hide NamedIds, NamesInvalid, OwnId;
    var matches, invalid := Search(payload);
    if |matches| > 1 {
      TwoKeys(matches.Keys);
      return Err(SeveralIds);
    }
    if |matches| == 1 {
      var id :| id in matches;
      OneKey(matches.Keys, id);
      return Ok(Some(matches[id]));
    }
    assert matches.Keys == {};
    found := if invalid then Err(InvalidId) else Ok(None);
  }

  /** The breadth-first search through the answer. */
  method Search(payload: Fields) returns (matches: map<string, Fields>, invalid: bool)
    ensures Filed(matches) && matches.Keys == NamedIds(payload) && invalid == NamesInvalid(payload)
  {
    var queue := [Candidate(payload, 0)];
    matches, invalid := map[], false;
    Enqueued([], queue[0]);
    assert [] + queue == queue;
    assert CandidateCensus(queue[0]) == CensusOf(payload, MAX_DEPTH) && Filed(matches);
    hide CensusOf, CandidateCensus, StableId, Filed;
    while queue != []
      invariant Shallow(queue) && Filed(matches)
      invariant Found(matches, invalid, queue).ids == NamedIds(payload)
      invariant Found(matches, invalid, queue).invalid == NamesInvalid(payload)
      decreases QueueCensus(queue).objects
    {
      queue, matches, invalid := SearchNext(queue, matches, invalid);
    }
  }

  /** Takes the first candidate off the queue: files its own ID and queues what is nested in it. */
  method SearchNext(queue: seq<Candidate>, matches: map<string, Fields>, invalid: bool)
    returns (rest: seq<Candidate>, more: map<string, Fields>, bad: bool)
    requires queue != [] && Shallow(queue) && Filed(matches)
    ensures Shallow(rest) && Filed(more)
    ensures Found(more, bad, rest).ids == Found(matches, invalid, queue).ids
    ensures Found(more, bad, rest).invalid == Found(matches, invalid, queue).invalid
    ensures QueueCensus(rest).objects == QueueCensus(queue).objects - 1
  {
    FoundFirst(matches, invalid, queue);
    hide Found, Filed, OwnCensus, CensusBelow;
    var current := queue[0];
    rest := queue[1..];
    more, bad := FileOwn(current.value, matches, invalid, rest);
    if current.depth < MAX_DEPTH { rest, more := SearchBelow(current, rest, more, bad); }
    FoundObjects(matches, invalid, queue);
    FoundObjects(more, bad, rest);
  }

  /** What a queue holds is what its first candidate names, itself and below, and what the others hold. */
  lemma FoundFirst(matches: map<string, Fields>, invalid: bool, queue: seq<Candidate>)
    requires queue != [] && Shallow(queue)
    ensures Found(matches, invalid, queue) ==
      Plus(Plus(Found(matches, invalid, queue[1..]), OwnCensus(queue[0].value)),
           if queue[0].depth == MAX_DEPTH then NOTHING
           else CensusBelow(queue[0].value, 0, MAX_DEPTH - queue[0].depth))
  {
    hide OwnCensus, CensusBelow;
  }

  lemma FoundObjects(matches: map<string, Fields>, invalid: bool, queue: seq<Candidate>)
    ensures Found(matches, invalid, queue).objects == QueueCensus(queue).objects
  {
  }

  /** Files the ID an object gives itself. */
  method FileOwn(node: Fields, matches: map<string, Fields>, invalid: bool, ghost queue: seq<Candidate>)
    returns (more: map<string, Fields>, bad: bool)
    requires Filed(matches)
    ensures Filed(more)
    ensures var before, own, after := Found(matches, invalid, queue), OwnCensus(node), Found(more, bad, queue);
      after.ids == before.ids + own.ids && after.invalid == (before.invalid || own.invalid) && after.objects == before.objects
  {
    hide StableId, QueueCensus, OwnId;
    more, bad := matches, invalid;
    if OwnId(node).Some? {
      if StableId(OwnId(node).value) {
        more := more[OwnId(node).value := WithId(node)];
      } else {
        bad := true;
      }
    }
  }

  /** Queues the objects nested in a candidate and files the bare IDs. */
  method SearchBelow(current: Candidate, queue: seq<Candidate>, matches: map<string, Fields>, ghost bad: bool)
    returns (longer: seq<Candidate>, more: map<string, Fields>)
    requires Shallow(queue) && Filed(matches) && current.depth < MAX_DEPTH
    ensures Shallow(longer) && Filed(more)
    ensures Found(more, bad, longer) ==
      Plus(Found(matches, bad, queue), CensusBelow(current.value, 0, MAX_DEPTH - current.depth))
  {
    hide Found, CensusUnder, Filed, Shallow;
    var budget := MAX_DEPTH - current.depth;
    longer, more := queue, matches;
    for k := 0 to |NESTED_KEYS|
      invariant Shallow(longer) && Filed(more)
      invariant Plus(Found(more, bad, longer), CensusBelow(current.value, k, budget)) ==
        Plus(Found(matches, bad, queue), CensusBelow(current.value, 0, budget))
    {
      NextKey(Found(more, bad, longer), current.value, k, budget);
      longer, more := SearchKey(NESTED_KEYS[k], current, longer, more, bad);
    }
  }

  lemma NextKey(found: Census, node: Fields, k: nat, budget: nat)
    requires budget > 0 && k < |NESTED_KEYS|
    ensures Plus(found, CensusBelow(node, k, budget)) ==
      Plus(Plus(found, CensusUnder(node, NESTED_KEYS[k], budget)), CensusBelow(node, k + 1, budget))
  {
    hide CensusUnder;
  }

  /** Queues the object, or files the bare ID, that one candidate holds under one key. */
  method SearchKey(key: string, current: Candidate, queue: seq<Candidate>, matches: map<string, Fields>, ghost bad: bool)
    returns (longer: seq<Candidate>, more: map<string, Fields>)
    requires Shallow(queue) && Filed(matches) && current.depth < MAX_DEPTH
    ensures Shallow(longer) && Filed(more)
    ensures Found(more, bad, longer) ==
      Plus(Found(matches, bad, queue), CensusUnder(current.value, key, MAX_DEPTH - current.depth))
  {
    hide StableId, CensusOf, QueueCensus;
    longer, more := queue, matches;
    if key !in current.value { return; }
    var nested := current.value[key];
    if nested.Nested? {
      Enqueued(longer, Candidate(nested.fields, current.depth + 1));
      longer := longer + [Candidate(nested.fields, current.depth + 1)];
    } else if StableId(Printed(nested)) {
      more := more[Printed(nested) := map["id" := nested]];
    }
  }

  lemma TwoKeys(keys: set<string>)
    requires |keys| > 1
    ensures exists a, b :: a != b && {a, b} <= keys
  {
    var a :| a in keys;
    assert |keys - {a}| == |keys| - 1;
    var b :| b in keys - {a};
    assert {a, b} <= keys;
  }

  lemma OneKey(keys: set<string>, a: string)
    requires |keys| == 1 && a in keys
    ensures keys == {a}
  {
    assert |keys - {a}| == 0;
  }

  // ---- Reconciliation with the account list ----

  /** Trimmed text of a field; fmt.Sprint shows a missing one as <nil>. */
  function PrintedAt(node: Fields, key: string): string {
    if key in node then Printed(node[key]) else "<nil>"
  }

  function IdOf(account: Fields): string {
    PrintedAt(account, "id")
  }

  /** The text up to the first line break, and what follows it. */
  function CutLine(text: string): (string, string) {
    if text == "" then ("", "")
    else if text[0] == '\n' then ("", text[1..])
    else (([text[0]] + CutLine(text[1..]).0), CutLine(text[1..]).1)
  }

  lemma {:induction false} CutShortens(text: string)
    requires text != ""
    ensures |CutLine(text).1| < |text|
  {
    if text[0] != '\n' && |text| > 1 { CutShortens(text[1..]); }
  }

  /** markerLinePresent: some line, trimmed, is the marker. */
  predicate MarkerLinePresent(notes: string, marker: string)
    decreases |notes|
  {
    || Trim(CutLine(notes).0) == marker
    || (notes != "" && (CutShortens(notes); MarkerLinePresent(CutLine(notes).1, marker)))
  }

  function NotesOf(account: Fields): string {
    if "notes" in account && account["notes"].Leaf? then account["notes"].text else "<nil>"
  }

  function Bearing(accounts: seq<Fields>, marker: string): seq<Fields> {
    if accounts == [] then []
    else
      var earlier, last := Bearing(accounts[..|accounts| - 1], marker), accounts[|accounts| - 1];
      if MarkerLinePresent(NotesOf(last), marker) then earlier + [last] else earlier
  }

  /** accountByMarker: the one account whose notes carry the marker, with a stable ID. */
  method AccountByMarker(accounts: seq<Fields>, marker: string) returns (found: Option<Fields>)
    ensures found.Some? <==> |Bearing(accounts, marker)| == 1 && StableId(IdOf(Bearing(accounts, marker)[0]))
    ensures found.Some? ==> Bearing(accounts, marker) == [found.value]
  {
    hide MarkerLinePresent, StableId, NotesOf, IdOf;
    var matches: seq<Fields> := [];
    var unstable := false;
    for i := 0 to |accounts|
      invariant matches == Bearing(accounts[..i], marker)
      invariant unstable <==> exists a :: a in matches && !StableId(IdOf(a))
    {
      assert accounts[..i + 1][..i] == accounts[..i];
      if MarkerLinePresent(NotesOf(accounts[i]), marker) {
        matches := matches + [accounts[i]];
        unstable := unstable || !StableId(IdOf(accounts[i]));
      }
    }
    assert accounts[..|accounts|] == accounts;
    found := if !unstable && |matches| == 1 then Some(matches[0]) else None;
    if |matches| == 1 { assert matches[0] in matches; }
  }

  /** The order sort.Slice puts group IDs in: by their value, capped as ParseInt caps it. */
  function Rank(id: string): nat {
    if AllDigits(id) && Number(id) < 0x8000_0000_0000_0000 then Number(id) else 0x7FFF_FFFF_FFFF_FFFF
  }

  function Inserted(ids: seq<string>, id: string): seq<string> {
    if ids == [] || Rank(ids[|ids| - 1]) <= Rank(id) then ids + [id]
    else Inserted(ids[..|ids| - 1], id) + [ids[|ids| - 1]]
  }

  function SortedIds(ids: seq<string>): seq<string> {
    if ids == [] then [] else Inserted(SortedIds(ids[..|ids| - 1]), ids[|ids| - 1])
  }

  /** stableIDValues: the sorted IDs of a list of stable IDs. */
  function StableIdValues(node: Fields, key: string): Option<seq<string>> {
    if key !in node || !node[key].Items? then None
    else
      var ids := seq(|node[key].elements|, i requires 0 <= i < |node[key].elements| => Trim(node[key].elements[i]));
      if forall id | id in ids :: StableId(id) then Some(SortedIds(ids)) else None
  }

  predicate SameText(account: Fields, body: Fields, key: string) {
    PrintedAt(body, key) != "" && PrintedAt(account, key) == PrintedAt(body, key)
  }

  predicate NotContradicted(account: Fields, body: Fields, key: string) {
    key in body && key in account ==> Printed(account[key]) == Printed(body[key])
  }

  predicate MatchesCreated(account: Fields, body: Fields) {
    && SameText(account, body, "name") && SameText(account, body, "platform") && SameText(account, body, "type")
    && StableIdValues(body, "group_ids").Some? && StableIdValues(account, "group_ids") == StableIdValues(body, "group_ids")
    && NotContradicted(account, body, "rate_multiplier") && NotContradicted(account, body, "notes")
  }

  predicate NewMatch(account: Fields, before: set<string>, body: Fields) {
    StableId(IdOf(account)) && IdOf(account) !in before && MatchesCreated(account, body)
  }

  function NewMatches(accounts: seq<Fields>, before: set<string>, body: Fields): seq<Fields> {
    if accounts == [] then []
    else
      var earlier, last := NewMatches(accounts[..|accounts| - 1], before, body), accounts[|accounts| - 1];
      if NewMatch(last, before, body) then earlier + [last] else earlier
  }

  method OnlyNewMatch(accounts: seq<Fields>, before: set<string>, body: Fields) returns (found: Option<Fields>)
    ensures found.Some? <==> |NewMatches(accounts, before, body)| == 1
    ensures found.Some? ==> NewMatches(accounts, before, body) == [found.value]
  {
    hide NewMatch;
    var matches: seq<Fields> := [];
    for i := 0 to |accounts|
      invariant matches == NewMatches(accounts[..i], before, body)
    {
      assert accounts[..i + 1][..i] == accounts[..i];
      if NewMatch(accounts[i], before, body) { matches := matches + [accounts[i]]; }
    }
    assert accounts[..|accounts|] == accounts;
    found := if |matches| == 1 then Some(matches[0]) else None;
  }

  /** Adding a second account like the created one makes the reconciliation give up, wherever it is listed. */
  lemma {:induction false} AmbiguityIsRefused(accounts: seq<Fields>, before: set<string>, body: Fields, i: nat, j: nat)
    requires i < j < |accounts| && NewMatch(accounts[i], before, body) && NewMatch(accounts[j], before, body)
    ensures |NewMatches(accounts, before, body)| >= 2
  {
    hide NewMatch;
    var shorter := accounts[..|accounts| - 1];
    if j < |shorter| {
      AmbiguityIsRefused(shorter, before, body, i, j);
    } else {
      MatchIsListed(shorter, before, body, i);
    }
  }

  lemma {:induction false} MatchIsListed(accounts: seq<Fields>, before: set<string>, body: Fields, i: nat)
    requires i < |accounts| && NewMatch(accounts[i], before, body)
    ensures accounts[i] in NewMatches(accounts, before, body)
  {
    hide NewMatch;
    if i < |accounts| - 1 { MatchIsListed(accounts[..|accounts| - 1], before, body, i); }
  }

  /** What the account list settles: by the marker, or by the one new account like the requested one. */
  ghost predicate Settled(
      account: Fields, marker: string, body: Fields, before: Option<seq<Fields>>, after: Option<seq<Fields>>)
  {
    && after.Some?
    && if marker != "" then Bearing(after.value, marker) == [account] && StableId(IdOf(account))
       else before.Some? && NewMatches(after.value, Known(before.value), body) == [account]
  }

  function Known(accounts: seq<Fields>): set<string> {
    set i | 0 <= i < |accounts| :: IdOf(accounts[i])
  }

  // ---- Creation ----

  /** The one send of a creation left it open which account, if any, was created. */
  predicate Open(trace: AdminRequest.Trace<Fields>) {
    && AdminRequest.LastAnswer(trace).Some?
    && match AdminRequest.LastAnswer(trace).value
       case Decoded(payload) => |NamedIds(payload)| != 1
       case answer => AdminRequest.MayHaveCommitted(answer)
  }

  /** `before` and `after` stand for the account lists read around the one send, `answers` for its outcome. */
  method CreateAccount(
      attempts: nat, body: Fields, marker: string, answers: seq<AdminRequest.Answer<Fields>>,
      before: Option<seq<Fields>>, after: Option<seq<Fields>>)
    returns (created: Result<Fields, AdminRequest.Failure>, trace: AdminRequest.Trace<Fields>)
    requires attempts >= 1 && |answers| >= attempts
    ensures AdminRequest.Sends(trace) <= 1 && AdminRequest.Orderly(trace, true)
    ensures created.Ok? && !Open(trace) ==>
      && AdminRequest.LastAnswer(trace).Some? && AdminRequest.LastAnswer(trace).value.Decoded?
      && OwnId(created.value).Some? && NamedIds(AdminRequest.LastAnswer(trace).value.payload) == {OwnId(created.value).value}
    ensures created.Ok? && Open(trace) ==> Settled(created.value, marker, body, before, after)
    ensures Open(trace) && created.Err? ==>
      created.error.CommitUnknown? && forall account :: !Settled(account, marker, body, before, after)
    ensures created == Err(AdminRequest.CommitUnknown) ==> Open(trace)
  {
    hide StableId, NamesInvalid, NamedIds, Bearing, NewMatches, OwnId;
    var buildable: bool := *;
    var ended: nat := *;
    var answer;
    answer, trace := AdminRequest.Request(attempts, true, true, buildable, ended, answers);
    if answer.Err? && !answer.error.CommitUnknown? {
      return Err(answer.error), trace;
    }
    if answer.Ok? {
      assert AdminRequest.LastAnswer(trace) == Some(AdminRequest.Decoded(answer.value));
      var found := CreatedAccountObject(answer.value);
      if found.Ok? && found.value.Some? { return Ok(found.value.value), trace; }
      if found.Err? && found.error.SeveralIds? { SeveralAreNotOne(NamedIds(answer.value)); }
      assert |NamedIds(answer.value)| != 1;
    }
    if after.None? || (marker == "" && before.None?) { return Err(AdminRequest.CommitUnknown), trace; }
    var account;
    if marker != "" {
      account := AccountByMarker(after.value, marker);
    } else {
      account := OnlyNewMatch(after.value, Known(before.value), body);
    }
    created := if account.Some? then Ok(account.value) else Err(AdminRequest.CommitUnknown);
  }

  lemma SeveralAreNotOne(ids: set<string>)
    requires exists a, b :: a != b && {a, b} <= ids
    ensures |ids| != 1
  {
    var a, b :| a != b && {a, b} <= ids;
    if |ids| == 1 { OneKey(ids, a); }
  }
}
