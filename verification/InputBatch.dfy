/** Reading a batch of accounts (accountworkbench/input.go) and removing repeated ones (input_identity.go). */
module InputBatch {
  import opened Common

  const BATCH_LIMIT := 500
  const DEPTH_LIMIT := 16

  /** An account as the batch names it, with the credentials that identify it. */
  datatype Item = Item(
    kind: string, email: string, chatgptAccountId: string, accountId: string, chatgptUserId: string, userId: string,
    refreshToken: string, accessToken: string)

  /** What one string, object or line of the input comes to. */
  datatype Entry = Account(item: Item) | Rejected

  /** Decoded JSON, as far as it nests: a leaf is anything that is read as one entry or rejected as one. */
  datatype Node =
    | Leaf(entry: Entry)
    | Entries(list: seq<Node>)             // an array
    | Accounts(accounts: seq<Node>)        // an object whose "accounts" is an array
    | Data(inner: Node)                    // an object whose "data" has accounts

  /** The entries of a value, in order; what nests too deep is one rejected entry. */
  function EntriesOf(node: Node, depth: nat): seq<Entry>
    decreases node, 1, 0
  {
    if depth > DEPTH_LIMIT then [Rejected]
    else match node
      case Leaf(entry) => [entry]
      case Entries(list) => EntriesOfAll(list, depth + 1)
      case Accounts(list) => if list == [] then [Rejected] else EntriesOfList(list, depth + 1)
      case Data(inner) => EntriesOf(inner, depth + 1)
  }

  /** The same for an array. */
  function EntriesOfList(list: seq<Node>, depth: nat): seq<Entry>
    decreases list, 1, 0
  {
    if depth > DEPTH_LIMIT then [Rejected] else EntriesOfAll(list, depth + 1)
  }

  function EntriesOfAll(list: seq<Node>, depth: nat): seq<Entry>
    decreases list, 0, |list|
  {
    if list == [] then []
    else EntriesOf(list[0], depth) + EntriesOfAll(list[1..], depth)
  }

  function AccountsIn(entries: seq<Entry>): seq<Item> {
    if entries == [] then []
    else
      var earlier, last := AccountsIn(entries[..|entries| - 1]), entries[|entries| - 1];
      if last.Account? then earlier + [last.item] else earlier
  }

  /** The first `limit` of them. */
  function Capped(entries: seq<Entry>, limit: nat): seq<Entry> {
    if |entries| <= limit then entries else entries[..limit]
  }

  lemma {:induction false} AccountsAppended(entries: seq<Entry>, entry: Entry)
    ensures AccountsIn(entries + [entry]) == if entry.Account? then AccountsIn(entries) + [entry.item] else AccountsIn(entries)
  {
    assert (entries + [entry])[..|entries|] == entries;
  }

  class Parser {
    var items: seq<Item>
    var errors: seq<nat>       // the places of the rejected entries
    var index: nat
    var duplicates: nat
    ghost var read: seq<Entry> // what was read so far

    /** Every entry read is an item or an error, at its place, and the batch never grows past the limit by two. */
    ghost predicate Valid()
      reads this
    {
      && index == |read| <= BATCH_LIMIT + 1 && items == AccountsIn(read) && |items| + |errors| == index
      && duplicates == 0
      && forall k | 0 <= k < |errors| :: errors[k] < |read| && read[errors[k]].Rejected?
    }

    constructor ()
      ensures Valid() && read == []
    {
      items, errors, index, duplicates, read := [], [], 0, 0, [];
    }

    /** `add` and `fail` */
    method Take(entry: Entry)
      requires Valid() && index <= BATCH_LIMIT
      modifies this
      ensures Valid() && read == old(read) + [entry]
    {
      AccountsAppended(read, entry);
      if entry.Account? {
        items := items + [entry.item];
      } else {
        errors := errors + [index];
      }
      index := index + 1;
      read := read + [entry];
    }

    /** Past the limit nothing more is read. */
    lemma Full(more: seq<Entry>)
      requires Valid() && index > BATCH_LIMIT
      ensures read == Capped(read + more, BATCH_LIMIT + 1)
    {
      CappedEnough(read, more);
    }

    lemma OneFits()
      requires Valid() && index <= BATCH_LIMIT
      ensures forall entry :: Capped(read + [entry], BATCH_LIMIT + 1) == read + [entry]
    {
    }

    /** jsonValue */
    method JsonValue(node: Node, depth: nat)
      requires Valid()
      modifies this
      ensures Valid() && read == Capped(old(read) + EntriesOf(node, depth), BATCH_LIMIT + 1)
      decreases node, 1, 0
    {
      hide Capped, Valid, AccountsIn;
      if index > BATCH_LIMIT {
        Full(EntriesOf(node, depth));
        return;
      }
      OneFits();
      if depth > DEPTH_LIMIT {
        Take(Rejected);
        return;
      }
      match node
      case Leaf(entry) => Take(entry);
      case Entries(list) => JsonValues(list, depth + 1);
      case Accounts(list) =>
        if list == [] {
          Take(Rejected);
        } else {
          JsonList(list, depth + 1);
        }
      case Data(inner) => JsonValue(inner, depth + 1);
    }

    /** jsonValue for the array of an object's accounts */
    method JsonList(list: seq<Node>, depth: nat)
      requires Valid() && index <= BATCH_LIMIT
      modifies this
      ensures Valid() && read == Capped(old(read) + EntriesOfList(list, depth), BATCH_LIMIT + 1)
      decreases list, 1, 0
    {
      if depth > DEPTH_LIMIT {
        Take(Rejected);
      } else {
        JsonValues(list, depth + 1);
      }
    }

    /** The loop over an array, which stops once the limit is passed. */
    method JsonValues(list: seq<Node>, depth: nat)
      requires Valid()
      modifies this
      ensures Valid() && read == Capped(old(read) + EntriesOfAll(list, depth), BATCH_LIMIT + 1)
      decreases list, 0, |list|
    {
      ghost var before := read;
      for k := 0 to |list|
        invariant Valid()
        invariant Capped(read + EntriesOfAll(list[k..], depth), BATCH_LIMIT + 1) ==
          Capped(before + EntriesOfAll(list, depth), BATCH_LIMIT + 1)
      {
        ghost var rest := EntriesOfAll(list[k + 1..], depth);
        assert list[k..][0] == list[k] && list[k..][1..] == list[k + 1..];
        CappedInParts(read, EntriesOf(list[k], depth), rest);
        JsonValue(list[k], depth);
        if index > BATCH_LIMIT {
          CappedEnough(read, rest);
          return;
        }
      }
    }

    /** The loop over the lines of a text that is not JSON. */
    method Lines(entries: seq<Entry>)
      requires Valid() && index == 0
      modifies this
      ensures Valid() && read == Capped(entries, BATCH_LIMIT + 1)
    {
      for k := 0 to |entries|
        invariant Valid() && k <= BATCH_LIMIT + 1 && read == entries[..k]
      {
        if index > BATCH_LIMIT { return; }
        Take(entries[k]);
      }
    }
  }

  lemma CappedInParts(read: seq<Entry>, next: seq<Entry>, rest: seq<Entry>)
    ensures Capped(Capped(read + next, BATCH_LIMIT + 1) + rest, BATCH_LIMIT + 1) ==
      Capped(read + (next + rest), BATCH_LIMIT + 1)
  {
    assert read + (next + rest) == read + next + rest;
  }

  lemma CappedEnough(read: seq<Entry>, rest: seq<Entry>)
    requires |read| == BATCH_LIMIT + 1
    ensures Capped(read + rest, BATCH_LIMIT + 1) == read
  {
  }

  // ---- Repeated accounts ----

  datatype Key = NoKey | Official(workspace: string, user: string) | Token(token: string) | Login(email: string)

  /** inputIdentityKey; SHA-256 is taken as injective, so a key is what is hashed. */
  function IdentityKey(fold: Fold, item: Item): Key {
    var workspace := if item.chatgptAccountId != "" then item.chatgptAccountId else item.accountId;
    var user := if item.chatgptUserId != "" then item.chatgptUserId else item.userId;
    var token := if item.refreshToken != "" then item.refreshToken else item.accessToken;
    if workspace != "" && user != "" then Official(Lower(fold, workspace), Lower(fold, user))
    else if token != "" then Token(token)
    else if item.kind == "login" then Login(Lower(fold, item.email))
    else NoKey
  }

  predicate Repeats(fold: Fold, a: Item, b: Item) {
    IdentityKey(fold, a) == IdentityKey(fold, b) && IdentityKey(fold, a) != NoKey
  }

  function NamedWorkspace(item: Item): string {
    if item.chatgptAccountId != "" then item.chatgptAccountId else item.accountId
  }

  function NamedUser(item: Item): string {
    if item.chatgptUserId != "" then item.chatgptUserId else item.userId
  }

  /** An item without a full official identity that carries a token, the refresh token before the access token. */
  predicate KnownByToken(item: Item, token: string) {
    && (NamedWorkspace(item) == "" || NamedUser(item) == "") && token != ""
    && if item.refreshToken != "" then item.refreshToken == token else item.accessToken == token
  }

  predicate KnownByEmail(item: Item) {
    && (NamedWorkspace(item) == "" || NamedUser(item) == "") && item.refreshToken == "" && item.accessToken == ""
    && item.kind == "login"
  }

  /**
   Two items count as one account exactly if both name one official identity up to case, or neither does and they
   carry one token, or both are logins of one address up to case. One token does not make an item that names its
   identity and an item that does not the same.
   */
  lemma OneAccountExactlyIf(fold: Fold, a: Item, b: Item)
    ensures Repeats(fold, a, b) <==>
      || (NamedWorkspace(a) != "" && NamedUser(a) != "" && NamedWorkspace(b) != "" && NamedUser(b) != ""
          && Lower(fold, NamedWorkspace(a)) == Lower(fold, NamedWorkspace(b))
          && Lower(fold, NamedUser(a)) == Lower(fold, NamedUser(b)))
      || (exists token :: KnownByToken(a, token) && KnownByToken(b, token))
      || (KnownByEmail(a) && KnownByEmail(b) && Lower(fold, a.email) == Lower(fold, b.email))
  {
    var token := if a.refreshToken != "" then a.refreshToken else a.accessToken;
    if IdentityKey(fold, a) == Token(token) { assert KnownByToken(a, token); }
  }

  /** No earlier item has the same key. */
  predicate IsFirst(fold: Fold, items: seq<Item>, k: nat)
    requires k < |items|
  {
    forall j | 0 <= j < k :: !Repeats(fold, items[j], items[k])
  }

  /** The places of the first item of every key and of every item without one. */
  function Firsts(fold: Fold, items: seq<Item>): (places: seq<nat>)
    ensures |places| <= |items| && forall r | 0 <= r < |places| :: places[r] < |items|
  {
    if items == [] then []
    else
      var n := |items| - 1;
      if IsFirst(fold, items, n) then Firsts(fold, items[..n]) + [n] else Firsts(fold, items[..n])
  }

  /** The last of the items that repeat the given one, or the given one if none does. */
  function LastLike(fold: Fold, items: seq<Item>, item: Item): Item {
    if items == [] then item
    else if Repeats(fold, items[|items| - 1], item) then items[|items| - 1]
    else LastLike(fold, items[..|items| - 1], item)
  }

  function Deduplicated(fold: Fold, items: seq<Item>): seq<Item> {
    var places := Firsts(fold, items);
    seq(|places|, r requires 0 <= r < |places| => LastLike(fold, items, items[places[r]]))
  }

  /** How the list of kept items, and the places of their keys, look after some of the items were read. */
  ghost predicate KeptSoFar(fold: Fold, read: seq<Item>, kept: seq<Item>, positions: map<Key, nat>) {
    && kept == Deduplicated(fold, read)
    && PlacesFiled(fold, kept, positions) && KeysFiled(fold, read, positions)
  }

  method Deduplicate(fold: Fold, items: seq<Item>) returns (kept: seq<Item>, duplicates: nat)
    ensures kept == Deduplicated(fold, items) && |kept| + duplicates == |items|
  {
    hide IdentityKey;
    kept, duplicates := [], 0;
    var positions: map<Key, nat> := map[];
    for i := 0 to |items|
      invariant KeptSoFar(fold, items[..i], kept, positions) && |kept| + duplicates == i
    {
      var key := IdentityKey(fold, items[i]);
      assert items[..i + 1] == items[..i] + [items[i]];
      if key in positions && key != NoKey {
        RepeatedItem(fold, items[..i], items[i], kept, positions);
        kept := kept[positions[key] := items[i]];
        duplicates := duplicates + 1;
        continue;
      }
      NewItem(fold, items[..i], items[i], kept, positions);
      if key != NoKey { positions := positions[key := |kept|]; }
      kept := kept + [items[i]];
    }
    assert items[..|items|] == items;
  }

  lemma FirstsGrow(fold: Fold, items: seq<Item>, item: Item)
    ensures Firsts(fold, items + [item]) ==
      if IsFirst(fold, items + [item], |items|) then Firsts(fold, items) + [|items|] else Firsts(fold, items)
  {
    assert (items + [item])[..|items|] == items;
  }

  lemma LastLikeGrows(fold: Fold, items: seq<Item>, item: Item, of: Item)
    ensures LastLike(fold, items + [item], of) == if Repeats(fold, item, of) then item else LastLike(fold, items, of)
  {
    assert (items + [item])[..|items|] == items;
  }

  /** The kept item has the key of the item it stands for. */
  lemma {:induction false} LastLikeKey(fold: Fold, items: seq<Item>, item: Item)
    ensures IdentityKey(fold, LastLike(fold, items, item)) == IdentityKey(fold, item)
    ensures (forall j | 0 <= j < |items| :: !Repeats(fold, items[j], item)) ==> LastLike(fold, items, item) == item
  {
    hide IdentityKey;
    if items != [] { LastLikeKey(fold, items[..|items| - 1], item); }
  }

  /** First places come in order and no two of them share a key. */
  lemma {:induction false} FirstsDiffer(fold: Fold, items: seq<Item>, q: nat, r: nat)
    requires q < r < |Firsts(fold, items)|
    ensures Firsts(fold, items)[q] < Firsts(fold, items)[r]
    ensures !Repeats(fold, items[Firsts(fold, items)[q]], items[Firsts(fold, items)[r]])
  {
    hide IdentityKey;
    var n := |items| - 1;
    if r < |Firsts(fold, items[..n])| {
      FirstsDiffer(fold, items[..n], q, r);
    } else {
      assert IsFirst(fold, items, n);
    }
  }

  lemma KeptAt(fold: Fold, read: seq<Item>, r: nat)
    requires r < |Deduplicated(fold, read)|
    ensures IdentityKey(fold, Deduplicated(fold, read)[r]) == IdentityKey(fold, read[Firsts(fold, read)[r]])
  {
    LastLikeKey(fold, read, read[Firsts(fold, read)[r]]);
  }

  /** No two kept items share a key. */
  lemma KeptDiffer(fold: Fold, items: seq<Item>, q: nat, r: nat)
    requires q < |Deduplicated(fold, items)| && r < |Deduplicated(fold, items)| && q != r
    ensures !Repeats(fold, Deduplicated(fold, items)[q], Deduplicated(fold, items)[r])
  {
    hide IdentityKey;
    KeptAt(fold, items, q);
    KeptAt(fold, items, r);
    if q < r { FirstsDiffer(fold, items, q, r); } else { FirstsDiffer(fold, items, r, q); }
  }

  /** Each key is filed under the place of a kept item that has it. */
  ghost predicate PlacesFiled(fold: Fold, kept: seq<Item>, positions: map<Key, nat>) {
    forall key | key in positions ::
      key != NoKey && positions[key] < |kept| && IdentityKey(fold, kept[positions[key]]) == key
  }

  lemma PlaceKept(fold: Fold, kept: seq<Item>, item: Item, positions: map<Key, nat>)
    requires PlacesFiled(fold, kept, positions) && IdentityKey(fold, item) in positions
    ensures PlacesFiled(fold, kept[positions[IdentityKey(fold, item)] := item], positions)
  {
    hide IdentityKey;
  }

  /** The keys of the items read are filed, and only they. */
  ghost predicate KeysFiled(fold: Fold, read: seq<Item>, positions: map<Key, nat>) {
    && (forall k | 0 <= k < |read| && IdentityKey(fold, read[k]) != NoKey :: IdentityKey(fold, read[k]) in positions)
    && forall key | key in positions :: exists k :: 0 <= k < |read| && IdentityKey(fold, read[k]) == key
  }

  lemma KeysGrow(fold: Fold, read: seq<Item>, item: Item, positions: map<Key, nat>, place: nat)
    requires KeysFiled(fold, read, positions)
    ensures KeysFiled(fold, read + [item],
      if IdentityKey(fold, item) == NoKey || IdentityKey(fold, item) in positions then positions
      else positions[IdentityKey(fold, item) := place])
  {
    hide IdentityKey;
    var all := read + [item];
    assert forall k | 0 <= k < |read| :: all[k] == read[k];
    assert all[|read|] == item;
  }

  lemma NewItem(fold: Fold, read: seq<Item>, item: Item, kept: seq<Item>, positions: map<Key, nat>)
    requires KeptSoFar(fold, read, kept, positions)
    requires IdentityKey(fold, item) == NoKey || IdentityKey(fold, item) !in positions
    ensures KeptSoFar(fold, read + [item], kept + [item],
      if IdentityKey(fold, item) == NoKey then positions else positions[IdentityKey(fold, item) := |kept|])
  {
    KeysGrow(fold, read, item, positions, |kept|);
    NewIsKept(fold, read, item, positions);
    hide IdentityKey, LastLike, Firsts, Deduplicated, KeysFiled;
  }

  lemma NewIsKept(fold: Fold, read: seq<Item>, item: Item, positions: map<Key, nat>)
    requires KeysFiled(fold, read, positions) && NoKey !in positions
    requires IdentityKey(fold, item) == NoKey || IdentityKey(fold, item) !in positions
    ensures Deduplicated(fold, read + [item]) == Deduplicated(fold, read) + [item]
  {
    hide IdentityKey, LastLike, Firsts;
    var all, places := read + [item], Firsts(fold, read);
    forall j | 0 <= j < |read| ensures !Repeats(fold, read[j], item) && !Repeats(fold, item, read[j]) {}
    assert IsFirst(fold, all, |read|) by { assert forall j | 0 <= j < |read| :: all[j] == read[j]; }
    FirstsGrow(fold, read, item);
    forall r | 0 <= r < |places| ensures LastLike(fold, all, all[places[r]]) == LastLike(fold, read, read[places[r]]) {
      LastLikeGrows(fold, read, item, read[places[r]]);
    }
    LastLikeGrows(fold, read, item, item);
    LastLikeKey(fold, read, item);
  }

  lemma RepeatedItem(fold: Fold, read: seq<Item>, item: Item, kept: seq<Item>, positions: map<Key, nat>)
    requires KeptSoFar(fold, read, kept, positions)
    requires IdentityKey(fold, item) != NoKey && IdentityKey(fold, item) in positions
    ensures KeptSoFar(fold, read + [item], kept[positions[IdentityKey(fold, item)] := item], positions)
  {
    KeysGrow(fold, read, item, positions, 0);
    PlaceKept(fold, kept, item, positions);
    FiledKey(fold, read, item, positions);
    hide IdentityKey, Deduplicated, KeysFiled, PlacesFiled;
    RepeatedIsReplaced(fold, read, item, positions[IdentityKey(fold, item)]);
  }

  lemma FiledKey(fold: Fold, read: seq<Item>, item: Item, positions: map<Key, nat>)
    requires KeptSoFar(fold, read, Deduplicated(fold, read), positions)
    requires IdentityKey(fold, item) != NoKey && IdentityKey(fold, item) in positions
    ensures exists k :: 0 <= k < |read| && IdentityKey(fold, read[k]) == IdentityKey(fold, item)
    ensures positions[IdentityKey(fold, item)] < |Deduplicated(fold, read)|
    ensures Repeats(fold, Deduplicated(fold, read)[positions[IdentityKey(fold, item)]], item)
  {
    hide IdentityKey, Deduplicated;
  }

  lemma RepeatedIsReplaced(fold: Fold, read: seq<Item>, item: Item, p: nat)
    requires p < |Deduplicated(fold, read)| && Repeats(fold, Deduplicated(fold, read)[p], item)
    requires exists k :: 0 <= k < |read| && IdentityKey(fold, read[k]) == IdentityKey(fold, item)
    ensures Deduplicated(fold, read + [item]) == Deduplicated(fold, read)[p := item]
  {
    hide IdentityKey, LastLike, Firsts;
    var all, kept := read + [item], Deduplicated(fold, read);
    var k :| 0 <= k < |read| && IdentityKey(fold, read[k]) == IdentityKey(fold, item);
    assert all[k] == read[k] && !IsFirst(fold, all, |read|);
    FirstsGrow(fold, read, item);
    var places := Firsts(fold, read);
    forall r | 0 <= r < |kept| ensures LastLike(fold, all, all[places[r]]) == kept[p := item][r] {
      LastLikeGrows(fold, read, item, read[places[r]]);
      KeptAt(fold, read, r);
      if r != p { KeptDiffer(fold, read, r, p); }
    }
  }

  /** The l-th item is the last one that repeats the given one. */
  ghost predicate IsLast(fold: Fold, items: seq<Item>, l: nat, item: Item) {
    l < |items| && Repeats(fold, items[l], item) && forall j | l < j < |items| :: !Repeats(fold, items[j], item)
  }

  lemma LastStays(fold: Fold, items: seq<Item>, l: nat, item: Item)
    requires items != [] && IsLast(fold, items[..|items| - 1], l, item) && !Repeats(fold, items[|items| - 1], item)
    ensures IsLast(fold, items, l, item)
  {
    hide Repeats;
    var n := |items| - 1;
    assert items[..n][l] == items[l];
    forall j | l < j < |items| ensures !Repeats(fold, items[j], item) {
      if j < n { assert items[..n][j] == items[j]; }
    }
  }

  lemma {:induction false} LastLikeIsLast(fold: Fold, items: seq<Item>, item: Item, k: nat)
    requires k < |items| && Repeats(fold, items[k], item)
    ensures exists l :: k <= l < |items| && IsLast(fold, items, l, item) && items[l] == LastLike(fold, items, item)
  {
    hide Repeats;
    var n := |items| - 1;
    if Repeats(fold, items[n], item) {
      assert IsLast(fold, items, n, item);
    } else {
      LastLikeIsLast(fold, items[..n], item, k);
      var l :| k <= l < n && IsLast(fold, items[..n], l, item) && items[..n][l] == LastLike(fold, items[..n], item);
      LastStays(fold, items, l, item);
    }
  }

  /** Every item with a key has exactly one kept item with its key, and that is the last such item of the batch. */
  lemma {:induction false} EveryKeyIsKept(fold: Fold, items: seq<Item>, k: nat) returns (r: nat)
    requires k < |items| && IdentityKey(fold, items[k]) != NoKey
    ensures r < |Firsts(fold, items)| && Firsts(fold, items)[r] <= k
    ensures Repeats(fold, items[k], items[Firsts(fold, items)[r]])
    ensures exists l :: k <= l < |items| && IsLast(fold, items, l, items[k]) && items[l] == Deduplicated(fold, items)[r]
  {
    hide IdentityKey, LastLike;
    r := FirstOf(fold, items, k);
    var first := items[Firsts(fold, items)[r]];
    LastLikeIsLast(fold, items, first, k);
    var l :| k <= l < |items| && IsLast(fold, items, l, first) && items[l] == LastLike(fold, items, first);
    assert IsLast(fold, items, l, items[k]);
  }

  lemma {:induction false} FirstOf(fold: Fold, items: seq<Item>, k: nat) returns (r: nat)
    requires k < |items| && IdentityKey(fold, items[k]) != NoKey
    ensures r < |Firsts(fold, items)| && Firsts(fold, items)[r] <= k
    ensures Repeats(fold, items[k], items[Firsts(fold, items)[r]])
  {
    hide IdentityKey;
    var n := |items| - 1;
    if k < n {
      r := FirstOf(fold, items[..n], k);
    } else if IsFirst(fold, items, n) {
      r := |Firsts(fold, items)| - 1;
    } else {
      var j :| 0 <= j < n && Repeats(fold, items[j], items[n]);
      r := FirstOf(fold, items[..n], j);
    }
  }

  /** Every item without a key is kept where it stands among the others. */
  lemma {:induction false} KeylessIsKept(fold: Fold, items: seq<Item>, k: nat)
    requires k < |items| && IdentityKey(fold, items[k]) == NoKey
    ensures k in Firsts(fold, items) && LastLike(fold, items, items[k]) == items[k]
  {
    hide IdentityKey;
    LastLikeKey(fold, items, items[k]);
    var n := |items| - 1;
    if k < n { KeylessIsKept(fold, items[..n], k); }
  }

  // ---- The whole batch ----

  datatype Content = Json(node: Node) | Malformed | Text(lines: seq<Entry>)

  function ContentEntries(content: Content): seq<Entry> {
    match content
    case Json(node) => EntriesOf(node, 0)
    case Malformed => [Rejected]
    case Text(lines) => lines
  }

  /** What was read; a batch without any entry reads as one rejected entry. */
  function BatchEntries(content: Content): seq<Entry> {
    if ContentEntries(content) == [] then [Rejected] else ContentEntries(content)
  }

  datatype Parsed = Parsed(items: seq<Item>, errors: seq<nat>, duplicates: nat)

  /** Reads the whole content, up to one entry past the limit. */
  method ReadContent(content: Content) returns (items: seq<Item>, errors: seq<nat>, count: nat)
    ensures count <= BATCH_LIMIT + 1 && (count > BATCH_LIMIT <==> |ContentEntries(content)| > BATCH_LIMIT)
    ensures count <= BATCH_LIMIT ==>
      && count == |BatchEntries(content)| == |items| + |errors| && items == AccountsIn(BatchEntries(content))
      && RejectedAt(BatchEntries(content), errors)
  {
    hide AccountsIn, ContentEntries;
    var parser := ReadInto(content);
    if parser.items == [] && parser.errors == [] { parser.Take(Rejected); }
    items, errors, count := parser.items, parser.errors, parser.index;
    assert count <= BATCH_LIMIT ==> parser.read == BatchEntries(content);
  }

  method ReadInto(content: Content) returns (parser: Parser)
    ensures fresh(parser) && parser.Valid() && parser.read == Capped(ContentEntries(content), BATCH_LIMIT + 1)
  {
    hide AccountsIn, EntriesOf;
    parser := new Parser();
    assert [] + ContentEntries(content) == ContentEntries(content);
    match content
    case Json(node) => parser.JsonValue(node, 0);
    case Malformed => parser.Take(Rejected);
    case Text(lines) => parser.Lines(lines);
  }

  ghost predicate RejectedAt(entries: seq<Entry>, places: seq<nat>) {
    forall k | 0 <= k < |places| :: places[k] < |entries| && entries[places[k]].Rejected?
  }

  /** ParseInput: refuses exactly the batches of more than 500 entries, however deeply they nest. */
  method ParseInput(fold: Fold, content: Content, exported: bool) returns (parsed: Option<Parsed>)
    ensures parsed.None? <==> |ContentEntries(content)| > BATCH_LIMIT
    ensures parsed.Some? ==>
      && |parsed.value.items| + |parsed.value.errors| + parsed.value.duplicates == |BatchEntries(content)| <= BATCH_LIMIT
      && RejectedAt(BatchEntries(content), parsed.value.errors)
    ensures parsed.Some? ==>
      parsed.value.items == if exported then AccountsIn(BatchEntries(content))
                            else Deduplicated(fold, AccountsIn(BatchEntries(content)))
  {
    hide ContentEntries, BatchEntries, RejectedAt;
    var items, errors, count := ReadContent(content);
    if count > BATCH_LIMIT { return None; }
    if exported { return Some(Parsed(items, errors, 0)); }
    var kept, duplicates := Deduplicate(fold, items);
    parsed := Some(Parsed(kept, errors, duplicates));
  }
}
