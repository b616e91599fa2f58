/** Validated paging (adminclient/catalog_visit.go): all of a list, every item once, or an error. */
module Paging {
  import opened Common

  /**
   One page as the site answered it: unreadable, which includes a malformed total, or its item IDs and the total it
   declares, if it declares one.
   */
  datatype Page = Unreadable | Page(ids: seq<string>, total: Option<nat>)

  datatype Failure =
    | Cancelled | ReadFailed | UnstableId | RepeatedId | TotalChanged | TooMany | TooFew | VisitFailed | TooManyPages

  const PAGE_LIMIT := 10000

  /** The items of the pages up to the k-th, in order. */
  function Items(pages: seq<Page>): seq<string> {
    if pages == [] then []
    else
      var last := pages[|pages| - 1];
      if last.Page? then Items(pages[..|pages| - 1]) + last.ids else Items(pages[..|pages| - 1])
  }

  ghost predicate DeclaresOnly(pages: seq<Page>, total: nat) {
    forall p | p in pages && p.Page? && p.total.Some? :: p.total.value == total
  }

  ghost predicate DeclaresNothing(pages: seq<Page>) {
    forall p | p in pages && p.Page? :: p.total.None?
  }

  /** The pages read are one whole list: all of them valid, nothing twice, and as long as any of them declares. */
  ghost predicate WholeList(pages: seq<Page>) {
    && (forall p | p in pages :: p.Page?)
    && (forall id | id in Items(pages) :: StableId(id)) && AllDistinct(Items(pages))
    && (DeclaresNothing(pages) || DeclaresOnly(pages, |Items(pages)|))
  }

  /** The read stops at an empty page, or when the declared total is reached. */
  ghost predicate Ends(pages: seq<Page>) {
    && pages != [] && pages[|pages| - 1].Page?
    && (pages[|pages| - 1].ids == [] || (!DeclaresNothing(pages) && DeclaresOnly(pages, |Items(pages)|)))
  }

  /** The first n pages are where the read stops, and they are one whole list. */
  ghost predicate ReadWhole(pages: seq<Page>, n: nat) {
    && 1 <= n <= |pages| && Ends(pages[..n]) && WholeList(pages[..n])
    && forall k | 1 <= k < n :: !Ends(pages[..k])
  }

  lemma {:induction false} ItemsGrow(pages: seq<Page>, k: nat, n: nat)
    requires k <= n <= |pages|
    ensures Items(pages[..k]) <= Items(pages[..n])
  {
    if k < n {
      ItemsGrow(pages, k, n - 1);
      assert pages[..n][..n - 1] == pages[..n - 1];
    }
  }

  lemma NextPage(pages: seq<Page>, k: nat)
    requires k < |pages| && pages[k].Page?
    ensures pages[..k + 1] == pages[..k] + [pages[k]] && Items(pages[..k + 1]) == Items(pages[..k]) + pages[k].ids
    ensures DeclaresNothing(pages[..k + 1]) <==> DeclaresNothing(pages[..k]) && pages[k].total.None?
    ensures forall t :: DeclaresOnly(pages[..k + 1], t) <==>
      DeclaresOnly(pages[..k], t) && (pages[k].total.Some? ==> pages[k].total.value == t)
  {
    assert pages[..k + 1][..k] == pages[..k];
  }

  predicate Declares(page: Page, total: nat) {
    page.Page? && page.total == Some(total)
  }

  /** Two pages declare different totals, or one declares less than was read. */
  ghost predicate Misdeclared(pages: seq<Page>) {
    || (exists p, q, t, u :: p in pages && q in pages && Declares(p, t) && Declares(q, u) && t != u)
    || (exists p, t: nat :: p in pages && Declares(p, t) && t < |Items(pages)|)
  }

  /** What no further page can mend. */
  ghost predicate Flawed(pages: seq<Page>) {
    || (exists p :: p in pages && p.Unreadable?)
    || (exists id :: id in Items(pages) && !StableId(id))
    || !AllDistinct(Items(pages))
    || Misdeclared(pages)
  }

  lemma FlawedIsNotWhole(pages: seq<Page>)
    requires Flawed(pages)
    ensures !WholeList(pages)
  {
    hide StableId, Items;
    if p, t :| p in pages && Declares(p, t) { assert !DeclaresNothing(pages); }
  }

  lemma FlawsLast(pages: seq<Page>, k: nat, n: nat)
    requires k <= n <= |pages| && Flawed(pages[..k])
    ensures Flawed(pages[..n])
  {
    hide StableId, Items;
    ItemsGrow(pages, k, n);
    assert forall p | p in pages[..k] :: p in pages[..n];
    assert forall i | 0 <= i < |Items(pages[..k])| :: Items(pages[..k])[i] == Items(pages[..n])[i];
  }

  /** The callback of a read; an obliging one takes every item. */
  class Visitor {
    const obliging: bool
    var visited: seq<string>

    constructor (obliging: bool)
      ensures visited == [] && this.obliging == obliging
    {
      this.obliging, visited := obliging, [];
    }

    /** The callback; it may refuse an item, which ends the read. */
    method Visit(id: string) returns (ok: bool)
      modifies this
      ensures visited == if ok then old(visited) + [id] else old(visited)
      ensures obliging ==> ok
    {
      ok := *;
      ok := ok || obliging;
      if ok { visited := visited + [id]; }
    }

    method VisitPage(ids: seq<string>) returns (failure: Option<Failure>)
      modifies this
      ensures failure.None? ==> visited == old(visited) + ids
      ensures failure.Some? ==> failure.value == Cancelled || (failure.value == VisitFailed && !obliging)
      ensures old(visited) <= visited
    {
      for i := 0 to |ids|
        invariant visited == old(visited) + ids[..i]
      {
        var cancelled: bool := *;
        if cancelled { return Some(Cancelled); }
        var ok := Visit(ids[i]);
        if !ok { return Some(VisitFailed); }
      }
      assert ids[..|ids|] == ids;
      var cancelled: bool := *;
      failure := if cancelled then Some(Cancelled) else None;
    }
  }

  /** Checks the IDs of one page against everything seen; a repeated or unstable ID ends the read. */
  method CheckIds(ids: seq<string>, seen: set<string>, ghost earlier: seq<string>)
    returns (failure: Option<Failure>, all: set<string>)
    requires forall id :: id in seen <==> id in earlier
    requires (forall id | id in earlier :: StableId(id)) && AllDistinct(earlier)
    ensures failure.None? ==> forall id :: id in all <==> id in earlier + ids
    ensures failure.None? <==> (forall id | id in earlier + ids :: StableId(id)) && AllDistinct(earlier + ids)
    ensures failure.Some? ==> failure.value.UnstableId? || failure.value.RepeatedId?
  {
    hide StableId;
    all := seen;
    for i := 0 to |ids|
      invariant forall id :: id in all <==> id in earlier + ids[..i]
      invariant (forall id | id in earlier + ids[..i] :: StableId(id)) && AllDistinct(earlier + ids[..i])
    {
      assert earlier + ids[..i + 1] == earlier + ids[..i] + [ids[i]];
      assert (earlier + ids)[|earlier| + i] == ids[i];
      assert earlier + ids[..i] == (earlier + ids)[..|earlier| + i];
      if !StableId(ids[i]) { return Some(UnstableId), all; }
      if ids[i] in all {
        assert ids[i] in (earlier + ids)[..|earlier| + i];
        ghost var j :| 0 <= j < |earlier| + i && (earlier + ids)[j] == ids[i];
        return Some(RepeatedId), all;
      }
      all := all + {ids[i]};
    }
    assert earlier + ids[..|ids|] == earlier + ids;
    failure := None;
  }

  /** The pages are valid so far, and `declared` is the total they declare. */
  ghost predicate WholeSoFar(pages: seq<Page>, declared: Option<nat>) {
    && (forall p | p in pages :: p.Page?)
    && (forall id | id in Items(pages) :: StableId(id)) && AllDistinct(Items(pages))
    && declared == DeclaredTotal(pages)
    && match declared
       case None => DeclaresNothing(pages)
       case Some(total) => DeclaresOnly(pages, total) && |Items(pages)| <= total
  }

  /** The total declared last. */
  function DeclaredTotal(pages: seq<Page>): Option<nat> {
    if pages == [] then None
    else if pages[|pages| - 1].Page? && pages[|pages| - 1].total.Some? then pages[|pages| - 1].total
    else DeclaredTotal(pages[..|pages| - 1])
  }

  lemma {:induction false} TotalIsDeclared(pages: seq<Page>)
    ensures DeclaredTotal(pages).Some? ==> exists p :: p in pages && Declares(p, DeclaredTotal(pages).value)
  {
    if pages != [] {
      TotalIsDeclared(pages[..|pages| - 1]);
      assert pages[|pages| - 1] in pages;
    }
  }

  ghost predicate NotEndedBefore(pages: seq<Page>, page: nat)
    requires page <= |pages|
  {
    forall k | 1 <= k <= page :: !Ends(pages[..k])
  }

  lemma NothingWhole(pages: seq<Page>, page: nat)
    requires page < |pages| && NotEndedBefore(pages, page)
    requires forall n | page < n <= |pages| :: !WholeList(pages[..n]) || (n > page + 1 && Ends(pages[..page + 1]))
    ensures forall n: nat :: !ReadWhole(pages, n)
  {
    forall n: nat ensures !ReadWhole(pages, n) {
      if 1 <= n <= page { assert !Ends(pages[..n]); }
    }
  }

  lemma FlawedPage(pages: seq<Page>, page: nat)
    requires page < |pages| && NotEndedBefore(pages, page) && Flawed(pages[..page + 1])
    ensures forall n: nat :: !ReadWhole(pages, n)
  {
    hide WholeList, Ends, Flawed;
    forall n | page < n <= |pages| ensures !WholeList(pages[..n]) {
      FlawsLast(pages, page + 1, n);
      FlawedIsNotWhole(pages[..n]);
    }
    NothingWhole(pages, page);
  }

  /** One page: readable, its IDs stable and new, its total the declared one, and not beyond or short of it. */
  method CheckPage(pages: seq<Page>, page: nat, seen: set<string>, declared: Option<nat>, count: nat)
    returns (failure: Option<Failure>, all: set<string>, total: Option<nat>, read: nat)
    requires page < |pages| && Reading(pages, page, seen, declared, count)
    ensures failure.None? ==>
      && pages[page].Page? && (forall id :: id in all <==> id in Items(pages[..page + 1]))
      && WholeSoFar(pages[..page + 1], total) && read == |Items(pages[..page + 1])|
      && (pages[page].ids == [] && total.Some? ==> read == total.value)
    ensures failure.Some? ==>
      failure.value != Cancelled && failure.value != VisitFailed && forall n: nat :: !ReadWhole(pages, n)
  {
    hide StableId, Items, Ends, WholeList;
    all, total, read := seen, declared, count;
    assert pages[..page + 1][..page] == pages[..page];
    assert pages[page] in pages[..page + 1] by { assert pages[..page + 1][page] == pages[page]; }
    if pages[page].Unreadable? {
      FlawedPage(pages, page);
      return Some(ReadFailed), all, total, read;
    }
    NextPage(pages, page);
    failure, all := CheckIds(pages[page].ids, seen, Items(pages[..page]));
    if failure.Some? {
      FlawedPage(pages, page);
      return;
    }
    read := count + |pages[page].ids|;
    if pages[page].total.Some? {
      if declared.Some? && declared.value != pages[page].total.value {
        TotalIsDeclared(pages[..page]);
        assert forall p | p in pages[..page] :: p in pages[..page + 1];
        assert Declares(pages[page], pages[page].total.value);
        FlawedPage(pages, page);
        return Some(TotalChanged), all, total, read;
      }
      total := pages[page].total;
    }
    if total.Some? && read > total.value {
      TotalIsDeclared(pages[..page + 1]);
      FlawedPage(pages, page);
      return Some(TooMany), all, total, read;
    }
    if pages[page].ids == [] && total.Some? && read != total.value {
      ShortRead(pages, page, total.value);
      return Some(TooFew), all, total, read;
    }
  }

  /** An empty page ends the read, so what comes after it cannot complete the list. */
  lemma ShortRead(pages: seq<Page>, page: nat, total: nat)
    requires page < |pages| && NotEndedBefore(pages, page) && pages[page].Page? && pages[page].ids == []
    requires |Items(pages[..page + 1])| != total && DeclaredTotal(pages[..page + 1]) == Some(total)
    ensures forall n: nat :: !ReadWhole(pages, n)
  {
    assert pages[..page + 1][page] == pages[page];
    TotalIsDeclared(pages[..page + 1]);
    assert Ends(pages[..page + 1]) && !WholeList(pages[..page + 1]);
    NothingWhole(pages, page);
  }

  lemma EndsHere(pages: seq<Page>, page: nat, declared: Option<nat>)
    requires page < |pages| && WholeSoFar(pages[..page + 1], declared)
    ensures Ends(pages[..page + 1]) <==> pages[page].ids == [] || declared == Some(|Items(pages[..page + 1])|)
  {
    TotalIsDeclared(pages[..page + 1]);
    assert pages[..page + 1][page] == pages[page];
  }

  lemma ReadIsWhole(pages: seq<Page>, page: nat, declared: Option<nat>)
    requires page < |pages| && WholeSoFar(pages[..page + 1], declared) && NotEndedBefore(pages, page)
    requires Ends(pages[..page + 1]) && (declared.Some? ==> declared.value == |Items(pages[..page + 1])|)
    ensures ReadWhole(pages, page + 1)
  {
  }

  /** What the loop of visitPaged knows before it asks for the next page. */
  ghost predicate Reading(pages: seq<Page>, page: nat, seen: set<string>, declared: Option<nat>, count: nat) {
    && page <= |pages| && NotEndedBefore(pages, page) && (forall id :: id in seen <==> id in Items(pages[..page]))
    && WholeSoFar(pages[..page], declared) && count == |Items(pages[..page])|
  }

  /** Checks one page; `ends` tells whether it completes the list. */
  method ReadPage(pages: seq<Page>, page: nat, seen: set<string>, declared: Option<nat>, count: nat)
    returns (failure: Option<Failure>, all: set<string>, total: Option<nat>, read: nat, ends: bool)
    requires page < |pages| && Reading(pages, page, seen, declared, count)
    ensures failure.None? ==> pages[page].Page? && Items(pages[..page + 1]) == Items(pages[..page]) + pages[page].ids
    ensures failure.None? ==> if ends then ReadWhole(pages, page + 1) else Reading(pages, page + 1, all, total, read)
    ensures failure.Some? ==>
      failure.value != Cancelled && failure.value != VisitFailed && forall n: nat :: !ReadWhole(pages, n)
  {
    hide StableId, WholeSoFar, Ends, ReadWhole, Items;
    ends := false;
    failure, all, total, read := CheckPage(pages, page, seen, declared, count);
    if failure.Some? { return; }
    NextPage(pages, page);
    EndsHere(pages, page, total);
    ends := pages[page].ids == [] || total == Some(read);
    if ends { ReadIsWhole(pages, page, total); }
  }

  /**
   visitPaged: `pages` is what the site answers page by page. Success means the callback saw one whole list, in
   order; a failure that the caller did not cause means the pages hold none.
   */
  method VisitPaged(pages: seq<Page>, visitor: Visitor) returns (failure: Option<Failure>, read: nat)
    requires |pages| == PAGE_LIMIT
    modifies visitor
    ensures failure.None? ==> ReadWhole(pages, read) && visitor.visited == old(visitor.visited) + Items(pages[..read])
    ensures failure.Some? && failure.value != Cancelled && failure.value != VisitFailed ==>
      forall n: nat :: !ReadWhole(pages, n)
    ensures failure == Some(VisitFailed) ==> !visitor.obliging
    ensures old(visitor.visited) <= visitor.visited
  {
    hide StableId, Reading, ReadWhole, Items;
    ReadingStarts(pages);
    read := 0;
    var seen: set<string> := {};
    var declared: Option<nat> := None;
    var count := 0;
    ghost var before := visitor.visited;
    for page := 0 to PAGE_LIMIT
      invariant Reading(pages, page, seen, declared, count)
      invariant visitor.visited == before + Items(pages[..page])
    {
      read := page + 1;
      var cancelled: bool := *;
      if cancelled { return Some(Cancelled), read; }
      var ends: bool;
      failure, seen, declared, count, ends := ReadPage(pages, page, seen, declared, count);
      if failure.Some? { return; }
      failure := visitor.VisitPage(pages[page].ids);
      if failure.Some? || ends { return; }
    }
    NeverWhole(pages, seen, declared, count);
    failure := Some(TooManyPages);
  }

  lemma ReadingStarts(pages: seq<Page>)
    ensures Reading(pages, 0, {}, None, 0) && Items(pages[..0]) == []
  {
  }

  lemma NeverWhole(pages: seq<Page>, seen: set<string>, declared: Option<nat>, count: nat)
    requires Reading(pages, |pages|, seen, declared, count)
    ensures forall n: nat :: !ReadWhole(pages, n)
  {
    forall n: nat ensures !ReadWhole(pages, n) {
      if 1 <= n <= |pages| { assert !Ends(pages[..n]); }
    }
  }

  /** fetchPaged: one whole list, or a failure; unless the call was cancelled, the pages then hold none. */
  method FetchPaged(pages: seq<Page>) returns (items: Result<seq<string>, Failure>)
    requires |pages| == PAGE_LIMIT
    ensures match items
      case Ok(list) => exists n: nat :: ReadWhole(pages, n) && list == Items(pages[..n])
      case Err(failure) => failure != VisitFailed && (failure == Cancelled || forall n: nat :: !ReadWhole(pages, n))
  {
    var visitor := new Visitor(true);
    var failure, read := VisitPaged(pages, visitor);
    items := if failure.None? then Ok(visitor.visited) else Err(failure.value);
  }
}
