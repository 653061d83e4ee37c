/** Reading a remote list page by page (admin/lookup.go, and the list functions of
    admin/verify.go).

    The service may answer every request differently: it is a function of the number
    of the request and the offset asked for. The Go loops are unbounded; here they
    carry a budget of requests, and the theorems say how much is enough. */
module Pagination {
  import opened Wrappers

  const PAGE_SIZE: nat := 100

  /** A page, with the total the service reports (0 if it reports none). */
  datatype Reply<T> = Failed | Page(items: seq<T>, total: nat)

  type Service<T> = (nat, nat) -> Reply<T>

  predicate Complete(next: nat, count: nat, total: nat) {
    if total > 0 then next >= total else count < PAGE_SIZE
  }

  // ---- lookups ----

  datatype Found<T> = Missing | One(item: T) | Ambiguous | ServiceFailed | NotAdvancing | OutOfBudget

  function FromMatch<T>(found: Option<T>): Found<T> {
    if found.None? then Missing else One(found.value)
  }

  /** Going through one page with the match so far. */
  datatype PageScan<T> = Unique(found: Option<T>) | Twice

  function ScanPage<T>(items: seq<T>, wanted: T -> bool, found: Option<T>): PageScan<T> {
    if items == [] then Unique(found)
    else if !wanted(items[0]) then ScanPage(items[1..], wanted, found)
    else if found.Some? then Twice
    else ScanPage(items[1..], wanted, Some(items[0]))
  }

  /** The lookup from request n on. */
  function LookupFrom<T>(serve: Service<T>, wanted: T -> bool, n: nat, offset: nat, found: Option<T>, budget: nat)
    : Found<T>
    decreases budget
  {
    if budget == 0 then OutOfBudget
    else
      match serve(n, offset)
      case Failed => ServiceFailed
      case Page(items, total) =>
        var scan := ScanPage(items, wanted, found);
        if scan.Twice? then Ambiguous
        else
          var next := offset + |items|;
          if Complete(next, |items|, total) then FromMatch(scan.found)
          else if next == offset then NotAdvancing
          else LookupFrom(serve, wanted, n + 1, next, scan.found, budget - 1)
  }

  /** The loops of `lookupUserByUsername` and `lookupApplicationByName`. */
  method Lookup<T>(serve: Service<T>, wanted: T -> bool, budget: nat) returns (r: Found<T>)
    ensures r == LookupFrom(serve, wanted, 0, 0, None, budget)
  {
    var found: Option<T> := None;
    var offset: nat := 0;
    for n: nat := 0 to budget
      invariant LookupFrom(serve, wanted, 0, 0, None, budget) == LookupFrom(serve, wanted, n, offset, found, budget - n)
    {
      var reply := serve(n, offset);
      if reply.Failed? {
        return ServiceFailed;
      }
      ghost var before := found;
      for i := 0 to |reply.items|
        invariant ScanPage(reply.items, wanted, before) == ScanPage(reply.items[i..], wanted, found)
      {
        if !wanted(reply.items[i]) {
          continue;
        }
        if found.Some? {
          return Ambiguous;
        }
        found := Some(reply.items[i]);
      }
      var next := offset + |reply.items|;
      if Complete(next, |reply.items|, reply.total) {
        return FromMatch(found);
      }
      if next == offset {
        return NotAdvancing;
      }
      offset := next;
    }
    return OutOfBudget;
  }

  // ---- the list a service stands for ----

  /** The service reports the true length and every page before the end holds at
      least one item; page sizes are otherwise up to it. */
  ghost predicate CountedPages<T(!new)>(serve: Service<T>, all: seq<T>) {
    forall n: nat, offset: nat :: offset <= |all| ==> CountedPage(serve(n, offset), all, offset)
  }

  ghost predicate CountedPage<T(!new)>(r: Reply<T>, all: seq<T>, offset: nat)
    requires offset <= |all|
  {
    && r.Page? && r.total == |all|
    && r.items <= all[offset..]
    && (offset < |all| ==> r.items != [])
  }

  /** The service reports no total and fills every page but the last. */
  ghost predicate FullPages<T(!new)>(serve: Service<T>, all: seq<T>) {
    forall n: nat, offset: nat :: offset <= |all| ==>
      serve(n, offset)
      == Page(if offset + PAGE_SIZE <= |all| then all[offset..offset + PAGE_SIZE] else all[offset..], 0)
  }

  /** The items of a list that are wanted. */
  function Wanted<T>(items: seq<T>, wanted: T -> bool): seq<T> {
    if items == [] then [] else (if wanted(items[0]) then [items[0]] else []) + Wanted(items[1..], wanted)
  }

  /** What scanning the whole list would say. */
  function ScanAll<T>(all: seq<T>, wanted: T -> bool): Found<T> {
    var hits := Wanted(all, wanted);
    if |hits| == 0 then Missing else if |hits| == 1 then One(hits[0]) else Ambiguous
  }

  function AsSeq<T>(found: Option<T>): seq<T> {
    if found.None? then [] else [found.value]
  }

  lemma {:induction false} ScanPageCounts<T>(items: seq<T>, wanted: T -> bool, found: Option<T>)
    ensures var hits := AsSeq(found) + Wanted(items, wanted);
            ScanPage(items, wanted, found) ==
              if |hits| == 0 then Unique(None) else if |hits| == 1 then Unique(Some(hits[0])) else Twice
  {
    if items != [] {
      if !wanted(items[0]) {
        ScanPageCounts(items[1..], wanted, found);
      } else if found.None? {
        ScanPageCounts(items[1..], wanted, Some(items[0]));
        assert AsSeq(found) + Wanted(items, wanted) == [items[0]] + Wanted(items[1..], wanted);
      }
    }
  }

  lemma WantedCons<T>(x: T, s: seq<T>, wanted: T -> bool)
    ensures Wanted([x] + s, wanted) == (if wanted(x) then [x] else []) + Wanted(s, wanted)
  {
    assert ([x] + s)[1..] == s;
  }

  lemma {:induction false} WantedAppend<T>(a: seq<T>, b: seq<T>, wanted: T -> bool)
    ensures Wanted(a + b, wanted) == Wanted(a, wanted) + Wanted(b, wanted)
  {
    if a == [] {
      assert a + b == b;
    } else {
      hide Wanted;
      var x, rest := a[0], a[1..];
      assert a == [x] + rest && a + b == [x] + (rest + b);
      WantedAppend(rest, b, wanted);
      WantedCons(x, rest, wanted);
      WantedCons(x, rest + b, wanted);
    }
  }

  /** A page ends the reading only at the end of the list, and otherwise advances it. */
  ghost predicate FaithfulPage<T(!new)>(r: Reply<T>, all: seq<T>, offset: nat)
    requires offset <= |all|
  {
    && r.Page? && r.items <= all[offset..]
    && (if Complete(offset + |r.items|, |r.items|, r.total) then offset + |r.items| == |all| else r.items != [])
  }

  ghost predicate Faithful<T(!new)>(serve: Service<T>, all: seq<T>) {
    forall n: nat, offset: nat :: offset <= |all| ==> FaithfulPage(serve(n, offset), all, offset)
  }

  lemma BothAreFaithful<T(!new)>(serve: Service<T>, all: seq<T>)
    requires CountedPages(serve, all) || FullPages(serve, all)
    ensures Faithful(serve, all)
  {}

  lemma FaithfulSplit<T(!new)>(r: Reply<T>, all: seq<T>, offset: nat)
    requires offset <= |all| && FaithfulPage(r, all, offset)
    ensures var next := offset + |r.items|;
            next <= |all| && all[..next] == all[..offset] + r.items && all == all[..next] + all[next..]
  {}

  /** The match after one more page counts the hits of one more page. */
  lemma PageCounts<T(!new)>(r: Reply<T>, all: seq<T>, wanted: T -> bool, offset: nat, found: Option<T>)
    requires offset <= |all| && FaithfulPage(r, all, offset)
    requires AsSeq(found) == Wanted(all[..offset], wanted)
    ensures var next := offset + |r.items|;
            var scan := ScanPage(r.items, wanted, found);
            && next <= |all|
            && (scan.Unique? ==> AsSeq(scan.found) == Wanted(all[..next], wanted))
            && (scan.Twice? ==> |Wanted(all, wanted)| >= 2)
  {
    FaithfulSplit(r, all, offset);
    var next := offset + |r.items|;
    WantedAppend(all[..offset], r.items, wanted);
    WantedAppend(all[..next], all[next..], wanted);
    hide Wanted, ScanPage;
    ScanPageCounts(r.items, wanted, found);
  }

  lemma {:induction false} LookupScansRest<T(!new)>(
      serve: Service<T>, all: seq<T>, wanted: T -> bool, n: nat, offset: nat, found: Option<T>, budget: nat)
    requires Faithful(serve, all) && offset <= |all| && budget > |all| - offset
    requires AsSeq(found) == Wanted(all[..offset], wanted)
    ensures LookupFrom(serve, wanted, n, offset, found, budget) == ScanAll(all, wanted)
    decreases budget
  {
    var r := serve(n, offset);
    assert FaithfulPage(r, all, offset);
    PageCounts(r, all, wanted, offset, found);
    LookupTurn(serve, wanted, n, offset, found, budget);
    hide Wanted, ScanPage, Faithful, LookupFrom;
    var next := offset + |r.items|;
    var scan := ScanPage(r.items, wanted, found);
    if scan.Unique? {
      if Complete(next, |r.items|, r.total) {
        assert all[..next] == all;
      } else {
        LookupScansRest(serve, all, wanted, n + 1, next, scan.found, budget - 1);
      }
    }
  }

  /** One turn of the loop over pages. */
  lemma LookupTurn<T(!new)>(
      serve: Service<T>, wanted: T -> bool, n: nat, offset: nat, found: Option<T>, budget: nat)
    requires budget > 0 && serve(n, offset).Page?
    ensures var r := serve(n, offset);
            var scan, next := ScanPage(r.items, wanted, found), offset + |r.items|;
            LookupFrom(serve, wanted, n, offset, found, budget) ==
              if scan.Twice? then Ambiguous
              else if Complete(next, |r.items|, r.total) then FromMatch(scan.found)
              else if next == offset then NotAdvancing
              else LookupFrom(serve, wanted, n + 1, next, scan.found, budget - 1)
  {}

  /** Paging gives the same answer as a scan of the whole list, for any page sizes if
      the service reports the true total and for full pages if it reports none. */
  lemma LookupIsScan<T(!new)>(serve: Service<T>, all: seq<T>, wanted: T -> bool, budget: nat)
    requires CountedPages(serve, all) || FullPages(serve, all)
    requires budget > |all|
    ensures LookupFrom(serve, wanted, 0, 0, None, budget) == ScanAll(all, wanted)
  {
    BothAreFaithful(serve, all);
    LookupScansRest(serve, all, wanted, 0, 0, None, budget);
  }

  // ---- termination ----

  ghost predicate FixedTotal<T(!new)>(serve: Service<T>, total: nat) {
    forall n: nat, offset: nat :: serve(n, offset).Page? ==> serve(n, offset).total == total
  }

  lemma {:induction false} FixedTotalEnds<T(!new)>(
      serve: Service<T>, total: nat, wanted: T -> bool, n: nat, offset: nat, found: Option<T>, budget: nat)
    requires FixedTotal(serve, total) && total > 0 && offset < total && budget >= total - offset
    ensures LookupFrom(serve, wanted, n, offset, found, budget) != OutOfBudget
    decreases budget
  {
    var r := serve(n, offset);
    if r.Page? {
      var next := offset + |r.items|;
      var scan := ScanPage(r.items, wanted, found);
      if scan.Unique? && next < total && next != offset {
        FixedTotalEnds(serve, total, wanted, n + 1, next, scan.found, budget - 1);
      }
    }
  }

  /** Against a service that always reports the same positive total T, whatever pages
      it sends, a lookup is over after at most T requests. */
  lemma AtMostTotalRequests<T(!new)>(serve: Service<T>, total: nat, wanted: T -> bool)
    requires FixedTotal(serve, total) && total > 0
    ensures LookupFrom(serve, wanted, 0, 0, None, total) != OutOfBudget
  {
    FixedTotalEnds(serve, total, wanted, 0, 0, None, total);
  }

  /** Without a reported total nothing bounds the loop: full pages can go on forever. */
  lemma {:induction false} UnreportedTotalMayNeverEnd<T(!new)>(
      serve: Service<T>, junk: T, wanted: T -> bool, n: nat, offset: nat, budget: nat)
    requires !wanted(junk)
    requires forall n: nat, offset: nat :: serve(n, offset) == Page(seq(PAGE_SIZE, _ => junk), 0)
    ensures LookupFrom(serve, wanted, n, offset, None, budget) == OutOfBudget
    decreases budget
  {
    if budget > 0 {
      var page := seq(PAGE_SIZE, _ => junk);
      NoHits(page, junk, wanted, None);
      UnreportedTotalMayNeverEnd(serve, junk, wanted, n + 1, offset + PAGE_SIZE, budget - 1);
    }
  }

  lemma {:induction false} NoHits<T>(items: seq<T>, junk: T, wanted: T -> bool, found: Option<T>)
    requires !wanted(junk) && forall i :: 0 <= i < |items| ==> items[i] == junk
    ensures ScanPage(items, wanted, found) == Unique(found)
  {
    if items != [] {
      NoHits(items[1..], junk, wanted, found);
    }
  }

  ghost predicate Suffices<T(!new)>(budget: nat, total: nat, wanted: T -> bool) {
    forall serve: Service<T> :: FixedTotal(serve, total) ==>
      LookupFrom(serve, wanted, 0, 0, None, budget) != OutOfBudget
  }

  /** For a given reported total, some number of requests is enough against every service
      if and only if that total is positive. */
  lemma SomeBudgetSufficesIff<T(!new)>(total: nat, wanted: T -> bool, junk: T)
    requires !wanted(junk)
    ensures (exists budget: nat :: Suffices(budget, total, wanted)) <==> total > 0
  {
    if total > 0 {
      forall serve: Service<T> | FixedTotal(serve, total)
        ensures LookupFrom(serve, wanted, 0, 0, None, total) != OutOfBudget
      {
        AtMostTotalRequests(serve, total, wanted);
      }
      assert Suffices(total, total, wanted);
    } else {
      var serve: Service<T> := (n: nat, offset: nat) => Page(seq(PAGE_SIZE, _ => junk), 0);
      forall budget: nat ensures !Suffices(budget, total, wanted) {
        UnreportedTotalMayNeverEnd(serve, junk, wanted, 0, 0, budget);
        assert FixedTotal(serve, total);
      }
    }
  }

  // ---- listing everything ----

  datatype Listing<T> = Listed(all: seq<T>) | ListFailed | ListNotAdvancing | ListOutOfBudget

  function ListFrom<T>(serve: Service<T>, n: nat, offset: nat, soFar: seq<T>, budget: nat): Listing<T>
    decreases budget
  {
    if budget == 0 then ListOutOfBudget
    else
      match serve(n, offset)
      case Failed => ListFailed
      case Page(items, total) =>
        var next := offset + |items|;
        if Complete(next, |items|, total) then Listed(soFar + items)
        else if next == offset then ListNotAdvancing
        else ListFrom(serve, n + 1, next, soFar + items, budget - 1)
  }

  /** The loops of `listAllAuthorizations` and `listAllUserMetadata`. */
  method ListAll<T>(serve: Service<T>, budget: nat) returns (r: Listing<T>)
    ensures r == ListFrom(serve, 0, 0, [], budget)
  {
    var all: seq<T> := [];
    var offset: nat := 0;
    for n: nat := 0 to budget
      invariant ListFrom(serve, 0, 0, [], budget) == ListFrom(serve, n, offset, all, budget - n)
    {
      var reply := serve(n, offset);
      if reply.Failed? {
        return ListFailed;
      }
      all := all + reply.items;
      var next := offset + |reply.items|;
      if Complete(next, |reply.items|, reply.total) {
        return Listed(all);
      }
      if next == offset {
        return ListNotAdvancing;
      }
      offset := next;
    }
    return ListOutOfBudget;
  }

  lemma {:induction false} ListGetsRest<T(!new)>(serve: Service<T>, all: seq<T>, n: nat, offset: nat, budget: nat)
    requires Faithful(serve, all) && offset <= |all| && budget > |all| - offset
    ensures ListFrom(serve, n, offset, all[..offset], budget) == Listed(all)
    decreases budget
  {
    var r := serve(n, offset);
    var next := offset + |r.items|;
    assert FaithfulPage(r, all, offset);
    FaithfulSplit(r, all, offset);
    if Complete(next, |r.items|, r.total) {
      assert all[..next] == all;
    } else {
      ListGetsRest(serve, all, n + 1, next, budget - 1);
    }
  }

  /** Paging through a service returns its whole list, in order and without repeats. */
  lemma ListIsWhole<T(!new)>(serve: Service<T>, all: seq<T>, budget: nat)
    requires CountedPages(serve, all) || FullPages(serve, all)
    requires budget > |all|
    ensures ListFrom(serve, 0, 0, [], budget) == Listed(all)
  {
    BothAreFaithful(serve, all);
    ListGetsRest(serve, all, 0, 0, budget);
  }

  lemma {:induction false} FixedTotalEndsList<T(!new)>(
      serve: Service<T>, total: nat, n: nat, offset: nat, soFar: seq<T>, budget: nat)
    requires FixedTotal(serve, total) && total > 0 && offset < total && budget >= total - offset
    ensures ListFrom(serve, n, offset, soFar, budget) != ListOutOfBudget
    decreases budget
  {
    var r := serve(n, offset);
    if r.Page? {
      var next := offset + |r.items|;
      if next < total && next != offset {
        FixedTotalEndsList(serve, total, n + 1, next, soFar + r.items, budget - 1);
      }
    }
  }

  /** A listing too is over after at most T requests, whatever pages come back. */
  lemma ListAtMostTotalRequests<T(!new)>(serve: Service<T>, total: nat)
    requires FixedTotal(serve, total) && total > 0
    ensures ListFrom(serve, 0, 0, [], total) != ListOutOfBudget
  {
    FixedTotalEndsList(serve, total, 0, 0, [], total);
  }

  lemma {:induction false} UnreportedTotalMayNeverEndList<T(!new)>(
      serve: Service<T>, item: T, n: nat, offset: nat, soFar: seq<T>, budget: nat)
    requires forall n: nat, offset: nat :: serve(n, offset) == Page(seq(PAGE_SIZE, _ => item), 0)
    ensures ListFrom(serve, n, offset, soFar, budget) == ListOutOfBudget
    decreases budget
  {
    if budget > 0 {
      var page := seq(PAGE_SIZE, _ => item);
      UnreportedTotalMayNeverEndList(serve, item, n + 1, offset + PAGE_SIZE, soFar + page, budget - 1);
    }
  }

  ghost predicate SufficesToList<T(!new)>(budget: nat, total: nat, item: T) {
    forall serve: Service<T> :: FixedTotal(serve, total) ==> ListFrom(serve, 0, 0, [], budget) != ListOutOfBudget
  }

  /** And as for lookups, some number of requests is enough against every service if and
      only if the reported total is positive. */
  lemma SomeBudgetListsIff<T(!new)>(total: nat, item: T)
    ensures (exists budget: nat :: SufficesToList(budget, total, item)) <==> total > 0
  {
    if total > 0 {
      forall serve: Service<T> | FixedTotal(serve, total)
        ensures ListFrom(serve, 0, 0, [], total) != ListOutOfBudget
      {
        ListAtMostTotalRequests(serve, total);
      }
      assert SufficesToList(total, total, item);
    } else {
      var serve: Service<T> := (n: nat, offset: nat) => Page(seq(PAGE_SIZE, _ => item), 0);
      forall budget: nat ensures !SufficesToList(budget, total, item) {
        UnreportedTotalMayNeverEndList(serve, item, 0, 0, [], budget);
        assert FixedTotal(serve, total);
      }
    }
  }

  // ---- against any service at all ----

  /** Whether the loops stop after a page: the reported total is reached, or none is
      reported and the page has fewer than 100 items. */
  predicate Ends<T>(r: Reply<T>, offset: nat)
    requires r.Page?
  {
    (r.total > 0 && offset + |r.items| >= r.total) || (r.total == 0 && |r.items| < 100)
  }

  /** Requests n to m - 1, asked from `offset` on, bring pages that hold `items` in all and
      after which the loops go on; the next request is for `end`. */
  ghost predicate ReadSoFar<T(!new)>(serve: Service<T>, n: nat, offset: nat, items: seq<T>, m: nat, end: nat)
    decreases m - n
  {
    if m <= n then m == n && items == [] && end == offset
    else
      var r := serve(n, offset);
      && r.Page? && r.items != [] && !Ends(r, offset) && r.items <= items
      && ReadSoFar(serve, n + 1, offset + |r.items|, items[|r.items|..], m, end)
  }

  lemma {:induction false} ListAfter<T(!new)>(serve: Service<T>, n: nat, offset: nat, items: seq<T>, m: nat, end: nat,
                                              soFar: seq<T>, budget: nat)
    requires n <= m && ReadSoFar(serve, n, offset, items, m, end) && budget >= m - n
    ensures ListFrom(serve, n, offset, soFar, budget) == ListFrom(serve, m, end, soFar + items, budget - (m - n))
    decreases m - n
  {
    if m == n {
      assert soFar + items == soFar;
    } else {
      var r := serve(n, offset);
      ListAfter(serve, n + 1, offset + |r.items|, items[|r.items|..], m, end, soFar + r.items, budget - 1);
      assert soFar + items == soFar + r.items + items[|r.items|..];
    }
  }

  /** How a listing ends, whatever was read before: a failed request fails it, a last page
      completes it with everything read, and an empty page before the end stops it. */
  lemma ListEnds<T(!new)>(serve: Service<T>, items: seq<T>, m: nat, end: nat, budget: nat)
    requires ReadSoFar(serve, 0, 0, items, m, end) && budget >= m
    ensures var r := serve(m, end);
            ListFrom(serve, 0, 0, [], budget) ==
              if budget == m then ListOutOfBudget
              else if r.Failed? then ListFailed
              else if Ends(r, end) then Listed(items + r.items)
              else if r.items == [] then ListNotAdvancing
              else ListFrom(serve, m + 1, end + |r.items|, items + r.items, budget - m - 1)
  {
    ListAfter(serve, 0, 0, items, m, end, [], budget);
    assert [] + items == items;
  }

  /** One page that does not end the loop. */
  lemma LookupGoesOn<T(!new)>(serve: Service<T>, wanted: T -> bool, n: nat, offset: nat, found: Option<T>, budget: nat)
    requires budget > 0 && serve(n, offset).Page? && serve(n, offset).items != [] && !Ends(serve(n, offset), offset)
    ensures var r := serve(n, offset);
            var hits := AsSeq(found) + Wanted(r.items, wanted);
            LookupFrom(serve, wanted, n, offset, found, budget) ==
              if |hits| >= 2 then Ambiguous
              else LookupFrom(serve, wanted, n + 1, offset + |r.items|, Hit(hits), budget - 1)
  {
    var r := serve(n, offset);
    LookupTurn(serve, wanted, n, offset, found, budget);
    ScanPageCounts(r.items, wanted, found);
    hide Wanted, ScanPage, LookupFrom;
  }

  lemma HitsAdd<T>(found: Option<T>, items: seq<T>, first: seq<T>, rest: seq<T>, wanted: T -> bool)
    requires items == first + rest
    ensures var hits := AsSeq(found) + Wanted(first, wanted);
            && AsSeq(found) + Wanted(items, wanted) == hits + Wanted(rest, wanted)
            && (|hits| < 2 ==> AsSeq(Hit(hits)) == hits)
  {
    WantedAppend(first, rest, wanted);
    hide Wanted;
  }

  lemma {:induction false} LookupAfter<T(!new)>(
      serve: Service<T>, wanted: T -> bool, n: nat, offset: nat, items: seq<T>, m: nat, end: nat,
      found: Option<T>, budget: nat)
    requires n <= m && ReadSoFar(serve, n, offset, items, m, end) && budget >= m - n
    ensures var hits := AsSeq(found) + Wanted(items, wanted);
            LookupFrom(serve, wanted, n, offset, found, budget) ==
              if |hits| >= 2 then Ambiguous else LookupFrom(serve, wanted, m, end, Hit(hits), budget - (m - n))
    decreases m - n
  {
    if m > n {
      var r := serve(n, offset);
      var rest := items[|r.items|..];
      var hits := AsSeq(found) + Wanted(r.items, wanted);
      assert r.Page? && r.items != [] && !Ends(r, offset) && items == r.items + rest;
      assert ReadSoFar(serve, n + 1, offset + |r.items|, rest, m, end);
      hide *;
      LookupGoesOn(serve, wanted, n, offset, found, budget);
      HitsAdd(found, items, r.items, rest, wanted);
      if |hits| < 2 {
        LookupAfter(serve, wanted, n + 1, offset + |r.items|, rest, m, end, Hit(hits), budget - 1);
      }
    } else {
      assert Wanted(items, wanted) == [] && AsSeq(found) + [] == AsSeq(found);
      hide Wanted, LookupFrom;
    }
  }

  function Hit<T>(hits: seq<T>): Option<T> {
    if |hits| == 1 then Some(hits[0]) else None
  }

  /** The last page looked at. */
  lemma LookupStops<T(!new)>(serve: Service<T>, wanted: T -> bool, n: nat, offset: nat, found: Option<T>, budget: nat)
    requires budget > 0
    ensures var r, got := serve(n, offset), LookupFrom(serve, wanted, n, offset, found, budget);
            && (r.Failed? ==> got == ServiceFailed)
            && (r.Page? ==>
                 var hits := AsSeq(found) + Wanted(r.items, wanted);
                 && (|hits| >= 2 ==> got == Ambiguous)
                 && (|hits| < 2 && Ends(r, offset) ==> got == FromMatch(Hit(hits)))
                 && (|hits| < 2 && !Ends(r, offset) && r.items == [] ==> got == NotAdvancing))
  {
    var r := serve(n, offset);
    if r.Page? {
      LookupTurn(serve, wanted, n, offset, found, budget);
      ScanPageCounts(r.items, wanted, found);
      hide Wanted, ScanPage, LookupFrom;
    }
  }

  /** How a lookup ends, whatever was read before: two items found make it ambiguous at
      once; otherwise a failed request fails it, a last page completes it with the item
      found, and an empty page before the end stops it. */
  lemma LookupEnds<T(!new)>(serve: Service<T>, wanted: T -> bool, items: seq<T>, m: nat, end: nat, budget: nat)
    requires ReadSoFar(serve, 0, 0, items, m, end) && budget > m
    ensures var r, got := serve(m, end), LookupFrom(serve, wanted, 0, 0, None, budget);
            && (|Wanted(items, wanted)| >= 2 ==> got == Ambiguous)
            && (|Wanted(items, wanted)| < 2 && r.Failed? ==> got == ServiceFailed)
            && (r.Page? && |Wanted(items + r.items, wanted)| >= 2 ==> got == Ambiguous)
            && (r.Page? && |Wanted(items + r.items, wanted)| < 2 ==>
                 && (Ends(r, end) ==> got == FromMatch(Hit(Wanted(items + r.items, wanted))))
                 && (!Ends(r, end) && r.items == [] ==> got == NotAdvancing))
  {
    hide Wanted, LookupFrom, ReadSoFar, Ends, FromMatch;
    LookupAfter(serve, wanted, 0, 0, items, m, end, None, budget);
    var hits := Wanted(items, wanted);
    assert AsSeq(None) + hits == hits;
    var r := serve(m, end);
    if |hits| < 2 {
      assert AsSeq(Hit(hits)) == hits;
      LookupStops(serve, wanted, m, end, Hit(hits), budget - m);
    }
    if r.Page? {
      WantedAppend(items, r.items, wanted);
    }
  }
}
