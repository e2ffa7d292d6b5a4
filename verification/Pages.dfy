/** The paged member list of the app: page arithmetic, look-up and patching. */
module Pages {
  import opened Types

  const PAGE_SIZE := 100

  /** A member as the app shows it: its id, and the rest of what was read. */
  datatype MemberView = MemberView(tokenId: nat, owner: Option<Address>, revoked: bool, record: Member)

  /** One slot of a page: a missing member is kept as `None`. */
  type Slot = Option<MemberView>

  /** The loaded pages, newest first, and the page number of each. */
  datatype Pages = Pages(pages: seq<seq<Slot>>, pageParams: seq<int>)

  // ------------------------------------------------------- page arithmetic

  /** The number of the page an id is on, a hundred ids each, counted from id 0. */
  function PageOf(tokenId: nat): nat {
    tokenId / PAGE_SIZE
  }

  function TopPage(count: nat): nat {
    PageOf(if count == 0 then 0 else count - 1)
  }

  /** The `length` ids from `top` down; a negative length is an empty list. */
  function Countdown(top: int, length: int): seq<int> {
    seq(if length < 0 then 0 else length, i => top - i)
  }

  function PageIds(page: nat, count: nat): seq<int> {
    var top := (if count < (page + 1) * PAGE_SIZE then count else (page + 1) * PAGE_SIZE) - 1;
    Countdown(top, top - page * PAGE_SIZE + 1)
  }

  /** The ids of page `page`, then of the pages below it: the order they are loaded in. */
  function LoadedFrom(page: nat, count: nat): seq<int> {
    PageIds(page, count) + if page == 0 then [] else LoadedFrom(page - 1, count)
  }

  lemma {:induction false} LoadedFromCountsDown(page: nat, count: nat)
    requires page * PAGE_SIZE <= count
    ensures var top := (if count < (page + 1) * PAGE_SIZE then count else (page + 1) * PAGE_SIZE) - 1;
            LoadedFrom(page, count) == Countdown(top, top + 1)
  {
    if page > 0 {
      LoadedFromCountsDown(page - 1, count);
    }
  }

  /**
   * Loading every page from the top one down lists each id below `count` once,
   * newest first, and loads no empty page but the first of an empty list.
   */
  lemma PagesCoverAll(count: nat)
    ensures LoadedFrom(TopPage(count), count) == Countdown(count - 1, count)
    ensures forall page: nat :: PageIds(page, count) != [] <==> count > 0 && page <= TopPage(count)
    ensures count == 0 ==> TopPage(count) == 0
  {
    LoadedFromCountsDown(TopPage(count), count);
  }

  /** An id is listed on its own page exactly when it was minted, and on no other page. */
  lemma ListedOnItsPage(id: nat, page: nat, count: nat)
    ensures id in PageIds(page, count) <==> id < count && page == id / 100
  {
    var top := (if count < (page + 1) * PAGE_SIZE then count else (page + 1) * PAGE_SIZE) - 1;
    if id < count && page == PageOf(id) {
      assert PageIds(page, count)[top - id] == id;
    }
  }

  // --------------------------------------------------------------- look-up

  /** The first slot of a page with this id. */
  function FindIndex(page: seq<Slot>, tokenId: nat): (r: Option<nat>)
    ensures r.Some? ==> r.value < |page| && page[r.value].Some? && page[r.value].value.tokenId == tokenId
    ensures r.None? ==> forall i :: 0 <= i < |page| && page[i].Some? ==> page[i].value.tokenId != tokenId
  {
    if page == [] then None
    else if page[0].Some? && page[0].value.tokenId == tokenId then Some(0)
    else
      var r := FindIndex(page[1..], tokenId);
      assert forall i :: 0 < i < |page| ==> page[i] == page[1..][i - 1];
      if r.None? then None else Some(r.value + 1)
  }

  /** The first member with this id, page by page. */
  function Find(pages: seq<seq<Slot>>, tokenId: nat): Option<MemberView> {
    if pages == [] then None
    else
      var at := FindIndex(pages[0], tokenId);
      if at.Some? then Some(pages[0][at.value].value) else Find(pages[1..], tokenId)
  }

  /** The slot has a member with this id. */
  predicate IsHit(page: seq<Slot>, k: nat, tokenId: nat)
    requires k < |page|
  {
    page[k].Some? && page[k].value.tokenId == tokenId
  }

  lemma {:induction false} FirstHit(page: seq<Slot>, tokenId: nat, k: nat)
    requires k < |page| && IsHit(page, k, tokenId)
    requires forall j :: 0 <= j < k ==> !IsHit(page, j, tokenId)
    ensures FindIndex(page, tokenId) == Some(k)
  {
    if k > 0 {
      var rest := page[1..];
      assert !IsHit(page, 0, tokenId);
      forall j | 0 <= j < |rest|
        ensures IsHit(rest, j, tokenId) <==> IsHit(page, j + 1, tokenId)
      {
      }
      FirstHit(rest, tokenId, k - 1);
    }
  }

  /** Slot `k` of page `i` has one, and no slot in front of it, on its page or a page before. */
  ghost predicate FirstAt(pages: seq<seq<Slot>>, i: nat, k: nat, tokenId: nat) {
    && i < |pages| && k < |pages[i]| && IsHit(pages[i], k, tokenId)
    && (forall h :: 0 <= h < k ==> !IsHit(pages[i], h, tokenId))
    && (forall j, h :: 0 <= j < i && 0 <= h < |pages[j]| ==> !IsHit(pages[j], h, tokenId))
  }

  /** Scans the pages and returns at the first hit. */
  method FindInPages(cache: Pages, tokenId: nat) returns (r: Option<MemberView>)
    ensures r == Find(cache.pages, tokenId)
    ensures r.None? ==> forall i, k :: 0 <= i < |cache.pages| && 0 <= k < |cache.pages[i]| ==>
                          !IsHit(cache.pages[i], k, tokenId)
    ensures r.Some? ==> exists i: nat, k: nat :: FirstAt(cache.pages, i, k, tokenId) && cache.pages[i][k] == r
  {
    for i := 0 to |cache.pages|
      invariant Find(cache.pages, tokenId) == Find(cache.pages[i..], tokenId)
      invariant forall j, k :: 0 <= j < i && 0 <= k < |cache.pages[j]| ==> !IsHit(cache.pages[j], k, tokenId)
    {
      var page := cache.pages[i];
      assert cache.pages[i..][1..] == cache.pages[i + 1..];
      for k := 0 to |page|
        invariant forall j :: 0 <= j < k ==> !IsHit(page, j, tokenId)
      {
        if page[k].Some? && page[k].value.tokenId == tokenId {
          FirstHit(page, tokenId, k);
          assert FirstAt(cache.pages, i, k, tokenId);
          return Some(page[k].value);
        }
      }
      assert FindIndex(page, tokenId).Some? ==> IsHit(page, FindIndex(page, tokenId).value, tokenId);
    }
    return None;
  }

  // -------------------------------------------------------------- patching

  /** The sort key: missing members last. */
  function Key(s: Slot): int {
    if s.Some? then s.value.tokenId else -1
  }

  /** Insert in front of the first slot whose key is not larger. */
  function InsertByKey(s: Slot, sorted: seq<Slot>): seq<Slot> {
    if sorted == [] || Key(s) >= Key(sorted[0]) then [s] + sorted
    else [sorted[0]] + InsertByKey(s, sorted[1..])
  }

  /** The stable sort by descending key. */
  function SortByKey(slots: seq<Slot>): seq<Slot> {
    if slots == [] then [] else InsertByKey(slots[0], SortByKey(slots[1..]))
  }

  /** Replace the member in its slot, or insert it and sort. */
  function PatchPage(page: seq<Slot>, member: MemberView): seq<Slot> {
    var at := FindIndex(page, member.tokenId);
    if at.Some? then page[at.value := Some(member)] else SortByKey([Some(member)] + page)
  }

  function IndexOf(params: seq<int>, page: int): (r: Option<nat>)
    ensures r.Some? ==> r.value < |params| && params[r.value] == page
    ensures r.None? <==> page !in params
  {
    if params == [] then None
    else if params[0] == page then Some(0)
    else
      var r := IndexOf(params[1..], page);
      if r.None? then None else Some(r.value + 1)
  }

  /** The newest page loaded, below every page when none is. */
  function NewestPage(cache: Pages): int {
    if cache.pageParams == [] then -1 else cache.pageParams[0]
  }

  /** One step of the loop of `mergeIntoPages`. */
  function Merge(cache: Pages, member: MemberView): Pages {
    var page := PageOf(member.tokenId);
    var index := IndexOf(cache.pageParams, page);
    if index.None? then
      if page > NewestPage(cache) then Pages([[Some(member)]] + cache.pages, [page] + cache.pageParams)
      else cache
    else if index.value < |cache.pages| then
      cache.(pages := cache.pages[index.value := PatchPage(cache.pages[index.value], member)])
    else cache
  }

  function MergeAll(cache: Pages, members: seq<MemberView>): Pages {
    if members == [] then cache
    else Merge(MergeAll(cache, members[..|members| - 1]), members[|members| - 1])
  }

  /** Folds `Merge` over the members, in the order given. */
  method MergeIntoPages(cache: Pages, members: seq<MemberView>) returns (next: Pages)
    requires |cache.pages| == |cache.pageParams|
    ensures next == MergeAll(cache, members)
  {
    next := cache;
    for i := 0 to |members|
      invariant next == MergeAll(cache, members[..i])
      invariant |next.pages| == |next.pageParams|
    {
      assert members[..i + 1][..i] == members[..i];
      var member := members[i];
      var page := PageOf(member.tokenId);
      var index := IndexOf(next.pageParams, page);
      if index.None? {
        if page > NewestPage(next) {
          next := Pages([[Some(member)]] + next.pages, [page] + next.pageParams);
        }
        continue;
      }
      var current := next.pages[index.value];
      var at := FindIndex(current, member.tokenId);
      var updated :=
        if at.None? then SortByKey([Some(member)] + current)
        else current[at.value := Some(member)];
      next := next.(pages := next.pages[index.value := updated]);
    }
    assert members[..|members|] == members;
  }

  // ---------------------------------------------------------- well-formed pages

  /** Non-null ids strictly descend within the range of the page; missing members stand anywhere. */
  ghost predicate PageOrdered(page: seq<Slot>, number: int) {
    && (forall i :: 0 <= i < |page| && page[i].Some? ==> PageOf(page[i].value.tokenId) == number)
    && (forall i, j :: 0 <= i < j < |page| && page[i].Some? && page[j].Some? ==>
          page[i].value.tokenId > page[j].value.tokenId)
  }

  ghost predicate WellFormed(cache: Pages) {
    && |cache.pages| == |cache.pageParams|
    && (forall i, j :: 0 <= i < j < |cache.pageParams| ==> cache.pageParams[i] > cache.pageParams[j])
    && (forall i :: 0 <= i < |cache.pages| ==> cache.pageParams[i] >= 0)
    && (forall i :: 0 <= i < |cache.pages| ==> PageOrdered(cache.pages[i], cache.pageParams[i]))
  }

  /** A page as it is fetched, one slot for each of its ids, is ordered. */
  lemma FetchedPageOrdered(page: nat, count: nat, slots: seq<Slot>)
    requires |slots| == |PageIds(page, count)|
    requires forall i :: 0 <= i < |slots| && slots[i].Some? ==> slots[i].value.tokenId == PageIds(page, count)[i]
    ensures PageOrdered(slots, page)
  {
  }

  /** A page whose non-null ids are distinct. */
  ghost predicate DistinctIds(page: seq<Slot>) {
    forall i, j :: 0 <= i < j < |page| && page[i].Some? && page[j].Some? ==>
      page[i].value.tokenId != page[j].value.tokenId
  }

  ghost predicate Descending(page: seq<Slot>) {
    forall i, j :: 0 <= i < j < |page| ==> Key(page[i]) >= Key(page[j])
  }

  lemma {:induction false} InsertMembers(s: Slot, sorted: seq<Slot>)
    ensures forall x :: x in InsertByKey(s, sorted) <==> x == s || x in sorted
    ensures |InsertByKey(s, sorted)| == |sorted| + 1
  {
    if sorted == [] || Key(s) >= Key(sorted[0]) {
    } else {
      InsertMembers(s, sorted[1..]);
      assert sorted == [sorted[0]] + sorted[1..];
    }
  }

  lemma {:induction false} InsertDescending(s: Slot, sorted: seq<Slot>)
    requires Descending(sorted)
    ensures Descending(InsertByKey(s, sorted))
  {
    if sorted == [] || Key(s) >= Key(sorted[0]) {
    } else {
      InsertDescending(s, sorted[1..]);
      InsertMembers(s, sorted[1..]);
      var rest := InsertByKey(s, sorted[1..]);
      forall j | 0 <= j < |rest|
        ensures Key(sorted[0]) >= Key(rest[j])
      {
        assert rest[j] in rest;
        if rest[j] != s {
          var k :| 0 <= k < |sorted[1..]| && sorted[1..][k] == rest[j];
          assert sorted[k + 1] == rest[j];
        }
      }
    }
  }

  lemma {:induction false} InsertDistinct(s: Slot, sorted: seq<Slot>)
    requires DistinctIds(sorted)
    requires s.Some? ==> forall x :: x in sorted && x.Some? ==> x.value.tokenId != s.value.tokenId
    ensures DistinctIds(InsertByKey(s, sorted))
  {
    if sorted == [] || Key(s) >= Key(sorted[0]) {
    } else {
      assert sorted == [sorted[0]] + sorted[1..];
      InsertDistinct(s, sorted[1..]);
      InsertMembers(s, sorted[1..]);
      var rest := InsertByKey(s, sorted[1..]);
      forall j | 0 <= j < |rest| && rest[j].Some? && sorted[0].Some?
        ensures rest[j].value.tokenId != sorted[0].value.tokenId
      {
        assert rest[j] in rest;
        if rest[j] != s {
          var k :| 0 <= k < |sorted[1..]| && sorted[1..][k] == rest[j];
          assert sorted[k + 1] == rest[j];
        }
      }
    }
  }

  /** The slots with this key, in their order. */
  function WithKey(slots: seq<Slot>, key: int): seq<Slot> {
    if slots == [] then []
    else (if Key(slots[0]) == key then [slots[0]] else []) + WithKey(slots[1..], key)
  }

  lemma {:induction false} InsertPermutes(s: Slot, sorted: seq<Slot>)
    ensures multiset(InsertByKey(s, sorted)) == multiset{s} + multiset(sorted)
  {
    if sorted == [] || Key(s) >= Key(sorted[0]) {
    } else {
      InsertPermutes(s, sorted[1..]);
      assert sorted == [sorted[0]] + sorted[1..];
    }
  }

  lemma WithKeyCons(s: Slot, rest: seq<Slot>, key: int)
    ensures WithKey([s] + rest, key) == (if Key(s) == key then [s] else []) + WithKey(rest, key)
  {
    assert ([s] + rest)[1..] == rest;
  }

  /** A slot goes in front of those with its key, and no others change places. */
  lemma {:induction false} InsertStable(s: Slot, sorted: seq<Slot>, key: int)
    ensures WithKey(InsertByKey(s, sorted), key) == (if Key(s) == key then [s] else []) + WithKey(sorted, key)
  {
    hide WithKey;
    if sorted == [] || Key(s) >= Key(sorted[0]) {
      WithKeyCons(s, sorted, key);
    } else {
      InsertStable(s, sorted[1..], key);
      WithKeyCons(sorted[0], InsertByKey(s, sorted[1..]), key);
      WithKeyCons(sorted[0], sorted[1..], key);
      assert sorted == [sorted[0]] + sorted[1..];
    }
  }

  /** Each key's slots come out in the order they went in. */
  lemma {:induction false} SortStable(slots: seq<Slot>, key: int)
    ensures WithKey(SortByKey(slots), key) == WithKey(slots, key)
  {
    if slots != [] {
      SortStable(slots[1..], key);
      InsertStable(slots[0], SortByKey(slots[1..]), key);
    }
  }

  /** The same slots, each as often as before. */
  lemma {:induction false} SortPermutes(slots: seq<Slot>)
    ensures multiset(SortByKey(slots)) == multiset(slots)
  {
    if slots != [] {
      SortPermutes(slots[1..]);
      InsertPermutes(slots[0], SortByKey(slots[1..]));
      assert slots == [slots[0]] + slots[1..];
    }
  }

  /** Descending keys, and ids as distinct as before. */
  lemma {:induction false} SortKeepsIds(slots: seq<Slot>)
    ensures Descending(SortByKey(slots))
    ensures forall x :: x in SortByKey(slots) <==> x in slots
    ensures DistinctIds(slots) ==> DistinctIds(SortByKey(slots))
  {
    if slots != [] {
      var rest := slots[1..];
      assert slots == [slots[0]] + rest;
      SortKeepsIds(rest);
      InsertMembers(slots[0], SortByKey(rest));
      InsertDescending(slots[0], SortByKey(rest));
      if DistinctIds(slots) {
        assert DistinctIds(rest) by {
          assert forall i :: 0 <= i < |rest| ==> rest[i] == slots[i + 1];
        }
        forall x | x in SortByKey(rest) && x.Some? && slots[0].Some?
          ensures x.value.tokenId != slots[0].value.tokenId
        {
          var i :| 0 <= i < |rest| && rest[i] == x;
          assert slots[i + 1] == x;
        }
        InsertDistinct(slots[0], SortByKey(rest));
      }
    }
  }

  /** The sort is a stable one: a permutation, keys descending, equal keys in their order. */
  lemma SortIsSort(slots: seq<Slot>)
    ensures multiset(SortByKey(slots)) == multiset(slots)
    ensures Descending(SortByKey(slots))
    ensures forall key :: WithKey(SortByKey(slots), key) == WithKey(slots, key)
  {
    hide SortByKey, WithKey, Descending;
    SortPermutes(slots);
    SortKeepsIds(slots);
    forall key
      ensures WithKey(SortByKey(slots), key) == WithKey(slots, key)
    {
      SortStable(slots, key);
    }
  }

  /** Look-up in a page, as a property of its slots. */
  lemma FindIndexMeaning(page: seq<Slot>, number: int, m: MemberView)
    requires PageOrdered(page, number)
    ensures Some(m) in page <==>
            FindIndex(page, m.tokenId).Some? && page[FindIndex(page, m.tokenId).value] == Some(m)
  {
  }

  /** Patching keeps a page ordered; its members are those it had, with `member` in place of its id. */
  lemma PatchPageExact(page: seq<Slot>, number: int, member: MemberView)
    requires PageOrdered(page, number) && PageOf(member.tokenId) == number
    ensures PageOrdered(PatchPage(page, member), number)
    ensures forall m :: Some(m) in PatchPage(page, member) <==>
              m == member || (Some(m) in page && m.tokenId != member.tokenId)
  {
    hide PageOf;
    var at := FindIndex(page, member.tokenId);
    var patched := PatchPage(page, member);
    if at.Some? {
      assert patched[at.value] == Some(member);
      forall m | Some(m) in page && m.tokenId != member.tokenId
        ensures Some(m) in patched
      {
        var i :| 0 <= i < |page| && page[i] == Some(m);
        assert patched[i] == Some(m);
      }
      forall m | Some(m) in patched && m != member
        ensures Some(m) in page && m.tokenId != member.tokenId
      {
        var i :| 0 <= i < |patched| && patched[i] == Some(m);
        assert page[i] == Some(m);
      }
    } else {
      var slots := [Some(member)] + page;
      assert DistinctIds(slots);
      SortKeepsIds(slots);
      forall i | 0 <= i < |patched| && patched[i].Some?
        ensures PageOf(patched[i].value.tokenId) == number
      {
        assert patched[i] in slots;
      }
      forall m | Some(m) in page
        ensures m.tokenId != member.tokenId
      {
        var i :| 0 <= i < |page| && page[i] == Some(m);
      }
    }
  }

  /** The member is in some page. */
  ghost predicate Has(cache: Pages, m: MemberView) {
    exists i :: 0 <= i < |cache.pages| && Some(m) in cache.pages[i]
  }

  /** Two members with the same id are on the same page. */
  lemma OnOnePage(cache: Pages, i: nat, m: MemberView, j: nat, n: MemberView)
    requires WellFormed(cache) && i < |cache.pages| && j < |cache.pages|
    requires Some(m) in cache.pages[i] && Some(n) in cache.pages[j] && m.tokenId == n.tokenId
    ensures i == j
  {
  }

  /** In well-formed pages a member is found under its id exactly when it is there. */
  lemma {:induction false} FindMeaning(cache: Pages, m: MemberView)
    requires WellFormed(cache)
    ensures Find(cache.pages, m.tokenId) == Some(m) <==> Has(cache, m)
    decreases |cache.pages|
  {
    hide PageOf, PageOrdered;
    if cache.pages != [] {
      var rest := Pages(cache.pages[1..], cache.pageParams[1..]);
      FindMeaning(rest, m);
      FindIndexMeaning(cache.pages[0], cache.pageParams[0], m);
      assert forall i :: 0 <= i < |rest.pages| ==> rest.pages[i] == cache.pages[i + 1];
      var at := FindIndex(cache.pages[0], m.tokenId);
      if at.Some? && Has(cache, m) {
        var i :| 0 <= i < |cache.pages| && Some(m) in cache.pages[i];
        assert cache.pages[0][at.value] in cache.pages[0];
        OnOnePage(cache, 0, cache.pages[0][at.value].value, i, m);
      }
    }
  }

  lemma {:induction false} FindHasId(pages: seq<seq<Slot>>, id: nat)
    ensures Find(pages, id).Some? ==> Find(pages, id).value.tokenId == id
  {
    if pages != [] {
      FindHasId(pages[1..], id);
    }
  }

  /** Pages with the same members under an id answer alike. */
  lemma FindEqual(a: Pages, b: Pages, id: nat)
    requires WellFormed(a) && WellFormed(b)
    requires forall m: MemberView :: m.tokenId == id ==> (Has(a, m) <==> Has(b, m))
    ensures Find(a.pages, id) == Find(b.pages, id)
  {
    hide WellFormed, Has;
    FindHasId(a.pages, id);
    FindHasId(b.pages, id);
    if Find(a.pages, id).Some? {
      FindMeaning(a, Find(a.pages, id).value);
      FindMeaning(b, Find(a.pages, id).value);
    } else if Find(b.pages, id).Some? {
      FindMeaning(a, Find(b.pages, id).value);
      FindMeaning(b, Find(b.pages, id).value);
    }
  }

  // -------------------------------------------------------- what a merge does

  /** A newer page goes in front. */
  lemma PrependWellFormed(cache: Pages, slots: seq<Slot>, page: nat)
    requires WellFormed(cache)
    requires page > NewestPage(cache) && PageOrdered(slots, page)
    ensures WellFormed(Pages([slots] + cache.pages, [page] + cache.pageParams))
  {
  }

  lemma SingletonOrdered(member: MemberView)
    ensures PageOrdered([Some(member)], PageOf(member.tokenId))
  {
  }

  /** Merging a member keeps the pages well-formed. */
  lemma MergeWellFormed(cache: Pages, member: MemberView)
    requires WellFormed(cache)
    ensures WellFormed(Merge(cache, member))
  {
    hide PageOf, PatchPage, PageOrdered, NewestPage;
    var page := PageOf(member.tokenId);
    var index := IndexOf(cache.pageParams, page);
    if index.Some? {
      PatchPageExact(cache.pages[index.value], page, member);
    } else if page > NewestPage(cache) {
      SingletonOrdered(member);
      PrependWellFormed(cache, [Some(member)], page);
    }
  }

  lemma HasPage(cache: Pages, i: nat, m: MemberView)
    requires WellFormed(cache) && i < |cache.pages| && Some(m) in cache.pages[i]
    ensures PageOf(m.tokenId) == cache.pageParams[i]
  {
  }

  /** The only page a merge opens is the member's, a hundred ids a page, when it is newer than all loaded. */
  lemma MergeOpens(cache: Pages, member: MemberView)
    ensures var page, loaded := member.tokenId / 100, cache.pageParams;
            Merge(cache, member).pageParams ==
            if page !in loaded && (loaded == [] || page > loaded[0]) then [page] + loaded else loaded
  {
    hide PatchPage;
  }

  /**
   * A member whose page is loaded once it was merged takes the place of its
   * id; every other member stays. A member whose page is not is dropped.
   */
  lemma MergeMembers(cache: Pages, member: MemberView, m: MemberView)
    requires WellFormed(cache)
    ensures PageOf(member.tokenId) in Merge(cache, member).pageParams ==>
              (Has(Merge(cache, member), m) <==> m == member || (Has(cache, m) && m.tokenId != member.tokenId))
    ensures PageOf(member.tokenId) !in Merge(cache, member).pageParams ==> Merge(cache, member) == cache
  {
    hide PatchPage, PageOrdered;
    var page := PageOf(member.tokenId);
    var index := IndexOf(cache.pageParams, page);
    var next := Merge(cache, member);
    if index.Some? {
      var at := index.value;
      PatchPageExact(cache.pages[at], page, member);
      assert next.pages[at] == PatchPage(cache.pages[at], member);
      if Has(next, m) {
        var i :| 0 <= i < |next.pages| && Some(m) in next.pages[i];
        if i != at {
          assert Some(m) in cache.pages[i];
          HasPage(cache, i, m);
        }
      }
      if Has(cache, m) && m.tokenId != member.tokenId {
        var i :| 0 <= i < |cache.pages| && Some(m) in cache.pages[i];
        assert Some(m) in next.pages[i];
      }
    } else if page > NewestPage(cache) {
      assert next.pageParams[0] == page;
      assert forall i :: 0 <= i < |cache.pages| ==> next.pages[i + 1] == cache.pages[i];
      if Has(next, m) {
        var i :| 0 <= i < |next.pages| && Some(m) in next.pages[i];
        if i == 0 {
          assert m == member;
        } else {
          assert Some(m) in cache.pages[i - 1];
          HasPage(cache, i - 1, m);
        }
      }
      if m == member {
        assert Some(m) in next.pages[0];
      }
      if Has(cache, m) {
        var i :| 0 <= i < |cache.pages| && Some(m) in cache.pages[i];
        assert Some(m) in next.pages[i + 1];
        HasPage(cache, i, m);
      }
    }
  }

  /** Pages are only ever added, and the page of a merged member is never newer than the newest loaded. */
  lemma MergePages(cache: Pages, member: MemberView)
    requires WellFormed(cache)
    ensures var next := Merge(cache, member);
            && NewestPage(cache) <= NewestPage(next)
            && PageOf(member.tokenId) <= NewestPage(next)
            && (forall p :: p in cache.pageParams ==> p in next.pageParams)
            && (forall p :: p in next.pageParams ==> p in cache.pageParams || p > NewestPage(cache))
            && (forall p :: p in next.pageParams ==> p <= NewestPage(next))
  {
  }

  /** The last record of a list with this id. */
  function LastOf(members: seq<MemberView>, id: nat): Option<MemberView> {
    if members == [] then None
    else
      var last := members[|members| - 1];
      if last.tokenId == id then Some(last) else LastOf(members[..|members| - 1], id)
  }

  /** What look-up answers after a merge. */
  function Expected(before: Pages, members: seq<MemberView>, after: Pages, id: nat): Option<MemberView> {
    if PageOf(id) in after.pageParams && LastOf(members, id).Some? then LastOf(members, id)
    else Find(before.pages, id)
  }

  lemma {:induction false} LastOfNotNewer(members: seq<MemberView>, id: nat, newest: int)
    requires forall m :: m in members ==> PageOf(m.tokenId) <= newest
    ensures LastOf(members, id).Some? ==> PageOf(id) <= newest
    ensures LastOf(members, id).Some? ==>
              LastOf(members, id).value in members && LastOf(members, id).value.tokenId == id
  {
    hide PageOf;
    if members != [] && members[|members| - 1].tokenId != id {
      LastOfNotNewer(members[..|members| - 1], id, newest);
    }
  }

  /** One merge, as look-up sees it. */
  lemma MergeFinds(cache: Pages, member: MemberView, id: nat)
    requires WellFormed(cache)
    ensures Find(Merge(cache, member).pages, id) ==
            if id == member.tokenId && PageOf(id) in Merge(cache, member).pageParams then Some(member)
            else Find(cache.pages, id)
  {
    hide WellFormed, Find, PageOf, Merge, Has;
    var next := Merge(cache, member);
    MergeWellFormed(cache, member);
    if PageOf(member.tokenId) in next.pageParams {
      if id == member.tokenId {
        MergeMembers(cache, member, member);
        FindMeaning(next, member);
      } else {
        forall m: MemberView | m.tokenId == id
          ensures Has(next, m) <==> Has(cache, m)
        {
          MergeMembers(cache, member, m);
        }
        FindEqual(next, cache, id);
      }
    } else {
      MergeMembers(cache, member, member);
    }
  }

  /**
   * The page cache refines a map. Merging records keeps the pages well-formed
   * and loses no page; afterwards look-up gives, for every id whose page is
   * loaded, the last record merged under it, and the former answer otherwise.
   */
  lemma {:induction false} MergeRefinesMap(cache: Pages, members: seq<MemberView>)
    requires WellFormed(cache)
    ensures var next := MergeAll(cache, members);
            && WellFormed(next)
            && (forall p :: p in cache.pageParams ==> p in next.pageParams)
            && (forall m :: m in members ==> PageOf(m.tokenId) <= NewestPage(next))
            && (forall id: nat :: Find(next.pages, id) == Expected(cache, members, next, id))
  {
    hide WellFormed, Find, PageOf, Merge, NewestPage;
    if members != [] {
      var init, last := members[..|members| - 1], members[|members| - 1];
      assert members == init + [last];
      MergeRefinesMap(cache, init);
      var prev, next := MergeAll(cache, init), MergeAll(cache, members);
      MergeWellFormed(prev, last);
      MergePages(prev, last);
      forall id: nat
        ensures Find(next.pages, id) == Expected(cache, members, next, id)
      {
        MergeFinds(prev, last, id);
        LastOfNotNewer(init, id, NewestPage(prev));
      }
    }
  }

  // ------------------------------------------------------------ merging twice

  /** The same pages, slots and ids; only the records may differ. */
  ghost predicate SameShape(a: Pages, b: Pages) {
    && a.pageParams == b.pageParams
    && |a.pages| == |b.pages|
    && (forall i :: 0 <= i < |a.pages| ==> |a.pages[i]| == |b.pages[i]|)
    && (forall i, k :: 0 <= i < |a.pages| && 0 <= k < |a.pages[i]| ==> Key(a.pages[i][k]) == Key(b.pages[i][k]))
  }

  /** Merging a member that is there already replaces its record in its slot. */
  lemma MergeKeepsShape(cache: Pages, member: MemberView)
    requires WellFormed(cache)
    requires PageOf(member.tokenId) <= NewestPage(cache)
    requires PageOf(member.tokenId) in cache.pageParams ==> Find(cache.pages, member.tokenId).Some?
    ensures SameShape(cache, Merge(cache, member))
  {
    hide PageOf, PageOrdered, Find;
    var page := PageOf(member.tokenId);
    var index := IndexOf(cache.pageParams, page);
    if index.Some? {
      FindHasId(cache.pages, member.tokenId);
      var found := Find(cache.pages, member.tokenId).value;
      FindMeaning(cache, found);
      var i :| 0 <= i < |cache.pages| && Some(found) in cache.pages[i];
      HasPage(cache, i, found);
      assert i == index.value;
      FindIndexMeaning(cache.pages[i], page, found);
    }
  }

  lemma SameShapeTransitive(a: Pages, b: Pages, c: Pages)
    requires SameShape(a, b) && SameShape(b, c)
    ensures SameShape(a, c)
  {
  }

  /** Pages of one shape that answer alike are equal. */
  lemma SameShapeEqual(a: Pages, b: Pages)
    requires WellFormed(a) && WellFormed(b) && SameShape(a, b)
    requires forall id: nat :: Find(a.pages, id) == Find(b.pages, id)
    ensures a == b
  {
    hide WellFormed, Find;
    forall i | 0 <= i < |a.pages|
      ensures a.pages[i] == b.pages[i]
    {
      forall k | 0 <= k < |a.pages[i]|
        ensures a.pages[i][k] == b.pages[i][k]
      {
        assert Key(a.pages[i][k]) == Key(b.pages[i][k]);
        if a.pages[i][k].Some? {
          var m, n := a.pages[i][k].value, b.pages[i][k].value;
          assert Some(m) in a.pages[i] && Some(n) in b.pages[i];
          FindMeaning(a, m);
          FindMeaning(b, n);
        }
      }
    }
  }

  lemma {:induction false} MergeAllKeepsShape(cache: Pages, members: seq<MemberView>)
    requires WellFormed(cache)
    requires forall m :: m in members ==> PageOf(m.tokenId) <= NewestPage(cache)
    requires forall m :: m in members && PageOf(m.tokenId) in cache.pageParams ==> Find(cache.pages, m.tokenId).Some?
    ensures SameShape(cache, MergeAll(cache, members))
  {
    hide WellFormed, Find, PageOf, Merge;
    if members != [] {
      var init, last := members[..|members| - 1], members[|members| - 1];
      assert members == init + [last];
      MergeAllKeepsShape(cache, init);
      MergeRefinesMap(cache, init);
      var prev := MergeAll(cache, init);
      LastOfNotNewer(init, last.tokenId, NewestPage(cache));
      assert Find(prev.pages, last.tokenId) == Expected(cache, init, prev, last.tokenId);
      MergeKeepsShape(prev, last);
      SameShapeTransitive(cache, prev, Merge(prev, last));
    }
  }

  /** Whatever was merged is found, when its page is loaded. */
  lemma {:induction false} LastOfFound(members: seq<MemberView>, m: MemberView)
    requires m in members
    ensures LastOf(members, m.tokenId).Some?
  {
    if members[|members| - 1].tokenId != m.tokenId {
      assert members == members[..|members| - 1] + [members[|members| - 1]];
      LastOfFound(members[..|members| - 1], m);
    }
  }

  /** Merging the same records again changes nothing. */
  lemma MergeIdempotent(cache: Pages, members: seq<MemberView>)
    requires WellFormed(cache)
    ensures MergeAll(MergeAll(cache, members), members) == MergeAll(cache, members)
  {
    hide WellFormed, Find, PageOf, Merge, MergeAll;
    var once := MergeAll(cache, members);
    var twice := MergeAll(once, members);
    MergeRefinesMap(cache, members);
    MergeRefinesMap(once, members);
    forall m | m in members && PageOf(m.tokenId) in once.pageParams
      ensures Find(once.pages, m.tokenId).Some?
    {
      LastOfFound(members, m);
      assert Find(once.pages, m.tokenId) == Expected(cache, members, once, m.tokenId);
    }
    MergeAllKeepsShape(once, members);
    forall id: nat
      ensures Find(once.pages, id) == Find(twice.pages, id)
    {
      assert Find(once.pages, id) == Expected(cache, members, once, id);
      assert Find(twice.pages, id) == Expected(once, members, twice, id);
    }
    SameShapeEqual(once, twice);
  }
}
