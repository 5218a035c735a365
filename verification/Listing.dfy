/** Listing documents page by page, with the offset narrowed to 32 bits. */
module Listing {
  import opened Base
  import opened Documents

  const MAX_INT32 := 0x7fff_ffff
  const MAX_INT64 := 0x7fff_ffff_ffff_ffff

  /** Go's conversions to signed integers: keep the low bits, read as two's complement. */
  function Int32(x: int): int {
    var low := x % 0x1_0000_0000;
    if low > MAX_INT32 then low - 0x1_0000_0000 else low
  }

  function Int64(x: int): int {
    var low := x % 0x1_0000_0000_0000_0000;
    if low > MAX_INT64 then low - 0x1_0000_0000_0000_0000 else low
  }

  datatype Page = Page(page: int, pageSize: int)

  /** A page from 1 on and a size from 1 to 100 are kept; other sizes become 20 or 100. */
  function Normalize(page: int, pageSize: int): (r: Page)
    ensures r.page >= 1 && 1 <= r.pageSize <= 100
    ensures (page >= 1 ==> r.page == page) && (page < 1 ==> r.page == 1)
    ensures (1 <= pageSize <= 100 ==> r.pageSize == pageSize) && (pageSize < 1 ==> r.pageSize == 20)
    ensures pageSize > 100 ==> r.pageSize == 100
  {
    Page(
      if page < 1 then 1 else page,
      if pageSize < 1 then 20 else if pageSize > 100 then 100 else pageSize)
  }

  function Limit(page: Page): int {
    Int32(page.pageSize)
  }

  function Offset(page: Page): int {
    Int32(Int64(Int64(page.page - 1) * page.pageSize))
  }

  /** The conversions give the one number of the type that differs by a multiple of its range. */
  lemma NarrowingIsModular(x: int) returns (q: int, q': int)
    ensures -0x8000_0000 <= Int32(x) <= 0x7fff_ffff && x == Int32(x) + q * 0x1_0000_0000
    ensures -0x8000_0000_0000_0000 <= Int64(x) <= 0x7fff_ffff_ffff_ffff
    ensures x == Int64(x) + q' * 0x1_0000_0000_0000_0000
  {
    q := x / 0x1_0000_0000 + if Int32(x) < 0 then 1 else 0;
    q' := x / 0x1_0000_0000_0000_0000 + if Int64(x) < 0 then 1 else 0;
  }

  lemma Int32Facts(x: int)
    ensures Int32(x) <= MAX_INT32
    ensures 0 <= x <= MAX_INT32 ==> Int32(x) == x
    ensures MAX_INT32 < x <= MAX_INT32 + 100 ==> Int32(x) < 0
  {
  }

  lemma Int64Exact(x: int)
    requires 0 <= x <= MAX_INT64
    ensures Int64(x) == x
  {
  }

  /** On every page the limit is exact, and the offset is exact precisely up to the largest 32-bit integer. */
  lemma OffsetExactIff(page: int, pageSize: int)
    requires page <= MAX_INT64
    ensures
      var p := Normalize(page, pageSize);
      && Limit(p) == p.pageSize
      && (Offset(p) == (p.page - 1) * p.pageSize <==> (p.page - 1) * p.pageSize <= MAX_INT32)
      && (MAX_INT32 < (p.page - 1) * p.pageSize <= MAX_INT32 + 100 ==> Offset(p) < 0)
  {
    var p := Normalize(page, pageSize);
    var product := (p.page - 1) * p.pageSize;
    assert product >= 0;
    Int32Facts(p.pageSize);
    Int64Exact(p.page - 1);
    Int32Facts(Int64(product));
    if product <= MAX_INT32 + 100 {
      Int64Exact(product);
    }
  }

  /** At the capped size, the offset is exact up to page 21474837 and on no later one. */
  lemma OffsetAtFullSize(page: int)
    requires 1 <= page <= MAX_INT64
    ensures Offset(Page(page, 100)) == (page - 1) * 100 <==> page <= 21474837
  {
    OffsetExactIff(page, 100);
  }

  // ----- The queries -----

  predicate Listed(rows: Table, owner: Option<int>, id: int) {
    Live(rows, id) && (owner.Some? ==> rows[id].owner == owner.value)
  }

  function ListedIds(rows: Table, owner: Option<int>): set<int> {
    set id | id in rows && Listed(rows, owner, id)
  }

  /** ORDER BY id DESC. */
  predicate Descending(ids: seq<int>) {
    forall i, j :: 0 <= i < j < |ids| ==> ids[i] > ids[j]
  }

  /** The one listing of the undeleted rows of the owner, or of all owners, newest id first. */
  ghost predicate IsListing(ids: seq<int>, rows: Table, owner: Option<int>) {
    Descending(ids) && forall id :: id in ids <==> id in ListedIds(rows, owner)
  }

  lemma {:induction false} DescendingUnique(a: seq<int>, b: seq<int>)
    requires Descending(a) && Descending(b) && forall id :: id in a <==> id in b
    ensures a == b
  {
    assert a != [] ==> a[0] in a && a[0] in b;
    assert b != [] ==> b[0] in b && b[0] in a;
    if a != [] {
      assert a[0] == b[0];
      forall id ensures id in a[1..] <==> id in b[1..] {
        assert id in a[1..] <==> id in a && id != a[0];
        assert id in b[1..] <==> id in b && id != b[0];
      }
      DescendingUnique(a[1..], b[1..]);
    }
  }

  predicate IsGreatest(ids: set<int>, id: int) {
    id in ids && forall other :: other in ids ==> other <= id
  }

  lemma GreatestExists(ids: set<int>) returns (greatest: int)
    requires ids != {}
    ensures IsGreatest(ids, greatest)
  {
    assert (forall id :: id !in ids) ==> ids == {};
    var some :| some in ids;
    var rest := ids - {some};
    greatest := some;
    if rest != {} {
      var other := GreatestExists(rest);
      greatest := if other > some then other else some;
    }
    forall id | id in ids ensures id <= greatest {
      assert id == some || id in rest;
    }
  }

  /** What the query computes: greatest id first. */
  function Sorted(ids: set<int>): (r: seq<int>)
    ensures Descending(r) && |r| == |ids| && forall id :: id in r <==> id in ids
  {
    if ids == {} then []
    else
      assert exists id :: id in ids && IsGreatest(ids, id) by {
        var greatest := GreatestExists(ids);
        assert greatest in ids;
      }
      var greatest :| greatest in ids && IsGreatest(ids, greatest);
      [greatest] + Sorted(ids - {greatest})
  }

  function ListingOf(rows: Table, owner: Option<int>): (ids: seq<int>)
    ensures IsListing(ids, rows, owner) && |ids| == |ListedIds(rows, owner)|
  {
    Sorted(ListedIds(rows, owner))
  }

  /** LIMIT and OFFSET on a listing; a negative offset is an error. */
  function Slice(ids: seq<int>, page: Page): Option<seq<int>>
    requires page.pageSize >= 0 && Limit(page) >= 0
  {
    var offset, limit := Offset(page), Limit(page);
    if offset < 0 then None
    else if offset >= |ids| then Some([])
    else if offset + limit >= |ids| then Some(ids[offset..])
    else Some(ids[offset..offset + limit])
  }

  function PageOf(ids: seq<int>, page: int, pageSize: int): Option<seq<int>>
    requires page <= MAX_INT64
  {
    OffsetExactIff(page, pageSize);
    Slice(ids, Normalize(page, pageSize))
  }

  /** The rows of a page that starts within 32 bits: from its start on, as many as its size or fewer at the end. */
  lemma PageRows(ids: seq<int>, page: int, pageSize: int, start: int)
    requires page <= MAX_INT64
    requires start == (Normalize(page, pageSize).page - 1) * Normalize(page, pageSize).pageSize <= MAX_INT32
    ensures
      var size := Normalize(page, pageSize).pageSize;
      var selected := PageOf(ids, page, pageSize);
      && start >= 0 && selected.Some?
      && |selected.value| == (if start + size <= |ids| then size else if start < |ids| then |ids| - start else 0)
      && forall k :: 0 <= k < |selected.value| ==> 0 <= start + k < |ids| && selected.value[k] == ids[start + k]
  {
    OffsetExactIff(page, pageSize);
    hide Offset, Limit, Normalize;
    SliceRows(ids, Normalize(page, pageSize), start);
  }

  lemma SliceRows(ids: seq<int>, page: Page, start: int)
    requires 1 <= page.pageSize == Limit(page) && start == Offset(page) >= 0
    ensures
      var selected := Slice(ids, page);
      && selected.Some?
      && |selected.value| == (if start + page.pageSize <= |ids| then page.pageSize
                              else if start < |ids| then |ids| - start
                              else 0)
      && forall k :: 0 <= k < |selected.value| ==> 0 <= start + k < |ids| && selected.value[k] == ids[start + k]
  {
  }

  function PageCount(total: nat, pageSize: int): nat {
    var size := Normalize(1, pageSize).pageSize;
    (total + size - 1) / size
  }

  /** Pages 1 to n, one after the other; None if some page is an error. */
  function Pages(ids: seq<int>, pageSize: int, n: nat): Option<seq<int>>
    requires n <= MAX_INT64
  {
    if n == 0 then Some([])
    else
      var before, last := Pages(ids, pageSize, n - 1), PageOf(ids, n, pageSize);
      if before.Some? && last.Some? then Some(before.value + last.value) else None
  }

  lemma StartOfNext(n: int, size: int)
    ensures n * size == (n - 1) * size + size
  {
  }

  function Least(a: int, b: int): int {
    if a < b then a else b
  }

  lemma OnePage(ids: seq<int>, pageSize: int, n: nat, offset: nat)
    requires 1 <= n <= MAX_INT64
    requires offset == (n - 1) * Normalize(1, pageSize).pageSize <= MAX_INT32 && offset < |ids|
    ensures PageOf(ids, n, pageSize) == Some(ids[offset..Least(offset + Normalize(1, pageSize).pageSize, |ids|)])
  {
    OffsetExactIff(n, pageSize);
    assert ids[offset..] == ids[offset..|ids|];
  }

  lemma {:induction false} PagesAreAPrefix(ids: seq<int>, pageSize: int, size: int, n: nat)
    requires n <= MAX_INT64 && size == Normalize(1, pageSize).pageSize
    requires n > 0 ==> (n - 1) * size <= MAX_INT32 && (n - 1) * size < |ids|
    ensures n * size >= 0 && Pages(ids, pageSize, n) == Some(ids[..Least(n * size, |ids|)])
  {
    hide PageOf, Normalize;
    if n > 0 {
      var offset := (n - 1) * size;
      StartOfNext(n, size);
      StartOfNext(n - 1, size);
      PagesAreAPrefix(ids, pageSize, size, n - 1);
      OnePage(ids, pageSize, n, offset);
      var end := Least(offset + size, |ids|);
      assert ids[..offset] + ids[offset..end] == ids[..end];
    }
  }

  lemma {:induction false} PagesNeedAll(ids: seq<int>, pageSize: int, m: nat, n: nat)
    requires m <= n <= MAX_INT64
    ensures Pages(ids, pageSize, n).Some? ==> Pages(ids, pageSize, m).Some?
  {
    if m < n {
      PagesNeedAll(ids, pageSize, m, n - 1);
    }
  }

  lemma CountCovers(total: nat, size: int, n: nat)
    requires 1 <= size <= 100 && n == (total + size - 1) / size
    ensures n * size >= total && (n > 0 ==> (n - 1) * size < total) && n <= total
  {
    var rest := (total + size - 1) % size;
    assert total + size - 1 == n * size + rest;
    StartOfNext(n, size);
    if n > total {
      MoreThan(n, total, size);
    }
  }

  lemma MoreThan(n: int, total: nat, size: int)
    requires n > total && size >= 1
    ensures n * size >= total + size
  {
    Grows(total + 1, n, size);
    StartOfNext(total + 1, size);
    Grows(1, size, total);
  }

  lemma Grows(a: int, b: int, size: int)
    requires a <= b && size >= 0
    ensures a * size <= b * size
  {
  }

  /**
   * On an unchanged table, for any requested size, reading pages 1 to the last gives the
   * undeleted rows of the owner (or of all), newest first, each exactly once, if the last
   * page starts within 32 bits, and else runs into a page that is an error.
   */
  lemma PagesPartitionIff(rows: Table, owner: Option<int>, pageSize: int)
    requires |ListedIds(rows, owner)| <= MAX_INT64
    ensures
      var ids := ListingOf(rows, owner);
      var size := Normalize(1, pageSize).pageSize;
      var n := PageCount(|ids|, pageSize);
      && n <= MAX_INT64
      && (n - 1) * size < |ids| <= n * size
      && Descending(ids) && (forall id :: id in ids <==> Listed(rows, owner, id))
      && Pages(ids, pageSize, n) == if (n - 1) * size <= MAX_INT32 then Some(ids) else None
  {
    PagesIff(ListingOf(rows, owner), pageSize);
    var ids := ListingOf(rows, owner);
    CountCovers(|ids|, Normalize(1, pageSize).pageSize, PageCount(|ids|, pageSize));
  }

  lemma PagesIff(ids: seq<int>, pageSize: int)
    requires |ids| <= MAX_INT64
    ensures
      var size := Normalize(1, pageSize).pageSize;
      var n := PageCount(|ids|, pageSize);
      && n <= MAX_INT64
      && Pages(ids, pageSize, n) == if (n - 1) * size <= MAX_INT32 then Some(ids) else None
  {
    var size := Normalize(1, pageSize).pageSize;
    var n := PageCount(|ids|, pageSize);
    CountCovers(|ids|, size, n);
    if (n - 1) * size <= MAX_INT32 {
      AllPages(ids, pageSize, size, n);
    } else {
      SomePageFails(ids, pageSize, size, n);
    }
  }

  lemma AllPages(ids: seq<int>, pageSize: int, size: int, n: nat)
    requires n <= MAX_INT64 && size == Normalize(1, pageSize).pageSize
    requires (n - 1) * size <= MAX_INT32 && n * size >= |ids| && (n > 0 ==> (n - 1) * size < |ids|)
    ensures Pages(ids, pageSize, n) == Some(ids)
  {
    PagesAreAPrefix(ids, pageSize, size, n);
    assert ids[..|ids|] == ids;
  }

  lemma SomePageFails(ids: seq<int>, pageSize: int, size: int, n: nat)
    requires n <= MAX_INT64 && size == Normalize(1, pageSize).pageSize && (n - 1) * size > MAX_INT32
    ensures Pages(ids, pageSize, n).None?
  {
    var m := FirstBadPage(size, n);
    OffsetExactIff(m, pageSize);
    assert PageOf(ids, m, pageSize).None?;
    PagesNeedAll(ids, pageSize, m, n);
  }

  lemma FirstBadPage(size: int, n: nat) returns (m: nat)
    requires 1 <= size <= 100 && (n - 1) * size > MAX_INT32
    ensures 1 <= m <= n && MAX_INT32 < (m - 1) * size <= MAX_INT32 + 100
  {
    var q := MAX_INT32 / size;
    assert MAX_INT32 == q * size + MAX_INT32 % size;
    StartOfNext(q + 1, size);
    if n - 1 < q + 1 {
      Grows(n - 1, q, size);
    }
    m := q + 2;
  }

  lemma StartIs(page: int, pageSize: int, start: int)
    requires
      var size := if pageSize < 1 then 20 else if pageSize > 100 then 100 else pageSize;
      start == if page < 1 then 0 else (page - 1) * size
    ensures start == (Normalize(page, pageSize).page - 1) * Normalize(page, pageSize).pageSize
  {
    var p := Normalize(page, pageSize);
    if page < 1 {
      assert (p.page - 1) * p.pageSize == 0 * p.pageSize == 0;
    }
  }

  lemma PageIsListed(rows: Table, owner: Option<int>, page: int, pageSize: int)
    requires page <= MAX_INT64
    ensures
      var selected := PageOf(ListingOf(rows, owner), page, pageSize);
      selected.Some? ==>
        |selected.value| <= 100 && forall i :: 0 <= i < |selected.value| ==> Listed(rows, owner, selected.value[i])
  {
    var listing := ListingOf(rows, owner);
    var selected := PageOf(listing, page, pageSize);
    OffsetExactIff(page, pageSize);
    if selected.Some? {
      var offset := Offset(Normalize(page, pageSize));
      forall i | 0 <= i < |selected.value| ensures Listed(rows, owner, selected.value[i]) {
        assert selected.value[i] == listing[offset + i];
        assert selected.value[i] in ListedIds(rows, owner);
      }
    }
  }

  /** The items are the rows of the listing from position `start` on, in order. */
  predicate RowsFrom(items: seq<Row>, rows: Table, listing: seq<int>, start: int) {
    forall k :: 0 <= k < |items| ==> IsRowAt(items[k], rows, listing, start + k)
  }

  predicate IsRowAt(row: Row, rows: Table, listing: seq<int>, at: int) {
    0 <= at < |listing| && listing[at] in rows && row == rows[listing[at]]
  }

  /**
   * One page of documents and the total, as the repository builds them: two queries and a
   * loop over the rows. If the page starts within 32 bits it is the requested one.
   */
  method List(repository: DocumentRepository, owner: Option<int>, page: int, pageSize: int, listOk: bool, countOk: bool)
    returns (r: Result<(seq<Row>, int), RepositoryError>)
    requires page <= MAX_INT64
    ensures
      var selected := PageOf(ListingOf(repository.rows, owner), page, pageSize);
      && (r.Ok? <==> listOk && countOk && selected.Some?)
      && (r.Ok? ==>
            && r.value.1 == |ListedIds(repository.rows, owner)|
            && |r.value.0| == |selected.value| <= 100
            && forall i :: 0 <= i < |selected.value| ==>
                 Listed(repository.rows, owner, selected.value[i]) &&
                 r.value.0[i] == repository.rows[selected.value[i]])
    ensures
      var rows, listing := repository.rows, ListingOf(repository.rows, owner);
      var size := if pageSize < 1 then 20 else if pageSize > 100 then 100 else pageSize;
      var start := if page < 1 then 0 else (page - 1) * size;
      start <= MAX_INT32 ==>
        && (r.Ok? <==> listOk && countOk)
        && (r.Ok? ==>
              && |r.value.0| == (if start + size <= |listing| then size
                                 else if start < |listing| then |listing| - start
                                 else 0)
              && RowsFrom(r.value.0, rows, listing, start))
  {
    hide PageOf, ListedIds, RowsFrom, Normalize;
    ghost var size := if pageSize < 1 then 20 else if pageSize > 100 then 100 else pageSize;
    ghost var start := if page < 1 then 0 else (page - 1) * size;
    StartIs(page, pageSize, start);
    if start <= MAX_INT32 {
      PageRows(ListingOf(repository.rows, owner), page, pageSize, start);
    }
    var selected := PageOf(ListingOf(repository.rows, owner), page, pageSize);
    if !listOk || selected.None? {
      return Err(DatabaseError);
    }
    if !countOk {
      return Err(DatabaseError);
    }
    PageIsListed(repository.rows, owner, page, pageSize);
    var items := Fetch(repository, selected.value);
    if start <= MAX_INT32 {
      FetchedRows(items, repository.rows, owner, page, pageSize, start);
    }
    r := Ok((items, |ListingOf(repository.rows, owner)|));
  }

  method Fetch(repository: DocumentRepository, ids: seq<int>) returns (items: seq<Row>)
    requires forall i :: 0 <= i < |ids| ==> ids[i] in repository.rows
    ensures |items| == |ids| && forall i :: 0 <= i < |ids| ==> items[i] == repository.rows[ids[i]]
  {
    items := [];
    for i := 0 to |ids|
      invariant |items| == i
      invariant forall j :: 0 <= j < i ==> items[j] == repository.rows[ids[j]]
    {
      items := items + [repository.rows[ids[i]]];
    }
  }

  lemma FetchedRows(items: seq<Row>, rows: Table, owner: Option<int>, page: int, pageSize: int, start: int)
    requires page <= MAX_INT64
    requires start == (Normalize(page, pageSize).page - 1) * Normalize(page, pageSize).pageSize <= MAX_INT32
    requires
      var ids := PageOf(ListingOf(rows, owner), page, pageSize);
      && ids.Some? && |ids.value| == |items|
      && forall i :: 0 <= i < |items| ==> ids.value[i] in rows && items[i] == rows[ids.value[i]]
    ensures RowsFrom(items, rows, ListingOf(rows, owner), start)
  {
    hide PageOf, Normalize, ListedIds;
    var listing := ListingOf(rows, owner);
    PageRows(listing, page, pageSize, start);
    forall k | 0 <= k < |items| ensures IsRowAt(items[k], rows, listing, start + k)
    {
      assert PageOf(listing, page, pageSize).value[k] == listing[start + k];
    }
  }
}
