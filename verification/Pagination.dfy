/** Cutting a list into pages (backend/src/utils/pagination.ts). */
module Pagination {
  import opened Prelude

  const MAX_SIZE := 100

  datatype Window = Window(skip: nat, take: nat)

  datatype Meta = Meta(page: int, pageSize: int, totalItems: nat, totalPages: nat, hasNext: bool, hasPrevious: bool)

  function ApplyPagination(page: int, pageSize: int): (w: Window)
    ensures 1 <= w.take <= MAX_SIZE
  {
    var p, size := Max(1, page), Min(MAX_SIZE, Max(1, pageSize));
    assert (p - 1) * size >= 0;
    Window((p - 1) * size, size)
  }

  function CeilDiv(n: nat, d: nat): nat
    requires d > 0
  {
    (n + d - 1) / d
  }

  function BuildMeta(page: int, pageSize: int, totalItems: nat): Meta {
    var totalPages := Max(1, CeilDiv(totalItems, Max(1, pageSize)));
    Meta(page, pageSize, totalItems, totalPages, page < totalPages, page > 1)
  }

  /** The database's `skip` and `take`. */
  function Page<T>(items: seq<T>, page: int, pageSize: int): seq<T> {
    var w := ApplyPagination(page, pageSize);
    var from := Min(w.skip, |items|);
    items[from..Min(from + w.take, |items|)]
  }

  /** Pages 1 to n, one after the other. */
  function Pages<T>(items: seq<T>, pageSize: int, n: nat): seq<T> {
    if n == 0 then [] else Pages(items, pageSize, n - 1) + Page(items, n, pageSize)
  }

  lemma {:induction false} PagesArePrefix<T>(items: seq<T>, pageSize: int, n: nat)
    ensures n * ApplyPagination(1, pageSize).take >= 0
    ensures Pages(items, pageSize, n) == items[..Min(n * ApplyPagination(1, pageSize).take, |items|)]
  {
    var size := ApplyPagination(1, pageSize).take;
    if n > 0 {
      PagesArePrefix(items, pageSize, n - 1);
      assert ApplyPagination(n, pageSize) == Window((n - 1) * size, size);
      assert n * size == (n - 1) * size + size;
    } else {
      assert n * size == 0;
    }
  }

  /** All the pages the metadata announces. */
  function AllPages<T>(items: seq<T>, pageSize: int): seq<T> {
    Pages(items, pageSize, BuildMeta(1, pageSize, |items|).totalPages)
  }

  lemma CeilDivBounds(n: nat, d: nat)
    requires d > 0
    ensures CeilDiv(n, d) * d >= n
    ensures n > 0 ==> (CeilDiv(n, d) - 1) * d < n
  {
  }

  /**
   * For every list and requested size, the announced pages concatenate to the whole list,
   * nothing lost or repeated, exactly when the capped size still reaches the end: always
   * for sizes up to 100; above that the metadata counts pages the query does not cut.
   */
  lemma PagesPartitionExactlyWhenTheyReach<T>(items: seq<T>, pageSize: int)
    ensures var meta, take := BuildMeta(1, pageSize, |items|), ApplyPagination(1, pageSize).take;
      && (AllPages(items, pageSize) == items <==> |items| <= meta.totalPages * take)
      && (pageSize <= 100 ==> AllPages(items, pageSize) == items)
  {
    var meta, take := BuildMeta(1, pageSize, |items|), ApplyPagination(1, pageSize).take;
    PagesArePrefix(items, pageSize, meta.totalPages);
    CeilDivBounds(|items|, Max(1, pageSize));
    if |items| > meta.totalPages * take {
      assert |AllPages(items, pageSize)| == meta.totalPages * take;
    } else {
      assert items[..|items|] == items;
    }
    if pageSize <= MAX_SIZE {
      assert take == Max(1, pageSize);
      assert meta.totalPages * take >= |items|;
    }
  }

  /** For a validated page and size, the page holds that many items at most and begins after the pages before it. */
  lemma PageIsWhereItSays(page: int, pageSize: int)
    requires page >= 1 && 1 <= pageSize <= 100
    ensures ApplyPagination(page, pageSize) == Window((page - 1) * pageSize, pageSize)
    ensures BuildMeta(page, pageSize, 0).hasPrevious <==> ApplyPagination(page, pageSize).skip > 0
  {
    if page == 1 {
      assert (page - 1) * pageSize == 0;
    } else {
      Scale(1, page - 1, pageSize);
    }
  }

  /** And `hasNext` says that an item lies after the page, `hasPrevious` that one may lie before it. */
  lemma HasNextIsExact(page: int, pageSize: int, totalItems: nat)
    requires page >= 1 && 1 <= pageSize <= 100
    ensures var w, meta := ApplyPagination(page, pageSize), BuildMeta(page, pageSize, totalItems);
      && w.take == pageSize
      && (meta.hasNext <==> w.skip + w.take < totalItems)
      && (meta.hasPrevious <==> w.skip > 0)
      && meta.page == page && meta.pageSize == pageSize && meta.totalItems == totalItems
  {
    var q := CeilDiv(totalItems, pageSize);
    CeilDivBounds(totalItems, pageSize);
    PageIsWhereItSays(page, pageSize);
    hide ApplyPagination;
    if page < q {
      Scale(page, q - 1, pageSize);
    } else {
      Scale(q, page, pageSize);
    }
  }

  lemma Scale(a: int, b: int, d: nat)
    requires a <= b
    ensures a * d <= b * d && (b - 1) * d + d == b * d && (a - 1) * d + d == a * d
  {
  }
}
