/** Offset paging of a workspace's tasks: the handler's and the service's clamps, the slice, the page count. */
module TaskPaging {
  import opened Prelude
  import opened Int64

  datatype ListError = InvalidInput | Forbidden

  datatype PaginationMeta = PaginationMeta(total: int, page: int, pageSize: int, totalPages: int)

  const DEFAULT_PAGE_SIZE := 20
  const MAX_PAGE_SIZE := 100

  function ClampPage(page: int): int { if page < 1 then 1 else page }

  function ClampSize(pageSize: int): (s: int)
    ensures 1 <= s <= MAX_PAGE_SIZE
  {
    if pageSize < 1 || pageSize > MAX_PAGE_SIZE then DEFAULT_PAGE_SIZE else pageSize
  }

  function Min(a: int, b: int): int { if a < b then a else b }

  /** `OFFSET`/`LIMIT` over the rows in query order; an offset that is not positive is left out of the query. */
  function Fetch<T>(rows: seq<T>, offset: int, limit: nat): seq<T> {
    var from := if offset <= 0 then 0 else Min(offset, |rows|);
    rows[from..Min(from + limit, |rows|)]
  }

  /** The rows a request for `page` gets: the offset is a 64-bit product. */
  function Page<T>(rows: seq<T>, page: int, pageSize: int): seq<T> {
    Fetch(rows, Wrap((ClampPage(page) - 1) * ClampSize(pageSize)), ClampSize(pageSize))
  }

  function TotalPages(total: nat, pageSize: int): nat {
    (total + ClampSize(pageSize) - 1) / ClampSize(pageSize)
  }

  /** How many rows the page has, of `total`. */
  function PageLength(total: nat, page: int, pageSize: int): nat {
    var offset := Wrap((ClampPage(page) - 1) * ClampSize(pageSize));
    var from := if offset <= 0 then 0 else Min(offset, total);
    Min(ClampSize(pageSize), total - from)
  }

  /** A page shows rows only, each once, in the order of the whole, and as many as there are from its offset on. */
  lemma PageIsSlice<T>(rows: seq<T>, all: set<T>, before: (T, T) -> bool, page: int, pageSize: int)
    requires Enumerates(rows, all) && InOrder(rows, before)
    ensures var shown := Page(rows, page, pageSize);
            && Elements(shown) <= all && Distinct(shown) && InOrder(shown, before)
            && |shown| == PageLength(|all|, page, pageSize)
  {
    EnumeratesLength(rows, all);
    assert forall x :: x in rows ==> x in Elements(rows);
  }

  /** `known`: neither the actor nor the workspace id is nil. */
  method ListByWorkspace<T>(rows: seq<T>, known: bool, isMember: bool, page: int, pageSize: int)
      returns (r: Result<(seq<T>, int), ListError>)
    ensures !known ==> r == Err(InvalidInput)
    ensures known && !isMember ==> r == Err(Forbidden)
    ensures known && isMember ==> r == Ok((Page(rows, page, pageSize), |rows|))
  {
    if !known {
      return Err(InvalidInput);
    }
    if !isMember {
      return Err(Forbidden);
    }
    var p, size := page, pageSize;
    if p < 1 {
      p := 1;
    }
    if size < 1 || size > MAX_PAGE_SIZE {
      size := DEFAULT_PAGE_SIZE;
    }
    var total := |rows|;
    var tasks := Fetch(rows, Wrap((p - 1) * size), size);
    return Ok((tasks, total));
  }

  /** The response's page and page size are the ones the service used. */
  method List<T>(rows: seq<T>, known: bool, isMember: bool, page: int, pageSize: int)
      returns (r: Result<(seq<T>, PaginationMeta), ListError>)
    requires |rows| <= TWO_63 - MAX_PAGE_SIZE
    ensures r.Ok? <==> known && isMember
    ensures r.Ok? ==>
              var (tasks, meta) := r.value;
              && tasks == Page(rows, meta.page, meta.pageSize) == Page(rows, page, pageSize)
              && meta.total == |rows| && meta.page >= 1 && 1 <= meta.pageSize <= MAX_PAGE_SIZE
              && meta.totalPages == TotalPages(|rows|, pageSize)
              && meta.page == (if page >= 1 then page else 1)
              && meta.pageSize == (if 1 <= pageSize <= 100 then pageSize else 20)
  {
    var listed := ListByWorkspace(rows, known, isMember, page, pageSize);
    if listed.Err? {
      return Err(listed.error);
    }
    var (tasks, total) := listed.value;
    var p, size := page, pageSize;
    if p < 1 {
      p := 1;
    }
    if size < 1 || size > 100 {
      size := 20;
    }
    var totalPages := Wrap(Wrap(total + size) - 1) / size;
    CountFits(total, size);
    return Ok((tasks, PaginationMeta(total, p, size, totalPages)));
  }

  lemma CountFits(total: nat, size: int)
    requires total <= TWO_63 - MAX_PAGE_SIZE && 1 <= size <= MAX_PAGE_SIZE
    ensures Wrap(Wrap(total + size) - 1) == total + size - 1
  {
    if total + size < TWO_63 {
      WrapIsUnique(total + size, total + size);
    } else {
      WrapIsUnique(total + size, -TWO_63);
    }
    WrapIsUnique(Wrap(total + size) - 1, total + size - 1);
  }

  /** Pages 1 to n, one after another. */
  function FirstPages<T>(rows: seq<T>, n: nat, pageSize: int): seq<T> {
    if n == 0 then [] else FirstPages(rows, n - 1, pageSize) + Page(rows, n, pageSize)
  }

  lemma InRangeOffset<T>(rows: seq<T>, page: int, pageSize: int)
    requires page >= 1 && (page - 1) * ClampSize(pageSize) < TWO_63
    ensures Page(rows, page, pageSize) == Fetch(rows, (page - 1) * ClampSize(pageSize), ClampSize(pageSize))
  {
    var size := ClampSize(pageSize);
    MulMonotone(0, page - 1, size);
    assert Wrap((page - 1) * size) == (page - 1) * size;
  }

  lemma {:induction false} FirstPagesArePrefix<T>(rows: seq<T>, n: nat, pageSize: int)
    requires |rows| <= TWO_63 - MAX_PAGE_SIZE && n <= TotalPages(|rows|, pageSize)
    ensures FirstPages(rows, n, pageSize) == rows[..Min(n * ClampSize(pageSize), |rows|)]
  {
    if n > 0 {
      FirstPagesArePrefix(rows, n - 1, pageSize);
      var from := NextPage(rows, n, pageSize);
      NextSlice(rows, from, ClampSize(pageSize));
    }
  }

  /** Where page n starts, n being no more than the number of pages. */
  lemma NextPage<T>(rows: seq<T>, n: nat, pageSize: int) returns (from: nat)
    requires |rows| <= TWO_63 - MAX_PAGE_SIZE && 0 < n <= TotalPages(|rows|, pageSize)
    ensures from == (n - 1) * ClampSize(pageSize) <= |rows| && from + ClampSize(pageSize) == n * ClampSize(pageSize)
    ensures Page(rows, n, pageSize) == Fetch(rows, from, ClampSize(pageSize))
  {
    var size := ClampSize(pageSize);
    BeforeLastPage(|rows|, n, size);
    from := (n - 1) * size;
    MulStep(n, size);
    InRangeOffset(rows, n, pageSize);
  }

  lemma MulStep(n: int, size: int)
    ensures n * size == (n - 1) * size + size
  {
  }

  lemma NextSlice<T>(rows: seq<T>, from: nat, size: nat)
    requires from <= |rows|
    ensures rows[..from] + Fetch(rows, from, size) == rows[..Min(from + size, |rows|)]
  {
  }

  lemma BeforeLastPage(total: nat, n: nat, size: int)
    requires size >= 1 && 0 < n <= (total + size - 1) / size
    ensures 0 <= (n - 1) * size < total || (n == 1 && total == 0)
  {
    var q := (total + size - 1) / size;
    assert q * size <= total + size - 1;
    MulMonotone(n, q, size);
    assert n * size == (n - 1) * size + size;
    MulMonotone(0, n - 1, size);
  }

  lemma MulMonotone(a: int, b: int, size: int)
    requires a <= b && size >= 1
    ensures a * size <= b * size
  {
  }

  /** Pages 1 to the reported count concatenate to exactly the whole list. */
  lemma PagesAreTheWholeList<T>(rows: seq<T>, pageSize: int)
    requires |rows| <= TWO_63 - MAX_PAGE_SIZE
    ensures FirstPages(rows, TotalPages(|rows|, pageSize), pageSize) == rows
  {
    var size := ClampSize(pageSize);
    FirstPagesArePrefix(rows, TotalPages(|rows|, pageSize), pageSize);
    CoversAll(|rows|, size);
  }

  lemma CoversAll(total: nat, size: int)
    requires size >= 1
    ensures (total + size - 1) / size * size >= total
  {
    var x := total + size - 1;
    assert x == x / size * size + x % size;
  }

  /**
   * A page past the end is empty exactly when its 64-bit offset has not wrapped back to a row or to no offset at all.
   */
  lemma LaterPageEmptyExactly<T>(rows: seq<T>, page: int, pageSize: int)
    requires rows != []
    ensures Page(rows, page, pageSize) == [] <==> Wrap((ClampPage(page) - 1) * ClampSize(pageSize)) >= |rows|
  {
  }

  /** In particular every later page whose offset fits 63 bits is empty. */
  lemma LaterPagesAreEmpty<T>(rows: seq<T>, page: int, pageSize: int)
    requires page > TotalPages(|rows|, pageSize) && (page - 1) * ClampSize(pageSize) < TWO_63
    ensures Page(rows, page, pageSize) == []
  {
    var size := ClampSize(pageSize);
    InRangeOffset(rows, page, pageSize);
    CoversAll(|rows|, size);
    MulMonotone(TotalPages(|rows|, pageSize), page - 1, size);
  }

  /**
   * The largest page number a request can carry wraps: to a negative offset, so to the first page again, when the
   * page size is even, and to an offset past every row when it is odd.
   */
  lemma LargestPageExactly<T>(rows: seq<T>, pageSize: int)
    requires |rows| <= TWO_63 - 2 * MAX_PAGE_SIZE
    ensures Page(rows, TWO_63 - 1, pageSize)
         == if ClampSize(pageSize) % 2 == 0 then Page(rows, 1, pageSize) else []
  {
    var size := ClampSize(pageSize);
    var half := size / 2;
    if size % 2 == 0 {
      assert (TWO_63 - 2) * size == -2 * size + half * TWO_64;
      WrapShift(-2 * size, half);
    } else {
      assert (TWO_63 - 2) * size == TWO_63 - 2 * size + half * TWO_64;
      WrapShift(TWO_63 - 2 * size, half);
    }
  }

  /** With the default page size it shows the first page, which is not empty when there is a task. */
  lemma LargestPageShowsFirst<T>(rows: seq<T>)
    requires 0 < |rows| <= TWO_63 - 2 * MAX_PAGE_SIZE
    ensures Page(rows, TWO_63 - 1, DEFAULT_PAGE_SIZE) == Page(rows, 1, DEFAULT_PAGE_SIZE) != []
  {
    LargestPageExactly(rows, DEFAULT_PAGE_SIZE);
  }
}
