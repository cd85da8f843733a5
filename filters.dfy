/**
 * internal/data/filters.go: paging and sorting parameters of a listing
 * request, their validation, and the ORDER BY / LIMIT / OFFSET values
 * derived from them.
 */
module Filters {
  import opened Decimal
  import opened Text
  import V = Validator

  const MaxPage: int := 10_000_000
  const MaxPageSize: int := 100

  /** `data.Filters`; `page` and `pageSize` are Go `int`s. */
  datatype Filters = Filters(page: Int64, pageSize: Int64, sort: string, sortSafelist: seq<string>)

  /** The error map `ValidateFilters` leaves behind, starting from `errors`. */
  function FilterErrors(errors: map<string, string>, f: Filters): (r: map<string, string>)
    ensures "page" in r <==> "page" in errors || f.page <= 0 || f.page > MaxPage
    ensures "page_size" in r <==> "page_size" in errors || f.pageSize <= 0 || f.pageSize > MaxPageSize
    ensures "sort" in r <==> "sort" in errors || f.sort !in f.sortSafelist
    ensures "page" !in errors && f.page <= 0 ==> r["page"] == "must be greater than zero"
    ensures "page" !in errors && f.page > MaxPage ==> r["page"] == "must be a maximum of 10 million"
    ensures "page_size" !in errors && f.pageSize <= 0 ==> r["page_size"] == "must be greater than zero"
    ensures "page_size" !in errors && f.pageSize > MaxPageSize ==> r["page_size"] == "must be a maximum of 100"
    ensures "sort" !in errors && f.sort !in f.sortSafelist ==> r["sort"] == "invalid sort value"
    ensures r.Keys <= errors.Keys + {"page", "page_size", "sort"}
    ensures forall k :: k in errors ==> k in r && r[k] == errors[k]
  {
    var e1 := V.Checked(errors, f.page > 0, "page", "must be greater than zero");
    var e2 := V.Checked(e1, f.page <= MaxPage, "page", "must be a maximum of 10 million");
    var e3 := V.Checked(e2, f.pageSize > 0, "page_size", "must be greater than zero");
    var e4 := V.Checked(e3, f.pageSize <= MaxPageSize, "page_size", "must be a maximum of 100");
    V.Checked(e4, f.sort in f.sortSafelist, "sort", "invalid sort value")
  }

  /** `ValidateFilters(v, f)`: five checks recorded on the validator. */
  method ValidateFilters(v: V.Validator, f: Filters)
    modifies v
    ensures v.errors == FilterErrors(old(v.errors), f)
  {
    v.Check(f.page > 0, "page", "must be greater than zero");
    v.Check(f.page <= MaxPage, "page", "must be a maximum of 10 million");
    v.Check(f.pageSize > 0, "page_size", "must be greater than zero");
    v.Check(f.pageSize <= MaxPageSize, "page_size", "must be a maximum of 100");
    var safe := V.In(f.sort, f.sortSafelist);
    v.Check(safe, "sort", "invalid sort value");
  }

  /** A sort key that validation let through is in the safelist, so `SortColumn`
      can be called on it. */
  lemma NoSortErrorMeansSafe(errors: map<string, string>, f: Filters)
    requires "sort" !in FilterErrors(errors, f)
    ensures f.sort in f.sortSafelist
  {
  }

  /** `sortColumn()`: scans the safelist for the sort key and returns it without
      its leading `-`. Go panics when the key is not in the safelist; here the
      caller must rule that out. */
  method SortColumn(f: Filters) returns (column: string)
    requires f.sort in f.sortSafelist
    ensures HasPrefix(f.sort, "-") ==> f.sort == "-" + column
    ensures !HasPrefix(f.sort, "-") ==> column == f.sort
  {
    for i := 0 to |f.sortSafelist|
      invariant forall k :: 0 <= k < i ==> f.sortSafelist[k] != f.sort
    {
      if f.sort == f.sortSafelist[i] {
        return TrimPrefix(f.sort, "-");
      }
    }
    assert false;
  }

  /** `sortDirection()`. */
  function SortDirection(f: Filters): (direction: string)
    ensures direction == "DESC" || direction == "ASC"
    ensures direction == "DESC" <==> |f.sort| > 0 && f.sort[0] == '-'
  {
    if HasPrefix(f.sort, "-") then "DESC" else "ASC"
  }

  /** `limit()`. */
  function Limit(f: Filters): (n: Int64)
    ensures n == f.pageSize
  {
    f.pageSize
  }

  /** Two's-complement wrap-around of Go's 64-bit `int` arithmetic. */
  function Wrap64(x: int): (r: Int64)
    ensures (r - x) % 0x1_0000_0000_0000_0000 == 0
    ensures MinInt64 <= x <= MaxInt64 ==> r == x
  {
    (x - MinInt64) % 0x1_0000_0000_0000_0000 + MinInt64
  }

  /** `offset()`: `(page - 1) * pageSize` in Go `int`, which wraps. Reducing once at
      the end equals reducing after each operation. */
  function Offset(f: Filters): (r: Int64)
    ensures (r - (f.page - 1) * f.pageSize) % 0x1_0000_0000_0000_0000 == 0
    ensures MinInt64 <= (f.page - 1) * f.pageSize <= MaxInt64 ==> r == (f.page - 1) * f.pageSize
  {
    Wrap64((f.page - 1) * f.pageSize)
  }

  /** With a positive page and a non-negative page size that stay within the
      validated bounds, the offset is the exact product, so no wrap-around occurs,
      and it is non-negative. */
  lemma OffsetOfValidFilters(f: Filters)
    requires 1 <= f.page <= MaxPage && 0 <= f.pageSize <= MaxPageSize
    ensures Offset(f) == (f.page - 1) * f.pageSize
    ensures 0 <= Offset(f) <= (MaxPage - 1) * MaxPageSize
  {
    var product := (f.page - 1) * f.pageSize;
    ProductBounds(f.page - 1, f.pageSize, MaxPage - 1, MaxPageSize);
    assert MinInt64 <= product <= MaxInt64;
  }

  lemma ProductBounds(a: int, b: int, maxA: int, maxB: int)
    requires 0 <= a <= maxA && 0 <= b <= maxB
    ensures 0 <= a * b <= maxA * maxB
  {
    assert a * b <= maxA * b by {
      assert (maxA - a) * b >= 0;
    }
    assert maxA * b <= maxA * maxB by {
      assert maxA * (maxB - b) >= 0;
    }
  }

  /** Filters that pass validation yield a safe sort key and an in-range offset. */
  lemma ValidatedFiltersAreSafe(f: Filters)
    requires FilterErrors(map[], f) == map[]
    ensures f.sort in f.sortSafelist
    ensures Offset(f) == (f.page - 1) * f.pageSize >= 0
    ensures Limit(f) == f.pageSize > 0
  {
    assert "page" !in FilterErrors(map[], f);
    assert "page_size" !in FilterErrors(map[], f);
    OffsetOfValidFilters(f);
  }
}
