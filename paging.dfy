/**
  Offset pagination as both backends do it (`LIMIT`/`OFFSET` with
  `totalPages = Math.ceil(count / limit)`) and as the history page does it
  (`slice((page - 1) * 5, page * 5)`), plus the `ORDER BY ... DESC` of the listings.
*/
module Paging {
  import opened Common

  /** `Math.ceil(n / d)` for whole numbers. */
  function CeilDiv(n: nat, d: nat): (q: nat)
    requires d > 0
    ensures q * d >= n
    ensures q == 0 || (q - 1) * d < n
  {
    var q := (n + d - 1) / d;
    assert q * d + (n + d - 1) % d == n + d - 1;
    q
  }

  lemma MulMonotone(a: nat, b: nat, d: nat)
    requires a <= b
    ensures a * d <= b * d
  {
  }

  /** The rows that `LIMIT limit OFFSET offset` (or `slice(offset, offset + limit)`) returns. */
  function Window<T>(rows: seq<T>, offset: nat, limit: nat): (r: seq<T>)
    ensures |r| <= limit
    ensures offset + |r| <= |rows| || r == []
    ensures |r| == Min(limit, |rows| - offset) || (offset >= |rows| && r == [])
    ensures forall i :: 0 <= i < |r| ==> offset + i < |rows| && r[i] == rows[offset + i]
  {
    if offset >= |rows| then [] else rows[offset..Min(|rows|, offset + limit)]
  }

  /** Page number `page` (counted from 1) with `size` rows per page. */
  function PageOf<T>(rows: seq<T>, page: nat, size: nat): seq<T>
    requires page >= 1
  {
    Window(rows, (page - 1) * size, size)
  }

  /** The `pagination` block of a listing response. */
  datatype Pagination = Pagination(
    page: int, limit: int, total: nat, totalPages: nat, hasNext: bool, hasPrev: bool)

  function MakePagination(page: nat, limit: nat, total: nat): Pagination
    requires limit > 0
  {
    var totalPages := CeilDiv(total, limit);
    Pagination(page, limit, total, totalPages, page < totalPages, page > 1)
  }

  /** `hasNext` holds exactly when rows remain after the current page. */
  lemma HasNextIffRowsRemain(page: nat, limit: nat, total: nat)
    requires limit > 0
    ensures MakePagination(page, limit, total).hasNext <==> page * limit < total
    ensures MakePagination(page, limit, total).hasPrev <==> page > 1
  {
    var q := CeilDiv(total, limit);
    if page < q {
      MulMonotone(page, q - 1, limit);
    }
    if page >= q {
      MulMonotone(q, page, limit);
    }
  }

  /** ... that is, exactly when the next page is not empty. */
  lemma HasNextIffNextPageNonEmpty<T>(rows: seq<T>, page: nat, limit: nat)
    requires limit > 0 && page >= 1
    ensures MakePagination(page, limit, |rows|).hasNext <==> PageOf(rows, page + 1, limit) != []
  {
    HasNextIffRowsRemain(page, limit, |rows|);
    assert (page + 1 - 1) * limit == page * limit;
  }

  /** The first `k` pages, one after the other. */
  function Pages<T>(rows: seq<T>, size: nat, k: nat): seq<T>
  {
    if k == 0 then [] else Pages(rows, size, k - 1) + PageOf(rows, k, size)
  }

  /** The rows before `m` followed by the window at `m` are the rows before `m + size`. */
  lemma PrefixThenWindow<T>(rows: seq<T>, m: nat, size: nat)
    ensures rows[..Min(|rows|, m)] + Window(rows, m, size) == rows[..Min(|rows|, m + size)]
  {
    if m < |rows| {
      assert rows[..m] + rows[m..Min(|rows|, m + size)] == rows[..Min(|rows|, m + size)];
    }
  }

  lemma {:induction false} PagesArePrefix<T>(rows: seq<T>, size: nat, k: nat)
    requires size > 0
    ensures Pages(rows, size, k) == rows[..Min(|rows|, k * size)]
  {
    if k > 0 {
      PagesArePrefix(rows, size, k - 1);
      var m := (k - 1) * size;
      assert k * size == m + size;
      PrefixThenWindow(rows, m, size);
    }
  }

  /**
    Pages 1 to `totalPages` partition the rows: laid end to end they give back every
    row exactly once and in order.
  */
  lemma PagesPartition<T>(rows: seq<T>, size: nat)
    requires size > 0
    ensures Pages(rows, size, CeilDiv(|rows|, size)) == rows
  {
    PagesArePrefix(rows, size, CeilDiv(|rows|, size));
    assert rows[..|rows|] == rows;
  }

  /**
    Running totals that start empty and grow by page `j` at step `j` are the first
    pages: `shown[k]` is pages 1 to `k`, one after the other.
  */
  lemma {:induction false} RunningPagesArePages<T>(shown: seq<seq<T>>, rows: seq<T>, size: nat, k: nat)
    requires k < |shown| && shown[0] == []
    requires forall j :: 1 <= j < |shown| ==> shown[j] == shown[j - 1] + PageOf(rows, j, size)
    ensures shown[k] == Pages(rows, size, k)
  {
    if k > 0 {
      RunningPagesArePages(shown, rows, size, k - 1);
    }
  }

  /** Pages after the last one are empty. */
  lemma PageAfterLastIsEmpty<T>(rows: seq<T>, size: nat, page: nat)
    requires size > 0 && page > CeilDiv(|rows|, size)
    ensures PageOf(rows, page, size) == []
  {
    MulMonotone(CeilDiv(|rows|, size), page - 1, size);
  }

  /** Row `i` is shown on page `i / size + 1`, at position `i % size`. */
  lemma RowOnItsPage<T>(rows: seq<T>, size: nat, i: nat)
    requires size > 0 && i < |rows|
    ensures var p := PageOf(rows, i / size + 1, size);
      i % size < |p| && p[i % size] == rows[i]
  {
    assert (i / size + 1 - 1) * size == (i / size) * size;
  }

  // ----- ORDER BY key DESC -----

  predicate SortedDesc<T>(s: seq<T>, key: T -> int)
  {
    forall i, j :: 0 <= i < j < |s| ==> key(s[i]) >= key(s[j])
  }

  /** Places `x` after every element whose key is at least its own. */
  function Insert<T>(x: T, s: seq<T>, key: T -> int): (r: seq<T>)
    requires SortedDesc(s, key)
    ensures SortedDesc(r, key)
    ensures multiset(r) == multiset(s) + multiset{x}
    ensures forall y :: y in r ==> y == x || y in s
  {
    if s == [] then [x]
    else if key(s[0]) >= key(x) then
      var t := Insert(x, s[1..], key);
      HeadStaysFirst(s, x, t, key);
      assert s == [s[0]] + s[1..];
      [s[0]] + t
    else
      [x] + s
  }

  /** The head of `s` still comes first once `x`, which it outranks, is inserted in the rest. */
  lemma HeadStaysFirst<T>(s: seq<T>, x: T, t: seq<T>, key: T -> int)
    requires s != [] && SortedDesc(s, key) && SortedDesc(t, key) && key(s[0]) >= key(x)
    requires forall y :: y in t ==> y == x || y in s[1..]
    ensures SortedDesc([s[0]] + t, key)
  {
    var r := [s[0]] + t;
    forall i, j | 0 <= i < j < |r| ensures key(r[i]) >= key(r[j]) {
      assert r[j] == t[j - 1] && r[j] in t;
      if i == 0 && r[j] != x {
        var k :| 0 <= k < |s[1..]| && s[1..][k] == r[j];
        assert s[k + 1] == r[j];
      } else if i > 0 {
        assert r[i] == t[i - 1];
      }
    }
  }

  /**
    Rows ordered by `key`, largest first; rows with equal keys keep their table order
    (insertion sort that inserts each later row after its equals).
  */
  function SortDesc<T>(s: seq<T>, key: T -> int): (r: seq<T>)
    ensures SortedDesc(r, key)
    ensures multiset(r) == multiset(s)
  {
    if s == [] then []
    else
      assert s == s[..|s| - 1] + [s[|s| - 1]];
      Insert(s[|s| - 1], SortDesc(s[..|s| - 1], key), key)
  }

  /**
    A page of a listing ordered by `key`: still ordered, made of rows of the table,
    and the ordering has kept the number of rows.
  */
  lemma SortedWindow<T>(s: seq<T>, key: T -> int, offset: nat, limit: nat)
    ensures |SortDesc(s, key)| == |s|
    ensures SortedDesc(Window(SortDesc(s, key), offset, limit), key)
    ensures forall i :: 0 <= i < |Window(SortDesc(s, key), offset, limit)| ==>
      Window(SortDesc(s, key), offset, limit)[i] in s
  {
    var sorted := SortDesc(s, key);
    var w := Window(sorted, offset, limit);
    assert |multiset(sorted)| == |multiset(s)|;
    forall i, j | 0 <= i < j < |w| ensures key(w[i]) >= key(w[j]) {
      assert w[i] == sorted[offset + i] && w[j] == sorted[offset + j];
    }
    forall i | 0 <= i < |w| ensures w[i] in s {
      assert w[i] in multiset(sorted);
    }
  }
}
