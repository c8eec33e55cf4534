/** Page/limit pagination, as the repositories apply it to a query and the
    services report it: a page or limit of zero or less falls back to 1 and
    10, a page skips (page - 1) * limit rows, and the number of pages is the
    ceiling of total / limit. */
module Paging {
  import opened Collections
  import opened Sorting

  const DefaultPage: int := 1
  const DefaultLimit: int := 10

  /** `if query.Page <= 0 { query.Page = 1 }` */
  function NormalizePage(page: int): (r: int)
    ensures r >= 1
    ensures page >= 1 ==> r == page
    ensures page < 1 ==> r == DefaultPage
  {
    if page <= 0 then DefaultPage else page
  }

  /** `if query.Limit <= 0 { query.Limit = 10 }` */
  function NormalizeLimit(limit: int): (r: int)
    ensures r >= 1
    ensures limit >= 1 ==> r == limit
    ensures limit < 1 ==> r == DefaultLimit
  {
    if limit <= 0 then DefaultLimit else limit
  }

  /** `offset := (query.Page - 1) * query.Limit` after the defaults. */
  function Offset(page: int, limit: int): (r: nat)
    ensures r % NormalizeLimit(limit) == 0
  {
    var p, l := NormalizePage(page), NormalizeLimit(limit);
    MultipleMod(p - 1, l);
    (p - 1) * l
  }

  lemma MultipleMod(k: nat, l: int)
    requires l >= 1
    ensures k * l >= 0 && (k * l) % l == 0 && (k * l) / l == k
  {
    DivModUnique(k * l, l, k, 0);
  }

  /** Euclidean division has one quotient and one remainder. */
  lemma DivModUnique(x: int, l: int, q: int, r: int)
    requires l >= 1 && 0 <= r < l && x == q * l + r
    ensures x / l == q && x % l == r
  {
    var q', r' := x / l, x % l;
    assert x == q' * l + r' && 0 <= r' < l;
    var d := q - q';
    assert d * l == r' - r by {
      assert q * l - q' * l == (q - q') * l;
    }
    ProductBound(d, l);
  }

  lemma ProductBound(d: int, l: int)
    requires l >= 1
    ensures d >= 1 ==> d * l >= l
    ensures d <= -1 ==> d * l <= -l
  {
    if d >= 1 {
      MonotoneProduct(1, d, l);
    } else if d <= -1 {
      MonotoneProduct(1, -d, l);
    }
  }

  /** `int(math.Ceil(float64(total) / float64(limit)))` over integers: the
      fewest pages of `limit` rows that hold `total` rows. */
  function TotalPages(total: nat, limit: int): (r: nat)
    requires limit >= 1
    ensures r * limit >= total
    ensures r * limit < total + limit
  {
    var q := (total + limit - 1) / limit;
    assert total + limit - 1 == q * limit + (total + limit - 1) % limit;
    q
  }

  /** The rows `OFFSET .. LIMIT ..` returns for a requested page and limit. */
  function PageOf<T>(rows: seq<T>, page: int, limit: int): (r: seq<T>)
    ensures |r| <= NormalizeLimit(limit)
    ensures |r| == if Offset(page, limit) >= |rows| then 0
                   else if Offset(page, limit) + NormalizeLimit(limit) <= |rows| then NormalizeLimit(limit)
                   else |rows| - Offset(page, limit)
    ensures forall i :: 0 <= i < |r| ==> Offset(page, limit) + i < |rows| && r[i] == rows[Offset(page, limit) + i]
  {
    Window(rows, Offset(page, limit), NormalizeLimit(limit))
  }

  /** Row `i` is found on page `i / limit + 1`, at position `i % limit`. */
  lemma RowOnItsPage<T>(rows: seq<T>, limit: int, i: nat)
    requires limit >= 1 && i < |rows|
    ensures i % limit < |PageOf(rows, i / limit + 1, limit)|
    ensures PageOf(rows, i / limit + 1, limit)[i % limit] == rows[i]
  {
    var p := i / limit + 1;
    assert i == (i / limit) * limit + i % limit;
    assert Offset(p, limit) == (i / limit) * limit;
  }

  /** A page past the last one is empty, and every page up to the last one
      holds at least one row. */
  lemma PagesWithinTotal<T>(rows: seq<T>, page: int, limit: int)
    requires limit >= 1 && page >= 1
    ensures page > TotalPages(|rows|, limit) <==> PageOf(rows, page, limit) == []
  {
    var n, t := |rows|, TotalPages(|rows|, limit);
    var off := (page - 1) * limit;
    assert Offset(page, limit) == off;
    if page > t {
      MonotoneProduct(t, page - 1, limit);
      assert off >= t * limit >= n;
    } else {
      MonotoneProduct(page - 1, t - 1, limit);
      assert off <= (t - 1) * limit;
      assert (t - 1) * limit == t * limit - limit < n;
    }
  }

  lemma MonotoneProduct(a: int, b: int, l: int)
    requires 0 <= a <= b && l >= 1
    ensures a * l <= b * l
  {
  }

  /** Applying the defaults to values that already have them changes
      nothing. */
  lemma NormalizeIdempotent(page: int, limit: int)
    ensures NormalizePage(NormalizePage(page)) == NormalizePage(page)
    ensures NormalizeLimit(NormalizeLimit(limit)) == NormalizeLimit(limit)
  {
  }

  /** A paginated query: the rows matching `p`, ordered by `le`, cut to the
      requested page, together with the count of all matching rows. */
  function Listing<T(!new)>(rows: seq<T>, p: T -> bool, le: (T, T) -> bool, page: int, limit: int): (r: (seq<T>, nat))
    ensures r.1 == |Filter(rows, p)|
    ensures |r.0| <= NormalizeLimit(limit)
    ensures |r.0| == if Offset(page, limit) >= r.1 then 0
                     else if Offset(page, limit) + NormalizeLimit(limit) <= r.1 then NormalizeLimit(limit)
                     else r.1 - Offset(page, limit)
    ensures forall i :: 0 <= i < |r.0| ==>
              Offset(page, limit) + i < r.1 && r.0[i] == Sort(le, Filter(rows, p))[Offset(page, limit) + i]
    ensures forall i :: 0 <= i < |r.0| ==> r.0[i] in rows && p(r.0[i])
    ensures Total(le) && Transitive(le) ==> Sorted(le, r.0)
  {
    var matching := Filter(rows, p);
    var ordered := Sort(le, matching);
    var window := PageOf(ordered, page, limit);
    assert forall i :: 0 <= i < |window| ==> window[i] in multiset(ordered);
    PageSorted(le, matching, page, limit);
    (window, |matching|)
  }

  /** For a total, transitive order, every row of an earlier page comes
      before every row of a later page: page 1 starts the order. */
  lemma EarlierPagesFirst<T(!new)>(rows: seq<T>, p: T -> bool, le: (T, T) -> bool, a: int, b: int, limit: int)
    requires Total(le) && Transitive(le)
    requires 1 <= a < b
    ensures forall i, j :: 0 <= i < |Listing(rows, p, le, a, limit).0| && 0 <= j < |Listing(rows, p, le, b, limit).0| ==>
              le(Listing(rows, p, le, a, limit).0[i], Listing(rows, p, le, b, limit).0[j])
  {
    SortSorted(le, Filter(rows, p));
    PagesOfSorted(le, Sort(le, Filter(rows, p)), a, b, limit);
  }

  lemma PagesOfSorted<T>(le: (T, T) -> bool, s: seq<T>, a: int, b: int, limit: int)
    requires Sorted(le, s) && 1 <= a < b
    ensures forall i, j :: 0 <= i < |PageOf(s, a, limit)| && 0 <= j < |PageOf(s, b, limit)| ==>
              le(PageOf(s, a, limit)[i], PageOf(s, b, limit)[j])
  {
    var l := NormalizeLimit(limit);
    MonotoneProduct(a, b - 1, l);
    assert Offset(a, limit) + l <= Offset(b, limit) by {
      assert Offset(a, limit) + l == a * l;
    }
    var pa, pb := PageOf(s, a, limit), PageOf(s, b, limit);
    forall i, j | 0 <= i < |pa| && 0 <= j < |pb| ensures le(pa[i], pb[j]) {
      assert pa[i] == s[Offset(a, limit) + i];
      assert pb[j] == s[Offset(b, limit) + j];
    }
  }

  /** Two conditions that agree on every row list alike. */
  lemma ListingCongruent<T(!new)>(rows: seq<T>, p: T -> bool, q: T -> bool, le: (T, T) -> bool, page: int, limit: int)
    requires forall x :: p(x) == q(x)
    ensures Listing(rows, p, le, page, limit) == Listing(rows, q, le, page, limit)
  {
    FilterCongruent(rows, p, q);
  }

  lemma PageSorted<T(!new)>(le: (T, T) -> bool, rows: seq<T>, page: int, limit: int)
    ensures Total(le) && Transitive(le) ==> Sorted(le, PageOf(Sort(le, rows), page, limit))
  {
    if Total(le) && Transitive(le) {
      SortSorted(le, rows);
      WindowSorted(le, Sort(le, rows), Offset(page, limit), NormalizeLimit(limit));
    }
  }

  /** Every matching row is listed on some page. */
  lemma ListingCoversMatches<T(!new)>(rows: seq<T>, p: T -> bool, le: (T, T) -> bool, limit: int, x: T)
    requires x in rows && p(x) && limit >= 1
    ensures exists page :: 1 <= page <= TotalPages(|Filter(rows, p)|, limit)
                           && x in Listing(rows, p, le, page, limit).0
  {
    var matching := Filter(rows, p);
    var ordered := Sort(le, matching);
    var i := IndexIn(ordered, matching, x);
    var page := PageHolding(ordered, limit, i);
    assert Listing(rows, p, le, page, limit).0 == PageOf(ordered, page, limit);
  }

  /** The page that row `i` is on exists and holds it. */
  lemma PageHolding<T>(rows: seq<T>, limit: int, i: nat) returns (page: int)
    requires limit >= 1 && i < |rows|
    ensures 1 <= page <= TotalPages(|rows|, limit)
    ensures rows[i] in PageOf(rows, page, limit)
  {
    page := i / limit + 1;
    RowOnItsPage(rows, limit, i);
    PagesWithinTotal(rows, page, limit);
  }

  /** Where a member of `s` sits in a permutation of `s`. */
  lemma IndexIn<T>(perm: seq<T>, s: seq<T>, x: T) returns (i: nat)
    requires multiset(perm) == multiset(s) && x in s
    ensures i < |perm| && perm[i] == x
  {
    assert x in multiset(s);
    assert x in perm;
    i :| 0 <= i < |perm| && perm[i] == x;
  }

  /** A page past the last one lists nothing. */
  lemma ListingEndsAtTotalPages<T(!new)>(rows: seq<T>, p: T -> bool, le: (T, T) -> bool, page: int, limit: int)
    requires page >= 1 && limit >= 1
    ensures page > TotalPages(Listing(rows, p, le, page, limit).1, limit) <==> Listing(rows, p, le, page, limit).0 == []
  {
    PagesWithinTotal(Sort(le, Filter(rows, p)), page, limit);
  }
}
