/**
 * List operations the pages share: `Array.prototype.filter`, the stable
 * `Array.prototype.sort` under a comparator, `Array.prototype.slice`, and the
 * ten-row pagination with its sort-header and pager state.
 */
module Listing {
  import opened Wrappers
  import opened Text

  // ---------------------------------------------------------------------------
  // filter

  function Filter<T>(s: seq<T>, p: T -> bool): (r: seq<T>)
    ensures |r| <= |s|
    ensures forall i :: 0 <= i < |r| ==> p(r[i])
  {
    if s == [] then []
    else
      var rest := Filter(s[1..], p);
      if p(s[0]) then [s[0]] + rest else rest
  }

  /** The elements kept are exactly the elements of `s` that satisfy `p`. */
  lemma {:induction false} FilterMembers<T(!new)>(s: seq<T>, p: T -> bool)
    ensures forall x :: x in Filter(s, p) <==> x in s && p(x)
  {
    if s != [] {
      FilterMembers(s[1..], p);
      assert s == [s[0]] + s[1..];
    }
  }

  lemma {:induction false} FilterConcat<T>(a: seq<T>, b: seq<T>, p: T -> bool)
    ensures Filter(a + b, p) == Filter(a, p) + Filter(b, p)
  {
    if a == [] {
      assert a + b == b;
    } else {
      var ab := a + b;
      assert ab[0] == a[0] && ab[1..] == a[1..] + b;
      FilterConcat(a[1..], b, p);
    }
  }

  /** A filter whose predicate holds everywhere returns its input. */
  lemma {:induction false} FilterAll<T>(s: seq<T>, p: T -> bool)
    requires forall i :: 0 <= i < |s| ==> p(s[i])
    ensures Filter(s, p) == s
  {
    if s != [] {
      FilterAll(s[1..], p);
    }
  }

  /** Filtering twice with the same predicate changes nothing the second time. */
  lemma FilterIdempotent<T>(s: seq<T>, p: T -> bool)
    ensures Filter(Filter(s, p), p) == Filter(s, p)
  {
    FilterAll(Filter(s, p), p);
  }

  /** `s.find(p)` as an index: the first position whose element satisfies `p`. */
  function Find<T>(s: seq<T>, p: T -> bool): (r: Option<nat>)
    ensures r.Some? ==> r.value < |s| && p(s[r.value])
  {
    if s == [] then None
    else if p(s[0]) then Some(0)
    else
      match Find(s[1..], p)
      case None => None
      case Some(k) => Some(k + 1)
  }

  /** `Find` returns the FIRST match, and nothing only when nothing matches. */
  lemma {:induction false} FindFirst<T>(s: seq<T>, p: T -> bool)
    ensures Find(s, p).Some? ==> forall k :: 0 <= k < Find(s, p).value ==> !p(s[k])
    ensures Find(s, p).None? <==> forall k :: 0 <= k < |s| ==> !p(s[k])
  {
    if s != [] && !p(s[0]) {
      FindFirst(s[1..], p);
      assert forall k :: 1 <= k < |s| ==> s[1..][k - 1] == s[k];
    }
  }

  /** `xs.find(x => x.id === id)?.name || ''`, for records with an id and an optional name. */
  function NameOf<T>(xs: seq<T>, idOf: T -> string, nameOf: T -> Option<string>, id: string): string {
    match Find(xs, (x: T) => idOf(x) == id)
    case Some(i) => OrElse(nameOf(xs[i]), "")
    case None => ""
  }

  /** `s.map(x => p(x) ? f(x) : x)`: rewrite the elements that satisfy `p`. */
  function MapWhere<T>(s: seq<T>, p: T -> bool, f: T -> T): (r: seq<T>)
    ensures |r| == |s|
    ensures forall i :: 0 <= i < |s| ==> r[i] == if p(s[i]) then f(s[i]) else s[i]
  {
    if s == [] then [] else [if p(s[0]) then f(s[0]) else s[0]] + MapWhere(s[1..], p, f)
  }

  // ---------------------------------------------------------------------------
  // sort. A comparator returning -1/0/1 is modelled by `lt(a, b)`, "a goes
  // strictly before b". Array.prototype.sort is stable.

  ghost predicate StrictWeakOrder<T(!new)>(lt: (T, T) -> bool) {
    (forall a :: !lt(a, a))
    && (forall a, b, c :: lt(a, b) && lt(b, c) ==> lt(a, c))
    && (forall a, b, c :: lt(a, c) ==> lt(a, b) || lt(b, c))
  }

  predicate Sorted<T>(s: seq<T>, lt: (T, T) -> bool) {
    forall i, j :: 0 <= i < j < |s| ==> !lt(s[j], s[i])
  }

  predicate Equivalent<T>(lt: (T, T) -> bool, a: T, b: T) {
    !lt(a, b) && !lt(b, a)
  }

  /** The elements of `s` that compare equal to `z`, in order. */
  function Ties<T>(s: seq<T>, lt: (T, T) -> bool, z: T): seq<T> {
    if s == [] then []
    else (if Equivalent(lt, s[0], z) then [s[0]] else []) + Ties(s[1..], lt, z)
  }

  /** Insert `x` before the first element that does not go strictly before it. */
  function Insert<T>(x: T, t: seq<T>, lt: (T, T) -> bool): (r: seq<T>)
    ensures |r| == |t| + 1
  {
    if t == [] then [x]
    else if !lt(t[0], x) then [x] + t
    else [t[0]] + Insert(x, t[1..], lt)
  }

  /** Inserting adds exactly `x` to the elements. */
  lemma {:induction false} InsertPermutes<T>(x: T, t: seq<T>, lt: (T, T) -> bool)
    ensures multiset(Insert(x, t, lt)) == multiset(t) + multiset{x}
  {
    if t != [] && lt(t[0], x) {
      InsertPermutes(x, t[1..], lt);
      assert t == [t[0]] + t[1..];
    }
  }

  /** `[...s].sort(cmp)`: a stable sort. */
  function SortBy<T(!new)>(s: seq<T>, lt: (T, T) -> bool): (r: seq<T>)
    requires StrictWeakOrder(lt)
    ensures multiset(r) == multiset(s)
    ensures Sorted(r, lt)
  {
    if s == [] then []
    else
      assert s == [s[0]] + s[1..];
      InsertSorted(s[0], SortBy(s[1..], lt), lt);
      InsertPermutes(s[0], SortBy(s[1..], lt), lt);
      Insert(s[0], SortBy(s[1..], lt), lt)
  }

  /** Every element of the result is `x` or an element of `t`. */
  lemma {:induction false} InsertFrom<T>(x: T, t: seq<T>, lt: (T, T) -> bool, j: nat)
    requires j < |Insert(x, t, lt)|
    ensures Insert(x, t, lt)[j] == x || exists k :: 0 <= k < |t| && t[k] == Insert(x, t, lt)[j]
  {
    if t != [] && lt(t[0], x) && j > 0 {
      InsertFrom(x, t[1..], lt, j - 1);
      if Insert(x, t[1..], lt)[j - 1] != x {
        var k :| 0 <= k < |t[1..]| && t[1..][k] == Insert(x, t[1..], lt)[j - 1];
        assert t[k + 1] == Insert(x, t, lt)[j];
      }
    } else if t != [] && !lt(t[0], x) && j > 0 {
      assert Insert(x, t, lt)[j] == t[j - 1];
    }
  }

  lemma {:induction false} InsertSorted<T(!new)>(x: T, t: seq<T>, lt: (T, T) -> bool)
    requires StrictWeakOrder(lt) && Sorted(t, lt)
    ensures Sorted(Insert(x, t, lt), lt)
  {
    if t != [] && lt(t[0], x) {
      InsertSorted(x, t[1..], lt);
      var r := Insert(x, t, lt);
      forall j | 1 <= j < |r| ensures !lt(r[j], r[0]) {
        InsertFrom(x, t, lt, j);
      }
    }
  }

  /** Under a strict weak order, what goes strictly before a tie of `z` is no tie of `z`. */
  lemma BeforeTieIsNoTie<T(!new)>(lt: (T, T) -> bool, x: T, z: T)
    requires StrictWeakOrder(lt)
    ensures Equivalent(lt, x, z) ==> forall y :: lt(y, x) ==> !Equivalent(lt, y, z)
  {
  }

  lemma {:induction false} InsertTies<T>(x: T, t: seq<T>, lt: (T, T) -> bool, z: T)
    requires Equivalent(lt, x, z) ==> forall y :: lt(y, x) ==> !Equivalent(lt, y, z)
    ensures Ties(Insert(x, t, lt), lt, z)
         == (if Equivalent(lt, x, z) then [x] else []) + Ties(t, lt, z)
    decreases |t|, 1
  {
    if t == [] {
      assert Insert(x, t, lt) == [x];
      assert Ties([x], lt, z) == (if Equivalent(lt, x, z) then [x] else []) + Ties([x][1..], lt, z);
    } else if !lt(t[0], x) {
      var r := [x] + t;
      assert Insert(x, t, lt) == r;
      assert r[1..] == t;
    } else {
      InsertTiesBehind(x, t, lt, z);
    }
  }

  /** The case of `InsertTies` where `x` goes after the head of `t`. */
  lemma {:induction false} InsertTiesBehind<T>(x: T, t: seq<T>, lt: (T, T) -> bool, z: T)
    requires t != [] && lt(t[0], x)
    requires Equivalent(lt, x, z) ==> forall y :: lt(y, x) ==> !Equivalent(lt, y, z)
    ensures Ties(Insert(x, t, lt), lt, z)
         == (if Equivalent(lt, x, z) then [x] else []) + Ties(t, lt, z)
    decreases |t|, 0
  {
    var hx := if Equivalent(lt, x, z) then [x] else [];
    var h0 := if Equivalent(lt, t[0], z) then [t[0]] else [];
    var rest := Insert(x, t[1..], lt);
    var tail := Ties(t[1..], lt, z);
    calc {
      Ties(Insert(x, t, lt), lt, z);
    ==  { assert Insert(x, t, lt) == [t[0]] + rest;
          assert ([t[0]] + rest)[1..] == rest; }
      h0 + Ties(rest, lt, z);
    ==  { InsertTies(x, t[1..], lt, z); }
      h0 + (hx + tail);
    ==  { if Equivalent(lt, x, z) { assert h0 == []; } else { assert hx == []; } }
      hx + (h0 + tail);
    ==  { assert Ties(t, lt, z) == h0 + tail; }
      hx + Ties(t, lt, z);
    }
  }

  /** Stability: the elements that compare equal keep their relative order. */
  lemma {:induction false} SortByStable<T(!new)>(s: seq<T>, lt: (T, T) -> bool, z: T)
    requires StrictWeakOrder(lt)
    ensures Ties(SortBy(s, lt), lt, z) == Ties(s, lt, z)
  {
    if s != [] {
      SortByStable(s[1..], lt, z);
      BeforeTieIsNoTie(lt, s[0], z);
      InsertTies(s[0], SortBy(s[1..], lt), lt, z);
    }
  }

  /** A comparator that ranks everything equal leaves the order untouched. */
  lemma {:induction false} SortByAllEqual<T(!new)>(s: seq<T>, lt: (T, T) -> bool)
    requires StrictWeakOrder(lt)
    requires forall a, b :: !lt(a, b)
    ensures SortBy(s, lt) == s
  {
    if s != [] {
      SortByAllEqual(s[1..], lt);
      assert s == [s[0]] + s[1..];
    }
  }

  /**
   * The comparator `if (valA < valB) return asc ? -1 : 1; if (valA > valB) return asc ? 1 : -1; return 0;`
   * on the string keys `valA = key(a)`, `valB = key(b)`.
   */
  function KeyOrder<T>(key: T -> string, ascending: bool): (T, T) -> bool {
    (a: T, b: T) => if ascending then Less(key(a), key(b)) else Less(key(b), key(a))
  }

  /** `KeyOrder` is a strict weak order, so the stable sort applies. */
  lemma KeyOrderIsStrictWeak<T(!new)>(key: T -> string, ascending: bool)
    ensures StrictWeakOrder(KeyOrder(key, ascending))
  {
    var lt := KeyOrder(key, ascending);
    forall a ensures !lt(a, a) {
      LessIrreflexive(key(a));
    }
    forall a, b, c | lt(a, b) && lt(b, c) ensures lt(a, c) {
      if ascending {
        LessTransitive(key(a), key(b), key(c));
      } else {
        LessTransitive(key(c), key(b), key(a));
      }
    }
    forall a, b, c | lt(a, c) ensures lt(a, b) || lt(b, c) {
      if ascending {
        LessNegativelyTransitive(key(a), key(b), key(c));
      } else {
        LessNegativelyTransitive(key(c), key(b), key(a));
      }
    }
  }

  lemma LessNegativelyTransitive(a: string, b: string, c: string)
    requires Less(a, c)
    ensures Less(a, b) || Less(b, c)
  {
    LessTotal(a, b);
    LessTotal(b, c);
    if Less(b, a) && Less(c, b) {
      LessTransitive(c, b, a);
      LessAsymmetric(a, c);
    }
  }

  // ---------------------------------------------------------------------------
  // slice and pagination

  /** `Array.prototype.slice` index normalisation. */
  function SliceIndex(i: int, len: nat): (r: nat)
    ensures r <= len
    ensures 0 <= i <= len ==> r == i
  {
    if i < 0 then (if len + i < 0 then 0 else len + i) else if i > len then len else i
  }

  function JsSlice<T>(s: seq<T>, start: int, end: int): (r: seq<T>)
    ensures 0 <= start <= end <= |s| ==> r == s[start..end]
    ensures |r| <= |s|
  {
    var a := SliceIndex(start, |s|);
    var b := SliceIndex(end, |s|);
    if a < b then s[a..b] else []
  }

  const PageSize: nat := 10

  /** `Math.ceil(n / 10)`. */
  function TotalPages(n: nat): (r: nat)
    ensures r * PageSize >= n
    ensures r > 0 ==> (r - 1) * PageSize < n
  {
    (n + PageSize - 1) / PageSize
  }

  /** Rows `(p-1)*10 .. p*10` of `s`. */
  function PageOf<T>(s: seq<T>, p: int): (r: seq<T>)
    ensures |r| <= PageSize
  {
    JsSlice(s, (p - 1) * PageSize, p * PageSize)
  }

  function Min(a: int, b: int): int {
    if a <= b then a else b
  }

  function Max(a: int, b: int): int {
    if a >= b then a else b
  }

  /** Every page within range is the contiguous run of rows it names. */
  lemma PageOfInRange<T>(s: seq<T>, p: nat)
    requires 1 <= p <= TotalPages(|s|)
    ensures PageOf(s, p) == s[(p - 1) * PageSize..Min(p * PageSize, |s|)]
    ensures PageOf(s, p) != []
  {
  }

  /** Pages 1 .. k, one after the other. */
  function Pages<T>(s: seq<T>, k: nat): seq<T> {
    if k == 0 then [] else Pages(s, k - 1) + PageOf(s, k)
  }

  lemma {:induction false} PagesPrefix<T>(s: seq<T>, k: nat)
    ensures Pages(s, k) == s[..Min(k * PageSize, |s|)]
  {
    if k > 0 {
      PagesPrefix(s, k - 1);
      var lo := Min((k - 1) * PageSize, |s|);
      var hi := Min(k * PageSize, |s|);
      assert s[..hi] == s[..lo] + s[lo..hi];
    }
  }

  /** Pages 1 .. totalPages partition the list. */
  lemma PagesPartition<T>(s: seq<T>)
    ensures Pages(s, TotalPages(|s|)) == s
  {
    PagesPrefix(s, TotalPages(|s|));
  }

  // ---------------------------------------------------------------------------
  // Sort header and pager state of a paginated table

  datatype SortState = SortState(sortBy: string, sortDir: string)

  function FlipDir(dir: string): string {
    if dir == "asc" then "desc" else "asc"
  }

  /** Clicking the header of column `col`. */
  function ClickHeader(st: SortState, col: string): (r: SortState)
    ensures r.sortBy == col
    ensures st.sortBy == col ==> r.sortDir == FlipDir(st.sortDir)
    ensures st.sortBy != col ==> r.sortDir == st.sortDir
  {
    SortState(col, if st.sortBy == col then FlipDir(st.sortDir) else st.sortDir)
  }

  /** Two clicks on the active column restore an "asc"/"desc" direction. */
  lemma ClickHeaderTwice(st: SortState)
    requires st.sortDir == "asc" || st.sortDir == "desc"
    ensures ClickHeader(ClickHeader(st, st.sortBy), st.sortBy) == st
  {
  }

  /** The "previous page" button: disabled on page 1, else `max(1, p - 1)`. */
  function PrevPage(page: int): (r: int)
    ensures page == 1 ==> r == 1
    ensures page != 1 ==> r == Max(1, page - 1)
  {
    if page == 1 then page else Max(1, page - 1)
  }

  /** The "next page" button: disabled on the last page, else `min(totalPages, p + 1)`. */
  function NextPage(page: int, totalPages: nat): (r: int)
    ensures page == totalPages ==> r == page
    ensures page != totalPages ==> r == Min(totalPages, page + 1)
  {
    if page == totalPages then page else Min(totalPages, page + 1)
  }

  /** Inside 1 .. totalPages the buttons keep the page inside that range. */
  lemma PagerStaysInRange(page: int, totalPages: nat)
    requires 1 <= page <= totalPages
    ensures 1 <= PrevPage(page) <= totalPages
    ensures 1 <= NextPage(page, totalPages) <= totalPages
    ensures PrevPage(page) == if page > 1 then page - 1 else 1
    ensures NextPage(page, totalPages) == if page < totalPages then page + 1 else totalPages
  {
  }

  /** On an empty table "next" is enabled on page 1 and moves to page 0. */
  lemma NextOnEmptyTable()
    ensures NextPage(1, TotalPages(0)) == 0
  {
  }

  /** The table controls' state fields with their handlers. */
  class TableControls {
    var sortBy: string
    var sortDir: string
    var page: int

    function Sort(): SortState
      reads this
    {
      SortState(sortBy, sortDir)
    }

    constructor (initialColumn: string)
      ensures sortBy == initialColumn && sortDir == "asc" && page == 1
    {
      sortBy := initialColumn;
      sortDir := "asc";
      page := 1;
    }

    method OnHeaderClick(col: string)
      modifies this
      ensures Sort() == ClickHeader(old(Sort()), col)
      ensures page == old(page)
    {
      if sortBy == col {
        sortDir := if sortDir == "asc" then "desc" else "asc";
      }
      sortBy := col;
    }

    method OnPrev()
      modifies this
      ensures page == PrevPage(old(page))
      ensures Sort() == old(Sort())
    {
      if page != 1 {
        page := if page - 1 > 1 then page - 1 else 1;
      }
    }

    method OnNext(totalPages: nat)
      modifies this
      ensures page == NextPage(old(page), totalPages)
      ensures Sort() == old(Sort())
    {
      if page != totalPages {
        page := if totalPages < page + 1 then totalPages else page + 1;
      }
    }
  }
}
