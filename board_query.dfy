/** The pure part of `shared/api/mocks/handlers/boards.ts`: the board record, query
    parameter parsing, the filter chain, the sort and the page arithmetic of
    `GET /boards`. */
module BoardQuery {
  import opened Common
  import opened Strings

  /** A board; the ISO timestamps are opaque strings compared as strings. */
  datatype Board = Board(id: string, name: string, createdAt: string, updatedAt: string,
                         lastOpenedAt: string, isFavorite: bool)

  // ---------------------------------------------------------------------------
  // Query parameters
  // ---------------------------------------------------------------------------

  /** `parseBooleanParam`: absent gives undefined; "true" or "false" in any letter
      case gives that boolean; every other string gives undefined. */
  function ParseBooleanParam(value: Option<string>): (r: Option<bool>)
    ensures value.None? ==> r.None?
    ensures r == Some(true) <==> value.Some? && ToLower(value.value) == "true"
    ensures r == Some(false) <==> value.Some? && ToLower(value.value) == "false"
  {
    if value.None? then None
    else if ToLower(value.value) == "true" then Some(true)
    else if ToLower(value.value) == "false" then Some(false)
    else None
  }

  /** The parse ignores letter case: strings that lower-case alike parse alike. */
  lemma {:induction false} ParseBooleanIgnoresCase(s: string, t: string)
    requires ToLower(s) == ToLower(t)
    ensures ParseBooleanParam(Some(s)) == ParseBooleanParam(Some(t))
  {
  }

  /** Sample inputs: mixed case is accepted, anything else is not a boolean. */
  lemma ParseBooleanExamples()
    ensures ParseBooleanParam(Some("TRUE")) == Some(true)
    ensures ParseBooleanParam(Some("False")) == Some(false)
    ensures ParseBooleanParam(Some("1")) == None
    ensures ParseBooleanParam(Some("")) == None
    ensures ParseBooleanParam(Some("true ")) == None
  {
    assert ToLower("TRUE") == "true";
    assert ToLower("False") == "false";
    assert ToLower("true ") != "true" by { assert |ToLower("true ")| == 5; }
    assert ToLower("true ") != "false" by { assert ToLower("true ")[0] == 't'; }
    assert ToLower("1") != "true" && ToLower("1") != "false";
  }

  /** The `search` parameter as the handler uses it: trimmed, lower-cased, "" if absent.
      The result is the lower-cased trim of the parameter, so it neither starts nor
      ends with whitespace and holds no capital. */
  function NormalizeSearch(search: Option<string>): (s: string)
    ensures search.None? ==> s == ""
    ensures s == [] || (!IsJsWhitespace(s[0]) && !IsJsWhitespace(s[|s| - 1]))
    ensures forall i :: 0 <= i < |s| ==> !('A' <= s[i] <= 'Z')
    ensures search.Some? ==> |s| <= |search.value|
    ensures search.Some? ==> s == ToLower(Trim(search.value))
  {
    if search.None? then ""
    else
      var trimmed := Trim(search.value);
      if trimmed == [] then ""
      else
        ToLowerKeepsWhitespace(trimmed, 0);
        ToLowerKeepsWhitespace(trimmed, |trimmed| - 1);
        ToLower(trimmed)
  }

  /** The property a board is sorted by. `sort` is cast from the raw query string, so
      any string may arrive: `id` is a real field (sorted like the dates) and every
      other unknown key reads `undefined` on both sides and compares equal. */
  datatype SortKey = CreatedAt | UpdatedAt | LastOpenedAt | IsFavorite | Name | Id | Unknown

  /** `url.searchParams.get("sort") ?? "createdAt"` as a sort key. */
  function ParseSortKey(sort: Option<string>): (k: SortKey)
    ensures sort.None? ==> k == CreatedAt
  {
    match sort
    case None => CreatedAt
    case Some(s) =>
      if s == "createdAt" then CreatedAt
      else if s == "updatedAt" then UpdatedAt
      else if s == "lastOpenedAt" then LastOpenedAt
      else if s == "isFavorite" then IsFavorite
      else if s == "name" then Name
      else if s == "id" then Id
      else Unknown
  }

  // ---------------------------------------------------------------------------
  // Sorting
  // ---------------------------------------------------------------------------

  /** The comparator of `sortBoards` is at most zero for `(a, b)`: names ascending,
      string fields descending, favourites first, unknown keys all equal. */
  predicate InOrder(a: Board, b: Board, key: SortKey) {
    match key
    case Name => StrLe(a.name, b.name)
    case CreatedAt => StrLe(b.createdAt, a.createdAt)
    case UpdatedAt => StrLe(b.updatedAt, a.updatedAt)
    case LastOpenedAt => StrLe(b.lastOpenedAt, a.lastOpenedAt)
    case Id => StrLe(b.id, a.id)
    case IsFavorite => a.isFavorite || !b.isFavorite
    case Unknown => true
  }

  /** Any two boards are comparable under every key. */
  lemma {:induction false} InOrderTotal(a: Board, b: Board, key: SortKey)
    ensures InOrder(a, b, key) || InOrder(b, a, key)
  {
    match key
    case Name => StrLeTotal(a.name, b.name);
    case CreatedAt => StrLeTotal(a.createdAt, b.createdAt);
    case UpdatedAt => StrLeTotal(a.updatedAt, b.updatedAt);
    case LastOpenedAt => StrLeTotal(a.lastOpenedAt, b.lastOpenedAt);
    case Id => StrLeTotal(a.id, b.id);
    case IsFavorite =>
    case Unknown =>
  }

  /** The comparator order is transitive under every key. */
  lemma {:induction false} InOrderTransitive(a: Board, b: Board, c: Board, key: SortKey)
    requires InOrder(a, b, key) && InOrder(b, c, key)
    ensures InOrder(a, c, key)
  {
    match key
    case Name => StrLeTransitive(a.name, b.name, c.name);
    case CreatedAt => StrLeTransitive(c.createdAt, b.createdAt, a.createdAt);
    case UpdatedAt => StrLeTransitive(c.updatedAt, b.updatedAt, a.updatedAt);
    case LastOpenedAt => StrLeTransitive(c.lastOpenedAt, b.lastOpenedAt, a.lastOpenedAt);
    case Id => StrLeTransitive(c.id, b.id, a.id);
    case IsFavorite =>
    case Unknown =>
  }

  /** Every board precedes every later one in comparator order. */
  predicate Sorted(s: seq<Board>, key: SortKey) {
    forall i, j :: 0 <= i < j < |s| ==> InOrder(s[i], s[j], key)
  }

  /** Puts `x` before the first board it is in order with (so before its equals,
      which came later in the input). */
  function Insert(x: Board, s: seq<Board>, key: SortKey): (r: seq<Board>)
    ensures |r| == |s| + 1
    ensures multiset(r) == multiset(s) + multiset{x}
  {
    if s == [] || InOrder(x, s[0], key) then [x] + s
    else
      assert s == [s[0]] + s[1..];
      [s[0]] + Insert(x, s[1..], key)
  }

  /** A board every element of `s[1..]` and `x` follow also precedes everything
      inserting `x` into `s[1..]` gives. */
  lemma {:induction false} InsertAfterHead(x: Board, s: seq<Board>, key: SortKey)
    requires Sorted(s, key) && s != [] && InOrder(s[0], x, key)
    ensures forall j :: 0 <= j < |Insert(x, s[1..], key)| ==> InOrder(s[0], Insert(x, s[1..], key)[j], key)
  {
    var rest := Insert(x, s[1..], key);
    forall j | 0 <= j < |rest|
      ensures InOrder(s[0], rest[j], key)
    {
      assert rest[j] in multiset(rest);
      if rest[j] != x {
        assert rest[j] in multiset(s[1..]);
        var k :| 0 <= k < |s[1..]| && s[1..][k] == rest[j];
        assert s[k + 1] == rest[j];
      }
    }
  }

  /** A board that precedes every element of a sorted sequence can head it. */
  lemma {:induction false} ConsSorted(h: Board, rest: seq<Board>, key: SortKey)
    requires Sorted(rest, key)
    requires forall j :: 0 <= j < |rest| ==> InOrder(h, rest[j], key)
    ensures Sorted([h] + rest, key)
  {
    var r := [h] + rest;
    forall i, j | 0 <= i < j < |r|
      ensures InOrder(r[i], r[j], key)
    {
      if i > 0 {
        assert r[i] == rest[i - 1] && r[j] == rest[j - 1];
      } else {
        assert r[j] == rest[j - 1];
      }
    }
  }

  /** Insertion keeps a sorted sequence sorted. */
  lemma {:induction false} InsertSorted(x: Board, s: seq<Board>, key: SortKey)
    requires Sorted(s, key)
    ensures Sorted(Insert(x, s, key), key)
  {
    if s == [] {
    } else if InOrder(x, s[0], key) {
      forall j | 0 <= j < |s|
        ensures InOrder(x, s[j], key)
      {
        if j > 0 { InOrderTransitive(x, s[0], s[j], key); }
      }
      ConsSorted(x, s, key);
    } else {
      InOrderTotal(x, s[0], key);
      InsertSorted(x, s[1..], key);
      InsertAfterHead(x, s, key);
      assert Sorted(s[1..], key);
      ConsSorted(s[0], Insert(x, s[1..], key), key);
    }
  }

  /** `sortBoards(items, key)`: a sorted permutation of `items`; the input sequence
      itself is a value and stays as it was. */
  function SortBoards(items: seq<Board>, key: SortKey): (r: seq<Board>)
    ensures |r| == |items| && multiset(r) == multiset(items)
    ensures Sorted(r, key)
  {
    if items == [] then []
    else
      var rest := SortBoards(items[1..], key);
      InsertSorted(items[0], rest, key);
      assert items == [items[0]] + items[1..];
      Insert(items[0], rest, key)
  }

  /** Sorting by name lists names in ascending order; by a date key, dates in
      descending order; by favourite, every favourite before every other board. */
  lemma {:induction false} SortOrders(items: seq<Board>, i: nat, j: nat)
    requires i < j < |items|
    ensures StrLe(SortBoards(items, Name)[i].name, SortBoards(items, Name)[j].name)
    ensures StrLe(SortBoards(items, CreatedAt)[j].createdAt, SortBoards(items, CreatedAt)[i].createdAt)
    ensures SortBoards(items, IsFavorite)[j].isFavorite ==> SortBoards(items, IsFavorite)[i].isFavorite
  {
    var byName, byDate, byFav := SortBoards(items, Name), SortBoards(items, CreatedAt), SortBoards(items, IsFavorite);
    assert InOrder(byName[i], byName[j], Name);
    assert InOrder(byDate[i], byDate[j], CreatedAt);
    assert InOrder(byFav[i], byFav[j], IsFavorite);
  }

  // ---------------------------------------------------------------------------
  // Filtering
  // ---------------------------------------------------------------------------

  /** `s.filter(p)`: keeps exactly the boards satisfying `p`, in order. */
  function Filter(s: seq<Board>, p: Board -> bool): (r: seq<Board>)
    ensures |r| <= |s|
    ensures forall i :: 0 <= i < |r| ==> p(r[i]) && r[i] in s
  {
    if s == [] then [] else (if p(s[0]) then [s[0]] else []) + Filter(s[1..], p)
  }

  /** The filter keeps every board satisfying `p` as often as it occurs, and no other. */
  lemma {:induction false} FilterCounts(s: seq<Board>, p: Board -> bool)
    ensures forall b :: multiset(Filter(s, p))[b] == if p(b) then multiset(s)[b] else 0
  {
    if s != [] {
      assert s == [s[0]] + s[1..];
      FilterCounts(s[1..], p);
    }
  }

  /** Filtering a concatenation filters each part in place: kept boards keep
      their input order. */
  lemma {:induction false} FilterAppend(s: seq<Board>, t: seq<Board>, p: Board -> bool)
    ensures Filter(s + t, p) == Filter(s, p) + Filter(t, p)
    decreases |s|
  {
    if s == [] {
      assert s + t == t;
    } else {
      var u := s + t;
      var head := if p(s[0]) then [s[0]] else [];
      assert u[0] == s[0] && u[1..] == s[1..] + t;
      calc {
        Filter(u, p);
        { FilterStep(u, p); }
        head + Filter(s[1..] + t, p);
        { FilterAppend(s[1..], t, p); }
        head + (Filter(s[1..], p) + Filter(t, p));
        (head + Filter(s[1..], p)) + Filter(t, p);
        { FilterStep(s, p); }
        Filter(s, p) + Filter(t, p);
      }
    }
  }

  /** One step of the filter: the first board, if kept, then the filtered rest. */
  lemma FilterStep(s: seq<Board>, p: Board -> bool)
    requires s != []
    ensures Filter(s, p) == (if p(s[0]) then [s[0]] else []) + Filter(s[1..], p)
  {
  }

  /** A single board is kept exactly when it satisfies the predicate. */
  lemma FilterSingle(b: Board, p: Board -> bool)
    ensures Filter([b], p) == if p(b) then [b] else []
  {
    assert [b][1..] == [];
  }

  /** A board passes the filters of `GET /boards`: it has the requested favourite
      flag, if one was given, and its lower-cased name includes the search string. */
  predicate Matches(b: Board, isFavorite: Option<bool>, search: string) {
    (isFavorite.None? || b.isFavorite == isFavorite.value) && (search == "" || Contains(ToLower(b.name), search))
  }

  /** The filter chain of `GET /boards`: by favourite flag when one was parsed, then
      by search string when it is not empty. */
  function ApplyFilters(boards: seq<Board>, isFavorite: Option<bool>, search: string): (r: seq<Board>)
    ensures |r| <= |boards|
    ensures forall i :: 0 <= i < |r| ==> Matches(r[i], isFavorite, search)
  {
    var byFlag := if isFavorite.Some? then
                    var want := isFavorite.value;
                    Filter(boards, (b: Board) => b.isFavorite == want)
                  else boards;
    var bySearch := if search != "" then Filter(byFlag, (b: Board) => Contains(ToLower(b.name), search)) else byFlag;
    bySearch
  }

  /** The filter chain keeps every matching board as often as it occurs in the
      table, and no other board. */
  lemma {:induction false} ApplyFiltersCounts(boards: seq<Board>, isFavorite: Option<bool>, search: string)
    ensures forall b :: multiset(ApplyFilters(boards, isFavorite, search))[b]
                        == if Matches(b, isFavorite, search) then multiset(boards)[b] else 0
  {
    var byFlag := boards;
    if isFavorite.Some? {
      var want := isFavorite.value;
      byFlag := Filter(boards, (b: Board) => b.isFavorite == want);
      FilterCounts(boards, (b: Board) => b.isFavorite == want);
    }
    if search != "" {
      FilterCounts(byFlag, (b: Board) => Contains(ToLower(b.name), search));
    }
  }

  /** The filter chain works board by board: filtering a concatenation filters
      each part, so the listing keeps the table's order before it is sorted. */
  lemma {:induction false} ApplyFiltersAppend(s: seq<Board>, t: seq<Board>, isFavorite: Option<bool>, search: string)
    ensures ApplyFilters(s + t, isFavorite, search) == ApplyFilters(s, isFavorite, search) + ApplyFilters(t, isFavorite, search)
  {
    if isFavorite.Some? {
      var want := isFavorite.value;
      FilterAppend(s, t, (b: Board) => b.isFavorite == want);
    }
    var byFlag := (x: seq<Board>) => if isFavorite.Some? then
                                       var want := isFavorite.value;
                                       Filter(x, (b: Board) => b.isFavorite == want)
                                     else x;
    if search != "" {
      FilterAppend(byFlag(s), byFlag(t), (b: Board) => Contains(ToLower(b.name), search));
    }
  }

  /** Without a flag and without a search string the chain keeps every board in place. */
  lemma NoFiltersKeepAll(boards: seq<Board>)
    ensures ApplyFilters(boards, None, "") == boards
  {
  }

  // ---------------------------------------------------------------------------
  // Pagination
  // ---------------------------------------------------------------------------

  /** One page of the listing. */
  datatype Page = Page(list: seq<Board>, total: nat, totalPages: nat, currentPage: nat)

  /** `Math.max(1, limit)`. */
  function PageSize(limit: int): (n: nat)
    ensures n >= 1 && n >= limit
    ensures limit >= 1 ==> n == limit
    ensures limit < 1 ==> n == 1
  {
    if limit > 1 then limit else 1
  }

  /** `Math.max(1, Math.ceil(total / size))`: the fewest pages, at least one, that
      hold `total` items at `size` per page. */
  function PageCount(total: nat, size: nat): (n: nat)
    requires size >= 1
    ensures n >= 1
    ensures total <= n * size
    ensures n == 1 || (n - 1) * size < total
  {
    var c := (total + size - 1) / size;
    assert c * size <= total + size - 1 < c * size + size;
    assert (c - 1) * size == c * size - size;
    if c > 1 then c else 1
  }

  /** `a <= b` carries over to multiples. */
  lemma MulMonotone(a: nat, b: nat, m: nat)
    requires a <= b
    ensures a * m <= b * m
  {
  }

  /** The page `Math.min(Math.max(1, page), totalPages)` starts at this index. */
  function PageStart(current: nat, size: nat): nat
    requires current >= 1
  {
    (current - 1) * size
  }

  /** The `GET /boards` page arithmetic over the filtered, sorted boards: the page
      number is clamped into [1, totalPages] and the page is the contiguous slice of
      at most `size` boards starting at `(currentPage - 1) * size`. */
  function Paginate(result: seq<Board>, page: int, limit: int): (p: Page)
    ensures p.total == |result|
    ensures p.totalPages == PageCount(|result|, PageSize(limit))
    ensures 1 <= p.currentPage <= p.totalPages
    ensures 1 <= page <= p.totalPages ==> p.currentPage == page
    ensures page < 1 ==> p.currentPage == 1
    ensures page > p.totalPages ==> p.currentPage == p.totalPages
    ensures PageStart(p.currentPage, PageSize(limit)) <= |result|
    ensures |p.list| <= PageSize(limit)
    ensures var start := PageStart(p.currentPage, PageSize(limit));
            p.list == result[start..if start + PageSize(limit) <= |result| then start + PageSize(limit) else |result|]
  {
    var size := PageSize(limit);
    var total := |result|;
    var pages := PageCount(total, size);
    var current := if page < 1 then 1 else if page > pages then pages else page;
    var start := PageStart(current, size);
    MulMonotone(current - 1, pages - 1, size);
    var end := if start + size <= total then start + size else total;
    Page(result[start..end], total, pages, current)
  }

  /** A non-empty result never yields an empty page, whatever page was asked for. */
  lemma {:induction false} NonEmptyPage(result: seq<Board>, page: int, limit: int)
    requires |result| > 0
    ensures |Paginate(result, page, limit).list| >= 1
  {
    var p := Paginate(result, page, limit);
    var size := PageSize(limit);
    MulMonotone(p.currentPage - 1, p.totalPages - 1, size);
    assert PageStart(p.currentPage, size) < |result|;
  }

  /** The first page of at least `size` boards is full. */
  lemma {:induction false} FirstPageFull(result: seq<Board>, limit: int)
    requires |result| >= PageSize(limit)
    ensures |Paginate(result, 1, limit).list| == PageSize(limit)
  {
  }

  /** Euclidean division by a positive number. */
  lemma DivMod(a: nat, m: nat)
    requires m >= 1
    ensures (a / m) * m + a % m == a && 0 <= a % m < m
  {
  }

  /** A strict inequality between multiples of a positive number holds between the factors. */
  lemma MulCancelLess(a: nat, b: nat, m: nat)
    requires m >= 1 && a * m < b * m
    ensures a < b
  {
    if b <= a { MulMonotone(b, a, m); }
  }

  /** The board at `q * size + rem` is listed on page `q + 1`, at position `rem`. */
  lemma {:induction false} OnItsPage(result: seq<Board>, limit: int, q: nat, rem: nat)
    requires rem < PageSize(limit) && q * PageSize(limit) + rem < |result|
    ensures var p := Paginate(result, q + 1, limit);
            p.currentPage == q + 1 && rem < |p.list| && p.list[rem] == result[q * PageSize(limit) + rem]
  {
    var size := PageSize(limit);
    var pages := PageCount(|result|, size);
    MulCancelLess(q, pages, size);
    var p := Paginate(result, q + 1, limit);
    assert p.currentPage == q + 1;
    assert PageStart(q + 1, size) == q * size;
  }

  /** Every board of the result is listed on page `i / size + 1`, at position `i % size`. */
  lemma {:induction false} EveryBoardOnItsPage(result: seq<Board>, limit: int, i: nat)
    requires i < |result|
    ensures var size := PageSize(limit);
            var p := Paginate(result, i / size + 1, limit);
            p.currentPage == i / size + 1 && i % size < |p.list| && p.list[i % size] == result[i]
  {
    var size := PageSize(limit);
    DivMod(i, size);
    OnItsPage(result, limit, i / size, i % size);
  }
}
