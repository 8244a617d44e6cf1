/** The in-memory board table of `shared/api/mocks/handlers/boards.ts` and its
    handlers: listing, creation, lookup, rename, favourite flag and deletion.
    `crypto.randomUUID()` is a fresh-id oracle `uuid` read at position
    `uuidsDrawn`; `new Date()` is a millisecond clock with an opaque ISO renderer. */
module BoardsMock {
  import opened Common
  import opened Strings
  import opened BoardQuery

  const NOT_FOUND := ApiError(404, "NOT_FOUND")
  const BAD_REQUEST := ApiError(400, "BAD_REQUEST")
  const OK := 200
  const CREATED := 201
  const NO_CONTENT := 204

  const MINUTE_MS := 60000
  const SEED_NAME_WIDTH := 4
  const DEFAULT_PAGE := 1
  const DEFAULT_LIMIT := 10

  /** A successful JSON reply carrying one board. */
  datatype BoardReply = BoardReply(status: nat, board: Board)

  /** The search parameters of `GET /boards`; `page` and `limit` are already numbers. */
  datatype ListQuery = ListQuery(page: Option<int>, limit: Option<int>, sort: Option<string>,
                                 isFavorite: Option<string>, search: Option<string>)

  function PageParam(q: ListQuery): int {
    if q.page.Some? then q.page.value else DEFAULT_PAGE
  }

  function LimitParam(q: ListQuery): int {
    if q.limit.Some? then q.limit.value else DEFAULT_LIMIT
  }

  /** The first, unfiltered page, on which the handler tops the table up. */
  predicate TopsUp(q: ListQuery) {
    PageParam(q) == 1 && NormalizeSearch(q.search) == "" && ParseBooleanParam(q.isFavorite).None?
  }

  /** `boards.findIndex(b => b.id === id)`, which is also where `find` stops. */
  function FindIndex(boards: seq<Board>, id: string): (i: int)
    ensures -1 <= i < |boards|
    ensures i == -1 <==> forall j :: 0 <= j < |boards| ==> boards[j].id != id
    ensures i >= 0 ==> boards[i].id == id && forall j :: 0 <= j < i ==> boards[j].id != id
  {
    if boards == [] then -1
    else if boards[0].id == id then 0
    else
      var k := FindIndex(boards[1..], id);
      if k == -1 then -1 else k + 1
  }

  /** The name of the `i`-th seeded board: `Board #` and `i + 1` padded to four digits. */
  function SeedName(i: nat): string {
    "Board #" + PadStart(Decimal(i + 1), SEED_NAME_WIDTH, '0')
  }

  /** The `i`-th board of a `seedBoards` run started at `baseMs`: stamped `i` minutes
      earlier, a favourite exactly when `i` is even. */
  function SeedBoard(i: nat, baseMs: int, iso: int -> string, id: string): Board {
    var stamp := iso(baseMs - i * MINUTE_MS);
    Board(id, SeedName(i), stamp, stamp, stamp, i % 2 == 0)
  }

  /** The `count` boards one `seedBoards(count)` run appends, the first taking the
      oracle's id number `firstUuid`. */
  function SeedRun(count: nat, baseMs: int, iso: int -> string, uuid: nat -> string, firstUuid: nat)
    : (run: seq<Board>)
    ensures |run| == count
    ensures forall i :: 0 <= i < count ==> run[i] == SeedBoard(i, baseMs, iso, uuid(firstUuid + i))
  {
    seq(count, i requires 0 <= i < count => SeedBoard(i, baseMs, iso, uuid(firstUuid + i)))
  }

  /** What each seeded board holds: board `i` of a run takes the `i`-th fresh id, is
      named `Board #` and `i + 1` padded to four digits, carries three equal
      timestamps `i` minutes before `baseMs`, and is a favourite exactly when `i` is
      even. */
  lemma {:induction false} SeedRunFields(count: nat, baseMs: int, iso: int -> string, uuid: nat -> string,
                                         firstUuid: nat, i: nat)
    requires i < count
    ensures var b := SeedRun(count, baseMs, iso, uuid, firstUuid)[i];
            && b.id == uuid(firstUuid + i)
            && b.name == "Board #" + PadStart(Decimal(i + 1), SEED_NAME_WIDTH, '0')
            && b.createdAt == b.updatedAt == b.lastOpenedAt == iso(baseMs - i * MINUTE_MS)
            && (b.isFavorite <==> i % 2 == 0)
  {
    var b := SeedRun(count, baseMs, iso, uuid, firstUuid)[i];
    assert b == SeedBoard(i, baseMs, iso, uuid(firstUuid + i));
  }

  /** The page `GET /boards` answers for the table `boards`: the boards passing the
      filters, sorted and paginated. Every listed board passes the filters, `total`
      counts exactly the boards that do, and on the first unfiltered page of a table
      holding at least one page the page is full. */
  function Listing(boards: seq<Board>, q: ListQuery): (p: Page)
    ensures forall b :: b in p.list ==> Matches(b, ParseBooleanParam(q.isFavorite), NormalizeSearch(q.search))
    ensures p.total == |ApplyFilters(boards, ParseBooleanParam(q.isFavorite), NormalizeSearch(q.search))|
    ensures TopsUp(q) && |boards| >= PageSize(LimitParam(q)) ==> |p.list| == PageSize(LimitParam(q))
  {
    var isFavorite, search := ParseBooleanParam(q.isFavorite), NormalizeSearch(q.search);
    var result := ApplyFilters(boards, isFavorite, search);
    var sorted := SortBoards(result, ParseSortKey(q.sort));
    PageKeepsFilters(result, sorted, PageParam(q), LimitParam(q), isFavorite, search);
    if TopsUp(q) && |boards| >= PageSize(LimitParam(q)) then
      NoFiltersKeepAll(boards);
      FirstPageFull(sorted, LimitParam(q));
      Paginate(sorted, PageParam(q), LimitParam(q))
    else
      Paginate(sorted, PageParam(q), LimitParam(q))
  }

  /** Any page of a permutation of filtered boards lists only boards that pass. */
  lemma {:induction false} PageKeepsFilters(result: seq<Board>, sorted: seq<Board>, page: int, limit: int,
                                            isFavorite: Option<bool>, search: string)
    requires forall i :: 0 <= i < |result| ==> Matches(result[i], isFavorite, search)
    requires multiset(sorted) == multiset(result)
    ensures forall b :: b in Paginate(sorted, page, limit).list ==> Matches(b, isFavorite, search)
  {
    forall b | b in Paginate(sorted, page, limit).list
      ensures Matches(b, isFavorite, search)
    {
      assert b in multiset(sorted);
      assert b in multiset(result);
      var k :| 0 <= k < |result| && result[k] == b;
    }
  }

  /** A run one board longer ends with that board. */
  lemma {:induction false} SeedRunStep(count: nat, baseMs: int, iso: int -> string, uuid: nat -> string, firstUuid: nat)
    ensures SeedRun(count + 1, baseMs, iso, uuid, firstUuid)
            == SeedRun(count, baseMs, iso, uuid, firstUuid) + [SeedBoard(count, baseMs, iso, uuid(firstUuid + count))]
  {
    var longer, shorter := SeedRun(count + 1, baseMs, iso, uuid, firstUuid), SeedRun(count, baseMs, iso, uuid, firstUuid);
    assert forall i :: 0 <= i < count ==> longer[i] == shorter[i];
  }

  /** Seeded board names are four-digit numbered from "Board #0001". */
  lemma SeedNameExamples()
    ensures SeedName(0) == "Board #0001"
    ensures SeedName(41) == "Board #0042"
  {
    assert Decimal(1) == "1";
    assert Decimal(42) == "42" by { assert Decimal(4) == "4" && Decimal(2) == "2"; }
  }

  /** The module-level `boards` array. */
  class BoardTable {
    var boards: seq<Board>
    /** How many values the fresh-id oracle has handed out. */
    var uuidsDrawn: nat

    /** The two boards the module starts with; each `seedTime()` reads the clock once. */
    constructor (firstStamp: string, secondStamp: string)
      ensures boards == [Board("board-1", "Marketing Campaign", firstStamp, firstStamp, firstStamp, false),
                         Board("board-2", "Product Roadmap", secondStamp, secondStamp, secondStamp, true)]
      ensures uuidsDrawn == 0
    {
      boards := [Board("board-1", "Marketing Campaign", firstStamp, firstStamp, firstStamp, false),
                 Board("board-2", "Product Roadmap", secondStamp, secondStamp, secondStamp, true)];
      uuidsDrawn := 0;
    }

    /** `seedBoards(count)`: appends exactly `count` boards after the existing ones,
        which stay as they were, and returns `count`. */
    method SeedBoards(count: nat, baseMs: int, iso: int -> string, uuid: nat -> string) returns (n: nat)
      modifies this
      ensures n == count
      ensures boards == old(boards) + SeedRun(count, baseMs, iso, uuid, old(uuidsDrawn))
      ensures uuidsDrawn == old(uuidsDrawn) + count
    {
      var i := 0;
      while i < count
        invariant 0 <= i <= count
        invariant boards == old(boards) + SeedRun(i, baseMs, iso, uuid, old(uuidsDrawn))
        invariant uuidsDrawn == old(uuidsDrawn) + i
      {
        var board := SeedBoard(i, baseMs, iso, uuid(uuidsDrawn));
        SeedRunStep(i, baseMs, iso, uuid, old(uuidsDrawn));
        uuidsDrawn := uuidsDrawn + 1;
        boards := boards + [board];
        i := i + 1;
      }
      return count;
    }

    /** `ensureBoardsCount(min)`: afterwards there are at least `min` boards; a table
        that already had them is untouched, a shorter one is seeded up to `min`. */
    method EnsureBoardsCount(min: int, baseMs: int, iso: int -> string, uuid: nat -> string)
      modifies this
      ensures |boards| >= min
      ensures |old(boards)| >= min ==> boards == old(boards) && uuidsDrawn == old(uuidsDrawn)
      ensures |old(boards)| < min ==>
                && boards == old(boards) + SeedRun(min - |old(boards)|, baseMs, iso, uuid, old(uuidsDrawn))
                && uuidsDrawn == old(uuidsDrawn) + (min - |old(boards)|)
    {
      if |boards| < min {
        var _ := SeedBoards(min - |boards|, baseMs, iso, uuid);
      }
    }

    /** `GET /boards`: on the first unfiltered page the table is first topped up to
        one page, seeding exactly the missing boards; then the page is the listing of
        the resulting table, which on that first page is full. */
    method ListBoards(q: ListQuery, baseMs: int, iso: int -> string, uuid: nat -> string) returns (p: Page)
      modifies this
      ensures !TopsUp(q) ==> boards == old(boards) && uuidsDrawn == old(uuidsDrawn)
      ensures TopsUp(q) && |old(boards)| >= PageSize(LimitParam(q)) ==>
                boards == old(boards) && uuidsDrawn == old(uuidsDrawn)
      ensures TopsUp(q) && |old(boards)| < PageSize(LimitParam(q)) ==>
                && boards == old(boards) + SeedRun(PageSize(LimitParam(q)) - |old(boards)|,
                                                   baseMs, iso, uuid, old(uuidsDrawn))
                && uuidsDrawn == old(uuidsDrawn) + (PageSize(LimitParam(q)) - |old(boards)|)
      ensures p == Listing(boards, q)
      ensures TopsUp(q) ==> |boards| >= PageSize(LimitParam(q)) && |p.list| == PageSize(LimitParam(q))
    {
      if TopsUp(q) {
        EnsureBoardsCount(PageSize(LimitParam(q)), baseMs, iso, uuid);
      }
      p := Listing(boards, q);
    }

    /** `POST /boards`: a missing, empty or non-string name (`None` stands for the
        last two kinds) is refused with 400 and nothing changes; otherwise one board
        with that name, not a favourite and three equal timestamps is appended and
        returned with 201. */
    method CreateBoard(name: Option<string>, now: string, uuid: nat -> string)
      returns (r: Result<BoardReply, ApiError>)
      modifies this
      ensures !Truthy(name) ==>
                r == Failure(BAD_REQUEST) && boards == old(boards) && uuidsDrawn == old(uuidsDrawn)
      ensures Truthy(name) ==>
                var board := Board(uuid(old(uuidsDrawn)), name.value, now, now, now, false);
                && boards == old(boards) + [board]
                && uuidsDrawn == old(uuidsDrawn) + 1
                && r == Success(BoardReply(CREATED, board))
    {
      if !Truthy(name) {
        return Failure(BAD_REQUEST);
      }
      var board := Board(uuid(uuidsDrawn), name.value, now, now, now, false);
      uuidsDrawn := uuidsDrawn + 1;
      boards := boards + [board];
      return Success(BoardReply(CREATED, board));
    }

    /** `GET /boards/{boardId}`: the first board with that id, or 404. */
    method GetBoard(id: string) returns (r: Result<BoardReply, ApiError>)
      ensures r.Success? <==> exists j :: 0 <= j < |boards| && boards[j].id == id
      ensures r.Success? ==>
                r.value.status == OK && r.value.board.id == id
                && r.value.board == boards[FindIndex(boards, id)]
      ensures r.Failure? ==> r.error == NOT_FOUND
    {
      var i := FindIndex(boards, id);
      if i == -1 {
        return Failure(NOT_FOUND);
      }
      return Success(BoardReply(OK, boards[i]));
    }

    /** `PUT /boards/{boardId}/rename`: 404 for an unknown id (checked before the
        body), 400 for a missing, empty or non-string name, and otherwise only that
        board's name and `updatedAt` change. */
    method RenameBoard(id: string, name: Option<string>, now: string)
      returns (r: Result<BoardReply, ApiError>)
      modifies this
      ensures uuidsDrawn == old(uuidsDrawn)
      ensures FindIndex(old(boards), id) == -1 ==> r == Failure(NOT_FOUND) && boards == old(boards)
      ensures FindIndex(old(boards), id) >= 0 && !Truthy(name) ==>
                r == Failure(BAD_REQUEST) && boards == old(boards)
      ensures FindIndex(old(boards), id) >= 0 && Truthy(name) ==>
                var i := FindIndex(old(boards), id);
                && boards == old(boards)[i := old(boards)[i].(name := name.value, updatedAt := now)]
                && r == Success(BoardReply(OK, boards[i]))
    {
      var i := FindIndex(boards, id);
      if i == -1 {
        return Failure(NOT_FOUND);
      }
      if !Truthy(name) {
        return Failure(BAD_REQUEST);
      }
      boards := boards[i := boards[i].(name := name.value, updatedAt := now)];
      return Success(BoardReply(OK, boards[i]));
    }

    /** `PUT /boards/{boardId}/favorite`: 404 for an unknown id (checked before the
        body), 400 when `isFavorite` is not a boolean (`None`), and otherwise only
        that board's flag and `updatedAt` change. */
    method SetFavorite(id: string, isFavorite: Option<bool>, now: string)
      returns (r: Result<BoardReply, ApiError>)
      modifies this
      ensures uuidsDrawn == old(uuidsDrawn)
      ensures FindIndex(old(boards), id) == -1 ==> r == Failure(NOT_FOUND) && boards == old(boards)
      ensures FindIndex(old(boards), id) >= 0 && isFavorite.None? ==>
                r == Failure(BAD_REQUEST) && boards == old(boards)
      ensures FindIndex(old(boards), id) >= 0 && isFavorite.Some? ==>
                var i := FindIndex(old(boards), id);
                && boards == old(boards)[i := old(boards)[i].(isFavorite := isFavorite.value, updatedAt := now)]
                && r == Success(BoardReply(OK, boards[i]))
    {
      var i := FindIndex(boards, id);
      if i == -1 {
        return Failure(NOT_FOUND);
      }
      if isFavorite.None? {
        return Failure(BAD_REQUEST);
      }
      boards := boards[i := boards[i].(isFavorite := isFavorite.value, updatedAt := now)];
      return Success(BoardReply(OK, boards[i]));
    }

    /** `DELETE /boards/{boardId}`: 404 and no change for an unknown id; otherwise
        the first board with that id is spliced out and 204 is returned. */
    method DeleteBoard(id: string) returns (r: Result<nat, ApiError>)
      modifies this
      ensures uuidsDrawn == old(uuidsDrawn)
      ensures FindIndex(old(boards), id) == -1 ==> r == Failure(NOT_FOUND) && boards == old(boards)
      ensures FindIndex(old(boards), id) >= 0 ==>
                var i := FindIndex(old(boards), id);
                && boards == old(boards)[..i] + old(boards)[i + 1..]
                && r == Success(NO_CONTENT)
    {
      var i := FindIndex(boards, id);
      if i == -1 {
        r := Failure(NOT_FOUND);
      } else {
        boards := boards[..i] + boards[i + 1..];
        r := Success(NO_CONTENT);
      }
    }
  }

  /** Deleting the board at `i` shortens the table by one, keeps the boards before
      it in place and shifts the ones after it down by one. */
  lemma {:induction false} SpliceKeepsOthers(boards: seq<Board>, i: nat)
    requires i < |boards|
    ensures var rest := boards[..i] + boards[i + 1..];
            && |rest| == |boards| - 1
            && (forall j :: 0 <= j < i ==> rest[j] == boards[j])
            && (forall j :: i <= j < |rest| ==> rest[j] == boards[j + 1])
            && multiset(boards) == multiset(rest) + multiset{boards[i]}
  {
    var rest := boards[..i] + boards[i + 1..];
    assert boards == boards[..i] + [boards[i]] + boards[i + 1..];
  }
}
