/** The paged list of events over a fixed table in a fixed order. */
module EventListing {
  import opened Wrappers
  import opened Events

  /** A link carries its query parameters; the base URL is the same for all. */
  datatype Link = Link(page: int, pageSize: int, dateFrom: Option<int>)

  datatype EventPage = EventPage(count: nat, next: Option<Link>, previous: Option<Link>, results: seq<EventRow>)

  predicate Wanted(row: EventRow, dateFrom: Option<int>) {
    dateFrom.Some? ==> row.eventTime >= dateFrom.value
  }

  /** The rows that the filter keeps, in order. `dateFrom` is midnight of the given day. */
  function Filtered(rows: seq<EventRow>, dateFrom: Option<int>): seq<EventRow> {
    if rows == [] then []
    else (if Wanted(rows[0], dateFrom) then [rows[0]] else []) + Filtered(rows[1..], dateFrom)
  }

  /** The filter keeps each wanted row as often as the table has it, and no other. */
  lemma {:induction false} FilteredKeeps(rows: seq<EventRow>, dateFrom: Option<int>, row: EventRow)
    ensures multiset(Filtered(rows, dateFrom))[row]
            == if dateFrom.None? || row.eventTime >= dateFrom.value then multiset(rows)[row] else 0
  {
    if rows == [] {
    } else {
      var rest := Filtered(rows[1..], dateFrom);
      FilteredKeeps(rows[1..], dateFrom, row);
      assert rows == [rows[0]] + rows[1..];
      assert multiset(rows) == multiset{rows[0]} + multiset(rows[1..]);
      if Wanted(rows[0], dateFrom) {
        assert Filtered(rows, dateFrom) == [rows[0]] + rest;
        assert multiset([rows[0]] + rest) == multiset{rows[0]} + multiset(rest);
      } else {
        assert Filtered(rows, dateFrom) == rest;
      }
    }
  }

  /** The table as the query orders it. */
  ghost predicate InOrder(rows: seq<EventRow>) {
    forall i, j :: 0 <= i < j < |rows| ==> rows[i].eventTime <= rows[j].eventTime
  }

  lemma {:induction false} FilteredAreWanted(rows: seq<EventRow>, dateFrom: Option<int>)
    ensures forall row :: row in Filtered(rows, dateFrom) ==> row in rows
  {
    if rows == [] {
    } else {
      FilteredAreWanted(rows[1..], dateFrom);
    }
  }

  /** The filter keeps the order. */
  lemma {:induction false} FilteredInOrder(rows: seq<EventRow>, dateFrom: Option<int>)
    requires InOrder(rows)
    ensures InOrder(Filtered(rows, dateFrom))
  {
    if rows == [] {
    } else {
      FilteredInOrder(rows[1..], dateFrom);
      FilteredAreWanted(rows[1..], dateFrom);
      FirstIsEarliest(rows, Filtered(rows[1..], dateFrom));
    }
  }

  lemma FirstIsEarliest(rows: seq<EventRow>, rest: seq<EventRow>)
    requires InOrder(rows) && rows != [] && InOrder(rest) && forall row :: row in rest ==> row in rows[1..]
    ensures InOrder([rows[0]] + rest) && InOrder([] + rest)
  {
    forall j | 0 <= j < |rest| ensures rows[0].eventTime <= rest[j].eventTime {
      assert rest[j] in rows[1..];
    }
  }

  /** SQL's LIMIT and OFFSET. */
  function Slice(rows: seq<EventRow>, limit: nat, offset: nat): seq<EventRow> {
    if offset >= |rows| then []
    else if offset + limit > |rows| then rows[offset..]
    else rows[offset..offset + limit]
  }

  /** Where a page starts, `(page - 1) * page_size`, written as repeated addition. */
  function Start(page: int, pageSize: nat): nat
    requires page >= 1
  {
    if page == 1 then 0 else Start(page - 1, pageSize) + pageSize
  }

  lemma {:induction false} StartIsProduct(page: int, pageSize: nat)
    requires page >= 1
    ensures Start(page, pageSize) == (page - 1) * pageSize
  {
    if page == 1 {
    } else {
      StartIsProduct(page - 1, pageSize);
      assert (page - 1) * pageSize == (page - 1 - 1) * pageSize + pageSize;
    }
  }

  function BuildPageUrl(dateFrom: Option<int>, page: int, pageSize: nat, total: int): Option<Link> {
    if page < 1 then None
    else if Start(page, pageSize) >= total then None
    else Some(Link(page, pageSize, dateFrom))
  }

  /** One page of a list that is filtered already. */
  function PageOf(filtered: seq<EventRow>, dateFrom: Option<int>, page: int, pageSize: nat): EventPage
    requires page >= 1 && pageSize >= 1
  {
    EventPage(|filtered|,
              BuildPageUrl(dateFrom, page + 1, pageSize, |filtered|),
              BuildPageUrl(dateFrom, page - 1, pageSize, |filtered|),
              Slice(filtered, pageSize, Start(page, pageSize)))
  }

  function ListEvents(rows: seq<EventRow>, dateFrom: Option<int>, page: int, pageSize: nat): EventPage
    requires page >= 1 && pageSize >= 1
  {
    PageOf(Filtered(rows, dateFrom), dateFrom, page, pageSize)
  }

  /** Which rows of the table are wanted, by position. */
  ghost function WantedAt(rows: seq<EventRow>, dateFrom: Option<int>): set<int> {
    set i | 0 <= i < |rows| && (dateFrom.None? || rows[i].eventTime >= dateFrom.value)
  }

  lemma {:induction false} FilteredOneMore(rows: seq<EventRow>, row: EventRow, dateFrom: Option<int>)
    ensures Filtered(rows + [row], dateFrom)
            == Filtered(rows, dateFrom) + if dateFrom.None? || row.eventTime >= dateFrom.value then [row] else []
  {
    if rows == [] {
      assert rows + [row] == [row];
    } else {
      assert (rows + [row])[1..] == rows[1..] + [row];
      FilteredOneMore(rows[1..], row, dateFrom);
    }
  }

  lemma WantedOneMore(rows: seq<EventRow>, row: EventRow, dateFrom: Option<int>)
    ensures WantedAt(rows + [row], dateFrom)
            == WantedAt(rows, dateFrom) + if dateFrom.None? || row.eventTime >= dateFrom.value then {|rows|} else {}
  {
  }

  lemma {:induction false} FilteredCounts(rows: seq<EventRow>, dateFrom: Option<int>)
    ensures |Filtered(rows, dateFrom)| == |WantedAt(rows, dateFrom)|
  {
    if rows == [] {
      assert WantedAt(rows, dateFrom) == {};
    } else {
      var last := |rows| - 1;
      FilteredCounts(rows[..last], dateFrom);
      assert rows == rows[..last] + [rows[last]];
      FilteredOneMore(rows[..last], rows[last], dateFrom);
      WantedOneMore(rows[..last], rows[last], dateFrom);
    }
  }

  /** The parts of one page of a filtered list. */
  ghost predicate Showing(p: EventPage, filtered: seq<EventRow>, dateFrom: Option<int>, page: int, pageSize: nat,
                          start: int) {
    && p.count == |filtered|
    && |p.results| == (if start >= p.count then 0 else if start + pageSize > p.count then p.count - start
                       else pageSize)
    && (forall i :: 0 <= i < |p.results| ==> 0 <= start + i < |filtered| && p.results[i] == filtered[start + i])
    && p.next == (if start + pageSize < p.count then Some(Link(page + 1, pageSize, dateFrom)) else None)
    && p.previous == (if page >= 2 && start - pageSize < p.count then Some(Link(page - 1, pageSize, dateFrom))
                      else None)
  }

  lemma PageOfShows(filtered: seq<EventRow>, dateFrom: Option<int>, page: int, pageSize: nat)
    requires page >= 1 && pageSize >= 1
    ensures Showing(PageOf(filtered, dateFrom, page, pageSize), filtered, dateFrom, page, pageSize,
                    Start(page, pageSize))
  {
  }

  /** One page of the listing: the total is the number of wanted rows of the whole table, the
      results are the wanted rows from position `(page - 1) * pageSize` on, at most `pageSize`
      of them, and the links lead to the neighbouring pages that have a row, or would have one
      if they are not past the end. */
  lemma PageShows(rows: seq<EventRow>, dateFrom: Option<int>, page: int, pageSize: nat)
    requires page >= 1 && pageSize >= 1
    ensures ListEvents(rows, dateFrom, page, pageSize).count == |WantedAt(rows, dateFrom)|
    ensures Showing(ListEvents(rows, dateFrom, page, pageSize), Filtered(rows, dateFrom), dateFrom, page, pageSize,
                    (page - 1) * pageSize)
  {
    FilteredCounts(rows, dateFrom);
    StartIsProduct(page, pageSize);
    PageOfShows(Filtered(rows, dateFrom), dateFrom, page, pageSize);
  }

  /** The pages of a filtered list that lie behind one another from `page` on. */
  function Walk(filtered: seq<EventRow>, dateFrom: Option<int>, page: int, pageSize: nat): seq<EventPage>
    requires page >= 1 && pageSize >= 1
    decreases |filtered| - Start(page, pageSize)
  {
    var p := PageOf(filtered, dateFrom, page, pageSize);
    [p] + if p.next.Some? then Walk(filtered, dateFrom, p.next.value.page, pageSize) else []
  }

  /** The pages that a client sees who follows `next` from page 1 on. */
  function FollowNext(rows: seq<EventRow>, dateFrom: Option<int>, pageSize: nat): seq<EventPage>
    requires pageSize >= 1
  {
    Walk(Filtered(rows, dateFrom), dateFrom, 1, pageSize)
  }

  /** The windows of `size` rows from `start` on: what a full walk should show. */
  function Windows(all: seq<EventRow>, start: nat, size: nat): seq<seq<EventRow>>
    requires size >= 1
    decreases |all| - start
  {
    [Slice(all, size, start)] + if start + size < |all| then Windows(all, start + size, size) else []
  }

  function Flatten(parts: seq<seq<EventRow>>): seq<EventRow> {
    if parts == [] then [] else parts[0] + Flatten(parts[1..])
  }

  /** Pages of `size` that `left` rows take, at least one. */
  function PagesFor(left: int, size: nat): nat
    requires size >= 1
    decreases left
  {
    if left <= size then 1 else 1 + PagesFor(left - size, size)
  }

  lemma {:induction false} WindowsCover(all: seq<EventRow>, start: nat, size: nat)
    requires size >= 1 && start <= |all|
    ensures Flatten(Windows(all, start, size)) == all[start..]
    ensures |Windows(all, start, size)| == PagesFor(|all| - start, size)
    decreases |all| - start
  {
    var head := Slice(all, size, start);
    if start + size < |all| {
      WindowsCover(all, start + size, size);
      var rest := Windows(all, start + size, size);
      assert ([head] + rest)[1..] == rest;
      assert all[start..] == head + all[start + size..];
    } else {
      assert Flatten([head]) == head + Flatten([]);
    }
  }

  function ResultsOf(pages: seq<EventPage>): (parts: seq<seq<EventRow>>)
    ensures |parts| == |pages|
  {
    if pages == [] then [] else [pages[0].results] + ResultsOf(pages[1..])
  }

  lemma ResultsStep(p: EventPage, rest: seq<EventPage>)
    ensures ResultsOf([p] + rest) == [p.results] + ResultsOf(rest)
  {
    assert ([p] + rest)[1..] == rest;
  }

  lemma WalkStep(filtered: seq<EventRow>, dateFrom: Option<int>, page: int, pageSize: nat)
    requires page >= 1 && pageSize >= 1
    ensures ResultsOf(Walk(filtered, dateFrom, page, pageSize))
            == [Slice(filtered, pageSize, Start(page, pageSize))]
               + if Start(page, pageSize) + pageSize < |filtered|
                 then ResultsOf(Walk(filtered, dateFrom, page + 1, pageSize)) else []
  {
    var p := PageOf(filtered, dateFrom, page, pageSize);
    if p.next.Some? {
      ResultsStep(p, Walk(filtered, dateFrom, page + 1, pageSize));
    } else {
      ResultsStep(p, []);
    }
  }

  /** The walk shows the windows, one per page. */
  lemma {:induction false} WalkShowsWindows(filtered: seq<EventRow>, dateFrom: Option<int>, page: int, pageSize: nat)
    requires page >= 1 && pageSize >= 1
    ensures ResultsOf(Walk(filtered, dateFrom, page, pageSize)) == Windows(filtered, Start(page, pageSize), pageSize)
    decreases |filtered| - Start(page, pageSize)
  {
    WalkStep(filtered, dateFrom, page, pageSize);
    if Start(page, pageSize) + pageSize < |filtered| {
      WalkShowsWindows(filtered, dateFrom, page + 1, pageSize);
    }
  }

  lemma {:induction false} WalkAt(filtered: seq<EventRow>, dateFrom: Option<int>, page: int, pageSize: nat, i: nat)
    requires page >= 1 && pageSize >= 1 && i < |Walk(filtered, dateFrom, page, pageSize)|
    ensures Walk(filtered, dateFrom, page, pageSize)[i] == PageOf(filtered, dateFrom, page + i, pageSize)
    decreases i
  {
    var p := PageOf(filtered, dateFrom, page, pageSize);
    if i == 0 {
    } else {
      assert p.next == Some(Link(page + 1, pageSize, dateFrom));
      var rest := Walk(filtered, dateFrom, page + 1, pageSize);
      assert Walk(filtered, dateFrom, page, pageSize) == [p] + rest;
      WalkAt(filtered, dateFrom, page + 1, pageSize, i - 1);
    }
  }

  function AllResults(pages: seq<EventPage>): seq<EventRow> {
    Flatten(ResultsOf(pages))
  }

  lemma {:induction false} PagesForIff(left: int, size: nat, n: int)
    requires size >= 1 && n >= 1
    ensures PagesFor(left, size) <= n <==> left <= n * size
    decreases n
  {
    assert n * size == (n - 1) * size + size;
    if n == 1 {
    } else {
      if left > size {
        PagesForIff(left - size, size, n - 1);
      } else {
        assert (n - 1) * size >= 0;
      }
    }
  }

  lemma PagesForIsCeiling(total: nat, size: nat)
    requires size >= 1
    ensures PagesFor(total, size) == if total == 0 then 1 else (total + size - 1) / size
  {
    var n := PagesFor(total, size);
    PagesForIff(total, size, n);
    if n > 1 {
      PagesForIff(total, size, n - 1);
    } else {
      assert (n - 1) * size == 0;
    }
    if total > 0 {
      CeilingIs(total, size, n);
    }
  }

  lemma CeilingIs(total: int, size: int, n: int)
    requires size >= 1 && total >= 1 && n >= 1
    requires (n - 1) * size < total <= n * size
    ensures (total + size - 1) / size == n
  {
    var q := (total + size - 1) / size;
    assert total + size - 1 == q * size + (total + size - 1) % size;
    assert n * size == (n - 1) * size + size;
    assert q >= n + 1 ==> q * size >= (n + 1) * size;
    assert (n + 1) * size == n * size + size;
    assert q <= n - 1 ==> q * size <= (n - 1) * size;
  }

  /** Following `next` from page 1 visits each filtered row once and in order, on as many
      pages as are needed, and on one page if there is nothing to show. */
  lemma FollowNextCovers(rows: seq<EventRow>, dateFrom: Option<int>, pageSize: nat)
    requires pageSize >= 1
    ensures var pages := FollowNext(rows, dateFrom, pageSize);
            var total := |Filtered(rows, dateFrom)|;
            && AllResults(pages) == Filtered(rows, dateFrom)
            && |pages| == if total == 0 then 1 else (total + pageSize - 1) / pageSize
  {
    var filtered := Filtered(rows, dateFrom);
    WalkShowsWindows(Filtered(rows, dateFrom), dateFrom, 1, pageSize);
    WindowsCover(filtered, 0, pageSize);
    PagesForIsCeiling(|filtered|, pageSize);
    assert filtered[0..] == filtered;
  }

  /** The page at position `i` of the walk is the listing of page number `1 + i`. */
  lemma FollowNextAt(rows: seq<EventRow>, dateFrom: Option<int>, pageSize: nat, i: nat)
    requires pageSize >= 1 && i < |FollowNext(rows, dateFrom, pageSize)|
    ensures FollowNext(rows, dateFrom, pageSize)[i] == ListEvents(rows, dateFrom, 1 + i, pageSize)
  {
    WalkAt(Filtered(rows, dateFrom), dateFrom, 1, pageSize, i);
  }

  /** Going back from where `next` leads returns to the same page. */
  lemma PreviousUndoesNext(rows: seq<EventRow>, dateFrom: Option<int>, page: int, pageSize: nat)
    requires page >= 1 && pageSize >= 1
    requires ListEvents(rows, dateFrom, page, pageSize).next.Some?
    ensures var next := ListEvents(rows, dateFrom, page, pageSize).next.value;
            && next.page == page + 1
            && ListEvents(rows, dateFrom, next.page, pageSize).previous == Some(Link(page, pageSize, dateFrom))
  {
  }

  /** The other way round it holds exactly for pages that are not past the end. */
  lemma NextUndoesPreviousIff(rows: seq<EventRow>, dateFrom: Option<int>, page: int, pageSize: nat)
    requires page >= 1 && pageSize >= 1
    requires ListEvents(rows, dateFrom, page, pageSize).previous.Some?
    ensures var previous := ListEvents(rows, dateFrom, page, pageSize).previous.value;
            && previous.page == page - 1 >= 1
            && (ListEvents(rows, dateFrom, previous.page, pageSize).next == Some(Link(page, pageSize, dateFrom))
                <==> (page - 1) * pageSize < |Filtered(rows, dateFrom)|)
  {
    StartIsProduct(page, pageSize);
  }

  const MAX_PAGE := 100

  /** What the endpoint accepts. */
  predicate Accepts(page: int, pageSize: int) {
    1 <= page <= MAX_PAGE && 1 <= pageSize <= 100
  }

  /** Through the endpoint the whole list can be walked only while it fits on `MAX_PAGE`
      pages: every `next` link is accepted exactly then. */
  lemma EndpointServesAllIff(rows: seq<EventRow>, dateFrom: Option<int>, pageSize: nat)
    requires 1 <= pageSize <= 100
    ensures (forall page :: 1 <= page <= |FollowNext(rows, dateFrom, pageSize)| ==> Accepts(page, pageSize))
            <==> |Filtered(rows, dateFrom)| <= 100 * pageSize
  {
    var n := |FollowNext(rows, dateFrom, pageSize)|;
    WalkShowsWindows(Filtered(rows, dateFrom), dateFrom, 1, pageSize);
    WindowsCover(Filtered(rows, dateFrom), 0, pageSize);
    PagesForIff(|Filtered(rows, dateFrom)|, pageSize, MAX_PAGE);
    if n > MAX_PAGE {
      assert !Accepts(MAX_PAGE + 1, pageSize);
    }
  }
}
