/** Cursor paging over run events, charts and images, and offset paging over compared runs. */
module Paging {
  import opened Wrappers
  import opened Select

  /** A row of `run_events`; what a chart or image makes of it is left to a predicate. */
  datatype Row = Row(id: int, message: string)

  predicate Ascending(rows: seq<Row>) {
    forall i, j :: 0 <= i < j < |rows| ==> rows[i].id < rows[j].id
  }

  function Clamp(n: nat, low: nat, high: nat): nat
    requires low <= high
  {
    if n < low then low else if n > high then high else n
  }

  predicate Beyond(row: Row, after: Option<int>) {
    after.None? || row.id > after.value
  }

  /** The rows past the cursor. */
  function After(rows: seq<Row>, after: Option<int>): seq<Row> {
    Filter(rows, r => Beyond(r, after))
  }

  /** `list_run_events`: past the cursor, by id, at most `limit` of them. */
  function ListEvents(rows: seq<Row>, after: Option<int>, limit: nat): (r: seq<Row>)
    ensures r <= After(rows, after)
  {
    Take(After(rows, after), Clamp(limit, 1, 1000))
  }

  datatype Page = Page(rows: seq<Row>, next: Option<int>, more: bool)

  /** The cursor of the last row shown, or the one that was asked with. */
  function NextCursor(rows: seq<Row>, after: Option<int>): Option<int> {
    if rows == [] then after else Some(rows[|rows| - 1].id)
  }

  function EventPage(rows: seq<Row>, after: Option<int>, limit: nat): Page {
    var size := Clamp(limit, 1, 500);
    var fetched := ListEvents(rows, after, size + 1);
    var shown := Take(fetched, size);
    Page(shown, NextCursor(shown, after), |fetched| > size)
  }

  /** Charts and images: fetch a window of events, keep those that qualify, show some. */
  function LogPage(rows: seq<Row>, keep: Row -> bool, after: Option<int>, limit: nat): Page {
    var size := Clamp(limit, 1, 200);
    var kept := Filter(Window(rows, after, limit), keep);
    var shown := Take(kept, size);
    Page(shown, NextCursor(shown, after), |kept| > size)
  }

  function Window(rows: seq<Row>, after: Option<int>, limit: nat): seq<Row> {
    ListEvents(rows, after, Clamp(Clamp(limit, 1, 200) * 10, 20, 1000))
  }

  // ------------------------------------------------------------------ cursors and positions

  /** Past the id of row `k` lie exactly the rows after it. */
  lemma AfterRow(rows: seq<Row>, k: nat)
    requires Ascending(rows) && k < |rows|
    ensures After(rows, Some(rows[k].id)) == rows[k + 1..]
  {
    var beyond := (r: Row) => Beyond(r, Some(rows[k].id));
    var head, tail := rows[..k + 1], rows[k + 1..];
    assert rows == head + tail;
    FilterAppend(head, tail, beyond);
    FilterNone(head, beyond);
    FilterAll(tail, beyond);
    SameFilter(rows, beyond, r => Beyond(r, Some(rows[k].id)));
  }

  /** Moving the cursor to a row of what is left drops that row and what precedes it. */
  lemma AfterAfter(rows: seq<Row>, after: Option<int>, k: nat)
    requires Ascending(rows) && k < |After(rows, after)|
    ensures After(rows, Some(After(rows, after)[k].id)) == After(rows, after)[k + 1..]
  {
    var left := After(rows, after);
    AfterIsSuffix(rows, after);
    var m := |rows| - |left|;
    AfterRow(rows, m + k);
    assert rows[m + k] == left[k];
  }

  /** What lies past any cursor is a suffix. */
  lemma {:induction false} AfterIsSuffix(rows: seq<Row>, after: Option<int>)
    requires Ascending(rows)
    ensures |After(rows, after)| <= |rows| && After(rows, after) == rows[|rows| - |After(rows, after)|..]
    decreases |rows|
  {
    if rows != [] {
      if Beyond(rows[0], after) {
        assert forall i :: 0 <= i < |rows| ==> Beyond(rows[i], after);
        FilterAll(rows, r => Beyond(r, after));
      } else {
        AfterTail(rows, after);
        AfterIsSuffix(rows[1..], after);
      }
    }
  }

  lemma AfterTail(rows: seq<Row>, after: Option<int>)
    requires rows != [] && !Beyond(rows[0], after)
    ensures After(rows, after) == After(rows[1..], after)
  {
  }

  // ------------------------------------------------------------------ events

  /** The size asked for, within these bounds. */
  predicate IsSize(size: nat, asked: nat, low: nat, high: nat) {
    low <= size <= high && (size == asked || (asked < low && size == low) || (asked > high && size == high))
  }

  /** A page shows as many rows past the cursor as were asked for, from 1 to 500, and tells whether there are
      more; its cursor is the id of its last row. */
  lemma EventPageExact(rows: seq<Row>, after: Option<int>, limit: nat) returns (size: nat)
    ensures IsSize(size, limit, 1, 500)
    ensures var page, left := EventPage(rows, after, limit), After(rows, after);
            && page.rows == left[..if size <= |left| then size else |left|]
            && (page.more <==> |left| > size)
            && page.next == if left == [] then after else Some(page.rows[|page.rows| - 1].id)
  {
    hide After;
    size := Clamp(limit, 1, 500);
  }

  /** A page of charts or images shows as many as were asked for, from 1 to 200, of those among the next ten
      times as many events, from 20 to 1000, and tells whether that many events hold more. */
  lemma LogPageExact(rows: seq<Row>, keep: Row -> bool, after: Option<int>, limit: nat) returns (size: nat, span: nat)
    ensures IsSize(size, limit, 1, 200) && IsSize(span, 10 * size, 20, 1000)
    ensures var page, left := LogPage(rows, keep, after, limit), After(rows, after);
            var kept := Filter(left[..if span <= |left| then span else |left|], keep);
            && page.rows == kept[..if size <= |kept| then size else |kept|]
            && (page.more <==> |kept| > size)
            && page.next == if kept == [] then after else Some(page.rows[|page.rows| - 1].id)
  {
    hide After, Filter;
    size := Clamp(limit, 1, 200);
    span := Clamp(size * 10, 20, 1000);
    var left := After(rows, after);
    assert left[..if span <= |left| then span else |left|] == Take(left, span) == Window(rows, after, limit);
  }

  /** A page shows the next rows, and the next cursor leaves exactly the others. */
  lemma EventPageSplits(rows: seq<Row>, after: Option<int>, limit: nat)
    requires Ascending(rows)
    ensures var page := EventPage(rows, after, limit);
            && |page.rows| <= Clamp(limit, 1, 500)
            && (page.more ==> page.rows != [])
            && After(rows, after) == page.rows + if page.more then After(rows, page.next) else []
  {
    hide After;
    var left := After(rows, after);
    var size := Clamp(limit, 1, 500);
    var page := EventPage(rows, after, limit);
    if page.more {
      assert page.rows == left[..size];
      AfterAfter(rows, after, size - 1);
      assert left == left[..size] + left[size..];
    } else {
      assert page.rows == left;
      assert left == left + [];
    }
  }

  /** Follow `next_after_id` for as long as there is more; page `n` asks for `limits(n)` rows. */
  function EventWalk(rows: seq<Row>, after: Option<int>, limits: nat -> nat, n: nat): seq<Row>
    requires Ascending(rows)
    decreases |After(rows, after)|
  {
    var page := EventPage(rows, after, limits(n));
    EventPageSplits(rows, after, limits(n));
    if page.more then page.rows + EventWalk(rows, page.next, limits, n + 1) else page.rows
  }

  /** The walk stops, and shows every event past the cursor once, in order, whatever the page sizes. */
  lemma {:induction false} EventWalkComplete(rows: seq<Row>, after: Option<int>, limits: nat -> nat, n: nat)
    requires Ascending(rows)
    ensures EventWalk(rows, after, limits, n) == After(rows, after)
    decreases |After(rows, after)|
  {
    hide EventPage;
    var page := EventPage(rows, after, limits(n));
    EventPageSplits(rows, after, limits(n));
    if page.more {
      EventWalkComplete(rows, page.next, limits, n + 1);
    } else {
      assert page.rows + [] == page.rows;
    }
  }

  /** From the beginning, that is the whole list. */
  lemma EventWalkFromStart(rows: seq<Row>, limits: nat -> nat)
    requires Ascending(rows)
    ensures EventWalk(rows, None, limits, 0) == rows
  {
    EventWalkComplete(rows, None, limits, 0);
    FilterAll(rows, r => Beyond(r, None));
  }

  // ------------------------------------------------------------------ charts and images

  /** The positions of the kept elements, counted from `offset`. */
  function Positions<T>(s: seq<T>, keep: T -> bool, offset: int): (p: seq<int>)
    ensures |p| == |Filter(s, keep)|
    ensures forall i :: 0 <= i < |p| ==> offset <= p[i] < offset + |s|
    decreases |s|
  {
    if s == [] then []
    else (if keep(s[0]) then [offset] else []) + Positions(s[1..], keep, offset + 1)
  }

  lemma HeadKept<T>(s: seq<T>, keep: T -> bool, offset: int)
    requires s != [] && keep(s[0])
    ensures Filter(s, keep) == [s[0]] + Filter(s[1..], keep)
    ensures Positions(s, keep, offset) == [offset] + Positions(s[1..], keep, offset + 1)
  {
  }

  lemma HeadDropped<T>(s: seq<T>, keep: T -> bool, offset: int)
    requires s != [] && !keep(s[0])
    ensures Filter(s, keep) == Filter(s[1..], keep)
    ensures Positions(s, keep, offset) == Positions(s[1..], keep, offset + 1)
  {
    var rest := Positions(s[1..], keep, offset + 1);
    assert [] + rest == rest;
  }

  /** The `m`-th kept element and what follows it. */
  ghost predicate SplitsAt<T(!new)>(s: seq<T>, keep: T -> bool, offset: int, m: nat)
    requires m < |Filter(s, keep)|
  {
    var k := Positions(s, keep, offset)[m] - offset;
    && s[k] == Filter(s, keep)[m]
    && Filter(s[k + 1..], keep) == Filter(s, keep)[m + 1..]
    && Positions(s[k + 1..], keep, offset + k + 1) == Positions(s, keep, offset)[m + 1..]
  }

  lemma HeadSplits<T(!new)>(s: seq<T>, keep: T -> bool, offset: int)
    requires s != [] && keep(s[0])
    ensures |Filter(s, keep)| > 0 && SplitsAt(s, keep, offset, 0)
  {
    hide Filter, Positions;
    HeadKept(s, keep, offset);
    var f, p := Filter(s[1..], keep), Positions(s[1..], keep, offset + 1);
    assert ([s[0]] + f)[1..] == f && ([offset] + p)[1..] == p;
  }

  lemma {:induction false} FilterBounded<T>(s: seq<T>, keep: T -> bool)
    ensures |Filter(s, keep)| <= |s|
    decreases |s|
  {
    if s != [] { FilterBounded(s[1..], keep); }
  }

  /** Where the `m`-th kept element stands, and how it splits the selection. */
  lemma {:induction false} PositionSplits<T(!new)>(s: seq<T>, keep: T -> bool, offset: int, m: nat)
    requires m < |Filter(s, keep)|
    ensures SplitsAt(s, keep, offset, m)
    decreases |s|
  {
    hide Filter, Positions, SplitsAt;
    FilterBounded(s, keep);
    if keep(s[0]) {
      HeadKept(s, keep, offset);
      if m == 0 {
        HeadSplits(s, keep, offset);
      } else {
        PositionSplits(s[1..], keep, offset + 1, m - 1);
        SplitAfterHead(s, keep, offset, m, m - 1);
      }
    } else {
      HeadDropped(s, keep, offset);
      PositionSplits(s[1..], keep, offset + 1, m);
      SplitAfterHead(s, keep, offset, m, m);
    }
  }

  lemma SplitAfterHead<T(!new)>(s: seq<T>, keep: T -> bool, offset: int, m: nat, rest: nat)
    requires s != [] && m < |Filter(s, keep)| && rest < |Filter(s[1..], keep)| && SplitsAt(s[1..], keep, offset + 1, rest)
    requires Positions(s, keep, offset)[m..] == Positions(s[1..], keep, offset + 1)[rest..]
    requires Filter(s, keep)[m..] == Filter(s[1..], keep)[rest..]
    ensures SplitsAt(s, keep, offset, m)
  {
    hide Filter, Positions;
    var p, q, f, g := Positions(s, keep, offset), Positions(s[1..], keep, offset + 1), Filter(s, keep), Filter(s[1..], keep);
    assert p[m] == p[m..][0] && q[rest] == q[rest..][0] && f[m] == f[m..][0] && g[rest] == g[rest..][0];
    assert p[m + 1..] == p[m..][1..] && q[rest + 1..] == q[rest..][1..];
    assert f[m + 1..] == f[m..][1..] && g[rest + 1..] == g[rest..][1..];
    var k := p[m] - offset;
    assert s[1..][k..] == s[k + 1..];
  }

  lemma {:induction false} PositionsAppend<T>(s: seq<T>, t: seq<T>, keep: T -> bool, offset: int)
    ensures Positions(s + t, keep, offset) == Positions(s, keep, offset) + Positions(t, keep, offset + |s|)
    decreases |s|
  {
    hide Positions, Filter;
    if s == [] {
      FilterNone(s, keep);
      assert s + t == t;
    } else {
      PositionsAppend(s[1..], t, keep, offset + 1);
      assert (s + t)[1..] == s[1..] + t && (s + t)[0] == s[0];
      if keep(s[0]) {
        HeadKept(s, keep, offset);
        HeadKept(s + t, keep, offset);
      } else {
        HeadDropped(s, keep, offset);
        HeadDropped(s + t, keep, offset);
      }
    }
  }

  lemma FilterPrefix<T>(s: seq<T>, t: seq<T>, keep: T -> bool)
    requires s <= t
    ensures Filter(t, keep) == Filter(s, keep) + Filter(t[|s|..], keep)
  {
    FilterAppend(s, t[|s|..], keep);
    assert t == s + t[|s|..];
  }

  /** A page shows the first kept rows of its window; if it says there is more, the next cursor leaves
      exactly the kept rows not shown. */
  lemma LogPageSplits(rows: seq<Row>, keep: Row -> bool, after: Option<int>, limit: nat)
    requires Ascending(rows)
    ensures var page := LogPage(rows, keep, after, limit);
            && |page.rows| <= Clamp(limit, 1, 200)
            && (page.more ==> page.rows != [] && |After(rows, page.next)| < |After(rows, after)|)
            && (page.more ==> Filter(After(rows, after), keep) == page.rows + Filter(After(rows, page.next), keep))
            && (!page.more ==> page.rows == Filter(Window(rows, after, limit), keep))
  {
    hide After, Filter;
    var left, window, size := After(rows, after), Window(rows, after, limit), Clamp(limit, 1, 200);
    var all, kept := Filter(left, keep), Filter(window, keep);
    FilterPrefix(window, left, keep);
    var page := LogPage(rows, keep, after, limit);
    if page.more {
      assert page.rows == all[..size];
      PositionSplits(left, keep, 0, size - 1);
      AfterAfter(rows, after, Positions(left, keep, 0)[size - 1]);
      assert all == all[..size] + all[size..];
    }
  }

  function LogWalk(rows: seq<Row>, keep: Row -> bool, after: Option<int>, limits: nat -> nat, n: nat): seq<Row>
    requires Ascending(rows)
    decreases |After(rows, after)|
  {
    var page := LogPage(rows, keep, after, limits(n));
    LogPageSplits(rows, keep, after, limits(n));
    if page.more then page.rows + LogWalk(rows, keep, page.next, limits, n + 1) else page.rows
  }

  /** The rows past the last window the walk looks at. */
  function Unseen(rows: seq<Row>, keep: Row -> bool, after: Option<int>, limits: nat -> nat, n: nat): seq<Row>
    requires Ascending(rows)
    decreases |After(rows, after)|
  {
    var page := LogPage(rows, keep, after, limits(n));
    LogPageSplits(rows, keep, after, limits(n));
    if page.more then Unseen(rows, keep, page.next, limits, n + 1)
    else After(rows, after)[|Window(rows, after, limits(n))|..]
  }

  /** The walk shows the kept rows without gap or repetition up to its last window, and misses exactly
      those past it. */
  lemma {:induction false} LogWalkExact(rows: seq<Row>, keep: Row -> bool, after: Option<int>, limits: nat -> nat, n: nat)
    requires Ascending(rows)
    ensures LogWalk(rows, keep, after, limits, n) + Filter(Unseen(rows, keep, after, limits, n), keep)
         == Filter(After(rows, after), keep)
    decreases |After(rows, after)|
  {
    hide LogPage, Filter, After;
    var page := LogPage(rows, keep, after, limits(n));
    LogPageSplits(rows, keep, after, limits(n));
    if page.more {
      LogWalkExact(rows, keep, page.next, limits, n + 1);
      var tail, missed := LogWalk(rows, keep, page.next, limits, n + 1), Filter(Unseen(rows, keep, page.next, limits, n + 1), keep);
      assert page.rows + tail + missed == page.rows + (tail + missed);
    } else {
      FilterPrefix(Window(rows, after, limits(n)), After(rows, after), keep);
    }
  }

  // When a chart or image walk is complete, said of the rows alone

  function ShownSize(limit: nat): (size: nat)
    ensures 1 <= size <= 200
  {
    Clamp(limit, 1, 200)
  }

  function WindowSize(limit: nat): (w: nat)
    ensures 20 <= w <= 1000
  {
    Clamp(ShownSize(limit) * 10, 20, 1000)
  }

  /** What the `j` pages from page `n` on show at most. */
  function ShownBy(limits: nat -> nat, n: nat, j: nat): nat
    decreases j
  {
    if j == 0 then 0 else ShownSize(limits(n)) + ShownBy(limits, n + 1, j - 1)
  }

  /** Where the `j`-th page starts to look, if the earlier ones were full: behind the last row they show. */
  function StartOf(p: seq<int>, from: int, limits: nat -> nat, n: nat, j: nat): int {
    var shown := ShownBy(limits, n, j);
    if 0 < shown <= |p| then p[shown - 1] + 1 else from
  }

  /** Page `j` finds, within its window, the first kept row it does not show, or the last kept row. */
  predicate PageReaches(p: seq<int>, from: int, limits: nat -> nat, n: nat, j: nat) {
    ShownBy(limits, n, j) < |p| ==>
      var next := ShownBy(limits, n, j + 1);
      p[if next < |p| then next else |p| - 1] < StartOf(p, from, limits, n, j) + WindowSize(limits(n + j))
  }

  /** The kept rows at positions `p` are never further apart than the windows of the pages. */
  ghost predicate EveryPageReaches(p: seq<int>, from: int, limits: nat -> nat, n: nat) {
    forall j: nat :: PageReaches(p, from, limits, n, j)
  }

  lemma {:induction false} ShownByGrows(limits: nat -> nat, n: nat, j: nat)
    ensures ShownBy(limits, n, j + 1) == ShownSize(limits(n)) + ShownBy(limits, n + 1, j)
    ensures ShownBy(limits, n, j + 1) > ShownBy(limits, n, j)
    decreases j
  {
    if j > 0 { ShownByGrows(limits, n + 1, j - 1); }
  }

  /** With pages of one size, that is a multiple of the size. */
  lemma {:induction false} ShownByConstant(limit: nat, n: nat, j: nat)
    ensures ShownBy(_ => limit, n, j) == j * ShownSize(limit)
    decreases j
  {
    if j > 0 {
      var limits := (_: nat) => limit;
      ShownByConstant(limit, n + 1, j - 1);
      assert j * ShownSize(limit) == (j - 1) * ShownSize(limit) + ShownSize(limit);
    }
  }

  lemma ShownByFirst(limits: nat -> nat, n: nat)
    ensures ShownBy(limits, n, 0) == 0 && ShownBy(limits, n, 1) == ShownSize(limits(n))
  {
    assert ShownBy(limits, n + 1, 0) == 0;
  }

  /** Page `j + 1` of a list is page `j` of what the first page leaves. */
  lemma LaterPageReaches(p: seq<int>, from: int, limits: nat -> nat, n: nat, j: nat)
    requires ShownSize(limits(n)) < |p|
    ensures var size := ShownSize(limits(n));
            PageReaches(p, from, limits, n, j + 1) <==> PageReaches(p[size..], p[size - 1] + 1, limits, n + 1, j)
  {
    hide ShownBy, ShownSize, WindowSize;
    var size := ShownSize(limits(n));
    ShownByGrows(limits, n, j);
    ShownByGrows(limits, n, j + 1);
    ShownByGrows(limits, n + 1, j);
    ShownByFirst(limits, n);
    assert size > 0;
    if j == 0 {
      ShownByFirst(limits, n + 1);
    } else {
      ShownByGrows(limits, n + 1, j - 1);
    }
  }

  lemma ReachesSplits(p: seq<int>, from: int, limits: nat -> nat, n: nat)
    requires ShownSize(limits(n)) < |p|
    ensures var size := ShownSize(limits(n));
            EveryPageReaches(p, from, limits, n) <==>
              p[size] < from + WindowSize(limits(n)) && EveryPageReaches(p[size..], p[size - 1] + 1, limits, n + 1)
  {
    var size := ShownSize(limits(n));
    ShownByFirst(limits, n);
    hide ShownBy, ShownSize, WindowSize;
    assert PageReaches(p, from, limits, n, 0) <==> p[size] < from + WindowSize(limits(n));
    hide PageReaches;
    if p[size] < from + WindowSize(limits(n)) && EveryPageReaches(p[size..], p[size - 1] + 1, limits, n + 1) {
      forall j: nat ensures PageReaches(p, from, limits, n, j) {
        if j > 0 { LaterPageReaches(p, from, limits, n, j - 1); }
      }
    }
    if EveryPageReaches(p, from, limits, n) {
      var rest, start, m := p[size..], p[size - 1] + 1, n + 1;
      forall j: nat ensures PageReaches(rest, start, limits, m, j) {
        LaterPageReaches(p, from, limits, n, j);
        assert PageReaches(p, from, limits, n, j + 1);
      }
      assert PageReaches(p, from, limits, n, 0);
    }
  }

  lemma ReachesLast(p: seq<int>, from: int, limits: nat -> nat, n: nat)
    requires |p| <= ShownSize(limits(n))
    ensures EveryPageReaches(p, from, limits, n) <==> p == [] || p[|p| - 1] < from + WindowSize(limits(n))
  {
    hide ShownBy, ShownSize, WindowSize;
    ShownByFirst(limits, n);
    forall j: nat | j > 0 ensures ShownBy(limits, n, j) >= |p| {
      ShownByGrows(limits, n, j - 1);
    }
    assert PageReaches(p, from, limits, n, 0) <==> p == [] || p[|p| - 1] < from + WindowSize(limits(n));
  }

  /** The kept rows of a window are those at positions inside it. */
  lemma WindowKeeps(left: seq<Row>, keep: Row -> bool, from: int, w: nat, i: nat)
    requires i < |Filter(left, keep)|
    ensures Positions(left, keep, from)[i] < from + w <==> i < |Filter(Take(left, w), keep)|
  {
    hide Filter, Positions;
    var head := Take(left, w);
    var tail := left[|head|..];
    assert left == head + tail;
    PositionsAppend(head, tail, keep, from);
    assert |head| < w ==> tail == [];
  }

  lemma WindowIs(rows: seq<Row>, after: Option<int>, limit: nat)
    ensures Window(rows, after, limit) == Take(After(rows, after), WindowSize(limit))
  {
    hide After, Take;
  }

  predicate Complete(rows: seq<Row>, keep: Row -> bool, after: Option<int>, limits: nat -> nat, n: nat)
    requires Ascending(rows)
  {
    LogWalk(rows, keep, after, limits, n) == Filter(After(rows, after), keep)
  }

  /** A walk that stops at its first page is complete if and only if the window holds every kept row. */
  lemma OnePageComplete(rows: seq<Row>, keep: Row -> bool, after: Option<int>, limits: nat -> nat, n: nat)
    requires Ascending(rows) && !LogPage(rows, keep, after, limits(n)).more
    ensures Complete(rows, keep, after, limits, n)
       <==> |Filter(Take(After(rows, after), WindowSize(limits(n))), keep)| == |Filter(After(rows, after), keep)|
  {
    hide Filter, After, LogPage, Take;
    WindowIs(rows, after, limits(n));
    LogPageSplits(rows, keep, after, limits(n));
    FilterPrefix(Take(After(rows, after), WindowSize(limits(n))), After(rows, after), keep);
  }

  lemma MoreIff(rows: seq<Row>, keep: Row -> bool, after: Option<int>, limit: nat)
    ensures LogPage(rows, keep, after, limit).more
       <==> |Filter(Take(After(rows, after), WindowSize(limit)), keep)| > ShownSize(limit)
  {
    hide Filter, After;
    WindowIs(rows, after, limit);
  }

  /** A chart or image walk shows every kept row if and only if each of its pages, started behind the last
      row shown, finds the next row to show within its window: a condition on the positions of the kept
      rows and the page sizes alone. */
  lemma {:induction false} LogWalkCompleteIff(rows: seq<Row>, keep: Row -> bool, after: Option<int>, limits: nat -> nat, n: nat, from: int)
    requires Ascending(rows)
    ensures Complete(rows, keep, after, limits, n)
       <==> EveryPageReaches(Positions(After(rows, after), keep, from), from, limits, n)
    decreases |After(rows, after)|
  {
    hide Filter, After, Positions, Take, EveryPageReaches, LogPage, Complete, ShownSize, WindowSize;
    var left := After(rows, after);
    var all, size, w := Filter(left, keep), ShownSize(limits(n)), WindowSize(limits(n));
    var p := Positions(left, keep, from);
    MoreIff(rows, keep, after, limits(n));
    FilterPrefix(Take(left, w), left, keep);
    if size < |all| {
      WindowKeeps(left, keep, from, w, size);
      ReachesSplits(p, from, limits, n);
    } else {
      ReachesLast(p, from, limits, n);
    }
    if LogPage(rows, keep, after, limits(n)).more {
      LogPageSplits(rows, keep, after, limits(n));
      LogWalkMore(rows, keep, after, limits, n);
      NextPositions(rows, keep, after, limits(n), from);
      LogWalkCompleteIff(rows, keep, LogPage(rows, keep, after, limits(n)).next, limits, n + 1, p[size - 1] + 1);
    } else {
      OnePageComplete(rows, keep, after, limits, n);
      if all != [] { WindowKeeps(left, keep, from, w, |all| - 1); }
    }
  }

  lemma LogWalkMore(rows: seq<Row>, keep: Row -> bool, after: Option<int>, limits: nat -> nat, n: nat)
    requires Ascending(rows) && LogPage(rows, keep, after, limits(n)).more
    ensures var next := LogPage(rows, keep, after, limits(n)).next;
            Complete(rows, keep, after, limits, n) <==> Complete(rows, keep, next, limits, n + 1)
  {
    hide Filter, After, LogPage;
    LogPageSplits(rows, keep, after, limits(n));
    var page := LogPage(rows, keep, after, limits(n));
    SameTail(page.rows, LogWalk(rows, keep, page.next, limits, n + 1), Filter(After(rows, page.next), keep));
  }

  lemma SameTail<T>(head: seq<T>, a: seq<T>, b: seq<T>)
    ensures head + a == head + b <==> a == b
  {
    if head + a == head + b {
      assert a == (head + a)[|head|..] && b == (head + b)[|head|..];
    }
  }

  /** Behind a full page the positions of the kept rows go on. */
  lemma NextPositions(rows: seq<Row>, keep: Row -> bool, after: Option<int>, limit: nat, from: int)
    requires Ascending(rows) && LogPage(rows, keep, after, limit).more
    ensures var p, size := Positions(After(rows, after), keep, from), ShownSize(limit);
            && size < |p|
            && Positions(After(rows, LogPage(rows, keep, after, limit).next), keep, p[size - 1] + 1) == p[size..]
  {
    hide After, Filter, Positions;
    var left, window, size := After(rows, after), Window(rows, after, limit), ShownSize(limit);
    FilterPrefix(window, left, keep);
    var all := Filter(left, keep);
    assert LogPage(rows, keep, after, limit).rows == all[..size];
    PositionSplits(left, keep, from, size - 1);
    AfterAfter(rows, after, Positions(left, keep, from)[size - 1] - from);
  }

  lemma KeptBehind(rows: seq<Row>, keep: Row -> bool, k: nat)
    requires 20 <= k < |rows| && keep(rows[k]) && forall i :: 0 <= i < 20 ==> !keep(rows[i])
    ensures var p := Positions(rows, keep, 0); p != [] && forall i :: 0 <= i < |p| ==> p[i] >= 20
  {
    var head, tail := rows[..20], rows[20..];
    FilterNone(head, keep);
    hide Filter, Positions;
    assert rows == head + tail && tail[k - 20] in tail;
    PositionsAppend(head, tail, keep, 0);
    FilterMember(tail, keep, rows[k]);
  }

  /** The failing case: twenty events of another kind before a chart hide it from a walk of page size one. */
  lemma ChartBehindWindow(rows: seq<Row>, keep: Row -> bool, k: nat)
    requires Ascending(rows) && 20 <= k < |rows| && keep(rows[k])
    requires forall i :: 0 <= i < 20 ==> !keep(rows[i])
    ensures !Complete(rows, keep, None, _ => 1, 0)
  {
    hide Filter, Positions, Complete;
    var one := (_: nat) => 1;
    FilterAll(rows, r => Beyond(r, None));
    KeptBehind(rows, keep, k);
    ShownByFirst(one, 0);
    assert !PageReaches(Positions(rows, keep, 0), 0, one, 0, 0);
    LogWalkCompleteIff(rows, keep, None, one, 0, 0);
  }

  // ------------------------------------------------------------------ compared runs

  const MAX_COMPARE_PAGE_LIMIT := 1000

  /** First occurrences, in order. */
  function Unique(ids: seq<string>): seq<string> {
    if ids == [] then []
    else
      var init, last := ids[..|ids| - 1], ids[|ids| - 1];
      if last in init then Unique(init) else Unique(init) + [last]
  }

  function IndexIn(ids: seq<string>, id: string): (i: nat)
    requires id in ids
    ensures i < |ids| && ids[i] == id && id !in ids[..i]
  {
    if ids[0] == id then 0 else 1 + IndexIn(ids[1..], id)
  }

  /** Unique keeps each id once and orders ids by their first occurrence. */
  ghost predicate FirstOccurrences(ids: seq<string>, unique: seq<string>) {
    && (forall id :: id in unique <==> id in ids)
    && (forall i, j :: 0 <= i < j < |unique| ==> unique[i] != unique[j])
    && (forall i, j :: 0 <= i < j < |unique| && unique[i] in ids && unique[j] in ids ==>
          IndexIn(ids, unique[i]) < IndexIn(ids, unique[j]))
  }

  lemma {:induction false} IndexStays(ids: seq<string>, last: string, id: string)
    requires id in ids
    ensures id in ids + [last] && IndexIn(ids + [last], id) == IndexIn(ids, id)
    decreases |ids|
  {
    assert (ids + [last])[1..] == ids[1..] + [last];
    if ids[0] != id {
      IndexStays(ids[1..], last, id);
    }
  }

  lemma {:induction false} UniqueFirst(ids: seq<string>)
    ensures FirstOccurrences(ids, Unique(ids))
    decreases |ids|
  {
    if ids != [] {
      var init, last := ids[..|ids| - 1], ids[|ids| - 1];
      UniqueFirst(init);
      assert ids == init + [last];
      UniqueExtends(init, last, Unique(init));
    }
  }

  lemma UniqueExtends(ids: seq<string>, last: string, unique: seq<string>)
    requires FirstOccurrences(ids, unique)
    ensures FirstOccurrences(ids + [last], if last in ids then unique else unique + [last])
  {
    hide IndexIn;
    var longer, result := ids + [last], if last in ids then unique else unique + [last];
    assert forall id :: id in longer <==> id in ids || id == last;
    forall i, j | 0 <= i < j < |result|
      ensures result[i] in longer && result[j] in longer && IndexIn(longer, result[i]) < IndexIn(longer, result[j])
    {
      IndexStays(ids, last, result[i]);
      if j < |unique| {
        IndexStays(ids, last, result[j]);
      } else {
        LastIndex(ids, last);
        assert IndexIn(ids, result[i]) < |ids|;
      }
    }
  }

  lemma LastIndex(ids: seq<string>, last: string)
    requires last !in ids
    ensures last in ids + [last] && IndexIn(ids + [last], last) == |ids|
  {
    assert (ids + [last])[|ids|] == last;
  }

  /** The deduplication loop, with its set of ids seen. */
  method Deduplicate(ids: seq<string>) returns (unique: seq<string>)
    ensures unique == Unique(ids) && FirstOccurrences(ids, unique)
  {
    hide FirstOccurrences;
    unique := [];
    var seen: set<string> := {};
    var i := 0;
    while i < |ids|
      invariant 0 <= i <= |ids|
      invariant unique == Unique(ids[..i])
      invariant forall id :: id in seen <==> id in ids[..i]
    {
      assert ids[..i + 1][..i] == ids[..i];
      if ids[i] !in seen {
        unique := unique + [ids[i]];
      }
      seen := seen + {ids[i]};
      assert ids[..i + 1] == ids[..i] + [ids[i]];
      i := i + 1;
    }
    assert ids[..i] == ids;
    UniqueFirst(ids);
  }

  /** `skip(offset)`, `take(limit)`, with the limit capped. */
  function ComparePage(ids: seq<string>, offset: nat, limit: nat): seq<string> {
    var unique := Unique(ids);
    Take(if offset <= |unique| then unique[offset..] else [], PageSize(limit))
  }

  function PageSize(limit: nat): nat {
    if limit > MAX_COMPARE_PAGE_LIMIT then MAX_COMPARE_PAGE_LIMIT else limit
  }

  /** A page of compared runs shows as many of the remaining ids as were asked for, up to 1000. */
  lemma ComparePageExact(ids: seq<string>, offset: nat, limit: nat)
    ensures var unique, size := Unique(ids), if limit <= 1000 then limit else 1000;
            ComparePage(ids, offset, limit) ==
              if offset >= |unique| then [] else unique[offset..if offset + size <= |unique| then offset + size else |unique|]
  {
    hide Unique;
  }

  /** The pages at offset, offset + size, ... until one is empty. */
  function CompareWalk(ids: seq<string>, offset: nat, limit: nat): seq<string>
    requires limit >= 1
    decreases |Unique(ids)| - offset
  {
    var page := ComparePage(ids, offset, limit);
    if page == [] then [] else page + CompareWalk(ids, offset + PageSize(limit), limit)
  }

  /** Successive pages concatenate to the first occurrences, each once. */
  lemma {:induction false} CompareWalkComplete(ids: seq<string>, offset: nat, limit: nat)
    requires limit >= 1 && offset <= |Unique(ids)|
    ensures CompareWalk(ids, offset, limit) == Unique(ids)[offset..]
    decreases |Unique(ids)| - offset
  {
    hide Unique;
    var unique, size := Unique(ids), PageSize(limit);
    var page := ComparePage(ids, offset, limit);
    if page != [] {
      if offset + size <= |unique| {
        CompareWalkComplete(ids, offset + size, limit);
        hide CompareWalk;
        assert unique[offset..] == unique[offset..offset + size] + unique[offset + size..];
      } else {
        assert CompareWalk(ids, offset + size, limit) == [];
        assert page + [] == page;
      }
    }
  }
}
