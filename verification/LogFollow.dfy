/// Following the audit log while it grows: the paged query and the nested polling loops
/// (cmd/cli/logs.go; internal/storage/query_audit.go).

module LogFollow {
  import opened Common

  /// `wanted` says whether the entry passes the follower's kind, subject and time filters.
  datatype Entry = Entry(id: nat, wanted: bool, text: string)

  /// Rows in insertion order; ids always increase.
  ghost predicate Ordered(log: seq<Entry>) { forall i, j :: 0 <= i < j < |log| ==> log[i].id < log[j].id }

  const DEFAULT_LIMIT := 100

  function PageSize(limit: int): nat { if limit <= 0 then DEFAULT_LIMIT else limit }

  /// The matching entries above the cursor, in id order.
  function Above(log: seq<Entry>, cursor: nat): seq<Entry> {
    if log == [] then []
    else
      var before := Above(log[..|log| - 1], cursor);
      var e := log[|log| - 1];
      if e.wanted && e.id > cursor then before + [e] else before
  }

  /// `ListAudit` after a cursor: the first page of them.
  function Page(log: seq<Entry>, cursor: nat, limit: int): seq<Entry> {
    var all := Above(log, cursor);
    if |all| <= PageSize(limit) then all else all[..PageSize(limit)]
  }

  function HighestId(page: seq<Entry>): (h: nat)
    ensures forall e :: e in page ==> e.id <= h
    ensures page != [] ==> h == 0 || exists e :: e in page && e.id == h
  {
    if page == [] then 0
    else
      var before := HighestId(page[..|page| - 1]);
      assert page == page[..|page| - 1] + [page[|page| - 1]];
      if page[|page| - 1].id > before then page[|page| - 1].id else before
  }

  /// The matching entries with ids in (from, to].
  function Between(log: seq<Entry>, from: nat, to: nat): seq<Entry> {
    if log == [] then []
    else
      var before := Between(log[..|log| - 1], from, to);
      var e := log[|log| - 1];
      if e.wanted && from < e.id <= to then before + [e] else before
  }

  // ---------------------------------------------------------------------------------------------
  // Pages and growth
  // ---------------------------------------------------------------------------------------------

  lemma OrderedPrefix(log: seq<Entry>, n: nat)
    requires Ordered(log) && n <= |log|
    ensures Ordered(log[..n])
  {}

  lemma {:induction false} AboveSelects(log: seq<Entry>, cursor: nat)
    requires Ordered(log)
    ensures Ordered(Above(log, cursor))
    ensures forall e :: e in Above(log, cursor) <==> e in log && e.wanted && e.id > cursor
  {
    if log != [] {
      var init, e := log[..|log| - 1], log[|log| - 1];
      OrderedPrefix(log, |log| - 1);
      AboveSelects(init, cursor);
      assert log == init + [e];
      forall x | x in init ensures x.id < e.id {}
    }
  }

  lemma {:induction false} BetweenSelects(log: seq<Entry>, from: nat, to: nat)
    requires Ordered(log)
    ensures Ordered(Between(log, from, to))
    ensures forall e :: e in Between(log, from, to) <==> e in log && e.wanted && from < e.id <= to
  {
    if log != [] {
      var init, e := log[..|log| - 1], log[|log| - 1];
      OrderedPrefix(log, |log| - 1);
      BetweenSelects(init, from, to);
      assert log == init + [e];
      forall x | x in init ensures x.id < e.id {}
    }
  }

  /// Two ordered sequences with the same entries are equal.
  lemma {:induction false} OrderedAreEqual(a: seq<Entry>, b: seq<Entry>)
    requires Ordered(a) && Ordered(b) && forall e :: e in a <==> e in b
    ensures a == b
  {
    assert a != [] ==> a[0] in b;
    assert b != [] ==> b[0] in a;
    if a != [] && b != [] {
      var x, y := a[|a| - 1], b[|b| - 1];
      assert x in b && y in a;
      assert x.id <= y.id && y.id <= x.id;
      var i :| 0 <= i < |b| && b[i] == x;
      assert i == |b| - 1;
      var a', b' := a[..|a| - 1], b[..|b| - 1];
      assert a == a' + [x] && b == b' + [x];
      forall e ensures e in a' <==> e in b' {
        if e in a' { assert e.id < x.id && e in b; }
        if e in b' { assert e.id < x.id && e in a; }
      }
      OrderedAreEqual(a', b');
    }
  }

  lemma LastIsHighest(page: seq<Entry>)
    requires Ordered(page) && page != []
    ensures page[|page| - 1].id == HighestId(page)
  {
    assert page[|page| - 1] in page;
    var e :| e in page && e.id == HighestId(page);
  }

  /// A prefix of everything above the cursor holds exactly what is not above its own last entry.
  lemma PrefixIsBelow(all: seq<Entry>, n: nat, e: Entry)
    requires Ordered(all) && 0 < n <= |all| && e in all
    ensures e in all[..n] <==> e.id <= all[n - 1].id
  {
    var i :| 0 <= i < |all| && all[i] == e;
    if i < n { assert all[..n][i] == e; }
  }

  lemma PageHolds(log: seq<Entry>, cursor: nat, limit: int, e: Entry)
    requires Ordered(log) && Page(log, cursor, limit) != []
    ensures e in Page(log, cursor, limit)
        <==> e in log && e.wanted && cursor < e.id <= HighestId(Page(log, cursor, limit))
  {
    var all, page := Above(log, cursor), Page(log, cursor, limit);
    AboveSelects(log, cursor);
    assert page == all[..|page|];
    OrderedPrefix(all, |page|);
    LastIsHighest(page);
    if e in page { assert e in all; }
    if e in all { PrefixIsBelow(all, |page|, e); }
  }

  lemma PageIsAbove(log: seq<Entry>, cursor: nat, limit: int)
    requires Ordered(log) && Page(log, cursor, limit) != []
    ensures Ordered(Page(log, cursor, limit)) && HighestId(Page(log, cursor, limit)) > cursor
  {
    var page := Page(log, cursor, limit);
    AboveSelects(log, cursor);
    OrderedPrefix(Above(log, cursor), |page|);
    LastIsHighest(page);
    assert page[|page| - 1] in page;
    PageHolds(log, cursor, limit, page[|page| - 1]);
  }

  /// A page is everything that matches between the old cursor and the new one: nothing in between is
  /// skipped, and the cursor strictly advances.
  lemma PageIsInterval(log: seq<Entry>, cursor: nat, limit: int)
    requires Ordered(log) && Page(log, cursor, limit) != []
    ensures HighestId(Page(log, cursor, limit)) > cursor
    ensures Page(log, cursor, limit) == Between(log, cursor, HighestId(Page(log, cursor, limit)))
  {
    var page := Page(log, cursor, limit);
    PageIsAbove(log, cursor, limit);
    BetweenSelects(log, cursor, HighestId(page));
    forall e ensures e in page <==> e in Between(log, cursor, HighestId(page)) { PageHolds(log, cursor, limit, e); }
    OrderedAreEqual(page, Between(log, cursor, HighestId(page)));
  }

  lemma IntervalsJoin(log: seq<Entry>, from: nat, mid: nat, to: nat)
    requires Ordered(log) && from <= mid <= to
    ensures Between(log, from, mid) + Between(log, mid, to) == Between(log, from, to)
  {
    BetweenSelects(log, from, mid);
    BetweenSelects(log, mid, to);
    BetweenSelects(log, from, to);
    var both := Between(log, from, mid) + Between(log, mid, to);
    forall i, j | 0 <= i < j < |both| ensures both[i].id < both[j].id {
      if i < |Between(log, from, mid)| <= j {
        assert both[i] in Between(log, from, mid) && both[j] in Between(log, mid, to);
      }
    }
    OrderedAreEqual(both, Between(log, from, to));
  }

  /// Entries appended later never fall into an interval that has been printed.
  lemma GrowthKeepsInterval(log: seq<Entry>, more: seq<Entry>, from: nat, to: nat)
    requires Ordered(log + more) && (to == from || exists e :: e in log && e.id >= to)
    ensures Between(log + more, from, to) == Between(log, from, to)
  {
    OrderedPrefix(log + more, |log|);
    assert (log + more)[..|log|] == log;
    BetweenSelects(log + more, from, to);
    BetweenSelects(log, from, to);
    forall e ensures e in Between(log + more, from, to) <==> e in Between(log, from, to) {
      if e in Between(log + more, from, to) && e !in log {
        var x :| x in log && x.id >= to;
        LaterIsHigher(log, more, x, e);
      }
    }
    OrderedAreEqual(Between(log + more, from, to), Between(log, from, to));
  }

  lemma LaterIsHigher(log: seq<Entry>, more: seq<Entry>, x: Entry, e: Entry)
    requires Ordered(log + more) && x in log && e in more
    ensures x.id < e.id
  {
    var i :| 0 <= i < |log| && log[i] == x;
    var j :| 0 <= j < |more| && more[j] == e;
    assert (log + more)[i] == x && (log + more)[|log| + j] == e;
  }

  // ---------------------------------------------------------------------------------------------
  // The follower
  // ---------------------------------------------------------------------------------------------

  /// The growing log: other transactions append between any two requests, and nothing is deleted.
  class AuditLog {
    var rows: seq<Entry>

    constructor ()
      ensures rows == []
    {
      rows := [];
    }

    /// One request: whatever was appended meanwhile is visible, then the page is read.
    method Fetch(cursor: nat, limit: int, arrived: seq<Entry>) returns (page: seq<Entry>)
      modifies this
      ensures rows == old(rows) + arrived && page == Page(rows, cursor, limit)
    {
      rows := rows + arrived;
      page := Page(rows, cursor, limit);
    }
  }

  /// All that will ever arrive, and what has arrived after `n` requests.
  function Grown(rows: seq<Entry>, arrivals: seq<seq<Entry>>): seq<Entry> {
    if arrivals == [] then rows else Grown(rows, arrivals[..|arrivals| - 1]) + arrivals[|arrivals| - 1]
  }

  lemma {:induction false} GrownExtends(rows: seq<Entry>, arrivals: seq<seq<Entry>>, n: nat)
    requires n <= |arrivals|
    ensures Grown(rows, arrivals[..n]) <= Grown(rows, arrivals)
  {
    if n < |arrivals| {
      assert arrivals[..|arrivals| - 1][..n] == arrivals[..n];
      GrownExtends(rows, arrivals[..|arrivals| - 1], n);
    } else {
      assert arrivals[..n] == arrivals;
    }
  }

  /// What has been printed is exactly what matched above the start and up to the cursor.
  ghost predicate Printed(rows: seq<Entry>, out: seq<Entry>, start: nat, cursor: nat) {
    && start <= cursor && out == Between(rows, start, cursor)
    && (cursor == start || exists e :: e in rows && e.id >= cursor)
  }

  lemma PrintedGrows(rows: seq<Entry>, more: seq<Entry>, out: seq<Entry>, start: nat, cursor: nat)
    requires Printed(rows, out, start, cursor) && Ordered(rows + more)
    ensures Printed(rows + more, out, start, cursor)
  {
    GrowthKeepsInterval(rows, more, start, cursor);
    if cursor != start {
      var e :| e in rows && e.id >= cursor;
      assert e in rows + more;
    }
  }

  lemma PrintedPage(rows: seq<Entry>, out: seq<Entry>, start: nat, cursor: nat, limit: int)
    requires Printed(rows, out, start, cursor) && Ordered(rows) && Page(rows, cursor, limit) != []
    ensures var page := Page(rows, cursor, limit);
            HighestId(page) > cursor && Printed(rows, out + page, start, HighestId(page))
  {
    var page := Page(rows, cursor, limit);
    PageIsInterval(rows, cursor, limit);
    IntervalsJoin(rows, start, cursor, HighestId(page));
    var e :| e in page && e.id == HighestId(page);
    AboveSelects(rows, cursor);
    assert e in Above(rows, cursor);
  }

  predicate Increasing(s: seq<nat>) { forall i, j :: 0 <= i < j < |s| ==> s[i] < s[j] }

  /// `requests` made so far; `cursors` are all values the cursor has had; `drained` says that the last page
  /// did not fill up.
  datatype Progress = Progress(out: seq<Entry>, cursor: nat, cursors: seq<nat>, requests: nat, drained: bool)

  ghost predicate Following(rows0: seq<Entry>, arrivals: seq<seq<Entry>>, rows: seq<Entry>, start: nat, p: Progress) {
    && p.requests <= |arrivals| && rows == Grown(rows0, arrivals[..p.requests]) && Printed(rows, p.out, start, p.cursor)
    && p.cursors != [] && p.cursors[|p.cursors| - 1] == p.cursor && Increasing(p.cursors)
    && (p.drained ==> Above(rows, p.cursor) == [])
  }

  lemma StartsFollowing(rows0: seq<Entry>, arrivals: seq<seq<Entry>>, start: nat)
    requires Ordered(Grown(rows0, arrivals))
    ensures Following(rows0, arrivals, rows0, start, Progress([], start, [start], 0, false))
  {
    assert arrivals[..0] == [];
    GrownExtends(rows0, arrivals, 0);
    OrderedPrefix(Grown(rows0, arrivals), |rows0|);
    BetweenSelects(rows0, start, start);
    OrderedAreEqual([], Between(rows0, start, start));
  }

  lemma Arrives(rows0: seq<Entry>, arrivals: seq<seq<Entry>>, rows: seq<Entry>, start: nat, p: Progress)
    requires Ordered(Grown(rows0, arrivals)) && Following(rows0, arrivals, rows, start, p) && p.requests < |arrivals|
    ensures var more := rows + arrivals[p.requests];
            more == Grown(rows0, arrivals[..p.requests + 1]) && Ordered(more) && Printed(more, p.out, start, p.cursor)
  {
    var n := p.requests;
    assert arrivals[..n + 1][..n] == arrivals[..n];
    GrownExtends(rows0, arrivals, n + 1);
    OrderedPrefix(Grown(rows0, arrivals), |Grown(rows0, arrivals[..n + 1])|);
    PrintedGrows(rows, arrivals[n], p.out, start, p.cursor);
  }

  /// What the follower does with a page.
  function Advance(p: Progress, page: seq<Entry>, limit: int): Progress {
    if page == [] then p.(requests := p.requests + 1, drained := true)
    else
      Progress(p.out + page, HighestId(page), p.cursors + [HighestId(page)], p.requests + 1, |page| < PageSize(limit))
  }

  /// A page counts as the last one exactly when it holds less than was asked for; what is not positive asks for 100.
  lemma DrainedIff(p: Progress, page: seq<Entry>, limit: int)
    ensures Advance(p, page, limit).drained <==> |page| < (if limit > 0 then limit else 100)
    ensures Advance(p, page, limit).requests == p.requests + 1
  {}

  lemma CursorsIncrease(cursors: seq<nat>, cursor: nat, high: nat)
    requires Increasing(cursors) && cursors != [] && cursors[|cursors| - 1] == cursor < high
    ensures Increasing(cursors + [high])
  {}

  /// A page that is not empty moves the printed interval and the cursors on.
  lemma PageFollows(more: seq<Entry>, start: nat, limit: int, p: Progress)
    requires Ordered(more) && Printed(more, p.out, start, p.cursor) && Page(more, p.cursor, limit) != []
    requires p.cursors != [] && p.cursors[|p.cursors| - 1] == p.cursor && Increasing(p.cursors)
    ensures var q := Advance(p, Page(more, p.cursor, limit), limit);
            && Printed(more, q.out, start, q.cursor)
            && q.cursors != [] && q.cursors[|q.cursors| - 1] == q.cursor && Increasing(q.cursors)
            && (q.drained ==> Above(more, q.cursor) == [])
  {
    var page := Page(more, p.cursor, limit);
    PrintedPage(more, p.out, start, p.cursor, limit);
    if |page| < PageSize(limit) { ShortPageIsLast(more, p.cursor, limit); }
    CursorsIncrease(p.cursors, p.cursor, HighestId(page));
  }

  lemma AdvanceFollows(rows0: seq<Entry>, arrivals: seq<seq<Entry>>, rows: seq<Entry>, start: nat, limit: int,
                       p: Progress)
    requires Ordered(Grown(rows0, arrivals)) && Following(rows0, arrivals, rows, start, p) && p.requests < |arrivals|
    ensures var more := rows + arrivals[p.requests];
            Following(rows0, arrivals, more, start, Advance(p, Page(more, p.cursor, limit), limit))
  {
    Arrives(rows0, arrivals, rows, start, p);
    var more := rows + arrivals[p.requests];
    if Page(more, p.cursor, limit) == [] {
      EmptyPageIsLast(more, p.cursor, limit);
    } else {
      PageFollows(more, start, limit, p);
    }
  }

  /// One request; `more` asks for the next page at once.
  method Poll(log: AuditLog, ghost rows0: seq<Entry>, start: nat, limit: int, arrivals: seq<seq<Entry>>, p: Progress)
    returns (q: Progress, more: bool)
    requires Ordered(Grown(rows0, arrivals)) && Following(rows0, arrivals, log.rows, start, p)
    requires p.requests < |arrivals|
    modifies log
    ensures Following(rows0, arrivals, log.rows, start, q) && q.requests == p.requests + 1
    ensures q.out == p.out + Page(log.rows, p.cursor, limit)
    ensures q.cursor == p.cursor <==> Page(log.rows, p.cursor, limit) == []
    ensures more <==> Page(log.rows, p.cursor, limit) != [] && (limit > 0 ==> !q.drained)
  {
    AdvanceFollows(rows0, arrivals, log.rows, start, limit, p);
    Arrives(rows0, arrivals, log.rows, start, p);
    var page := log.Fetch(p.cursor, limit, arrivals[p.requests]);
    if page != [] { PageIsInterval(log.rows, p.cursor, limit); }
    q := Advance(p, page, limit);
    more := page != [] && |page| >= limit;
  }

  /// `followLogs`: ticks outside, pages inside, until the requests allowed by the context run out; request
  /// number `n` finds `arrivals[n]` appended. Every matching entry above the start and up to the cursor is
  /// printed exactly once, in id order, and the cursor only ever advances.
  method Follow(log: AuditLog, start: nat, limit: int, arrivals: seq<seq<Entry>>) returns (p: Progress)
    requires Ordered(Grown(log.rows, arrivals))
    modifies log
    ensures log.rows == Grown(old(log.rows), arrivals)
    ensures p.out == Between(log.rows, start, p.cursor) && start <= p.cursor && Increasing(p.cursors)
    ensures p.drained ==> p.out == Above(log.rows, start)
  {
    ghost var rows0 := log.rows;
    StartsFollowing(rows0, arrivals, start);
    p := Progress([], start, [start], 0, false);
    while p.requests < |arrivals|
      invariant Following(rows0, arrivals, log.rows, start, p)
      decreases |arrivals| - p.requests
    {
      var more;
      p, more := Poll(log, rows0, start, limit, arrivals, p);
      while more && p.requests < |arrivals|
        invariant Following(rows0, arrivals, log.rows, start, p)
        decreases |arrivals| - p.requests
      {
        p, more := Poll(log, rows0, start, limit, arrivals, p);
      }
    }
    assert arrivals[..|arrivals|] == arrivals;
    if p.drained { NothingLeft(log.rows, start, p.cursor); }
  }

  lemma EmptyPageIsLast(rows: seq<Entry>, cursor: nat, limit: int)
    requires Page(rows, cursor, limit) == []
    ensures Above(rows, cursor) == []
  {}

  lemma ShortPageIsLast(rows: seq<Entry>, cursor: nat, limit: int)
    requires Ordered(rows) && |Page(rows, cursor, limit)| < PageSize(limit)
    ensures Above(rows, HighestId(Page(rows, cursor, limit))) == [] || Page(rows, cursor, limit) == []
  {
    var page := Page(rows, cursor, limit);
    if page != [] {
      var high := HighestId(page);
      PageIsInterval(rows, cursor, limit);
      AboveSelects(rows, cursor);
      AboveSelects(rows, high);
      forall e ensures e !in Above(rows, high) {}
      OrderedAreEqual(Above(rows, high), []);
    }
  }

  lemma NothingLeft(rows: seq<Entry>, start: nat, cursor: nat)
    requires Ordered(rows) && start <= cursor && Above(rows, cursor) == []
    ensures Between(rows, start, cursor) == Above(rows, start)
  {}
}
