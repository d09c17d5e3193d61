/**
  Closing one window after the other. Each window is collected once, when it closes, from all usage since its start, so
  what was recorded beyond its end is charged in it and again in the windows it belongs to.
 */
module AdjacentWindows {
  import opened MeterIdentifier
  import opened Metering
  import opened UsageTotals
  import opened UsageSeries
  import opened MeteringLoop

  /** The records that arrive before a window is closed, and where the window ends. */
  datatype Period = Period(arrivals: seq<UsageRecord>, end: int)

  function Arrivals(records: seq<UsageRecord>): seq<Event> {
    if records == [] then [] else [Arrive(records[0])] + Arrivals(records[1..])
  }

  /** The windows of one organisation and metric, each starting where the one before ends. */
  function Closing(w: Window, periods: seq<Period>): seq<Event>
    decreases |periods|
  {
    if periods == [] then []
    else
      var p := periods[0];
      Arrivals(p.arrivals) + ([Gather(w, p.end)] + Closing(w.(start := p.end), periods[1..]))
  }

  function LastEnd(start: int, periods: seq<Period>): int
    decreases |periods|
  {
    if periods == [] then start else LastEnd(periods[0].end, periods[1..])
  }

  ghost predicate Ascending(start: int, periods: seq<Period>)
    decreases |periods|
  {
    periods == [] || (start < periods[0].end && Ascending(periods[0].end, periods[1..]))
  }

  /** What the windows' rows add up to. */
  function Billed(rows: seq<Row>, w: Window): int {
    if rows == [] then 0
    else
      var n := |rows| - 1;
      Billed(rows[..n], w) + (if rows[n].org == w.org && rows[n].metric == w.metric then rows[n].quantity else 0)
  }

  /** What each window counts from beyond its end. */
  function Overrun(seen: seq<UsageRecord>, w: Window, periods: seq<Period>): int
    decreases |periods|
  {
    if periods == [] then 0
    else
      var now := seen + periods[0].arrivals;
      UsageSince(now, w.org, w.metric, periods[0].end) + Overrun(now, w.(start := periods[0].end), periods[1..])
  }

  /** What arrives for each window only after it was closed; `all` are the records there are in the end. */
  function Late(all: seq<UsageRecord>, seen: nat, w: Window, periods: seq<Period>): int
    decreases |periods|
  {
    if periods == [] then 0
    else
      var now := seen + |periods[0].arrivals|;
      (if now <= |all| then UsageWithin(all[now..], w, periods[0].end) else 0) +
      Late(all, now, w.(start := periods[0].end), periods[1..])
  }

  /** Byte and request counts are not negative. */
  ghost predicate Sane(records: seq<UsageRecord>) {
    forall u :: u in records ==> u.usage.bytesIn >= 0 && u.usage.bytesOut >= 0 && u.usage.requests >= 0
  }

  lemma {:induction false} SaneUsage(records: seq<UsageRecord>, w: Window)
    requires Sane(records)
    ensures UsageSince(records, w.org, w.metric, w.start) >= 0
  {
    if records != [] {
      SaneUsage(records[..|records| - 1], w);
      assert records[|records| - 1] in records;
    }
  }

  // ---- Windows side by side ----

  lemma {:induction false} NothingWithinNothing(records: seq<UsageRecord>, w: Window)
    ensures UsageWithin(records, w, w.start) == 0
  {
    if records != [] {
      NothingWithinNothing(records[..|records| - 1], w);
    }
  }

  lemma {:induction false} WithinAdjacent(records: seq<UsageRecord>, w: Window, mid: int, end: int)
    requires w.start <= mid <= end
    ensures UsageWithin(records, w, end) == UsageWithin(records, w, mid) + UsageWithin(records, w.(start := mid), end)
  {
    if records != [] {
      WithinAdjacent(records[..|records| - 1], w, mid, end);
    }
  }

  lemma {:induction false} EndsAscend(start: int, periods: seq<Period>)
    requires Ascending(start, periods)
    ensures start <= LastEnd(start, periods)
    decreases |periods|
  {
    if periods != [] {
      EndsAscend(periods[0].end, periods[1..]);
    }
  }

  // ---- Playing the closings ----

  lemma {:induction false} PlayArrivals(x: World, records: seq<UsageRecord>)
    ensures Play(x, Arrivals(records)) == x.(records := x.records + records)
    decreases |records|
  {
    if records == [] {
      assert x.records + records == x.records;
    } else {
      var events := Arrivals(records);
      assert events[1..] == Arrivals(records[1..]);
      PlayArrivals(Happen(x, events[0]), records[1..]);
      assert x.records + [records[0]] + records[1..] == x.records + records;
    }
  }

  /** All rows of the organisation and metric are for earlier windows. */
  ghost predicate Earlier(rows: seq<Row>, w: Window) {
    forall i :: 0 <= i < |rows| && rows[i].org == w.org && rows[i].metric == w.metric ==> rows[i].start < w.start
  }

  /** Closing a window adds what has been recorded since its start to what is billed. */
  lemma CloseOne(x: World, w: Window, end: int)
    requires Earlier(x.billing.rows, w) && Sane(x.records) && w.start < end
    ensures var y := Happen(x, Gather(w, end));
      && y.records == x.records
      && Earlier(y.billing.rows, w.(start := end))
      && Billed(y.billing.rows, w) == Billed(x.billing.rows, w) + UsageSince(x.records, w.org, w.metric, w.start)
  {
    var rows, y, q := x.billing.rows, Happen(x, Gather(w, end)), UsageSince(x.records, w.org, w.metric, w.start);
    SaneUsage(x.records, w);
    if q > 0 {
      var r := Row(0, w.org, w.metric, q, w.start, end, false);
      assert forall i :: 0 <= i < |rows| ==> !SameWindow(rows[i], r);
      assert y.billing.rows == rows + [r.(id := |rows| + 1)];
      assert (rows + [r.(id := |rows| + 1)])[..|rows|] == rows;
    }
  }

  lemma PlayClosing(x: World, w: Window, periods: seq<Period>)
    requires periods != []
    ensures var p := periods[0]; var x1 := x.(records := x.records + p.arrivals);
      Play(x, Closing(w, periods)) == Play(Happen(x1, Gather(w, p.end)), Closing(w.(start := p.end), periods[1..]))
  {
    var p := periods[0];
    var rest := Closing(w.(start := p.end), periods[1..]);
    PlayConcat(x, Arrivals(p.arrivals), [Gather(w, p.end)] + rest);
    PlayArrivals(x, p.arrivals);
    assert ([Gather(w, p.end)] + rest)[1..] == rest;
  }

  /** One window: what it bills, and what it should. */
  lemma OneWindow(now: seq<UsageRecord>, all: seq<UsageRecord>, w: Window, end: int)
    requires now <= all && w.start <= end
    ensures UsageSince(now, w.org, w.metric, w.start) + UsageWithin(all[|now|..], w, end) ==
            UsageWithin(all, w, end) + UsageSince(now, w.org, w.metric, end)
  {
    assert all == now + all[|now|..];
    WithinConcat(now, all[|now|..], w, end);
    SinceIsWithinAndBeyond(now, w, end);
  }

  /** What is billed, and what came too late to be, make up what was recorded and what was counted twice. */
  lemma {:induction false} BilledBalances(x: World, w: Window, periods: seq<Period>, all: seq<UsageRecord>)
    requires Earlier(x.billing.rows, w) && Ascending(w.start, periods) && Sane(all)
    requires Play(x, Closing(w, periods)).records <= all
    ensures x.records <= all
    ensures var y := Play(x, Closing(w, periods));
      Billed(y.billing.rows, w) - Billed(x.billing.rows, w) + Late(all, |x.records|, w, periods) ==
      UsageWithin(all, w, LastEnd(w.start, periods)) + Overrun(x.records, w, periods)
    decreases |periods|
  {
    if periods == [] {
      NothingWithinNothing(all, w);
    } else {
      var p, next := periods[0], w.(start := periods[0].end);
      var x1 := x.(records := x.records + p.arrivals);
      var x2 := Happen(x1, Gather(w, p.end));
      PlayClosing(x, w, periods);
      RecordsGrow(x2, Closing(next, periods[1..]));
      SanePrefix(x1.records, all);
      CloseOne(x1, w, p.end);
      BilledBalances(x2, next, periods[1..], all);
      BilledSame(x2.billing.rows, w, next);
      BilledSame(Play(x, Closing(w, periods)).billing.rows, w, next);
      OneWindow(x1.records, all, w, p.end);
      EndsAscend(p.end, periods[1..]);
      WithinAdjacent(all, w, p.end, LastEnd(p.end, periods[1..]));
    }
  }

  lemma SanePrefix(records: seq<UsageRecord>, all: seq<UsageRecord>)
    requires records <= all && Sane(all)
    ensures Sane(records)
  {
    forall u | u in records
      ensures u in all
    {
      var i :| 0 <= i < |records| && records[i] == u;
      assert all[i] == u;
    }
  }

  lemma {:induction false} RecordsGrow(x: World, events: seq<Event>)
    ensures x.records <= Play(x, events).records
    decreases |events|
  {
    if events != [] {
      RecordsGrow(Happen(x, events[0]), events[1..]);
    }
  }

  lemma {:induction false} BilledSame(rows: seq<Row>, v: Window, w: Window)
    requires v.org == w.org && v.metric == w.metric
    ensures Billed(rows, v) == Billed(rows, w)
  {
    if rows != [] {
      BilledSame(rows[..|rows| - 1], v, w);
    }
  }

  /**
    For any number of adjacent windows closed one after the other, and any records before, between and after: the
    charges add up to the usage recorded from the first start to the last end if and only if what the windows counted
    from beyond their ends equals what arrived for them too late.
   */
  lemma ChargesAddUpIff(w: Window, periods: seq<Period>, later: seq<UsageRecord>)
    requires Ascending(w.start, periods) && Sane(Play(Begin(), Closing(w, periods)).records + later)
    ensures var y := Play(Begin(), Closing(w, periods)); var all := y.records + later;
      Billed(y.billing.rows, w) == UsageWithin(all, w, LastEnd(w.start, periods)) <==>
      Overrun([], w, periods) == Late(all, 0, w, periods)
  {
    var y := Play(Begin(), Closing(w, periods));
    BilledBalances(Begin(), w, periods, y.records + later);
  }

  /** A record that is there when the first window closes and ends in the second is charged in both. */
  lemma ChargedTwice(w: Window, u: UsageRecord, mid: int, end: int)
    requires w.start < mid <= u.end < end && Sane([u])
    ensures var periods := [Period([u], mid), Period([], end)]; var y := Play(Begin(), Closing(w, periods));
      && y.records == [u]
      && Billed(y.billing.rows, w) == 2 * Adds(u, w) && UsageWithin(y.records, w, end) == Adds(u, w)
  {
    var periods, next := [Period([u], mid), Period([], end)], w.(start := mid);
    var x1 := World([u], Init());
    var x2 := Happen(x1, Gather(w, mid));
    PlayClosing(Begin(), w, periods);
    assert [] + [u] == [u] && periods[1..] == [Period([], end)];
    PlayClosing(x2, next, periods[1..]);
    assert x2.records + [] == x2.records && periods[1..][1..] == [];
    CloseOne(x1, w, mid);
    CloseOne(x2, next, end);
    BilledSame(x2.billing.rows, w, next);
    BilledSame(Play(Begin(), Closing(w, periods)).billing.rows, w, next);
    OneMoreRecord([], u, w);
    OneMoreRecord([], u, next);
  }
}
