/**
  What the metering loop charges. Usage records arrive while the loop collects, at every tick, the usage since the start
  of the month, and flushes run in between. A collection reads the usage and inserts its row as one event: records that
  arrive between the two are placed after it, which changes neither.
 */
module MeteringLoop {
  import opened MeterIdentifier
  import opened Metering
  import opened UsageTotals
  import opened UsageSeries

  /** The quantity a metric is charged by. */
  function Amount(u: Usage, metric: Metric): int {
    match metric
    case Bandwidth => u.bytesIn + u.bytesOut
    case Requests => u.requests
  }

  /** What collectForOrg reads: UsageForOrg knows no end of the window. */
  function UsageSince(records: seq<UsageRecord>, org: string, metric: Metric, start: int): int {
    Amount(Total(records, org, start), metric)
  }

  /** Bandwidth counts the bytes of both directions, requests are counted one by one. */
  lemma UsageSinceMeans(records: seq<UsageRecord>, org: string, start: int)
    ensures UsageSince(records, org, Bandwidth, start) == BytesIn(records, org, start) + BytesOut(records, org, start)
    ensures UsageSince(records, org, Requests, start) == RequestCount(records, org, start)
  {
    TotalIsSums(records, org, start);
  }

  /** A metric of an organisation over windows with one start. */
  datatype Window = Window(org: string, metric: Metric, start: int)

  datatype Event =
    | Arrive(u: UsageRecord)
    | Gather(w: Window, end: int)  // one metric of one organisation at one tick
    | Bill(st: Step)               // a step of a flush

  datatype World = World(records: seq<UsageRecord>, billing: State)

  function CollectStep(records: seq<UsageRecord>, w: Window, end: int): Step {
    Collect(w.org, w.metric, UsageSince(records, w.org, w.metric, w.start), w.start, end)
  }

  function Happen(x: World, e: Event): World {
    match e
    case Arrive(u) => x.(records := x.records + [u])
    case Gather(w, end) => x.(billing := Apply(x.billing, CollectStep(x.records, w, end)))
    case Bill(st) => if st.Collect? then x else x.(billing := Apply(x.billing, st))
  }

  function Play(x: World, events: seq<Event>): World
    decreases |events|
  {
    if events == [] then x else Play(Happen(x, events[0]), events[1..])
  }

  // ---- What the ticks saw ----

  /** The usage seen by the first tick that saw any. */
  function FirstPositive(records: seq<UsageRecord>, events: seq<Event>, w: Window): (q: int)
    ensures q >= 0
    decreases |events|
  {
    if events == [] then 0
    else if events[0].Arrive? then FirstPositive(records + [events[0].u], events[1..], w)
    else if events[0].Gather? && events[0].w == w && UsageSince(records, w.org, w.metric, w.start) > 0
    then UsageSince(records, w.org, w.metric, w.start)
    else FirstPositive(records, events[1..], w)
  }

  predicate Ticks(events: seq<Event>, w: Window) {
    exists i :: 0 <= i < |events| && events[i].Gather? && events[i].w == w
  }

  /** The usage seen by the last tick. */
  function LastSeen(records: seq<UsageRecord>, events: seq<Event>, w: Window): int
    decreases |events|
  {
    if events == [] then 0
    else if events[0].Arrive? then LastSeen(records + [events[0].u], events[1..], w)
    else if events[0].Gather? && events[0].w == w && !Ticks(events[1..], w)
    then UsageSince(records, w.org, w.metric, w.start)
    else LastSeen(records, events[1..], w)
  }

  /** What a record adds to a window. */
  function Adds(u: UsageRecord, w: Window): int {
    if Counts(u, w.org, w.start) then Amount(u.usage, w.metric) else 0
  }

  /** What arrives for the window before its last tick. */
  function ArrivesInTime(events: seq<Event>, w: Window): int {
    if !Ticks(events, w) then 0
    else (if events[0].Arrive? then Adds(events[0].u, w) else 0) + ArrivesInTime(events[1..], w)
  }

  /** What arrives for the window after the first tick that saw any usage, and before the last tick. */
  function Missed(records: seq<UsageRecord>, events: seq<Event>, w: Window): int
    decreases |events|
  {
    if events == [] then 0
    else if events[0].Arrive? then Missed(records + [events[0].u], events[1..], w)
    else if events[0].Gather? && events[0].w == w && UsageSince(records, w.org, w.metric, w.start) > 0
    then ArrivesInTime(events[1..], w)
    else Missed(records, events[1..], w)
  }

  lemma OneMoreRecord(records: seq<UsageRecord>, u: UsageRecord, w: Window)
    ensures UsageSince(records + [u], w.org, w.metric, w.start) ==
            UsageSince(records, w.org, w.metric, w.start) + Adds(u, w)
  {
    assert (records + [u])[..|records|] == records;
  }

  lemma TicksLater(events: seq<Event>, w: Window)
    requires events != [] && !(events[0].Gather? && events[0].w == w)
    ensures Ticks(events, w) <==> Ticks(events[1..], w)
  {
    if Ticks(events, w) {
      var i :| 0 <= i < |events| && events[i].Gather? && events[i].w == w;
      assert events[1..][i - 1] == events[i];
    }
    if Ticks(events[1..], w) {
      var i :| 0 <= i < |events[1..]| && events[1..][i].Gather? && events[1..][i].w == w;
      assert events[i + 1] == events[1..][i];
    }
  }

  lemma {:induction false} LastSeesAll(records: seq<UsageRecord>, events: seq<Event>, w: Window)
    requires Ticks(events, w)
    ensures LastSeen(records, events, w) ==
            UsageSince(records, w.org, w.metric, w.start) + ArrivesInTime(events, w)
    decreases |events|
  {
    if events[0].Arrive? {
      TicksLater(events, w);
      OneMoreRecord(records, events[0].u, w);
      LastSeesAll(records + [events[0].u], events[1..], w);
    } else if Ticks(events[1..], w) {
      LastSeesAll(records, events[1..], w);
    } else if !(events[0].Gather? && events[0].w == w) {
      TicksLater(events, w);
    }
  }

  /** The last tick saw what the first one with usage saw and everything that came in between. */
  lemma {:induction false} LastIsFirstAndMissed(records: seq<UsageRecord>, events: seq<Event>, w: Window)
    requires FirstPositive(records, events, w) > 0
    ensures Ticks(events, w)
    ensures LastSeen(records, events, w) == FirstPositive(records, events, w) + Missed(records, events, w)
    decreases |events|
  {
    if events[0].Arrive? {
      LastIsFirstAndMissed(records + [events[0].u], events[1..], w);
      TicksLater(events, w);
    } else if events[0].Gather? && events[0].w == w && UsageSince(records, w.org, w.metric, w.start) > 0 {
      if Ticks(events[1..], w) {
        LastSeesAll(records, events[1..], w);
      }
    } else {
      LastIsFirstAndMissed(records, events[1..], w);
      var i :| 0 <= i < |events[1..]| && events[1..][i].Gather? && events[1..][i].w == w;
      assert events[i + 1] == events[1..][i];
    }
  }

  // ---- What is charged ----

  predicate RowOf(r: Row, w: Window) {
    r.org == w.org && r.metric == w.metric && r.start == w.start
  }

  ghost predicate HasRow(rows: seq<Row>, w: Window, quantity: int) {
    exists i :: 0 <= i < |rows| && RowOf(rows[i], w) && rows[i].quantity == quantity
  }

  ghost predicate NoRow(rows: seq<Row>, w: Window) {
    forall i :: 0 <= i < |rows| ==> !RowOf(rows[i], w)
  }

  lemma HappenKeepsInv(x: World, e: Event)
    requires Inv(x.billing)
    ensures Inv(Happen(x, e).billing) && Grows(x.billing.rows, Happen(x, e).billing.rows)
  {
    if e.Gather? {
      StepKeepsInv(x.billing, CollectStep(x.records, e.w, e.end));
      StepGrows(x.billing, CollectStep(x.records, e.w, e.end));
    } else if e.Bill? {
      StepKeepsInv(x.billing, e.st);
      StepGrows(x.billing, e.st);
    }
  }

  lemma RowStays(rows: seq<Row>, rows': seq<Row>, w: Window, quantity: int)
    requires HasRow(rows, w, quantity) && Grows(rows, rows')
    ensures HasRow(rows', w, quantity)
  {
    var i :| 0 <= i < |rows| && RowOf(rows[i], w) && rows[i].quantity == quantity;
    assert rows'[i].(reported := rows[i].reported) == rows[i];
  }

  lemma {:induction false} RowGoesOn(x: World, events: seq<Event>, w: Window, quantity: int)
    requires Inv(x.billing) && HasRow(x.billing.rows, w, quantity)
    ensures Inv(Play(x, events).billing) && HasRow(Play(x, events).billing.rows, w, quantity)
    decreases |events|
  {
    if events != [] {
      HappenKeepsInv(x, events[0]);
      RowStays(x.billing.rows, Happen(x, events[0]).billing.rows, w, quantity);
      RowGoesOn(Happen(x, events[0]), events[1..], w, quantity);
    }
  }

  /** The collection that first finds usage inserts the row. */
  lemma FirstCollects(x: World, w: Window, end: int)
    requires NoRow(x.billing.rows, w) && UsageSince(x.records, w.org, w.metric, w.start) > 0
    ensures HasRow(Happen(x, Gather(w, end)).billing.rows, w, UsageSince(x.records, w.org, w.metric, w.start))
  {
    var rows, rows' := x.billing.rows, Happen(x, Gather(w, end)).billing.rows;
    assert RowOf(rows'[|rows|], w);
  }

  lemma StillNoRow(x: World, e: Event, w: Window)
    requires NoRow(x.billing.rows, w)
    requires !(e.Gather? && e.w == w && UsageSince(x.records, w.org, w.metric, w.start) > 0)
    ensures NoRow(Happen(x, e).billing.rows, w)
  {
  }

  /** The row of a window, if it has one, holds what the first tick with usage saw. */
  lemma {:induction false} RowHoldsFirstPositive(x: World, events: seq<Event>, w: Window)
    requires Inv(x.billing) && NoRow(x.billing.rows, w)
    ensures var q := FirstPositive(x.records, events, w); var rows := Play(x, events).billing.rows;
      Inv(Play(x, events).billing) && if q > 0 then HasRow(rows, w, q) else NoRow(rows, w)
    decreases |events|
  {
    if events != [] {
      var e := events[0];
      HappenKeepsInv(x, e);
      if e.Gather? && e.w == w && UsageSince(x.records, w.org, w.metric, w.start) > 0 {
        FirstCollects(x, w, e.end);
        RowGoesOn(Happen(x, e), events[1..], w, UsageSince(x.records, w.org, w.metric, w.start));
      } else {
        StillNoRow(x, e, w);
        RowHoldsFirstPositive(Happen(x, e), events[1..], w);
      }
    }
  }

  function Begin(): World {
    World([], Init())
  }

  predicate ChargeFor(c: Charge, w: Window) {
    c.org == w.org && c.metric == w.metric && c.start == w.start
  }

  /**
    In every run, whatever is charged for a window is what the first tick with usage saw. It falls short of what the
    last tick saw by exactly what arrived in between, so the two agree if and only if that is nothing, and if and only
    if the first tick with usage already saw the last tick's total.
   */
  lemma ChargeIsFirstTick(events: seq<Event>, w: Window, k: string)
    requires k in Play(Begin(), events).billing.stripe && ChargeFor(Play(Begin(), events).billing.stripe[k], w)
    ensures var charged := Play(Begin(), events).billing.stripe[k].quantity;
      && charged == FirstPositive([], events, w)
      && charged + Missed([], events, w) == LastSeen([], events, w)
      && (charged == LastSeen([], events, w) <==> Missed([], events, w) == 0)
      && (charged == LastSeen([], events, w) <==> FirstPositive([], events, w) == LastSeen([], events, w))
  {
    RowHoldsFirstPositive(Begin(), events, w);
    var s, q := Play(Begin(), events).billing, FirstPositive([], events, w);
    var j :| IsChargeOf(s, j, k);
    assert RowOf(s.rows[j], w);
    var i :| 0 <= i < |s.rows| && RowOf(s.rows[i], w) && s.rows[i].quantity == q;
    assert SameWindow(s.rows[i], s.rows[j]);
    LastIsFirstAndMissed([], events, w);
  }

  // ---- A month that is undercharged ----

  /** One record before the first tick, another before the second, and then a flush in which everything succeeds. */
  function TwoTicks(w: Window, u: UsageRecord, v: UsageRecord, end: int, end': int): seq<Event> {
    [Arrive(u), Gather(w, end), Arrive(v), Gather(w, end')]
  }

  function WholeFlush(n: nat): seq<Event> {
    [Bill(BeginFlush(n)), Bill(PushNext(n, Accepted)), Bill(FinishFlush(n, true))]
  }

  lemma {:induction false} PlayConcat(x: World, a: seq<Event>, b: seq<Event>)
    ensures Play(x, a + b) == Play(Play(x, a), b)
    decreases |a|
  {
    if a == [] {
      assert a + b == b;
    } else {
      assert (a + b)[1..] == a[1..] + b;
      PlayConcat(Happen(x, a[0]), a[1..], b);
    }
  }

  lemma PlayOne(x: World, events: seq<Event>)
    requires events != []
    ensures Play(x, events) == Play(Happen(x, events[0]), events[1..])
  {
  }

  lemma InsertFirst(r: Row)
    ensures Insert([], r).Some? && Insert([], r).value == [r.(id := 1)]
  {
  }

  lemma AfterTwoTicks(w: Window, u: UsageRecord, v: UsageRecord, end: int, end': int)
    requires Adds(u, w) > 0
    ensures Play(Begin(), TwoTicks(w, u, v, end, end')) ==
      World([u, v], State([Row(1, w.org, w.metric, Adds(u, w), w.start, end, false)], map[], map[]))
  {
    var events, row := TwoTicks(w, u, v, end, end'), Row(1, w.org, w.metric, Adds(u, w), w.start, end, false);
    var s := State([row], map[], map[]);
    assert Happen(Begin(), events[0]) == World([u], Init());
    OneMoreRecord([], u, w);
    assert [] + [u] == [u] && UsageSince([], w.org, w.metric, w.start) == 0;
    assert CollectStep([u], w, end) == Collect(w.org, w.metric, Adds(u, w), w.start, end);
    InsertFirst(Row(0, w.org, w.metric, Adds(u, w), w.start, end, false));
    assert Apply(Init(), CollectStep([u], w, end)) == s;
    assert Happen(World([u], Init()), events[1]) == World([u], s);
    assert Happen(World([u], s), events[2]) == World([u, v], s);
    var again := CollectStep([u, v], w, end');
    assert SameWindow(s.rows[0], Row(0, again.org, again.metric, again.quantity, again.start, again.end, false));
    assert Happen(World([u, v], s), events[3]) == World([u, v], s);
    PlayOne(Begin(), events);
    PlayOne(World([u], Init()), events[1..]);
    PlayOne(World([u], s), events[1..][1..]);
    PlayOne(World([u, v], s), events[1..][1..][1..]);
    assert events[1..][1..][1..][1..] == [];
  }

  lemma AfterFlush(records: seq<UsageRecord>, row: Row, n: nat)
    requires row.id == 1 && !row.reported
    ensures Play(World(records, State([row], map[], map[])), WholeFlush(n)).billing.stripe ==
      map[RowIdentifier(row) := ChargeOf(row)]
  {
    var events, rows, stripe := WholeFlush(n), [row], map[RowIdentifier(row) := ChargeOf(row)];
    var x := World(records, State(rows, map[], map[]));
    assert rows[..0] == [] && Unreported(rows) == rows;
    var x1 := World(records, State(rows, map[n := Flush(rows, {})], map[]));
    assert Happen(x, events[0]) == x1;
    var x2 := World(records, State(rows, map[n := Flush([], {1})], stripe));
    assert map[n := Flush(rows, {})][n := Flush([], {1})] == map[n := Flush([], {1})];
    assert Charging(map[], row, Accepted) == stripe && {} + {row.id} == {1} && rows[1..] == [];
    assert Happen(x1, events[1]) == x2;
    PlayOne(x, events);
    PlayOne(x1, events[1..]);
    PlayOne(x2, events[1..][1..]);
    assert events[1..][1..][1..] == [];
  }

  /** The second record is never charged, although a tick saw it before the flush. */
  lemma ChargesTooLittle(w: Window, u: UsageRecord, v: UsageRecord, end: int, end': int, n: nat)
    requires Adds(u, w) > 0
    ensures var events := TwoTicks(w, u, v, end, end') + WholeFlush(n);
      && Play(Begin(), events).billing.stripe ==
         map[Identifier(w.org, w.metric, w.start) := Charge(w.org, w.metric, w.start, Adds(u, w))]
      && LastSeen([], events, w) == Adds(u, w) + Adds(v, w)
  {
    var row := Row(1, w.org, w.metric, Adds(u, w), w.start, end, false);
    PlayConcat(Begin(), TwoTicks(w, u, v, end, end'), WholeFlush(n));
    AfterTwoTicks(w, u, v, end, end');
    AfterFlush([u, v], row, n);
    SeenLast(w, u, v, end, end', n);
  }

  lemma SeenLast(w: Window, u: UsageRecord, v: UsageRecord, end: int, end': int, n: nat)
    ensures LastSeen([], TwoTicks(w, u, v, end, end') + WholeFlush(n), w) == Adds(u, w) + Adds(v, w)
  {
    var events := TwoTicks(w, u, v, end, end') + WholeFlush(n);
    var e1, e2, e3 := events[1..], events[1..][1..], events[1..][1..][1..];
    assert events[3] == Gather(w, end') && e1[2] == events[3] && e2[1] == events[3] && e3[0] == events[3];
    assert Ticks(events, w) && Ticks(e1, w) && Ticks(e2, w) && Ticks(e3, w) && !Ticks(e3[1..], w);
    assert events[0] == Arrive(u) && e1[0] == Gather(w, end) && e2[0] == Arrive(v);
    LastSeesAll([], events, w);
    assert UsageSince([], w.org, w.metric, w.start) == 0;
    assert ArrivesInTime(e3[1..], w) == 0;
    assert ArrivesInTime(e3, w) == 0;
    assert ArrivesInTime(e2, w) == Adds(v, w);
    assert ArrivesInTime(e1, w) == Adds(v, w);
  }

  function Served(end: int, requests: int): UsageRecord {
    UsageRecord("o", end, Usage(0, 0, requests))
  }

  // ---- The end of the window ----

  /** The usage of [start, end), by the records' own end times. */
  function UsageWithin(records: seq<UsageRecord>, w: Window, end: int): int {
    if records == [] then 0
    else
      var n := |records| - 1;
      UsageWithin(records[..n], w, end) + (if records[n].end < end then Adds(records[n], w) else 0)
  }

  /** What collectForOrg reads is the usage of the window and all that was recorded from its end on. */
  lemma {:induction false} SinceIsWithinAndBeyond(records: seq<UsageRecord>, w: Window, end: int)
    requires w.start <= end
    ensures UsageSince(records, w.org, w.metric, w.start) ==
            UsageWithin(records, w, end) + UsageSince(records, w.org, w.metric, end)
  {
    if records != [] {
      SinceIsWithinAndBeyond(records[..|records| - 1], w, end);
    }
  }

  lemma {:induction false} WithinConcat(a: seq<UsageRecord>, b: seq<UsageRecord>, w: Window, end: int)
    ensures UsageWithin(a + b, w, end) == UsageWithin(a, w, end) + UsageWithin(b, w, end)
    decreases |b|
  {
    if b == [] {
      assert a + b == a;
    } else {
      assert (a + b)[..|a + b| - 1] == a + b[..|b| - 1];
      WithinConcat(a, b[..|b| - 1], w, end);
    }
  }

  /**
    A collection ignores the end of its window. The row it inserts holds exactly the usage of [start, end) if and only
    if what was recorded from the end on, and is counted too, equals what arrives for the window only later.
   */
  lemma RowHoldsWindowIff(x: World, w: Window, end: int, later: seq<UsageRecord>)
    requires w.start <= end && NoRow(x.billing.rows, w) && UsageSince(x.records, w.org, w.metric, w.start) > 0
    ensures var rows := Happen(x, Gather(w, end)).billing.rows;
      && |rows| == |x.billing.rows| + 1 && RowOf(rows[|rows| - 1], w)
      && (rows[|rows| - 1].quantity == UsageWithin(x.records + later, w, end) <==>
          UsageSince(x.records, w.org, w.metric, end) == UsageWithin(later, w, end))
  {
    SinceIsWithinAndBeyond(x.records, w, end);
    WithinConcat(x.records, later, w, end);
    FirstCollects(x, w, end);
  }

  /** A window that closed at 100 is charged for a request served at 150. */
  lemma ChargesBeyondTheEnd()
    ensures var w := Window("o", Requests, 0); var x := World([Served(50, 1), Served(150, 1)], Init());
      && Happen(x, Gather(w, 100)).billing.rows == [Row(1, "o", Requests, 2, 0, 100, false)]
      && UsageWithin(x.records, w, 100) == 1
  {
    var records := [Served(50, 1), Served(150, 1)];
    assert records[..1] == [Served(50, 1)] && records[..1][..0] == [];
    assert Total(records[..1], "o", 0) == Usage(0, 0, 1);
    assert UsageWithin(records[..1], Window("o", Requests, 0), 100) == 1;
  }
}
