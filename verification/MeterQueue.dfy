/**
  Which rows are ever pushed. A flush reads the first 500 unreported rows and skips those whose metric has no meter or
  whose organisation has no Stripe customer; the skipped ones stay unreported and keep their places.
 */
module MeterQueue {
  import opened MeterIdentifier
  import opened Metering
  import opened Settlement

  const BATCH := 500

  /** Which organisations and metrics can be pushed at all. */
  type Wiring = (string, Metric) -> bool

  predicate Pushable(wired: Wiring, r: Row) {
    wired(r.org, r.metric)
  }

  /** A flush skips exactly the rows that cannot be pushed. */
  predicate HonestStep(wired: Wiring, s: State, st: Step) {
    st.PushNext? && st.w in s.flushes && s.flushes[st.w].todo != [] ==>
      (st.outcome == Skipped <==> !Pushable(wired, s.flushes[st.w].todo[0]))
  }

  predicate Honest(wired: Wiring, s: State, steps: seq<Step>)
    decreases |steps|
  {
    steps == [] || (HonestStep(wired, s, steps[0]) && Honest(wired, Apply(s, steps[0]), steps[1..]))
  }

  /** How many of the rows cannot be pushed. */
  function Blocked(wired: Wiring, rows: seq<Row>): nat {
    if rows == [] then 0
    else Blocked(wired, rows[..|rows| - 1]) + (if Pushable(wired, rows[|rows| - 1]) then 0 else 1)
  }

  /** The row can be pushed, and fewer than a batch of rows that cannot are ahead of it. */
  predicate Reachable(wired: Wiring, rows: seq<Row>, i: nat)
    requires i < |rows|
  {
    Pushable(wired, rows[i]) && Blocked(wired, rows[..i]) < BATCH
  }

  // ---- Counting ----

  lemma {:induction false} BlockedAppend(wired: Wiring, a: seq<Row>, b: seq<Row>)
    ensures Blocked(wired, a + b) == Blocked(wired, a) + Blocked(wired, b)
    decreases |b|
  {
    if b == [] {
      assert a + b == a;
    } else {
      assert (a + b)[..|a + b| - 1] == a + b[..|b| - 1];
      BlockedAppend(wired, a, b[..|b| - 1]);
    }
  }

  lemma {:induction false} AllBlocked(wired: Wiring, rows: seq<Row>)
    requires forall r :: r in rows ==> !Pushable(wired, r)
    ensures Blocked(wired, rows) == |rows|
  {
    if rows != [] {
      AllBlocked(wired, rows[..|rows| - 1]);
      assert rows[|rows| - 1] in rows;
    }
  }

  lemma {:induction false} UnreportedBlocked(wired: Wiring, rows: seq<Row>)
    ensures Blocked(wired, Unreported(rows)) <= Blocked(wired, rows)
  {
    if rows != [] {
      var n := |rows| - 1;
      UnreportedBlocked(wired, rows[..n]);
      BlockedAppend(wired, Unreported(rows[..n]), if rows[n].reported then [] else [rows[n]]);
      assert Blocked(wired, [rows[n]]) == (if Pushable(wired, rows[n]) then 0 else 1) by {
        assert [rows[n]][..0] == [];
      }
    }
  }

  lemma {:induction false} BlockedGrows(wired: Wiring, rows: seq<Row>, rows': seq<Row>, i: nat)
    requires Grows(rows, rows') && i <= |rows|
    ensures Blocked(wired, rows'[..i]) == Blocked(wired, rows[..i])
    decreases i
  {
    if i > 0 {
      BlockedGrows(wired, rows, rows', i - 1);
      assert rows[..i][..i - 1] == rows[..i - 1] && rows'[..i][..i - 1] == rows'[..i - 1];
      assert rows'[i - 1].(reported := rows[i - 1].reported) == rows[i - 1];
    }
  }

  lemma ReachableGrows(wired: Wiring, rows: seq<Row>, rows': seq<Row>, i: nat)
    requires Grows(rows, rows') && i < |rows|
    ensures Reachable(wired, rows', i) <==> Reachable(wired, rows, i)
  {
    BlockedGrows(wired, rows, rows', i);
    assert rows'[i].(reported := rows[i].reported) == rows[i];
  }

  // ---- Nothing unreachable is ever pushed ----

  /** Fewer than a batch of blocked rows are ahead of every row of a snapshot. */
  ghost predicate TodoOk(wired: Wiring, rows: seq<Row>, f: Flush) {
    && (forall i :: 0 <= i < |f.todo| ==>
          1 <= f.todo[i].id <= |rows| && Blocked(wired, rows[..f.todo[i].id - 1]) < BATCH)
    && (forall id :: id in f.pushed ==> 1 <= id <= |rows| && Reachable(wired, rows, id - 1))
  }

  ghost predicate QueueOk(wired: Wiring, s: State) {
    && (forall w :: w in s.flushes ==> TodoOk(wired, s.rows, s.flushes[w]))
    && (forall i :: 0 <= i < |s.rows| && s.rows[i].reported ==> Reachable(wired, s.rows, i))
  }

  /** The j-th unreported row has exactly j unreported rows ahead of it. */
  lemma {:induction false} PlaceInQueue(rows: seq<Row>, j: nat)
    requires j < |Unreported(rows)| && forall i :: 0 <= i < |rows| ==> rows[i].id == i + 1
    ensures 1 <= Unreported(rows)[j].id <= |rows|
    ensures |Unreported(rows[..Unreported(rows)[j].id - 1])| == j
  {
    var n := |rows| - 1;
    if j < |Unreported(rows[..n])| {
      PlaceInQueue(rows[..n], j);
      var k := Unreported(rows)[j].id - 1;
      assert rows[..n][..k] == rows[..k];
    }
  }

  lemma {:induction false} BlockedWait(wired: Wiring, rows: seq<Row>)
    requires forall i :: 0 <= i < |rows| && rows[i].reported ==> Pushable(wired, rows[i])
    ensures Blocked(wired, rows) <= |Unreported(rows)|
  {
    if rows != [] {
      BlockedWait(wired, rows[..|rows| - 1]);
    }
  }

  lemma SnapshotOk(wired: Wiring, s: State)
    requires Inv(s) && QueueOk(wired, s)
    ensures TodoOk(wired, s.rows, Flush(Pending(s.rows, BATCH), {}))
  {
    var todo := Pending(s.rows, BATCH);
    forall j | 0 <= j < |todo|
      ensures 1 <= todo[j].id <= |s.rows| && Blocked(wired, s.rows[..todo[j].id - 1]) < BATCH
    {
      PlaceInQueue(s.rows, j);
      assert todo[j] == Unreported(s.rows)[j];
      var k := todo[j].id - 1;
      forall i | 0 <= i < k && s.rows[..k][i].reported
        ensures Pushable(wired, s.rows[..k][i])
      {
        assert Reachable(wired, s.rows, i);
      }
      BlockedWait(wired, s.rows[..k]);
    }
  }

  lemma TodoGrows(wired: Wiring, rows: seq<Row>, rows': seq<Row>, f: Flush)
    requires Grows(rows, rows') && TodoOk(wired, rows, f)
    ensures TodoOk(wired, rows', f)
  {
    forall i | 0 <= i < |f.todo|
      ensures Blocked(wired, rows'[..f.todo[i].id - 1]) < BATCH
    {
      BlockedGrows(wired, rows, rows', f.todo[i].id - 1);
    }
    forall id | id in f.pushed
      ensures Reachable(wired, rows', id - 1)
    {
      ReachableGrows(wired, rows, rows', id - 1);
    }
  }

  lemma HeadIsReachable(wired: Wiring, rows: seq<Row>, f: Flush)
    requires FlushOk(rows, f) && TodoOk(wired, rows, f) && f.todo != [] && Pushable(wired, f.todo[0])
    ensures 1 <= f.todo[0].id <= |rows| && Reachable(wired, rows, f.todo[0].id - 1)
  {
    var r := f.todo[0];
    assert IsRow(rows, r);
    assert rows[r.id - 1].org == r.org && rows[r.id - 1].metric == r.metric;
  }

  lemma PushOk(wired: Wiring, rows: seq<Row>, f: Flush, pushed: set<nat>)
    requires FlushOk(rows, f) && TodoOk(wired, rows, f) && f.todo != []
    requires pushed == f.pushed || (pushed == f.pushed + {f.todo[0].id} && Pushable(wired, f.todo[0]))
    ensures TodoOk(wired, rows, Flush(f.todo[1..], pushed))
  {
    if pushed != f.pushed {
      HeadIsReachable(wired, rows, f);
    }
  }

  lemma FlushesQueueStep(wired: Wiring, s: State, st: Step, w: nat)
    requires Inv(s) && QueueOk(wired, s) && HonestStep(wired, s, st) && w in Apply(s, st).flushes
    ensures TodoOk(wired, Apply(s, st).rows, Apply(s, st).flushes[w])
  {
    StepGrows(s, st);
    if w !in s.flushes {
      SnapshotOk(wired, s);
    } else if st.PushNext? && st.w == w && s.flushes[w].todo != [] {
      assert FlushOk(s.rows, s.flushes[w]) && TodoOk(wired, s.rows, s.flushes[w]);
      PushOk(wired, s.rows, s.flushes[w], Apply(s, st).flushes[w].pushed);
    } else {
      TodoGrows(wired, s.rows, Apply(s, st).rows, s.flushes[w]);
    }
  }

  lemma ReportedQueueStep(wired: Wiring, s: State, st: Step, i: nat)
    requires Inv(s) && QueueOk(wired, s) && i < |Apply(s, st).rows| && Apply(s, st).rows[i].reported
    ensures Reachable(wired, Apply(s, st).rows, i)
  {
    StepGrows(s, st);
    if i >= |s.rows| || !s.rows[i].reported {
      NewlyReported(s, st, i);
      assert TodoOk(wired, s.rows, s.flushes[st.w]);
    }
    ReachableGrows(wired, s.rows, Apply(s, st).rows, i);
  }

  lemma QueueStep(wired: Wiring, s: State, st: Step)
    requires Inv(s) && QueueOk(wired, s) && HonestStep(wired, s, st)
    ensures QueueOk(wired, Apply(s, st))
  {
    forall w | w in Apply(s, st).flushes
      ensures TodoOk(wired, Apply(s, st).rows, Apply(s, st).flushes[w])
    {
      FlushesQueueStep(wired, s, st, w);
    }
    forall i | 0 <= i < |Apply(s, st).rows| && Apply(s, st).rows[i].reported
      ensures Reachable(wired, Apply(s, st).rows, i)
    {
      ReportedQueueStep(wired, s, st, i);
    }
  }

  lemma {:induction false} QueueRun(wired: Wiring, s: State, steps: seq<Step>)
    requires Inv(s) && QueueOk(wired, s) && Honest(wired, s, steps)
    ensures Inv(Exec(s, steps)) && QueueOk(wired, Exec(s, steps))
    decreases |steps|
  {
    if steps != [] {
      StepKeepsInv(s, steps[0]);
      QueueStep(wired, s, steps[0]);
      QueueRun(wired, Apply(s, steps[0]), steps[1..]);
    }
  }

  // ---- Everything reachable can be pushed ----

  lemma BlockedPrefix(wired: Wiring, rows: seq<Row>, n: nat)
    requires n <= |rows|
    ensures Blocked(wired, rows[..n]) <= Blocked(wired, rows)
  {
    assert rows == rows[..n] + rows[n..];
    BlockedAppend(wired, rows[..n], rows[n..]);
  }

  /** Not all of a full batch ahead of a reachable row is blocked. */
  lemma BatchHasPushable(wired: Wiring, rows: seq<Row>, i: nat) returns (r: Row)
    requires i < |rows| && Blocked(wired, rows[..i]) < BATCH <= |Unreported(rows[..i])|
    ensures r in Unreported(rows[..i])[..BATCH] && Pushable(wired, r)
  {
    var u := Unreported(rows[..i]);
    UnreportedBlocked(wired, rows[..i]);
    BlockedPrefix(wired, u, BATCH);
    if forall x :: x in u[..BATCH] ==> !Pushable(wired, x) {
      AllBlocked(wired, u[..BATCH]);
      assert false;
    }
    r :| r in u[..BATCH] && Pushable(wired, r);
  }

  /** The next batch holds a row that can be pushed, the reachable row itself or one ahead of it. */
  lemma NextBatch(wired: Wiring, rows: seq<Row>, i: nat) returns (k: nat)
    requires i < |rows| && !rows[i].reported && Reachable(wired, rows, i)
    ensures k <= i && rows[k] in Pending(rows, BATCH) && !rows[k].reported && Pushable(wired, rows[k])
  {
    var u := Unreported(rows[..i]);
    assert rows[..i + 1][..i] == rows[..i];
    UnreportedPrefix(rows, i + 1);
    assert u + [rows[i]] <= Unreported(rows);
    if |u| < BATCH {
      k := i;
      assert Unreported(rows)[|u|] == rows[i];
      assert Pending(rows, BATCH)[|u|] == rows[i];
    } else {
      var r := BatchHasPushable(wired, rows, i);
      UnreportedAreOpen(rows[..i]);
      assert r in u;
      k :| 0 <= k < i && rows[..i][k] == r;
      assert u[..BATCH] == Pending(rows, BATCH);
    }
  }

  lemma {:induction false} PushHonestly(wired: Wiring, s: State, w: nat) returns (steps: seq<Step>)
    requires w in s.flushes
    ensures Honest(wired, s, steps) && Exec(s, steps).rows == s.rows && w in Exec(s, steps).flushes
    ensures var f := Exec(s, steps).flushes[w];
      && f.todo == [] && s.flushes[w].pushed <= f.pushed
      && forall r :: r in s.flushes[w].todo && Pushable(wired, r) ==> r.id in f.pushed
    decreases |s.flushes[w].todo|
  {
    if s.flushes[w].todo == [] {
      return [];
    }
    var f := s.flushes[w];
    var st := PushNext(w, if Pushable(wired, f.todo[0]) then Accepted else Skipped);
    assert f.todo == [f.todo[0]] + f.todo[1..];
    var rest := PushHonestly(wired, Apply(s, st), w);
    steps := [st] + rest;
    assert steps[1..] == rest;
  }

  lemma {:induction false} HonestConcat(wired: Wiring, s: State, a: seq<Step>, b: seq<Step>)
    requires Honest(wired, s, a) && Honest(wired, Exec(s, a), b)
    ensures Honest(wired, s, a + b) && Exec(s, a + b) == Exec(Exec(s, a), b)
    decreases |a|
  {
    if a == [] {
      assert a + b == b;
    } else {
      assert (a + b)[1..] == a[1..] + b;
      HonestConcat(wired, Apply(s, a[0]), a[1..], b);
    }
  }

  lemma OneStep(wired: Wiring, s: State, st: Step)
    requires !st.PushNext?
    ensures Honest(wired, s, [st]) && Exec(s, [st]) == Apply(s, st)
  {
    assert [st][1..] == [];
  }

  /** A whole honest flush: everything of its batch that can be pushed is reported. */
  lemma HonestFlush(wired: Wiring, s: State) returns (steps: seq<Step>, ids: set<nat>)
    requires Inv(s)
    ensures Honest(wired, s, steps) && Exec(s, steps).rows == Mark(s.rows, ids)
    ensures forall r :: r in Pending(s.rows, BATCH) && Pushable(wired, r) ==> r.id in ids
  {
    var w := FreshNumber(s.flushes.Keys);
    var s1 := Apply(s, BeginFlush(w));
    var pushes := PushHonestly(wired, s1, w);
    var s2 := Exec(s1, pushes);
    ids := s2.flushes[w].pushed;
    OneStep(wired, s, BeginFlush(w));
    OneStep(wired, s2, FinishFlush(w, true));
    HonestConcat(wired, s1, pushes, [FinishFlush(w, true)]);
    HonestConcat(wired, s, [BeginFlush(w)], pushes + [FinishFlush(w, true)]);
    steps := [BeginFlush(w)] + (pushes + [FinishFlush(w, true)]);
  }

  lemma FlushAdvances(wired: Wiring, s: State, i: nat) returns (steps: seq<Step>)
    requires Inv(s) && i < |s.rows| && !s.rows[i].reported && Reachable(wired, s.rows, i)
    ensures Honest(wired, s, steps) && |Exec(s, steps).rows| == |s.rows|
    ensures |Open(Exec(s, steps).rows[..i + 1])| < |Open(s.rows[..i + 1])|
  {
    var ids;
    steps, ids := HonestFlush(wired, s);
    var k := NextBatch(wired, s.rows, i);
    assert Mark(s.rows, ids)[..i + 1] == Mark(s.rows[..i + 1], ids);
    MarkCloses(s.rows[..i + 1], ids, k);
  }

  lemma {:induction false} ReportReachable(wired: Wiring, s: State, i: nat) returns (steps: seq<Step>)
    requires Inv(s) && i < |s.rows| && Reachable(wired, s.rows, i)
    ensures Honest(wired, s, steps) && i < |Exec(s, steps).rows| && Exec(s, steps).rows[i].reported
    decreases |Open(s.rows[..i + 1])|
  {
    if s.rows[i].reported {
      return [];
    }
    var first := FlushAdvances(wired, s, i);
    ExecKeepsInv(s, first);
    ReachableGrows(wired, s.rows, Exec(s, first).rows, i);
    var rest := ReportReachable(wired, Exec(s, first), i);
    HonestConcat(wired, s, first, rest);
    steps := first + rest;
  }

  ghost predicate ReportedAfter(s: State, steps: seq<Step>, i: nat) {
    i < |Exec(s, steps).rows| && Exec(s, steps).rows[i].reported
  }

  /**
    In every run in which flushes skip exactly what cannot be pushed: a row is ever pushed and reported, now or in some
    continuation, if and only if it can be pushed itself and fewer than 500 rows that cannot are ahead of it.
   */
  lemma EverReportedIff(wired: Wiring, steps: seq<Step>, i: nat)
    requires Honest(wired, Init(), steps) && i < |Exec(Init(), steps).rows|
    ensures var s := Exec(Init(), steps);
      (exists later :: Honest(wired, s, later) && ReportedAfter(s, later, i)) <==> Reachable(wired, s.rows, i)
  {
    var s := Exec(Init(), steps);
    QueueRun(wired, Init(), steps);
    if Reachable(wired, s.rows, i) {
      var later := ReportReachable(wired, s, i);
      assert ReportedAfter(s, later, i);
    }
    forall later | Honest(wired, s, later) && ReportedAfter(s, later, i)
      ensures Reachable(wired, s.rows, i)
    {
      QueueRun(wired, s, later);
      ExecKeepsInv(s, later);
      ReachableGrows(wired, s.rows, Exec(s, later).rows, i);
    }
  }

  // ---- A queue that is stuck ----

  /** The windows of one organisation, `n` of them, and nothing else. */
  ghost predicate Queue(s: State, org: string, n: nat) {
    |s.rows| == n && forall i :: 0 <= i < n ==> s.rows[i].org == org && s.rows[i].start == i
  }

  lemma {:induction false} Enqueue(wired: Wiring, org: string, metric: Metric, n: nat) returns (steps: seq<Step>)
    ensures Honest(wired, Init(), steps) && Queue(Exec(Init(), steps), org, n)
  {
    if n == 0 {
      return [];
    }
    var before := Enqueue(wired, org, metric, n - 1);
    var s := Exec(Init(), before);
    var st := Collect(org, metric, 1, n - 1, n);
    OneStep(wired, s, st);
    HonestConcat(wired, Init(), before, [st]);
    steps := before + [st];
  }

  lemma {:induction false} QueueBlocks(wired: Wiring, rows: seq<Row>, org: string)
    requires forall i :: 0 <= i < |rows| ==> rows[i].org == org && !Pushable(wired, rows[i])
    ensures Blocked(wired, rows) == |rows|
  {
    AllBlocked(wired, rows);
  }

  /** 500 windows of an organisation without a customer, and the next window of anyone is never pushed. */
  lemma StuckQueue(wired: Wiring, idle: string, org: string, metric: Metric) returns (steps: seq<Step>)
    requires idle != org && (forall m :: !wired(idle, m)) && wired(org, metric)
    ensures Honest(wired, Init(), steps)
    ensures var s := Exec(Init(), steps);
      && |s.rows| == 501 && Pushable(wired, s.rows[500])
      && forall later :: Honest(wired, s, later) ==> !ReportedAfter(s, later, 500)
  {
    var before := Enqueue(wired, idle, Requests, BATCH);
    var s := Exec(Init(), before);
    var st := Collect(org, metric, 1, 0, 1);
    OneStep(wired, s, st);
    HonestConcat(wired, Init(), before, [st]);
    steps := before + [st];
    var t := Exec(Init(), steps);
    assert t.rows[..BATCH] == s.rows;
    QueueBlocks(wired, s.rows, idle);
    assert !Reachable(wired, t.rows, BATCH);
    EverReportedIff(wired, steps, BATCH);
  }
}
