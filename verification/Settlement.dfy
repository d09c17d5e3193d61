/** Which reported rows Stripe has really been charged for: exactly when windows share an identifier, one is lost. */
module Settlement {
  import opened MeterIdentifier
  import opened Metering

  /** Stripe holds exactly the charge of the row with this id. */
  predicate Charged(s: State, id: nat) {
    1 <= id <= |s.rows| &&
    RowIdentifier(s.rows[id - 1]) in s.stripe && s.stripe[RowIdentifier(s.rows[id - 1])] == ChargeOf(s.rows[id - 1])
  }

  ghost predicate Settled(s: State) {
    && (forall w, id :: w in s.flushes && id in s.flushes[w].pushed ==> Charged(s, id))
    && (forall i :: 0 <= i < |s.rows| && s.rows[i].reported ==> Charged(s, i + 1))
  }

  /** No two rows of one organisation and metric have windows that start within the same second. */
  ghost predicate SecondsApart(rows: seq<Row>) {
    forall i, j :: 0 <= i < |rows| && 0 <= j < |rows| && SameSecond(rows[i], rows[j]) ==> i == j
  }

  predicate SameSecond(a: Row, b: Row) {
    a.org == b.org && a.metric == b.metric && Unix(a.start) == Unix(b.start)
  }

  lemma ApartBefore(rows: seq<Row>, rows': seq<Row>)
    requires Grows(rows, rows') && SecondsApart(rows')
    ensures SecondsApart(rows)
  {
    forall i, j | 0 <= i < |rows| && 0 <= j < |rows| && SameSecond(rows[i], rows[j])
      ensures i == j
    {
      assert rows'[i].(reported := rows[i].reported) == rows[i] && rows'[j].(reported := rows[j].reported) == rows[j];
      assert SameSecond(rows'[i], rows'[j]);
    }
  }

  /** Then two rows with the same identifier are one row. */
  lemma SameIdentifierSameRow(rows: seq<Row>, i: nat, j: nat)
    requires SecondsApart(rows) && i < |rows| && j < |rows| && RowIdentifier(rows[i]) == RowIdentifier(rows[j])
    ensures i == j
  {
    IdentifierInjective(rows[i].org, rows[i].metric, rows[i].start, rows[j].org, rows[j].metric, rows[j].start);
    assert SameSecond(rows[i], rows[j]);
  }

  /** If the identifier is already taken, it was taken by this very row. */
  lemma TakenByItself(s: State, i: nat, k: string)
    requires SecondsApart(s.rows) && i < |s.rows| && k == RowIdentifier(s.rows[i])
    ensures forall j :: IsChargeOf(s, j, k) ==> j == i
  {
    forall j | IsChargeOf(s, j, k)
      ensures j == i
    {
      SameIdentifierSameRow(s.rows, i, j);
    }
  }

  lemma TakenIsCharged(s: State, id: nat, k: string)
    requires StripeOk(s) && 1 <= id <= |s.rows| && k in s.stripe
    requires forall j :: IsChargeOf(s, j, k) ==> j == id - 1
    ensures Charged(s, id)
  {
    var j :| IsChargeOf(s, j, k);
  }

  lemma AcceptAdds(stripe: map<string, Charge>, r: Row, k: string)
    requires k == RowIdentifier(r)
    ensures k in Accept(stripe, r)
    ensures k in stripe ==> Accept(stripe, r) == stripe
    ensures k !in stripe ==> Accept(stripe, r)[k] == ChargeOf(r)
  {
  }

  lemma PushCharges(s: State, r: Row)
    requires SecondsApart(s.rows) && StripeOk(s) && IsRow(s.rows, r)
    ensures Charged(s.(stripe := Accept(s.stripe, r)), r.id)
  {
    SnapshotMatches(s.rows, r);
    TakenByItself(s, r.id - 1, RowIdentifier(r));
    ChargedAfter(s, r, RowIdentifier(r));
  }

  lemma ChargedAfter(s: State, r: Row, k: string)
    requires StripeOk(s) && 1 <= r.id <= |s.rows| && k == RowIdentifier(r)
    requires RowIdentifier(s.rows[r.id - 1]) == k && ChargeOf(s.rows[r.id - 1]) == ChargeOf(r)
    requires forall j :: IsChargeOf(s, j, k) ==> j == r.id - 1
    ensures Charged(s.(stripe := Accept(s.stripe, r)), r.id)
  {
    AcceptAdds(s.stripe, r, k);
    if k in s.stripe {
      TakenIsCharged(s, r.id, k);
    } else {
      ChargedIntro(s.(stripe := Accept(s.stripe, r)), r.id, k);
    }
  }

  lemma ChargedIntro(s: State, id: nat, k: string)
    requires 1 <= id <= |s.rows| && k == RowIdentifier(s.rows[id - 1])
    requires k in s.stripe && s.stripe[k] == ChargeOf(s.rows[id - 1])
    ensures Charged(s, id)
  {
  }

  /** A charge is never taken back or replaced. */
  lemma ChargedStays(s: State, st: Step, id: nat)
    requires Charged(s, id)
    ensures Charged(Apply(s, st), id)
  {
    StepGrows(s, st);
    assert Apply(s, st).rows[id - 1].(reported := s.rows[id - 1].reported) == s.rows[id - 1];
  }

  lemma PushedStep(s: State, st: Step, w: nat, id: nat)
    requires Inv(s) && SecondsApart(s.rows) && Settled(s)
    requires w in Apply(s, st).flushes && id in Apply(s, st).flushes[w].pushed
    ensures Charged(Apply(s, st), id)
  {
    if w in s.flushes && id in s.flushes[w].pushed {
      ChargedStays(s, st, id);
    } else {
      var r := s.flushes[w].todo[0];
      assert IsRow(s.rows, r);
      PushCharges(s, r);
    }
  }

  /** A row becomes reported only by the mark of a flush that pushed it. */
  lemma NewlyReported(s: State, st: Step, i: nat)
    requires RowsOk(s.rows) && i < |Apply(s, st).rows| && Apply(s, st).rows[i].reported
    requires i >= |s.rows| || !s.rows[i].reported
    ensures i < |s.rows| && st.FinishFlush? && st.w in s.flushes && i + 1 in s.flushes[st.w].pushed
  {
  }

  lemma ReportedStep(s: State, st: Step, i: nat)
    requires Inv(s) && Settled(s) && i < |Apply(s, st).rows| && Apply(s, st).rows[i].reported
    ensures Charged(Apply(s, st), i + 1)
  {
    if i >= |s.rows| || !s.rows[i].reported {
      NewlyReported(s, st, i);
    }
    assert Charged(s, i + 1);
    ChargedStays(s, st, i + 1);
  }

  lemma SettledStep(s: State, st: Step)
    requires Inv(s) && SecondsApart(s.rows) && Settled(s)
    ensures Settled(Apply(s, st))
  {
    var s' := Apply(s, st);
    forall w, id | w in s'.flushes && id in s'.flushes[w].pushed
      ensures Charged(s', id)
    {
      PushedStep(s, st, w, id);
    }
    forall i | 0 <= i < |s'.rows| && s'.rows[i].reported
      ensures Charged(s', i + 1)
    {
      ReportedStep(s, st, i);
    }
  }

  lemma {:induction false} SettledRun(s: State, steps: seq<Step>)
    requires Inv(s) && Settled(s) && SecondsApart(Exec(s, steps).rows)
    ensures Settled(Exec(s, steps))
    decreases |steps|
  {
    if steps != [] {
      ExecKeepsInv(s, steps);
      ApartBefore(s.rows, Exec(s, steps).rows);
      StepKeepsInv(s, steps[0]);
      SettledStep(s, steps[0]);
      SettledRun(Apply(s, steps[0]), steps[1..]);
    }
  }

  ghost predicate ReportedAreCharged(s: State) {
    forall i :: 0 <= i < |s.rows| && s.rows[i].reported ==> Charged(s, i + 1)
  }

  /** In every run with windows in different seconds, a row marked reported has been charged with its own quantity. */
  lemma ReportedIsCharged(steps: seq<Step>)
    requires SecondsApart(Exec(Init(), steps).rows)
    ensures ReportedAreCharged(Exec(Init(), steps))
  {
    SettledRun(Init(), steps);
  }

  // ---- ... and without that, some row is reported and never charged ----

  lemma SharedIdentifier(a: Row, b: Row)
    requires SameSecond(a, b)
    ensures RowIdentifier(a) == RowIdentifier(b)
  {
  }

  /** Of two windows of one organisation and metric that start within the same second at most one is ever charged. */
  lemma SameSecondLosesOne(s: State, i: nat, j: nat)
    requires Inv(s) && i < j < |s.rows| && SameSecond(s.rows[i], s.rows[j])
    ensures !(Charged(s, i + 1) && Charged(s, j + 1))
  {
    SharedIdentifier(s.rows[i], s.rows[j]);
    assert !SameWindow(s.rows[i], s.rows[j]);
  }

  predicate NoCollect(steps: seq<Step>) {
    forall i :: 0 <= i < |steps| ==> !steps[i].Collect?
  }

  lemma {:induction false} RowsStay(s: State, steps: seq<Step>)
    requires NoCollect(steps)
    ensures |Exec(s, steps).rows| == |s.rows|
    decreases |steps|
  {
    if steps != [] {
      RowsStay(Apply(s, steps[0]), steps[1..]);
    }
  }

  /** The rows still to be reported, by position. */
  function Open(rows: seq<Row>): set<nat> {
    set i: nat | i < |rows| && !rows[i].reported
  }

  lemma {:induction false} UnreportedHas(rows: seq<Row>, i: nat)
    requires i < |rows| && !rows[i].reported
    ensures Unreported(rows) != []
  {
    if i < |rows| - 1 {
      UnreportedHas(rows[..|rows| - 1], i);
    }
  }

  lemma {:induction false} UnreportedAreOpen(rows: seq<Row>)
    ensures forall r :: r in Unreported(rows) ==> r in rows && !r.reported
  {
    if rows != [] {
      UnreportedAreOpen(rows[..|rows| - 1]);
    }
  }

  /** A number above all flush numbers in use. */
  lemma {:induction false} FreshNumber(used: set<nat>) returns (w: nat)
    ensures forall x :: x in used ==> x < w
    decreases used
  {
    w := 0;
    if used != {} {
      var x :| x in used;
      var above := FreshNumber(used - {x});
      w := if above <= x then x + 1 else above;
      assert used == (used - {x}) + {x};
    }
  }

  /** Every push of the flush succeeds. */
  lemma {:induction false} PushAll(s: State, w: nat) returns (steps: seq<Step>)
    requires w in s.flushes
    ensures NoCollect(steps) && Exec(s, steps).rows == s.rows && w in Exec(s, steps).flushes
    ensures var f := Exec(s, steps).flushes[w];
      f.todo == [] && s.flushes[w].pushed <= f.pushed && forall r :: r in s.flushes[w].todo ==> r.id in f.pushed
    decreases |s.flushes[w].todo|
  {
    if s.flushes[w].todo == [] {
      return [];
    }
    var f, st := s.flushes[w], PushNext(w, Accepted);
    assert f.todo == [f.todo[0]] + f.todo[1..];
    var rest := PushAll(Apply(s, st), w);
    steps := [st] + rest;
    assert steps[1..] == rest;
  }

  /** One flush in which everything succeeds. */
  lemma FlushAll(s: State) returns (steps: seq<Step>, ids: set<nat>)
    requires Inv(s)
    ensures NoCollect(steps) && Exec(s, steps).rows == Mark(s.rows, ids)
    ensures forall r :: r in Pending(s.rows, 500) ==> r.id in ids
  {
    var w := FreshNumber(s.flushes.Keys);
    var s1 := Apply(s, BeginFlush(w));
    var pushes := PushAll(s1, w);
    ids := Exec(s1, pushes).flushes[w].pushed;
    steps := [BeginFlush(w)] + (pushes + [FinishFlush(w, true)]);
    assert steps[1..] == pushes + [FinishFlush(w, true)];
    ExecSnoc(s1, pushes, FinishFlush(w, true));
  }

  /** Some open row is in the next batch. */
  lemma FirstOpen(rows: seq<Row>) returns (i: nat)
    requires Open(rows) != {}
    ensures i < |rows| && !rows[i].reported && rows[i] in Pending(rows, 500)
  {
    var some :| some in Open(rows);
    UnreportedHas(rows, some);
    UnreportedAreOpen(rows);
    var r := Pending(rows, 500)[0];
    assert r in Unreported(rows);
    i :| 0 <= i < |rows| && rows[i] == r;
  }

  /** The first pending row at least is reported by it. */
  lemma FlushReports(s: State) returns (steps: seq<Step>)
    requires Inv(s) && Open(s.rows) != {}
    ensures NoCollect(steps) && |Open(Exec(s, steps).rows)| < |Open(s.rows)|
  {
    var ids;
    steps, ids := FlushAll(s);
    var i := FirstOpen(s.rows);
    MarkCloses(s.rows, ids, i);
  }

  lemma MarkCloses(rows: seq<Row>, ids: set<nat>, i: nat)
    requires i < |rows| && !rows[i].reported && rows[i].id in ids
    ensures |Open(Mark(rows, ids))| < |Open(rows)|
  {
    assert Open(Mark(rows, ids)) <= Open(rows) - {i};
    SmallerSet(Open(Mark(rows, ids)), Open(rows), i);
  }

  lemma {:induction false} SmallerSet(a: set<nat>, b: set<nat>, x: nat)
    requires a <= b - {x} && x in b
    ensures |a| < |b|
    decreases a
  {
    if a != {} {
      var y :| y in a;
      SmallerSet(a - {y}, b - {y}, x);
    }
  }

  /** Flushes alone can report every row. */
  lemma {:induction false} ReportAll(s: State) returns (steps: seq<Step>)
    requires Inv(s)
    ensures NoCollect(steps) && Open(Exec(s, steps).rows) == {}
    decreases |Open(s.rows)|
  {
    if Open(s.rows) == {} {
      return [];
    }
    var first := FlushReports(s);
    ExecKeepsInv(s, first);
    var rest := ReportAll(Exec(s, first));
    steps := first + rest;
    ExecConcat(s, first, rest);
  }

  /**
    From any state that a run reaches: however the flushes go on, every row marked reported has been charged with its
    own quantity, if and only if no two rows of one organisation and metric start within the same second.
   */
  lemma ReportedIsChargedIff(steps: seq<Step>)
    ensures var s := Exec(Init(), steps);
      (forall later :: NoCollect(later) ==> ReportedAreCharged(Exec(s, later))) <==> SecondsApart(s.rows)
  {
    var s := Exec(Init(), steps);
    ExecKeepsInv(Init(), steps);
    if SecondsApart(s.rows) {
      SettledRun(Init(), steps);
      forall later | NoCollect(later)
        ensures ReportedAreCharged(Exec(s, later))
      {
        ApartStays(s, later);
        SettledRun(s, later);
      }
    } else {
      var i, j :| 0 <= i < j < |s.rows| && SameSecond(s.rows[i], s.rows[j]);
      var later := ReportAll(s);
      OneIsLost(s, later, i, j);
    }
  }

  lemma ApartStays(s: State, later: seq<Step>)
    requires Inv(s) && SecondsApart(s.rows) && NoCollect(later)
    ensures SecondsApart(Exec(s, later).rows)
  {
    ExecKeepsInv(s, later);
    RowsStay(s, later);
    var rows' := Exec(s, later).rows;
    forall i, j | 0 <= i < |rows'| && 0 <= j < |rows'| && SameSecond(rows'[i], rows'[j])
      ensures i == j
    {
      assert rows'[i].(reported := s.rows[i].reported) == s.rows[i];
      assert rows'[j].(reported := s.rows[j].reported) == s.rows[j];
      assert SameSecond(s.rows[i], s.rows[j]);
    }
  }

  lemma OneIsLost(s: State, later: seq<Step>, i: nat, j: nat)
    requires Inv(s) && i < j < |s.rows| && SameSecond(s.rows[i], s.rows[j])
    requires NoCollect(later) && Open(Exec(s, later).rows) == {}
    ensures !ReportedAreCharged(Exec(s, later))
  {
    ExecKeepsInv(s, later);
    var s' := Exec(s, later);
    assert s'.rows[i].(reported := s.rows[i].reported) == s.rows[i];
    assert s'.rows[j].(reported := s.rows[j].reported) == s.rows[j];
    assert SameSecond(s'.rows[i], s'.rows[j]);
    SameSecondLosesOne(s', i, j);
    assert i !in Open(s'.rows) && j !in Open(s'.rows);
  }

  // ---- A run that loses a window ----

  /** The rows of two windows that start half a second apart. */
  function FirstHalf(reported: bool): Row {
    Row(1, "o", Requests, 5, 0, NANOS, reported)
  }

  function SecondHalf(reported: bool): Row {
    Row(2, "o", Requests, 7, 500_000_000, 2 * NANOS, reported)
  }

  lemma BothCollected() returns (steps: seq<Step>)
    ensures Exec(Init(), steps) == State([FirstHalf(false), SecondHalf(false)], map[], map[])
  {
    var first := Collect("o", Requests, 5, 0, NANOS);
    var second := Collect("o", Requests, 7, 500_000_000, 2 * NANOS);
    steps := [first, second];
    var s1 := State([FirstHalf(false)], map[], map[]);
    assert Apply(Init(), first) == s1;
    assert Apply(s1, second) == State([FirstHalf(false), SecondHalf(false)], map[], map[]);
    assert steps[1..] == [second] && [second][1..] == [];
    assert Exec(s1, [second]) == Exec(Apply(s1, second), []);
  }

  /** Both pushes are accepted and both rows marked, yet the second window's quantity is charged nowhere. */
  lemma SameSecondRun() returns (steps: seq<Step>)
    ensures var s := Exec(Init(), steps);
      && s.rows == [FirstHalf(true), SecondHalf(true)] && s.flushes == map[]
      && Charged(s, 1) && !Charged(s, 2) && |s.stripe| == 1
  {
    var collected := BothCollected();
    var s := Exec(Init(), collected);
    var flush := [BeginFlush(0), PushNext(0, Accepted), PushNext(0, Accepted), FinishFlush(0, true)];
    steps := collected + flush;
    ExecConcat(Init(), collected, flush);
    var k := RowIdentifier(FirstHalf(false));
    SharedIdentifier(FirstHalf(false), SecondHalf(false));
    var rows, stripe := s.rows, map[k := ChargeOf(FirstHalf(false))];
    BothPending();
    var s1, s2 := Flushing(rows, rows, {}, map[]), Flushing(rows, [SecondHalf(false)], {1}, stripe);
    var s3 := Flushing(rows, [], {1, 2}, stripe);
    assert Apply(s, flush[0]) == s1;
    OnePush(rows, rows, {}, map[], Accepted);
    assert Charging(map[], rows[0], Accepted) == stripe && {} + {rows[0].id} == {1};
    assert rows[1..] == [SecondHalf(false)] && Apply(s1, flush[1]) == s2;
    OnePush(rows, [SecondHalf(false)], {1}, stripe, Accepted);
    assert Charging(stripe, rows[1], Accepted) == stripe && {1} + {rows[1].id} == {1, 2};
    assert Apply(s2, flush[2]) == s3;
    assert Apply(s3, flush[3]) == State([FirstHalf(true), SecondHalf(true)], map[], stripe);
    FourSteps(s, flush);
  }

  lemma BothPending()
    ensures Pending([FirstHalf(false), SecondHalf(false)], 500) == [FirstHalf(false), SecondHalf(false)]
  {
    var rows := [FirstHalf(false), SecondHalf(false)];
    assert rows[..1] == [FirstHalf(false)] && rows[..1][..0] == [];
    assert Unreported(rows[..1]) == [FirstHalf(false)];
  }

  lemma FourSteps(s: State, flush: seq<Step>)
    requires |flush| == 4
    ensures Exec(s, flush) == Apply(Apply(Apply(Apply(s, flush[0]), flush[1]), flush[2]), flush[3])
  {
    assert flush == [] + [flush[0]] + [flush[1]] + [flush[2]] + [flush[3]];
    ExecSnoc(s, [], flush[0]);
    ExecSnoc(s, [flush[0]], flush[1]);
    ExecSnoc(s, [flush[0]] + [flush[1]], flush[2]);
    ExecSnoc(s, [flush[0]] + [flush[1]] + [flush[2]], flush[3]);
    assert [] + [flush[0]] == [flush[0]];
  }
}
