/**
  Metered billing: usage rows are collected once per window and pushed to Stripe under an idempotency key. Any
  number of collectors and flushers work at once, and a push or a mark may fail at any point. One step is one
  store operation or one call to Stripe.
 */
module Metering {
  import opened MeterIdentifier
  import opened Wrappers

  /** A metered_usage row; times are nanoseconds. */
  datatype Row = Row(id: nat, org: string, metric: Metric, quantity: int, start: int, end: int, reported: bool)

  predicate SameWindow(a: Row, b: Row) {
    a.org == b.org && a.metric == b.metric && a.start == b.start
  }

  function RowIdentifier(r: Row): string {
    Identifier(r.org, r.metric, r.start)
  }

  // ---- The store ----

  /** InsertMeteredUsage; `None` is ErrConflict. */
  function Insert(rows: seq<Row>, r: Row): Option<seq<Row>> {
    if exists i :: 0 <= i < |rows| && SameWindow(rows[i], r) then None
    else Some(rows + [r.(id := |rows| + 1)])
  }

  /** The rows not yet reported, oldest first. */
  function Unreported(rows: seq<Row>): seq<Row> {
    if rows == [] then []
    else
      var n := |rows| - 1;
      Unreported(rows[..n]) + (if rows[n].reported then [] else [rows[n]])
  }

  /** PendingMeteredUsage: the first `limit` of them; a limit of 0 or less means all. */
  function Pending(rows: seq<Row>, limit: int): seq<Row> {
    var all := Unreported(rows);
    if 0 < limit < |all| then all[..limit] else all
  }

  function Mark(rows: seq<Row>, ids: set<nat>): seq<Row> {
    seq(|rows|, i requires 0 <= i < |rows| => if rows[i].id in ids then rows[i].(reported := true) else rows[i])
  }

  class MeterStore {
    var rows: seq<Row>
    var seqNo: nat

    ghost predicate Valid()
      reads this
    {
      seqNo == |rows|
    }

    constructor ()
      ensures Valid() && rows == []
    {
      rows, seqNo := [], 0;
    }

    /** Inserts unless a row of the same organisation, metric and window start exists. */
    method InsertMeteredUsage(r: Row) returns (ok: bool)
      requires Valid()
      modifies this
      ensures Valid()
      ensures ok == Insert(old(rows), r).Some?
      ensures rows == if ok then Insert(old(rows), r).value else old(rows)
    {
      for i := 0 to |rows|
        invariant forall j :: 0 <= j < i ==> !SameWindow(rows[j], r)
        invariant rows == old(rows) && Valid()
      {
        if rows[i].org == r.org && rows[i].metric == r.metric && rows[i].start == r.start {
          return false;
        }
      }
      seqNo := seqNo + 1;
      rows := rows + [r.(id := seqNo)];
      return true;
    }

    method PendingMeteredUsage(limit: int) returns (out: seq<Row>)
      ensures out == Pending(rows, limit)
    {
      out := [];
      for i := 0 to |rows|
        invariant out == Unreported(rows[..i])
        invariant 0 < limit ==> |out| < limit
      {
        assert rows[..i + 1][..i] == rows[..i];
        if !rows[i].reported {
          out := out + [rows[i]];
          if limit > 0 && |out| >= limit {
            UnreportedPrefix(rows, i + 1);
            return;
          }
        }
      }
      assert rows[..|rows|] == rows;
    }

    method MarkReported(ids: set<nat>)
      requires Valid()
      modifies this`rows
      ensures Valid() && rows == Mark(old(rows), ids)
    {
      for i := 0 to |rows|
        invariant |rows| == |old(rows)| && Valid()
        invariant forall j :: 0 <= j < |rows| ==> rows[j] == if j < i then Mark(old(rows), ids)[j] else old(rows)[j]
      {
        if rows[i].id in ids {
          rows := rows[i := rows[i].(reported := true)];
        }
      }
    }
  }

  lemma {:induction false} UnreportedPrefix(rows: seq<Row>, k: nat)
    requires k <= |rows|
    ensures Unreported(rows[..k]) <= Unreported(rows)
    decreases |rows| - k
  {
    if k == |rows| {
      assert rows[..k] == rows;
    } else {
      assert rows[..k + 1][..k] == rows[..k];
      UnreportedPrefix(rows, k + 1);
    }
  }

  // ---- The pipeline ----

  /** A flush in progress: rows of its snapshot still to push, and ids pushed so far. */
  datatype Flush = Flush(todo: seq<Row>, pushed: set<nat>)

  /** What a meter event charged. */
  datatype Charge = Charge(org: string, metric: Metric, start: int, quantity: int)

  /** `stripe` holds the first event accepted under each identifier: later ones are ignored. */
  datatype State = State(rows: seq<Row>, flushes: map<nat, Flush>, stripe: map<string, Charge>)

  function Init(): State {
    State([], map[], map[])
  }

  datatype Push = Accepted | AcceptedReplyLost | Rejected | Skipped

  datatype Step =
    | Collect(org: string, metric: Metric, quantity: int, start: int, end: int)
    | BeginFlush(w: nat)
    | PushNext(w: nat, outcome: Push)
    | FinishFlush(w: nat, marked: bool)

  function ChargeOf(r: Row): Charge {
    Charge(r.org, r.metric, r.start, r.quantity)
  }

  function Accept(stripe: map<string, Charge>, r: Row): map<string, Charge> {
    if RowIdentifier(r) in stripe then stripe else stripe[RowIdentifier(r) := ChargeOf(r)]
  }

  function ApplyPush(s: State, w: nat, outcome: Push): State
    requires w in s.flushes && s.flushes[w].todo != []
  {
    var f, r := s.flushes[w], s.flushes[w].todo[0];
    var f' := Flush(f.todo[1..], if outcome == Accepted then f.pushed + {r.id} else f.pushed);
    s.(flushes := s.flushes[w := f'],
       stripe := if outcome == Accepted || outcome == AcceptedReplyLost then Accept(s.stripe, r) else s.stripe)
  }

  /** A step that does not apply leaves the state alone. */
  function Apply(s: State, st: Step): State {
    match st
    case Collect(org, metric, quantity, start, end) =>
      var inserted := Insert(s.rows, Row(0, org, metric, quantity, start, end, false));
      if quantity <= 0 || inserted.None? then s else s.(rows := inserted.value)
    case BeginFlush(w) => if w in s.flushes then s else s.(flushes := s.flushes[w := Flush(Pending(s.rows, 500), {})])
    case PushNext(w, outcome) => if w in s.flushes && s.flushes[w].todo != [] then ApplyPush(s, w, outcome) else s
    case FinishFlush(w, marked) =>
      if w in s.flushes && s.flushes[w].todo == []
      then s.(flushes := s.flushes - {w}, rows := if marked then Mark(s.rows, s.flushes[w].pushed) else s.rows)
      else s
  }

  function Exec(s: State, steps: seq<Step>): State
    decreases |steps|
  {
    if steps == [] then s else Exec(Apply(s, steps[0]), steps[1..])
  }

  lemma {:induction false} ExecConcat(s: State, a: seq<Step>, b: seq<Step>)
    ensures Exec(s, a + b) == Exec(Exec(s, a), b)
    decreases |a|
  {
    if a == [] {
      assert a + b == b;
    } else {
      assert (a + b)[1..] == a[1..] + b;
      ExecConcat(Apply(s, a[0]), a[1..], b);
    }
  }

  lemma ExecSnoc(s: State, steps: seq<Step>, st: Step)
    ensures Exec(s, steps + [st]) == Apply(Exec(s, steps), st)
  {
    ExecConcat(s, steps, [st]);
    assert [st][1..] == [];
  }

  /** One flush under way, with what it still has to push. */
  function Flushing(rows: seq<Row>, todo: seq<Row>, pushed: set<nat>, stripe: map<string, Charge>): State {
    State(rows, map[0 := Flush(todo, pushed)], stripe)
  }

  function Charging(stripe: map<string, Charge>, r: Row, outcome: Push): map<string, Charge> {
    if outcome == Accepted || outcome == AcceptedReplyLost then Accept(stripe, r) else stripe
  }

  lemma OnePush(rows: seq<Row>, todo: seq<Row>, pushed: set<nat>, stripe: map<string, Charge>, outcome: Push)
    requires todo != []
    ensures Apply(Flushing(rows, todo, pushed, stripe), PushNext(0, outcome)) ==
      Flushing(rows, todo[1..], if outcome == Accepted then pushed + {todo[0].id} else pushed,
               Charging(stripe, todo[0], outcome))
  {
    var f := Flush(todo[1..], if outcome == Accepted then pushed + {todo[0].id} else pushed);
    assert map[0 := Flush(todo, pushed)][0 := f] == map[0 := f];
  }

  /**
    How a push may end: accepted, its reply seen or lost, it is charged unless its identifier has been; only an accepted
    push whose reply was seen will be marked; a rejected or skipped one changes nothing but the queue.
   */
  lemma PushMeans(s: State, w: nat, outcome: Push)
    requires w in s.flushes && s.flushes[w].todo != []
    ensures var f, r := s.flushes[w], s.flushes[w].todo[0]; var s' := Apply(s, PushNext(w, outcome));
      var charge := outcome == Accepted || outcome == AcceptedReplyLost;
      && s'.rows == s.rows
      && s'.flushes == s.flushes[w := Flush(f.todo[1..], if outcome == Accepted then f.pushed + {r.id} else f.pushed)]
      && s'.stripe == (if charge && RowIdentifier(r) !in s.stripe
                       then s.stripe[RowIdentifier(r) := Charge(r.org, r.metric, r.start, r.quantity)] else s.stripe)
  {
  }

  /** A flush whose mark fails leaves every row as it was. */
  lemma FailedMarkMeans(s: State, w: nat)
    requires w in s.flushes && s.flushes[w].todo == []
    ensures Apply(s, FinishFlush(w, false)) == s.(flushes := s.flushes - {w})
  {
  }

  lemma FinishOne(rows: seq<Row>, pushed: set<nat>, stripe: map<string, Charge>, marked: bool)
    ensures Apply(Flushing(rows, [], pushed, stripe), FinishFlush(0, marked)) ==
      State(if marked then Mark(rows, pushed) else rows, map[], stripe)
  {
    assert map[0 := Flush([], pushed)] - {0} == map[];
  }

  lemma MarkNothing(rows: seq<Row>)
    ensures Mark(rows, {}) == rows
  {
  }

  /** The row has this id, and everything but its reported flag is as in `r`. */
  predicate IsRow(rows: seq<Row>, r: Row) {
    1 <= r.id <= |rows| && rows[r.id - 1].(reported := r.reported) == r
  }

  ghost predicate RowsOk(rows: seq<Row>) {
    && (forall i :: 0 <= i < |rows| ==> rows[i].id == i + 1)
    && (forall i, j :: 0 <= i < |rows| && 0 <= j < |rows| && SameWindow(rows[i], rows[j]) ==> i == j)
  }

  ghost predicate FlushOk(rows: seq<Row>, f: Flush) {
    && (forall i :: 0 <= i < |f.todo| ==> IsRow(rows, f.todo[i]))
    && (forall id :: id in f.pushed ==> 1 <= id <= |rows|)
  }

  /** Every accepted charge is that of one row, under that row's identifier and with that row's quantity. */
  ghost predicate StripeOk(s: State) {
    forall k :: k in s.stripe ==> exists i :: IsChargeOf(s, i, k)
  }

  predicate IsChargeOf(s: State, i: int, k: string) {
    && k in s.stripe && 0 <= i < |s.rows|
    && ChargeOf(s.rows[i]) == s.stripe[k] && RowIdentifier(s.rows[i]) == k
  }

  ghost predicate Inv(s: State) {
    RowsOk(s.rows) && (forall w :: w in s.flushes ==> FlushOk(s.rows, s.flushes[w])) && StripeOk(s)
  }

  /** Rows are only ever appended, and nothing but the reported flag changes. */
  ghost predicate Grows(rows: seq<Row>, rows': seq<Row>) {
    |rows| <= |rows'| && forall i :: 0 <= i < |rows| ==> rows'[i].(reported := rows[i].reported) == rows[i]
  }

  lemma StepGrows(s: State, st: Step)
    ensures Grows(s.rows, Apply(s, st).rows)
  {
  }

  lemma {:induction false} UnreportedAreRows(rows: seq<Row>, all: seq<Row>)
    requires RowsOk(all) && rows <= all
    ensures forall i :: 0 <= i < |Unreported(rows)| ==> IsRow(all, Unreported(rows)[i])
  {
    if rows != [] {
      UnreportedAreRows(rows[..|rows| - 1], all);
    }
  }

  lemma RowsStep(s: State, st: Step)
    requires RowsOk(s.rows)
    ensures RowsOk(Apply(s, st).rows)
  {
    if st.FinishFlush? && st.w in s.flushes {
      var rows' := Mark(s.rows, s.flushes[st.w].pushed);
      assert forall i :: 0 <= i < |s.rows| ==> rows'[i].id == s.rows[i].id && SameWindow(rows'[i], s.rows[i]);
    }
  }

  lemma FlushGrows(rows: seq<Row>, rows': seq<Row>, f: Flush)
    requires Grows(rows, rows') && FlushOk(rows, f)
    ensures FlushOk(rows', f)
  {
  }

  lemma FlushesStep(s: State, st: Step, w: nat)
    requires Inv(s) && w in Apply(s, st).flushes
    ensures FlushOk(Apply(s, st).rows, Apply(s, st).flushes[w])
  {
    StepGrows(s, st);
    if w in s.flushes {
      FlushGrows(s.rows, Apply(s, st).rows, s.flushes[w]);
    } else {
      UnreportedAreRows(s.rows, s.rows);
    }
  }

  lemma ChargesGrow(s: State, rows': seq<Row>)
    requires StripeOk(s) && Grows(s.rows, rows')
    ensures StripeOk(s.(rows := rows'))
  {
    forall k | k in s.stripe
      ensures exists i :: IsChargeOf(s.(rows := rows'), i, k)
    {
      var i :| IsChargeOf(s, i, k);
      assert rows'[i].(reported := s.rows[i].reported) == s.rows[i];
      assert IsChargeOf(s.(rows := rows'), i, k);
    }
  }

  lemma SnapshotMatches(rows: seq<Row>, r: Row)
    requires IsRow(rows, r)
    ensures RowIdentifier(rows[r.id - 1]) == RowIdentifier(r) && ChargeOf(rows[r.id - 1]) == ChargeOf(r)
  {
    var x := rows[r.id - 1];
    assert x.org == r.org && x.metric == r.metric && x.start == r.start && x.quantity == r.quantity;
  }

  lemma AcceptKeepsStripe(s: State, r: Row)
    requires StripeOk(s) && IsRow(s.rows, r)
    ensures StripeOk(s.(stripe := Accept(s.stripe, r)))
  {
    var s' := s.(stripe := Accept(s.stripe, r));
    SnapshotMatches(s.rows, r);
    forall k | k in s'.stripe
      ensures exists i :: IsChargeOf(s', i, k)
    {
      if k in s.stripe {
        var i :| IsChargeOf(s, i, k);
        assert IsChargeOf(s', i, k);
      } else {
        assert IsChargeOf(s', r.id - 1, k);
      }
    }
  }

  lemma StripeStep(s: State, st: Step)
    requires Inv(s)
    ensures StripeOk(Apply(s, st))
  {
    if st.PushNext? {
      if st.w in s.flushes && s.flushes[st.w].todo != [] {
        var r := s.flushes[st.w].todo[0];
        assert IsRow(s.rows, r);
        AcceptKeepsStripe(s, r);
        SameStripe(s.(stripe := Apply(s, st).stripe), Apply(s, st));
      }
    } else {
      StepGrows(s, st);
      ChargesGrow(s, Apply(s, st).rows);
      SameStripe(s.(rows := Apply(s, st).rows), Apply(s, st));
    }
  }

  lemma SameStripe(s: State, s': State)
    requires StripeOk(s) && s'.rows == s.rows && s'.stripe == s.stripe
    ensures StripeOk(s')
  {
    forall k | k in s'.stripe
      ensures exists i :: IsChargeOf(s', i, k)
    {
      var i :| IsChargeOf(s, i, k);
      assert IsChargeOf(s', i, k);
    }
  }

  lemma StepKeepsInv(s: State, st: Step)
    requires Inv(s)
    ensures Inv(Apply(s, st))
  {
    RowsStep(s, st);
    StripeStep(s, st);
    forall w | w in Apply(s, st).flushes
      ensures FlushOk(Apply(s, st).rows, Apply(s, st).flushes[w])
    {
      FlushesStep(s, st, w);
    }
  }

  lemma {:induction false} ExecKeepsInv(s: State, steps: seq<Step>)
    requires Inv(s)
    ensures Inv(Exec(s, steps)) && Grows(s.rows, Exec(s, steps).rows)
    decreases |steps|
  {
    if steps != [] {
      StepKeepsInv(s, steps[0]);
      StepGrows(s, steps[0]);
      var s1 := Apply(s, steps[0]);
      ExecKeepsInv(s1, steps[1..]);
      GrowsTransitive(s.rows, s1.rows, Exec(s1, steps[1..]).rows);
    }
  }

  lemma GrowsTransitive(a: seq<Row>, b: seq<Row>, c: seq<Row>)
    requires Grows(a, b) && Grows(b, c)
    ensures Grows(a, c)
  {
    forall i | 0 <= i < |a|
      ensures c[i].(reported := a[i].reported) == a[i]
    {
      assert b[i].(reported := a[i].reported) == a[i] && c[i].(reported := b[i].reported) == b[i];
    }
  }

  /**
    In every run, whatever failed and was retried: one organisation, metric and window start is charged under at
    most one identifier, and with the quantity that its row had when it was first collected.
   */
  lemma ChargedAtMostOnce(steps: seq<Step>, later: seq<Step>, i: nat, k: string, k': string)
    requires i < |Exec(Init(), steps).rows|
    requires var s := Exec(Exec(Init(), steps), later);
      k in s.stripe && k' in s.stripe && ForRow(s.stripe[k], Exec(Init(), steps).rows[i])
      && ForRow(s.stripe[k'], Exec(Init(), steps).rows[i])
    ensures k == k'
    ensures Exec(Exec(Init(), steps), later).stripe[k] == ChargeOf(Exec(Init(), steps).rows[i])
  {
    var first := Exec(Init(), steps);
    ExecKeepsInv(Init(), steps);
    ExecKeepsInv(first, later);
    ChargeIsRows(first, Exec(first, later), i, k);
    ChargeIsRows(first, Exec(first, later), i, k');
  }

  /** A window once collected stays as it was first collected: collecting it again does nothing. */
  lemma RecollectIsIdle(steps: seq<Step>, later: seq<Step>, i: nat, again: Step)
    requires i < |Exec(Init(), steps).rows| && again.Collect?
    requires var r := Exec(Init(), steps).rows[i];
      again.org == r.org && again.metric == r.metric && again.start == r.start
    ensures var s := Exec(Exec(Init(), steps), later); Apply(s, again) == s
  {
    var first := Exec(Init(), steps);
    ExecKeepsInv(Init(), steps);
    ExecKeepsInv(first, later);
    var s := Exec(first, later);
    assert s.rows[i].(reported := first.rows[i].reported) == first.rows[i];
    var r := Row(0, again.org, again.metric, again.quantity, again.start, again.end, false);
    assert SameWindow(s.rows[i], r);
  }

  predicate ForRow(c: Charge, r: Row) {
    c.org == r.org && c.metric == r.metric && c.start == r.start
  }

  lemma ChargeIsRows(s: State, s': State, i: nat, k: string)
    requires Inv(s') && Grows(s.rows, s'.rows) && i < |s.rows| && k in s'.stripe && ForRow(s'.stripe[k], s.rows[i])
    ensures s'.stripe[k] == ChargeOf(s.rows[i]) && k == RowIdentifier(s.rows[i])
  {
    var j :| IsChargeOf(s', j, k);
    assert s'.rows[i].(reported := s.rows[i].reported) == s.rows[i];
    assert SameWindow(s'.rows[i], s'.rows[j]);
  }
}
