/** The collect and flush loops of the billing service, as runs of the metering steps. */
module BillingService {
  import opened MeterIdentifier
  import opened Metering
  import opened MeteringLoop
  import opened UsageSeries
  import opened UsageTotals

  /** The steps of one collection: both metrics of the organisation, with the usage recorded so far. */
  function CollectSteps(records: seq<UsageRecord>, org: string, start: int, end: int): seq<Step> {
    [CollectStep(records, Window(org, Bandwidth, start), end), CollectStep(records, Window(org, Requests, start), end)]
  }

  /** How many of the steps are done when the store fails as told: an error ends the collection at that metric. */
  function Done(steps: seq<Step>, errors: seq<bool>): (n: nat)
    requires |errors| == |steps| && forall st :: st in steps ==> st.Collect?
    ensures n <= |steps| && (n < |steps| ==> errors[n] && steps[n].quantity > 0)
    ensures forall i :: 0 <= i < n ==> !(errors[i] && steps[i].quantity > 0)
  {
    if steps == [] || (errors[0] && steps[0].quantity > 0) then 0 else 1 + Done(steps[1..], errors[1..])
  }

  predicate Errors(errors: seq<seq<bool>>, n: nat) {
    |errors| == n && forall e :: e in errors ==> |e| == 2
  }

  predicate NoErrors(errors: seq<seq<bool>>) {
    forall i :: 0 <= i < |errors| ==> true !in errors[i]
  }

  /** The collection of one organisation, up to its first error. */
  function CollectOne(
      s: State, records: seq<UsageRecord>, org: string, start: int, end: int, errors: seq<bool>): State
    requires |errors| == 2
  {
    var steps := CollectSteps(records, org, start, end);
    Exec(s, steps[..Done(steps, errors)])
  }

  /** The state after the collections of the first `i` organisations, each up to its first error. */
  function Collected(
      s: State, records: seq<UsageRecord>, orgs: seq<string>, start: int, end: int, errors: seq<seq<bool>>, i: nat
    ): State
    requires Errors(errors, |orgs|) && i <= |orgs|
  {
    if i == 0 then s
    else
      var before := Collected(s, records, orgs, start, end, errors, i - 1);
      CollectOne(before, records, orgs[i - 1], start, end, errors[i - 1])
  }

  /** The steps of one flush, given how each push ends. */
  function Pushes(outcomes: seq<Push>): seq<Step> {
    seq(|outcomes|, i requires 0 <= i < |outcomes| => PushNext(0, outcomes[i]))
  }

  function FlushSteps(outcomes: seq<Push>, marked: bool): seq<Step> {
    [BeginFlush(0)] + Pushes(outcomes) + [FinishFlush(0, marked)]
  }

  /** There is a row for the window. */
  predicate HasWindow(rows: seq<Row>, org: string, metric: Metric, start: int) {
    exists i :: 0 <= i < |rows| && rows[i].org == org && rows[i].metric == metric && rows[i].start == start
  }

  /** An insert that goes through adds the row; one that does not found it there. */
  lemma WindowStays(before: seq<Row>, rows: seq<Row>, row: Row, inserted: bool)
    requires inserted == Insert(before, row).Some?
    requires rows == if inserted then Insert(before, row).value else before
    ensures HasWindow(rows, row.org, row.metric, row.start)
    ensures forall org, metric, start :: HasWindow(before, org, metric, start) ==> HasWindow(rows, org, metric, start)
    ensures |before| <= |rows| && rows[..|before|] == before
    ensures |rows| == |before| + (if inserted then 1 else 0)
    ensures inserted ==> rows[|before|] == row.(id := |rows|)
  {
    if inserted {
      assert rows[|before|] == row.(id := |rows|);
    } else {
      var i :| 0 <= i < |before| && SameWindow(before[i], row);
    }
    forall org, metric, start | HasWindow(before, org, metric, start)
      ensures HasWindow(rows, org, metric, start)
    {
      var i :| 0 <= i < |before| && before[i].org == org && before[i].metric == metric && before[i].start == start;
      assert rows[i] == before[i];
    }
  }

  class Service {
    const store: MeterStore
    var stripe: map<string, Charge>

    ghost function View(): State
      reads this, store
    {
      State(store.rows, map[], stripe)
    }

    constructor ()
      ensures store.Valid() && fresh(store) && View() == Init()
    {
      store := new MeterStore();
      stripe := map[];
    }

    /** One row, unless its window has one already. */
    method InsertWindow(org: string, metric: Metric, quantity: int, start: int, end: int) returns (inserted: bool)
      requires store.Valid() && quantity > 0
      modifies store
      ensures store.Valid() && View() == Apply(old(View()), Collect(org, metric, quantity, start, end))
      ensures HasWindow(store.rows, org, metric, start)
      ensures forall m :: HasWindow(old(store.rows), org, m, start) ==> HasWindow(store.rows, org, m, start)
      ensures |store.rows| == |old(store.rows)| + (if inserted then 1 else 0)
      ensures store.rows[..|old(store.rows)|] == old(store.rows)
      ensures inserted ==>
        store.rows[|old(store.rows)|] == Row(|store.rows|, org, metric, quantity, start, end, false)
    {
      var row := Row(0, org, metric, quantity, start, end, false);
      inserted := store.InsertMeteredUsage(row);
      WindowStays(old(store.rows), store.rows, row, inserted);
    }

    /**
      Collects both metrics of one organisation from what UsageForOrg reports at that moment; `errors` tells at which of
      them the store fails, which ends the collection.
     */
    method CollectForOrg(usage: UsageStore, org: string, start: int, end: int, errors: seq<bool>)
      returns (created: int, ok: bool)
      requires store.Valid() && |errors| == 2
      modifies store
      ensures store.Valid() && 0 <= created == |store.rows| - |old(store.rows)|
      ensures View() == CollectOne(old(View()), usage.records, org, start, end, errors)
      ensures ok <==> Done(CollectSteps(usage.records, org, start, end), errors) == 2
      ensures true !in errors ==> ok
      // the rows there were stay, and the new ones hold the sums over the organisation's records
      ensures |old(store.rows)| <= |store.rows| && store.rows[..|old(store.rows)|] == old(store.rows)
      ensures forall i :: |old(store.rows)| <= i < |store.rows| ==> var r := store.rows[i];
        && r.org == org && r.start == start && r.end == end && !r.reported
        && r.quantity == (match r.metric
                          case Bandwidth => BytesIn(usage.records, org, start) + BytesOut(usage.records, org, start)
                          case Requests => RequestCount(usage.records, org, start))
      ensures true !in errors && BytesIn(usage.records, org, start) + BytesOut(usage.records, org, start) > 0 ==>
        HasWindow(store.rows, org, Bandwidth, start)
      ensures true !in errors && RequestCount(usage.records, org, start) > 0 ==>
        HasWindow(store.rows, org, Requests, start)
    {
      created := 0;
      var total := usage.UsageForOrg(org, start);
      var todo := [(Bandwidth, total.bytesIn + total.bytesOut), (Requests, total.requests)];
      ghost var steps := CollectSteps(usage.records, org, start, end);
      for i := 0 to 2
        invariant i <= Done(steps, errors) && 0 <= created
        invariant store.Valid() && View() == Exec(old(View()), steps[..i])
        invariant created == |store.rows| - |old(store.rows)|
        invariant |old(store.rows)| <= |store.rows| && store.rows[..|old(store.rows)|] == old(store.rows)
        invariant forall j :: |old(store.rows)| <= j < |store.rows| ==> var r := store.rows[j];
          && r.org == org && r.start == start && r.end == end && !r.reported
          && r.quantity == (if r.metric == Bandwidth then todo[0].1 else todo[1].1)
        invariant 0 < i && todo[0].1 > 0 ==> HasWindow(store.rows, org, Bandwidth, start)
        invariant 1 < i && todo[1].1 > 0 ==> HasWindow(store.rows, org, Requests, start)
      {
        assert steps[..i + 1] == steps[..i] + [steps[i]];
        ExecSnoc(old(View()), steps[..i], steps[i]);
        if todo[i].1 <= 0 {
          continue;
        }
        if errors[i] {
          return created, false;
        }
        var inserted := InsertWindow(org, todo[i].0, todo[i].1, start, end);
        if inserted {
          created := created + 1;
        }
      }
      return created, true;
    }

    /** One tick's collection over all pay-as-you-go organisations; rows made before an error are not counted. */
    method CollectMeteredUsage(usage: UsageStore, orgs: seq<string>, start: int, end: int, errors: seq<seq<bool>>)
      returns (created: int)
      requires store.Valid() && Errors(errors, |orgs|)
      modifies store
      ensures store.Valid() && View() == Collected(old(View()), usage.records, orgs, start, end, errors, |orgs|)
      ensures created <= |store.rows| - |old(store.rows)|
      ensures NoErrors(errors) ==> created == |store.rows| - |old(store.rows)|
    {
      created := 0;
      for i := 0 to |orgs|
        invariant store.Valid()
        invariant View() == Collected(old(View()), usage.records, orgs, start, end, errors, i)
        invariant created <= |store.rows| - |old(store.rows)|
        invariant NoErrors(errors) ==> created == |store.rows| - |old(store.rows)|
      {
        var n, ok := CollectForOrg(usage, orgs[i], start, end, errors[i]);
        if ok {
          created := created + n;
        }
      }
    }

    /** CreateMeterEvent against a Stripe that honours the idempotency key; `ok` is what the caller sees. */
    method CreateMeterEvent(r: Row, outcome: Push) returns (ok: bool)
      modifies this`stripe
      ensures ok <==> outcome == Accepted
      ensures stripe == Charging(old(stripe), r, outcome)
    {
      if outcome == Accepted || outcome == AcceptedReplyLost {
        if RowIdentifier(r) !in stripe {
          stripe := stripe[RowIdentifier(r) := ChargeOf(r)];
        }
      }
      ok := outcome == Accepted;
    }

    /** One whole flush is exactly its begin, push and finish steps. */
    method FlushMeteredUsage(outcomes: seq<Push>, marked: bool)
      requires store.Valid() && |outcomes| == |Pending(store.rows, 500)|
      modifies this`stripe, store
      ensures store.Valid() && View() == Exec(old(View()), FlushSteps(outcomes, marked))
    {
      var pending := store.PendingMeteredUsage(500);
      var reported: set<nat> := {};
      ghost var begin := [BeginFlush(0)];
      ExecSnoc(View(), [], BeginFlush(0));
      assert [] + begin == begin;
      for i := 0 to |pending|
        invariant store.rows == old(store.rows) && store.Valid()
        invariant Exec(old(View()), begin + Pushes(outcomes[..i])) ==
          Flushing(store.rows, pending[i..], reported, stripe)
      {
        assert begin + Pushes(outcomes[..i + 1]) == begin + Pushes(outcomes[..i]) + [PushNext(0, outcomes[i])];
        ExecSnoc(old(View()), begin + Pushes(outcomes[..i]), PushNext(0, outcomes[i]));
        OnePush(store.rows, pending[i..], reported, stripe, outcomes[i]);
        var ok := CreateMeterEvent(pending[i], outcomes[i]);
        if ok {
          reported := reported + {pending[i].id};
        }
      }
      assert outcomes[..|pending|] == outcomes;
      ExecSnoc(old(View()), begin + Pushes(outcomes), FinishFlush(0, marked));
      FinishOne(store.rows, reported, stripe, marked);
      MarkNothing(store.rows);
      if reported != {} {
        if marked {
          store.MarkReported(reported);
        }
      }
    }
  }

  /** Ten bytes in, ninety out and one request, collected: the rows are for 100 bytes and for one request. */
  method CollectsBothDirections(org: string) returns (bandwidth: int, requests: int)
    ensures bandwidth == 100 && requests == 1
  {
    var usage := new UsageStore();
    usage.UpsertUsage(UsageRecord(org, 7, Usage(10, 90, 1)));
    var service := new Service();
    var created, ok := service.CollectForOrg(usage, org, 7, 9, [false, false]);
    OneRecord(UsageRecord(org, 7, Usage(10, 90, 1)), org, 7);
    var rows := service.store.rows;
    var i :| 0 <= i < |rows| && rows[i].org == org && rows[i].metric == Bandwidth && rows[i].start == 7;
    var j :| 0 <= j < |rows| && rows[j].org == org && rows[j].metric == Requests && rows[j].start == 7;
    bandwidth, requests := rows[i].quantity, rows[j].quantity;
  }

  lemma OneRecord(u: UsageRecord, org: string, start: int)
    requires u.org == org && u.end >= start
    ensures BytesIn([] + [u], org, start) == u.usage.bytesIn && BytesOut([] + [u], org, start) == u.usage.bytesOut
    ensures RequestCount([] + [u], org, start) == u.usage.requests
  {
    assert ([] + [u])[..0] == [];
  }
}
