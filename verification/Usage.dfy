/** Traffic totals, aggregated per account and tunnel on the edge and per organisation in the store. */
module UsageTotals {

  datatype Usage = Usage(bytesIn: int, bytesOut: int, requests: int)

  const ZERO := Usage(0, 0, 0)

  function Add(a: Usage, b: Usage): Usage {
    Usage(a.bytesIn + b.bytesIn, a.bytesOut + b.bytesOut, a.requests + b.requests)
  }
}

/**
  The edge's usage aggregator. Ingress goroutines record while the flusher takes the whole window map under the
  lock and then reports its entries one by one without it.
 */
module UsageAggregator {
  import opened UsageTotals

  datatype Key = Key(account: string, tunnel: string)

  function At(m: map<Key, Usage>, k: Key): Usage {
    if k in m then m[k] else ZERO
  }

  function Bump(m: map<Key, Usage>, k: Key, u: Usage): map<Key, Usage> {
    m[k := Add(At(m, k), u)]
  }

  /** `pending` is what a flush has taken and not yet dealt with; `handed` and `recorded` are running totals. */
  datatype State = State(
    windows: map<Key, Usage>, pending: map<Key, Usage>, handed: map<Key, Usage>, recorded: map<Key, Usage>)

  datatype Step =
    | Record(account: string, tunnel: string, u: Usage)
    | TakeWindows
    | HandOver(k: Key)

  function Init(): State {
    State(map[], map[], map[], map[])
  }

  /** There is one flusher, so a new flush starts only when the last one is done; other steps do not apply. */
  function Apply(s: State, st: Step): State {
    match st
    case Record(account, tunnel, u) =>
      var k := Key(account, tunnel);
      if account == "" then s
      else s.(windows := Bump(s.windows, k, u), recorded := Bump(s.recorded, k, u))
    case TakeWindows => if s.pending == map[] then s.(windows := map[], pending := s.windows) else s
    case HandOver(k) =>
      if k !in s.pending then s
      else s.(pending := s.pending - {k},
              handed := if s.pending[k] == ZERO then s.handed else Bump(s.handed, k, s.pending[k]))
  }

  function Exec(s: State, steps: seq<Step>): State
    decreases |steps|
  {
    if steps == [] then s else Exec(Apply(s, steps[0]), steps[1..])
  }

  /** What was recorded is handed over, being handed over by a flush under way, or still in a window. */
  predicate ConservedAt(s: State, k: Key) {
    var r, h, p, w := At(s.recorded, k), At(s.handed, k), At(s.pending, k), At(s.windows, k);
    && r.bytesIn == h.bytesIn + p.bytesIn + w.bytesIn
    && r.bytesOut == h.bytesOut + p.bytesOut + w.bytesOut
    && r.requests == h.requests + p.requests + w.requests
  }

  /** `sum` is `a` and `b` added up. */
  predicate IsSum(sum: Usage, a: Usage, b: Usage) {
    && sum.bytesIn == a.bytesIn + b.bytesIn
    && sum.bytesOut == a.bytesOut + b.bytesOut
    && sum.requests == a.requests + b.requests
  }

  lemma BumpAt(m: map<Key, Usage>, k: Key, u: Usage, x: Key)
    ensures if x == k then IsSum(At(Bump(m, k, u), x), At(m, k), u) else At(Bump(m, k, u), x) == At(m, x)
  {
  }

  lemma BumpPoints(m: map<Key, Usage>, k: Key, u: Usage, x: Key)
    ensures At(Bump(m, k, u), x) == if x == k then Add(At(m, k), u) else At(m, x)
  {
  }

  lemma RecordConserves(s: State, account: string, tunnel: string, u: Usage, k: Key)
    requires ConservedAt(s, k)
    ensures ConservedAt(Apply(s, Record(account, tunnel, u)), k)
  {
    BumpAt(s.windows, Key(account, tunnel), u, k);
    BumpAt(s.recorded, Key(account, tunnel), u, k);
  }

  lemma HandOverOther(s: State, x: Key, k: Key)
    requires x in s.pending && x != k
    ensures var s' := Apply(s, HandOver(x));
      At(s'.pending, k) == At(s.pending, k) && At(s'.handed, k) == At(s.handed, k)
  {
  }

  lemma HandOverSame(s: State, k: Key)
    requires k in s.pending
    ensures var s' := Apply(s, HandOver(k));
      At(s'.pending, k) == ZERO && IsSum(At(s'.handed, k), At(s.handed, k), At(s.pending, k))
  {
    BumpAt(s.handed, k, s.pending[k], k);
  }

  lemma HandOverConserves(s: State, x: Key, k: Key)
    requires ConservedAt(s, k)
    ensures ConservedAt(Apply(s, HandOver(x)), k)
  {
    if x in s.pending {
      if x == k {
        HandOverSame(s, k);
      } else {
        HandOverOther(s, x, k);
      }
    }
  }

  lemma StepConserves(s: State, st: Step, k: Key)
    requires ConservedAt(s, k)
    ensures ConservedAt(Apply(s, st), k)
  {
    if st.Record? {
      RecordConserves(s, st.account, st.tunnel, st.u, k);
    } else if st.HandOver? {
      HandOverConserves(s, st.k, k);
    }
  }

  /** Whatever holds at the start and is kept by every step holds after any run. */
  lemma {:induction false} RunInduction(p: State -> bool, s: State, steps: seq<Step>)
    requires p(s) && forall s, st :: p(s) ==> p(Apply(s, st))
    ensures p(Exec(s, steps))
    decreases |steps|
  {
    if steps != [] {
      RunInduction(p, Apply(s, steps[0]), steps[1..]);
    }
  }

  /** Usage is conserved per account and tunnel, in every interleaving of recording and flushing. */
  lemma UsageIsConserved(steps: seq<Step>, k: Key)
    ensures ConservedAt(Exec(Init(), steps), k)
  {
    var p := s => ConservedAt(s, k);
    forall s, st | p(s)
      ensures p(Apply(s, st))
    {
      StepConserves(s, st, k);
    }
    RunInduction(p, Init(), steps);
  }

  /** A flush that is let finish hands over, per account and tunnel, exactly what the windows held. */
  lemma FlushCompletes(s: State) returns (steps: seq<Step>)
    requires s.pending == map[]
    ensures var t := Exec(s, steps);
      && t.windows == map[] && t.pending == map[] && t.recorded == s.recorded
      && forall k :: IsSum(At(t.handed, k), At(s.handed, k), At(s.windows, k))
  {
    var s1 := Apply(s, TakeWindows);
    var rest := HandOverAll(s1);
    steps := [TakeWindows] + rest;
    assert steps[1..] == rest;
  }

  lemma {:induction false} HandOverAll(s: State) returns (steps: seq<Step>)
    ensures var t := Exec(s, steps);
      && t.windows == s.windows && t.pending == map[] && t.recorded == s.recorded
      && forall k :: IsSum(At(t.handed, k), At(s.handed, k), At(s.pending, k))
    decreases |s.pending.Keys|
  {
    if s.pending == map[] {
      return [];
    }
    var x :| x in s.pending;
    var s1 := Apply(s, HandOver(x));
    assert s1.pending.Keys == s.pending.Keys - {x};
    var rest := HandOverAll(s1);
    steps := [HandOver(x)] + rest;
    assert steps[1..] == rest;
    var t := Exec(s, steps);
    forall k
      ensures IsSum(At(t.handed, k), At(s.handed, k), At(s.pending, k))
    {
      if k == x {
        HandOverSame(s, x);
      } else {
        HandOverOther(s, x, k);
      }
    }
  }

  class Aggregator {
    var windows: map<Key, Usage>
    var handed: map<Key, Usage>  // totals passed to ReportUsage

    constructor ()
      ensures windows == map[] && handed == map[]
    {
      windows, handed := map[], map[];
    }

    method RecordTraffic(account: string, tunnel: string, u: Usage)
      modifies this`windows
      ensures windows == if account == "" then old(windows) else Bump(old(windows), Key(account, tunnel), u)
    {
      if account == "" {
        return;
      }
      var k := Key(account, tunnel);
      var w := if k in windows then windows[k] else ZERO;
      windows := windows[k := Usage(w.bytesIn + u.bytesIn, w.bytesOut + u.bytesOut, w.requests + u.requests)];
    }

    /** A flush on its own empties the windows and hands over exactly what they held. */
    method Flush()
      modifies this
      ensures windows == map[]
      ensures forall k :: At(handed, k) == Add(At(old(handed), k), At(old(windows), k))
    {
      var pending := windows;
      windows := map[];
      var left := pending.Keys;
      while left != {}
        invariant left <= pending.Keys && windows == map[] && pending == old(windows)
        invariant forall k :: k in left ==> At(handed, k) == At(old(handed), k)
        invariant forall k :: k !in left ==> At(handed, k) == Add(At(old(handed), k), At(pending, k))
        decreases |left|
      {
        var k :| k in left;
        left := left - {k};
        var w := pending[k];
        if w.bytesIn == 0 && w.bytesOut == 0 && w.requests == 0 {
          continue;
        }
        ghost var before := handed;
        handed := Bump(handed, k, w);
        forall x
          ensures At(handed, x) == if x == k then Add(At(before, k), w) else At(before, x)
        {
          BumpPoints(before, k, w, x);
        }
      }
    }
  }
}

/** The store's usage queries: the total since a time, and the same usage as a series of hour or day buckets. */
module UsageSeries {
  import opened UsageTotals

  /** A usage record; times are nanoseconds since the epoch, UTC. */
  datatype UsageRecord = UsageRecord(org: string, end: int, usage: Usage)

  datatype Bucket = Bucket(start: int, usage: Usage)

  const HOUR := 3_600_000_000_000
  const DAY := 24 * HOUR

  function Unit(hourly: bool): int {
    if hourly then HOUR else DAY
  }

  /** truncateTo: the start of the hour or day that contains `t`. */
  function TruncateTo(t: int, hourly: bool): (r: int)
    ensures r <= t < r + Unit(hourly) && r % Unit(hourly) == 0
  {
    if hourly then t - t % HOUR else t - t % DAY
  }

  predicate Counts(u: UsageRecord, org: string, since: int) {
    u.org == org && since <= u.end
  }

  /** UsageForOrg as a sum over the records. */
  function Total(records: seq<UsageRecord>, org: string, since: int): Usage {
    if records == [] then ZERO
    else
      var n := |records| - 1;
      var t := Total(records[..n], org, since);
      if Counts(records[n], org, since) then Add(t, records[n].usage) else t
  }

  /** The bytes in, the bytes out and the requests of an organisation's records that end at or after a time. */
  function BytesIn(records: seq<UsageRecord>, org: string, since: int): int {
    if records == [] then 0
    else
      var u := records[|records| - 1];
      BytesIn(records[..|records| - 1], org, since) + (if u.org == org && u.end >= since then u.usage.bytesIn else 0)
  }

  function BytesOut(records: seq<UsageRecord>, org: string, since: int): int {
    if records == [] then 0
    else
      var u := records[|records| - 1];
      BytesOut(records[..|records| - 1], org, since) + (if u.org == org && u.end >= since then u.usage.bytesOut else 0)
  }

  function RequestCount(records: seq<UsageRecord>, org: string, since: int): int {
    if records == [] then 0
    else
      var u := records[|records| - 1];
      RequestCount(records[..|records| - 1], org, since) +
      (if u.org == org && u.end >= since then u.usage.requests else 0)
  }

  /** The total is the sum of each count by itself. */
  lemma {:induction false} TotalIsSums(records: seq<UsageRecord>, org: string, since: int)
    ensures Total(records, org, since).bytesIn == BytesIn(records, org, since)
    ensures Total(records, org, since).bytesOut == BytesOut(records, org, since)
    ensures Total(records, org, since).requests == RequestCount(records, org, since)
  {
    if records != [] {
      TotalIsSums(records[..|records| - 1], org, since);
    }
  }

  /** What falls into the bucket that starts at `start`. */
  function BucketTotal(records: seq<UsageRecord>, org: string, since: int, hourly: bool, start: int): Usage {
    if records == [] then ZERO
    else
      var n := |records| - 1;
      var t := BucketTotal(records[..n], org, since, hourly, start);
      if Counts(records[n], org, since) && TruncateTo(records[n].end, hourly) == start
      then Add(t, records[n].usage) else t
  }

  function Sum(buckets: seq<Bucket>): Usage {
    if buckets == [] then ZERO else Add(buckets[0].usage, Sum(buckets[1..]))
  }

  ghost predicate Increasing(buckets: seq<Bucket>) {
    forall i, j :: 0 <= i < j < |buckets| ==> buckets[i].start < buckets[j].start
  }

  /** Insertion by start, the step of the final sort. */
  function InsertByStart(b: Bucket, s: seq<Bucket>): (r: seq<Bucket>)
    requires Increasing(s) && forall x :: x in s ==> x.start != b.start
    ensures Increasing(r)
    ensures forall x :: x in r <==> x == b || x in s
  {
    if s == [] then [b]
    else if b.start < s[0].start then [b] + s
    else
      assert s == [s[0]] + s[1..];
      var t := InsertByStart(b, s[1..]);
      assert forall i :: 0 <= i < |t| ==> s[0].start < t[i].start by {
        forall i | 0 <= i < |t| ensures s[0].start < t[i].start { assert t[i] in t; }
      }
      [s[0]] + t
  }

  /** The starts that occur among the counted records. */
  function Keys(records: seq<UsageRecord>, org: string, since: int, hourly: bool): set<int> {
    set u | u in records && Counts(u, org, since) :: TruncateTo(u.end, hourly)
  }

  // ---- The buckets add up to the total ----

  function SumOver(records: seq<UsageRecord>, org: string, since: int, hourly: bool, starts: seq<int>): Usage {
    if starts == [] then ZERO
    else Add(BucketTotal(records, org, since, hourly, starts[0]), SumOver(records, org, since, hourly, starts[1..]))
  }

  ghost predicate DistinctStarts(starts: seq<int>) {
    forall i, j :: 0 <= i < j < |starts| ==> starts[i] != starts[j]
  }

  /** One more record adds its usage to exactly one of the buckets. */
  lemma {:induction false} SumOverSnoc(
      records: seq<UsageRecord>, u: UsageRecord, org: string, since: int, hourly: bool, starts: seq<int>)
    requires DistinctStarts(starts)
    ensures SumOver(records + [u], org, since, hourly, starts) ==
      if Counts(u, org, since) && TruncateTo(u.end, hourly) in starts
      then Add(SumOver(records, org, since, hourly, starts), u.usage)
      else SumOver(records, org, since, hourly, starts)
    decreases |starts|
  {
    if starts != [] {
      assert starts == [starts[0]] + starts[1..];
      assert (records + [u])[..|records|] == records;
      SumOverSnoc(records, u, org, since, hourly, starts[1..]);
    }
  }

  lemma {:induction false} EmptyBuckets(org: string, since: int, hourly: bool, starts: seq<int>)
    ensures SumOver([], org, since, hourly, starts) == ZERO
    decreases |starts|
  {
    if starts != [] {
      EmptyBuckets(org, since, hourly, starts[1..]);
    }
  }

  lemma {:induction false} BucketsAddUp(
      records: seq<UsageRecord>, org: string, since: int, hourly: bool, starts: seq<int>)
    requires DistinctStarts(starts)
    requires forall u :: u in records && Counts(u, org, since) ==> TruncateTo(u.end, hourly) in starts
    ensures SumOver(records, org, since, hourly, starts) == Total(records, org, since)
    decreases |records|
  {
    if records == [] {
      EmptyBuckets(org, since, hourly, starts);
    } else {
      var n := |records| - 1;
      BucketsAddUp(records[..n], org, since, hourly, starts);
      SumOverSnoc(records[..n], records[n], org, since, hourly, starts);
      assert records[..n] + [records[n]] == records;
    }
  }

  function StartSeq(buckets: seq<Bucket>): seq<int> {
    seq(|buckets|, i requires 0 <= i < |buckets| => buckets[i].start)
  }

  lemma {:induction false} SumIsSumOver(
      buckets: seq<Bucket>, records: seq<UsageRecord>, org: string, since: int, hourly: bool)
    requires forall b :: b in buckets ==> b.usage == BucketTotal(records, org, since, hourly, b.start)
    ensures Sum(buckets) == SumOver(records, org, since, hourly, StartSeq(buckets))
    decreases |buckets|
  {
    if buckets != [] {
      assert StartSeq(buckets)[1..] == StartSeq(buckets[1..]);
      SumIsSumOver(buckets[1..], records, org, since, hourly);
    }
  }

  lemma SeriesSum(buckets: seq<Bucket>, records: seq<UsageRecord>, org: string, since: int, hourly: bool)
    requires Increasing(buckets)
    requires forall b :: b in buckets ==> b.usage == BucketTotal(records, org, since, hourly, b.start)
    requires forall u :: u in records && Counts(u, org, since) ==>
      exists b :: b in buckets && b.start == TruncateTo(u.end, hourly)
    ensures Sum(buckets) == Total(records, org, since)
  {
    SumIsSumOver(buckets, records, org, since, hourly);
    forall u | u in records && Counts(u, org, since)
      ensures TruncateTo(u.end, hourly) in StartSeq(buckets)
    {
      var b :| b in buckets && b.start == TruncateTo(u.end, hourly);
      var i :| 0 <= i < |buckets| && buckets[i] == b;
      assert StartSeq(buckets)[i] == b.start;
    }
    BucketsAddUp(records, org, since, hourly, StartSeq(buckets));
  }

  function Max(a: int, b: int): int {
    if a < b then b else a
  }

  /** A bucket holds what ends from its start, or the given time if that is later, up to its end. */
  lemma {:induction false} BucketMeans(records: seq<UsageRecord>, org: string, since: int, hourly: bool, start: int)
    requires start % Unit(hourly) == 0
    ensures var b := BucketTotal(records, org, since, hourly, start);
      var from, to := Max(since, start), Max(since, start + (if hourly then 3600 else 86400) * 1_000_000_000);
      && b.bytesIn == BytesIn(records, org, from) - BytesIn(records, org, to)
      && b.bytesOut == BytesOut(records, org, from) - BytesOut(records, org, to)
      && b.requests == RequestCount(records, org, from) - RequestCount(records, org, to)
  {
    if records != [] {
      BucketMeans(records[..|records| - 1], org, since, hourly, start);
      InBucket(records[|records| - 1].end, hourly, start);
    }
  }

  lemma InHour(t: int, p: int)
    ensures t - t % HOUR == HOUR * p <==> HOUR * p <= t < HOUR * p + HOUR
  {
    var q := t / HOUR;
    assert t - t % HOUR == HOUR * q;
    assert HOUR * q == HOUR * p <==> q == p;
  }

  lemma InDay(t: int, p: int)
    ensures t - t % DAY == DAY * p <==> DAY * p <= t < DAY * p + DAY
  {
    var q := t / DAY;
    assert t - t % DAY == DAY * q;
    assert DAY * q == DAY * p <==> q == p;
  }

  lemma InBucket(t: int, hourly: bool, start: int)
    requires start % Unit(hourly) == 0
    ensures TruncateTo(t, hourly) == start <==> start <= t < start + Unit(hourly)
  {
    if hourly {
      InHour(t, start / HOUR);
      assert start == HOUR * (start / HOUR);
    } else {
      InDay(t, start / DAY);
      assert start == DAY * (start / DAY);
    }
  }

  class UsageStore {
    var records: seq<UsageRecord>

    constructor ()
      ensures records == []
    {
      records := [];
    }

    method UpsertUsage(u: UsageRecord)
      modifies this
      ensures records == old(records) + [u]
    {
      records := records + [u];
    }

    method UsageForOrg(org: string, since: int) returns (total: Usage)
      ensures total == Total(records, org, since)
      ensures total.bytesIn == BytesIn(records, org, since) && total.bytesOut == BytesOut(records, org, since)
      ensures total.requests == RequestCount(records, org, since)
    {
      TotalIsSums(records, org, since);
      total := ZERO;
      for i := 0 to |records|
        invariant total == Total(records[..i], org, since)
      {
        assert records[..i + 1][..i] == records[..i];
        var u := records[i];
        if u.org == org && u.end >= since {
          total := Usage(total.bytesIn + u.usage.bytesIn, total.bytesOut + u.usage.bytesOut,
                         total.requests + u.usage.requests);
        }
      }
      assert records[..|records|] == records;
    }

    /** Accumulates each counted record into the bucket of its hour or day. */
    method Gather(org: string, since: int, hourly: bool) returns (m: map<int, Usage>)
      ensures m.Keys == Keys(records, org, since, hourly)
      ensures forall k :: k in m ==> m[k] == BucketTotal(records, org, since, hourly, k)
    {
      m := map[];
      for i := 0 to |records|
        invariant m.Keys == Keys(records[..i], org, since, hourly)
        invariant forall k :: BucketTotal(records[..i], org, since, hourly, k) == if k in m then m[k] else ZERO
      {
        ghost var before := m;
        assert records[..i + 1][..i] == records[..i] && records[..i + 1] == records[..i] + [records[i]];
        KeysSnoc(records[..i], records[i], org, since, hourly);
        var u := records[i];
        if u.org != org || u.end < since {
          continue;
        }
        var key := TruncateTo(u.end, hourly);
        var b := if key in m then m[key] else ZERO;
        m := m[key := Add(b, u.usage)];
        assert m.Keys == before.Keys + {key};
      }
      assert records[..|records|] == records;
    }

    /**
      One bucket per hour or day with usage, in strictly increasing order, each holding what falls into it, and
      all of them together exactly what UsageForOrg reports.
     */
    method UsageSeriesForOrg(org: string, since: int, hourly: bool) returns (out: seq<Bucket>)
      ensures Increasing(out)
      ensures forall b :: b in out ==> b.usage == BucketTotal(records, org, since, hourly, b.start)
      ensures forall b :: b in out ==> b.start in Keys(records, org, since, hourly)
      ensures Sum(out) == Total(records, org, since)
    {
      var m := Gather(org, since, hourly);
      out := [];
      var left := m.Keys;
      while left != {}
        invariant left <= m.Keys && Increasing(out)
        invariant forall b :: b in out ==> b.start in m.Keys - left && b.usage == m[b.start]
        invariant forall k :: k in m.Keys - left ==> Bucket(k, m[k]) in out
        decreases |left|
      {
        var k :| k in left;
        out := InsertByStart(Bucket(k, m[k]), out);
        left := left - {k};
      }
      forall u | u in records && Counts(u, org, since)
        ensures exists b :: b in out && b.start == TruncateTo(u.end, hourly)
      {
        var k := TruncateTo(u.end, hourly);
        assert k in m.Keys;
        assert Bucket(k, m[k]) in out;
      }
      SeriesSum(out, records, org, since, hourly);
    }
  }

  lemma KeysSnoc(records: seq<UsageRecord>, u: UsageRecord, org: string, since: int, hourly: bool)
    ensures Keys(records + [u], org, since, hourly) ==
      Keys(records, org, since, hourly) + (if Counts(u, org, since) then {TruncateTo(u.end, hourly)} else {})
  {
    var all := records + [u];
    forall k | k in Keys(records, org, since, hourly)
      ensures k in Keys(all, org, since, hourly)
    {
      var x :| x in records && Counts(x, org, since) && TruncateTo(x.end, hourly) == k;
      assert x in all;
    }
    assert u in all;
  }
}
