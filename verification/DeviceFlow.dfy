/** User codes as generated and as typed. Characters are taken as ASCII. */
module UserCodes {
  predicate IsSpace(c: char) {
    c == ' ' || '\t' <= c <= '\r'
  }

  function UpperChar(c: char): char {
    if 'a' <= c <= 'z' then (c as int - 32) as char else c
  }

  function TrimLeft(s: string): string {
    if s != [] && IsSpace(s[0]) then TrimLeft(s[1..]) else s
  }

  function TrimRight(s: string): string {
    if s != [] && IsSpace(s[|s| - 1]) then TrimRight(s[..|s| - 1]) else s
  }

  function Upper(s: string): string {
    seq(|s|, i requires 0 <= i < |s| => UpperChar(s[i]))
  }

  /** The in-process store's reading of a typed code. */
  function Normalize(s: string): string {
    Upper(TrimRight(TrimLeft(s)))
  }

  predicate AllSpace(s: string) {
    forall i :: 0 <= i < |s| ==> IsSpace(s[i])
  }

  lemma {:induction false} TrimLeftMeans(pad: string, s: string)
    requires AllSpace(pad) && (s == "" || !IsSpace(s[0]))
    ensures TrimLeft(pad + s) == s
    decreases |pad|
  {
    if pad == "" {
      assert pad + s == s;
    } else {
      assert (pad + s)[1..] == pad[1..] + s;
      TrimLeftMeans(pad[1..], s);
    }
  }

  lemma {:induction false} TrimRightMeans(s: string, pad: string)
    requires AllSpace(pad) && (s == "" || !IsSpace(s[|s| - 1]))
    ensures TrimRight(s + pad) == s
    decreases |pad|
  {
    if pad == "" {
      assert s + pad == s;
    } else {
      assert (s + pad)[..|s + pad| - 1] == s + pad[..|pad| - 1];
      TrimRightMeans(s, pad[..|pad| - 1]);
    }
  }

  /** The space around a code is dropped, that within it kept, and small letters become capital ones. */
  lemma NormalizeMeans(before: string, s: string, after: string)
    requires AllSpace(before) && AllSpace(after) && s != "" && !IsSpace(s[0]) && !IsSpace(s[|s| - 1])
    ensures var r := Normalize(before + s + after);
      && |r| == |s|
      && (forall i :: 0 <= i < |s| && 'a' <= s[i] <= 'z' ==>
            'A' <= r[i] <= 'Z' && r[i] as int - 'A' as int == s[i] as int - 'a' as int)
      && forall i :: 0 <= i < |s| && !('a' <= s[i] <= 'z') ==> r[i] == s[i]
  {
    assert before + s + after == before + (s + after);
    assert (s + after)[0] == s[0];
    TrimLeftMeans(before, s + after);
    TrimRightMeans(s, after);
  }

  /** Space, tab, line feed, vertical tab, form feed and carriage return. */
  lemma SpacesAre(c: char)
    ensures IsSpace(c) <==> c as int in {9, 10, 11, 12, 13, 32}
  {
  }

  predicate Canonical(s: string) {
    Normalize(s) == s
  }

  const ALPHABET := "BCDFGHJKLMNPQRSTVWXZ0123456789"

  predicate CodeChar(c: char) {
    !IsSpace(c) && UpperChar(c) == c
  }

  lemma AlphabetIsPlain(i: nat)
    requires i < |ALPHABET|
    ensures CodeChar(ALPHABET[i])
  {
    assert CodeChar('B') && CodeChar('Z') && CodeChar('0');
  }

  /** A generated code reads as itself. */
  method RandUserCode(b: seq<nat>) returns (out: string)
    requires |b| == 8
    ensures |out| == 9 && out[4] == '-' && Canonical(out)
    ensures forall i :: 0 <= i < 9 && i != 4 ==> out[i] == ALPHABET[b[if i < 4 then i else i - 1] % 30]
  {
    out := [];
    for i := 0 to 8
      invariant |out| == (if i <= 4 then i else i + 1) && (i > 4 ==> out[4] == '-')
      invariant forall k :: 0 <= k < |out| && k != 4 ==> out[k] == ALPHABET[b[if k < 4 then k else k - 1] % 30]
      invariant forall k :: 0 <= k < |out| ==> CodeChar(out[k])
    {
      if i == 4 {
        out := out + ['-'];
      }
      AlphabetIsPlain(b[i] % 30);
      out := out + [ALPHABET[b[i] % 30]];
    }
    assert Upper(out) == out;
  }
}

/**
  The device-authorization flow: the in-process store, the Redis store, and a reference that knows only the history of
  the flows. Times are milliseconds on one clock.
 */
module DeviceFlow {
  import opened Wrappers
  import opened UserCodes

  const DEVICE_TTL := 600_000
  const REDIS_TTL := 900_000  // DEVICE_TTL and the safety margin

  datatype Request = Request(device: string, user: string, org: string, key: string, approved: bool, created: int)

  datatype Answer = Handed(key: string) | Pending | Expired | Unknown

  // ---- The in-process store ----

  datatype Mem = Mem(byDevice: map<string, Request>, byUser: map<string, string>)

  function MemCreate(m: Mem, dc: string, uc: string, now: int): Mem {
    Mem(m.byDevice[dc := Request(dc, uc, "", "", false, now)], m.byUser[uc := dc])
  }

  /** The flow that a user code names. */
  function MemFind(m: Mem, uc: string): (dc: Option<string>)
    ensures dc.Some? ==> dc.value in m.byDevice
  {
    if uc in m.byUser && m.byUser[uc] in m.byDevice then Some(m.byUser[uc]) else None
  }

  function Grant(r: Request, org: string, key: string): Request {
    r.(approved := true, org := org, key := key)
  }

  function MemApprove(m: Mem, uc: string, org: string, key: string): Mem {
    var dc := MemFind(m, uc);
    if dc.None? then m
    else m.(byDevice := m.byDevice[dc.value := Grant(m.byDevice[dc.value], org, key)])
  }

  function Verdict(r: Request, now: int): Answer {
    if now - r.created > DEVICE_TTL then Expired else if !r.approved then Pending else Handed(r.key)
  }

  function MemAnswer(m: Mem, dc: string, now: int): Answer {
    if dc !in m.byDevice then Unknown else Verdict(m.byDevice[dc], now)
  }

  predicate Consumes(a: Answer) {
    a.Handed? || a.Expired?
  }

  function MemPoll(m: Mem, dc: string, now: int): Mem {
    if dc in m.byDevice && Consumes(MemAnswer(m, dc, now))
    then Mem(m.byDevice - {dc}, m.byUser - {m.byDevice[dc].user}) else m
  }

  class DeviceStore {
    var byDevice: map<string, Request>
    var byUser: map<string, string>

    ghost function Value(): Mem
      reads this
    {
      Mem(byDevice, byUser)
    }

    constructor ()
      ensures Value() == Mem(map[], map[])
    {
      byDevice, byUser := map[], map[];
    }

    method Create(dc: string, uc: string, now: int)
      modifies this
      ensures Value() == MemCreate(old(Value()), dc, uc, now)
    {
      byDevice := byDevice[dc := Request(dc, uc, "", "", false, now)];
      byUser := byUser[uc := dc];
    }

    method Approve(typed: string, org: string, key: string) returns (ok: bool)
      modifies this
      ensures ok == MemFind(old(Value()), Normalize(typed)).Some?
      ensures Value() == MemApprove(old(Value()), Normalize(typed), org, key)
    {
      var uc := Normalize(typed);
      if uc !in byUser {
        return false;
      }
      var dc := byUser[uc];
      if dc !in byDevice {
        return false;
      }
      byDevice := byDevice[dc := byDevice[dc].(approved := true, org := org, key := key)];
      return true;
    }

    method Poll(dc: string, now: int) returns (a: Answer)
      modifies this
      ensures a == MemAnswer(old(Value()), dc, now) && Value() == MemPoll(old(Value()), dc, now)
    {
      if dc !in byDevice {
        return Unknown;
      }
      var r := byDevice[dc];
      if now - r.created > DEVICE_TTL {
        byDevice := byDevice - {dc};
        byUser := byUser - {r.user};
        return Expired;
      }
      if !r.approved {
        return Pending;
      }
      byDevice := byDevice - {dc};
      byUser := byUser - {r.user};
      return Handed(r.key);
    }
  }

  // ---- The Redis store ----

  /** A Redis key's value and expiry; no expiry for a key that never lapses. */
  datatype Cell<V> = Cell(value: V, expiry: Option<int>)

  predicate Visible<V>(m: map<string, Cell<V>>, k: string, t: int) {
    k in m && (m[k].expiry.Some? ==> t < m[k].expiry.value)
  }

  function Get<V>(m: map<string, Cell<V>>, k: string, t: int): Option<V> {
    if Visible(m, k, t) then Some(m[k].value) else None
  }

  /** SET with KEEPTTL: a key that has lapsed by now comes back without an expiry. */
  function SetKeepTtl<V>(m: map<string, Cell<V>>, k: string, v: V, t: int): map<string, Cell<V>> {
    m[k := Cell(v, if Visible(m, k, t) then m[k].expiry else None)]
  }

  datatype Redis = Redis(code: map<string, Cell<Request>>, user: map<string, Cell<string>>)

  /**
    When the parts of one operation happen, in order. Create stamps the request and then writes it; Approve reads the
    user key, reads the record and writes it back; Poll reads the record, reads the clock and deletes.
   */
  datatype Times = Times(t1: int, t2: int, t3: int)

  function RedisCreate(r: Redis, dc: string, uc: string, t: Times): Redis {
    var e := Some(t.t2 + REDIS_TTL);
    Redis(r.code[dc := Cell(Request(dc, uc, "", "", false, t.t1), e)], r.user[uc := Cell(dc, e)])
  }

  function RedisFind(r: Redis, uc: string, t: Times): Option<Request> {
    var dc := Get(r.user, uc, t.t1);
    if dc.None? then None else Get(r.code, dc.value, t.t2)
  }

  function RedisApprove(r: Redis, uc: string, org: string, key: string, t: Times): Redis {
    var q := RedisFind(r, uc, t);
    if q.None? then r
    else r.(code := SetKeepTtl(r.code, Get(r.user, uc, t.t1).value, Grant(q.value, org, key), t.t3))
  }

  function RedisAnswer(r: Redis, dc: string, t: Times): Answer {
    var q := Get(r.code, dc, t.t1);
    if q.None? then Unknown else Verdict(q.value, t.t2)
  }

  function RedisPoll(r: Redis, dc: string, t: Times): Redis {
    var q := Get(r.code, dc, t.t1);
    if q.Some? && Consumes(RedisAnswer(r, dc, t)) then Redis(r.code - {dc}, r.user - {q.value.user}) else r
  }

  class RedisDeviceStore {
    var code: map<string, Cell<Request>>
    var user: map<string, Cell<string>>

    ghost function Value(): Redis
      reads this
    {
      Redis(code, user)
    }

    constructor ()
      ensures Value() == Redis(map[], map[])
    {
      code, user := map[], map[];
    }

    method Create(dc: string, uc: string, t: Times)
      modifies this
      ensures Value() == RedisCreate(old(Value()), dc, uc, t)
    {
      var e := Some(t.t2 + REDIS_TTL);
      code := code[dc := Cell(Request(dc, uc, "", "", false, t.t1), e)];
      user := user[uc := Cell(dc, e)];
    }

    method Approve(uc: string, org: string, key: string, t: Times) returns (ok: bool)
      modifies this
      ensures ok == RedisFind(old(Value()), uc, t).Some?
      ensures Value() == RedisApprove(old(Value()), uc, org, key, t)
    {
      var dc := Get(user, uc, t.t1);
      if dc.None? {
        return false;
      }
      var q := Get(code, dc.value, t.t2);
      if q.None? {
        return false;
      }
      var req := q.value.(approved := true, org := org, key := key);
      code := SetKeepTtl(code, dc.value, req, t.t3);
      return true;
    }

    method Poll(dc: string, t: Times) returns (a: Answer)
      modifies this
      ensures a == RedisAnswer(old(Value()), dc, t) && Value() == RedisPoll(old(Value()), dc, t)
    {
      var q := Get(code, dc, t.t1);
      if q.None? {
        return Unknown;
      }
      var req := q.value;
      if t.t2 - req.created > DEVICE_TTL {
        Delete(dc, req.user);
        return Expired;
      }
      if !req.approved {
        return Pending;
      }
      Delete(dc, req.user);
      return Handed(req.key);
    }

    /** Neither code leads anywhere any more, at whatever time; every other code is answered as before. */
    method Delete(dc: string, uc: string)
      modifies this
      ensures code == old(code) - {dc} && user == old(user) - {uc}
      ensures forall t :: RedisAnswer(Value(), dc, t) == Unknown && RedisFind(Value(), uc, t) == None
      ensures forall d, t :: d != dc ==> RedisAnswer(Value(), d, t) == RedisAnswer(old(Value()), d, t)
    {
      code := code - {dc};
      user := user - {uc};
    }
  }

  // ---- The reference: what happened to each flow ----

  datatype Flow = Flow(user: string, created: int)

  datatype Handout = Handout(device: string, key: string, at: int)

  /** `finished` flows were answered with their key or with an expiry. */
  datatype History = History(
    issued: map<string, Flow>, owner: map<string, string>,
    approved: map<string, string>, finished: set<string>, handed: seq<Handout>, minted: set<string>)

  predicate Live(h: History, dc: string) {
    dc in h.issued && dc !in h.finished
  }

  /** The live flow that a user code names. */
  function Named(h: History, uc: string): Option<string> {
    if uc in h.owner && Live(h, h.owner[uc]) then Some(h.owner[uc]) else None
  }

  function Reference(h: History, dc: string, now: int): Answer {
    if !Live(h, dc) then Unknown
    else if now - h.issued[dc].created > DEVICE_TTL then Expired
    else if h.issued[dc].user in h.approved then Handed(h.approved[h.issued[dc].user])
    else Pending
  }

  // ---- Runs: the same operations on both stores and the reference ----

  datatype Op =
    | Create(dc: string, uc: string, t: Times)
    | Approve(typed: string, uc: string, org: string, key: string, t: Times)  // `uc` is the reading of `typed`
    | Poll(device: string, t: Times)

  datatype World = World(
    now: int, mem: Mem, redis: Redis, h: History, memHanded: seq<Handout>, redisHanded: seq<Handout>)

  function Start(): World {
    World(0, Mem(map[], map[]), Redis(map[], map[]), History(map[], map[], map[], {}, [], {}), [], [])
  }

  /** Operations do not overlap; generated codes and minted keys are new, and generated codes are canonical. */
  predicate Enabled(w: World, op: Op) {
    && w.now <= op.t.t1 <= op.t.t2 <= op.t.t3
    && (op.Create? ==> op.dc !in w.h.issued && op.uc !in w.h.owner && Canonical(op.uc))
    && (op.Approve? ==> op.key !in w.h.minted && op.uc == Normalize(op.typed))
  }

  function Note(log: seq<Handout>, dc: string, a: Answer, at: int): seq<Handout> {
    if a.Handed? then log + [Handout(dc, a.key, at)] else log
  }

  function Remember(h: History, op: Op): History {
    match op
    case Create(dc, uc, t) => h.(issued := h.issued[dc := Flow(uc, t.t1)], owner := h.owner[uc := dc])
    case Approve(_, uc, _, key, _) =>
      h.(minted := h.minted + {key}, approved := if Named(h, uc).Some? then h.approved[uc := key] else h.approved)
    case Poll(dc, t) =>
      var a := Reference(h, dc, t.t2);
      h.(finished := if Consumes(a) then h.finished + {dc} else h.finished, handed := Note(h.handed, dc, a, t.t2))
  }

  function Do(w: World, op: Op): World {
    match op
    case Create(dc, uc, t) =>
      w.(mem := MemCreate(w.mem, dc, uc, t.t1), redis := RedisCreate(w.redis, dc, uc, t))
    case Approve(typed, uc, org, key, t) =>
      w.(mem := MemApprove(w.mem, uc, org, key), redis := RedisApprove(w.redis, typed, org, key, t))
    case Poll(dc, t) =>
      w.(mem := MemPoll(w.mem, dc, t.t2), redis := RedisPoll(w.redis, dc, t),
         memHanded := Note(w.memHanded, dc, MemAnswer(w.mem, dc, t.t2), t.t2),
         redisHanded := Note(w.redisHanded, dc, RedisAnswer(w.redis, dc, t), t.t2))
  }

  /** An operation that is not possible leaves the world alone. */
  function Apply(w: World, op: Op): World {
    if Enabled(w, op) then Do(w, op).(now := op.t.t3, h := Remember(w.h, op)) else w
  }

  function Exec(w: World, ops: seq<Op>): World
    decreases |ops|
  {
    if ops == [] then w else Exec(Apply(w, ops[0]), ops[1..])
  }

  // ---- What the reference guarantees ----

  ghost predicate Paired(h: History) {
    && (forall d :: d in h.issued ==> h.issued[d].user in h.owner && h.owner[h.issued[d].user] == d)
    && (forall u :: u in h.owner ==> h.owner[u] in h.issued && h.issued[h.owner[u]].user == u)
  }

  ghost predicate Closed(h: History) {
    && (forall d :: d in h.finished ==> d in h.issued)
    && (forall u :: u in h.approved ==> u in h.owner)
  }

  ghost predicate CanonicalOwners(h: History) {
    forall u :: u in h.owner ==> Canonical(u)
  }

  ghost predicate KeysApart(h: History) {
    && (forall u :: u in h.approved ==> h.approved[u] in h.minted)
    && (forall u, v :: u in h.approved && v in h.approved && h.approved[u] == h.approved[v] ==> u == v)
  }

  /** A handout went to the device paired with the approved user code, in time. */
  ghost predicate Deserved(h: History, o: Handout) {
    && o.device in h.issued && o.device in h.finished
    && h.issued[o.device].user in h.approved && o.key == h.approved[h.issued[o.device].user]
    && o.at - h.issued[o.device].created <= DEVICE_TTL
  }

  ghost predicate HistoryOk(h: History) {
    && Paired(h) && Closed(h) && KeysApart(h) && CanonicalOwners(h)
    && (forall i :: 0 <= i < |h.handed| ==> Deserved(h, h.handed[i]))
    && (forall i, j :: 0 <= i < j < |h.handed| ==> h.handed[i].device != h.handed[j].device)
  }

  lemma HistoryCreate(w: World, op: Op)
    requires HistoryOk(w.h) && Enabled(w, op) && op.Create?
    ensures HistoryOk(Remember(w.h, op))
  {
    var h, h' := w.h, Remember(w.h, op);
    assert forall d :: d in h'.issued ==> d == op.dc || d in h.issued;
    assert forall u :: u in h'.owner ==> u == op.uc || u in h.owner;
    forall i | 0 <= i < |h'.handed| ensures Deserved(h', h'.handed[i]) {
      assert Deserved(h, h.handed[i]);
    }
  }

  lemma HistoryApprove(w: World, op: Op)
    requires HistoryOk(w.h) && Enabled(w, op) && op.Approve?
    ensures HistoryOk(Remember(w.h, op))
  {
    var h, h' := w.h, Remember(w.h, op);
    forall i | 0 <= i < |h'.handed| ensures Deserved(h', h'.handed[i]) {
      assert Deserved(h, h.handed[i]);
    }
  }

  lemma HistoryPoll(w: World, op: Op)
    requires HistoryOk(w.h) && Enabled(w, op) && op.Poll?
    ensures HistoryOk(Remember(w.h, op))
  {
    var h, h' := w.h, Remember(w.h, op);
    forall i | 0 <= i < |h'.handed| ensures Deserved(h', h'.handed[i]) {
      assert i < |h.handed| ==> Deserved(h, h.handed[i]);
    }
    forall i, j | 0 <= i < j < |h'.handed| ensures h'.handed[i].device != h'.handed[j].device {
      assert Deserved(h, h.handed[i]);
    }
  }

  lemma HistoryStep(w: World, op: Op)
    requires HistoryOk(w.h) && Enabled(w, op)
    ensures HistoryOk(Remember(w.h, op))
  {
    if op.Create? {
      HistoryCreate(w, op);
    } else if op.Approve? {
      HistoryApprove(w, op);
    } else {
      HistoryPoll(w, op);
    }
  }

  // ---- The in-process store refines the reference ----

  ghost predicate SameFlow(r: Request, d: string, h: History) {
    && d in h.issued && r.device == d && r.user == h.issued[d].user && r.created == h.issued[d].created
    && (r.approved <==> r.user in h.approved)
    && (r.approved ==> r.key == h.approved[r.user])
  }

  ghost predicate DevicesOk(m: Mem, h: History) {
    && (forall d :: d in m.byDevice <==> Live(h, d))
    && (forall d :: d in m.byDevice ==> SameFlow(m.byDevice[d], d, h))
  }

  ghost predicate UsersOk(m: Mem, h: History) {
    && (forall u :: u in m.byUser <==> Named(h, u).Some?)
    && (forall u :: u in m.byUser ==> m.byUser[u] == h.owner[u])
  }

  ghost predicate MemOk(m: Mem, h: History) {
    DevicesOk(m, h) && UsersOk(m, h)
  }

  lemma MemAnswersReference(m: Mem, h: History, dc: string, uc: string, now: int)
    requires MemOk(m, h)
    ensures MemAnswer(m, dc, now) == Reference(h, dc, now)
    ensures MemFind(m, uc) == Named(h, uc)
  {
    assert dc in m.byDevice ==> SameFlow(m.byDevice[dc], dc, h);
  }

  lemma MemCreateOk(m: Mem, h: History, op: Op)
    requires Paired(h) && Closed(h) && MemOk(m, h) && op.Create? && op.dc !in h.issued && op.uc !in h.owner
    ensures MemOk(MemCreate(m, op.dc, op.uc, op.t.t1), Remember(h, op))
  {
    var m', h' := MemCreate(m, op.dc, op.uc, op.t.t1), Remember(h, op);
    forall d | d in m'.byDevice ensures SameFlow(m'.byDevice[d], d, h') {
      assert d != op.dc ==> SameFlow(m.byDevice[d], d, h);
    }
    forall u ensures u in m'.byUser <==> Named(h', u).Some? {
      assert u in m.byUser <==> Named(h, u).Some?;
    }
  }

  lemma MemApproveOk(m: Mem, h: History, op: Op)
    requires Paired(h) && MemOk(m, h) && op.Approve?
    ensures MemOk(MemApprove(m, op.uc, op.org, op.key), Remember(h, op))
  {
    var m', h' := MemApprove(m, op.uc, op.org, op.key), Remember(h, op);
    MemAnswersReference(m, h, "", op.uc, 0);
    forall d | d in m'.byDevice ensures SameFlow(m'.byDevice[d], d, h') {
      assert SameFlow(m.byDevice[d], d, h);
    }
    forall u ensures u in m'.byUser <==> Named(h', u).Some? {
      assert u in m.byUser <==> Named(h, u).Some?;
    }
  }

  lemma MemPollOk(m: Mem, h: History, op: Op)
    requires Paired(h) && MemOk(m, h) && op.Poll?
    ensures MemOk(MemPoll(m, op.device, op.t.t2), Remember(h, op))
  {
    var m', h' := MemPoll(m, op.device, op.t.t2), Remember(h, op);
    MemAnswersReference(m, h, op.device, "", op.t.t2);
    forall d | d in m'.byDevice ensures SameFlow(m'.byDevice[d], d, h') {
      assert SameFlow(m.byDevice[d], d, h);
    }
    forall u ensures u in m'.byUser <==> Named(h', u).Some? {
      assert u in m.byUser <==> Named(h, u).Some?;
    }
  }

  lemma {:induction false} ExecMem(w: World, ops: seq<Op>)
    requires HistoryOk(w.h) && MemOk(w.mem, w.h) && w.memHanded == w.h.handed
    ensures var v := Exec(w, ops); HistoryOk(v.h) && MemOk(v.mem, v.h) && v.memHanded == v.h.handed
    decreases |ops|
  {
    if ops != [] {
      var op := ops[0];
      if Enabled(w, op) {
        HistoryStep(w, op);
        if op.Create? {
          MemCreateOk(w.mem, w.h, op);
        } else if op.Approve? {
          MemApproveOk(w.mem, w.h, op);
        } else {
          MemPollOk(w.mem, w.h, op);
          MemAnswersReference(w.mem, w.h, op.device, "", op.t.t2);
        }
      }
      ExecMem(Apply(w, op), ops[1..]);
    }
  }

  // ---- The Redis store refines the reference too ----

  predicate Outlives(expiry: Option<int>, t: int) {
    expiry.Some? ==> t <= expiry.value
  }

  predicate Young(h: History, d: string, t: int) {
    Live(h, d) && t < h.issued[d].created + REDIS_TTL
  }

  /** A young flow has both its keys, for as long as it is young. */
  ghost predicate Kept(r: Redis, h: History, d: string)
    requires Live(h, d)
  {
    var f := h.issued[d];
    && d in r.code && SameFlow(r.code[d].value, d, h) && Outlives(r.code[d].expiry, f.created + REDIS_TTL)
    && f.user in r.user && r.user[f.user].value == d && Outlives(r.user[f.user].expiry, f.created + REDIS_TTL)
  }

  /** A record is that of a live flow, though its approval may be behind once the flow is no longer young. */
  ghost predicate RecordOk(q: Request, h: History, d: string) {
    Live(h, d) && q.device == d && q.user == h.issued[d].user && q.created == h.issued[d].created
  }

  /** A user key lapses no later than the record it points to. */
  ghost predicate UserKeyOk(r: Redis, h: History, u: string)
    requires u in r.user
  {
    var d := r.user[u].value;
    && u in h.owner && h.owner[u] == d && d in r.code
    && r.user[u].expiry.Some? && (r.code[d].expiry.None? || r.code[d].expiry == r.user[u].expiry)
  }

  ghost predicate RedisOk(r: Redis, h: History, now: int) {
    && (forall d :: Young(h, d, now) ==> Kept(r, h, d))
    && (forall d :: Visible(r.code, d, now) ==> RecordOk(r.code[d].value, h, d))
    && (forall u :: Visible(r.user, u, now) ==> UserKeyOk(r, h, u))
  }

  lemma RedisCreateOk(r: Redis, h: History, now: int, op: Op)
    requires Paired(h) && Closed(h) && RedisOk(r, h, now) && op.Create? && op.dc !in h.issued && op.uc !in h.owner
    requires now <= op.t.t1 <= op.t.t2 <= op.t.t3
    ensures RedisOk(RedisCreate(r, op.dc, op.uc, op.t), Remember(h, op), op.t.t3)
  {
    var r', h' := RedisCreate(r, op.dc, op.uc, op.t), Remember(h, op);
    forall d | Young(h', d, op.t.t3) ensures Kept(r', h', d) {
      assert d != op.dc ==> Young(h, d, now) && Kept(r, h, d);
    }
    forall d | Visible(r'.code, d, op.t.t3) ensures RecordOk(r'.code[d].value, h', d) {
      assert d != op.dc ==> Visible(r.code, d, now);
    }
    forall u | Visible(r'.user, u, op.t.t3) ensures UserKeyOk(r', h', u) {
      assert u != op.uc ==> Visible(r.user, u, now) && UserKeyOk(r, h, u);
    }
  }

  /** While the named flow is young Redis finds it; whatever Redis finds is the live flow named. */
  lemma RedisFinds(r: Redis, h: History, now: int, uc: string, t: Times)
    requires Paired(h) && RedisOk(r, h, now) && now <= t.t1 <= t.t2
    ensures RedisFind(r, uc, t).Some? ==>
      Named(h, uc) == Get(r.user, uc, t.t1) && RecordOk(RedisFind(r, uc, t).value, h, h.owner[uc])
    ensures Named(h, uc).Some? && Young(h, h.owner[uc], t.t2) ==>
      RedisFind(r, uc, t).Some? && SameFlow(RedisFind(r, uc, t).value, h.owner[uc], h)
  {
    if Visible(r.user, uc, t.t1) {
      assert Visible(r.user, uc, now) && UserKeyOk(r, h, uc);
      var d := r.user[uc].value;
      if Visible(r.code, d, t.t2) {
        assert Visible(r.code, d, now);
      }
    }
    if Named(h, uc).Some? && Young(h, h.owner[uc], t.t2) {
      assert Young(h, h.owner[uc], now) && Kept(r, h, h.owner[uc]);
    }
  }

  lemma RedisApproveOk(r: Redis, h: History, now: int, op: Op)
    requires Paired(h) && RedisOk(r, h, now) && op.Approve? && now <= op.t.t1 <= op.t.t2 <= op.t.t3
    ensures RedisOk(RedisApprove(r, op.uc, op.org, op.key, op.t), Remember(h, op), op.t.t3)
  {
    var r', h' := RedisApprove(r, op.uc, op.org, op.key, op.t), Remember(h, op);
    RedisFinds(r, h, now, op.uc, op.t);
    forall d | Young(h', d, op.t.t3) ensures Kept(r', h', d) {
      assert Young(h, d, now) && Young(h, d, op.t.t2) && Kept(r, h, d);
    }
    forall d | Visible(r'.code, d, op.t.t3) ensures RecordOk(r'.code[d].value, h', d) {
      assert Named(h, op.uc) != Some(d) ==> Visible(r.code, d, now);
    }
    forall u | Visible(r'.user, u, op.t.t3) ensures UserKeyOk(r', h', u) {
      assert Visible(r.user, u, now) && UserKeyOk(r, h, u);
    }
  }

  /** Redis answers as the reference, except that it has forgotten a flow that lapsed while nobody polled it. */
  lemma RedisAnswersReference(r: Redis, h: History, now: int, dc: string, t: Times)
    requires RedisOk(r, h, now) && now <= t.t1 <= t.t2
    ensures var a, ref := RedisAnswer(r, dc, t), Reference(h, dc, t.t2);
            a == ref || (a == Unknown && ref == Expired && Live(h, dc) && t.t1 - h.issued[dc].created >= REDIS_TTL)
  {
    if Visible(r.code, dc, t.t1) {
      assert Visible(r.code, dc, now) && RecordOk(r.code[dc].value, h, dc);
    }
    if Young(h, dc, t.t1) {
      assert Young(h, dc, now) && Kept(r, h, dc);
    }
  }

  lemma RedisPollOk(r: Redis, h: History, now: int, op: Op)
    requires Paired(h) && RedisOk(r, h, now) && op.Poll? && now <= op.t.t1 <= op.t.t2 <= op.t.t3
    ensures RedisOk(RedisPoll(r, op.device, op.t), Remember(h, op), op.t.t3)
  {
    var r', h' := RedisPoll(r, op.device, op.t), Remember(h, op);
    RedisAnswersReference(r, h, now, op.device, op.t);
    forall d | Young(h', d, op.t.t3) ensures Kept(r', h', d) {
      assert Young(h, d, now) && Kept(r, h, d);
    }
    forall d | Visible(r'.code, d, op.t.t3) ensures RecordOk(r'.code[d].value, h', d) {
      assert Visible(r.code, d, now) && Visible(r.code, d, op.t.t1);
    }
    forall u | Visible(r'.user, u, op.t.t3) ensures UserKeyOk(r', h', u) {
      assert Visible(r.user, u, now) && UserKeyOk(r, h, u);
    }
  }

  /** Approvals are typed as the code was displayed. */
  ghost predicate AsDisplayed(ops: seq<Op>) {
    forall i :: 0 <= i < |ops| && ops[i].Approve? ==> Canonical(ops[i].typed)
  }

  lemma RedisStep(w: World, op: Op)
    requires HistoryOk(w.h) && RedisOk(w.redis, w.h, w.now) && w.redisHanded == w.h.handed
    requires op.Approve? ==> Canonical(op.typed)
    ensures var v := Apply(w, op); RedisOk(v.redis, v.h, v.now) && v.redisHanded == v.h.handed
  {
    if Enabled(w, op) {
      if op.Create? {
        RedisCreateOk(w.redis, w.h, w.now, op);
      } else if op.Approve? {
        RedisApproveOk(w.redis, w.h, w.now, op);
      } else {
        RedisPollOk(w.redis, w.h, w.now, op);
        RedisAnswersReference(w.redis, w.h, w.now, op.device, op.t);
      }
    }
  }

  lemma {:induction false} ExecRedis(w: World, ops: seq<Op>)
    requires HistoryOk(w.h) && RedisOk(w.redis, w.h, w.now) && w.redisHanded == w.h.handed && AsDisplayed(ops)
    ensures var v := Exec(w, ops); RedisOk(v.redis, v.h, v.now) && v.redisHanded == v.h.handed
    decreases |ops|
  {
    if ops != [] {
      if Enabled(w, ops[0]) {
        HistoryStep(w, ops[0]);
      }
      RedisStep(w, ops[0]);
      ExecRedis(Apply(w, ops[0]), ops[1..]);
    }
  }

  // ---- Whole runs ----

  /** After every run, the in-process store answers every request as the history of the flows demands. */
  lemma StoreFollowsHistory(ops: seq<Op>, dc: string, typed: string, now: int)
    ensures var w := Exec(Start(), ops);
            && MemAnswer(w.mem, dc, now) == Reference(w.h, dc, now)
            && MemFind(w.mem, Normalize(typed)) == Named(w.h, Normalize(typed))
  {
    ExecMem(Start(), ops);
    MemAnswersReference(Exec(Start(), ops).mem, Exec(Start(), ops).h, dc, Normalize(typed), now);
  }

  /** Each handout is of the key last approved for the user code paired with that device code, within ten minutes. */
  lemma HandoutsAreDeserved(ops: seq<Op>, i: nat)
    requires i < |Exec(Start(), ops).memHanded|
    ensures var w := Exec(Start(), ops); Deserved(w.h, w.memHanded[i])
  {
    ExecMem(Start(), ops);
  }

  /** No device code is answered with a key twice, and no key is handed out twice. */
  lemma HandedOutOnce(ops: seq<Op>, i: nat, j: nat)
    requires i < j < |Exec(Start(), ops).memHanded|
    ensures var o := Exec(Start(), ops).memHanded; o[i].device != o[j].device && o[i].key != o[j].key
  {
    ExecMem(Start(), ops);
    var h := Exec(Start(), ops).h;
    assert Deserved(h, h.handed[i]) && Deserved(h, h.handed[j]);
  }

  /** On the same operations the Redis store hands out the same keys to the same devices in the same order. */
  lemma RedisHandsOutTheSame(ops: seq<Op>)
    requires AsDisplayed(ops)
    ensures Exec(Start(), ops).redisHanded == Exec(Start(), ops).memHanded
  {
    ExecMem(Start(), ops);
    ExecRedis(Start(), ops);
  }

  /**
    The two stores give a poll different answers if and only if the flow is live in process and its record has lapsed
    in Redis by the time of the read. Then the in-process store says expired and Redis says unknown, and the flow is at
    least fifteen minutes old.
   */
  lemma PollsDifferIffLapsed(ops: seq<Op>, dc: string, t: Times)
    requires AsDisplayed(ops) && Exec(Start(), ops).now <= t.t1 <= t.t2
    ensures var w := Exec(Start(), ops); var m, r := MemAnswer(w.mem, dc, t.t2), RedisAnswer(w.redis, dc, t);
            && (m != r <==> dc in w.mem.byDevice && !Visible(w.redis.code, dc, t.t1))
            && (m != r ==> m == Expired && r == Unknown && t.t1 - w.mem.byDevice[dc].created >= REDIS_TTL)
  {
    ExecMem(Start(), ops);
    ExecRedis(Start(), ops);
    var w := Exec(Start(), ops);
    MemAnswersReference(w.mem, w.h, dc, "", t.t2);
    RedisAnswersReference(w.redis, w.h, w.now, dc, t);
    assert dc in w.mem.byDevice ==> SameFlow(w.mem.byDevice[dc], dc, w.h);
  }

  lemma RedisFindsOnly(r: Redis, h: History, now: int, uc: string, t: Times, f: string)
    requires Paired(h) && RedisOk(r, h, now) && now <= t.t1 <= t.t2 && Named(h, uc) == Some(f)
    ensures RedisFind(r, uc, t).Some? <==> Visible(r.user, uc, t.t1) && Visible(r.code, f, t.t2)
  {
    if Visible(r.user, uc, t.t1) {
      assert Visible(r.user, uc, now) && UserKeyOk(r, h, uc);
    }
  }

  /**
    The in-process store tidies a typed code, and it keeps a flow until a poll; the Redis store does neither. The two
    agree on an approval if and only if the code names no live flow, or is typed as displayed and both keys of the flow
    are still there when they are read.
   */
  lemma ApprovalsAgreeIff(ops: seq<Op>, typed: string, t: Times)
    requires AsDisplayed(ops) && Exec(Start(), ops).now <= t.t1 <= t.t2
    ensures var w := Exec(Start(), ops); var f := Named(w.h, Normalize(typed));
            (MemFind(w.mem, Normalize(typed)).Some? == RedisFind(w.redis, typed, t).Some?) <==>
            (f.None? ||
             (Canonical(typed) && Visible(w.redis.user, typed, t.t1) && Visible(w.redis.code, f.value, t.t2)))
  {
    ExecMem(Start(), ops);
    ExecRedis(Start(), ops);
    var w := Exec(Start(), ops);
    MemAnswersReference(w.mem, w.h, "", Normalize(typed), 0);
    RedisFinds(w.redis, w.h, w.now, typed, t);
    if Canonical(typed) && Named(w.h, typed).Some? {
      RedisFindsOnly(w.redis, w.h, w.now, typed, t, Named(w.h, typed).value);
    }
  }

  /** The first operation of the runs below. */
  function CreateAtZero(): Op {
    Create("d", "WDJB-MJHT", Times(0, 0, 0))
  }

  lemma Created(ops: seq<Op>)
    ensures Exec(Start(), [CreateAtZero()] + ops) == Exec(Apply(Start(), CreateAtZero()), ops)
    ensures var w := Apply(Start(), CreateAtZero());
            && w.now == 0
            && w.mem == MemCreate(Start().mem, "d", "WDJB-MJHT", 0)
            && w.redis == RedisCreate(Start().redis, "d", "WDJB-MJHT", Times(0, 0, 0))
            && w.h.minted == {}
  {
    assert Upper("WDJB-MJHT") == "WDJB-MJHT";
    assert Enabled(Start(), CreateAtZero());
    assert ([CreateAtZero()] + ops)[1..] == ops;
  }

  /** Typed in lower case, a live code is accepted by the in-process store and refused by the Redis store. */
  lemma LowerCaseIsRefused()
    ensures var w := Exec(Start(), [CreateAtZero()] + []);
            && MemFind(w.mem, Normalize("wdjb-mjht")) == Some("d")
            && RedisFind(w.redis, "wdjb-mjht", Times(1, 1, 1)).None?
  {
    Created([]);
    assert Upper("wdjb-mjht") == "WDJB-MJHT";
    assert "wdjb-mjht"[0] != "WDJB-MJHT"[0];
  }

  /** A flow created at zero and polled only after fifteen minutes: expired in process, unknown to Redis. */
  lemma LapsedPollDiffers()
    ensures var w := Exec(Start(), [CreateAtZero()] + []); var t := Times(REDIS_TTL, REDIS_TTL, REDIS_TTL);
            && AsDisplayed([CreateAtZero()] + []) && w.now <= t.t1
            && MemAnswer(w.mem, "d", t.t2) == Expired && RedisAnswer(w.redis, "d", t) == Unknown
  {
    Created([]);
  }

  /** A flow created at zero and approved fifteen minutes later as displayed: accepted in process, refused by Redis. */
  lemma LapsedApprovalDiffers()
    ensures var w := Exec(Start(), [CreateAtZero()] + []); var t := Times(REDIS_TTL, REDIS_TTL, REDIS_TTL);
            && w.now <= t.t1 && Canonical("WDJB-MJHT")
            && MemFind(w.mem, Normalize("WDJB-MJHT")) == Some("d") && RedisFind(w.redis, "WDJB-MJHT", t).None?
  {
    Created([]);
    assert Upper("WDJB-MJHT") == "WDJB-MJHT";
  }

  /** Approving leaves the record's lifetime alone exactly when the record is still there at the write. */
  lemma ApproveKeepsLifetimeIff(r: Redis, uc: string, org: string, key: string, t: Times)
    requires RedisFind(r, uc, t).Some?
    ensures var d, r' := r.user[uc].value, RedisApprove(r, uc, org, key, t);
      && (Visible(r.code, d, t.t3) <==> forall x :: t.t3 <= x ==> (Visible(r'.code, d, x) <==> Visible(r.code, d, x)))
      && (!Visible(r.code, d, t.t3) <==> forall x :: t.t3 <= x ==> Visible(r'.code, d, x) && !Visible(r.code, d, x))
  {
    var d, r' := r.user[uc].value, RedisApprove(r, uc, org, key, t);
    assert Visible(r'.code, d, t.t3);
  }

  /** Reads the record just before it lapses and writes it just after. */
  function LateApprove(): Op {
    Approve("WDJB-MJHT", "WDJB-MJHT", "org", "key", Times(REDIS_TTL - 1, REDIS_TTL - 1, REDIS_TTL))
  }

  /** A run in which the record lapses between Approve's second read and its write, and is back for good afterwards. */
  lemma ApproveRevivesRecord()
    ensures var approve := LateApprove();
            var before, after := Exec(Start(), [CreateAtZero()] + []), Exec(Start(), [CreateAtZero()] + [approve]);
            && AsDisplayed([CreateAtZero()] + [approve]) && after.now == REDIS_TTL
            && !Visible(before.redis.code, "d", REDIS_TTL)
            && forall t :: Visible(after.redis.code, "d", t)
  {
    var approve := LateApprove();
    assert Upper("WDJB-MJHT") == "WDJB-MJHT";
    Created([]);
    Created([approve]);
    var w := Apply(Start(), CreateAtZero());
    assert Enabled(w, approve);
    assert Exec(w, [approve]) == Exec(Apply(w, approve), []);
    assert RedisFind(w.redis, "WDJB-MJHT", approve.t).Some?;
  }

  /** An approval fills in the organisation and the key of the flow it names, in both stores, and nothing else. */
  lemma ApproveFillsIn(m: Mem, r: Redis, uc: string, org: string, key: string, t: Times)
    ensures MemFind(m, uc).Some? ==>
      var d := MemFind(m, uc).value; var q := m.byDevice[d];
      MemApprove(m, uc, org, key) ==
      m.(byDevice := m.byDevice[d := Request(q.device, q.user, org, key, true, q.created)])
    ensures RedisFind(r, uc, t).Some? ==>
      var d := r.user[uc].value; var q := RedisFind(r, uc, t).value; var r' := RedisApprove(r, uc, org, key, t);
      && r'.user == r.user && r'.code.Keys == r.code.Keys + {d}
      && r'.code[d].value == Request(q.device, q.user, org, key, true, q.created)
      && forall x :: x in r.code && x != d ==> r'.code[x] == r.code[x]
  {
  }

  /** Both keys of a new flow are there for fifteen minutes, and not after. */
  lemma CreatedLasts(r: Redis, dc: string, uc: string, t: Times, x: int)
    ensures var r' := RedisCreate(r, dc, uc, t);
      (Visible(r'.code, dc, x) <==> x < t.t2 + 15 * 60_000) && (Visible(r'.user, uc, x) <==> x < t.t2 + 15 * 60_000)
  {
  }

  // ---- A flow from start to end ----

  lemma ReferenceRoundTrip(h: History, create: Op, approve: Op)
    requires HistoryOk(h) && create.Create? && approve.Approve? && approve.uc == create.uc
    requires create.dc !in h.issued && create.uc !in h.owner
    ensures var h1 := Remember(h, create); var h2 := Remember(h1, approve);
      && (forall now :: Reference(h1, create.dc, now) == if now - create.t.t1 > 600_000 then Expired else Pending)
      && (forall now :: Reference(h2, create.dc, now) ==
                        if now - create.t.t1 > 600_000 then Expired else Handed(approve.key))
  {
  }

  lemma AnsweredIsUnknown(h: History, poll: Op)
    requires poll.Poll? && Consumes(Reference(h, poll.device, poll.t.t2))
    ensures var h' := Remember(h, poll); forall now :: Reference(h', poll.device, now) == Unknown
  {
  }

  ghost predicate MemInv(w: World) {
    HistoryOk(w.h) && MemOk(w.mem, w.h) && w.memHanded == w.h.handed
  }

  lemma MemGoesOn(w: World, op: Op)
    requires MemInv(w)
    ensures MemInv(Apply(w, op))
  {
    ExecMem(w, [op]);
    assert [op][1..] == [] && Exec(w, [op]) == Exec(Apply(w, op), []);
  }

  lemma MemSays(w: World, dc: string, now: int)
    requires MemInv(w)
    ensures MemAnswer(w.mem, dc, now) == Reference(w.h, dc, now)
  {
    MemAnswersReference(w.mem, w.h, dc, "", now);
  }

  predicate OneFlow(create: Op, approve: Op, poll: Op) {
    && create.Create? && approve.Approve? && poll.Poll?
    && approve.uc == create.uc && poll.device == create.dc
  }

  lemma UntilPolled(w: World, create: Op, approve: Op, now: int)
    requires MemInv(w) && create.Create? && approve.Approve? && approve.uc == create.uc
    requires Enabled(w, create) && Enabled(Apply(w, create), approve)
    ensures var w1 := Apply(w, create); var w2 := Apply(w1, approve); var late := now - create.t.t1 > 600_000;
      && MemInv(w2)
      && MemAnswer(w1.mem, create.dc, now) == (if late then Expired else Pending)
      && MemAnswer(w2.mem, create.dc, now) == (if late then Expired else Handed(approve.key))
  {
    ReferenceRoundTrip(w.h, create, approve);
    MemGoesOn(w, create);
    MemSays(Apply(w, create), create.dc, now);
    MemGoesOn(Apply(w, create), approve);
    MemSays(Apply(Apply(w, create), approve), create.dc, now);
  }

  lemma OncePolled(w: World, poll: Op, a: Answer)
    requires MemInv(w) && poll.Poll? && Enabled(w, poll) && Consumes(a) && MemAnswer(w.mem, poll.device, poll.t.t2) == a
    ensures var w' := Apply(w, poll);
      && w'.memHanded == w.memHanded + (if a.Handed? then [Handout(poll.device, a.key, poll.t.t2)] else [])
      && forall now :: MemAnswer(w'.mem, poll.device, now) == Unknown
  {
    MemSays(w, poll.device, poll.t.t2);
    AnsweredIsUnknown(w.h, poll);
    MemGoesOn(w, poll);
    forall now
      ensures MemAnswer(Apply(w, poll).mem, poll.device, now) == Unknown
    {
      MemSays(Apply(w, poll), poll.device, now);
    }
  }

  /**
    From any run: a code just created is pending, approved it is answered with the key, until ten minutes have passed,
    and once it has been answered, with the key or with the expiry, it is unknown.
   */
  lemma FlowRoundTrip(ops: seq<Op>, create: Op, approve: Op, poll: Op)
    requires OneFlow(create, approve, poll)
    requires var w := Exec(Start(), ops);
      Enabled(w, create) && Enabled(Apply(w, create), approve) && Enabled(Apply(Apply(w, create), approve), poll)
    ensures var w1 := Apply(Exec(Start(), ops), create); var w2 := Apply(w1, approve); var w3 := Apply(w2, poll);
      var late := poll.t.t2 - create.t.t1 > 600_000;
      && MemAnswer(w1.mem, create.dc, poll.t.t2) == (if late then Expired else Pending)
      && MemAnswer(w2.mem, create.dc, poll.t.t2) == (if late then Expired else Handed(approve.key))
      && w3.memHanded == w2.memHanded + (if late then [] else [Handout(create.dc, approve.key, poll.t.t2)])
      && forall now :: MemAnswer(w3.mem, create.dc, now) == Unknown
  {
    ExecMem(Start(), ops);
    var w := Exec(Start(), ops);
    UntilPolled(w, create, approve, poll.t.t2);
    var w2 := Apply(Apply(w, create), approve);
    OncePolled(w2, poll, MemAnswer(w2.mem, create.dc, poll.t.t2));
  }

  /** The Redis store goes the same way when the code is typed as displayed. */
  lemma RedisRoundTrip(ops: seq<Op>, create: Op, approve: Op, poll: Op)
    requires OneFlow(create, approve, poll) && AsDisplayed(ops) && Canonical(approve.typed)
    requires var w := Exec(Start(), ops);
      Enabled(w, create) && Enabled(Apply(w, create), approve) && Enabled(Apply(Apply(w, create), approve), poll)
    requires poll.t.t2 - create.t.t1 <= 600_000
    ensures var w2 := Apply(Apply(Exec(Start(), ops), create), approve);
      RedisAnswer(w2.redis, create.dc, poll.t) == Handed(approve.key)
  {
    ExecMem(Start(), ops);
    ExecRedis(Start(), ops);
    var w := Exec(Start(), ops);
    ReferenceRoundTrip(w.h, create, approve);
    MemGoesOn(w, create);
    var w1 := Apply(w, create);
    RedisStep(w, create);
    RedisStep(w1, approve);
    var w2 := Apply(w1, approve);
    RedisAnswersReference(w2.redis, w2.h, w2.now, create.dc, poll.t);
  }
}
