/** Tunnels, the routes they claim, and tables that map each claimed route to its tunnel. */
module Tunnels {

  type Sid = nat

  datatype Proto = Tcp | Udp

  /** A key of the hub: a hostname, or a protocol and port. */
  datatype Route = HostRoute(host: string) | PortRoute(proto: Proto, port: int)

  /** A boundTunnel. The serial number stands for the identity of the allocated record. */
  datatype Tunnel =
    | HostTunnel(serial: nat, session: Sid, id: string, host: string)
    | PortTunnel(serial: nat, session: Sid, id: string, proto: Proto, port: int)

  function RouteOf(bt: Tunnel): Route {
    match bt
    case HostTunnel(_, _, _, host) => HostRoute(host)
    case PortTunnel(_, _, _, proto, port) => PortRoute(proto, port)
  }

  /** The hub and the port pool act on a tunnel's port only when it is not zero. */
  predicate Effective(bt: Tunnel) {
    bt.PortTunnel? ==> bt.port != 0
  }

  /** The table holds exactly the tunnels owned by the sessions, each under its own route. */
  ghost predicate Matches(table: map<Route, Tunnel>, own: map<Sid, set<Tunnel>>) {
    && (forall r :: r in table ==>
          RouteOf(table[r]) == r && table[r].session in own && table[r] in own[table[r].session])
    && (forall a, bt :: a in own && bt in own[a] ==>
          bt.session == a && RouteOf(bt) in table && table[RouteOf(bt)] == bt)
  }

  lemma MatchAdd(table: map<Route, Tunnel>, own: map<Sid, set<Tunnel>>, bt: Tunnel)
    requires Matches(table, own) && bt.session in own && RouteOf(bt) !in table
    ensures Matches(table[RouteOf(bt) := bt], own[bt.session := own[bt.session] + {bt}])
  {
  }

  lemma MatchRemove(table: map<Route, Tunnel>, own: map<Sid, set<Tunnel>>, bt: Tunnel)
    requires Matches(table, own) && bt.session in own && bt in own[bt.session]
    ensures Matches(table - {RouteOf(bt)}, own[bt.session := own[bt.session] - {bt}])
    ensures |table - {RouteOf(bt)}| == |table| - 1
  {
    var t' := table - {RouteOf(bt)};
    assert t'.Keys == table.Keys - {RouteOf(bt)};
  }

  lemma MatchJoin(table: map<Route, Tunnel>, own: map<Sid, set<Tunnel>>, a: Sid)
    requires Matches(table, own) && a !in own
    ensures Matches(table, own[a := {}])
  {
  }

  /** Two sessions never own tunnels with the same route, nor does one session own two. */
  lemma NoSharedRoute(table: map<Route, Tunnel>, own: map<Sid, set<Tunnel>>, x: Tunnel, y: Tunnel)
    requires Matches(table, own)
    requires x.session in own && x in own[x.session] && y.session in own && y in own[y.session]
    requires RouteOf(x) == RouteOf(y)
    ensures x == y
  {
  }
}

/**
  The routing state of one edge: the hub, the port pool, each session's tunnel map and the tunnel gauge.
  Each is guarded by its own lock, so one step is one section under one lock. A session's own steps follow the
  program of its goroutine (control loop, then teardown); steps of different sessions interleave freely.
 */
module EdgeRouting {
  import opened Tunnels

  /** Which part of releaseTunnel comes next for the tunnel at the head of the queue. */
  datatype Stage = Unrouting | FreeingPort | Uncounting

  /** Where the session's goroutine stands. */
  datatype Pc =
    | Idle                      // reading the control stream
    | HostChosen(bt: Tunnel)    // allocateHost returned
    | PortHeld(bt: Tunnel)      // reserve returned a port
    | PortListening(bt: Tunnel) // the public listener is up and recorded
    | PortGivingUp(bt: Tunnel)  // a failed bind is about to release its port
    | Routed(bt: Tunnel)        // the hub has the route
    | Tracked(bt: Tunnel)       // the session map has the tunnel, the gauge does not count it yet
    | Releasing(queue: seq<Tunnel>, stage: Stage, ending: bool)
    | Leaving                   // everything released, removeSession is next
    | Gone

  datatype Session = Session(tunnels: map<string, Tunnel>, pc: Pc)

  datatype State = State(
    lo: int, hi: int,                // the port pool
    routes: map<Route, Tunnel>,      // byHost and byPort of the hub
    used: map<Route, Tunnel>,        // reserved ports; the tunnel is a note of whom each was reserved for
    listening: set<Route>,
    gauge: int,
    sessions: map<Sid, Session>,
    next: nat)                       // serial number of the next boundTunnel

  datatype Step =
    | Join(a: Sid)
    | ChooseHost(a: Sid, id: string, host: string, custom: bool)
    | BindHost(a: Sid)
    | ReservePort(a: Sid, id: string, proto: Proto, want: int)
    | Listen(a: Sid, ok: bool)
    | BindPort(a: Sid)
    | GiveUpPort(a: Sid)
    | Track(a: Sid)
    | Count(a: Sid)
    | Unbind(a: Sid, id: string)
    | Teardown(a: Sid, order: seq<Tunnel>)
    | Unroute(a: Sid)
    | FreePort(a: Sid)
    | Uncount(a: Sid)
    | Leave(a: Sid)

  // ---- The locked operations ----

  /** bindHost and bindPort refuse a route that another session holds. */
  predicate Conflict(routes: map<Route, Tunnel>, bt: Tunnel) {
    RouteOf(bt) in routes && routes[RouteOf(bt)].session != bt.session
  }

  function HubUnbind(routes: map<Route, Tunnel>, bt: Tunnel): map<Route, Tunnel> {
    if Effective(bt) then routes - {RouteOf(bt)} else routes
  }

  /** The lowest port of [p, hi] that is not in use, or hi + 1 when all are. */
  function FirstFree(used: set<int>, p: int, hi: int): (r: int)
    ensures p <= hi + 1 ==> p <= r <= hi + 1
    ensures r <= hi ==> r !in used
    ensures forall q :: p <= q < r && q <= hi ==> q in used
    decreases hi + 1 - p
  {
    if p > hi || p !in used then (if p > hi then hi + 1 else p) else FirstFree(used, p + 1, hi)
  }

  function UsedPorts(s: State, proto: Proto): set<int> {
    set r | r in s.used && r.PortRoute? && r.proto == proto :: r.port
  }

  /** portManager.reserve: the wanted port, or the lowest free one; `ok` is false for errPortUnavailable. */
  function Reserve(used: set<int>, lo: int, hi: int, want: int): (r: (bool, int))
    ensures r.0 ==> lo <= r.1 <= hi && r.1 !in used
    ensures want == 0 ==> (r.0 <==> exists p :: lo <= p <= hi && p !in used)
    ensures want != 0 ==> (r.0 <==> lo <= want <= hi && want !in used) && (r.0 ==> r.1 == want)
  {
    if want != 0 then
      (lo <= want <= hi && want !in used, want)
    else
      var p := FirstFree(used, lo, hi);
      (lo <= p <= hi, p)
  }

  // ---- Steps ----

  /** The goroutine of session `st.a` may take this step next. */
  predicate Ready(s: State, sess: Session, st: Step) {
    match st
    case Join(_) => false
    case ChooseHost(_, _, host, custom) =>
      sess.pc == Idle && host != "" && (!custom ==> HostRoute(host) !in s.routes)
    case BindHost(_) => sess.pc.HostChosen?
    case ReservePort(_, _, _, _) => sess.pc == Idle
    case Listen(_, _) => sess.pc.PortHeld?
    case BindPort(_) => sess.pc.PortListening?
    case GiveUpPort(_) => sess.pc.PortGivingUp?
    case Track(_) => sess.pc.Routed?
    case Count(_) => sess.pc.Tracked?
    case Unbind(_, _) => sess.pc == Idle
    case Teardown(_, order) => sess.pc == Idle && Distinct(order) && Elements(order) == sess.tunnels.Values
    case Unroute(_) => sess.pc.Releasing? && sess.pc.queue != [] && sess.pc.stage == Unrouting
    case FreePort(_) => sess.pc.Releasing? && sess.pc.queue != [] && sess.pc.stage == FreeingPort
    case Uncount(_) => sess.pc.Releasing? && sess.pc.queue != [] && sess.pc.stage == Uncounting
    case Leave(_) => sess.pc == Leaving
  }

  predicate Enabled(s: State, st: Step) {
    if st.Join? then st.a !in s.sessions else st.a in s.sessions && Ready(s, s.sessions[st.a], st)
  }

  predicate Distinct(q: seq<Tunnel>) {
    forall i, j :: 0 <= i < j < |q| ==> q[i] != q[j]
  }

  function Elements(q: seq<Tunnel>): set<Tunnel> {
    set bt | bt in q
  }

  function Goto(s: State, a: Sid, pc: Pc): State
    requires a in s.sessions
  {
    s.(sessions := s.sessions[a := s.sessions[a].(pc := pc)])
  }

  function ApplyBind(s: State, a: Sid, bt: Tunnel, refused: Pc): State
    requires a in s.sessions
  {
    if Conflict(s.routes, bt) then Goto(s, a, refused)
    else Goto(s.(routes := s.routes[RouteOf(bt) := bt]), a, Routed(bt))
  }

  function ApplyReserve(s: State, a: Sid, id: string, proto: Proto, want: int): State
    requires a in s.sessions
  {
    var (ok, port) := Reserve(UsedPorts(s, proto), s.lo, s.hi, want);
    if !ok then s
    else
      var bt := PortTunnel(s.next, a, id, proto, port);
      Goto(s.(used := s.used[RouteOf(bt) := bt], next := s.next + 1), a, PortHeld(bt))
  }

  function ReleasePort(s: State, bt: Tunnel): State {
    s.(used := s.used - {RouteOf(bt)}, listening := s.listening - {RouteOf(bt)})
  }

  /** The part of releaseTunnel after the hub: a port tunnel still has its port to give back. */
  function AfterUnroute(queue: seq<Tunnel>, ending: bool): Pc
    requires queue != []
  {
    Releasing(queue, if queue[0].PortTunnel? && Effective(queue[0]) then FreeingPort else Uncounting, ending)
  }

  function AfterRelease(queue: seq<Tunnel>, ending: bool): Pc {
    if queue != [] then Releasing(queue, Unrouting, ending) else if ending then Leaving else Idle
  }

  function ApplyUnbind(s: State, a: Sid, id: string): State
    requires a in s.sessions
  {
    var sess := s.sessions[a];
    if id !in sess.tunnels then s
    else s.(sessions := s.sessions[a := Session(sess.tunnels - {id}, Releasing([sess.tunnels[id]], Unrouting, false))])
  }

  function Apply(s: State, st: Step): State
    requires Enabled(s, st)
  {
    match st
    case Join(a) => s.(sessions := s.sessions[a := Session(map[], Idle)])
    case ChooseHost(a, id, host, _) =>
      Goto(s.(next := s.next + 1), a, HostChosen(HostTunnel(s.next, a, id, host)))
    case BindHost(a) => ApplyBind(s, a, s.sessions[a].pc.bt, Idle)
    case ReservePort(a, id, proto, want) => ApplyReserve(s, a, id, proto, want)
    case Listen(a, ok) =>
      var bt := s.sessions[a].pc.bt;
      if ok then Goto(s.(listening := s.listening + {RouteOf(bt)}), a, PortListening(bt))
      else Goto(s, a, PortGivingUp(bt))
    case BindPort(a) => ApplyBind(s, a, s.sessions[a].pc.bt, PortGivingUp(s.sessions[a].pc.bt))
    case GiveUpPort(a) => Goto(ReleasePort(s, s.sessions[a].pc.bt), a, Idle)
    case Track(a) =>
      var bt := s.sessions[a].pc.bt;
      s.(sessions := s.sessions[a := Session(s.sessions[a].tunnels[bt.id := bt], Tracked(bt))])
    case Count(a) => Goto(s.(gauge := s.gauge + 1), a, Idle)
    case Unbind(a, id) => ApplyUnbind(s, a, id)
    case Teardown(a, order) => s.(sessions := s.sessions[a := Session(map[], AfterRelease(order, true))])
    case Unroute(a) =>
      var pc := s.sessions[a].pc;
      Goto(s.(routes := HubUnbind(s.routes, pc.queue[0])), a, AfterUnroute(pc.queue, pc.ending))
    case FreePort(a) =>
      var pc := s.sessions[a].pc;
      Goto(ReleasePort(s, pc.queue[0]), a, Releasing(pc.queue, Uncounting, pc.ending))
    case Uncount(a) =>
      var pc := s.sessions[a].pc;
      Goto(s.(gauge := s.gauge - 1), a, AfterRelease(pc.queue[1..], pc.ending))
    case Leave(a) => Goto(s, a, Gone)
  }

  predicate Init(s: State) {
    s.routes == map[] && s.used == map[] && s.listening == {} && s.gauge == 0 && s.sessions == map[]
  }

  // ---- What each session owns ----

  /** Tunnels whose route the session has put into the hub and not yet taken out. */
  function RoutedBy(sess: Session): set<Tunnel> {
    sess.tunnels.Values +
    match sess.pc
    case Routed(bt) => {bt}
    case Releasing(q, stage, _) => if stage == Unrouting || q == [] then Elements(q) else Elements(q[1..])
    case _ => {}
  }

  /** Port tunnels whose port the session has reserved and not yet given back. */
  function HeldBy(sess: Session): set<Tunnel> {
    (set bt | bt in sess.tunnels.Values && bt.PortTunnel?) +
    match sess.pc
    case PortHeld(bt) => {bt}
    case PortListening(bt) => {bt}
    case PortGivingUp(bt) => {bt}
    case Routed(bt) => if bt.PortTunnel? then {bt} else {}
    case Releasing(q, stage, _) =>
      if stage == Uncounting && q != [] then (set bt | bt in q[1..] && bt.PortTunnel?)
      else (set bt | bt in q && bt.PortTunnel?)
    case _ => {}
  }

  function RouteOwners(s: State): map<Sid, set<Tunnel>> {
    map a | a in s.sessions :: RoutedBy(s.sessions[a])
  }

  function PortOwners(s: State): map<Sid, set<Tunnel>> {
    map a | a in s.sessions :: HeldBy(s.sessions[a])
  }

  // ---- The invariant ----

  /** A tunnel record created by session `a`, when `next` is the next serial number. */
  predicate Mine(next: nat, a: Sid, bt: Tunnel) {
    bt.session == a && bt.serial < next && Effective(bt)
  }

  /** A record in flight: created by `a`, and not (or no longer) in its tunnel map. */
  predicate InFlight(next: nat, a: Sid, sess: Session, bt: Tunnel) {
    Mine(next, a, bt) && bt !in sess.tunnels.Values
  }

  ghost predicate TunnelsOk(next: nat, a: Sid, tunnels: map<string, Tunnel>) {
    forall id :: id in tunnels ==> tunnels[id].id == id && Mine(next, a, tunnels[id])
  }

  ghost predicate PcOk(next: nat, a: Sid, sess: Session) {
    match sess.pc
    case Idle => true
    case HostChosen(bt) => InFlight(next, a, sess, bt) && bt.HostTunnel?
    case PortHeld(bt) => InFlight(next, a, sess, bt) && bt.PortTunnel?
    case PortListening(bt) => InFlight(next, a, sess, bt) && bt.PortTunnel?
    case PortGivingUp(bt) => InFlight(next, a, sess, bt) && bt.PortTunnel?
    case Routed(bt) => InFlight(next, a, sess, bt)
    case Tracked(bt) => bt.id in sess.tunnels && sess.tunnels[bt.id] == bt
    case Releasing(q, stage, ending) =>
      && q != [] && Distinct(q)
      && (forall i :: 0 <= i < |q| ==> InFlight(next, a, sess, q[i]))
      && (stage == FreeingPort ==> q[0].PortTunnel?)
      && (ending ==> sess.tunnels == map[])
    case Leaving => sess.tunnels == map[]
    case Gone => sess.tunnels == map[]
  }

  ghost predicate SessionOk(next: nat, a: Sid, sess: Session) {
    TunnelsOk(next, a, sess.tunnels) && PcOk(next, a, sess)
  }

  ghost predicate SessionsOk(s: State) {
    forall a :: a in s.sessions ==> SessionOk(s.next, a, s.sessions[a])
  }

  predicate IsUncounted(pc: Pc) {
    pc.Routed? || pc.Tracked?
  }

  predicate IsOvercounted(pc: Pc) {
    pc.Releasing? && pc.stage != Unrouting
  }

  /** Sessions between the hub's entry and the gauge's increment. */
  function Uncounted(s: State): set<Sid> {
    set a | a in s.sessions && IsUncounted(s.sessions[a].pc)
  }

  /** Sessions between the removal of the hub's entry and the gauge's decrement. */
  function Overcounted(s: State): set<Sid> {
    set a | a in s.sessions && IsOvercounted(s.sessions[a].pc)
  }

  predicate GaugeOk(s: State) {
    s.gauge == |s.routes| - |Uncounted(s)| + |Overcounted(s)|
  }

  /** The hub and the port pool hold exactly what the sessions have put there. */
  ghost predicate Agrees(s: State) {
    SessionsOk(s) && Matches(s.routes, RouteOwners(s)) && Matches(s.used, PortOwners(s))
  }

  ghost predicate Inv(s: State) {
    Agrees(s) && s.listening <= s.used.Keys && GaugeOk(s)
  }

  /** The pool does not contain port 0, which the release path takes to mean "no port". */
  predicate PoolOk(s: State) {
    !(s.lo <= 0 <= s.hi)
  }

  /** A session puts a host into the hub that it already has there. */
  predicate DuplicateHost(s: State, st: Step) {
    && st.BindHost? && Enabled(s, st)
    && var bt := s.sessions[st.a].pc.bt;
       RouteOf(bt) in s.routes && s.routes[RouteOf(bt)].session == st.a
  }

  /** A session tracks a tunnel under an id that it already uses. */
  predicate DuplicateId(s: State, st: Step) {
    st.Track? && Enabled(s, st) && s.sessions[st.a].pc.bt.id in s.sessions[st.a].tunnels
  }

  lemma ValuesAdd(m: map<string, Tunnel>, k: string, v: Tunnel)
    requires k !in m
    ensures m[k := v].Values == m.Values + {v}
  {
    assert m[k := v][k] == v;
    forall x | x in m.Values ensures x in m[k := v].Values {
      var j :| j in m && m[j] == x;
      assert m[k := v][j] == x;
    }
  }

  lemma ValuesRemove(m: map<string, Tunnel>, k: string)
    requires k in m
    ensures m.Values == (m - {k}).Values + {m[k]}
  {
    forall x | x in m.Values ensures x in (m - {k}).Values + {m[k]} {
      var j :| j in m && m[j] == x;
      if j != k {
        assert (m - {k})[j] == x;
      }
    }
  }

  lemma RoutedPortIsHeld(sess: Session, bt: Tunnel)
    requires bt in RoutedBy(sess) && bt.PortTunnel?
    ensures bt in HeldBy(sess)
  {
  }

  /** A port bind in flight never finds its route in the hub, so the hub's port conflict cannot happen. */
  lemma PortRouteIsFree(s: State, a: Sid)
    requires SessionsOk(s) && Matches(s.routes, RouteOwners(s)) && Matches(s.used, PortOwners(s))
    requires a in s.sessions && s.sessions[a].pc.PortListening?
    ensures RouteOf(s.sessions[a].pc.bt) !in s.routes
  {
    var bt := s.sessions[a].pc.bt;
    assert SessionOk(s.next, a, s.sessions[a]);
    if RouteOf(bt) in s.routes {
      var x := s.routes[RouteOf(bt)];
      assert x in RouteOwners(s)[x.session];
      RoutedPortIsHeld(s.sessions[x.session], x);
      NoSharedRoute(s.used, PortOwners(s), x, bt);
    }
  }

  lemma UnbindKeepsSession(s: State, a: Sid, id: string)
    requires a in s.sessions && SessionOk(s.next, a, s.sessions[a])
    ensures SessionOk(s.next, a, ApplyUnbind(s, a, id).sessions[a])
  {
  }

  lemma TeardownKeepsSession(s: State, a: Sid, order: seq<Tunnel>)
    requires a in s.sessions && SessionOk(s.next, a, s.sessions[a]) && Enabled(s, Teardown(a, order))
    ensures SessionOk(s.next, a, Apply(s, Teardown(a, order)).sessions[a])
  {
    var sess' := Apply(s, Teardown(a, order)).sessions[a];
    forall i | 0 <= i < |order|
      ensures InFlight(s.next, a, sess', order[i])
    {
      assert order[i] in Elements(order);
    }
  }

  lemma UncountKeepsSession(s: State, a: Sid)
    requires a in s.sessions && SessionOk(s.next, a, s.sessions[a]) && Enabled(s, Uncount(a))
    ensures SessionOk(s.next, a, Apply(s, Uncount(a)).sessions[a])
  {
    var q := s.sessions[a].pc.queue;
    assert forall i :: 0 <= i < |q[1..]| ==> q[1..][i] == q[i + 1];
  }

  lemma TrackKeepsSession(s: State, a: Sid)
    requires a in s.sessions && SessionOk(s.next, a, s.sessions[a]) && Enabled(s, Track(a))
    ensures SessionOk(s.next, a, Apply(s, Track(a)).sessions[a])
  {
  }

  lemma ReleaseKeepsSession(s: State, st: Step)
    requires st.Unroute? || st.FreePort? || st.Leave?
    requires Enabled(s, st) && SessionOk(s.next, st.a, s.sessions[st.a])
    ensures SessionOk(s.next, st.a, Apply(s, st).sessions[st.a])
  {
  }

  lemma BindKeepsSession(s: State, st: Step)
    requires || st.ChooseHost? || st.BindHost? || st.ReservePort? || st.Listen? || st.BindPort?
             || st.GiveUpPort? || st.Count?
    requires PoolOk(s) && Enabled(s, st) && SessionOk(s.next, st.a, s.sessions[st.a])
    ensures SessionOk(Apply(s, st).next, st.a, Apply(s, st).sessions[st.a])
  {
  }

  lemma SessionStep(s: State, st: Step)
    requires SessionsOk(s) && PoolOk(s) && Enabled(s, st)
    ensures SessionsOk(Apply(s, st))
  {
    if !st.Join? {
      assert SessionOk(s.next, st.a, s.sessions[st.a]);
      if st.Unbind? {
        UnbindKeepsSession(s, st.a, st.id);
      } else if st.Teardown? {
        TeardownKeepsSession(s, st.a, st.order);
      } else if st.Uncount? {
        UncountKeepsSession(s, st.a);
      } else if st.Track? {
        TrackKeepsSession(s, st.a);
      } else if st.Unroute? || st.FreePort? || st.Leave? {
        ReleaseKeepsSession(s, st);
      } else {
        BindKeepsSession(s, st);
      }
    }
    Frame(s, st);
    OthersKeepSession(s, st);
  }

  /** A step touches no other session's tunnel map or program counter. */
  lemma Frame(s: State, st: Step)
    requires Enabled(s, st)
    ensures var s' := Apply(s, st);
      && st.a in s'.sessions
      && s'.sessions == s.sessions[st.a := s'.sessions[st.a]]
      && s.next <= s'.next && s'.lo == s.lo && s'.hi == s.hi
  {
  }

  lemma OthersKeepSession(s: State, st: Step)
    requires SessionsOk(s) && Enabled(s, st)
    ensures forall b :: b in s.sessions ==> SessionOk(Apply(s, st).next, b, s.sessions[b])
  {
    Frame(s, st);
    forall b | b in s.sessions
      ensures SessionOk(Apply(s, st).next, b, s.sessions[b])
    {
      SessionGrows(s.next, Apply(s, st).next, b, s.sessions[b]);
    }
  }

  lemma SessionGrows(n: nat, n': nat, b: Sid, sess: Session)
    requires n <= n' && SessionOk(n, b, sess)
    ensures SessionOk(n', b, sess)
  {
  }

  // ---- Routes ----

  lemma OwnersUpdate(s: State, s': State, a: Sid)
    requires a in s'.sessions && s'.sessions == s.sessions[a := s'.sessions[a]]
    ensures RouteOwners(s') == RouteOwners(s)[a := RoutedBy(s'.sessions[a])]
    ensures PortOwners(s') == PortOwners(s)[a := HeldBy(s'.sessions[a])]
  {
  }

  lemma TrackMoves(s: State, a: Sid)
    requires Enabled(s, Track(a)) && !DuplicateId(s, Track(a))
    ensures RoutedBy(Apply(s, Track(a)).sessions[a]) == RoutedBy(s.sessions[a])
    ensures HeldBy(Apply(s, Track(a)).sessions[a]) == HeldBy(s.sessions[a])
  {
    ValuesAdd(s.sessions[a].tunnels, s.sessions[a].pc.bt.id, s.sessions[a].pc.bt);
  }

  lemma UnbindMoves(s: State, a: Sid, id: string)
    requires Enabled(s, Unbind(a, id))
    ensures RoutedBy(ApplyUnbind(s, a, id).sessions[a]) == RoutedBy(s.sessions[a])
    ensures HeldBy(ApplyUnbind(s, a, id).sessions[a]) == HeldBy(s.sessions[a])
  {
    var tunnels := s.sessions[a].tunnels;
    if id in tunnels {
      ValuesRemove(tunnels, id);
      assert Elements([tunnels[id]]) == {tunnels[id]};
    }
  }

  lemma TeardownMoves(s: State, a: Sid, order: seq<Tunnel>)
    requires Enabled(s, Teardown(a, order))
    ensures RoutedBy(Apply(s, Teardown(a, order)).sessions[a]) == RoutedBy(s.sessions[a])
    ensures HeldBy(Apply(s, Teardown(a, order)).sessions[a]) == HeldBy(s.sessions[a])
  {
    assert forall bt :: bt in order <==> bt in Elements(order);
  }

  /** Moving a tunnel between the session's map and its program counter keeps its routes and ports. */
  lemma OwnedMoves(s: State, st: Step)
    requires st.Track? || st.Unbind? || st.Teardown?
    requires Enabled(s, st) && !DuplicateId(s, st)
    ensures RoutedBy(Apply(s, st).sessions[st.a]) == RoutedBy(s.sessions[st.a])
    ensures HeldBy(Apply(s, st).sessions[st.a]) == HeldBy(s.sessions[st.a])
  {
    if st.Track? {
      TrackMoves(s, st.a);
    } else if st.Unbind? {
      UnbindMoves(s, st.a, st.id);
    } else {
      TeardownMoves(s, st.a, st.order);
    }
  }

  /** The session once the head of its queue is out of the hub. */
  function AfterTakingOut(sess: Session): Session
    requires sess.pc.Releasing? && sess.pc.queue != []
  {
    sess.(pc := AfterUnroute(sess.pc.queue, sess.pc.ending))
  }

  lemma TakingOutRoutes(sess: Session, a: Sid, next: nat)
    requires sess.pc.Releasing? && sess.pc.queue != [] && sess.pc.stage == Unrouting && SessionOk(next, a, sess)
    ensures sess.pc.queue[0] in RoutedBy(sess)
    ensures RoutedBy(AfterTakingOut(sess)) == RoutedBy(sess) - {sess.pc.queue[0]}
  {
    var q := sess.pc.queue;
    assert q == [q[0]] + q[1..];
    assert Elements(q) == {q[0]} + Elements(q[1..]);
    assert q[0] !in q[1..] && q[0] !in sess.tunnels.Values;
  }

  lemma TakingOutPorts(sess: Session, a: Sid, next: nat)
    requires sess.pc.Releasing? && sess.pc.queue != [] && sess.pc.stage == Unrouting && SessionOk(next, a, sess)
    ensures HeldBy(AfterTakingOut(sess)) == HeldBy(sess)
  {
    var q := sess.pc.queue;
    assert q == [q[0]] + q[1..];
  }

  lemma UnrouteDropsOne(s: State, a: Sid)
    requires Enabled(s, Unroute(a)) && SessionOk(s.next, a, s.sessions[a])
    ensures var bt := s.sessions[a].pc.queue[0];
      && bt in RoutedBy(s.sessions[a])
      && RoutedBy(Apply(s, Unroute(a)).sessions[a]) == RoutedBy(s.sessions[a]) - {bt}
      && HeldBy(Apply(s, Unroute(a)).sessions[a]) == HeldBy(s.sessions[a])
  {
    TakingOutRoutes(s.sessions[a], a, s.next);
    TakingOutPorts(s.sessions[a], a, s.next);
    assert Apply(s, Unroute(a)).sessions[a] == AfterTakingOut(s.sessions[a]);
  }

  lemma RoutesStay(s: State, st: Step)
    requires st.ChooseHost? || st.ReservePort? || st.Listen? || st.GiveUpPort? || st.Count?
    requires Enabled(s, st) && SessionOk(s.next, st.a, s.sessions[st.a])
    ensures Apply(s, st).routes == s.routes
    ensures RoutedBy(Apply(s, st).sessions[st.a]) == RoutedBy(s.sessions[st.a])
  {
  }

  lemma RoutesStayOut(s: State, st: Step)
    requires st.FreePort? || st.Uncount? || st.Leave?
    requires Enabled(s, st) && SessionOk(s.next, st.a, s.sessions[st.a])
    ensures Apply(s, st).routes == s.routes
    ensures RoutedBy(Apply(s, st).sessions[st.a]) == RoutedBy(s.sessions[st.a])
  {
  }

  predicate AddsRoute(s: State, st: Step)
    requires Enabled(s, st)
  {
    (st.BindHost? || st.BindPort?) && !Conflict(s.routes, s.sessions[st.a].pc.bt)
  }

  lemma NewRouteIsFree(s: State, st: Step)
    requires SessionsOk(s) && Matches(s.routes, RouteOwners(s)) && Matches(s.used, PortOwners(s))
    requires Enabled(s, st) && !DuplicateHost(s, st) && AddsRoute(s, st)
    ensures RouteOf(s.sessions[st.a].pc.bt) !in s.routes
  {
    assert SessionOk(s.next, st.a, s.sessions[st.a]);
    if st.BindPort? {
      PortRouteIsFree(s, st.a);
    }
  }

  lemma BindAddsOne(s: State, st: Step)
    requires st.BindHost? || st.BindPort?
    requires Enabled(s, st)
    ensures var bt := s.sessions[st.a].pc.bt; var s' := Apply(s, st);
      && s'.routes == (if AddsRoute(s, st) then s.routes[RouteOf(bt) := bt] else s.routes)
      && RoutedBy(s'.sessions[st.a]) == RoutedBy(s.sessions[st.a]) + (if AddsRoute(s, st) then {bt} else {})
  {
  }

  lemma BindRoutes(s: State, st: Step)
    requires st.BindHost? || st.BindPort?
    requires SessionsOk(s) && Matches(s.routes, RouteOwners(s)) && Matches(s.used, PortOwners(s))
    requires Enabled(s, st) && !DuplicateHost(s, st)
    ensures Matches(Apply(s, st).routes, RouteOwners(s)[st.a := RoutedBy(Apply(s, st).sessions[st.a])])
  {
    BindAddsOne(s, st);
    if AddsRoute(s, st) {
      assert SessionOk(s.next, st.a, s.sessions[st.a]);
      NewRouteIsFree(s, st);
      OwnerAt(s, st.a);
      var s' := Apply(s, st);
      TableGainsOne(s.routes, RouteOwners(s), st.a, s.sessions[st.a].pc.bt, s'.routes, RoutedBy(s'.sessions[st.a]));
    } else {
      assert RouteOwners(s)[st.a := RouteOwners(s)[st.a]] == RouteOwners(s);
    }
  }

  lemma UnrouteTakesOut(s: State, a: Sid)
    requires Enabled(s, Unroute(a)) && SessionOk(s.next, a, s.sessions[a])
    ensures var bt := s.sessions[a].pc.queue[0];
      bt.session == a && Apply(s, Unroute(a)).routes == s.routes - {RouteOf(bt)}
  {
  }

  lemma TableGainsOne(table: map<Route, Tunnel>, own: map<Sid, set<Tunnel>>, a: Sid, bt: Tunnel,
                      table': map<Route, Tunnel>, more: set<Tunnel>)
    requires Matches(table, own) && a in own && RouteOf(bt) !in table && bt.session == a
    requires table' == table[RouteOf(bt) := bt] && more == own[a] + {bt}
    ensures Matches(table', own[a := more])
  {
    MatchAdd(table, own, bt);
  }

  lemma TableLosesOne(table: map<Route, Tunnel>, own: map<Sid, set<Tunnel>>, a: Sid, bt: Tunnel,
                      table': map<Route, Tunnel>, left: set<Tunnel>)
    requires Matches(table, own) && a in own && bt in own[a] && bt.session == a
    requires table' == table - {RouteOf(bt)} && left == own[a] - {bt}
    ensures Matches(table', own[a := left]) && |table'| == |table| - 1
  {
    MatchRemove(table, own, bt);
  }

  lemma UnrouteRoutes(s: State, a: Sid)
    requires Enabled(s, Unroute(a)) && SessionOk(s.next, a, s.sessions[a]) && Matches(s.routes, RouteOwners(s))
    ensures Matches(Apply(s, Unroute(a)).routes, RouteOwners(s)[a := RoutedBy(Apply(s, Unroute(a)).sessions[a])])
    ensures |Apply(s, Unroute(a)).routes| == |s.routes| - 1
  {
    UnrouteDropsOne(s, a);
    UnrouteTakesOut(s, a);
    var s' := Apply(s, Unroute(a));
    OwnerAt(s, a);
    TableLosesOne(s.routes, RouteOwners(s), a, s.sessions[a].pc.queue[0], s'.routes, RoutedBy(s'.sessions[a]));
  }

  lemma OwnerAt(s: State, a: Sid)
    requires a in s.sessions
    ensures a in RouteOwners(s) && RouteOwners(s)[a] == RoutedBy(s.sessions[a])
  {
  }

  lemma RoutesStep(s: State, st: Step)
    requires SessionsOk(s) && Matches(s.routes, RouteOwners(s)) && Matches(s.used, PortOwners(s))
    requires Enabled(s, st) && !DuplicateHost(s, st) && !DuplicateId(s, st)
    ensures Matches(Apply(s, st).routes, RouteOwners(Apply(s, st)))
  {
    Frame(s, st);
    OwnersUpdate(s, Apply(s, st), st.a);
    if st.Join? {
      MatchJoin(s.routes, RouteOwners(s), st.a);
      assert RoutedBy(Apply(s, st).sessions[st.a]) == {};
    } else if st.BindHost? || st.BindPort? {
      BindRoutes(s, st);
    } else if st.Unroute? {
      assert SessionOk(s.next, st.a, s.sessions[st.a]);
      UnrouteRoutes(s, st.a);
    } else {
      assert SessionOk(s.next, st.a, s.sessions[st.a]);
      if st.Track? || st.Unbind? || st.Teardown? {
        OwnedMoves(s, st);
      } else if st.FreePort? || st.Uncount? || st.Leave? {
        RoutesStayOut(s, st);
      } else {
        RoutesStay(s, st);
      }
      assert RouteOwners(s)[st.a := RouteOwners(s)[st.a]] == RouteOwners(s);
    }
  }

  // ---- Ports ----

  lemma ReserveAddsOne(s: State, st: Step)
    requires st.ReservePort? && Enabled(s, st) && SessionOk(s.next, st.a, s.sessions[st.a])
    requires Matches(s.used, PortOwners(s))
    ensures Matches(Apply(s, st).used, PortOwners(s)[st.a := HeldBy(Apply(s, st).sessions[st.a])])
  {
    var (ok, port) := Reserve(UsedPorts(s, st.proto), s.lo, s.hi, st.want);
    var sess, sess' := s.sessions[st.a], Apply(s, st).sessions[st.a];
    if ok {
      var bt := PortTunnel(s.next, st.a, st.id, st.proto, port);
      assert port !in UsedPorts(s, st.proto);
      assert HeldBy(sess') == HeldBy(sess) + {bt};
      MatchAdd(s.used, PortOwners(s), bt);
    } else {
      assert PortOwners(s)[st.a := PortOwners(s)[st.a]] == PortOwners(s);
    }
  }

  lemma GiveUpDropsOne(s: State, a: Sid)
    requires Enabled(s, GiveUpPort(a)) && SessionOk(s.next, a, s.sessions[a])
    ensures var bt := s.sessions[a].pc.bt; var sess' := Apply(s, GiveUpPort(a)).sessions[a];
      bt in HeldBy(s.sessions[a]) && HeldBy(sess') == HeldBy(s.sessions[a]) - {bt}
  {
  }

  lemma FreeDropsOne(s: State, a: Sid)
    requires Enabled(s, FreePort(a)) && SessionOk(s.next, a, s.sessions[a])
    ensures var bt := s.sessions[a].pc.queue[0]; var sess' := Apply(s, FreePort(a)).sessions[a];
      bt in HeldBy(s.sessions[a]) && HeldBy(sess') == HeldBy(s.sessions[a]) - {bt}
  {
    var q := s.sessions[a].pc.queue;
    assert q == [q[0]] + q[1..];
    assert q[0] !in q[1..];
  }

  lemma PortsStay(s: State, st: Step)
    requires st.ChooseHost? || st.BindHost? || st.Listen? || st.BindPort? || st.Count? || st.Uncount? || st.Leave?
    requires Enabled(s, st) && SessionOk(s.next, st.a, s.sessions[st.a])
    ensures Apply(s, st).used == s.used
    ensures HeldBy(Apply(s, st).sessions[st.a]) == HeldBy(s.sessions[st.a])
  {
  }

  /** The tunnel whose port this step gives back. */
  function Freed(s: State, st: Step): Tunnel
    requires Enabled(s, st) && (st.GiveUpPort? || st.FreePort?)
  {
    if st.GiveUpPort? then s.sessions[st.a].pc.bt else s.sessions[st.a].pc.queue[0]
  }

  lemma FreePorts(s: State, st: Step)
    requires st.GiveUpPort? || st.FreePort?
    requires Enabled(s, st) && SessionOk(s.next, st.a, s.sessions[st.a]) && Matches(s.used, PortOwners(s))
    ensures Matches(Apply(s, st).used, PortOwners(s)[st.a := HeldBy(Apply(s, st).sessions[st.a])])
  {
    if st.GiveUpPort? {
      GiveUpDropsOne(s, st.a);
    } else {
      FreeDropsOne(s, st.a);
    }
    MatchRemove(s.used, PortOwners(s), Freed(s, st));
  }

  lemma PortsStep(s: State, st: Step)
    requires SessionsOk(s) && Matches(s.used, PortOwners(s)) && Enabled(s, st) && !DuplicateId(s, st)
    ensures Matches(Apply(s, st).used, PortOwners(Apply(s, st)))
  {
    Frame(s, st);
    OwnersUpdate(s, Apply(s, st), st.a);
    if st.Join? {
      MatchJoin(s.used, PortOwners(s), st.a);
      assert HeldBy(Apply(s, st).sessions[st.a]) == {};
    } else {
      assert SessionOk(s.next, st.a, s.sessions[st.a]);
      if st.ReservePort? {
        ReserveAddsOne(s, st);
      } else if st.GiveUpPort? || st.FreePort? {
        FreePorts(s, st);
      } else {
        if st.Track? || st.Unbind? || st.Teardown? {
          OwnedMoves(s, st);
        } else if st.Unroute? {
          UnrouteDropsOne(s, st.a);
        } else {
          PortsStay(s, st);
        }
        assert PortOwners(s)[st.a := PortOwners(s)[st.a]] == PortOwners(s);
      }
    }
  }

  lemma ListenOnHeldPort(s: State, a: Sid)
    requires a in s.sessions && s.sessions[a].pc.PortHeld? && Matches(s.used, PortOwners(s))
    ensures RouteOf(s.sessions[a].pc.bt) in s.used
  {
    assert s.sessions[a].pc.bt in PortOwners(s)[a];
  }

  /** Public listeners exist only on reserved ports. */
  lemma ListeningStep(s: State, st: Step)
    requires Matches(s.used, PortOwners(s)) && s.listening <= s.used.Keys && Enabled(s, st)
    ensures Apply(s, st).listening <= Apply(s, st).used.Keys
  {
    if st.Listen? {
      ListenOnHeldPort(s, st.a);
    } else {
      ListeningKept(s, st);
    }
  }

  lemma ListeningKept(s: State, st: Step)
    requires s.listening <= s.used.Keys && Enabled(s, st) && !st.Listen?
    ensures Apply(s, st).listening <= Apply(s, st).used.Keys
  {
  }

  // ---- The gauge ----

  /** What a session in mid-step contributes to the difference between the gauge and the routes. */
  function Weight(pc: Pc): int {
    if IsUncounted(pc) then -1 else if IsOvercounted(pc) then 1 else 0
  }

  lemma SizeUpdate(x: set<Sid>, y: set<Sid>, a: Sid)
    requires x - {a} == y - {a}
    ensures |y| == |x| + (if a in y then 1 else 0) - (if a in x then 1 else 0)
  {
    var z := x - {a};
    assert x == if a in x then z + {a} else z;
    assert y == if a in y then z + {a} else z;
  }

  lemma WeightUpdate(s: State, s': State, a: Sid)
    requires a in s.sessions && a in s'.sessions && s'.sessions == s.sessions[a := s'.sessions[a]]
    ensures |Overcounted(s')| - |Uncounted(s')| ==
      |Overcounted(s)| - |Uncounted(s)| + Weight(s'.sessions[a].pc) - Weight(s.sessions[a].pc)
  {
    SizeUpdate(Uncounted(s), Uncounted(s'), a);
    SizeUpdate(Overcounted(s), Overcounted(s'), a);
  }

  /** By how much the step changes the number of routes. */
  function RouteDelta(s: State, st: Step): int
    requires Enabled(s, st)
  {
    if AddsRoute(s, st) then 1 else if st.Unroute? then -1 else 0
  }

  lemma RoutesUnchanged(s: State, st: Step)
    requires Enabled(s, st) && !AddsRoute(s, st) && !st.Unroute?
    ensures Apply(s, st).routes == s.routes
  {
  }

  lemma RouteCount(s: State, st: Step)
    requires SessionsOk(s) && Matches(s.routes, RouteOwners(s)) && Matches(s.used, PortOwners(s))
    requires Enabled(s, st) && !DuplicateHost(s, st)
    ensures |Apply(s, st).routes| == |s.routes| + RouteDelta(s, st)
  {
    if st.Unroute? {
      assert SessionOk(s.next, st.a, s.sessions[st.a]);
      UnrouteRoutes(s, st.a);
    } else if AddsRoute(s, st) {
      NewRouteIsFree(s, st);
    } else {
      RoutesUnchanged(s, st);
    }
  }

  /** Every step changes the gauge by its change in routes plus its change in weight. */
  lemma GaugeDelta(s: State, st: Step)
    requires !st.Join? && Enabled(s, st)
    ensures Apply(s, st).gauge ==
      s.gauge + RouteDelta(s, st) + Weight(Apply(s, st).sessions[st.a].pc) - Weight(s.sessions[st.a].pc)
  {
  }

  lemma GaugeAfterJoin(s: State, s': State, a: Sid)
    requires GaugeOk(s) && a !in s.sessions && s' == s.(sessions := s.sessions[a := Session(map[], Idle)])
    ensures GaugeOk(s')
  {
    assert Uncounted(s') == Uncounted(s) && Overcounted(s') == Overcounted(s);
  }

  lemma GaugeAfter(s: State, s': State, a: Sid, delta: int)
    requires GaugeOk(s) && a in s.sessions && a in s'.sessions && s'.sessions == s.sessions[a := s'.sessions[a]]
    requires |s'.routes| == |s.routes| + delta
    requires s'.gauge == s.gauge + delta + Weight(s'.sessions[a].pc) - Weight(s.sessions[a].pc)
    ensures GaugeOk(s')
  {
    WeightUpdate(s, s', a);
  }

  lemma GaugeStep(s: State, st: Step)
    requires SessionsOk(s) && Matches(s.routes, RouteOwners(s)) && Matches(s.used, PortOwners(s)) && GaugeOk(s)
    requires Enabled(s, st) && !DuplicateHost(s, st)
    ensures GaugeOk(Apply(s, st))
  {
    if st.Join? {
      GaugeAfterJoin(s, Apply(s, st), st.a);
    } else {
      Frame(s, st);
      RouteCount(s, st);
      GaugeDelta(s, st);
      GaugeAfter(s, Apply(s, st), st.a, RouteDelta(s, st));
    }
  }

  lemma StepKeepsInv(s: State, st: Step)
    requires Inv(s) && PoolOk(s) && Enabled(s, st) && !DuplicateHost(s, st) && !DuplicateId(s, st)
    ensures Inv(Apply(s, st)) && PoolOk(Apply(s, st))
  {
    Frame(s, st);
    SessionStep(s, st);
    RoutesStep(s, st);
    PortsStep(s, st);
    ListeningStep(s, st);
    GaugeStep(s, st);
  }

  lemma DuplicateHostBreaks(s: State, st: Step)
    requires SessionsOk(s) && Matches(s.routes, RouteOwners(s)) && DuplicateHost(s, st)
    ensures !Matches(Apply(s, st).routes, RouteOwners(Apply(s, st)))
  {
    var s', bt := Apply(s, st), s.sessions[st.a].pc.bt;
    var prior := s.routes[RouteOf(bt)];
    assert SessionOk(s.next, st.a, s.sessions[st.a]);
    assert RouteOwners(s)[st.a] == RoutedBy(s.sessions[st.a]);
    assert prior in RouteOwners(s')[st.a];
  }

  lemma TrackDropsPrior(s: State, st: Step)
    requires DuplicateId(s, st) && SessionOk(s.next, st.a, s.sessions[st.a])
    ensures var sess := s.sessions[st.a]; var prior := sess.tunnels[sess.pc.bt.id];
      && prior in RoutedBy(sess) && Mine(s.next, st.a, prior)
      && prior !in RoutedBy(Apply(s, st).sessions[st.a])
  {
    var sess := s.sessions[st.a];
    var sess' := Apply(s, st).sessions[st.a];
    assert sess'.tunnels == sess.tunnels[sess.pc.bt.id := sess.pc.bt];
  }

  lemma DuplicateIdBreaks(s: State, st: Step)
    requires SessionsOk(s) && Matches(s.routes, RouteOwners(s)) && DuplicateId(s, st)
    ensures !Matches(Apply(s, st).routes, RouteOwners(Apply(s, st)))
  {
    var s', sess := Apply(s, st), s.sessions[st.a];
    var prior := sess.tunnels[sess.pc.bt.id];
    assert SessionOk(s.next, st.a, sess);
    TrackDropsPrior(s, st);
    assert prior in RouteOwners(s)[st.a];
    LostOwner(s.routes, RouteOwners(s), RouteOwners(s'), prior);
  }

  lemma LostOwner(routes: map<Route, Tunnel>, own: map<Sid, set<Tunnel>>, own': map<Sid, set<Tunnel>>, bt: Tunnel)
    requires Matches(routes, own) && bt.session in own && bt in own[bt.session]
    requires bt.session in own' && bt !in own'[bt.session]
    ensures !Matches(routes, own')
  {
  }

  // ---- Whole runs ----

  /** One step in which no session binds a host it already has, nor reuses the id of a live tunnel. */
  predicate CleanStep(s: State, st: Step, s': State) {
    Enabled(s, st) && s' == Apply(s, st) && !DuplicateHost(s, st) && !DuplicateId(s, st)
  }

  /** A trace from an edge's start. */
  ghost predicate Run(states: seq<State>, steps: seq<Step>) {
    && |states| == |steps| + 1
    && Init(states[0])
    && forall i {:trigger steps[i]} :: 0 <= i < |steps| ==> CleanStep(states[i], steps[i], states[i + 1])
  }

  lemma CleanStepKeepsInv(s: State, st: Step, s': State)
    requires Inv(s) && PoolOk(s) && CleanStep(s, st, s')
    ensures Inv(s') && PoolOk(s')
  {
    StepKeepsInv(s, st);
  }

  /** Whatever holds at the start and is kept by every clean step holds throughout the run. */
  lemma {:induction false} RunInduction(p: State -> bool, states: seq<State>, steps: seq<Step>, k: nat)
    requires Run(states, steps) && k < |states|
    requires p(states[0])
    requires forall s, st, s' :: p(s) && CleanStep(s, st, s') ==> p(s')
    ensures p(states[k])
  {
    if k > 0 {
      RunInduction(p, states, steps, k - 1);
      assert CleanStep(states[k - 1], steps[k - 1], states[k - 1 + 1]);
    }
  }

  lemma InitInv(s: State)
    requires Init(s)
    ensures Inv(s)
  {
    assert RouteOwners(s) == map[] && PortOwners(s) == map[];
    assert Uncounted(s) == {} && Overcounted(s) == {};
  }

  lemma RunKeepsInv(states: seq<State>, steps: seq<Step>, k: nat)
    requires Run(states, steps) && PoolOk(states[0]) && k < |states|
    ensures Inv(states[k])
  {
    var p := s => Inv(s) && PoolOk(s);
    InitInv(states[0]);
    forall s, st, s' | p(s) && CleanStep(s, st, s')
      ensures p(s')
    {
      CleanStepKeepsInv(s, st, s');
    }
    RunInduction(p, states, steps, k);
  }

  /** A live tunnel: in its session's map. */
  predicate LiveTunnel(s: State, bt: Tunnel) {
    bt.session in s.sessions && bt in s.sessions[bt.session].tunnels.Values
  }

  /** In every run each live tunnel's route leads to that tunnel, and no two live tunnels share a route. */
  lemma LiveTunnelsAreRouted(states: seq<State>, steps: seq<Step>, k: nat, bt: Tunnel, other: Tunnel)
    requires Run(states, steps) && PoolOk(states[0]) && k < |states|
    requires LiveTunnel(states[k], bt) && LiveTunnel(states[k], other)
    ensures RouteOf(bt) in states[k].routes && states[k].routes[RouteOf(bt)] == bt
    ensures RouteOf(bt) == RouteOf(other) ==> bt == other
  {
    RunKeepsInv(states, steps, k);
    assert bt in RouteOwners(states[k])[bt.session] && other in RouteOwners(states[k])[other.session];
  }

  /** If the port is bound it is reserved; if reserved, some session holds it; and no two tunnels ever hold it. */
  ghost predicate OneOwner(s: State, r: Route) {
    && (r in s.routes && r.PortRoute? ==> r in s.used)
    && (r in s.used ==> exists a, bt :: HoldsPort(s, a, bt, r))
    && (forall a, b, x, y :: HoldsPort(s, a, x, r) && HoldsPort(s, b, y, r) ==> a == b && x == y && r in s.used)
  }

  /** By a bind in flight, a live tunnel or a release in flight, session `a` holds port `r` for tunnel `bt`. */
  predicate HoldsPort(s: State, a: Sid, bt: Tunnel, r: Route) {
    a in s.sessions && bt in HeldBy(s.sessions[a]) && RouteOf(bt) == r
  }

  lemma HolderIsNoted(s: State, a: Sid, bt: Tunnel, r: Route)
    requires Matches(s.used, PortOwners(s)) && HoldsPort(s, a, bt, r)
    ensures bt.session == a && r in s.used && s.used[r] == bt
  {
    assert bt in PortOwners(s)[a];
  }

  lemma InvGivesOneOwner(s: State, r: Route)
    requires Matches(s.routes, RouteOwners(s)) && Matches(s.used, PortOwners(s))
    ensures OneOwner(s, r)
  {
    if r in s.routes && r.PortRoute? {
      var x := s.routes[r];
      assert x in RouteOwners(s)[x.session];
      RoutedPortIsHeld(s.sessions[x.session], x);
      HolderIsNoted(s, x.session, x, r);
    }
    if r in s.used {
      assert HoldsPort(s, s.used[r].session, s.used[r], r);
    }
    forall a, b, x, y | HoldsPort(s, a, x, r) && HoldsPort(s, b, y, r)
      ensures a == b && x == y && r in s.used
    {
      HolderIsNoted(s, a, x, r);
      HolderIsNoted(s, b, y, r);
    }
  }

  /** In every run a bound port is reserved, and a reserved port has exactly one owner. */
  lemma PortsHaveOneOwner(states: seq<State>, steps: seq<Step>, k: nat, r: Route)
    requires Run(states, steps) && PoolOk(states[0]) && k < |states|
    ensures OneOwner(states[k], r)
  {
    RunKeepsInv(states, steps, k);
    InvGivesOneOwner(states[k], r);
  }

  /** In every run, bindPort finds the reserved port free in the hub: its conflict branch is never taken. */
  lemma PortConflictNeverHappens(states: seq<State>, steps: seq<Step>, k: nat)
    requires Run(states, steps) && PoolOk(states[0]) && k < |steps|
    requires steps[k].BindPort?
    ensures !Conflict(states[k].routes, states[k].sessions[steps[k].a].pc.bt)
  {
    RunKeepsInv(states, steps, k);
    assert CleanStep(states[k], steps[k], states[k + 1]);
    NoPortConflict(states[k], steps[k], states[k + 1]);
  }

  lemma NoPortConflict(s: State, st: Step, s': State)
    requires Agrees(s) && CleanStep(s, st, s') && st.BindPort?
    ensures st.a in s.sessions && s.sessions[st.a].pc.PortListening? && !Conflict(s.routes, s.sessions[st.a].pc.bt)
  {
    PortRouteIsFree(s, st.a);
  }

  /** No route, reserved port or listener refers to the session. */
  ghost predicate NothingLeft(s: State, a: Sid) {
    && (forall r :: r in s.routes ==> s.routes[r].session != a)
    && (forall r :: r in s.used ==> s.used[r].session != a)
    && (forall r :: r in s.listening ==> r in s.used && s.used[r].session != a)
  }

  predicate TornDown(s: State, a: Sid) {
    a in s.sessions && (s.sessions[a].pc == Leaving || s.sessions[a].pc == Gone)
  }

  lemma TornDownOwnsNothing(s: State, a: Sid)
    requires Agrees(s) && s.listening <= s.used.Keys && TornDown(s, a)
    ensures NothingLeft(s, a)
  {
    assert SessionOk(s.next, a, s.sessions[a]);
    assert RouteOwners(s)[a] == {} && PortOwners(s)[a] == {};
  }

  /** In every run, once a teardown has released everything nothing of the session is left. */
  lemma DeadSessionLeavesNothing(states: seq<State>, steps: seq<Step>, k: nat, a: Sid)
    requires Run(states, steps) && PoolOk(states[0]) && k < |states|
    requires TornDown(states[k], a)
    ensures NothingLeft(states[k], a)
  {
    RunKeepsInv(states, steps, k);
    TornDownOwnsNothing(states[k], a);
  }

  /** Whatever a session does, binds, failures and teardown included, other sessions' entries stay as they are. */
  lemma OthersUntouched(states: seq<State>, steps: seq<Step>, k: nat, b: Sid, r: Route)
    requires Run(states, steps) && PoolOk(states[0]) && k < |steps|
    requires steps[k].a != b
    ensures r in states[k].routes && states[k].routes[r].session == b <==>
            r in states[k + 1].routes && states[k + 1].routes[r].session == b
    ensures r in states[k].routes && states[k].routes[r].session == b ==>
            states[k + 1].routes[r] == states[k].routes[r]
    ensures r in states[k].used && states[k].used[r].session == b <==>
            r in states[k + 1].used && states[k + 1].used[r].session == b
  {
    RunKeepsInv(states, steps, k);
    RunKeepsInv(states, steps, k + 1);
    var st := steps[k];
    Frame(states[k], st);
    OwnersUpdate(states[k], states[k + 1], st.a);
    TableFrame(states[k].routes, states[k + 1].routes, RouteOwners(states[k]), RouteOwners(states[k + 1]), b, r);
    TableFrame(states[k].used, states[k + 1].used, PortOwners(states[k]), PortOwners(states[k + 1]), b, r);
  }

  lemma TableFrame(t: map<Route, Tunnel>, t': map<Route, Tunnel>,
                   own: map<Sid, set<Tunnel>>, own': map<Sid, set<Tunnel>>, b: Sid, r: Route)
    requires Matches(t, own) && Matches(t', own')
    requires b in own <==> b in own'
    requires b in own ==> own[b] == own'[b]
    ensures r in t && t[r].session == b <==> r in t' && t'[r].session == b
    ensures r in t && t[r].session == b ==> t'[r] == t[r]
  {
  }

  /** With no bind or release between its hub section and its gauge section, the gauge equals Hub.Stats. */
  lemma GaugeEqualsStats(states: seq<State>, steps: seq<Step>, k: nat)
    requires Run(states, steps) && PoolOk(states[0]) && k < |states|
    requires forall a :: a in states[k].sessions ==> Weight(states[k].sessions[a].pc) == 0
    ensures states[k].gauge == |states[k].routes|
  {
    RunKeepsInv(states, steps, k);
    assert Uncounted(states[k]) == {} && Overcounted(states[k]) == {};
  }
}
