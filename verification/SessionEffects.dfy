/**
  What a session's own calls achieve when nobody interferes: a bind that goes through, a bind that is refused, an
  unbind and a teardown, each from any agreeing state and step by step to its end.
 */
module SessionEffects {
  import opened Tunnels
  import opened EdgeRouting

  /** The session takes these steps, one after the other, and nobody else moves. */
  ghost predicate Path(a: Sid, s: State, steps: seq<Step>, s': State)
    decreases |steps|
  {
    if steps == [] then s == s'
    else steps[0].a == a && Enabled(s, steps[0]) && Path(a, Apply(s, steps[0]), steps[1..], s')
  }

  lemma {:induction false} PathConcat(a: Sid, s: State, p: seq<Step>, mid: State, q: seq<Step>, s': State)
    requires Path(a, s, p, mid) && Path(a, mid, q, s')
    ensures Path(a, s, p + q, s')
    decreases |p|
  {
    if p == [] {
      assert p + q == q;
    } else {
      assert (p + q)[1..] == p[1..] + q;
      PathConcat(a, Apply(s, p[0]), p[1..], mid, q, s');
    }
  }

  lemma OneStep(a: Sid, s: State, st: Step)
    requires st.a == a && Enabled(s, st)
    ensures Path(a, s, [st], Apply(s, st))
  {
    assert [st][1..] == [];
  }

  // ---- Releasing ----

  /** The routes of the tunnels, and those of the port tunnels among them. */
  function RoutesOf(q: seq<Tunnel>): set<Route> {
    set bt | bt in q :: RouteOf(bt)
  }

  function PortsOf(q: seq<Tunnel>): set<Route> {
    set bt | bt in q && bt.PortTunnel? :: RouteOf(bt)
  }

  /** `s` with the tunnels taken out of the hub, the pool, the listeners and the gauge. */
  ghost predicate Without(s: State, s': State, q: seq<Tunnel>) {
    && s'.routes == s.routes - RoutesOf(q)
    && s'.used == s.used - PortsOf(q) && s'.listening == s.listening - PortsOf(q)
    && s'.gauge == s.gauge - |q|
    && s'.lo == s.lo && s'.hi == s.hi && s'.next == s.next
  }

  lemma UnrouteHead(s: State, a: Sid, q: seq<Tunnel>, ending: bool)
    requires a in s.sessions && SessionOk(s.next, a, s.sessions[a]) && q != []
    requires s.sessions[a].pc == Releasing(q, Unrouting, ending)
    ensures Enabled(s, Unroute(a))
    ensures var s1 := Apply(s, Unroute(a)); var stage := if q[0].PortTunnel? then FreeingPort else Uncounting;
      s1 == s.(routes := s.routes - {RouteOf(q[0])},
               sessions := s.sessions[a := s.sessions[a].(pc := Releasing(q, stage, ending))])
  {
    assert InFlight(s.next, a, s.sessions[a], q[0]);
  }

  lemma FreeHead(s: State, a: Sid, q: seq<Tunnel>, ending: bool)
    requires a in s.sessions && q != [] && s.sessions[a].pc == Releasing(q, FreeingPort, ending)
    ensures Enabled(s, FreePort(a))
    ensures Apply(s, FreePort(a)) ==
      s.(used := s.used - {RouteOf(q[0])}, listening := s.listening - {RouteOf(q[0])},
         sessions := s.sessions[a := s.sessions[a].(pc := Releasing(q, Uncounting, ending))])
  {
  }

  /** Where the session stands once the head of its queue is dealt with. */
  function Rest(q: seq<Tunnel>, ending: bool): Pc
    requires q != []
  {
    if |q| > 1 then Releasing(q[1..], Unrouting, ending) else if ending then Leaving else Idle
  }

  lemma UncountHead(s: State, a: Sid, q: seq<Tunnel>, ending: bool)
    requires a in s.sessions && q != [] && s.sessions[a].pc == Releasing(q, Uncounting, ending)
    ensures Enabled(s, Uncount(a))
    ensures Apply(s, Uncount(a)) ==
      s.(gauge := s.gauge - 1, sessions := s.sessions[a := s.sessions[a].(pc := Rest(q, ending))])
  {
  }

  lemma ReleaseHead(s: State, a: Sid, q: seq<Tunnel>, ending: bool) returns (steps: seq<Step>, s': State)
    requires a in s.sessions && SessionOk(s.next, a, s.sessions[a]) && q != []
    requires s.sessions[a].pc == Releasing(q, Unrouting, ending)
    ensures Path(a, s, steps, s') && Without(s, s', [q[0]])
    ensures s'.sessions == s.sessions[a := Session(s.sessions[a].tunnels, Rest(q, ending))]
    ensures SessionOk(s'.next, a, s'.sessions[a])
  {
    UnrouteHead(s, a, q, ending);
    s' := Apply(s, Unroute(a));
    OneStep(a, s, Unroute(a));
    steps := [Unroute(a)];
    if q[0].PortTunnel? {
      FreeHead(s', a, q, ending);
      OneStep(a, s', FreePort(a));
      PathConcat(a, s, steps, s', [FreePort(a)], Apply(s', FreePort(a)));
      steps, s' := steps + [FreePort(a)], Apply(s', FreePort(a));
    }
    UncountHead(s', a, q, ending);
    OneStep(a, s', Uncount(a));
    PathConcat(a, s, steps, s', [Uncount(a)], Apply(s', Uncount(a)));
    steps, s' := steps + [Uncount(a)], Apply(s', Uncount(a));
    RestOk(s.next, a, s.sessions[a], q, ending);
    HeadSets(q[0]);
  }

  lemma HeadSets(bt: Tunnel)
    ensures RoutesOf([bt]) == {RouteOf(bt)} && PortsOf([bt]) == if bt.PortTunnel? then {RouteOf(bt)} else {}
  {
    assert bt in [bt];
  }

  lemma RestOk(next: nat, a: Sid, sess: Session, q: seq<Tunnel>, ending: bool)
    requires SessionOk(next, a, sess) && q != [] && sess.pc == Releasing(q, Unrouting, ending)
    ensures SessionOk(next, a, Session(sess.tunnels, Rest(q, ending)))
  {
    assert forall i :: 0 <= i < |q| - 1 ==> q[1..][i] == q[i + 1];
  }

  lemma WithoutTrans(s: State, mid: State, s': State, q: seq<Tunnel>)
    requires q != [] && Without(s, mid, [q[0]]) && Without(mid, s', q[1..])
    ensures Without(s, s', q)
  {
    assert q == [q[0]] + q[1..];
    assert RoutesOf(q) == RoutesOf([q[0]]) + RoutesOf(q[1..]);
    assert PortsOf(q) == PortsOf([q[0]]) + PortsOf(q[1..]);
  }

  lemma {:induction false} ReleaseAll(s: State, a: Sid, q: seq<Tunnel>, ending: bool)
    returns (steps: seq<Step>, s': State)
    requires a in s.sessions && SessionOk(s.next, a, s.sessions[a]) && q != []
    requires s.sessions[a].pc == Releasing(q, Unrouting, ending)
    ensures Path(a, s, steps, s') && Without(s, s', q)
    ensures s'.sessions == s.sessions[a := Session(s.sessions[a].tunnels, if ending then Leaving else Idle)]
    decreases |q|
  {
    steps, s' := ReleaseHead(s, a, q, ending);
    if |q| == 1 {
      assert q == [q[0]];
    } else {
      var more, end := ReleaseAll(s', a, q[1..], ending);
      PathConcat(a, s, steps, s', more, end);
      WithoutTrans(s, s', end, q);
      steps, s' := steps + more, end;
    }
  }

  lemma UnbindTakes(s: State, a: Sid, id: string)
    requires a in s.sessions && s.sessions[a].pc == Idle && id in s.sessions[a].tunnels
    requires SessionOk(s.next, a, s.sessions[a])
    ensures Enabled(s, Unbind(a, id))
    ensures var q := [s.sessions[a].tunnels[id]];
      Apply(s, Unbind(a, id)) ==
      s.(sessions := s.sessions[a := Session(s.sessions[a].tunnels - {id}, Releasing(q, Unrouting, false))])
    ensures SessionOk(s.next, a, Apply(s, Unbind(a, id)).sessions[a])
  {
    UnbindKeepsSession(s, a, id);
  }

  /** A first step that only moves the session, and a release of its whole queue. */
  lemma ThenRelease(s: State, a: Sid, st: Step, s1: State, q: seq<Tunnel>, ending: bool)
    returns (steps: seq<Step>, s': State)
    requires st.a == a && Enabled(s, st) && s1 == Apply(s, st) && s1 == s.(sessions := s1.sessions)
    requires a in s1.sessions && SessionOk(s1.next, a, s1.sessions[a]) && q != []
    requires s1.sessions[a].pc == Releasing(q, Unrouting, ending)
    ensures Path(a, s, steps, s') && steps != [] && steps[0] == st && Without(s, s', q)
    ensures s'.sessions == s1.sessions[a := Session(s1.sessions[a].tunnels, if ending then Leaving else Idle)]
  {
    OneStep(a, s, st);
    var more;
    more, s' := ReleaseAll(s1, a, q, ending);
    PathConcat(a, s, [st], s1, more, s');
    steps := [st] + more;
  }

  lemma UnbindFacts(s: State, a: Sid, id: string)
    requires Agrees(s) && a in s.sessions && s.sessions[a].pc == Idle && id in s.sessions[a].tunnels
    ensures SessionOk(s.next, a, s.sessions[a])
    ensures var bt := s.sessions[a].tunnels[id]; RouteOf(bt) in s.routes && (RouteOf(bt) in s.used <==> bt.PortTunnel?)
  {
    var bt := s.sessions[a].tunnels[id];
    assert bt in RouteOwners(s)[a];
    UsedAreOwned(s, a, bt);
  }

  lemma UnbindRuns(s: State, a: Sid, id: string) returns (steps: seq<Step>, s': State)
    requires a in s.sessions && s.sessions[a].pc == Idle && id in s.sessions[a].tunnels
    requires SessionOk(s.next, a, s.sessions[a])
    ensures Path(a, s, steps, s') && steps != [] && steps[0] == Unbind(a, id)
    ensures s'.sessions == s.sessions[a := Session(s.sessions[a].tunnels - {id}, Idle)]
    ensures Without(s, s', [s.sessions[a].tunnels[id]])
  {
    UnbindTakes(s, a, id);
    var s1, bt := Apply(s, Unbind(a, id)), s.sessions[a].tunnels[id];
    steps, s' := ThenRelease(s, a, Unbind(a, id), s1, [bt], false);
  }

  /**
    Unbind of a tracked id: the id leaves the session's map, and after the session's own steps its route is out of the
    hub, its port out of the pool and the listeners, the gauge one lower, and everything else is as it was.
   */
  lemma UnbindReleases(s: State, a: Sid, id: string) returns (steps: seq<Step>, s': State)
    requires Agrees(s) && a in s.sessions && s.sessions[a].pc == Idle && id in s.sessions[a].tunnels
    ensures Path(a, s, steps, s') && steps != [] && steps[0] == Unbind(a, id)
    ensures s'.sessions == s.sessions[a := Session(s.sessions[a].tunnels - {id}, Idle)]
    ensures var bt := s.sessions[a].tunnels[id]; var port := if bt.PortTunnel? then {RouteOf(bt)} else {};
      && RouteOf(bt) in s.routes && (RouteOf(bt) in s.used <==> bt.PortTunnel?)
      && s'.routes == s.routes - {RouteOf(bt)} && s'.used == s.used - port && s'.listening == s.listening - port
      && s'.gauge == s.gauge - 1
  {
    UnbindFacts(s, a, id);
    steps, s' := UnbindRuns(s, a, id);
    HeadSets(s.sessions[a].tunnels[id]);
  }

  /** A live port tunnel's port is reserved, and a hostname is never a reserved port. */
  lemma UsedAreOwned(s: State, a: Sid, bt: Tunnel)
    requires Agrees(s) && a in s.sessions && bt in s.sessions[a].tunnels.Values
    ensures RouteOf(bt) in s.used <==> bt.PortTunnel?
  {
    assert SessionOk(s.next, a, s.sessions[a]);
    if bt.PortTunnel? {
      assert bt in PortOwners(s)[a];
    } else if RouteOf(bt) in s.used {
      var x := s.used[RouteOf(bt)];
      assert x in PortOwners(s)[x.session] && SessionOk(s.next, x.session, s.sessions[x.session]);
      HeldArePorts(s.next, x.session, s.sessions[x.session], x);
    }
  }

  lemma HeldArePorts(next: nat, a: Sid, sess: Session, x: Tunnel)
    requires SessionOk(next, a, sess) && x in HeldBy(sess)
    ensures x.PortTunnel?
  {
  }

  /** Unbind of an id the session does not have changes nothing. */
  lemma UnknownUnbindIsIdle(s: State, a: Sid, id: string)
    requires a in s.sessions && s.sessions[a].pc == Idle && id !in s.sessions[a].tunnels
    ensures Enabled(s, Unbind(a, id)) && Apply(s, Unbind(a, id)) == s
  {
  }

  /** The entries of other sessions. */
  function OfOthers(table: map<Route, Tunnel>, a: Sid): map<Route, Tunnel> {
    map r | r in table && table[r].session != a :: table[r]
  }

  lemma TableWithout(table: map<Route, Tunnel>, own: map<Sid, set<Tunnel>>, a: Sid, gone: set<Route>)
    requires Matches(table, own) && a in own && forall r :: r in gone <==> exists bt :: bt in own[a] && RouteOf(bt) == r
    ensures table - gone == OfOthers(table, a)
  {
    forall r | r in table
      ensures r in gone <==> table[r].session == a
    {
      if table[r].session == a {
        assert table[r] in own[a] && RouteOf(table[r]) == r;
      }
      if r in gone {
        var bt :| bt in own[a] && RouteOf(bt) == r;
      }
    }
  }

  lemma TeardownTakes(s: State, a: Sid, order: seq<Tunnel>)
    requires Enabled(s, Teardown(a, order)) && SessionOk(s.next, a, s.sessions[a])
    ensures var s1 := Apply(s, Teardown(a, order));
      && s1 == s.(sessions := s.sessions[a :=
                    Session(map[], if order == [] then Leaving else Releasing(order, Unrouting, true))])
      && SessionOk(s1.next, a, s1.sessions[a])
  {
    TeardownKeepsSession(s, a, order);
  }

  lemma TeardownRuns(s: State, a: Sid, order: seq<Tunnel>) returns (steps: seq<Step>, s': State)
    requires Enabled(s, Teardown(a, order)) && SessionOk(s.next, a, s.sessions[a])
    ensures Path(a, s, steps, s') && steps != [] && steps[0] == Teardown(a, order) && Without(s, s', order)
    ensures s'.sessions == s.sessions[a := Session(map[], Leaving)]
  {
    TeardownTakes(s, a, order);
    var s1 := Apply(s, Teardown(a, order));
    if order == [] {
      OneStep(a, s, Teardown(a, order));
      steps, s' := [Teardown(a, order)], s1;
      assert RoutesOf(order) == {} && PortsOf(order) == {};
    } else {
      steps, s' := ThenRelease(s, a, Teardown(a, order), s1, order, true);
    }
  }

  /**
    Teardown of a session, in whatever order the map is walked: it runs to its end, and then the hub and the pool hold
    exactly what they held of other sessions, and the gauge is lower by the number of its tunnels.
   */
  lemma TeardownReleases(s: State, a: Sid, order: seq<Tunnel>) returns (steps: seq<Step>, s': State)
    requires Agrees(s) && Enabled(s, Teardown(a, order))
    ensures Path(a, s, steps, s') && steps != [] && steps[0] == Teardown(a, order)
    ensures s'.sessions == s.sessions[a := Session(map[], Leaving)]
    ensures Enabled(s', Leave(a)) && Apply(s', Leave(a)) == s'.(sessions := s.sessions[a := Session(map[], Gone)])
    ensures s'.routes == OfOthers(s.routes, a) && s'.used == OfOthers(s.used, a)
    ensures s'.listening == s.listening - PortsOf(order) && s'.gauge == s.gauge - |order|
  {
    assert SessionOk(s.next, a, s.sessions[a]);
    steps, s' := TeardownRuns(s, a, order);
    OwnedByIdle(s, a, order);
    LeaveEnds(s, s', a);
  }

  lemma LeaveEnds(s: State, s': State, a: Sid)
    requires s'.sessions == s.sessions[a := Session(map[], Leaving)]
    ensures Enabled(s', Leave(a)) && Apply(s', Leave(a)) == s'.(sessions := s.sessions[a := Session(map[], Gone)])
  {
    assert s.sessions[a := Session(map[], Leaving)][a := Session(map[], Gone)] == s.sessions[a := Session(map[], Gone)];
  }

  lemma OwnedByIdle(s: State, a: Sid, order: seq<Tunnel>)
    requires Agrees(s) && a in s.sessions && s.sessions[a].pc == Idle && Elements(order) == s.sessions[a].tunnels.Values
    ensures s.routes - RoutesOf(order) == OfOthers(s.routes, a) && s.used - PortsOf(order) == OfOthers(s.used, a)
  {
    var own, held := RouteOwners(s)[a], PortOwners(s)[a];
    IdleOwns(s.sessions[a], order);
    RoutesOfOwn(order, own);
    PortsOfOwn(order, held);
    TableWithout(s.routes, RouteOwners(s), a, RoutesOf(order));
    TableWithout(s.used, PortOwners(s), a, PortsOf(order));
  }

  lemma IdleOwns(sess: Session, order: seq<Tunnel>)
    requires sess.pc == Idle && Elements(order) == sess.tunnels.Values
    ensures forall bt :: bt in RoutedBy(sess) <==> bt in order
    ensures forall bt :: bt in HeldBy(sess) <==> bt in order && bt.PortTunnel?
  {
    assert forall bt :: bt in order <==> bt in Elements(order);
  }

  lemma RoutesOfOwn(order: seq<Tunnel>, own: set<Tunnel>)
    requires forall bt :: bt in own <==> bt in order
    ensures forall r :: r in RoutesOf(order) <==> exists bt :: bt in own && RouteOf(bt) == r
  {
  }

  lemma PortsOfOwn(order: seq<Tunnel>, held: set<Tunnel>)
    requires forall bt :: bt in held <==> bt in order && bt.PortTunnel?
    ensures forall r :: r in PortsOf(order) <==> exists bt :: bt in held && RouteOf(bt) == r
  {
  }

  // ---- Binding ----

  /** The session may take the step, and it leads there. */
  predicate Goes(s: State, st: Step, s': State) {
    Enabled(s, st) && Apply(s, st) == s'
  }

  /** The state with session `a` put in the given one. */
  function Put(s: State, a: Sid, sess: Session): State {
    s.(sessions := s.sessions[a := sess])
  }

  lemma PutPut(s: State, a: Sid, x: Session, y: Session)
    ensures Put(Put(s, a, x), a, y) == Put(s, a, y)
  {
    assert s.sessions[a := x][a := y] == s.sessions[a := y];
  }

  lemma ChooseStep(s: State, a: Sid, id: string, host: string, custom: bool)
    requires a in s.sessions && s.sessions[a].pc == Idle && host != "" && (custom || HostRoute(host) !in s.routes)
    ensures var bt := HostTunnel(s.next, a, id, host);
      Goes(s, ChooseHost(a, id, host, custom),
           Put(s.(next := s.next + 1), a, Session(s.sessions[a].tunnels, HostChosen(bt))))
  {
  }

  lemma BindHostStep(s: State, a: Sid, bt: Tunnel)
    requires a in s.sessions && s.sessions[a].pc == HostChosen(bt) && bt.session == a
    ensures var tunnels := s.sessions[a].tunnels;
      var taken := RouteOf(bt) in s.routes && s.routes[RouteOf(bt)].session != a;
      Goes(s, BindHost(a), if taken then Put(s, a, Session(tunnels, Idle))
                           else Put(s.(routes := s.routes[RouteOf(bt) := bt]), a, Session(tunnels, Routed(bt))))
  {
  }

  lemma TrackStep(s: State, a: Sid, bt: Tunnel)
    requires a in s.sessions && s.sessions[a].pc == Routed(bt)
    ensures Goes(s, Track(a), Put(s, a, Session(s.sessions[a].tunnels[bt.id := bt], Tracked(bt))))
  {
  }

  lemma CountStep(s: State, a: Sid, bt: Tunnel)
    requires a in s.sessions && s.sessions[a].pc == Tracked(bt)
    ensures Goes(s, Count(a), Put(s.(gauge := s.gauge + 1), a, Session(s.sessions[a].tunnels, Idle)))
  {
  }

  lemma ListenStep(s: State, a: Sid, bt: Tunnel, ok: bool)
    requires a in s.sessions && s.sessions[a].pc == PortHeld(bt)
    ensures var tunnels := s.sessions[a].tunnels;
      Goes(s, Listen(a, ok),
           if ok then Put(s.(listening := s.listening + {RouteOf(bt)}), a, Session(tunnels, PortListening(bt)))
           else Put(s, a, Session(tunnels, PortGivingUp(bt))))
  {
  }

  lemma BindPortStep(s: State, a: Sid, bt: Tunnel)
    requires a in s.sessions && s.sessions[a].pc == PortListening(bt) && RouteOf(bt) !in s.routes
    ensures Goes(s, BindPort(a),
                 Put(s.(routes := s.routes[RouteOf(bt) := bt]), a, Session(s.sessions[a].tunnels, Routed(bt))))
  {
  }

  lemma GiveUpStep(s: State, a: Sid, bt: Tunnel)
    requires a in s.sessions && s.sessions[a].pc == PortGivingUp(bt)
    ensures Goes(s, GiveUpPort(a),
                 Put(s.(used := s.used - {RouteOf(bt)}, listening := s.listening - {RouteOf(bt)}),
                     a, Session(s.sessions[a].tunnels, Idle)))
  {
  }

  /** From the hub's entry on, both kinds of tunnel are tracked and counted alike. */
  lemma TrackAndCount(s: State, a: Sid, tunnels: map<string, Tunnel>, bt: Tunnel) returns (s1: State, s2: State)
    requires a in s.sessions && s.sessions[a] == Session(tunnels, Routed(bt))
    ensures Goes(s, Track(a), s1) && Goes(s1, Count(a), s2)
    ensures s2 == Put(s.(gauge := s.gauge + 1), a, Session(tunnels[bt.id := bt], Idle))
  {
    TrackStep(s, a, bt);
    s1 := Put(s, a, Session(tunnels[bt.id := bt], Tracked(bt)));
    CountStep(s1, a, bt);
    s2 := Put(s1.(gauge := s.gauge + 1), a, Session(tunnels[bt.id := bt], Idle));
    var live := tunnels[bt.id := bt];
    PutPut(s.(gauge := s.gauge + 1), a, Session(live, Tracked(bt)), Session(live, Idle));
  }

  /** A host that nobody routes: the bind goes through, and the tunnel is live, routed and counted. */
  lemma BindHostEffect(s: State, a: Sid, id: string, host: string, custom: bool)
    returns (s1: State, s2: State, s3: State, s4: State)
    requires a in s.sessions && s.sessions[a].pc == Idle && host != "" && HostRoute(host) !in s.routes
    ensures Goes(s, ChooseHost(a, id, host, custom), s1) && Goes(s1, BindHost(a), s2)
    ensures Goes(s2, Track(a), s3) && Goes(s3, Count(a), s4)
    ensures var bt := HostTunnel(s.next, a, id, host);
      s4 == s.(routes := s.routes[HostRoute(host) := bt], gauge := s.gauge + 1, next := s.next + 1,
               sessions := s.sessions[a := Session(s.sessions[a].tunnels[id := bt], Idle)])
  {
    var bt, tunnels := HostTunnel(s.next, a, id, host), s.sessions[a].tunnels;
    ChooseStep(s, a, id, host, custom);
    s1 := Put(s.(next := s.next + 1), a, Session(tunnels, HostChosen(bt)));
    BindHostStep(s1, a, bt);
    var base := s.(next := s.next + 1, routes := s.routes[HostRoute(host) := bt]);
    s2 := Put(base, a, Session(tunnels, Routed(bt)));
    PutPut(base, a, Session(tunnels, HostChosen(bt)), Session(tunnels, Routed(bt)));
    s3, s4 := TrackAndCount(s2, a, tunnels, bt);
    PutPut(base.(gauge := s.gauge + 1), a, Session(tunnels, Routed(bt)), Session(tunnels[id := bt], Idle));
  }

  /** A custom domain that another session routes is refused: nothing but a serial number is used up. */
  lemma BindHostRefused(s: State, a: Sid, id: string, host: string) returns (s1: State)
    requires a in s.sessions && s.sessions[a].pc == Idle && host != ""
    requires HostRoute(host) in s.routes && s.routes[HostRoute(host)].session != a
    ensures Goes(s, ChooseHost(a, id, host, true), s1) && Goes(s1, BindHost(a), s.(next := s.next + 1))
  {
    var bt, tunnels := HostTunnel(s.next, a, id, host), s.sessions[a].tunnels;
    ChooseStep(s, a, id, host, true);
    s1 := Put(s.(next := s.next + 1), a, Session(tunnels, HostChosen(bt)));
    BindHostStep(s1, a, bt);
    PutPut(s.(next := s.next + 1), a, Session(tunnels, HostChosen(bt)), Session(tunnels, Idle));
    assert s.sessions[a := Session(tunnels, Idle)] == s.sessions;
  }

  /** The port that a request gets: the one asked for, or the lowest that is free. */
  ghost predicate Gets(s: State, proto: Proto, want: int, port: int) {
    && s.lo <= port <= s.hi && PortRoute(proto, port) !in s.used
    && (if want != 0 then want == port else forall p :: s.lo <= p < port ==> PortRoute(proto, p) in s.used)
  }

  lemma ReserveStep(s: State, a: Sid, id: string, proto: Proto, want: int, port: int)
    requires a in s.sessions && s.sessions[a].pc == Idle && Gets(s, proto, want, port)
    ensures var bt := PortTunnel(s.next, a, id, proto, port);
      Goes(s, ReservePort(a, id, proto, want),
           Put(s.(used := s.used[PortRoute(proto, port) := bt], next := s.next + 1),
               a, Session(s.sessions[a].tunnels, PortHeld(bt))))
  {
    var used := UsedPorts(s, proto);
    forall p
      ensures p in used <==> PortRoute(proto, p) in s.used
    {
    }
    if want == 0 {
      var r := FirstFree(used, s.lo, s.hi);
      assert port !in used;
      assert r <= port;
    }
    assert Reserve(used, s.lo, s.hi, want) == (true, port);
  }

  /** A request that no port can meet is refused and changes nothing. */
  lemma ReserveRefused(s: State, a: Sid, id: string, proto: Proto, want: int)
    requires a in s.sessions && s.sessions[a].pc == Idle && forall port :: !Gets(s, proto, want, port)
    ensures Goes(s, ReservePort(a, id, proto, want), s)
  {
    var used := UsedPorts(s, proto);
    forall p
      ensures p in used <==> PortRoute(proto, p) in s.used
    {
    }
    var r := FirstFree(used, s.lo, s.hi);
    assert !Gets(s, proto, want, if want == 0 then r else want);
  }

  lemma HoldAndListen(s: State, a: Sid, id: string, proto: Proto, want: int, port: int) returns (s1: State, s2: State)
    requires a in s.sessions && s.sessions[a].pc == Idle && Gets(s, proto, want, port)
    ensures Goes(s, ReservePort(a, id, proto, want), s1) && Goes(s1, Listen(a, true), s2)
    ensures var bt, r := PortTunnel(s.next, a, id, proto, port), PortRoute(proto, port);
      s2 == Put(s.(used := s.used[r := bt], listening := s.listening + {r}, next := s.next + 1),
                a, Session(s.sessions[a].tunnels, PortListening(bt)))
  {
    var bt, r, tunnels := PortTunnel(s.next, a, id, proto, port), PortRoute(proto, port), s.sessions[a].tunnels;
    ReserveStep(s, a, id, proto, want, port);
    var base := s.(used := s.used[r := bt], next := s.next + 1);
    s1 := Put(base, a, Session(tunnels, PortHeld(bt)));
    ListenStep(s1, a, bt, true);
    base := base.(listening := s.listening + {r});
    s2 := Put(base, a, Session(tunnels, PortListening(bt)));
    PutPut(base, a, Session(tunnels, PortHeld(bt)), Session(tunnels, PortListening(bt)));
  }

  lemma RouteTrackCount(s: State, a: Sid, tunnels: map<string, Tunnel>, bt: Tunnel)
    returns (s1: State, s2: State, s3: State)
    requires a in s.sessions && s.sessions[a] == Session(tunnels, PortListening(bt)) && RouteOf(bt) !in s.routes
    ensures Goes(s, BindPort(a), s1) && Goes(s1, Track(a), s2) && Goes(s2, Count(a), s3)
    ensures s3 == Put(s.(routes := s.routes[RouteOf(bt) := bt], gauge := s.gauge + 1),
                      a, Session(tunnels[bt.id := bt], Idle))
  {
    BindPortStep(s, a, bt);
    var base := s.(routes := s.routes[RouteOf(bt) := bt]);
    s1 := Put(base, a, Session(tunnels, Routed(bt)));
    s2, s3 := TrackAndCount(s1, a, tunnels, bt);
    PutPut(base.(gauge := s.gauge + 1), a, Session(tunnels, Routed(bt)), Session(tunnels[bt.id := bt], Idle));
  }

  /** A port bind that goes through: the port is reserved, listened on and routed, the tunnel live and counted. */
  lemma BindPortEffect(s: State, a: Sid, id: string, proto: Proto, want: int, port: int)
    returns (s1: State, s2: State, s3: State, s4: State, s5: State)
    requires Agrees(s) && a in s.sessions && s.sessions[a].pc == Idle && Gets(s, proto, want, port)
    ensures Goes(s, ReservePort(a, id, proto, want), s1) && Goes(s1, Listen(a, true), s2) && Goes(s2, BindPort(a), s3)
    ensures Goes(s3, Track(a), s4) && Goes(s4, Count(a), s5)
    ensures var bt, r := PortTunnel(s.next, a, id, proto, port), PortRoute(proto, port);
      s5 == Put(s.(routes := s.routes[r := bt], used := s.used[r := bt], listening := s.listening + {r},
                   gauge := s.gauge + 1, next := s.next + 1),
                a, Session(s.sessions[a].tunnels[id := bt], Idle))
  {
    var bt, r, tunnels := PortTunnel(s.next, a, id, proto, port), PortRoute(proto, port), s.sessions[a].tunnels;
    NoRouteWithoutPort(s, r);
    s1, s2 := HoldAndListen(s, a, id, proto, want, port);
    s3, s4, s5 := RouteTrackCount(s2, a, tunnels, bt);
    PutPut(s.(routes := s.routes[r := bt], used := s.used[r := bt], listening := s.listening + {r},
              gauge := s.gauge + 1, next := s.next + 1),
           a, Session(tunnels, PortListening(bt)), Session(tunnels[id := bt], Idle));
  }

  lemma NoRouteWithoutPort(s: State, r: Route)
    requires Agrees(s) && r.PortRoute? && r !in s.used
    ensures r !in s.routes
  {
    InvGivesOneOwner(s, r);
  }

  /** A port whose listener fails is given back. */
  lemma ListenFailureGivesBack(s: State, a: Sid, id: string, proto: Proto, want: int, port: int)
    returns (s1: State, s2: State)
    requires a in s.sessions && s.sessions[a].pc == Idle && Gets(s, proto, want, port)
    requires PortRoute(proto, port) !in s.listening
    ensures Goes(s, ReservePort(a, id, proto, want), s1) && Goes(s1, Listen(a, false), s2)
    ensures Goes(s2, GiveUpPort(a), s.(next := s.next + 1))
  {
    var bt, r, tunnels := PortTunnel(s.next, a, id, proto, port), PortRoute(proto, port), s.sessions[a].tunnels;
    ReserveStep(s, a, id, proto, want, port);
    var base := s.(used := s.used[r := bt], next := s.next + 1);
    s1 := Put(base, a, Session(tunnels, PortHeld(bt)));
    ListenStep(s1, a, bt, false);
    s2 := Put(base, a, Session(tunnels, PortGivingUp(bt)));
    PutPut(base, a, Session(tunnels, PortHeld(bt)), Session(tunnels, PortGivingUp(bt)));
    GiveUpStep(s2, a, bt);
    PutPut(s.(next := s.next + 1), a, Session(tunnels, PortGivingUp(bt)), Session(tunnels, Idle));
    assert s.used[r := bt] - {r} == s.used && s.listening - {r} == s.listening;
    assert s.sessions[a := Session(tunnels, Idle)] == s.sessions;
  }
}
