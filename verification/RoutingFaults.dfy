/**
  Where the routing table goes wrong: a session that binds its own host again or reuses the id of a live tunnel, and a
  port pool that contains port 0.
 */
module RoutingFaults {
  import opened Tunnels
  import opened EdgeRouting

  // ---- What a user sees ----

  /** Every live tunnel's route leads to that tunnel. */
  ghost predicate LiveRouted(s: State) {
    forall bt :: LiveTunnel(s, bt) ==> RouteOf(bt) in s.routes && s.routes[RouteOf(bt)] == bt
  }

  /** Every route in the hub belongs to a tunnel that its session still has to take out. */
  ghost predicate NoneForgotten(s: State) {
    forall r :: r in s.routes ==> Remembered(s, s.routes[r])
  }

  predicate Remembered(s: State, bt: Tunnel) {
    bt.session in s.sessions && bt in RoutedBy(s.sessions[bt.session])
  }

  lemma InvIsVisible(s: State)
    requires Matches(s.routes, RouteOwners(s))
    ensures LiveRouted(s) && NoneForgotten(s)
  {
    forall bt | LiveTunnel(s, bt)
      ensures RouteOf(bt) in s.routes && s.routes[RouteOf(bt)] == bt
    {
      assert bt in RouteOwners(s)[bt.session];
    }
  }

  /** The tunnel that already has the host, or the id, of the one that the session is binding. */
  function Prior(s: State, st: Step): Tunnel
    requires DuplicateHost(s, st) || DuplicateId(s, st)
  {
    var sess := s.sessions[st.a];
    if st.BindHost? then s.routes[RouteOf(sess.pc.bt)] else sess.tunnels[sess.pc.bt.id]
  }

  /** After a second bind of its own host, the session's first tunnel is live and its route leads to the second. */
  lemma DuplicateHostMisroutes(s: State, st: Step)
    requires Agrees(s) && DuplicateHost(s, st)
    ensures var prior, bt, s' := Prior(s, st), s.sessions[st.a].pc.bt, Apply(s, st);
      && LiveTunnel(s', prior) && prior != bt && RouteOf(prior) == RouteOf(bt)
      && s'.routes[RouteOf(prior)] == bt
  {
    var prior := Prior(s, st);
    assert SessionOk(s.next, st.a, s.sessions[st.a]);
    assert prior in RouteOwners(s)[st.a];
  }

  /** After the reuse of an id, the session's first tunnel is gone from its map while the hub still routes to it. */
  lemma ReusedIdForgets(s: State, st: Step)
    requires Agrees(s) && DuplicateId(s, st)
    ensures var prior, s' := Prior(s, st), Apply(s, st);
      && prior.session == st.a && !LiveTunnel(s', prior) && !Remembered(s', prior)
      && RouteOf(prior) in s'.routes && s'.routes[RouteOf(prior)] == prior
  {
    assert SessionOk(s.next, st.a, s.sessions[st.a]);
    TrackDropsPrior(s, st);
    assert Prior(s, st) in RouteOwners(s)[st.a];
  }

  /**
    The hub does not check for a session's own host, nor the session map for a reused id. From an agreeing state, a step
    leaves every live tunnel routed and no route forgotten if and only if it is neither of these two; and it leads to an
    agreeing state under the same condition.
   */
  lemma ConsistentIffNoDuplicate(s: State, st: Step)
    requires Inv(s) && PoolOk(s) && Enabled(s, st)
    ensures LiveRouted(Apply(s, st)) && NoneForgotten(Apply(s, st)) <==> !DuplicateHost(s, st) && !DuplicateId(s, st)
    ensures Inv(Apply(s, st)) <==> !DuplicateHost(s, st) && !DuplicateId(s, st)
  {
    if DuplicateHost(s, st) {
      DuplicateHostMisroutes(s, st);
      DuplicateHostBreaks(s, st);
      assert LiveTunnel(Apply(s, st), Prior(s, st));
    } else if DuplicateId(s, st) {
      ReusedIdForgets(s, st);
      DuplicateIdBreaks(s, st);
      assert !Remembered(Apply(s, st), Prior(s, st));
    } else {
      StepKeepsInv(s, st);
      InvIsVisible(Apply(s, st));
    }
  }

  /** Of two live tunnels of a session with one route, releasing either takes the route from the other. */
  lemma ReleaseUnroutesTwin(s: State, a: Sid, id: string, y: Tunnel)
    requires a in s.sessions && s.sessions[a].pc == Idle && id in s.sessions[a].tunnels
    requires var x := s.sessions[a].tunnels[id]; Effective(x) && x != y && RouteOf(x) == RouteOf(y)
    requires y.session == a && y.id in s.sessions[a].tunnels && s.sessions[a].tunnels[y.id] == y
    ensures Enabled(s, Unbind(a, id)) && Enabled(Apply(s, Unbind(a, id)), Unroute(a))
    ensures var s' := Apply(Apply(s, Unbind(a, id)), Unroute(a)); LiveTunnel(s', y) && RouteOf(y) !in s'.routes
  {
    var left := s.sessions[a].tunnels - {id};
    assert y.id != id && left[y.id] == y;
  }

  // ---- A forgotten route stays ----

  /** The hub routes to the tunnel, and no session has anything to do with its route. */
  ghost predicate Forgotten(s: State, prior: Tunnel) {
    && RouteOf(prior) in s.routes && s.routes[RouteOf(prior)] == prior
    && (prior.PortTunnel? ==> RouteOf(prior) in s.used)
    && forall b :: b in s.sessions ==> Avoids(s.sessions[b], RouteOf(prior))
  }

  ghost predicate Avoids(sess: Session, r: Route) {
    forall x :: x in RoutedBy(sess) + HeldBy(sess) ==> RouteOf(x) != r
  }

  /** The session binds the forgotten tunnel's host once more. */
  predicate BindsAgain(s: State, st: Step, prior: Tunnel) {
    && st.BindHost? && Enabled(s, st) && st.a == prior.session
    && RouteOf(s.sessions[st.a].pc.bt) == RouteOf(prior)
  }

  /** What the step adds to what the session has routed or holds. */
  function Gained(s: State, st: Step): set<Tunnel>
    requires Enabled(s, st)
  {
    if st.BindHost? then (if Conflict(s.routes, s.sessions[st.a].pc.bt) then {} else {s.sessions[st.a].pc.bt})
    else if st.ReservePort? then
      var (ok, port) := Reserve(UsedPorts(s, st.proto), s.lo, s.hi, st.want);
      if ok then {PortTunnel(s.next, st.a, st.id, st.proto, port)} else {}
    else {}
  }

  ghost predicate GainsOnly(s: State, st: Step)
    requires Enabled(s, st) && !st.Join?
  {
    var sess, sess' := s.sessions[st.a], Apply(s, st).sessions[st.a];
    RoutedBy(sess') + HeldBy(sess') <= RoutedBy(sess) + HeldBy(sess) + Gained(s, st)
  }

  lemma BindGains(s: State, st: Step)
    requires || st.ChooseHost? || st.BindHost? || st.ReservePort? || st.Listen? || st.BindPort?
             || st.GiveUpPort? || st.Count?
    requires Enabled(s, st) && SessionOk(s.next, st.a, s.sessions[st.a])
    ensures GainsOnly(s, st)
  {
  }

  lemma ReleaseGains(s: State, st: Step)
    requires st.Unroute? || st.FreePort? || st.Uncount? || st.Leave?
    requires Enabled(s, st) && SessionOk(s.next, st.a, s.sessions[st.a])
    ensures GainsOnly(s, st)
  {
  }

  lemma TrackGains(s: State, st: Step)
    requires Enabled(s, st) && st.Track?
    ensures GainsOnly(s, st)
  {
    var sess := s.sessions[st.a];
    assert sess.tunnels[sess.pc.bt.id := sess.pc.bt].Values <= sess.tunnels.Values + {sess.pc.bt};
  }

  lemma MoveGains(s: State, st: Step)
    requires Enabled(s, st) && (st.Unbind? || st.Teardown?)
    ensures GainsOnly(s, st)
  {
    OwnedMoves(s, st);
  }

  lemma StepGains(s: State, st: Step)
    requires Enabled(s, st) && !st.Join? && SessionOk(s.next, st.a, s.sessions[st.a])
    ensures GainsOnly(s, st)
  {
    if st.Track? {
      TrackGains(s, st);
    } else if st.Unbind? || st.Teardown? {
      MoveGains(s, st);
    } else if st.Unroute? || st.FreePort? || st.Uncount? || st.Leave? {
      ReleaseGains(s, st);
    } else {
      BindGains(s, st);
    }
  }

  /** Nothing gained has the forgotten route: another session is refused, and a reserved port is not handed out. */
  lemma GainedAvoids(s: State, st: Step, prior: Tunnel)
    requires Enabled(s, st) && !st.Join? && SessionOk(s.next, st.a, s.sessions[st.a])
    requires Forgotten(s, prior) && !BindsAgain(s, st, prior)
    ensures forall x :: x in Gained(s, st) ==> RouteOf(x) != RouteOf(prior)
  {
    if st.ReservePort? && prior.PortTunnel? && prior.proto == st.proto {
      assert prior.port in UsedPorts(s, st.proto);
    }
  }

  lemma RouteStays(s: State, st: Step, prior: Tunnel)
    requires Enabled(s, st) && !st.Join? && SessionOk(s.next, st.a, s.sessions[st.a])
    requires Forgotten(s, prior) && !BindsAgain(s, st, prior)
    ensures var s' := Apply(s, st); RouteOf(prior) in s'.routes && s'.routes[RouteOf(prior)] == prior
  {
    assert Avoids(s.sessions[st.a], RouteOf(prior));
    if st.BindHost? || st.BindPort? {
      BindAddsOne(s, st);
      assert st.BindPort? ==> s.sessions[st.a].pc.bt in HeldBy(s.sessions[st.a]);
    } else if st.Unroute? {
      UnrouteDropsOne(s, st.a);
    } else {
      RoutesUnchanged(s, st);
    }
  }

  lemma PortStays(s: State, st: Step, r: Route)
    requires Enabled(s, st) && !st.Join? && SessionOk(s.next, st.a, s.sessions[st.a])
    requires r in s.used && Avoids(s.sessions[st.a], r)
    ensures r in Apply(s, st).used
  {
    if st.GiveUpPort? {
      GiveUpDropsOne(s, st.a);
    } else if st.FreePort? {
      FreeDropsOne(s, st.a);
    }
  }

  lemma ForgottenStep(s: State, st: Step, prior: Tunnel)
    requires SessionsOk(s) && Enabled(s, st) && Forgotten(s, prior) && !BindsAgain(s, st, prior)
    ensures Forgotten(Apply(s, st), prior)
  {
    var s', r := Apply(s, st), RouteOf(prior);
    Frame(s, st);
    if st.Join? {
      assert Avoids(s'.sessions[st.a], r);
    } else {
      assert SessionOk(s.next, st.a, s.sessions[st.a]) && Avoids(s.sessions[st.a], r);
      StepGains(s, st);
      GainedAvoids(s, st, prior);
      RouteStays(s, st, prior);
      if prior.PortTunnel? {
        PortStays(s, st, r);
      }
      assert Avoids(s'.sessions[st.a], r);
    }
    forall b | b in s'.sessions && b != st.a
      ensures Avoids(s'.sessions[b], r)
    {
      assert s'.sessions[b] == s.sessions[b];
    }
  }

  /** Any way to go on from `s` in which the owner does not bind the forgotten host once more. */
  ghost predicate GoesOn(s: State, states: seq<State>, steps: seq<Step>, prior: Tunnel) {
    && |states| == |steps| + 1 && states[0] == s
    && forall i {:trigger steps[i]} :: 0 <= i < |steps| ==>
         Enabled(states[i], steps[i]) && states[i + 1] == Apply(states[i], steps[i])
         && !BindsAgain(states[i], steps[i], prior)
  }

  lemma {:induction false} ForgottenForever(s: State, states: seq<State>, steps: seq<Step>, prior: Tunnel, k: nat)
    requires GoesOn(s, states, steps, prior) && k < |states| && SessionsOk(s) && PoolOk(s) && Forgotten(s, prior)
    ensures SessionsOk(states[k]) && PoolOk(states[k]) && Forgotten(states[k], prior)
  {
    if k > 0 {
      ForgottenForever(s, states, steps, prior, k - 1);
      var st := steps[k - 1];
      SessionStep(states[k - 1], st);
      Frame(states[k - 1], st);
      ForgottenStep(states[k - 1], st, prior);
    }
  }

  lemma RoutedTwin(s: State, b: Sid, x: Tunnel, y: Tunnel)
    requires Matches(s.routes, RouteOwners(s)) && b in s.sessions && x in RoutedBy(s.sessions[b])
    requires y.session in s.sessions && y in RoutedBy(s.sessions[y.session]) && RouteOf(x) == RouteOf(y)
    ensures x == y && b == y.session
  {
    assert x in RouteOwners(s)[b] && y in RouteOwners(s)[y.session];
    NoSharedRoute(s.routes, RouteOwners(s), x, y);
  }

  lemma HeldTwin(s: State, b: Sid, x: Tunnel, y: Tunnel)
    requires Matches(s.used, PortOwners(s)) && b in s.sessions && x in HeldBy(s.sessions[b])
    requires y.session in s.sessions && y in HeldBy(s.sessions[y.session]) && RouteOf(x) == RouteOf(y)
    ensures x == y && b == y.session
  {
    assert x in PortOwners(s)[b] && y in PortOwners(s)[y.session];
    NoSharedRoute(s.used, PortOwners(s), x, y);
  }

  lemma HeldIsPort(sess: Session, next: nat, a: Sid, x: Tunnel)
    requires SessionOk(next, a, sess) && x in HeldBy(sess)
    ensures x.PortTunnel?
  {
  }

  /** In an agreeing state a tunnel with the route of a live one is that one. */
  lemma TwinIsPrior(s: State, b: Sid, x: Tunnel, prior: Tunnel)
    requires Matches(s.routes, RouteOwners(s)) && Matches(s.used, PortOwners(s)) && b in s.sessions
    requires SessionOk(s.next, b, s.sessions[b]) && LiveTunnel(s, prior) && RouteOf(x) == RouteOf(prior)
    requires x in RoutedBy(s.sessions[b]) || x in HeldBy(s.sessions[b])
    ensures x == prior && b == prior.session
  {
    if x in RoutedBy(s.sessions[b]) {
      RoutedTwin(s, b, x, prior);
    } else {
      HeldIsPort(s.sessions[b], s.next, b, x);
      RoutedPortIsHeld(s.sessions[prior.session], prior);
      HeldTwin(s, b, x, prior);
    }
  }

  /** Right after Track, what a session holds it has also routed. */
  lemma HeldIsRoutedAfterTrack(sess: Session, x: Tunnel)
    requires sess.pc.Tracked?
    ensures x in HeldBy(sess) ==> x in RoutedBy(sess)
  {
  }

  lemma ReuserAvoids(s: State, st: Step)
    requires Agrees(s) && DuplicateId(s, st)
    ensures Avoids(Apply(s, st).sessions[st.a], RouteOf(Prior(s, st)))
  {
    var prior, sess, sess' := Prior(s, st), s.sessions[st.a], Apply(s, st).sessions[st.a];
    assert SessionOk(s.next, st.a, sess);
    TrackDropsPrior(s, st);
    TrackGains(s, st);
    forall x | x in RoutedBy(sess') + HeldBy(sess')
      ensures RouteOf(x) != RouteOf(prior)
    {
      assert x in RoutedBy(sess) + HeldBy(sess);
      if RouteOf(x) == RouteOf(prior) {
        TwinIsPrior(s, st.a, x, prior);
        HeldIsRoutedAfterTrack(sess', prior);
      }
    }
  }

  lemma OtherAvoids(s: State, b: Sid, prior: Tunnel)
    requires Agrees(s) && b in s.sessions && LiveTunnel(s, prior) && b != prior.session
    ensures Avoids(s.sessions[b], RouteOf(prior))
  {
    assert SessionOk(s.next, b, s.sessions[b]);
    forall x | x in RoutedBy(s.sessions[b]) + HeldBy(s.sessions[b])
      ensures RouteOf(x) != RouteOf(prior)
    {
      if RouteOf(x) == RouteOf(prior) {
        TwinIsPrior(s, b, x, prior);
      }
    }
  }

  /** The reuse changes neither the pool nor any other session. */
  lemma ReuseFrame(s: State, st: Step)
    requires Agrees(s) && DuplicateId(s, st)
    ensures var s', prior := Apply(s, st), Prior(s, st);
      && s'.used == s.used && LiveTunnel(s, prior) && prior.session == st.a
      && s'.sessions == s.sessions[st.a := s'.sessions[st.a]]
      && (prior.PortTunnel? ==> RouteOf(prior) in s.used)
  {
    var prior := Prior(s, st);
    assert SessionOk(s.next, st.a, s.sessions[st.a]);
    if prior.PortTunnel? {
      assert prior in PortOwners(s)[st.a];
    }
  }

  lemma ReusedIdIsForgotten(s: State, st: Step)
    requires Agrees(s) && DuplicateId(s, st)
    ensures Forgotten(Apply(s, st), Prior(s, st))
  {
    var s', prior := Apply(s, st), Prior(s, st);
    ReusedIdForgets(s, st);
    ReuserAvoids(s, st);
    ReuseFrame(s, st);
    ForgottenIntro(s, s', st.a, prior);
  }

  lemma ForgottenIntro(s: State, s': State, a: Sid, prior: Tunnel)
    requires Agrees(s) && LiveTunnel(s, prior) && prior.session == a
    requires a in s'.sessions && s'.sessions == s.sessions[a := s'.sessions[a]]
    requires Avoids(s'.sessions[a], RouteOf(prior))
    requires RouteOf(prior) in s'.routes && s'.routes[RouteOf(prior)] == prior
    requires prior.PortTunnel? ==> RouteOf(prior) in s'.used
    ensures Forgotten(s', prior)
  {
    forall b | b in s'.sessions && b != a
      ensures Avoids(s'.sessions[b], RouteOf(prior))
    {
      OtherAvoids(s, b, prior);
    }
  }

  /**
    After the reuse of an id the first tunnel's route stays in the hub in every continuation, clean or not, unless the
    same session binds that very host once more; so the session's teardown leaves it behind.
   */
  lemma ReusedIdLeaks(s: State, st: Step, states: seq<State>, steps: seq<Step>, k: nat)
    requires Inv(s) && PoolOk(s) && DuplicateId(s, st)
    requires GoesOn(Apply(s, st), states, steps, Prior(s, st)) && k < |states|
    ensures var prior := Prior(s, st); RouteOf(prior) in states[k].routes && states[k].routes[RouteOf(prior)] == prior
    ensures TornDown(states[k], st.a) ==> !NothingLeft(states[k], st.a)
  {
    ReusedIdIsForgotten(s, st);
    ReusedIdForgets(s, st);
    SessionStep(s, st);
    Frame(s, st);
    ForgottenForever(Apply(s, st), states, steps, Prior(s, st), k);
  }

  // ---- Runs that reach these states ----

  /** A trace from an edge's start in which anything may happen. */
  ghost predicate Trace(states: seq<State>, steps: seq<Step>) {
    && |states| == |steps| + 1
    && Init(states[0])
    && forall i {:trigger steps[i]} :: 0 <= i < |steps| ==>
         Enabled(states[i], steps[i]) && states[i + 1] == Apply(states[i], steps[i])
  }

  lemma Extend(states: seq<State>, steps: seq<Step>, st: Step) returns (states': seq<State>, steps': seq<Step>)
    requires Trace(states, steps) && Enabled(states[|steps|], st)
    ensures Trace(states', steps') && states'[|steps'|] == Apply(states[|steps|], st)
    ensures states'[0] == states[0] && |steps'| == |steps| + 1
    ensures Run(states, steps) && CleanStep(states[|steps|], st, Apply(states[|steps|], st)) ==> Run(states', steps')
  {
    states', steps' := states + [Apply(states[|steps|], st)], steps + [st];
  }

  /** An edge whose only session is session 1. */
  function Alone(sess: Session, routes: map<Route, Tunnel>, gauge: int, next: nat): State {
    State(1, 9, routes, map[], {}, gauge, map[1 := sess], next)
  }

  function First(): Tunnel {
    HostTunnel(0, 1, "t", "a")
  }

  /** The session has one live tunnel, "t" for host "a". */
  lemma HasOneTunnel() returns (states: seq<State>, steps: seq<Step>)
    ensures Trace(states, steps) && Run(states, steps) && PoolOk(states[0])
    ensures states[|steps|] == Alone(Session(map["t" := First()], Idle), map[HostRoute("a") := First()], 1, 1)
  {
    states, steps := [State(1, 9, map[], map[], {}, 0, map[], 0)], [];
    states, steps := Extend(states, steps, Join(1));
    assert states[|steps|] == Alone(Session(map[], Idle), map[], 0, 0);
    states, steps := Extend(states, steps, ChooseHost(1, "t", "a", true));
    assert states[|steps|] == Alone(Session(map[], HostChosen(First())), map[], 0, 1);
    states, steps := Extend(states, steps, BindHost(1));
    assert states[|steps|] == Alone(Session(map[], Routed(First())), map[HostRoute("a") := First()], 0, 1);
    states, steps := Extend(states, steps, Track(1));
    states, steps := Extend(states, steps, Count(1));
  }

  /** It has put a second tunnel into the hub, perhaps over the first one's route. */
  lemma BindsSecond(y: Tunnel) returns (states: seq<State>, steps: seq<Step>)
    requires y.HostTunnel? && y.serial == 1 && y.session == 1 && y.host != ""
    ensures Trace(states, steps)
    ensures states[|steps|] ==
      Alone(Session(map["t" := First()], Routed(y)), map[HostRoute("a") := First()][RouteOf(y) := y], 1, 2)
  {
    states, steps := HasOneTunnel();
    states, steps := Extend(states, steps, ChooseHost(1, y.id, y.host, true));
    assert states[|steps|] ==
      Alone(Session(map["t" := First()], HostChosen(y)), map[HostRoute("a") := First()], 1, 2);
    states, steps := Extend(states, steps, BindHost(1));
  }

  /** The clean run above is one step short of a second bind of the session's own host. */
  lemma DuplicateHostIsReached() returns (states: seq<State>, steps: seq<Step>)
    ensures Run(states, steps) && PoolOk(states[0]) && DuplicateHost(states[|steps|], BindHost(1))
  {
    states, steps := HasOneTunnel();
    states, steps := Extend(states, steps, ChooseHost(1, "u", "a", true));
  }

  /** And here one step short of the reuse of a live tunnel's id. */
  lemma DuplicateIdIsReached() returns (states: seq<State>, steps: seq<Step>)
    ensures Run(states, steps) && PoolOk(states[0]) && DuplicateId(states[|steps|], Track(1))
  {
    states, steps := HasOneTunnel();
    states, steps := Extend(states, steps, ChooseHost(1, "t", "b", true));
    states, steps := Extend(states, steps, BindHost(1));
  }

  /** A session binds its custom domain twice, then releases the first tunnel: the second is live and has no route. */
  lemma DuplicateHostRun() returns (states: seq<State>, steps: seq<Step>, bt: Tunnel)
    ensures Trace(states, steps) && LiveTunnel(states[|steps|], bt) && RouteOf(bt) !in states[|steps|].routes
  {
    bt := HostTunnel(1, 1, "u", "a");
    states, steps := BindsSecond(bt);
    states, steps := Extend(states, steps, Track(1));
    states, steps := Extend(states, steps, Count(1));
    var s := states[|steps|];
    assert s.sessions[1].pc == Idle && s.sessions[1].tunnels == map["t" := First()]["u" := bt];
    ReleaseUnroutesTwin(s, 1, "t", bt);
    states, steps := Extend(states, steps, Unbind(1, "t"));
    states, steps := Extend(states, steps, Unroute(1));
  }

  /** The session has lost sight of its first tunnel: the second took its place in the map. */
  lemma ReusesId() returns (states: seq<State>, steps: seq<Step>)
    ensures Trace(states, steps)
    ensures var y := HostTunnel(1, 1, "t", "b");
      states[|steps|] ==
      Alone(Session(map["t" := y], Idle), map[HostRoute("a") := First()][HostRoute("b") := y], 2, 2)
  {
    var y := HostTunnel(1, 1, "t", "b");
    states, steps := BindsSecond(y);
    assert DuplicateId(states[|steps|], Track(1));
    states, steps := Extend(states, steps, Track(1));
    assert map["t" := First()]["t" := y] == map["t" := y];
    states, steps := Extend(states, steps, Count(1));
  }

  lemma TearsDownSecond() returns (states: seq<State>, steps: seq<Step>)
    ensures Trace(states, steps)
    ensures var y := HostTunnel(1, 1, "t", "b");
      states[|steps|] == Alone(Session(map[], Releasing([y], Unrouting, true)),
                               map[HostRoute("a") := First()][HostRoute("b") := y], 2, 2)
  {
    states, steps := ReusesId();
    var y := HostTunnel(1, 1, "t", "b");
    assert map["t" := y]["t"] == y && Elements([y]) == map["t" := y].Values;
    states, steps := Extend(states, steps, Teardown(1, [y]));
  }

  /** A session reuses the id of its tunnel and disconnects: the first tunnel's route is still in the hub. */
  lemma ReusedIdRun() returns (states: seq<State>, steps: seq<Step>)
    ensures Trace(states, steps) && TornDown(states[|steps|], 1) && !NothingLeft(states[|steps|], 1)
  {
    states, steps := TearsDownSecond();
    var y := HostTunnel(1, 1, "t", "b");
    states, steps := Extend(states, steps, Unroute(1));
    assert states[|steps|].sessions[1] == Session(map[], Releasing([y], Uncounting, true));
    states, steps := Extend(states, steps, Uncount(1));
    assert [y][1..] == [];
    assert states[|steps|].routes[HostRoute("a")].session == 1;
  }

  // ---- Why the pool must leave port 0 out ----

  lemma FirstFreeIs(used: set<int>, lo: int, hi: int, p: int)
    requires lo <= p <= hi && p !in used && forall q :: lo <= q < p ==> q in used
    ensures FirstFree(used, lo, hi) == p
  {
    var r := FirstFree(used, lo, hi);
    assert r <= p;
  }

  /** The first `n` ports of the pool are held by binds in flight of sessions 2, 3, ...; nothing else has happened. */
  ghost predicate Filled(s: State, lo: int, hi: int, n: nat) {
    && s.lo == lo && s.hi == hi && s.routes == map[]
    && (forall p :: p in UsedPorts(s, Tcp) <==> lo <= p < lo + n)
    && forall a :: a in s.sessions ==> 2 <= a < n + 2
  }

  /** In a filled state a new session's any-port request gets the next port. */
  lemma NextPort(s: State, lo: int, hi: int, n: nat, a: Sid)
    requires Filled(s, lo, hi, n) && a !in s.sessions && lo + n <= hi
    ensures var joined := Apply(s, Join(a)); var st := ReservePort(a, "t", Tcp, 0);
      && Reserve(UsedPorts(joined, Tcp), lo, hi, 0) == (true, lo + n)
      && UsedPorts(Apply(joined, st), Tcp) == UsedPorts(s, Tcp) + {lo + n}
  {
    var joined := Apply(s, Join(a));
    assert UsedPorts(joined, Tcp) == UsedPorts(s, Tcp);
    assert lo + n !in UsedPorts(s, Tcp) && forall q :: lo <= q < lo + n ==> q in UsedPorts(s, Tcp);
    FirstFreeIs(UsedPorts(s, Tcp), lo, hi, lo + n);
    ReserveUses(joined, ReservePort(a, "t", Tcp, 0), lo + n);
  }

  lemma {:induction false} FillBelow(lo: int, hi: int, n: nat) returns (states: seq<State>, steps: seq<Step>)
    requires lo + n <= hi + 1
    ensures Trace(states, steps) && Run(states, steps) && states[0].lo == lo && states[0].hi == hi
    ensures Filled(states[|steps|], lo, hi, n)
  {
    if n == 0 {
      states, steps := [State(lo, hi, map[], map[], {}, 0, map[], 0)], [];
    } else {
      states, steps := FillBelow(lo, hi, n - 1);
      NextPort(states[|steps|], lo, hi, n - 1, n + 1);
      states, steps := Extend(states, steps, Join(n + 1));
      states, steps := Extend(states, steps, ReservePort(n + 1, "t", Tcp, 0));
    }
  }

  lemma ReserveUses(s: State, st: Step, p: int)
    requires Enabled(s, st) && st.ReservePort? && Reserve(UsedPorts(s, st.proto), s.lo, s.hi, st.want) == (true, p)
    ensures UsedPorts(Apply(s, st), st.proto) == UsedPorts(s, st.proto) + {p}
  {
    var s' := Apply(s, st);
    assert s'.used.Keys == s.used.Keys + {PortRoute(st.proto, p)};
    forall q | q in UsedPorts(s, st.proto) + {p}
      ensures q in UsedPorts(s', st.proto)
    {
      assert PortRoute(st.proto, q) in s'.used;
    }
  }

  const ZERO_PORT := PortRoute(Tcp, 0)

  /** Session 1 is in the given state, and the hub and the pool have port 0 for `bt`. */
  predicate HasZero(s: State, sess: Session, bt: Tunnel) {
    && 1 in s.sessions && s.sessions[1] == sess
    && bt.PortTunnel? && bt.session == 1 && bt.id == "t" && RouteOf(bt) == ZERO_PORT
    && ZERO_PORT in s.routes && s.routes[ZERO_PORT] == bt && ZERO_PORT in s.used && s.used[ZERO_PORT] == bt
  }

  lemma ZeroIsHeld(lo: int, hi: int) returns (states: seq<State>, steps: seq<Step>, bt: Tunnel)
    requires lo <= 0 <= hi
    ensures Trace(states, steps) && Run(states, steps) && states[0].lo == lo && states[0].hi == hi
    ensures var s := states[|steps|];
      && 1 in s.sessions && s.sessions[1] == Session(map[], PortHeld(bt)) && s.routes == map[]
      && ZERO_PORT in s.used && s.used[ZERO_PORT] == bt
      && bt.PortTunnel? && bt.session == 1 && bt.id == "t" && RouteOf(bt) == ZERO_PORT
  {
    states, steps := FillBelow(lo, hi, -lo);
    NextPort(states[|steps|], lo, hi, -lo, 1);
    states, steps := Extend(states, steps, Join(1));
    bt := PortTunnel(states[|steps|].next, 1, "t", Tcp, 0);
    states, steps := Extend(states, steps, ReservePort(1, "t", Tcp, 0));
  }

  lemma ZeroIsBound(lo: int, hi: int) returns (states: seq<State>, steps: seq<Step>, bt: Tunnel)
    requires lo <= 0 <= hi
    ensures Trace(states, steps) && Run(states, steps) && states[0].lo == lo && states[0].hi == hi
    ensures HasZero(states[|steps|], Session(map[], Routed(bt)), bt)
  {
    states, steps, bt := ZeroIsHeld(lo, hi);
    states, steps := Extend(states, steps, Listen(1, true));
    states, steps := Extend(states, steps, BindPort(1));
  }

  lemma ZeroIsLive(lo: int, hi: int) returns (states: seq<State>, steps: seq<Step>, bt: Tunnel)
    requires lo <= 0 <= hi
    ensures Trace(states, steps) && Run(states, steps) && states[0].lo == lo && states[0].hi == hi
    ensures HasZero(states[|steps|], Session(map["t" := bt], Idle), bt)
  {
    states, steps, bt := ZeroIsBound(lo, hi);
    states, steps := Extend(states, steps, Track(1));
    assert HasZero(states[|steps|], Session(map["t" := bt], Tracked(bt)), bt);
    states, steps := Extend(states, steps, Count(1));
  }

  /** The teardown of a tunnel on port 0 goes through all its steps and leaves the hub and the pool as they are. */
  lemma ZeroTeardown(s: State, bt: Tunnel)
    requires HasZero(s, Session(map["t" := bt], Idle), bt)
    ensures Enabled(s, Teardown(1, [bt]))
    ensures HasZero(Apply(s, Teardown(1, [bt])), Session(map[], Releasing([bt], Unrouting, true)), bt)
  {
    assert map["t" := bt]["t"] == bt && Elements([bt]) == map["t" := bt].Values;
  }

  lemma ZeroRelease(s: State, bt: Tunnel)
    requires HasZero(s, Session(map[], Releasing([bt], Unrouting, true)), bt)
    ensures Enabled(s, Unroute(1)) && Enabled(Apply(s, Unroute(1)), Uncount(1))
    ensures HasZero(Apply(Apply(s, Unroute(1)), Uncount(1)), Session(map[], Leaving), bt)
  {
    assert HasZero(Apply(s, Unroute(1)), Session(map[], Releasing([bt], Uncounting, true)), bt);
    assert [bt][1..] == [];
  }

  /**
    With port 0 in the pool, a session that is gone can leave a route and a reserved port behind. With ports below 0
    too, it takes as many binds in flight at that moment to reach port 0.
   */
  lemma ZeroPortLeaks(lo: int, hi: int) returns (states: seq<State>, steps: seq<Step>)
    requires lo <= 0 <= hi
    ensures Run(states, steps) && states[0].lo == lo && states[0].hi == hi
    ensures TornDown(states[|steps|], 1) && !NothingLeft(states[|steps|], 1)
    ensures ZERO_PORT in states[|steps|].used && ZERO_PORT in states[|steps|].routes
  {
    var bt;
    states, steps, bt := ZeroIsLive(lo, hi);
    ZeroTeardown(states[|steps|], bt);
    states, steps := Extend(states, steps, Teardown(1, [bt]));
    ZeroRelease(states[|steps|], bt);
    states, steps := Extend(states, steps, Unroute(1));
    states, steps := Extend(states, steps, Uncount(1));
  }

  /** In every clean run of an edge with this pool, a torn-down session leaves nothing behind. */
  ghost predicate TeardownIsClean(lo: int, hi: int) {
    forall states, steps, a :: TearsDown(states, steps, a, lo, hi) ==> NothingLeft(states[|steps|], a)
  }

  ghost predicate TearsDown(states: seq<State>, steps: seq<Step>, a: Sid, lo: int, hi: int) {
    Run(states, steps) && states[0].lo == lo && states[0].hi == hi && TornDown(states[|steps|], a)
  }

  /** Teardown is clean in every run if and only if the pool does not contain port 0. */
  lemma CleanTeardownIffNoZero(lo: int, hi: int)
    ensures TeardownIsClean(lo, hi) <==> !(lo <= 0 <= hi)
  {
    if lo <= 0 <= hi {
      var states, steps := ZeroPortLeaks(lo, hi);
      assert TearsDown(states, steps, 1, lo, hi);
    } else {
      forall states, steps, a | TearsDown(states, steps, a, lo, hi)
        ensures NothingLeft(states[|steps|], a)
      {
        DeadSessionLeavesNothing(states, steps, |steps|, a);
      }
    }
  }
}
