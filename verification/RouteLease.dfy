/**
  Route leases in the shared registry, for the routes that only this edge binds. Sessions bind and release routes,
  the presence loop snapshots the hub and refreshes each route in turn, other edges work on their own routes, and
  time passes; all of it interleaves freely. Times are milliseconds.
 */
module RouteLease {
  import opened Wrappers

  type Key = string
  type EdgeId = string

  /** Where a route is homed. */
  datatype Binding = Binding(edge: EdgeId, session: string)

  /** A registry entry; no expiry stands for the zero time of expiryFrom. */
  datatype Entry = Entry(binding: Binding, expiry: Option<int>)

  /** The address an edge advertises to its peers. */
  datatype EdgeEntry = EdgeEntry(addr: string, expiry: Option<int>)

  function ExpiryFrom(ttl: int, now: int): Option<int> {
    if ttl <= 0 then None else Some(now + ttl)
  }

  /** An entry counts until its expiry has passed. */
  predicate Counts(expiry: Option<int>, now: int) {
    expiry.Some? ==> now <= expiry.value
  }

  /** Lookup of the in-memory registry. */
  function Lookup(m: map<Key, Entry>, key: Key, now: int): Option<Binding> {
    if key in m && Counts(m[key].expiry, now) then Some(m[key].binding) else None
  }

  function AddressOf(edges: map<EdgeId, EdgeEntry>, edge: EdgeId, now: int): Option<string> {
    if edge in edges && Counts(edges[edge].expiry, now) then Some(edges[edge].addr) else None
  }

  /** Refresh only ever extends an entry that is there. */
  function Refresh(m: map<Key, Entry>, key: Key, ttl: int, now: int): map<Key, Entry> {
    if key in m then m[key := m[key].(expiry := ExpiryFrom(ttl, now))] else m
  }

  class InMemoryRegistry {
    var routes: map<Key, Entry>
    var edges: map<EdgeId, EdgeEntry>

    constructor ()
      ensures routes == map[] && edges == map[]
    {
      routes, edges := map[], map[];
    }

    method Bind(key: Key, b: Binding, ttl: int, now: int)
      modifies this`routes
      ensures routes == old(routes)[key := Entry(b, ExpiryFrom(ttl, now))]
      ensures forall t :: now <= t && (ttl <= 0 || t <= now + ttl) ==> Lookup(routes, key, t) == Some(b)
      ensures forall t :: 0 < ttl && now + ttl < t ==> Lookup(routes, key, t) == None
    {
      routes := routes[key := Entry(b, ExpiryFrom(ttl, now))];
    }

    method RefreshRoute(key: Key, ttl: int, now: int)
      modifies this`routes
      ensures routes == Refresh(old(routes), key, ttl, now) && routes.Keys == old(routes).Keys
      ensures forall k :: k in routes ==> routes[k].binding == old(routes)[k].binding
      ensures key in old(routes) ==> forall t :: now <= t && (ttl <= 0 || t <= now + ttl) ==>
        Lookup(routes, key, t) == Some(old(routes)[key].binding)
      ensures forall t :: 0 < ttl && now + ttl < t ==> Lookup(routes, key, t) == None
      ensures forall k, t :: k != key ==> Lookup(routes, k, t) == Lookup(old(routes), k, t)
    {
      if key in routes {
        routes := routes[key := routes[key].(expiry := ExpiryFrom(ttl, now))];
      }
    }

    method Find(key: Key, now: int) returns (r: Option<Binding>)
      ensures r == Lookup(routes, key, now)
    {
      if key !in routes {
        return None;
      }
      if routes[key].expiry.Some? && routes[key].expiry.value < now {
        return None;
      }
      return Some(routes[key].binding);
    }

    method Unbind(key: Key)
      modifies this`routes
      ensures routes == old(routes) - {key}
      ensures forall now :: Lookup(routes, key, now) == None
    {
      routes := routes - {key};
    }

    /** The address resolves for the whole lifetime asked for and not after it; other edges resolve as before. */
    method RegisterEdge(edge: EdgeId, addr: string, ttl: int, now: int)
      modifies this`edges
      ensures forall t :: now <= t && (ttl <= 0 || t <= now + ttl) ==> AddressOf(edges, edge, t) == Some(addr)
      ensures forall t :: 0 < ttl && now + ttl < t ==> AddressOf(edges, edge, t) == None
      ensures forall e, t :: e != edge ==> AddressOf(edges, e, t) == AddressOf(old(edges), e, t)
      ensures edges == old(edges)[edge := EdgeEntry(addr, ExpiryFrom(ttl, now))]
    {
      edges := edges[edge := EdgeEntry(addr, ExpiryFrom(ttl, now))];
    }

    method LookupEdge(edge: EdgeId, now: int) returns (r: Option<string>)
      ensures r == AddressOf(edges, edge, now)
    {
      if edge in edges && !(edges[edge].expiry.Some? && edges[edge].expiry.value < now) {
        return Some(edges[edge].addr);
      }
      return None;
    }

    method UnregisterEdge(edge: EdgeId)
      modifies this`edges
      ensures edges == old(edges) - {edge} && forall now :: AddressOf(edges, edge, now) == None
    {
      edges := edges - {edge};
    }
  }

  // ---- The step system ----

  /** The presence loop: idle, or refreshing the routes of a snapshot taken at `start`. */
  datatype Round = NoRound | InRound(start: int, left: set<Key>, clean: bool)

  datatype State = State(
    me: EdgeId, heartbeat: int,
    own: set<Key>,              // routes that no other edge binds or unbinds
    now: int,
    registry: map<Key, Entry>,
    hub: set<Key>,              // routes in this edge's hub
    releasing: multiset<Key>,   // releases past the hub but not yet at the registry
    round: Round,
    lastGood: int,              // start of the last round in which every refresh succeeded
    leased: set<Key>)           // bound here, with no release of the same route in flight at the bind

  datatype Step =
    | Tick(to: int)
    | HubBind(r: Key)
    | RegBind(r: Key, session: string)
    | HubUnbind(r: Key)
    | RegUnbind(r: Key)
    | Snapshot
    | RefreshOne(r: Key, ok: bool)
    | EndRound
    | Lapse(r: Key)                            // Redis removes an expired key
    | Foreign(r: Key, entry: Option<Entry>)    // another edge writes or deletes its own route

  function Ttl(s: State): int {
    2 * s.heartbeat
  }

  predicate Enabled(s: State, st: Step) {
    match st
    case Tick(to) => s.now <= to
    case HubBind(_) => true
    case RegBind(r, _) => r in s.hub
    case HubUnbind(r) => r in s.hub
    case RegUnbind(r) => r in s.releasing
    case Snapshot => s.round == NoRound
    case RefreshOne(r, _) => s.round.InRound? && r in s.round.left
    case EndRound => s.round.InRound? && s.round.left == {}
    case Lapse(r) => r in s.registry && s.registry[r].expiry.Some? && s.registry[r].expiry.value <= s.now
    case Foreign(r, _) => r !in s.own
  }

  function Apply(s: State, st: Step): State
    requires Enabled(s, st)
  {
    match st
    case Tick(to) => s.(now := to)
    case HubBind(r) => s.(hub := s.hub + {r})
    case RegBind(r, session) =>
      s.(registry := s.registry[r := Entry(Binding(s.me, session), ExpiryFrom(Ttl(s), s.now))],
         leased := if r in s.releasing then s.leased else s.leased + {r})
    case HubUnbind(r) =>
      s.(hub := s.hub - {r}, leased := s.leased - {r}, releasing := s.releasing + multiset{r})
    case RegUnbind(r) => s.(registry := s.registry - {r}, releasing := s.releasing - multiset{r})
    case Snapshot => s.(round := InRound(s.now, s.hub, true))
    case RefreshOne(r, ok) =>
      s.(registry := if ok then Refresh(s.registry, r, Ttl(s), s.now) else s.registry,
         round := InRound(s.round.start, s.round.left - {r}, s.round.clean && ok))
    case EndRound => s.(round := NoRound, lastGood := if s.round.clean then s.round.start else s.lastGood)
    case Lapse(r) => s.(registry := s.registry - {r})
    case Foreign(r, entry) =>
      s.(registry := if entry.Some? then s.registry[r := entry.value] else s.registry - {r})
  }

  predicate Init(s: State) {
    && s.hub == {} && s.leased == {} && s.releasing == multiset{} && s.round == NoRound
    && s.lastGood <= s.now && s.registry.Keys !! s.own
  }

  predicate Next(s: State, st: Step, s': State) {
    Enabled(s, st) && s' == Apply(s, st)
  }

  ghost predicate Run(states: seq<State>, steps: seq<Step>) {
    && |states| == |steps| + 1
    && Init(states[0])
    && forall i {:trigger steps[i]} :: 0 <= i < |steps| ==> Next(states[i], steps[i], states[i + 1])
  }

  /** The last fully successful round started less than two heartbeats ago; with no heartbeat nothing expires. */
  predicate Timely(s: State) {
    s.heartbeat <= 0 || s.now < s.lastGood + Ttl(s)
  }

  predicate LastsUntil(e: Entry, t: int) {
    e.expiry.None? || t <= e.expiry.value
  }

  /** The lease of `r` covers the last good round and, once refreshed in the current round, that one too. */
  predicate LeaseOk(s: State, r: Key) {
    && r in s.hub && r !in s.releasing
    && r in s.registry && s.registry[r].binding.edge == s.me
    && LastsUntil(s.registry[r], s.lastGood + Ttl(s))
    && (s.round.InRound? && s.round.clean && r !in s.round.left ==> LastsUntil(s.registry[r], s.round.start + Ttl(s)))
  }

  ghost predicate Inv(s: State) {
    && (forall r :: r in s.leased && r in s.own ==> LeaseOk(s, r))
    && s.lastGood <= s.now
    && (s.round.InRound? ==> s.round.start <= s.now)
    && (s.heartbeat <= 0 ==> forall r :: r in s.leased && r in s.own ==> s.registry[r].expiry.None?)
  }

  lemma StepKeepsInv(s: State, st: Step)
    requires Inv(s) && Timely(s) && Enabled(s, st)
    ensures Inv(Apply(s, st))
  {
    var s' := Apply(s, st);
    forall r | r in s'.leased && r in s'.own
      ensures LeaseOk(s', r) && (s.heartbeat <= 0 ==> s'.registry[r].expiry.None?)
    {
      if r in s.leased {
        assert LeaseOk(s, r);
      }
    }
  }

  lemma {:induction false} RunKeepsInv(states: seq<State>, steps: seq<Step>, k: nat)
    requires Run(states, steps) && k < |states|
    requires forall i :: 0 <= i < k ==> Timely(states[i])
    ensures Inv(states[k])
  {
    if k > 0 {
      RunKeepsInv(states, steps, k - 1);
      assert Timely(states[k - 1]) && Next(states[k - 1], steps[k - 1], states[k - 1 + 1]);
      StepKeepsInv(states[k - 1], steps[k - 1]);
    }
  }

  /** A lookup of the route finds this edge. */
  predicate Resolves(s: State, r: Key) {
    Lookup(s.registry, r, s.now).Some? && Lookup(s.registry, r, s.now).value.edge == s.me
  }

  /**
    If presence rounds succeed less than two heartbeats apart, then for a route that only this edge binds every
    lookup finds this edge, from the registry bind until the tunnel's release starts, expired keys being dropped
    by Redis or ignored by the in-memory registry.
   */
  lemma LeasedRouteResolves(states: seq<State>, steps: seq<Step>, k: nat, r: Key)
    requires Run(states, steps) && k < |states|
    requires forall i :: 0 <= i <= k ==> Timely(states[i])
    requires r in states[k].own && r in states[k].leased
    ensures Resolves(states[k], r)
    ensures !Enabled(states[k], Lapse(r))
  {
    RunKeepsInv(states, steps, k);
    LeaseResolves(states[k], r);
  }

  lemma LeaseResolves(s: State, r: Key)
    requires Inv(s) && Timely(s) && r in s.own && r in s.leased
    ensures Resolves(s, r) && !Enabled(s, Lapse(r))
  {
    assert LeaseOk(s, r);
  }

  // ---- After the hub has let go ----

  /** This edge's entry lasts until `t`, or for ever when there is no heartbeat. */
  predicate HeldUntil(s: State, r: Key, t: int) {
    && r in s.own && r in s.registry && s.registry[r].binding.edge == s.me
    && (if s.heartbeat <= 0 then s.registry[r].expiry.None? else LastsUntil(s.registry[r], t))
  }

  lemma HeldStep(s: State, st: Step, r: Key, t: int)
    requires Enabled(s, st) && HeldUntil(s, r, t) && st != RegUnbind(r)
    requires s.heartbeat <= 0 || (t <= s.now + Ttl(s) && s.now < t)
    ensures HeldUntil(Apply(s, st), r, t)
    ensures Apply(s, st).heartbeat == s.heartbeat && s.now <= Apply(s, st).now
  {
  }

  /** Time does not run back, and neither edge, heartbeat nor ownership ever changes. */
  lemma {:induction false} Passing(states: seq<State>, steps: seq<Step>, i: nat, j: nat)
    requires Run(states, steps) && i <= j < |states|
    ensures states[i].now <= states[j].now
    ensures states[j].heartbeat == states[i].heartbeat && states[j].own == states[i].own && states[j].me == states[i].me
  {
    if i < j {
      Passing(states, steps, i, j - 1);
      assert Next(states[j - 1], steps[j - 1], states[j - 1 + 1]);
    }
  }

  lemma {:induction false} HeldRun(states: seq<State>, steps: seq<Step>, i: nat, j: nat, r: Key, t: int)
    requires Run(states, steps) && i <= j < |states| && HeldUntil(states[i], r, t)
    requires forall k :: i <= k < j ==> steps[k] != RegUnbind(r)
    requires states[i].heartbeat <= 0 || (t <= states[i].now + Ttl(states[i]) && states[j].now < t)
    ensures HeldUntil(states[j], r, t)
  {
    if i < j {
      Passing(states, steps, i, j - 1);
      Passing(states, steps, j - 1, j);
      HeldRun(states, steps, i, j - 1, r, t);
      assert steps[j - 1] != RegUnbind(r) && Next(states[j - 1], steps[j - 1], states[j - 1 + 1]);
      HeldStep(states[j - 1], steps[j - 1], r, t);
    }
  }

  /**
    A route leased at state `i` goes on resolving after its hub entry is gone, whatever presence rounds do, until a
    registry unbind of it arrives or two heartbeats have passed since the last good round before `i`.
   */
  lemma ResolvesUntilUnbound(states: seq<State>, steps: seq<Step>, i: nat, j: nat, r: Key)
    requires Run(states, steps) && i <= j < |states|
    requires forall k :: 0 <= k <= i ==> Timely(states[k])
    requires r in states[i].own && r in states[i].leased
    requires forall k :: i <= k < j ==> steps[k] != RegUnbind(r)
    requires states[i].heartbeat <= 0 || states[j].now < states[i].lastGood + Ttl(states[i])
    ensures Resolves(states[j], r)
  {
    RunKeepsInv(states, steps, i);
    assert LeaseOk(states[i], r);
    Passing(states, steps, i, j);
    HeldRun(states, steps, i, j, r, states[i].lastGood + Ttl(states[i]));
  }

  // ---- Routes that nobody renews ----

  /** No entry of a route of this edge lasts for longer than two heartbeats. */
  ghost predicate Bounded(s: State) {
    0 < s.heartbeat ==> forall r :: r in s.own && r in s.registry ==> EndsBy(s.registry[r], s.now + Ttl(s))
  }

  predicate EndsBy(e: Entry, t: int) {
    e.expiry.Some? && e.expiry.value <= t
  }

  lemma {:induction false} BoundedRun(states: seq<State>, steps: seq<Step>, k: nat)
    requires Run(states, steps) && k < |states|
    ensures Bounded(states[k])
  {
    if k > 0 {
      BoundedRun(states, steps, k - 1);
      assert Next(states[k - 1], steps[k - 1], states[k - 1 + 1]);
      BoundedStep(states[k - 1], steps[k - 1]);
    }
  }

  lemma BoundedStep(s: State, st: Step)
    requires Bounded(s) && Enabled(s, st)
    ensures Bounded(Apply(s, st))
  {
    var s' := Apply(s, st);
    forall r | 0 < s.heartbeat && r in s'.own && r in s'.registry
      ensures EndsBy(s'.registry[r], s'.now + Ttl(s'))
    {
      assert r in s.registry ==> EndsBy(s.registry[r], s.now + Ttl(s));
    }
  }

  /** Binds or renews the route. */
  predicate Renews(st: Step, r: Key) {
    (st.RegBind? && st.r == r) || st == RefreshOne(r, true)
  }

  lemma EndStep(s: State, st: Step, r: Key, t: int)
    requires Enabled(s, st) && r in s.own && !Renews(st, r) && (r in s.registry ==> EndsBy(s.registry[r], t))
    ensures r in Apply(s, st).own && (r in Apply(s, st).registry ==> EndsBy(Apply(s, st).registry[r], t))
  {
  }

  lemma {:induction false} EndRun(states: seq<State>, steps: seq<Step>, i: nat, j: nat, r: Key, t: int)
    requires Run(states, steps) && i <= j < |states| && r in states[i].own
    requires r in states[i].registry ==> EndsBy(states[i].registry[r], t)
    requires forall k :: i <= k < j ==> !Renews(steps[k], r)
    ensures r in states[j].own && (r in states[j].registry ==> EndsBy(states[j].registry[r], t))
  {
    if i < j {
      EndRun(states, steps, i, j - 1, r, t);
      assert !Renews(steps[j - 1], r) && Next(states[j - 1], steps[j - 1], states[j - 1 + 1]);
      EndStep(states[j - 1], steps[j - 1], r, t);
    }
  }

  /**
    A route of an edge that stopped renewing it, having crashed for instance, resolves to nothing once two heartbeats
    have passed since, whatever else happens.
   */
  lemma UnrenewedRouteLapses(states: seq<State>, steps: seq<Step>, i: nat, j: nat, r: Key)
    requires Run(states, steps) && i <= j < |states| && r in states[i].own && 0 < states[i].heartbeat
    requires forall k :: i <= k < j ==> !Renews(steps[k], r)
    requires states[j].now > states[i].now + Ttl(states[i])
    ensures Lookup(states[j].registry, r, states[j].now) == None
  {
    BoundedRun(states, steps, i);
    EndRun(states, steps, i, j, r, states[i].now + Ttl(states[i]));
  }

  // ---- A presence round ----

  /** A round, carried out step by step with nothing in between. */
  function Refreshes(keys: seq<Key>): seq<Step> {
    seq(|keys|, i requires 0 <= i < |keys| => RefreshOne(keys[i], true))
  }

  function After(s: State, steps: seq<Step>): State
    decreases |steps|
  {
    if steps == [] || !Enabled(s, steps[0]) then s else After(Apply(s, steps[0]), steps[1..])
  }

  /** The registry with the entries of the given routes renewed at `now`. */
  function RenewAll(m: map<Key, Entry>, done: set<Key>, ttl: int, now: int): map<Key, Entry> {
    map r | r in m :: if r in done then m[r].(expiry := ExpiryFrom(ttl, now)) else m[r]
  }

  lemma RenewOne(m: map<Key, Entry>, done: set<Key>, key: Key, ttl: int, now: int)
    ensures Refresh(RenewAll(m, done, ttl, now), key, ttl, now) == RenewAll(m, done + {key}, ttl, now)
  {
  }

  function Elements(keys: seq<Key>): set<Key> {
    set k | k in keys
  }

  ghost predicate Distinct(keys: seq<Key>) {
    forall i, j :: 0 <= i < j < |keys| ==> keys[i] != keys[j]
  }

  lemma ElementsCons(keys: seq<Key>)
    requires keys != [] && Distinct(keys)
    ensures keys[0] in Elements(keys) && Elements(keys) - {keys[0]} == Elements(keys[1..]) && Distinct(keys[1..])
  {
    assert keys == [keys[0]] + keys[1..];
  }

  /** In the middle of a round: the routes dealt with are renewed, the others untouched. */
  function Midway(before: State, done: set<Key>, left: set<Key>): State {
    before.(registry := RenewAll(before.registry, done, Ttl(before), before.now),
            round := InRound(before.now, left, true))
  }

  lemma {:induction false} RefreshAll(before: State, keys: seq<Key>, done: set<Key>)
    requires Distinct(keys)
    ensures After(Midway(before, done, Elements(keys)), Refreshes(keys)) == Midway(before, done + Elements(keys), {})
    decreases |keys|
  {
    if keys == [] {
      assert Elements(keys) == {} && done + Elements(keys) == done;
    } else {
      var s, steps := Midway(before, done, Elements(keys)), Refreshes(keys);
      ElementsCons(keys);
      RenewOne(before.registry, done, keys[0], Ttl(before), before.now);
      assert Apply(s, steps[0]) == Midway(before, done + {keys[0]}, Elements(keys[1..]));
      assert steps[1..] == Refreshes(keys[1..]);
      RefreshAll(before, keys[1..], done + {keys[0]});
      assert done + {keys[0]} + Elements(keys[1..]) == done + Elements(keys);
    }
  }

  /**
    A presence round in which every refresh succeeds: each registered route of the hub, and no other, now lasts two
    heartbeats from its start, and the round counts as the last good one.
   */
  lemma RoundRenews(s: State, keys: seq<Key>) returns (mid: State)
    requires s.round == NoRound && s.hub == Elements(keys) && Distinct(keys)
    ensures Enabled(s, Snapshot) && mid == After(Apply(s, Snapshot), Refreshes(keys)) && Enabled(mid, EndRound)
    ensures var s' := Apply(mid, EndRound);
      s'.round == NoRound && s'.lastGood == s.now && s'.registry.Keys == s.registry.Keys
    ensures var m := Apply(mid, EndRound).registry;
      && (forall r :: r in m && r in s.hub ==>
            m[r] == Entry(s.registry[r].binding, if s.heartbeat > 0 then Some(s.now + 2 * s.heartbeat) else None))
      && forall r :: r in m && r !in s.hub ==> m[r] == s.registry[r]
  {
    assert RenewAll(s.registry, {}, Ttl(s), s.now) == s.registry;
    assert Apply(s, Snapshot) == Midway(s, {}, Elements(keys));
    RefreshAll(s, keys, {});
    assert {} + Elements(keys) == s.hub;
    mid := Midway(s, s.hub, {});
  }

  /** A round with a failed refresh does not count. */
  lemma FailedRoundDoesNotCount(s: State)
    requires s.round.InRound? && s.round.left == {} && !s.round.clean
    ensures Enabled(s, EndRound) && Apply(s, EndRound) == s.(round := NoRound)
  {
  }

  /** With no new bind, an absent route stays absent, whatever refreshes still arrive. */
  lemma {:induction false} RefreshNeverRevives(states: seq<State>, steps: seq<Step>, i: nat, j: nat, r: Key)
    requires Run(states, steps) && i <= j < |states|
    requires r in states[i].own && r !in states[i].registry
    requires forall k :: i <= k < j ==> !(steps[k].RegBind? && steps[k].r == r)
    ensures r in states[j].own && r !in states[j].registry
    ensures Lookup(states[j].registry, r, states[j].now) == None
  {
    if i < j {
      RefreshNeverRevives(states, steps, i, j - 1, r);
      assert !(steps[j - 1].RegBind? && steps[j - 1].r == r) && Next(states[j - 1], steps[j - 1], states[j - 1 + 1]);
    }
  }

  /** Another edge never appears under a route that only this edge binds. */
  lemma {:induction false} NoOtherEdge(states: seq<State>, steps: seq<Step>, k: nat, r: Key)
    requires Run(states, steps) && k < |states| && r in states[k].own
    ensures r in states[k].registry ==> states[k].registry[r].binding.edge == states[k].me
  {
    if k > 0 {
      assert Next(states[k - 1], steps[k - 1], states[k - 1 + 1]);
      NoOtherEdge(states, steps, k - 1, r);
    }
  }

  // ---- Binds that meet a release in flight ----

  /** A way to go on from `s` with timely rounds and no release of `r` starting. */
  ghost predicate GoesOn(s: State, states: seq<State>, steps: seq<Step>, r: Key) {
    && |states| == |steps| + 1 && states[0] == s
    && (forall i {:trigger steps[i]} :: 0 <= i < |steps| ==>
          Next(states[i], steps[i], states[i + 1]) && steps[i] != HubUnbind(r))
    && forall i :: 0 <= i < |states| ==> Timely(states[i])
  }

  lemma {:induction false} LeaseGoesOn(s: State, states: seq<State>, steps: seq<Step>, r: Key, k: nat)
    requires GoesOn(s, states, steps, r) && k < |states| && Inv(s) && r in s.own && r in s.leased
    ensures Inv(states[k]) && r in states[k].own && r in states[k].leased
  {
    if k > 0 {
      LeaseGoesOn(s, states, steps, r, k - 1);
      assert Next(states[k - 1], steps[k - 1], states[k - 1 + 1]) && steps[k - 1] != HubUnbind(r);
      StepKeepsInv(states[k - 1], steps[k - 1]);
    }
  }

  /** The release in flight reaches the registry right after the bind. */
  lemma LateUnbindHides(s: State, r: Key, session: string)
    requires r in s.hub && r in s.releasing && Timely(s)
    ensures var bound := Apply(s, RegBind(r, session)); var gone := Apply(bound, RegUnbind(r));
      && GoesOn(bound, [bound, gone], [RegUnbind(r)], r)
      && r in gone.hub && !Resolves(gone, r)
  {
    var bound := Apply(s, RegBind(r, session));
    var states, steps := [bound, Apply(bound, RegUnbind(r))], [RegUnbind(r)];
    assert steps[0] == RegUnbind(r) && Next(states[0], steps[0], states[0 + 1]);
  }

  ghost predicate AlwaysResolves(s: State, r: Key) {
    forall states, steps, k: nat :: GoesOn(s, states, steps, r) && k < |states| ==> Resolves(states[k], r)
  }

  /**
    At any registry bind of a run with timely rounds, of a route that only this edge binds: the route resolves to this
    edge from then on, in every timely continuation in which its release does not start, if and only if no earlier
    release of the same route is still on its way to the registry.
   */
  lemma BindHoldsIffNoReleaseInFlight(states: seq<State>, steps: seq<Step>, k: nat, r: Key, session: string)
    requires Run(states, steps) && k < |states| && Enabled(states[k], RegBind(r, session)) && r in states[k].own
    requires forall i :: 0 <= i <= k ==> Timely(states[i])
    ensures AlwaysResolves(Apply(states[k], RegBind(r, session)), r) <==> r !in states[k].releasing
  {
    var s := states[k];
    var bound := Apply(s, RegBind(r, session));
    RunKeepsInv(states, steps, k);
    StepKeepsInv(s, RegBind(r, session));
    if r in s.releasing {
      LateUnbindHides(s, r, session);
      var gone := Apply(bound, RegUnbind(r));
      assert GoesOn(bound, [bound, gone], [RegUnbind(r)], r) && [bound, gone][1] == gone;
    } else {
      forall cs, ss, i: nat | GoesOn(bound, cs, ss, r) && i < |cs|
        ensures Resolves(cs[i], r)
      {
        LeaseGoesOn(bound, cs, ss, r, i);
        assert Timely(cs[i]);
        LeaseResolves(cs[i], r);
      }
    }
  }

  lemma Extend(states: seq<State>, steps: seq<Step>, st: Step) returns (states': seq<State>, steps': seq<Step>)
    requires Run(states, steps) && Enabled(states[|steps|], st)
    ensures Run(states', steps') && states'[|steps'|] == Apply(states[|steps|], st)
  {
    states', steps' := states + [Apply(states[|steps|], st)], steps + [st];
  }

  /** A run, timely throughout since no time passes, that ends with a route in the hub and none in the registry. */
  lemma LateUnbindRun() returns (states: seq<State>, steps: seq<Step>)
    ensures Run(states, steps)
    ensures var s := states[|steps|]; "h" in s.own && "h" in s.hub && s.releasing == multiset{} && Timely(s)
    ensures !Resolves(states[|steps|], "h")
  {
    states, steps := [State("edge", 15_000, {"h"}, 0, map[], {}, multiset{}, NoRound, 0, {})], [];
    states, steps := Extend(states, steps, HubBind("h"));
    states, steps := Extend(states, steps, RegBind("h", "first"));
    states, steps := Extend(states, steps, HubUnbind("h"));
    states, steps := Extend(states, steps, HubBind("h"));
    states, steps := Extend(states, steps, RegBind("h", "second"));
    states, steps := Extend(states, steps, RegUnbind("h"));
  }
}
