/**
  The cluster-wide certificate lock of RedisStorage, as a step system.

  Every edge runs Lock, Unlock, Close and one background refresher per held lock. One step is one Redis
  command or one section under the storage's mutex, and any step may follow any other. Time is in
  milliseconds. A Lock call is named by the random token it draws, so tokens are unique.
 */
module LeaseLock {
  import opened Wrappers

  const LEASE: int := 60_000

  type Token = nat
  type Edge = nat
  type Name = string

  /** The value and expiry of one lock key in Redis; at or after its expiry the key counts as absent. */
  datatype Lease = Lease(token: Token, expiry: int)

  /** Where a caller stands: looping in Lock, between SET NX and the return of Lock, holding, in Unlock, finished. */
  datatype Phase = Waiting | Won | Holding | Unlocking(taken: Option<Token>) | Done

  /** The goroutine of refreshLock: Stopping once its stop channel is closed, Stopped once done is closed. */
  datatype Refresher = NotStarted | Running | Stopping | Stopped

  /** One Lock call. `renewed` is when its SET NX, or its last refresh that returned without error, ran. */
  datatype Call = Call(edge: Edge, name: Name, phase: Phase, refresher: Refresher, renewed: int)

  /** One entry position of an instance's `locks` map. */
  datatype Slot = Slot(edge: Edge, name: Name)

  datatype State = State(
    now: int,
    redis: map<Name, Lease>,
    locks: map<Slot, Token>,
    calls: map<Token, Call>,
    closed: set<Edge>,  // edges whose Redis client is closed
    down: set<Edge>)    // edges that crashed

  /**
    `replied` is false when a command ran but its reply was lost, so the caller saw an error.
    A Refresh step stands for a refresh script that reached Redis, at any time after the refresher started:
    a timed-out script may run late, even after its edge crashed.
   */
  datatype Step =
    | Tick(to: int)
    | Enter(token: Token, edge: Edge, name: Name)
    | TryLock(token: Token, replied: bool)
    | GiveUp(token: Token)
    | Record(token: Token)
    | Refresh(token: Token, replied: bool)
    | TakeForUnlock(token: Token)
    | RefresherExit(token: Token)
    | ReleaseKey(token: Token, executed: bool)
    | CloseTake(edge: Edge)
    | CloseClient(edge: Edge)
    | Crash(edge: Edge)

  // ---- Redis commands ----

  predicate Live(s: State, name: Name) {
    name in s.redis && s.now < s.redis[name].expiry
  }

  predicate OwnsLive(s: State, t: Token, name: Name) {
    Live(s, name) && s.redis[name].token == t
  }

  /** SET NX PX. */
  function SetNx(s: State, name: Name, t: Token): map<Name, Lease> {
    if Live(s, name) then s.redis else s.redis[name := Lease(t, s.now + LEASE)]
  }

  /** The refresh script: PEXPIRE only while the stored token is ours. */
  function RefreshScript(s: State, name: Name, t: Token): map<Name, Lease> {
    if OwnsLive(s, t, name) then s.redis[name := Lease(t, s.now + LEASE)] else s.redis
  }

  /** The release script: DEL only while the stored token is ours. */
  function ReleaseScript(s: State, name: Name, t: Token): map<Name, Lease> {
    if OwnsLive(s, t, name) then s.redis - {name} else s.redis
  }

  // ---- Steps ----

  predicate Active(s: State, t: Token) {
    t in s.calls && s.calls[t].edge !in s.down
  }

  predicate Enabled(s: State, st: Step) {
    match st
    case Tick(to) => s.now <= to
    case Enter(t, e, _) => t !in s.calls && e !in s.down
    case TryLock(t, _) => Active(s, t) && s.calls[t].phase == Waiting
    case GiveUp(t) => Active(s, t) && s.calls[t].phase == Waiting
    case Record(t) => Active(s, t) && s.calls[t].phase == Won
    case Refresh(t, _) => t in s.calls && s.calls[t].refresher != NotStarted
    case TakeForUnlock(t) => Active(s, t) && s.calls[t].phase == Holding
    case RefresherExit(t) => Active(s, t) && s.calls[t].refresher == Stopping
    case ReleaseKey(t, _) =>
      && Active(s, t)
      && s.calls[t].phase.Unlocking?
      && (s.calls[t].phase.taken.Some? ==> Finished(s, s.calls[t].phase.taken.value))
    case CloseTake(e) => e !in s.down
    case CloseClient(e) => e !in s.down
    case Crash(e) => true
  }

  /** The refresher of `t` has closed its done channel. */
  predicate Finished(s: State, t: Token) {
    t in s.calls && s.calls[t].refresher == Stopped
  }

  function WithCall(s: State, t: Token, c: Call): State {
    s.(calls := s.calls[t := c])
  }

  function Stop(r: Refresher): Refresher {
    if r == Running then Stopping else r
  }

  function ApplyTryLock(s: State, t: Token, replied: bool): State
    requires t in s.calls
  {
    var c := s.calls[t];
    if c.edge in s.closed then
      WithCall(s, t, c.(phase := Done))
    else if Live(s, c.name) then
      WithCall(s, t, c.(phase := if replied then Waiting else Done))
    else
      WithCall(s.(redis := SetNx(s, c.name, t)), t,
               c.(phase := if replied then Won else Done, renewed := s.now))
  }

  /** Unlock's mutex section takes whatever record the instance holds under the name, and closes its stop channel. */
  function ApplyTake(s: State, t: Token): State
    requires t in s.calls
  {
    var c := s.calls[t];
    var slot := Slot(c.edge, c.name);
    if slot !in s.locks then
      WithCall(s, t, c.(phase := Unlocking(None)))
    else
      var u := s.locks[slot];
      var s1 := WithCall(s.(locks := s.locks - {slot}), t, c.(phase := Unlocking(Some(u))));
      if u in s1.calls then WithCall(s1, u, s1.calls[u].(refresher := Stop(s1.calls[u].refresher))) else s1
  }

  function ApplyRelease(s: State, t: Token, executed: bool): State
    requires t in s.calls && s.calls[t].phase.Unlocking?
  {
    var c := s.calls[t];
    var redis' :=
      if executed && c.phase.taken.Some? && c.edge !in s.closed
      then ReleaseScript(s, c.name, c.phase.taken.value) else s.redis;
    WithCall(s.(redis := redis'), t, c.(phase := Done))
  }

  function ApplyCloseTake(s: State, e: Edge): State {
    s.(locks := map slot | slot in s.locks && slot.edge != e :: s.locks[slot],
       calls := map t | t in s.calls ::
         if Slot(e, s.calls[t].name) in s.locks && s.locks[Slot(e, s.calls[t].name)] == t
         then s.calls[t].(refresher := Stop(s.calls[t].refresher)) else s.calls[t])
  }

  function Apply(s: State, st: Step): State
    requires Enabled(s, st)
  {
    match st
    case Tick(to) => s.(now := to)
    case Enter(t, e, n) => WithCall(s, t, Call(e, n, Waiting, NotStarted, s.now))
    case TryLock(t, replied) => ApplyTryLock(s, t, replied)
    case GiveUp(t) => WithCall(s, t, s.calls[t].(phase := Done))
    case Record(t) =>
      var c := s.calls[t];
      WithCall(s.(locks := s.locks[Slot(c.edge, c.name) := t]), t, c.(phase := Holding, refresher := Running))
    case Refresh(t, replied) =>
      var c := s.calls[t];
      WithCall(s.(redis := RefreshScript(s, c.name, t)), t, if replied then c.(renewed := s.now) else c)
    case TakeForUnlock(t) => ApplyTake(s, t)
    case RefresherExit(t) => WithCall(s, t, s.calls[t].(refresher := Stopped))
    case ReleaseKey(t, executed) => ApplyRelease(s, t, executed)
    case CloseTake(e) => ApplyCloseTake(s, e)
    case CloseClient(e) => s.(closed := s.closed + {e})
    case Crash(e) => s.(down := s.down + {e})
  }

  predicate Init(s: State) {
    s.redis == map[] && s.locks == map[] && s.calls == map[]
  }

  /** `states` is the trace left by performing `steps` from an initial state. */
  ghost predicate Run(states: seq<State>, steps: seq<Step>) {
    && |states| == |steps| + 1
    && Init(states[0])
    && forall i {:trigger steps[i]} :: 0 <= i < |steps| ==>
         Enabled(states[i], steps[i]) && states[i + 1] == Apply(states[i], steps[i])
  }

  // ---- What holds with no timing assumption ----

  ghost predicate RedisOk(s: State) {
    forall n :: n in s.redis ==>
      && s.redis[n].token in s.calls
      && s.calls[s.redis[n].token].name == n
      && s.calls[s.redis[n].token].phase != Waiting
      && s.redis[n].expiry <= s.now + LEASE
  }

  ghost predicate LocksOk(s: State) {
    forall sl :: sl in s.locks ==>
      && s.locks[sl] in s.calls
      && s.calls[s.locks[sl]].edge == sl.edge
      && s.calls[s.locks[sl]].name == sl.name
      && s.calls[s.locks[sl]].phase != Waiting
      && s.calls[s.locks[sl]].phase != Won
  }

  ghost predicate CallsOk(s: State) {
    forall t :: t in s.calls && (s.calls[t].phase == Waiting || s.calls[t].phase == Won) ==>
      s.calls[t].refresher == NotStarted
  }

  ghost predicate BaseInv(s: State) {
    RedisOk(s) && LocksOk(s) && CallsOk(s)
  }

  /** Between the return of Lock and the start of Unlock, on an edge that is running. */
  predicate InCritical(s: State, t: Token) {
    t in s.calls && s.calls[t].phase == Holding && s.calls[t].edge !in s.down
  }

  /** Calls are never forgotten, keep their edge and name, and never go back to an earlier part of Lock. */
  lemma CallProgress(s: State, st: Step, t: Token)
    requires Enabled(s, st) && t in s.calls
    ensures var s' := Apply(s, st);
      && t in s'.calls
      && s'.calls[t].edge == s.calls[t].edge
      && s'.calls[t].name == s.calls[t].name
      && (s.calls[t].phase != Waiting ==> s'.calls[t].phase != Waiting)
      && (s.calls[t].phase != Waiting && s.calls[t].phase != Won ==> s'.calls[t].phase != Won)
      && (InCritical(s', t) ==> InCritical(s, t) || st == Record(t))
      && (s'.calls[t].phase.Unlocking? ==> s'.calls[t].phase == s.calls[t].phase || st == TakeForUnlock(t))
  {
  }

  lemma RedisStep(s: State, st: Step)
    requires BaseInv(s) && Enabled(s, st)
    ensures RedisOk(Apply(s, st))
  {
    var s' := Apply(s, st);
    forall n | n in s'.redis
      ensures && s'.redis[n].token in s'.calls
              && s'.calls[s'.redis[n].token].name == n
              && s'.calls[s'.redis[n].token].phase != Waiting
              && s'.redis[n].expiry <= s'.now + LEASE
    {
      if n in s.redis {
        CallProgress(s, st, s.redis[n].token);
      }
    }
  }

  lemma LocksStep(s: State, st: Step)
    requires BaseInv(s) && Enabled(s, st)
    ensures LocksOk(Apply(s, st))
  {
    var s' := Apply(s, st);
    forall sl | sl in s'.locks
      ensures && s'.locks[sl] in s'.calls
              && s'.calls[s'.locks[sl]].edge == sl.edge
              && s'.calls[s'.locks[sl]].name == sl.name
              && s'.calls[s'.locks[sl]].phase != Waiting
              && s'.calls[s'.locks[sl]].phase != Won
    {
      if sl in s.locks {
        CallProgress(s, st, s.locks[sl]);
      }
    }
  }

  lemma CallsStep(s: State, st: Step)
    requires BaseInv(s) && Enabled(s, st)
    ensures CallsOk(Apply(s, st))
  {
    var s' := Apply(s, st);
    forall t | t in s'.calls && (s'.calls[t].phase == Waiting || s'.calls[t].phase == Won)
      ensures s'.calls[t].refresher == NotStarted
    {
      if t in s.calls {
        CallProgress(s, st, t);
      }
    }
  }

  lemma BaseStep(s: State, st: Step)
    requires BaseInv(s) && Enabled(s, st)
    ensures BaseInv(Apply(s, st))
  {
    RedisStep(s, st);
    LocksStep(s, st);
    CallsStep(s, st);
  }

  lemma {:induction false} BaseRun(states: seq<State>, steps: seq<Step>, k: nat)
    requires Run(states, steps) && k < |states|
    ensures BaseInv(states[k])
  {
    if k > 0 {
      BaseRun(states, steps, k - 1);
      var st := steps[k - 1];
      BaseStep(states[k - 1], st);
    }
  }

  // ---- A lost lease stays lost, and its owner can no longer touch the key ----

  /** `t` has left the loop of Lock and its token is not (or no longer) the live value of its key. */
  predicate Lost(s: State, t: Token) {
    t in s.calls && s.calls[t].phase != Waiting && !OwnsLive(s, t, s.calls[t].name)
  }

  lemma LostStep(s: State, st: Step, t: Token)
    requires Enabled(s, st) && Lost(s, t)
    ensures Lost(Apply(s, st), t)
  {
    CallProgress(s, st, t);
  }

  lemma {:induction false} LostForever(states: seq<State>, steps: seq<Step>, i: nat, j: nat, t: Token)
    requires Run(states, steps) && i <= j < |states| && Lost(states[i], t)
    ensures Lost(states[j], t)
  {
    if i < j {
      LostForever(states, steps, i, j - 1, t);
      var st := steps[j - 1];
      LostStep(states[j - 1], st, t);
    }
  }

  /** A refresh by `t`, or a release carrying the token of `t`. */
  predicate CommandOf(s: State, st: Step, t: Token) {
    || (st.Refresh? && st.token == t)
    || (st.ReleaseKey? && st.token in s.calls && s.calls[st.token].phase == Unlocking(Some(t)))
  }

  /** However late they run, the refreshes and releases of a lost lease leave every key and expiry alone. */
  lemma StaleCommandsChangeNothing(states: seq<State>, steps: seq<Step>, i: nat, j: nat, t: Token)
    requires Run(states, steps) && i <= j < |steps| && Lost(states[i], t)
    requires CommandOf(states[j], steps[j], t)
    ensures states[j + 1].redis == states[j].redis
  {
    LostForever(states, steps, i, j, t);
    BaseRun(states, steps, j);
    var st := steps[j];
    if st.ReleaseKey? {
      TakenNames(states, steps, j, st.token);
    }
  }

  /** An Unlock only ever takes records of its own name. */
  lemma {:induction false} TakenNames(states: seq<State>, steps: seq<Step>, k: nat, d: Token)
    requires Run(states, steps) && k < |states|
    requires d in states[k].calls && states[k].calls[d].phase.Unlocking? && states[k].calls[d].phase.taken.Some?
    ensures var u := states[k].calls[d].phase.taken.value;
      && u in states[k].calls
      && states[k].calls[u].name == states[k].calls[d].name
      && states[k].calls[u].phase != Waiting
  {
    if k > 0 {
      var s, st := states[k - 1], steps[k - 1];
      BaseRun(states, steps, k - 1);
      if d in s.calls && s.calls[d].phase == states[k].calls[d].phase {
        TakenNames(states, steps, k - 1, d);
        CallProgress(s, st, d);
        CallProgress(s, st, s.calls[d].phase.taken.value);
      }
    }
  }

  /** With no refresh in between, a lease held now expires at most one lease from now. */
  lemma {:induction false} ExpiryBound(states: seq<State>, steps: seq<Step>, i: nat, j: nat, t: Token)
    requires Run(states, steps) && i <= j < |states|
    requires t in states[i].calls && states[i].calls[t].phase != Waiting
    requires forall k :: i <= k < j && steps[k].Refresh? ==> steps[k].token != t
    ensures t in states[j].calls && states[j].calls[t].name == states[i].calls[t].name
    ensures states[j].calls[t].phase != Waiting
    ensures var n := states[i].calls[t].name;
      OwnsLive(states[j], t, n) ==> states[j].redis[n].expiry <= states[i].now + LEASE
  {
    if i == j {
      BaseRun(states, steps, i);
    } else {
      ExpiryBound(states, steps, i, j - 1, t);
      var st := steps[j - 1];
      CallProgress(states[j - 1], st, t);
    }
  }

  /** Every caller waiting for the name on an edge with an open client takes it with its next SET NX. */
  ghost predicate NextTryWins(s: State, name: Name) {
    forall u :: Enabled(s, TryLock(u, true)) && s.calls[u].name == name && s.calls[u].edge !in s.closed ==>
      var s' := Apply(s, TryLock(u, true));
      s'.calls[u].phase == Won && OwnsLive(s', u, name)
  }

  /**
    Once a holder's refreshes stop, its lease is gone one lease later: its token is no longer live, and unless
    another caller has already taken the name, the next SET NX of any waiting caller wins it.
   */
  lemma FreeWithinOneLease(states: seq<State>, steps: seq<Step>, i: nat, j: nat, t: Token)
    requires Run(states, steps) && i <= j < |states|
    requires t in states[i].calls && states[i].calls[t].phase != Waiting
    requires forall k :: i <= k < j && steps[k].Refresh? ==> steps[k].token != t
    requires states[j].now >= states[i].now + LEASE
    ensures !OwnsLive(states[j], t, states[i].calls[t].name)
    ensures Live(states[j], states[i].calls[t].name) || NextTryWins(states[j], states[i].calls[t].name)
  {
    ExpiryBound(states, steps, i, j, t);
  }

  // ---- Mutual exclusion, when refreshes are timely ----

  /** Every holder's last successful renewal is less than one lease ago. */
  ghost predicate Timely(s: State) {
    forall t :: InCritical(s, t) ==> s.now < s.calls[t].renewed + LEASE
  }

  ghost predicate MutualExclusion(s: State) {
    forall t, u :: InCritical(s, t) && InCritical(s, u) && s.calls[t].name == s.calls[u].name ==> t == u
  }

  predicate Owns(s: State, t: Token)
    requires t in s.calls
  {
    var n := s.calls[t].name;
    n in s.redis && s.redis[n].token == t && s.calls[t].renewed + LEASE <= s.redis[n].expiry
  }

  /** A caller that won the key still owns it, while holding or while its first lease runs. */
  predicate Entitled(s: State, t: Token) {
    t in s.calls &&
    (InCritical(s, t) || (s.calls[t].phase == Won && s.now < s.calls[t].renewed + LEASE) ==> Owns(s, t))
  }

  /** What an Unlock took from the locks map is the record of a caller that has left its critical section. */
  predicate TakenOk(s: State, d: Token) {
    d in s.calls &&
    (s.calls[d].phase.Unlocking? && s.calls[d].phase.taken.Some? ==>
       var u := s.calls[d].phase.taken.value;
       u in s.calls && !InCritical(s, u) && s.calls[u].phase != Waiting && s.calls[u].phase != Won)
  }

  ghost predicate TimelyInv(s: State) {
    forall t :: t in s.calls ==> Entitled(s, t) && TakenOk(s, t)
  }

  lemma ExclusionFromInv(s: State)
    requires TimelyInv(s)
    ensures MutualExclusion(s)
  {
    forall t, u | InCritical(s, t) && InCritical(s, u) && s.calls[t].name == s.calls[u].name
      ensures t == u
    {
      assert Entitled(s, t) && Entitled(s, u);
    }
  }

  lemma EntitledAfterTry(s: State, u: Token, replied: bool, t: Token)
    requires TimelyInv(s) && Timely(s) && Enabled(s, TryLock(u, replied)) && t in s.calls
    ensures Entitled(Apply(s, TryLock(u, replied)), t)
  {
    assert Entitled(s, t);
  }

  lemma EntitledAfterRefresh(s: State, u: Token, replied: bool, t: Token)
    requires BaseInv(s) && TimelyInv(s) && Timely(s) && Enabled(s, Refresh(u, replied)) && t in s.calls
    ensures Entitled(Apply(s, Refresh(u, replied)), t)
  {
    assert Entitled(s, t);
  }

  lemma EntitledAfterRelease(s: State, d: Token, executed: bool, t: Token)
    requires TimelyInv(s) && Enabled(s, ReleaseKey(d, executed)) && t in s.calls
    ensures Entitled(Apply(s, ReleaseKey(d, executed)), t)
  {
    assert Entitled(s, t) && TakenOk(s, d);
  }

  /** The other steps leave Redis and the renewal times alone; Record must find its lease still running. */
  lemma EntitledAfterOther(s: State, st: Step, t: Token)
    requires TimelyInv(s) && Enabled(s, st) && Timely(Apply(s, st)) && t in s.calls
    requires !st.TryLock? && !st.Refresh? && !st.ReleaseKey?
    ensures Entitled(Apply(s, st), t)
  {
    assert Entitled(s, t);
    CallProgress(s, st, t);
  }

  lemma EntitledStep(s: State, st: Step, t: Token)
    requires BaseInv(s) && TimelyInv(s) && Timely(s)
    requires Enabled(s, st) && Timely(Apply(s, st)) && t in Apply(s, st).calls
    ensures Entitled(Apply(s, st), t)
  {
    if t in s.calls {
      match st
      case TryLock(u, replied) => EntitledAfterTry(s, u, replied, t);
      case Refresh(u, replied) => EntitledAfterRefresh(s, u, replied, t);
      case ReleaseKey(d, executed) => EntitledAfterRelease(s, d, executed, t);
      case _ => EntitledAfterOther(s, st, t);
    }
  }

  /** Two callers of one instance cannot both be in their critical section, so Unlock takes its own record. */
  lemma TakenByUnlock(s: State, d: Token)
    requires BaseInv(s) && TimelyInv(s) && Enabled(s, TakeForUnlock(d))
    ensures TakenOk(Apply(s, TakeForUnlock(d)), d)
  {
    ExclusionFromInv(s);
    assert InCritical(s, d);
  }

  lemma TakenStep(s: State, st: Step, d: Token)
    requires BaseInv(s) && TimelyInv(s)
    requires Enabled(s, st) && d in Apply(s, st).calls
    ensures TakenOk(Apply(s, st), d)
  {
    if st == TakeForUnlock(d) {
      TakenByUnlock(s, d);
    } else if d in s.calls {
      CallProgress(s, st, d);
      assert TakenOk(s, d);
      if s.calls[d].phase.Unlocking? && s.calls[d].phase.taken.Some? {
        CallProgress(s, st, s.calls[d].phase.taken.value);
      }
    }
  }

  lemma {:induction false} TimelyRun(states: seq<State>, steps: seq<Step>, k: nat)
    requires Run(states, steps) && k < |states|
    requires forall i :: 0 <= i <= k ==> Timely(states[i])
    ensures TimelyInv(states[k])
  {
    if k > 0 {
      TimelyRun(states, steps, k - 1);
      BaseRun(states, steps, k - 1);
      var st := steps[k - 1];
      forall t | t in states[k].calls
        ensures Entitled(states[k], t) && TakenOk(states[k], t)
      {
        assert Timely(states[k - 1]) && Timely(states[k]);
        EntitledStep(states[k - 1], st, t);
        TakenStep(states[k - 1], st, t);
      }
    }
  }

  /** In every run whose holders renew less than a lease apart, no two callers hold one name at once. */
  lemma TimedMutualExclusion(states: seq<State>, steps: seq<Step>, k: nat)
    requires Run(states, steps) && k < |states|
    requires forall i :: 0 <= i <= k ==> Timely(states[i])
    ensures MutualExclusion(states[k])
  {
    TimelyRun(states, steps, k);
    ExclusionFromInv(states[k]);
  }

  // ---- Unlock by a caller that lost its lease ----

  /** Unlock run to its end with no other step in between. */
  function UnlockAlone(s: State, d: Token): State
    requires Enabled(s, TakeForUnlock(d))
  {
    var s1 := ApplyTake(s, d);
    var taken := s1.calls[d].phase.taken;
    var s2 := if taken.Some? && Enabled(s1, RefresherExit(taken.value))
              then Apply(s1, RefresherExit(taken.value)) else s1;
    ApplyRelease(s2, d, true)
  }

  /**
    Unlock finds its record by name only. So when another caller `u` owns the key, the Unlock of `d` leaves that
    key alone if and only if the instance of `d` does not have `u` under the name in its locks map.
   */
  lemma UnlockSparesOwner(states: seq<State>, steps: seq<Step>, k: nat, d: Token, u: Token)
    requires Run(states, steps) && k < |states|
    requires Enabled(states[k], TakeForUnlock(d)) && states[k].calls[d].edge !in states[k].closed
    requires u != d && OwnsLive(states[k], u, states[k].calls[d].name)
    ensures var s := states[k]; var slot := Slot(s.calls[d].edge, s.calls[d].name);
      UnlockAlone(s, d).redis == s.redis <==> !(slot in s.locks && s.locks[slot] == u)
    ensures u in states[k].calls && states[k].calls[d].edge != states[k].calls[u].edge ==>
      UnlockAlone(states[k], d).redis == states[k].redis
  {
    BaseRun(states, steps, k);
    var s := states[k];
    var n := s.calls[d].name;
    assert n !in s.redis - {n};
  }

  // ---- What a holder's own calls achieve ----

  predicate NextStep(s: State, st: Step, s': State) {
    Enabled(s, st) && s' == Apply(s, st)
  }

  /** The token that the release of `d` carries, if it carries one. */
  predicate Carries(s: State, d: Token, u: Token) {
    d in s.calls && s.calls[d].phase == Unlocking(Some(u))
  }

  /** A release that reaches Redis while its token is the live value of the name leaves the name free to the next. */
  lemma ReleaseStepFrees(s: State, d: Token, u: Token, s': State)
    requires NextStep(s, ReleaseKey(d, true), s') && Carries(s, d, u) && s.calls[d].edge !in s.closed
    requires OwnsLive(s, u, s.calls[d].name)
    ensures !Live(s', s.calls[d].name) && NextTryWins(s', s.calls[d].name)
    ensures s'.redis == s.redis - {s.calls[d].name}
  {
  }

  /** In every run, whoever's record the Unlock took, its own in particular. */
  lemma ReleaseFrees(states: seq<State>, steps: seq<Step>, k: nat, d: Token, u: Token)
    requires Run(states, steps) && k < |steps| && steps[k] == ReleaseKey(d, true)
    requires Carries(states[k], d, u) && states[k].calls[d].edge !in states[k].closed
    requires OwnsLive(states[k], u, states[k].calls[d].name)
    ensures var n := states[k].calls[d].name; !Live(states[k + 1], n) && NextTryWins(states[k + 1], n)
  {
    ReleaseStepFrees(states[k], d, u, states[k + 1]);
  }

  /** A caller that holds the key, with its own record in the locks map and a running refresher. */
  predicate Holds(s: State, t: Token) {
    && InCritical(s, t) && s.calls[t].edge !in s.closed && s.calls[t].refresher == Running
    && Slot(s.calls[t].edge, s.calls[t].name) in s.locks && s.locks[Slot(s.calls[t].edge, s.calls[t].name)] == t
    && OwnsLive(s, t, s.calls[t].name)
  }

  /** Its Unlock, run to its end, frees the name, forgets the record and leaves every other name alone. */
  lemma UnlockFrees(s: State, t: Token)
    requires Holds(s, t)
    ensures Enabled(s, TakeForUnlock(t)) && Enabled(Apply(s, TakeForUnlock(t)), RefresherExit(t))
    ensures Enabled(Apply(Apply(s, TakeForUnlock(t)), RefresherExit(t)), ReleaseKey(t, true))
    ensures var n := s.calls[t].name;
      var s' := Apply(Apply(Apply(s, TakeForUnlock(t)), RefresherExit(t)), ReleaseKey(t, true));
      && !Live(s', n) && NextTryWins(s', n)
      && s'.redis == s.redis - {n} && s'.locks == s.locks - {Slot(s.calls[t].edge, n)}
      && s'.calls == s.calls[t := s.calls[t].(phase := Done, refresher := Stopped)]
      && UnlockAlone(s, t) == s'
  {
    var s1 := Apply(s, TakeForUnlock(t));
    var s2 := Apply(s1, RefresherExit(t));
    assert Carries(s2, t, t) && OwnsLive(s2, t, s.calls[t].name);
    ReleaseStepFrees(s2, t, t, Apply(s2, ReleaseKey(t, true)));
  }

  /** A Lock of a free name on a running edge with an open client, answered at once. */
  lemma LockTakes(s: State, t: Token, e: Edge, n: Name)
    requires t !in s.calls && e !in s.down && e !in s.closed && !Live(s, n)
    ensures Enabled(s, Enter(t, e, n)) && Enabled(Apply(s, Enter(t, e, n)), TryLock(t, true))
    ensures Enabled(Apply(Apply(s, Enter(t, e, n)), TryLock(t, true)), Record(t))
    ensures var s' := Apply(Apply(Apply(s, Enter(t, e, n)), TryLock(t, true)), Record(t));
      && Holds(s', t) && s'.calls[t].name == n && s'.calls[t].edge == e
      && s'.redis == s.redis[n := Lease(t, s.now + 60_000)] && s'.locks == s.locks[Slot(e, n) := t]
  {
  }

  /**
    One turn of the loop of Lock: a closed client ends the call, a name that is taken is waited for, a free one is won;
    an answer that is lost ends the call, with the key set if the name was free.
   */
  lemma TryLockMeans(s: State, t: Token, replied: bool)
    requires Enabled(s, TryLock(t, replied))
    ensures var c := s.calls[t]; var s' := Apply(s, TryLock(t, replied)); var d := s'.calls[t];
      && s'.calls == s.calls[t := d] && s'.locks == s.locks && d.edge == c.edge && d.name == c.name
      && (if c.edge in s.closed then s'.redis == s.redis && d.phase == Done
          else if Live(s, c.name) then s'.redis == s.redis && d.phase == (if replied then Waiting else Done)
          else s'.redis == s.redis[c.name := Lease(t, s.now + 60_000)] && d.phase == (if replied then Won else Done))
  {
  }

  /** A caller that gives up, an edge that crashes and a client that is closed leave every key as it is. */
  lemma EndsMean(s: State, t: Token, e: Edge)
    ensures Enabled(s, GiveUp(t)) ==>
      Apply(s, GiveUp(t)) == s.(calls := s.calls[t := s.calls[t].(phase := Done)])
    ensures Apply(s, Crash(e)) == s.(down := s.down + {e})
    ensures forall u :: u in s.calls && s.calls[u].edge == e ==>
      !Enabled(Apply(s, Crash(e)), TakeForUnlock(u)) && !Enabled(Apply(s, Crash(e)), Record(u))
    ensures e !in s.down ==> Apply(s, CloseClient(e)) == s.(closed := s.closed + {e})
  {
  }

  /** Lock and Unlock in a row put Redis and the locks map back, but for what was stale under the name. */
  lemma LockUnlockRoundTrip(s: State, t: Token, e: Edge, n: Name)
    requires t !in s.calls && e !in s.down && e !in s.closed && !Live(s, n)
    ensures var held := Apply(Apply(Apply(s, Enter(t, e, n)), TryLock(t, true)), Record(t));
      var s' := UnlockAlone(held, t);
      && InCritical(held, t) && OwnsLive(held, t, n) && !InCritical(s', t)
      && s'.redis == s.redis - {n} && s'.locks == s.locks - {Slot(e, n)}
      && NextTryWins(s', n)
  {
    LockTakes(s, t, e, n);
    var held := Apply(Apply(Apply(s, Enter(t, e, n)), TryLock(t, true)), Record(t));
    UnlockFrees(held, t);
  }

  // ---- Refreshing in time keeps the name ----

  /** The state in which the lease was last set anew: after the last refresh by `t`, or the state `i`. */
  function LastSet(steps: seq<Step>, t: Token, i: nat, k: nat): (m: nat)
    requires i <= k <= |steps|
    ensures i <= m <= k
  {
    if k == i then i
    else if steps[k - 1].Refresh? && steps[k - 1].token == t then k
    else LastSet(steps, t, i, k - 1)
  }

  /** The step is a release that carries the token of `t`. */
  predicate Releases(s: State, st: Step, t: Token) {
    st.ReleaseKey? && Carries(s, st.token, t)
  }

  /** The lease of `t` on its name was last set at time `since`. */
  predicate SetAt(s: State, t: Token, n: Name, since: int) {
    && t in s.calls && s.calls[t].name == n && s.calls[t].phase != Waiting
    && n in s.redis && s.redis[n] == Lease(t, since + LEASE)
  }

  lemma KeptStep(s: State, st: Step, s': State, t: Token, n: Name, since: int)
    requires NextStep(s, st, s') && SetAt(s, t, n, since) && s.now < since + LEASE && !Releases(s, st, t)
    ensures SetAt(s', t, n, if st.Refresh? && st.token == t then s'.now else since)
  {
    CallProgress(s, st, t);
  }

  lemma {:induction false} KeptRun(states: seq<State>, steps: seq<Step>, i: nat, k: nat, t: Token, n: Name)
    requires Run(states, steps) && i <= k < |states| && SetAt(states[i], t, n, states[i].now)
    requires forall m :: i <= m < k ==> states[m].now < states[LastSet(steps, t, i, m)].now + LEASE
    requires forall m :: i <= m < k ==> !Releases(states[m], steps[m], t)
    ensures SetAt(states[k], t, n, states[LastSet(steps, t, i, k)].now)
  {
    if i < k {
      KeptRun(states, steps, i, k - 1, t, n);
      assert !Releases(states[k - 1], steps[k - 1], t);
      assert states[k - 1].now < states[LastSet(steps, t, i, k - 1)].now + LEASE;
      var st := steps[k - 1];
      KeptStep(states[k - 1], st, states[k - 1 + 1], t, n, states[LastSet(steps, t, i, k - 1)].now);
    }
  }

  /**
    In every run, from a state in which the lease was just set: as long as refreshes by the caller reach Redis less than
    one lease apart, and its token is not released, the name is its own, and expires one lease after the last of them.
   */
  lemma RefreshingKeepsName(states: seq<State>, steps: seq<Step>, i: nat, k: nat, t: Token, n: Name)
    requires Run(states, steps) && i <= k < |states| && SetAt(states[i], t, n, states[i].now)
    requires forall m :: i <= m <= k ==> states[m].now < states[LastSet(steps, t, i, m)].now + LEASE
    requires forall m :: i <= m < k ==> !Releases(states[m], steps[m], t)
    ensures OwnsLive(states[k], t, n)
    ensures states[k].redis[n].expiry == states[LastSet(steps, t, i, k)].now + LEASE
  {
    KeptRun(states, steps, i, k, t, n);
  }

  /** A refresh that is answered counts as a renewal at that moment, for its own call and no other. */
  lemma RefreshCounts(s: State, t: Token)
    requires Enabled(s, Refresh(t, true))
    ensures var s' := Apply(s, Refresh(t, true));
      && s'.calls[t].renewed == s.now && (forall u :: u in s.calls && u != t ==> s'.calls[u] == s.calls[u])
      && forall u, n :: u != t && OwnsLive(s, u, n) ==> OwnsLive(s', u, n) && s'.redis[n] == s.redis[n]
  {
  }

  /** The instance of edge `e` has the call's record under the call's name. */
  predicate HeldUnder(s: State, e: Edge, t: Token)
    requires t in s.calls
  {
    Slot(e, s.calls[t].name) in s.locks && s.locks[Slot(e, s.calls[t].name)] == t
  }

  /** Close stops the refresher of every lock its instance holds and forgets the lock; other instances keep theirs. */
  lemma CloseStops(s: State, e: Edge)
    requires e !in s.down
    ensures var s' := Apply(s, CloseTake(e));
      && (forall sl :: sl in s'.locks <==> sl in s.locks && sl.edge != e)
      && (forall sl :: sl in s'.locks ==> s'.locks[sl] == s.locks[sl])
      && (forall t :: t in s.calls && HeldUnder(s, e, t) ==> s'.calls[t].refresher != Running)
      && s'.redis == s.redis
  {
  }

  lemma Extend(states: seq<State>, steps: seq<Step>, st: Step) returns (states': seq<State>, steps': seq<Step>)
    requires Run(states, steps) && Enabled(states[|steps|], st)
    ensures Run(states', steps') && states'[|steps'|] == Apply(states[|steps|], st)
  {
    states', steps' := states + [Apply(states[|steps|], st)], steps + [st];
  }

  /** A state in which callers 0 and 1 of edge 7 are both in their critical section, the key being caller 1's. */
  function Overtaken(): State {
    State(LEASE, map["cert" := Lease(1, 2 * LEASE)], map[Slot(7, "cert") := 1],
          map[0 := Call(7, "cert", Holding, Running, 0), 1 := Call(7, "cert", Holding, Running, LEASE)], {}, {})
  }

  lemma FirstHolds() returns (states: seq<State>, steps: seq<Step>)
    ensures Run(states, steps)
    ensures states[|steps|] == State(0, map["cert" := Lease(0, LEASE)], map[Slot(7, "cert") := 0],
                                     map[0 := Call(7, "cert", Holding, Running, 0)], {}, {})
  {
    states, steps := [State(0, map[], map[], map[], {}, {})], [];
    states, steps := Extend(states, steps, Enter(0, 7, "cert"));
    states, steps := Extend(states, steps, TryLock(0, true));
    states, steps := Extend(states, steps, Record(0));
  }

  lemma OvertakenIsReached() returns (states: seq<State>, steps: seq<Step>)
    ensures Run(states, steps) && states[|steps|] == Overtaken()
  {
    states, steps := FirstHolds();
    states, steps := Extend(states, steps, Enter(1, 7, "cert"));
    states, steps := Extend(states, steps, Tick(LEASE));
    states, steps := Extend(states, steps, TryLock(1, true));
    states, steps := Extend(states, steps, Record(1));
  }

  /**
    Two callers of one edge: the first outlives its lease, the second takes over, and the first's Unlock frees the
    second's key.
   */
  lemma SameEdgeUnlockHarms() returns (states: seq<State>, steps: seq<Step>)
    ensures Run(states, steps)
    ensures var s := states[|steps|];
      && InCritical(s, 0) && InCritical(s, 1) && s.calls[0].edge == s.calls[1].edge
      && OwnsLive(s, 1, "cert") && s.calls[0].name == "cert"
      && !Live(UnlockAlone(s, 0), "cert")
  {
    states, steps := OvertakenIsReached();
  }
}
