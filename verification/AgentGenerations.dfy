/**
  The agent's connection to its edge. Every successful connect starts a new generation with two read loops; the loops
  of dead generations, callers that connect on demand and reconnect goroutines all run beside each other. One step is
  one mutex section, or one move of a goroutine between two of them.
 */
module AgentGenerations {
  import opened Wrappers

  /** The fields guarded by the mutex. Sessions and control streams are named by their generation. */
  datatype Link = Link(gen: nat, connected: bool, sess: nat, control: Option<nat>, closed: bool)

  /** The last section of connect. */
  function Connected(l: Link): Link {
    Link(l.gen + 1, true, l.gen + 1, Some(l.gen + 1), l.closed)
  }

  predicate Current(l: Link, gen: nat) {
    gen == l.gen && l.connected
  }

  /** The mutex section of handleSessionDown. */
  function Down(l: Link, gen: nat): Link {
    if Current(l, gen) then l.(connected := false, control := None) else l
  }

  /** A read loop: still to be started by connect, reading, or returned. */
  datatype Loop = Pending | Reading | Finished

  datatype Loops = Loops(control: Loop, accept: Loop)

  datatype State = State(
    link: Link,
    loops: seq<Loops>,         // of generation i + 1 at index i
    launching: multiset<nat>,  // generations whose failure has decided to start a reconnect
    started: multiset<nat>,    // generations whose failure has started one
    checking: nat,             // reconnects at the top of their loop or asleep
    redialing: nat,            // reconnects inside connect
    callers: nat,              // ensureConnected calls that found the agent disconnected
    calls: nat)                // ensureConnected calls that have connected

  function Init(): State {
    State(Link(0, false, 0, None, false), [], multiset{}, multiset{}, 0, 0, 0, 0)
  }

  datatype Step =
    | CallerCheck
    | CallerDial(ok: bool)
    | StartControl(gen: nat)    // connect starts the loops after it has unlocked
    | StartAccept(gen: nat)
    | ControlDown(gen: nat)     // a read error or a drain notice
    | AcceptDown(gen: nat)
    | Launch(gen: nat)
    | ReconnectCheck
    | ReconnectDial(ok: bool)
    | Shutdown

  function StartSession(s: State): State {
    s.(link := Connected(s.link), loops := s.loops + [Loops(Pending, Pending)])
  }

  /** handleSessionDown of generation `gen`; the loop that called it is gone from `loops`. */
  function SessionDown(s: State, gen: nat, loops: seq<Loops>): State {
    s.(link := Down(s.link, gen), loops := loops,
       launching := if Current(s.link, gen) && !s.link.closed then s.launching + multiset{gen} else s.launching)
  }

  /** A step that is not possible leaves the state alone. */
  function Apply(s: State, st: Step): State {
    match st
    case CallerCheck => if s.link.connected then s else s.(callers := s.callers + 1)
    case CallerDial(ok) =>
      if s.callers == 0 then s
      else if ok then StartSession(s.(callers := s.callers - 1, calls := s.calls + 1))
      else s.(callers := s.callers - 1)
    case StartControl(g) =>
      if 1 <= g <= |s.loops| && s.loops[g - 1].control == Pending
      then s.(loops := s.loops[g - 1 := s.loops[g - 1].(control := Reading)]) else s
    case StartAccept(g) =>
      if 1 <= g <= |s.loops| && s.loops[g - 1].accept == Pending
      then s.(loops := s.loops[g - 1 := s.loops[g - 1].(accept := Reading)]) else s
    case ControlDown(g) =>
      if 1 <= g <= |s.loops| && s.loops[g - 1].control == Reading
      then SessionDown(s, g, s.loops[g - 1 := s.loops[g - 1].(control := Finished)]) else s
    case AcceptDown(g) =>
      if 1 <= g <= |s.loops| && s.loops[g - 1].accept == Reading
      then SessionDown(s, g, s.loops[g - 1 := s.loops[g - 1].(accept := Finished)]) else s
    case Launch(g) =>
      if g !in s.launching then s
      else s.(launching := s.launching - multiset{g}, started := s.started + multiset{g}, checking := s.checking + 1)
    case ReconnectCheck =>
      if s.checking == 0 then s
      else if s.link.closed then s.(checking := s.checking - 1)
      else s.(checking := s.checking - 1, redialing := s.redialing + 1)
    case ReconnectDial(ok) =>
      if s.redialing == 0 then s
      else if ok then StartSession(s.(redialing := s.redialing - 1))
      else s.(redialing := s.redialing - 1, checking := s.checking + 1)
    case Shutdown => s.(link := s.link.(closed := true))
  }

  function Exec(s: State, steps: seq<Step>): State
    decreases |steps|
  {
    if steps == [] then s else Exec(Apply(s, steps[0]), steps[1..])
  }

  /** Reconnects decided on and not yet finished. */
  function Active(s: State): nat {
    |s.launching| + s.checking + s.redialing
  }

  function Bit(b: bool): nat {
    if b then 1 else 0
  }

  /** Reconnects that generation `g` has started or is about to start. */
  function Reconnects(s: State, g: nat): nat {
    s.launching[g] + s.started[g]
  }

  /** Neither loop has returned. */
  predicate Watched(l: Loops) {
    l.control != Finished && l.accept != Finished
  }

  ghost predicate Inv(s: State) {
    && |s.loops| == s.link.gen == s.link.sess
    && s.link.control == (if s.link.connected then Some(s.link.gen) else None)
    && (s.link.connected ==> s.link.gen > 0 && Watched(s.loops[s.link.gen - 1]))
    && (forall g: nat {:trigger Reconnects(s, g)} :: Reconnects(s, g) <= 1)
    && (forall g: nat {:trigger Reconnects(s, g)} :: g > s.link.gen || Current(s.link, g) ==> Reconnects(s, g) == 0)
    && Bit(s.link.connected) + Active(s) <= s.calls
    && (s.calls > 0 && !s.link.closed ==> s.link.connected || Active(s) > 0)
  }

  lemma SessionDownKeepsInv(s: State, g: nat, loops: seq<Loops>)
    requires Inv(s) && 1 <= g <= |s.loops| == |loops|
    requires forall i :: 0 <= i < |loops| && i != g - 1 ==> loops[i] == s.loops[i]
    ensures Inv(SessionDown(s, g, loops))
  {
    var s' := SessionDown(s, g, loops);
    forall h: nat
      ensures Reconnects(s', h) <= 1 && (h > s'.link.gen || Current(s'.link, h) ==> Reconnects(s', h) == 0)
    {
      assert Reconnects(s, h) <= 1 && Reconnects(s, g) <= 1;
    }
  }

  lemma StartSessionKeepsInv(s: State, from: State)
    requires Inv(from) && s.link == from.link && s.loops == from.loops
    requires s.launching == from.launching && s.started == from.started
    requires Bit(true) + Active(s) <= s.calls
    ensures Inv(StartSession(s))
  {
    var s' := StartSession(s);
    forall h: nat ensures Reconnects(s', h) == Reconnects(from, h) {
    }
  }

  lemma LaunchKeepsInv(s: State, g: nat)
    requires Inv(s)
    ensures Inv(Apply(s, Launch(g)))
  {
    var s' := Apply(s, Launch(g));
    forall h: nat ensures Reconnects(s', h) == Reconnects(s, h) {
    }
  }

  /** The steps that only move counters, and Shutdown. */
  lemma QuietKeepsInv(s: State, s': State)
    requires Inv(s) && s'.link.(closed := s.link.closed) == s.link && s'.loops == s.loops
    requires s'.launching == s.launching && s'.started == s.started && s'.calls == s.calls
    requires s.link.closed ==> s'.link.closed
    requires Active(s') <= Active(s) && (Active(s') == Active(s) || s'.link.closed)
    ensures Inv(s')
  {
    forall h: nat ensures Reconnects(s', h) == Reconnects(s, h) {
    }
  }

  lemma StartLoopKeepsInv(s: State, s': State)
    requires Inv(s) && s' == s.(loops := s'.loops) && |s'.loops| == |s.loops|
    requires forall i :: 0 <= i < |s.loops| && Watched(s.loops[i]) ==> Watched(s'.loops[i])
    ensures Inv(s')
  {
    forall h: nat ensures Reconnects(s', h) == Reconnects(s, h) {
    }
  }

  predicate FailingLoopReads(s: State, st: Step)
    requires st.ControlDown? || st.AcceptDown?
  {
    && 1 <= st.gen <= |s.loops|
    && (if st.ControlDown? then s.loops[st.gen - 1].control else s.loops[st.gen - 1].accept) == Reading
  }

  lemma LoopStepKeepsInv(s: State, st: Step)
    requires Inv(s) && (st.StartControl? || st.StartAccept? || st.ControlDown? || st.AcceptDown?)
    ensures Inv(Apply(s, st))
  {
    var s' := Apply(s, st);
    if st.StartControl? || st.StartAccept? {
      StartLoopKeepsInv(s, s');
    } else if FailingLoopReads(s, st) {
      SessionDownKeepsInv(s, st.gen, s'.loops);
    }
  }

  lemma DialKeepsInv(s: State, st: Step)
    requires Inv(s) && (st.CallerDial? || st.ReconnectDial?)
    ensures Inv(Apply(s, st))
  {
    if st.CallerDial? && s.callers > 0 && st.ok {
      StartSessionKeepsInv(s.(callers := s.callers - 1, calls := s.calls + 1), s);
    } else if st.ReconnectDial? && s.redialing > 0 && st.ok {
      StartSessionKeepsInv(s.(redialing := s.redialing - 1), s);
    } else {
      QuietKeepsInv(s, Apply(s, st));
    }
  }

  lemma StepKeepsInv(s: State, st: Step)
    requires Inv(s)
    ensures Inv(Apply(s, st))
  {
    if st.StartControl? || st.StartAccept? || st.ControlDown? || st.AcceptDown? {
      LoopStepKeepsInv(s, st);
    } else if st.CallerDial? || st.ReconnectDial? {
      DialKeepsInv(s, st);
    } else if st.Launch? {
      LaunchKeepsInv(s, st.gen);
    } else {
      QuietKeepsInv(s, Apply(s, st));
    }
  }

  lemma {:induction false} ExecKeepsInv(s: State, steps: seq<Step>)
    requires Inv(s)
    ensures Inv(Exec(s, steps))
    decreases |steps|
  {
    if steps != [] {
      StepKeepsInv(s, steps[0]);
      ExecKeepsInv(Apply(s, steps[0]), steps[1..]);
    }
  }

  lemma Reached(steps: seq<Step>)
    ensures Inv(Exec(Init(), steps))
  {
    ExecKeepsInv(Init(), steps);
  }

  /** In every run, no generation starts more than one reconnect. */
  lemma OneReconnectPerGeneration(steps: seq<Step>, g: nat)
    ensures Exec(Init(), steps).started[g] <= 1
  {
    Reached(steps);
    assert Reconnects(Exec(Init(), steps), g) <= 1;
  }

  /**
    While the agent shows as connected, each loop of that very session is reading or about to be started by the connect
    that is still under way, so a failure of the session will be noticed.
   */
  lemma ConnectedIsWatched(steps: seq<Step>)
    ensures var s := Exec(Init(), steps);
            s.link.connected ==> 1 <= s.link.gen == |s.loops| && Watched(s.loops[s.link.gen - 1])
    ensures var s := Exec(Init(), steps); var g := s.link.gen;
            s.link.connected ==>
              && Apply(s, StartControl(g)).loops[g - 1].control == Reading
              && Apply(s, StartAccept(g)).loops[g - 1].accept == Reading
  {
    Reached(steps);
  }

  /**
    An agent that has connected once and is not shut down is connected or has a reconnect under way; the connection and
    the reconnects together never outnumber the connects made by callers.
   */
  lemma AlwaysRecovering(steps: seq<Step>)
    ensures var s := Exec(Init(), steps);
            s.calls > 0 && !s.link.closed ==> s.link.connected || Active(s) > 0
    ensures var s := Exec(Init(), steps); Bit(s.link.connected) + Active(s) <= s.calls
  {
    Reached(steps);
  }

  /** From every state of every run that has lost its connection, a reconnect that succeeds restores it. */
  lemma Recovers(steps: seq<Step>) returns (more: seq<Step>)
    requires var s := Exec(Init(), steps); s.calls > 0 && !s.link.closed && !s.link.connected
    ensures var s := Exec(Init(), steps); var t := Exec(s, more);
      t.link == Link(s.link.gen + 1, true, s.link.gen + 1, Some(s.link.gen + 1), false) && Active(t) == Active(s) - 1
    ensures |more| <= 3 && more != [] && more[|more| - 1] == ReconnectDial(true)
  {
    Reached(steps);
    var s := Exec(Init(), steps);
    if s.redialing > 0 {
      more := DialsAgain(s);
    } else if s.checking > 0 {
      more := ChecksAgain(s);
    } else {
      var g :| g in s.launching;
      var rest := ChecksAgain(Apply(s, Launch(g)));
      more := [Launch(g)] + rest;
      assert more[1..] == rest;
    }
  }

  lemma DialsAgain(s: State) returns (more: seq<Step>)
    requires s.redialing > 0
    ensures more == [ReconnectDial(true)]
    ensures Exec(s, more).link == Connected(s.link) && Active(Exec(s, more)) == Active(s) - 1
  {
    more := [ReconnectDial(true)];
    assert more[1..] == [] && Exec(s, more) == Exec(Apply(s, ReconnectDial(true)), []);
  }

  lemma ChecksAgain(s: State) returns (more: seq<Step>)
    requires s.checking > 0 && !s.link.closed
    ensures |more| == 2 && more[1] == ReconnectDial(true)
    ensures Exec(s, more).link == Connected(s.link) && Active(Exec(s, more)) == Active(s) - 1
  {
    var rest := DialsAgain(Apply(s, ReconnectCheck));
    more := [ReconnectCheck] + rest;
    assert more[1..] == rest;
  }

  /** A reconnect whose dial fails goes back to the top of its loop; one that finds the agent shut down ends there. */
  lemma FailedDialTriesAgain(s: State)
    ensures s.redialing > 0 ==>
      Apply(s, ReconnectDial(false)) == s.(redialing := s.redialing - 1, checking := s.checking + 1)
    ensures s.checking > 0 && s.link.closed ==> Apply(s, ReconnectCheck) == s.(checking := s.checking - 1)
  {
  }

  /** A call that finds the agent disconnected and whose dial succeeds starts a new generation with its own loops. */
  lemma CallerConnects(s: State)
    requires !s.link.connected
    ensures var t := Apply(Apply(s, CallerCheck), CallerDial(true));
      && t.link == Link(s.link.gen + 1, true, s.link.gen + 1, Some(s.link.gen + 1), s.link.closed)
      && t.loops == s.loops + [Loops(Pending, Pending)] && t.calls == s.calls + 1 && t.callers == s.callers
  {
  }

  /** With a single connect by a caller, exactly one of the two holds: a live connection, or a single reconnect. */
  lemma SingleReconnect(steps: seq<Step>)
    requires Exec(Init(), steps).calls == 1 && !Exec(Init(), steps).link.closed
    ensures var s := Exec(Init(), steps); Active(s) == 1 - Bit(s.link.connected)
  {
    Reached(steps);
  }

  predicate Past(l: Link, g: nat) {
    g <= l.gen && !Current(l, g)
  }

  lemma PastStep(s: State, st: Step, g: nat)
    requires Past(s.link, g)
    ensures Past(Apply(s, st).link, g)
  {
  }

  /** A generation that went down, or was overtaken, is never current again. */
  lemma {:induction false} NeverRevived(s: State, steps: seq<Step>, g: nat)
    requires Past(s.link, g)
    ensures Past(Exec(s, steps).link, g)
    decreases |steps|
  {
    if steps != [] {
      PastStep(s, steps[0], g);
      NeverRevived(Apply(s, steps[0]), steps[1..], g);
    }
  }

  /**
    Once a generation is down or overtaken, none of its failures, however late, moves anything but the failing loop
    itself: not the current connection, not the reconnects.
   */
  lemma StaleFailureIsIdle(s: State, steps: seq<Step>, g: nat, st: Step)
    requires g <= s.link.gen && !Current(s.link, g)
    requires st == ControlDown(g) || st == AcceptDown(g)
    ensures var t := Exec(s, steps); Apply(t, st) == t.(loops := Apply(t, st).loops)
    ensures var t := Exec(s, steps);
            forall i :: 0 <= i < |t.loops| && i != g - 1 ==> Apply(t, st).loops[i] == t.loops[i]
  {
    NeverRevived(s, steps, g);
  }

  /** A failure of the current generation's reading loop makes it stale and is the one that decides on the reconnect. */
  lemma FirstFailureDecides(steps: seq<Step>, st: Step)
    requires st.ControlDown? || st.AcceptDown?
    requires Current(Exec(Init(), steps).link, st.gen)
    requires FailingLoopReads(Exec(Init(), steps), st)
    ensures var s := Exec(Init(), steps); var t := Apply(s, st);
            !Current(t.link, st.gen) && Reconnects(t, st.gen) == Bit(!s.link.closed)
  {
    Reached(steps);
    assert Reconnects(Exec(Init(), steps), st.gen) == 0;
  }

  /** Shutdown closes the agent for good and leaves the connection to its loops. */
  lemma ShutdownCloses(s: State, steps: seq<Step>)
    ensures Apply(s, Shutdown) == s.(link := Link(s.link.gen, s.link.connected, s.link.sess, s.link.control, true))
    ensures Exec(Apply(s, Shutdown), steps).link.closed && Active(Exec(Apply(s, Shutdown), steps)) <= Active(s)
  {
    ShutdownStops(Apply(s, Shutdown), steps);
  }

  lemma ShutdownStep(s: State, st: Step)
    requires s.link.closed
    ensures var t := Apply(s, st);
            t.link.closed && t.launching <= s.launching && Active(t) <= Active(s) && t.redialing <= s.redialing
  {
  }

  /** After Shutdown no further reconnect is decided on, and none of those under way begins another dial. */
  lemma {:induction false} ShutdownStops(s: State, steps: seq<Step>)
    requires s.link.closed
    ensures var t := Exec(s, steps);
            t.link.closed && t.launching <= s.launching && Active(t) <= Active(s) && t.redialing <= s.redialing
    decreases |steps|
  {
    if steps != [] {
      ShutdownStep(s, steps[0]);
      ShutdownStops(Apply(s, steps[0]), steps[1..]);
    }
  }

  // ---- The agent object ----

  class Agent {
    var gen: nat
    var connected: bool
    var sess: nat
    var control: Option<nat>
    var closed: bool

    ghost function Value(): Link
      reads this
    {
      Link(gen, connected, sess, control, closed)
    }

    constructor ()
      ensures Value() == Init().link
    {
      gen, connected, sess, control, closed := 0, false, 0, None, false;
    }

    /** connect once the edge has accepted the credentials. */
    method FinishConnect() returns (g: nat)
      modifies this
      ensures Value() == Connected(old(Value())) && g == gen && Current(Value(), g)
    {
      sess := gen + 1;
      control := Some(gen + 1);
      connected := true;
      gen := gen + 1;
      g := gen;
    }

    /** `start` tells whether a reconnect goroutine is to be started. */
    method HandleSessionDown(g: nat) returns (start: bool)
      modifies this
      ensures Value() == Down(old(Value()), g)
      ensures start <==> Current(old(Value()), g) && !old(closed)
      ensures !Current(Value(), g)
    {
      if g != gen || !connected {
        return false;
      }
      connected := false;
      control := None;
      return !closed;
    }

    method ShutdownOnce() returns (first: bool)
      modifies this
      ensures Value() == old(Value()).(closed := true) && first == !old(closed)
    {
      if closed {
        return false;
      }
      closed := true;
      return true;
    }
  }
}

/** The reconnect loop with doubling backoff and jitter. Durations are nanoseconds. */
module Backoff {
  const BASE: nat := 500_000_000
  const MAX: nat := 30_000_000_000

  /** What a turn of the loop meets: a shutdown, the outcome of the dial, the jitter drawn, a shutdown while asleep. */
  datatype Turn = Turn(closed: bool, dialed: bool, jitter: nat, closedAsleep: bool)

  datatype Outcome = Reconnected | Stopped | StillTrying

  function Pow2(k: nat): nat {
    if k == 0 then 1 else 2 * Pow2(k - 1)
  }

  function Min(a: nat, b: nat): nat {
    if a <= b then a else b
  }

  /** Doubling stops once 30 s is reached, and 500 ms times 64 is 32 s. */
  function Delay(k: nat): nat {
    Min(BASE * Pow2(k), 32_000_000_000)
  }

  lemma {:induction false} Pow2Grows(k: nat)
    requires k >= 6
    ensures Pow2(k) >= 64
  {
    if k == 6 {
      assert Pow2(3) == 8;
    } else {
      Pow2Grows(k - 1);
    }
  }

  lemma NextDelay(k: nat)
    ensures Delay(k + 1) == if Delay(k) < MAX then 2 * Delay(k) else Delay(k)
  {
    if k >= 6 {
      Pow2Grows(k);
    } else {
      assert Pow2(3) == 8;
    }
  }

  /** A turn that ends the loop. */
  predicate Ends(t: Turn) {
    t.closed || t.dialed || t.closedAsleep
  }

  predicate JitterOk(t: Turn, k: nat) {
    t.jitter <= Delay(k) / 2
  }

  /** The wait after the k-th failed dial. */
  function Wait(t: Turn, k: nat): (w: nat)
    requires JitterOk(t, k)
    ensures 500_000_000 <= w <= 30_000_000_000
    ensures Min(Delay(k), MAX) <= w <= Delay(k) + Delay(k) / 2
  {
    assert Pow2(k) >= 1 by { Pow2Positive(k); }
    Min(Delay(k) + t.jitter, MAX)
  }

  lemma {:induction false} Pow2Positive(k: nat)
    ensures Pow2(k) >= 1
  {
    if k > 0 {
      Pow2Positive(k - 1);
    }
  }

  /** `turns` is what the environment does, for as many turns as are looked at. */
  method Reconnect(turns: seq<Turn>) returns (outcome: Outcome, waits: seq<nat>)
    requires forall k :: 0 <= k < |turns| ==> JitterOk(turns[k], k)
    ensures |waits| <= |turns| && forall k :: 0 <= k < |waits| ==> waits[k] == Wait(turns[k], k)
    ensures forall k :: 0 <= k < |waits| - 1 ==> !Ends(turns[k])
    ensures outcome == StillTrying ==> |waits| == |turns| && forall t :: t in turns ==> !Ends(t)
    ensures outcome == Reconnected ==> |waits| < |turns| && !turns[|waits|].closed && turns[|waits|].dialed
    ensures outcome == Stopped ==>
      (|waits| < |turns| && turns[|waits|].closed) || (waits != [] && turns[|waits| - 1].closedAsleep)
  {
    var backoff := BASE;
    waits := [];
    for i := 0 to |turns|
      invariant backoff == Delay(i) && |waits| == i
      invariant forall k :: 0 <= k < i ==> waits[k] == Wait(turns[k], k) && !Ends(turns[k])
    {
      var t := turns[i];
      if t.closed {
        return Stopped, waits;
      }
      if t.dialed {
        return Reconnected, waits;
      }
      var sleep := backoff + t.jitter;
      if sleep > MAX {
        sleep := MAX;
      }
      assert sleep == Wait(t, i);
      waits := waits + [sleep];
      if t.closedAsleep {
        return Stopped, waits;
      }
      NextDelay(i);
      if backoff < MAX {
        backoff := backoff * 2;
      }
    }
    return StillTrying, waits;
  }
}
