/**
  The hub of remote-pairing sessions: sessions by code, expired ones dropped by lookups and by a sweep. One step is one
  section under the hub's mutex, or the call of endSession that follows it. Times are milliseconds.
 */
module RemoteHub {
  import opened Wrappers

  const SESSION_TTL := 1_800_000

  /** A session is named by a number; `expires` is fixed when it is created. */
  datatype Entry = Entry(id: nat, expires: int)

  predicate Expired(e: Entry, now: int) {
    now > e.expires
  }

  /** get: an expired session is dropped from the map and reported as missing. */
  function Get(sessions: map<string, Entry>, code: string, now: int): (map<string, Entry>, Option<nat>) {
    if code !in sessions then (sessions, None)
    else if Expired(sessions[code], now) then (sessions - {code}, None)
    else (sessions, Some(sessions[code].id))
  }

  function Fresh(sessions: map<string, Entry>, now: int): map<string, Entry> {
    map c | c in sessions && !Expired(sessions[c], now) :: sessions[c]
  }

  /** The map while the sweep still has the codes of `left` to look at. */
  function Swept(m: map<string, Entry>, left: set<string>, now: int): map<string, Entry> {
    map c | c in m && (c in left || !Expired(m[c], now)) :: m[c]
  }

  lemma SweptNext(m: map<string, Entry>, left: set<string>, c: string, now: int)
    requires c in left && c in m
    ensures c in Swept(m, left, now) && Swept(m, left, now)[c] == m[c]
    ensures Swept(m, left - {c}, now) == if Expired(m[c], now) then Swept(m, left, now) - {c} else Swept(m, left, now)
  {
  }

  lemma SweptEnds(m: map<string, Entry>, now: int)
    ensures Swept(m, m.Keys, now) == m && Swept(m, {}, now) == Fresh(m, now)
  {
  }

  /** The expired codes that the sweep has already looked at. */
  function ExpiredCodes(m: map<string, Entry>, left: set<string>, now: int): set<string> {
    set c | c in m && c !in left && Expired(m[c], now)
  }

  class Hub {
    var sessions: map<string, Entry>
    var ended: set<string>  // codes of the sessions whose endSession has been called

    constructor ()
      ensures sessions == map[] && ended == {}
    {
      sessions, ended := map[], {};
    }

    method Create(code: string, id: nat, now: int)
      modifies this`sessions
      ensures sessions == old(sessions)[code := Entry(id, now + SESSION_TTL)]
      ensures forall t :: t <= now + 1_800_000 ==> Get(sessions, code, t).1 == Some(id)
      ensures forall t :: t > now + 1_800_000 ==> Get(sessions, code, t).1 == None
    {
      sessions := sessions[code := Entry(id, now + SESSION_TTL)];
    }

    method Find(code: string, now: int) returns (r: Option<nat>)
      modifies this`sessions
      ensures (sessions, r) == Get(old(sessions), code, now)
      ensures r.None? ==> code !in sessions
    {
      if code !in sessions {
        return None;
      }
      if now > sessions[code].expires {
        sessions := sessions - {code};
        return None;
      }
      return Some(sessions[code].id);
    }

    method End(code: string)
      modifies this
      ensures sessions == old(sessions) - {code}
      ensures ended == old(ended) + (if code in old(sessions) then {code} else {})
    {
      if code in sessions {
        sessions := sessions - {code};
        ended := ended + {code};
      }
    }

    /** One round of the sweep ends exactly the sessions that are in the map and expired. */
    method Sweep(now: int)
      modifies this
      ensures sessions == Fresh(old(sessions), now)
      ensures ended == old(ended) + ExpiredCodes(old(sessions), {}, now)
    {
      ghost var m := sessions;
      var left := sessions.Keys;
      SweptEnds(m, now);
      while left != {}
        invariant left <= m.Keys && sessions == Swept(m, left, now)
        invariant ended == old(ended) + ExpiredCodes(m, left, now)
        decreases |left|
      {
        var c :| c in left;
        SweptNext(m, left, c, now);
        if now > sessions[c].expires {
          sessions := sessions - {c};
          ended := ended + {c};
        }
        left := left - {c};
      }
    }
  }

  // ---- The step system ----

  /** `ending` are sessions taken from the map whose endSession is still to be called. */
  datatype State = State(
    now: int, sessions: map<string, Entry>, codes: set<string>, ending: set<nat>, ended: set<nat>, next: nat)

  datatype Step =
    | Tick(to: int)
    | Create(code: string)
    | Lookup(code: string)
    | TakeToEnd(code: string)
    | TakeExpired(at: int)  // the sweep reads the clock before it takes the mutex
    | CallEnd(id: nat)

  predicate Enabled(s: State, st: Step) {
    match st
    case Tick(to) => s.now <= to
    case Create(code) => code !in s.codes
    case Lookup(_) => true
    case TakeToEnd(_) => true
    case TakeExpired(at) => at <= s.now
    case CallEnd(id) => id in s.ending
  }

  function ExpiredIds(sessions: map<string, Entry>, at: int): set<nat> {
    set c | c in sessions && Expired(sessions[c], at) :: sessions[c].id
  }

  /** A step that is not possible leaves the state alone. */
  function Apply(s: State, st: Step): State {
    if !Enabled(s, st) then s
    else
      match st
      case Tick(to) => s.(now := to)
      case Create(code) =>
        s.(sessions := s.sessions[code := Entry(s.next, s.now + SESSION_TTL)],
           codes := s.codes + {code}, next := s.next + 1)
      case Lookup(code) => s.(sessions := Get(s.sessions, code, s.now).0)
      case TakeToEnd(code) =>
        if code !in s.sessions then s
        else s.(sessions := s.sessions - {code}, ending := s.ending + {s.sessions[code].id})
      case TakeExpired(at) =>
        s.(sessions := Fresh(s.sessions, at), ending := s.ending + ExpiredIds(s.sessions, at))
      case CallEnd(id) => s.(ending := s.ending - {id}, ended := s.ended + {id})
  }

  function Exec(s: State, steps: seq<Step>): State
    decreases |steps|
  {
    if steps == [] then s else Exec(Apply(s, steps[0]), steps[1..])
  }

  function Start(): State {
    State(0, map[], {}, {}, {}, 0)
  }

  ghost predicate Listed(s: State, id: nat) {
    exists c :: c in s.sessions && s.sessions[c].id == id
  }

  /** Created, gone from the map, and neither ended nor about to be. */
  ghost predicate Lost(s: State, id: nat) {
    id < s.next && !Listed(s, id) && id !in s.ending && id !in s.ended
  }

  ghost predicate Inv(s: State) {
    && (forall c :: c in s.sessions ==> c in s.codes && s.sessions[c].id < s.next)
    && (forall id :: id in s.ending ==> id < s.next)
  }

  lemma StepKeepsInv(s: State, st: Step)
    requires Inv(s)
    ensures Inv(Apply(s, st)) && s.next <= Apply(s, st).next
  {
  }

  lemma LostStep(s: State, st: Step, id: nat)
    requires Inv(s) && Lost(s, id)
    ensures Lost(Apply(s, st), id)
  {
    var s' := Apply(s, st);
    forall c | c in s'.sessions
      ensures s'.sessions[c].id != id
    {
      assert c in s.sessions ==> s'.sessions[c] == s.sessions[c];
    }
  }

  lemma {:induction false} LostForever(s: State, steps: seq<Step>, id: nat)
    requires Inv(s) && Lost(s, id)
    ensures Lost(Exec(s, steps), id)
    decreases |steps|
  {
    if steps != [] {
      StepKeepsInv(s, steps[0]);
      LostStep(s, steps[0], id);
      LostForever(Apply(s, steps[0]), steps[1..], id);
    }
  }

  lemma {:induction false} Reached(s: State, steps: seq<Step>)
    requires Inv(s)
    ensures Inv(Exec(s, steps))
    decreases |steps|
  {
    if steps != [] {
      StepKeepsInv(s, steps[0]);
      Reached(Apply(s, steps[0]), steps[1..]);
    }
  }

  /** A session not lost can still be ended: by an end of its code, or by the call that is due. */
  lemma CanBeEnded(s: State, id: nat) returns (steps: seq<Step>)
    requires id < s.next && !Lost(s, id)
    ensures id in Exec(s, steps).ended
  {
    if id in s.ended {
      return [];
    }
    steps := [CallEnd(id)];
    if id in s.ending {
      CallEnds(s, id);
    } else {
      var c :| c in s.sessions && s.sessions[c].id == id;
      steps := [TakeToEnd(c)] + steps;
      assert steps[1..] == [CallEnd(id)];
      CallEnds(Apply(s, TakeToEnd(c)), id);
    }
  }

  lemma CallEnds(s: State, id: nat)
    requires id in s.ending
    ensures id in Exec(s, [CallEnd(id)]).ended
  {
    assert [CallEnd(id)][1..] == [];
    assert Exec(s, [CallEnd(id)]) == Exec(Apply(s, CallEnd(id)), []);
  }

  /** From any reached state a session is ended in some continuation if and only if it has not been lost. */
  lemma EverEndedIffNotLost(before: seq<Step>, id: nat)
    requires id < Exec(Start(), before).next
    ensures var s := Exec(Start(), before); (exists steps :: id in Exec(s, steps).ended) <==> !Lost(s, id)
  {
    Reached(Start(), before);
    var s := Exec(Start(), before);
    if Lost(s, id) {
      forall steps
        ensures id !in Exec(s, steps).ended
      {
        LostForever(s, steps, id);
      }
    } else {
      var steps := CanBeEnded(s, id);
      assert id in Exec(s, steps).ended;
    }
  }

  /** A round of the sweep sends exactly the expired sessions of the map to their end. */
  lemma SweepTakes(s: State, at: int, c: string)
    requires at <= s.now && c in s.sessions
    ensures var t, e := Apply(s, TakeExpired(at)), s.sessions[c];
      if at > e.expires then c !in t.sessions && e.id in t.ending else c in t.sessions && t.sessions[c] == e
  {
    if Expired(s.sessions[c], at) {
      assert s.sessions[c].id in ExpiredIds(s.sessions, at);
    }
  }

  lemma Reaches(s: State, st: Step, id: nat, c: string)
    requires Inv(s) && OneCode(s) && c in s.sessions && s.sessions[c].id == id && id !in s.ending && id !in s.ended
    ensures Lost(Apply(s, st), id) <==> st == Lookup(c) && Expired(s.sessions[c], s.now)
  {
    var s' := Apply(s, st);
    if st == Lookup(c) && Expired(s.sessions[c], s.now) {
      assert forall d :: d in s'.sessions ==> s'.sessions[d].id != id;
    } else if c in s'.sessions {
      assert s'.sessions[c] == s.sessions[c];
      assert Listed(s', id);
    }
  }

  /** No two codes lead to one session. */
  ghost predicate OneCode(s: State) {
    forall c, d :: c in s.sessions && d in s.sessions && s.sessions[c].id == s.sessions[d].id ==> c == d
  }

  lemma OneCodeStep(s: State, st: Step)
    requires Inv(s) && OneCode(s)
    ensures OneCode(Apply(s, st))
  {
  }

  lemma {:induction false} OneCodeRun(s: State, steps: seq<Step>)
    requires Inv(s) && OneCode(s)
    ensures Inv(Exec(s, steps)) && OneCode(Exec(s, steps))
    decreases |steps|
  {
    if steps != [] {
      StepKeepsInv(s, steps[0]);
      OneCodeStep(s, steps[0]);
      OneCodeRun(Apply(s, steps[0]), steps[1..]);
    }
  }

  /** In every run, a session still in the map is lost by a step if and only if the step looks it up once expired. */
  lemma LostExactlyByLateLookup(before: seq<Step>, st: Step, c: string)
    requires var s := Exec(Start(), before);
      c in s.sessions && s.sessions[c].id !in s.ending && s.sessions[c].id !in s.ended
    ensures var s := Exec(Start(), before);
      Lost(Apply(s, st), s.sessions[c].id) <==> st == Lookup(c) && Expired(s.sessions[c], s.now)
  {
    OneCodeRun(Start(), before);
    var s := Exec(Start(), before);
    Reaches(s, st, s.sessions[c].id, c);
  }

  /** A lookup between the expiry and the next sweep: the session's viewers and agent are never told. */
  lemma LookupLosesSession(code: string)
    ensures var s := Exec(Start(), [Create(code), Tick(SESSION_TTL + 1), Lookup(code)]); Lost(s, 0)
  {
    var steps := [Create(code), Tick(SESSION_TTL + 1), Lookup(code)];
    var s1 := Apply(Start(), steps[0]);
    var s2 := Apply(s1, steps[1]);
    var s3 := Apply(s2, steps[2]);
    assert s3.sessions == map[];
    assert steps[1..] == [steps[1], steps[2]] && steps[1..][1..] == [steps[2]] && steps[1..][1..][1..] == [];
    assert Exec(Start(), steps) == Exec(s1, steps[1..]);
    assert Exec(s1, steps[1..]) == Exec(s2, steps[1..][1..]);
    assert Exec(s2, steps[1..][1..]) == Exec(s3, []);
  }
}
