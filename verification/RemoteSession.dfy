/**
  The relay session of remote pairing. Every method runs under the session's mutex, so one operation is one step;
  the stream handlers take events out of their channels at any time in between.
 */
module RelayModel {
  import opened Wrappers

  const BACKLOG_LIMIT := 200
  const CHANNEL_SIZE := 32

  datatype Event =
    | Lines(lines: seq<string>)
    | Snapshot(state: Option<string>)  // a state event may carry no state at all
    | Presence(connected: bool)
    | Command(text: string)
    | Ended

  /** A buffered channel: everything ever sent on it, and how much of that has been received. */
  datatype Chan = Chan(sent: seq<Event>, taken: nat, closed: bool)

  predicate Room(c: Chan) {
    |c.sent| - c.taken < CHANNEL_SIZE
  }

  /** A send in a select with a default case: a full channel drops the event. */
  function Offer(c: Chan, ev: Event): Chan {
    if Room(c) then c.(sent := c.sent + [ev]) else c
  }

  /**
    Channels are named by viewer number and by attach number, and stay in the maps after they are unregistered.
    `published`, `log`, `joined` and `replay` are history: every published line, every broadcast, and for each
    viewer the length of the log when it joined and what it was sent at that moment.
   */
  datatype State = State(
    agents: seq<Chan>, agent: Option<nat>, connected: bool,
    chans: seq<Chan>, viewers: set<nat>,
    backlog: seq<string>, state: Option<string>, ended: bool,
    published: seq<string>, log: seq<Event>, joined: seq<nat>, replay: seq<seq<Event>>)

  function Init(): State {
    State([], None, false, [], {}, [], None, false, [], [], [], [])
  }

  datatype Op =
    | Attach
    | Detach(ch: nat)
    | Join
    | Leave(id: nat)
    | Publish(ev: Event)
    | Send(text: string)
    | End
    | Receive(id: nat)
    | ReceiveAgent(ch: nat)

  /** broadcastViewersLocked. */
  function Broadcast(s: State, ev: Event): State {
    s.(chans := seq(|s.chans|, i requires 0 <= i < |s.chans| =>
                      if i in s.viewers then Offer(s.chans[i], ev) else s.chans[i]),
       log := s.log + [ev])
  }

  function LastLines(lines: seq<string>): seq<string> {
    if |lines| > BACKLOG_LIMIT then lines[|lines| - BACKLOG_LIMIT..] else lines
  }

  /** What addViewer sends to a new viewer. */
  function ReplayOf(s: State): seq<Event> {
    (if s.backlog != [] then [Lines(s.backlog)] else []) +
    (if s.state.Some? then [Snapshot(s.state)] else []) +
    [Presence(s.connected)]
  }

  function Record(s: State, ev: Event): State {
    match ev
    case Lines(lines) => s.(backlog := LastLines(s.backlog + lines), published := s.published + lines)
    case Snapshot(x) => s.(state := x)
    case _ => s
  }

  function CloseAll(s: State): State {
    s.(chans := seq(|s.chans|, i requires 0 <= i < |s.chans| =>
                      if i in s.viewers then s.chans[i].(closed := true) else s.chans[i]),
       viewers := {})
  }

  function ToAgent(s: State, ev: Event): State {
    if s.agent.Some? && s.agent.value < |s.agents|
    then s.(agents := s.agents[s.agent.value := Offer(s.agents[s.agent.value], ev)]) else s
  }

  function Take(c: Chan): Chan {
    if c.taken < |c.sent| then c.(taken := c.taken + 1) else c
  }

  function Do(s: State, op: Op): State {
    match op
    case Attach =>
      var ch := Chan([], 0, false);
      Broadcast(s.(agents := s.agents + [ch], agent := Some(|s.agents|), connected := true), Presence(true))
    case Detach(ch) =>
      if s.agent != Some(ch) then s else Broadcast(s.(agent := None, connected := false), Presence(false))
    case Join =>
      s.(chans := s.chans + [Chan(ReplayOf(s), 0, false)], viewers := s.viewers + {|s.chans|},
         joined := s.joined + [|s.log|], replay := s.replay + [ReplayOf(s)])
    case Leave(id) =>
      if id in s.viewers && id < |s.chans|
      then s.(chans := s.chans[id := s.chans[id].(closed := true)], viewers := s.viewers - {id}) else s
    case Publish(ev) => Broadcast(Record(s, ev), ev)
    case Send(text) => ToAgent(s, Command(text))
    case End => if s.ended then s else CloseAll(ToAgent(Broadcast(s.(ended := true), Ended), Ended))
    case Receive(id) => if id < |s.chans| then s.(chans := s.chans[id := Take(s.chans[id])]) else s
    case ReceiveAgent(ch) => if ch < |s.agents| then s.(agents := s.agents[ch := Take(s.agents[ch])]) else s
  }

  /** The operation sends on a closed channel, closes one twice, or blocks on a full channel under the mutex. */
  predicate Faults(s: State, op: Op) {
    var toViewers := op.Attach? || (op.Detach? && s.agent == Some(op.ch)) || op.Publish? || (op.End? && !s.ended);
    || (toViewers && exists i :: i in s.viewers && (i >= |s.chans| || s.chans[i].closed))
    || (op.Leave? && op.id in s.viewers && (op.id >= |s.chans| || s.chans[op.id].closed))
    || ((op.Send? || (op.End? && !s.ended)) && s.agent.Some? &&
        (s.agent.value >= |s.agents| || s.agents[s.agent.value].closed))
    || (op.Join? && |ReplayOf(s)| > CHANNEL_SIZE)
  }

  // ---- The invariant ----

  /** `t` is `l` with some events left out. */
  ghost predicate Subsequence(t: seq<Event>, l: seq<Event>)
    decreases |l|
  {
    t == [] ||
    (l != [] &&
     ((t[|t| - 1] == l[|l| - 1] && Subsequence(t[..|t| - 1], l[..|l| - 1])) || Subsequence(t, l[..|l| - 1])))
  }

  lemma SubsequenceGrows(t: seq<Event>, l: seq<Event>, e: Event)
    requires Subsequence(t, l)
    ensures Subsequence(t, l + [e]) && Subsequence(t + [e], l + [e])
  {
    assert (l + [e])[..|l|] == l && (t + [e])[..|t|] == t;
  }

  /** What was sent is the replay and then, in order, events of the log from position `from` on. */
  ghost predicate Follows(sent: seq<Event>, replay: seq<Event>, log: seq<Event>, from: nat) {
    from <= |log| && replay <= sent && Subsequence(sent[|replay|..], log[from..])
  }

  lemma FollowsLog(sent: seq<Event>, replay: seq<Event>, log: seq<Event>, from: nat, ev: Event)
    requires Follows(sent, replay, log, from)
    ensures Follows(sent, replay, log + [ev], from) && Follows(sent + [ev], replay, log + [ev], from)
  {
    SubsequenceGrows(sent[|replay|..], log[from..], ev);
    assert (log + [ev])[from..] == log[from..] + [ev];
    assert (sent + [ev])[|replay|..] == sent[|replay|..] + [ev];
  }

  ghost predicate History(s: State, i: nat) {
    i < |s.chans| && i < |s.joined| && i < |s.replay| && Follows(s.chans[i].sent, s.replay[i], s.log, s.joined[i])
  }

  ghost predicate Inv(s: State) {
    && |s.joined| == |s.chans| && |s.replay| == |s.chans|
    && (forall i :: i in s.viewers ==> i < |s.chans|)
    && (forall i :: 0 <= i < |s.chans| ==> (s.chans[i].closed <==> i !in s.viewers))
    && (forall i :: 0 <= i < |s.chans| ==> History(s, i))
    && (forall i :: 0 <= i < |s.agents| ==> !s.agents[i].closed)
    && (s.agent.Some? ==> s.agent.value < |s.agents|)
    && (s.connected <==> s.agent.Some?)
    && s.backlog == LastLines(s.published)
  }

  lemma NoFault(s: State, op: Op)
    requires Inv(s)
    ensures !Faults(s, op)
  {
  }

  lemma BroadcastHistory(s: State, ev: Event, i: nat)
    requires History(s, i)
    ensures History(Broadcast(s, ev), i)
  {
    FollowsLog(s.chans[i].sent, s.replay[i], s.log, s.joined[i], ev);
  }

  lemma BroadcastKeepsInv(s: State, ev: Event)
    requires Inv(s)
    ensures Inv(Broadcast(s, ev))
  {
    forall i | 0 <= i < |s.chans|
      ensures History(Broadcast(s, ev), i)
    {
      BroadcastHistory(s, ev, i);
    }
  }

  /** Trimming after every publish keeps exactly the last lines of everything published. */
  lemma BacklogIsTail(published: seq<string>, lines: seq<string>)
    ensures LastLines(LastLines(published) + lines) == LastLines(published + lines)
  {
    var p := published;
    if |p| > BACKLOG_LIMIT {
      var tail := p[|p| - BACKLOG_LIMIT..];
      assert tail + lines == (p + lines)[|p| - BACKLOG_LIMIT..];
    }
  }

  lemma RecordKeepsInv(s: State, ev: Event)
    requires Inv(s)
    ensures Inv(Record(s, ev))
  {
    if ev.Lines? {
      BacklogIsTail(s.published, ev.lines);
    }
    HistoryFrame(s, Record(s, ev));
  }

  /** History looks only at the channels' contents and at the history itself. */
  lemma HistoryFrame(s: State, s': State)
    requires Inv(s) && s'.log == s.log && s'.joined == s.joined && s'.replay == s.replay
    requires |s'.chans| == |s.chans| && forall i :: 0 <= i < |s.chans| ==> s'.chans[i].sent == s.chans[i].sent
    ensures forall i :: 0 <= i < |s'.chans| ==> History(s', i)
  {
    forall i | 0 <= i < |s'.chans|
      ensures History(s', i)
    {
      assert History(s, i);
    }
  }

  lemma JoinKeepsInv(s: State)
    requires Inv(s)
    ensures Inv(Do(s, Join))
  {
    var s', n := Do(s, Join), |s.chans|;
    forall i | 0 <= i <= n
      ensures History(s', i)
    {
      if i < n {
        assert History(s, i);
        assert s'.chans[i] == s.chans[i] && s'.joined[i] == s.joined[i] && s'.replay[i] == s.replay[i];
      } else {
        assert s'.chans[n].sent[|s'.replay[n]|..] == [];
      }
    }
  }

  lemma EndKeepsInv(s: State)
    requires Inv(s)
    ensures Inv(Do(s, End))
  {
    if !s.ended {
      var s1 := s.(ended := true);
      HistoryFrame(s, s1);
      BroadcastKeepsInv(s1, Ended);
      var s2 := Broadcast(s1, Ended);
      HistoryFrame(s2, ToAgent(s2, Ended));
      HistoryFrame(s2, CloseAll(ToAgent(s2, Ended)));
    }
  }

  lemma PresenceKeepsInv(s: State, op: Op)
    requires Inv(s) && (op.Attach? || op.Detach?)
    ensures Inv(Do(s, op))
  {
    if op.Attach? {
      var s1 := s.(agents := s.agents + [Chan([], 0, false)], agent := Some(|s.agents|), connected := true);
      HistoryFrame(s, s1);
      BroadcastKeepsInv(s1, Presence(true));
    } else if s.agent == Some(op.ch) {
      var s1 := s.(agent := None, connected := false);
      HistoryFrame(s, s1);
      BroadcastKeepsInv(s1, Presence(false));
    }
  }

  lemma StepKeepsInv(s: State, op: Op)
    requires Inv(s)
    ensures Inv(Do(s, op))
  {
    if op.Join? {
      JoinKeepsInv(s);
    } else if op.End? {
      EndKeepsInv(s);
    } else if op.Attach? || op.Detach? {
      PresenceKeepsInv(s, op);
    } else if op.Publish? {
      RecordKeepsInv(s, op.ev);
      BroadcastKeepsInv(Record(s, op.ev), op.ev);
    } else {
      HistoryFrame(s, Do(s, op));
    }
  }

  // ---- Whole runs ----

  function Exec(s: State, ops: seq<Op>): State
    decreases |ops|
  {
    if ops == [] then s else Exec(Do(s, ops[0]), ops[1..])
  }

  lemma {:induction false} ExecKeepsInv(s: State, ops: seq<Op>)
    requires Inv(s)
    ensures Inv(Exec(s, ops))
    decreases |ops|
  {
    if ops != [] {
      StepKeepsInv(s, ops[0]);
      ExecKeepsInv(Do(s, ops[0]), ops[1..]);
    }
  }

  /** In every run, no operation sends on or closes a closed channel, and none blocks while it holds the mutex. */
  lemma NeverFaults(ops: seq<Op>, op: Op)
    ensures !Faults(Exec(Init(), ops), op)
  {
    ExecKeepsInv(Init(), ops);
    NoFault(Exec(Init(), ops), op);
  }

  /** In every run, the backlog is exactly the last 200 lines ever published. */
  lemma BacklogIsExact(ops: seq<Op>)
    ensures var s := Exec(Init(), ops); s.backlog == LastLines(s.published)
  {
    ExecKeepsInv(Init(), ops);
  }

  /** In every run, a viewer is sent its replay and then, in order, some of the broadcasts made after it joined. */
  lemma ViewerSeesReplayThenBroadcasts(ops: seq<Op>, i: nat)
    requires i < |Exec(Init(), ops).chans|
    ensures History(Exec(Init(), ops), i)
  {
    ExecKeepsInv(Init(), ops);
  }

  // ---- What the operations tell, channels apart ----

  /** What has happened, as one would tell it from the operations alone. */
  datatype Story = Story(
    agent: Option<nat>, attaches: nat, lines: seq<string>, state: Option<string>, ended: bool, log: seq<Event>)

  function Tell(y: Story, op: Op): Story {
    match op
    case Attach => y.(agent := Some(y.attaches), attaches := y.attaches + 1, log := y.log + [Presence(true)])
    case Detach(ch) => if y.agent == Some(ch) then y.(agent := None, log := y.log + [Presence(false)]) else y
    case Publish(Lines(lines)) => y.(lines := y.lines + lines, log := y.log + [Lines(lines)])
    case Publish(Snapshot(x)) => y.(state := x, log := y.log + [Snapshot(x)])
    case Publish(ev) => y.(log := y.log + [ev])
    case End => if y.ended then y else y.(ended := true, log := y.log + [Ended])
    case _ => y
  }

  function StoryOf(ops: seq<Op>): Story {
    if ops == [] then Story(None, 0, [], None, false, [])
    else Tell(StoryOf(ops[..|ops| - 1]), ops[|ops| - 1])
  }

  predicate IsStory(s: State, y: Story) {
    && s.agent == y.agent && |s.agents| == y.attaches && s.connected == y.agent.Some?
    && s.published == y.lines && s.state == y.state && s.ended == y.ended && s.log == y.log
  }

  lemma TellStep(s: State, y: Story, op: Op)
    requires IsStory(s, y)
    ensures IsStory(Do(s, op), Tell(y, op))
  {
  }

  /** In every run the session's agent, lines, state, end and broadcasts are as the operations tell. */
  lemma {:induction false} SessionFollowsStory(ops: seq<Op>)
    ensures IsStory(Exec(Init(), ops), StoryOf(ops))
  {
    if ops != [] {
      var n := |ops| - 1;
      SessionFollowsStory(ops[..n]);
      ExecSnoc(Init(), ops[..n], ops[n]);
      assert ops[..n] + [ops[n]] == ops;
      TellStep(Exec(Init(), ops[..n]), StoryOf(ops[..n]), ops[n]);
    }
  }

  /** In every run a new viewer is sent the last 200 lines if there are any, the last state if any, and the presence. */
  lemma NewcomerIsTold(ops: seq<Op>)
    ensures var s, y := Exec(Init(), ops), StoryOf(ops);
      var last := if |y.lines| > 200 then y.lines[|y.lines| - 200..] else y.lines;
      Do(s, Join).chans == s.chans + [Chan(
        (if y.lines != [] then [Lines(last)] else []) + (if y.state.Some? then [Snapshot(y.state)] else []) +
        [Presence(y.agent.Some?)], 0, false)]
  {
    SessionFollowsStory(ops);
    BacklogIsExact(ops);
  }

  /** The channel with one more event, if there is room for it. */
  function Told(c: Chan, ev: Event): Chan {
    Chan(if |c.sent| - c.taken < 32 then c.sent + [ev] else c.sent, c.taken, c.closed)
  }

  /** A command reaches the attached agent's channel if there is room, and nothing else. */
  lemma CommandArrives(s: State, text: string)
    requires Inv(s)
    ensures s.agent.None? ==> Do(s, Send(text)) == s
    ensures s.agent.Some? ==>
      Do(s, Send(text)) == s.(agents := s.agents[s.agent.value := Told(s.agents[s.agent.value], Command(text))])
  {
  }

  /** The first end tells every viewer and the agent, room permitting, and then closes the viewers' channels. */
  lemma EndTells(s: State, i: nat)
    requires Inv(s) && !s.ended && i in s.viewers
    ensures var t := Do(s, End); t.ended && t.viewers == {} && t.chans[i] == Told(s.chans[i], Ended).(closed := true)
    ensures s.agent.Some? ==> Do(s, End).agents[s.agent.value] == Told(s.agents[s.agent.value], Ended)
  {
  }

  /** A viewer that leaves is unregistered and closed; nobody else notices. */
  lemma LeaveDismisses(s: State, id: nat)
    requires Inv(s)
    ensures id in s.viewers ==>
      Do(s, Leave(id)) == s.(viewers := s.viewers - {id}, chans := s.chans[id := s.chans[id].(closed := true)])
    ensures id !in s.viewers ==> Do(s, Leave(id)) == s
  {
  }

  /** A new agent connection gets an empty open channel of its own, and the old one keeps what it was sent. */
  lemma AttachOpensChannel(s: State)
    ensures Do(s, Attach).agents == s.agents + [Chan([], 0, false)] && Do(s, Attach).agent == Some(|s.agents|)
  {
  }

  /** A stream handler takes the events in the order they were sent, one at a time. */
  lemma ReceiveTakesNext(s: State, i: nat)
    requires i < |s.chans|
    ensures var c, d := s.chans[i], Do(s, Receive(i)).chans[i];
      d.sent == c.sent && d.closed == c.closed && d.taken == if c.taken < |c.sent| then c.taken + 1 else c.taken
  {
  }

  // ---- A viewer that keeps up ----

  /** The operation broadcasts to the viewers. */
  predicate Broadcasts(s: State, op: Op) {
    op.Attach? || (op.Detach? && s.agent == Some(op.ch)) || op.Publish? || (op.End? && !s.ended)
  }

  /** At every broadcast the viewer's channel has room. */
  predicate KeepsUp(s: State, ops: seq<Op>, i: nat)
    decreases |ops|
  {
    ops == [] ||
    (i < |s.chans| && (Broadcasts(s, ops[0]) ==> Room(s.chans[i])) && KeepsUp(Do(s, ops[0]), ops[1..], i))
  }

  /** The viewer was sent its replay and every broadcast since it joined. */
  ghost predicate Complete(s: State, i: nat) {
    && i < |s.chans| && i < |s.joined| && i < |s.replay| && s.joined[i] <= |s.log|
    && s.chans[i].sent == s.replay[i] + s.log[s.joined[i]..]
  }

  lemma BroadcastIsComplete(s: State, ev: Event, i: nat)
    requires Watching(s, i) && Complete(s, i) && Room(s.chans[i])
    ensures Complete(Broadcast(s, ev), i)
  {
    var s' := Broadcast(s, ev);
    assert s'.log[s.joined[i]..] == s.log[s.joined[i]..] + [ev];
    assert s'.chans[i].sent == s.chans[i].sent + [ev];
  }

  lemma CompleteStep(s: State, op: Op, i: nat)
    requires Watching(s, i) && Complete(s, i) && Watching(Do(s, op), i)
    requires Broadcasts(s, op) ==> Room(s.chans[i])
    ensures Complete(Do(s, op), i)
  {
    if op.Attach? {
      var s1 := s.(agents := s.agents + [Chan([], 0, false)], agent := Some(|s.agents|), connected := true);
      BroadcastIsComplete(s1, Presence(true), i);
    } else if op.Detach? && s.agent == Some(op.ch) {
      BroadcastIsComplete(s.(agent := None, connected := false), Presence(false), i);
    } else if op.Publish? {
      BroadcastIsComplete(Record(s, op.ev), op.ev, i);
    }
  }

  /** A viewer that keeps up misses nothing: it is sent its replay and then every broadcast since it joined. */
  lemma {:induction false} KeepingUpMissesNothing(s: State, ops: seq<Op>, i: nat)
    requires Watching(s, i) && Complete(s, i) && KeepsUp(s, ops, i) && Leave(i) !in ops
    ensures Watching(Exec(s, ops), i) ==> Complete(Exec(s, ops), i)
    decreases |ops|
  {
    if ops != [] {
      assert ops[0] in ops;
      WatchingStep(s, ops[0], i);
      var s' := Do(s, ops[0]);
      if Watching(s', i) {
        CompleteStep(s, ops[0], i);
        KeepingUpMissesNothing(s', ops[1..], i);
      } else {
        DismissedForGood(s', ops[1..], i);
      }
    }
  }

  /** It starts out complete. */
  lemma JoinIsComplete(ops: seq<Op>)
    ensures var s := Exec(Init(), ops); Watching(Do(s, Join), |s.chans|) && Complete(Do(s, Join), |s.chans|)
  {
    ExecKeepsInv(Init(), ops);
    var s := Exec(Init(), ops);
    var s' := Do(s, Join);
    assert s'.log[|s.log|..] == [];
  }

  // ---- Operations that come too late ----

  /** The connection has been superseded or has detached: its channel is not the current one. */
  predicate Superseded(s: State, ch: nat) {
    ch < |s.agents| && s.agent != Some(ch)
  }

  lemma StepKeepsSuperseded(s: State, op: Op, ch: nat)
    requires Superseded(s, ch)
    ensures Superseded(Do(s, op), ch)
  {
  }

  /** A superseded connection stays superseded, so its detach, however late, changes nothing. */
  lemma {:induction false} StaleDetachIsIdle(s: State, ops: seq<Op>, ch: nat)
    requires Superseded(s, ch)
    ensures var t := Exec(s, ops); Superseded(t, ch) && Do(t, Detach(ch)) == t
    decreases |ops|
  {
    if ops != [] {
      StepKeepsSuperseded(s, ops[0], ch);
      StaleDetachIsIdle(Do(s, ops[0]), ops[1..], ch);
    }
  }

  /** Reconnecting supersedes every connection there was, for good. */
  lemma ReconnectSupersedes(before: seq<Op>, after: seq<Op>, ch: nat)
    requires ch < |Exec(Init(), before).agents|
    ensures var t := Exec(Do(Exec(Init(), before), Attach), after); t.agent != Some(ch) && Do(t, Detach(ch)) == t
  {
    StaleDetachIsIdle(Do(Exec(Init(), before), Attach), after, ch);
  }

  /** An ended session stays ended, so a second end, however late, changes nothing. */
  lemma {:induction false} EndedStaysEnded(s: State, ops: seq<Op>)
    requires s.ended
    ensures var t := Exec(s, ops); t.ended && Do(t, End) == t
    decreases |ops|
  {
    if ops != [] {
      EndedStaysEnded(Do(s, ops[0]), ops[1..]);
    }
  }

  /** The viewer is registered and its channel is open. */
  predicate Watching(s: State, id: nat) {
    id in s.viewers && id < |s.chans| && !s.chans[id].closed
  }

  /** The viewer is unregistered and its channel closed. */
  predicate Dismissed(s: State, id: nat) {
    id !in s.viewers && id < |s.chans| && s.chans[id].closed
  }

  lemma WatchingStep(s: State, op: Op, id: nat)
    requires Watching(s, id) && op != Leave(id)
    ensures if !s.ended && op == End then Dismissed(Do(s, op), id) && Do(s, op).ended
            else Watching(Do(s, op), id) && Do(s, op).ended == s.ended
  {
  }

  lemma DismissedStep(s: State, op: Op, id: nat)
    requires Dismissed(s, id)
    ensures Dismissed(Do(s, op), id)
  {
  }

  lemma {:induction false} DismissedForGood(s: State, ops: seq<Op>, id: nat)
    requires Dismissed(s, id) && s.ended
    ensures Dismissed(Exec(s, ops), id) && Exec(s, ops).ended
    decreases |ops|
  {
    if ops != [] {
      DismissedStep(s, ops[0], id);
      EndedStaysEnded(s, [ops[0]]);
      DismissedForGood(Do(s, ops[0]), ops[1..], id);
    }
  }

  /**
    A viewer that does not leave is dismissed exactly when the session ends while it watches; one that joined after the
    end, which addViewer does not refuse, goes on watching for ever, for no later end dismisses it.
   */
  lemma {:induction false} DismissedIffEndedSince(s: State, ops: seq<Op>, id: nat)
    requires Watching(s, id) && Leave(id) !in ops
    ensures var t := Exec(s, ops);
      if !s.ended && t.ended then Dismissed(t, id) else Watching(t, id) && t.ended == s.ended
    decreases |ops|
  {
    if ops != [] {
      assert ops[0] in ops;
      WatchingStep(s, ops[0], id);
      var s' := Do(s, ops[0]);
      if !s.ended && ops[0] == End {
        DismissedForGood(s', ops[1..], id);
      } else {
        DismissedIffEndedSince(s', ops[1..], id);
      }
    }
  }

  /** A run: the viewer joins just after the end and is never dismissed, whatever happens short of its leaving. */
  lemma LateViewerIsForgotten(before: seq<Op>, after: seq<Op>)
    requires Leave(|Exec(Init(), before + [End]).chans|) !in after
    ensures var s := Exec(Init(), before + [End]); var t := Exec(Do(s, Join), after);
      s.ended && Watching(t, |s.chans|)
  {
    ExecSnoc(Init(), before, End);
    var s := Exec(Init(), before + [End]);
    DismissedIffEndedSince(Do(s, Join), after, |s.chans|);
  }

  lemma {:induction false} ExecSnoc(s: State, ops: seq<Op>, op: Op)
    ensures Exec(s, ops + [op]) == Do(Exec(s, ops), op)
    decreases |ops|
  {
    if ops == [] {
      assert ([] + [op])[1..] == [];
    } else {
      assert (ops + [op])[1..] == ops[1..] + [op];
      ExecSnoc(Do(s, ops[0]), ops[1..], op);
    }
  }
}

module RelaySession {
  import opened Wrappers
  import opened RelayModel

  class RemoteSession {
    var agents: seq<Chan>
    var agent: Option<nat>
    var connected: bool
    var chans: seq<Chan>
    var viewers: set<nat>
    var backlog: seq<string>
    var state: Option<string>
    var ended: bool
    ghost var published: seq<string>
    ghost var log: seq<Event>
    ghost var joined: seq<nat>
    ghost var replay: seq<seq<Event>>

    ghost function View(): State
      reads this
    {
      State(agents, agent, connected, chans, viewers, backlog, state, ended, published, log, joined, replay)
    }

    ghost predicate Valid()
      reads this
    {
      Inv(View())
    }

    /** Every registered viewer has an open channel. */
    ghost predicate Open()
      reads this
    {
      forall i :: i in viewers ==> i < |chans| && !chans[i].closed
    }

    ghost predicate AgentOpen()
      reads this
    {
      agent.Some? ==> agent.value < |agents| && !agents[agent.value].closed
    }

    constructor ()
      ensures Valid() && View() == Init()
    {
      agents, agent, connected := [], None, false;
      chans, viewers := [], {};
      backlog, state, ended := [], None, false;
      published, log, joined, replay := [], [], [], [];
    }

    /** Sending on a closed channel would panic, so an open channel is a precondition. */
    method SendTo(id: nat, ev: Event)
      requires id < |chans| && !chans[id].closed
      modifies this`chans
      ensures chans == old(chans)[id := Offer(old(chans)[id], ev)]
    {
      if |chans[id].sent| - chans[id].taken < CHANNEL_SIZE {
        chans := chans[id := chans[id].(sent := chans[id].sent + [ev])];
      }
    }

    method FanOut(ev: Event)
      requires Open()
      modifies this`chans
      ensures chans == Broadcast(old(View()), ev).chans
    {
      var left := viewers;
      while left != {}
        invariant left <= viewers && |chans| == |old(chans)|
        invariant forall i :: i in left ==> i < |chans| && chans[i] == old(chans)[i]
        invariant forall i :: 0 <= i < |chans| ==>
          chans[i] == if i in viewers - left then Offer(old(chans)[i], ev) else old(chans)[i]
        decreases |left|
      {
        var id :| id in left;
        SendTo(id, ev);
        left := left - {id};
      }
    }

    method BroadcastViewers(ev: Event)
      requires Open()
      modifies this`chans, this`log
      ensures Open() && View() == Broadcast(old(View()), ev)
    {
      FanOut(ev);
      log := log + [ev];
    }

    method AttachAgent() returns (ch: nat)
      requires Valid()
      modifies this
      ensures Valid() && View() == Do(old(View()), Attach) && agent == Some(ch)
    {
      StepKeepsInv(View(), Attach);
      ch := |agents|;
      agents := agents + [Chan([], 0, false)];
      agent := Some(ch);
      connected := true;
      BroadcastViewers(Presence(true));
    }

    method DetachAgent(ch: nat)
      requires Valid()
      modifies this
      ensures Valid() && View() == Do(old(View()), Detach(ch))
    {
      StepKeepsInv(View(), Detach(ch));
      if agent != Some(ch) {
        return;
      }
      agent := None;
      connected := false;
      BroadcastViewers(Presence(false));
    }

    method AddViewer() returns (id: nat)
      requires Valid()
      modifies this
      ensures Valid() && View() == Do(old(View()), Join)
      ensures id in viewers && chans[id].sent == ReplayOf(old(View()))
    {
      id := |chans|;
      var sent: seq<Event> := [];
      if |backlog| > 0 {
        sent := sent + [Lines(backlog)];
      }
      if state.Some? {
        sent := sent + [Snapshot(state)];
      }
      sent := sent + [Presence(connected)];
      assert sent == ReplayOf(View());
      JoinKeepsInv(View());
      joined, replay := joined + [|log|], replay + [sent];
      chans := chans + [Chan(sent, 0, false)];
      viewers := viewers + {id};
    }

    method RemoveViewer(id: nat)
      requires Valid()
      modifies this
      ensures Valid() && View() == Do(old(View()), Leave(id))
    {
      StepKeepsInv(View(), Leave(id));
      if id in viewers {
        viewers := viewers - {id};
        chans := chans[id := chans[id].(closed := true)];
      }
    }

    method RecordEvent(ev: Event)
      modifies this`published, this`backlog, this`state
      ensures View() == Record(old(View()), ev)
    {
      if ev.Lines? {
        published := published + ev.lines;
        backlog := backlog + ev.lines;
        if |backlog| > BACKLOG_LIMIT {
          backlog := backlog[|backlog| - BACKLOG_LIMIT..];
        }
      } else if ev.Snapshot? {
        state := ev.state;
      }
    }

    method PublishEvent(ev: Event)
      requires Valid()
      modifies this
      ensures Valid() && View() == Do(old(View()), Publish(ev))
    {
      StepKeepsInv(View(), Publish(ev));
      RecordEvent(ev);
      BroadcastViewers(ev);
    }

    /** Reports true exactly when an agent is attached and its channel had room. */
    method SendCommand(text: string) returns (delivered: bool)
      requires Valid()
      modifies this`agents
      ensures Valid() && View() == Do(old(View()), Send(text))
      ensures delivered <==> agent.Some? && Room(old(agents)[agent.value])
    {
      StepKeepsInv(View(), Send(text));
      if agent.None? {
        return false;
      }
      var ch := agent.value;
      delivered := |agents[ch].sent| - agents[ch].taken < CHANNEL_SIZE;
      if delivered {
        agents := agents[ch := agents[ch].(sent := agents[ch].sent + [Command(text)])];
      } else {
        assert agents[ch := agents[ch]] == agents;
      }
    }

    method NotifyAgent(ev: Event)
      requires AgentOpen()
      modifies this`agents
      ensures View() == ToAgent(old(View()), ev)
    {
      if agent.Some? {
        var ch := agent.value;
        if |agents[ch].sent| - agents[ch].taken < CHANNEL_SIZE {
          agents := agents[ch := agents[ch].(sent := agents[ch].sent + [ev])];
        } else {
          assert agents[ch := agents[ch]] == agents;
        }
      }
    }

    method CloseViewers()
      requires Open()
      modifies this`chans, this`viewers
      ensures View() == CloseAll(old(View()))
    {
      while viewers != {}
        invariant viewers <= old(viewers) && |chans| == |old(chans)|
        invariant forall i :: i in viewers ==> i < |chans| && !chans[i].closed
        invariant forall i :: 0 <= i < |chans| ==>
          chans[i] == if i in old(viewers) - viewers then old(chans)[i].(closed := true) else old(chans)[i]
        decreases |viewers|
      {
        var id :| id in viewers;
        viewers := viewers - {id};
        chans := chans[id := chans[id].(closed := true)];
      }
      assert chans == CloseAll(old(View())).chans;
    }

    method SayGoodbye()
      requires Open() && AgentOpen()
      modifies this
      ensures View() == CloseAll(ToAgent(Broadcast(old(View()).(ended := true), Ended), Ended))
    {
      ended := true;
      BroadcastViewers(Ended);
      NotifyAgent(Ended);
      CloseViewers();
    }

    method EndSession()
      requires Valid()
      modifies this
      ensures Valid() && View() == Do(old(View()), End) && ended
    {
      StepKeepsInv(View(), End);
      if !ended {
        SayGoodbye();
      }
    }
  }
}
