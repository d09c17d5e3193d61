/**
  Cross-edge forwarding of one public connection. The registry, the edge addresses and the network answer each
  question as they like at the moment it is asked, so every answer is an input: nothing is assumed about stale
  entries or about changes between two lookups.
 */
module Forwarding {
  import opened Wrappers

  type EdgeId = string

  datatype Lookup = Failed | Missing | Found(edge: EdgeId)

  /** What happens when an edge is dialled: no advertised address, no connection, no header written, or success. */
  datatype Dial = NoAddress | Unreachable | HeaderLost | Connected

  /** What becomes of a request for a host that the local hub routes. */
  datatype LocalServe = BadPassword | ServedKeepAlive | ServedClose

  /** The answers one request will get. */
  datatype Answers = Answers(
    inHub: bool, reserved: bool, proxyKeepAlive: bool, local: LocalServe,
    first: Lookup, firstDial: Dial, second: Lookup, secondDial: Dial, replayed: bool)

  /** Redirected, closed, answered 404 or 502, or welded to a peer edge. */
  datatype Outcome = Closed | NotFound | BadGateway | HandedTo(edge: EdgeId)

  const MAX_AUTH_FAILURES := 10

  /** Network dials made for one attempt at `edge`. */
  function Dialled(edge: EdgeId, d: Dial): seq<EdgeId> {
    if d == NoAddress then [] else [edge]
  }

  predicate Elsewhere(me: EdgeId, l: Lookup) {
    l.Found? && l.edge != me
  }

  /** The retry has a better target than the peer that just failed. */
  predicate RetryTarget(me: EdgeId, tried: EdgeId, l: Lookup) {
    Elsewhere(me, l) && l.edge != tried
  }

  /** The edge that ends up connected when `edge` is dialled first. */
  function Peer(me: EdgeId, edge: EdgeId, a: Answers): Option<EdgeId> {
    if a.firstDial == Connected then Some(edge)
    else if RetryTarget(me, edge, a.second) && a.secondDial == Connected then Some(a.second.edge)
    else None
  }

  /** A connected peer gets the connection if the request could be replayed to it; otherwise the client gets 502. */
  function Handed(peer: Option<EdgeId>, replayed: bool): Outcome {
    if peer.Some? && replayed then HandedTo(peer.value) else BadGateway
  }

  /** dialForwardWithRetry: the owner named by the first lookup, then at most one other edge. */
  method DialWithRetry(me: EdgeId, edge: EdgeId, a: Answers) returns (peer: Option<EdgeId>, dials: seq<EdgeId>)
    requires edge != me
    ensures |dials| <= 2 && me !in dials
    ensures |dials| == 2 ==> dials[0] != dials[1]
    ensures peer == Peer(me, edge, a)
    ensures edge in dials <==> a.firstDial != NoAddress
    ensures forall e :: e in dials && e != edge ==>
      a.firstDial != Connected && RetryTarget(me, edge, a.second) && e == a.second.edge && a.secondDial != NoAddress
    ensures peer.Some? ==> dials != [] && dials[|dials| - 1] == peer.value
    // the first dial decides when it connects
    ensures a.firstDial == Connected ==> peer == Some(edge) && dials == [edge]
    // otherwise the fresh lookup is asked, and another edge that it names is dialled
    ensures a.firstDial != Connected && a.second.Found? && a.second.edge != me && a.second.edge != edge ==>
      && (a.secondDial != NoAddress ==> a.second.edge in dials)
      && (a.secondDial == Connected ==> peer == Some(a.second.edge))
      && (a.secondDial != Connected ==> peer == None)
    ensures a.firstDial != Connected && !(a.second.Found? && a.second.edge != me && a.second.edge != edge) ==>
      peer == None && |dials| <= 1
  {
    dials := Dialled(edge, a.firstDial);
    if a.firstDial == Connected {
      return Some(edge), dials;
    }
    if a.second == Failed || a.second == Missing || a.second.edge == me || a.second.edge == edge {
      return None, dials;
    }
    dials := dials + Dialled(a.second.edge, a.secondDial);
    if a.secondDial == Connected {
      return Some(a.second.edge), dials;
    }
    return None, dials;
  }

  /** The registry names another edge. */
  predicate Forwardable(me: EdgeId, a: Answers) {
    a.first.Found? && a.first.edge != me
  }

  /** The retry connects: the fresh lookup names a third edge, and dialling it succeeds. */
  predicate Retried(me: EdgeId, a: Answers) {
    && a.first.Found? && a.second.Found? && a.second.edge != me && a.second.edge != a.first.edge
    && a.secondDial == Connected
  }

  /** The retry dials: the fresh lookup names a third edge, and that edge has an address. */
  predicate Redials(me: EdgeId, a: Answers) {
    && a.first.Found? && a.second.Found? && a.second.edge != me && a.second.edge != a.first.edge
    && a.firstDial != Connected && a.secondDial != NoAddress
  }

  /** forwardHTTP; `None` means nothing to forward to, and the caller answers 404. */
  method ForwardHttp(me: EdgeId, a: Answers) returns (taken: Option<Outcome>, dials: seq<EdgeId>)
    ensures taken == None <==> !Elsewhere(me, a.first)
    ensures taken == None ==> dials == []
    ensures |dials| <= 2 && me !in dials && (|dials| == 2 ==> dials[0] != dials[1])
    ensures taken.Some? ==> taken.value == Handed(Peer(me, a.first.edge, a), a.replayed)
    ensures taken.Some? && taken.value.HandedTo? ==> dials != [] && taken.value.edge == dials[|dials| - 1]
    // the dials, and the peer that takes over, from the answers alone
    ensures Forwardable(me, a) ==> (a.first.edge in dials <==> a.firstDial != NoAddress)
    ensures Forwardable(me, a) ==> (Redials(me, a) <==> exists e :: e in dials && e != a.first.edge)
    ensures Forwardable(me, a) && Redials(me, a) ==> a.second.edge in dials
    ensures Forwardable(me, a) && a.replayed && a.firstDial == Connected ==>
      taken == Some(HandedTo(a.first.edge)) && dials == [a.first.edge]
    ensures Forwardable(me, a) && a.replayed && a.firstDial != Connected && Retried(me, a) ==>
      taken == Some(HandedTo(a.second.edge))
    ensures Forwardable(me, a) && !(a.replayed && (a.firstDial == Connected || Retried(me, a))) ==>
      taken == Some(BadGateway)
  {
    if a.first == Failed || a.first == Missing || a.first.edge == me {
      return None, [];
    }
    var peer;
    peer, dials := DialWithRetry(me, a.first.edge, a);
    if peer == None || !a.replayed {
      return Some(BadGateway), dials;
    }
    return Some(HandedTo(peer.value)), dials;
  }

  /** Wrong passwords so far on the connection. */
  function Failures(requests: seq<Answers>): nat {
    if requests == [] then 0
    else
      var a := requests[|requests| - 1];
      Failures(requests[..|requests| - 1]) +
      (if a.inHub && a.local == BadPassword then 1 else 0)
  }

  /** Request `i` is answered here with the connection left open. */
  predicate StaysOpen(plain: bool, requests: seq<Answers>, i: nat)
    requires i < |requests|
  {
    var a := requests[i];
    && !(plain && a.reserved)
    && if !a.inHub then a.reserved && a.proxyKeepAlive
       else if a.local == BadPassword then Failures(requests[..i + 1]) < MAX_AUTH_FAILURES
       else a.local == ServedKeepAlive
  }

  /** Request `i` is read off the connection, and nothing here serves its host. */
  ghost predicate Homeless(plain: bool, requests: seq<Answers>, i: nat) {
    && i < |requests| && !requests[i].inHub && !requests[i].reserved
    && forall j :: 0 <= j < i ==> StaysOpen(plain, requests, j)
  }

  /** What becomes of the connection at a request that nothing here serves. */
  function NotServedHere(me: EdgeId, mayForward: bool, a: Answers): Outcome {
    if mayForward && Elsewhere(me, a.first) then Handed(Peer(me, a.first.edge, a), a.replayed) else NotFound
  }

  /** What each kind of request does to the connection. */
  lemma RequestFates(plain: bool, requests: seq<Answers>, i: nat)
    requires i < |requests|
    ensures var a := requests[i];
      && (plain && a.reserved ==> !StaysOpen(plain, requests, i))
      && (!(plain && a.reserved) && !a.inHub && a.reserved ==> (StaysOpen(plain, requests, i) <==> a.proxyKeepAlive))
      && (!a.inHub && !a.reserved ==> !StaysOpen(plain, requests, i))
      && (!(plain && a.reserved) && a.inHub && a.local == ServedKeepAlive ==> StaysOpen(plain, requests, i))
      && (a.inHub && a.local == ServedClose ==> !StaysOpen(plain, requests, i))
      && (!(a.inHub && a.local == BadPassword) ==> Failures(requests[..i + 1]) == Failures(requests[..i]))
  {
    assert requests[..i + 1][..i] == requests[..i];
  }

  /** The tenth wrong password closes the connection, the ninth does not. */
  lemma TenthFailureCloses(plain: bool, requests: seq<Answers>, i: nat)
    requires i < |requests| && requests[i].inHub && requests[i].local == BadPassword && !(plain && requests[i].reserved)
    ensures StaysOpen(plain, requests, i) <==> Failures(requests[..i + 1]) <= 9
    ensures Failures(requests[..i + 1]) == Failures(requests[..i]) + 1
  {
    assert requests[..i + 1][..i] == requests[..i];
  }

  /**
    serveHTTPConn: all requests of one connection, in order, until the connection ends. The first request that nothing
    here serves decides: it is handed over, answered 502 or answered 404; without one the connection just closes.
   */
  method ServeConn(me: EdgeId, mesh: bool, forwarded: bool, plain: bool, requests: seq<Answers>)
    returns (outcome: Outcome, dials: seq<EdgeId>)
    ensures |dials| <= 2 && me !in dials && (|dials| == 2 ==> dials[0] != dials[1])
    ensures forwarded || !mesh ==> dials == [] && !outcome.HandedTo?
    ensures outcome.HandedTo? ==> dials != [] && outcome.edge == dials[|dials| - 1]
    ensures dials != [] ==> outcome.HandedTo? || outcome == BadGateway
    ensures forall i: nat :: Homeless(plain, requests, i) ==>
      outcome == NotServedHere(me, mesh && !forwarded, requests[i])
    ensures (forall i: nat :: !Homeless(plain, requests, i)) ==> outcome == Closed
    // what a homeless request leads to, from its answers alone
    ensures mesh && !forwarded ==> forall i: nat :: Homeless(plain, requests, i) ==> var a := requests[i];
      && (!Forwardable(me, a) ==> outcome == NotFound)
      && (Forwardable(me, a) && a.replayed && a.firstDial == Connected ==> outcome == HandedTo(a.first.edge))
      && (Forwardable(me, a) && a.replayed && a.firstDial != Connected && Retried(me, a) ==>
            outcome == HandedTo(a.second.edge))
      && (Forwardable(me, a) && !(a.replayed && (a.firstDial == Connected || Retried(me, a))) ==>
            outcome == BadGateway)
      && (Forwardable(me, a) ==> (a.first.edge in dials <==> a.firstDial != NoAddress))
      && (Forwardable(me, a) && Redials(me, a) ==> a.second.edge in dials)
    ensures !mesh || forwarded ==> forall i: nat :: Homeless(plain, requests, i) ==> outcome == NotFound
  {
    dials := [];
    var authFailures := 0;
    for i := 0 to |requests|
      invariant dials == [] && authFailures == Failures(requests[..i])
      invariant forall j :: 0 <= j < i ==> StaysOpen(plain, requests, j)
      invariant forall j :: 0 <= j < i ==> !Homeless(plain, requests, j)
    {
      assert requests[..i + 1][..i] == requests[..i];
      var a := requests[i];
      if plain && a.reserved {
        assert !StaysOpen(plain, requests, i);
        return Closed, dials;
      }
      if !a.inHub {
        if a.reserved {
          if a.proxyKeepAlive {
            continue;
          }
          assert !StaysOpen(plain, requests, i);
          return Closed, dials;
        }
        assert Homeless(plain, requests, i) && !StaysOpen(plain, requests, i);
        if mesh && !forwarded {
          var taken;
          taken, dials := ForwardHttp(me, a);
          if taken.Some? {
            return taken.value, dials;
          }
        }
        return NotFound, dials;
      }
      if a.local == BadPassword {
        authFailures := authFailures + 1;
        if authFailures >= MAX_AUTH_FAILURES {
          assert !StaysOpen(plain, requests, i);
          return Closed, dials;
        }
        continue;
      }
      if a.local == ServedClose {
        assert !StaysOpen(plain, requests, i);
        return Closed, dials;
      }
    }
    return Closed, dials;
  }

  /** serveForward: an inter-edge connection is served only with the shared token, and as a forwarded one. */
  method ServeForward(me: EdgeId, token: string, secret: string, http: bool, plain: bool, requests: seq<Answers>)
    returns (outcome: Outcome, dials: seq<EdgeId>)
    ensures dials == [] && !outcome.HandedTo?
    ensures secret == "" || token != secret || !http ==> outcome == Closed
    ensures secret != "" && token == secret && http ==>
      outcome == if (exists i: nat :: Homeless(plain, requests, i)) then NotFound else Closed
  {
    if secret == "" || token != secret {
      return Closed, [];
    }
    if !http {
      return Closed, [];
    }
    outcome, dials := ServeConn(me, true, true, plain, requests);
  }

  /**
    A public connection followed through the mesh: where it lands, and every dial made on its behalf at any edge.
    Whatever the registry says, it crosses at most one hop, to an edge other than its own, and no edge it is
    handed to dials again.
   */
  method FollowPublicConn(me: EdgeId, mesh: bool, plain: bool, requests: seq<Answers>,
                          token: string, secret: string, peerRequests: seq<Answers>)
    returns (path: seq<EdgeId>, dials: seq<EdgeId>)
    ensures 1 <= |path| <= 2 && path[0] == me && (|path| == 2 ==> path[1] != me && path[1] in dials)
    ensures |dials| <= 2 && me !in dials && (|dials| == 2 ==> dials[0] != dials[1])
    ensures !mesh ==> path == [me] && dials == []
    ensures mesh ==> forall i: nat :: Homeless(plain, requests, i) ==> var a := requests[i];
      && (Forwardable(me, a) && a.replayed && a.firstDial == Connected ==> path == [me, a.first.edge])
      && (Forwardable(me, a) && a.replayed && a.firstDial != Connected && Retried(me, a) ==>
            path == [me, a.second.edge])
  {
    var outcome;
    outcome, dials := ServeConn(me, mesh, false, plain, requests);
    path := [me];
    ghost var handed := outcome;
    while outcome.HandedTo?
      invariant 1 <= |path| && path[0] == me && |path| <= 2
      invariant |path| == 2 ==> path[1] != me && path[1] in dials && !outcome.HandedTo?
      invariant |dials| <= 2 && me !in dials && (|dials| == 2 ==> dials[0] != dials[1])
      invariant outcome.HandedTo? ==> |path| == 1 && outcome.edge in dials && outcome == handed
      invariant |path| == 2 ==> handed == HandedTo(path[1])
      invariant |path| == 1 ==> outcome == handed
      invariant !mesh ==> !outcome.HandedTo? && path == [me] && dials == []
      decreases 2 - |path|
    {
      var edge := outcome.edge;
      var more;
      path := path + [edge];
      outcome, more := ServeForward(edge, token, secret, true, plain, peerRequests);
      dials := dials + more;
    }
  }
}
