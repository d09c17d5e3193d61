/**
  The hub and the port manager of an edge as the objects the source mutates under their locks. Their contracts
  are stated with the functions that the step system of EdgeRouting is built from.
 */
module HubAndPorts {
  import opened Tunnels
  import opened EdgeRouting

  datatype BindResult = Bound | Refused

  datatype HostChoice = Chosen(host: string) | PlanForbids | SubdomainForbidden | SubdomainTaken | NoneFree

  /** strings.ToLower on ASCII. */
  function Lower(s: string): (r: string)
    ensures |r| == |s|
    ensures forall i :: 0 <= i < |s| && 'A' <= s[i] <= 'Z' ==>
      'a' <= r[i] <= 'z' && r[i] as int - 'a' as int == s[i] as int - 'A' as int
    ensures forall i :: 0 <= i < |s| && !('A' <= s[i] <= 'Z') ==> r[i] == s[i]
  {
    seq(|s|, i requires 0 <= i < |s| => if 'A' <= s[i] <= 'Z' then (s[i] as int + 32) as char else s[i])
  }

  /** What a bind asks for and what the plan allows. */
  datatype HostRequest = HostRequest(
    custom: string, subdomain: string, granted: string, allowCustom: bool, allowReserved: bool)

  const HOST_TRIES := 8

  /** The routing table without the keys of the given tunnels. */
  ghost function Without(routes: map<Route, Tunnel>, left: seq<Tunnel>): map<Route, Tunnel> {
    map r | r in routes && (forall bt :: bt in left && Effective(bt) ==> RouteOf(bt) != r) :: routes[r]
  }

  lemma WithoutSnoc(routes: map<Route, Tunnel>, left: seq<Tunnel>, bt: Tunnel)
    ensures Without(routes, left + [bt]) == HubUnbind(Without(routes, left), bt)
  {
    var a, b := Without(routes, left + [bt]), HubUnbind(Without(routes, left), bt);
    forall r | r in a ensures r in b {
      assert bt in left + [bt];
    }
  }

  class Hub {
    var byHost: map<Route, Tunnel>  // keyed by hostname
    var byPort: map<Route, Tunnel>  // keyed by protocol and port
    var sessions: set<Sid>

    /** Each tunnel is filed under the key computed from its own fields. */
    ghost predicate Valid()
      reads this
    {
      && (forall r :: r in byHost ==> r.HostRoute? && RouteOf(byHost[r]) == r)
      && (forall r :: r in byPort ==> r.PortRoute? && RouteOf(byPort[r]) == r)
    }

    /** Both maps as one routing table. */
    ghost function Routes(): map<Route, Tunnel>
      reads this
    {
      byHost + byPort
    }

    constructor ()
      ensures Valid() && Routes() == map[] && sessions == {}
    {
      byHost, byPort, sessions := map[], map[], {};
    }

    method AddSession(a: Sid)
      modifies this`sessions
      ensures sessions == old(sessions) + {a}
    {
      sessions := sessions + {a};
    }

    /** bindHost and bindPort. */
    method Bind(bt: Tunnel) returns (r: BindResult)
      requires Valid()
      modifies this`byHost, this`byPort
      ensures Valid()
      ensures r == Refused <==> Conflict(old(Routes()), bt)
      ensures Routes() == if r == Refused then old(Routes()) else old(Routes())[RouteOf(bt) := bt]
    {
      var key := RouteOf(bt);
      if bt.HostTunnel? {
        if key in byHost && byHost[key].session != bt.session {
          return Refused;
        }
        byHost := byHost[key := bt];
      } else {
        if key in byPort && byPort[key].session != bt.session {
          return Refused;
        }
        byPort := byPort[key := bt];
      }
      return Bound;
    }

    method Unbind(bt: Tunnel)
      requires Valid()
      modifies this`byHost, this`byPort
      ensures Valid() && Routes() == HubUnbind(old(Routes()), bt)
    {
      if bt.HostTunnel? {
        byHost := byHost - {RouteOf(bt)};
      } else if bt.port != 0 {
        byPort := byPort - {RouteOf(bt)};
      }
    }

    /** removeSession: a loop over what is left in the dead session's map. */
    method RemoveSession(a: Sid, left: seq<Tunnel>)
      requires Valid()
      modifies this
      ensures Valid() && sessions == old(sessions) - {a}
      ensures Routes() == Without(old(Routes()), left)
    {
      sessions := sessions - {a};
      for i := 0 to |left|
        invariant Valid() && sessions == old(sessions) - {a}
        invariant Routes() == Without(old(Routes()), left[..i])
      {
        WithoutSnoc(old(Routes()), left[..i], left[i]);
        assert left[..i + 1] == left[..i] + [left[i]];
        Unbind(left[i]);
      }
      assert left[..|left|] == left;
    }

    /**
      allocateHost, with the random labels it would draw. Only a custom domain is returned without a look at the hub,
      and a random name is refused only when every draw was taken.
     */
    method AllocateHost(q: HostRequest, base: string, draws: seq<string>) returns (c: HostChoice)
      requires Valid() && |draws| == 8
      ensures c.Chosen? ==> c.host != "" && (q.custom == "" ==> HostRoute(c.host) !in Routes())
      ensures q.custom != "" ==> c == if q.allowCustom then Chosen(Lower(q.custom)) else PlanForbids
      ensures q.custom == "" && (q.subdomain != "" || q.granted != "") ==>
        var host := Lower(if q.subdomain != "" then q.subdomain else q.granted) + "." + base;
        && (c == Chosen(host) <==> q.allowReserved && HostRoute(host) !in Routes())
        && (c == SubdomainForbidden <==> !q.allowReserved)
        && (c == SubdomainTaken <==> q.allowReserved && HostRoute(host) in Routes())
      ensures c == NoneFree <==>
        && q.custom == "" && q.subdomain == "" && q.granted == ""
        && forall d :: d in draws ==> HostRoute(d + "." + base) in Routes()
      ensures q.custom == "" && q.subdomain == "" && q.granted == "" && c != NoneFree ==>
        c.Chosen? && exists d :: d in draws && c.host == d + "." + base
    {
      if q.custom != "" {
        return if q.allowCustom then Chosen(Lower(q.custom)) else PlanForbids;
      }
      var sub := q.subdomain;
      if sub == "" && q.granted != "" {
        sub := q.granted;
      }
      if sub != "" {
        if !q.allowReserved {
          return SubdomainForbidden;
        }
        var host := Lower(sub) + "." + base;
        return if HostRoute(host) in byHost then SubdomainTaken else Chosen(host);
      }
      for i := 0 to HOST_TRIES
        invariant forall k :: 0 <= k < i ==> HostRoute(draws[k] + "." + base) in Routes()
      {
        var host := draws[i] + "." + base;
        if HostRoute(host) !in byHost {
          assert draws[i] in draws;
          return Chosen(host);
        }
      }
      return NoneFree;
    }

    /** The sessions added and not removed, and the size of the routing table. */
    method Stats() returns (count: nat, tunnels: nat)
      requires Valid()
      ensures count == |sessions| && tunnels == |Routes()|
    {
      count, tunnels := |sessions|, |byHost| + |byPort|;
      DisjointSize(byHost, byPort);
    }

    /** Every route is listed once: what the presence loop refreshes is exactly what the hub routes. */
    method SnapshotRoutes() returns (out: seq<Route>)
      requires Valid()
      ensures forall r :: r in out <==> r in Routes()
      ensures |out| == |Routes()|
    {
      out := [];
      var hosts := byHost.Keys;
      while hosts != {}
        invariant hosts <= byHost.Keys && |out| + |hosts| == |byHost|
        invariant forall r :: r in out <==> r in byHost.Keys - hosts
        decreases |hosts|
      {
        var h :| h in hosts;
        out := out + [h];
        hosts := hosts - {h};
      }
      var ports := byPort.Keys;
      while ports != {}
        invariant ports <= byPort.Keys && |out| + |ports| == |byHost| + |byPort|
        invariant forall r :: r in out <==> r in byHost || r in byPort.Keys - ports
        decreases |ports|
      {
        var k :| k in ports;
        out := out + [RouteOf(byPort[k])];
        ports := ports - {k};
      }
      DisjointSize(byHost, byPort);
    }
  }

  lemma DisjointSize(a: map<Route, Tunnel>, b: map<Route, Tunnel>)
    requires a.Keys !! b.Keys
    ensures |a + b| == |a| + |b|
  {
    assert (a + b).Keys == a.Keys + b.Keys;
    assert |a.Keys + b.Keys| == |a.Keys| + |b.Keys|;
  }

  class PortManager {
    const lo: int
    const hi: int
    var usedTcp: set<int>
    var usedUdp: set<int>
    var tcp: set<int>  // ports with an open listener
    var udp: set<int>

    ghost function Used(proto: Proto): set<int>
      reads this
    {
      if proto == Udp then usedUdp else usedTcp
    }

    ghost function Open(proto: Proto): set<int>
      reads this
    {
      if proto == Udp then udp else tcp
    }

    constructor (lo: int, hi: int)
      ensures this.lo == lo && this.hi == hi
      ensures forall proto :: Used(proto) == {} && Open(proto) == {}
    {
      this.lo, this.hi := lo, hi;
      usedTcp, usedUdp, tcp, udp := {}, {}, {}, {};
    }

    method MarkUsed(proto: Proto, port: int)
      modifies this
      ensures Used(proto) == old(Used(proto)) + {port}
      ensures forall other :: other != proto ==> Used(other) == old(Used(other))
      ensures forall p :: Open(p) == old(Open(p))
    {
      if proto == Udp {
        usedUdp := usedUdp + {port};
      } else {
        usedTcp := usedTcp + {port};
      }
    }

    /** A specific port, or the lowest free one; an any-port request fails only when the whole range is in use. */
    method Reserve(proto: Proto, want: int) returns (ok: bool, port: int)
      modifies this
      ensures ok == EdgeRouting.Reserve(old(Used(proto)), lo, hi, want).0
      ensures ok ==> port == EdgeRouting.Reserve(old(Used(proto)), lo, hi, want).1
      ensures Used(proto) == if ok then old(Used(proto)) + {port} else old(Used(proto))
      ensures forall other :: other != proto ==> Used(other) == old(Used(other))
      ensures forall p :: Open(p) == old(Open(p))
      ensures want == 0 && !ok ==> forall p :: lo <= p <= hi ==> p in old(Used(proto))
    {
      var used := if proto == Udp then usedUdp else usedTcp;
      if want != 0 {
        if want < lo || want > hi || want in used {
          return false, 0;
        }
        MarkUsed(proto, want);
        return true, want;
      }
      var p := lo;
      while p <= hi
        invariant lo <= p && (lo <= hi ==> p <= hi + 1)
        invariant forall q :: lo <= q < p ==> q in used
        invariant used == Used(proto) == old(Used(proto))
        invariant forall other :: Used(other) == old(Used(other)) && Open(other) == old(Open(other))
        invariant FirstFree(used, lo, hi) == FirstFree(used, p, hi)
        decreases hi + 1 - p
      {
        if p !in used {
          MarkUsed(proto, p);
          return true, p;
        }
        p := p + 1;
      }
      return false, 0;
    }

    /** setTCP and setUDP. */
    method SetListener(proto: Proto, port: int)
      modifies this
      ensures Open(proto) == old(Open(proto)) + {port}
      ensures forall other :: other != proto ==> Open(other) == old(Open(other))
      ensures forall p :: Used(p) == old(Used(p))
    {
      if proto == Udp {
        udp := udp + {port};
      } else {
        tcp := tcp + {port};
      }
    }

    /** Frees the port and closes its listener. */
    method Release(proto: Proto, port: int)
      modifies this
      ensures Used(proto) == old(Used(proto)) - {port} && Open(proto) == old(Open(proto)) - {port}
      ensures forall other :: other != proto ==> Used(other) == old(Used(other)) && Open(other) == old(Open(other))
    {
      if proto == Udp {
        usedUdp := usedUdp - {port};
        udp := udp - {port};
      } else {
        usedTcp := usedTcp - {port};
        tcp := tcp - {port};
      }
    }
  }
}
