/** What a node knows and waits for when it has been attached to its interfaces and started. */
module StartedNodes {
  import opened Base
  import opened RouteTable
  import opened NodeState
  import opened LinkBreak
  import opened NodeEvents

  /** A VALID one-hop route to `k` over the interface for as long as the simulation lasts. */
  predicate Forever(e: Entry, k: Addr, iface: Iface, now: Time) {
    && e.route == Route(k, k, iface.local, iface.dev) && e.info.iface == iface
    && e.info.flag == VALID && e.info.hops == 1 && e.info.lifeTime == now + 0x7FFF_FFFF_FFFF_FFFF
  }

  /** The first interface with that broadcast address. */
  predicate FirstWith(ifaces: seq<Iface>, i: nat, k: Addr) {
    i < |ifaces| && ifaces[i].broadcast == k && forall j :: 0 <= j < i ==> ifaces[j].broadcast != k
  }

  /** It is the broadcast address of an interface, and this is the route to it. */
  ghost predicate Announced(ifaces: seq<Iface>, k: Addr, e: Entry, now: Time) {
    exists i: nat :: FirstWith(ifaces, i, k) && Forever(e, k, ifaces[i], now)
  }

  predicate SomeHas(ifaces: seq<Iface>, k: Addr) { exists i :: 0 <= i < |ifaces| && ifaces[i].broadcast == k }

  lemma {:induction false} BroadcastRoute(t: Table, ifaces: seq<Iface>, now: Time, bad: Time, k: Addr)
    requires Purge(t, now, bad) == t
    ensures var t' := AddBroadcastRoutes(t, ifaces, now, bad);
            && (k in t' <==> k in t || SomeHas(ifaces, k)) && (k in t ==> t'[k] == t[k])
            && (k in t' && k !in t ==> Announced(ifaces, k, t'[k], now))
    decreases |ifaces|
  {
    hide Forever, FirstWith, Purge, Announced;
    if ifaces != [] {
      var t1 := Add(t, LocalRoute(ifaces[0].broadcast, ifaces[0], now), now, bad);
      LocalAdded(t, ifaces[0], now, bad);
      BroadcastRoute(t1, ifaces[1..], now, bad, k);
      SomeMore(ifaces, k);
      if k in t1 && k !in t {
        FirstAnnounced(ifaces, k, t1[k], now);
      } else if k !in t1 && k in AddBroadcastRoutes(t, ifaces, now, bad) {
        LaterAnnounced(ifaces, k, AddBroadcastRoutes(t, ifaces, now, bad)[k], now);
      }
    }
  }

  lemma SomeMore(ifaces: seq<Iface>, k: Addr)
    requires ifaces != []
    ensures SomeHas(ifaces, k) <==> ifaces[0].broadcast == k || SomeHas(ifaces[1..], k)
  {
    assert forall i :: 0 < i < |ifaces| ==> ifaces[i] == ifaces[1..][i - 1];
  }

  lemma FirstAnnounced(ifaces: seq<Iface>, k: Addr, e: Entry, now: Time)
    requires ifaces != [] && ifaces[0].broadcast == k && Forever(e, k, ifaces[0], now)
    ensures Announced(ifaces, k, e, now)
  {
    assert FirstWith(ifaces, 0, k);
  }

  lemma LaterAnnounced(ifaces: seq<Iface>, k: Addr, e: Entry, now: Time)
    requires ifaces != [] && ifaces[0].broadcast != k && Announced(ifaces[1..], k, e, now)
    ensures Announced(ifaces, k, e, now)
  {
    var i: nat :| FirstWith(ifaces[1..], i, k) && Forever(e, k, ifaces[1..][i], now);
    assert forall j :: 0 < j < |ifaces| ==> ifaces[j] == ifaces[1..][j - 1];
    assert FirstWith(ifaces, i + 1, k);
  }

  lemma LocalAdded(t: Table, iface: Iface, now: Time, bad: Time)
    requires Purge(t, now, bad) == t
    ensures var t' := Add(t, LocalRoute(iface.broadcast, iface, now), now, bad);
            && t'.Keys == t.Keys + {iface.broadcast} && (forall k :: k in t ==> t'[k] == t[k])
            && (iface.broadcast !in t ==> Forever(t'[iface.broadcast], iface.broadcast, iface, now))
            && Purge(t', now, bad) == t'
  {
  }

  /** A started node has exactly the loopback route and one route to each broadcast
      address, over the first interface that has it; its counters are zero, it
      looks for nobody, and with hellos enabled the first one and the first look
      at the neighbours are due. */
  lemma StartedExactly(cfg: Config, ifaces: seq<Iface>, lo: Device, jitter: Time, now: Time)
    ensures var s := Started(cfg, ifaces, lo, jitter, now);
            && (forall k :: k in s.table <==> k == LOOPBACK || SomeHas(ifaces, k))
            && Forever(s.table[LOOPBACK], LOOPBACK, Iface(LOOPBACK, 0x7FFF_FFFF, false, lo), now)
            && (forall k :: k in s.table && k != LOOPBACK ==> Announced(ifaces, k, s.table[k], now))
            && s.queue == [] && s.ids == [] && s.neighbors == [] && s.log == Log([], [], [])
            && s.ctr == Counters(0, 0, 0) && s.search == Search(map[], multiset{}, 0, now + SECOND, false)
            && s.hello == Hello(0, if cfg.enableHello then Some(now + jitter) else None)
            && s.neighborTimer == (if cfg.enableHello then Some(now + cfg.neighborDelay) else None)
  {
    hide AddBroadcastRoutes, Announced, SomeHas;
    var bad := cfg.badLinkLifetime;
    var first := LocalRoute(LOOPBACK, LoopbackIface(lo), now);
    var t := Add(map[], first, now, bad);
    assert Purge(map[], now, bad) == map[];
    assert t == map[LOOPBACK := first];
    assert Purge(t, now, bad) == t;
    var s := Started(cfg, ifaces, lo, jitter, now);
    forall k ensures (k in s.table <==> k == LOOPBACK || SomeHas(ifaces, k))
                     && (k in s.table && k != LOOPBACK ==> Announced(ifaces, k, s.table[k], now)) {
      BroadcastRoute(t, ifaces, now, bad, k);
    }
    BroadcastRoute(t, ifaces, now, bad, LOOPBACK);
  }
}
