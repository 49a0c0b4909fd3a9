/** What the handlers leave alone: which entries a step may redirect, which it
    may put under search, and that the table invariant survives. */
module Frames {
  import opened Base
  import opened Messages
  import opened RouteTable
  import opened NodeState
  import opened LinkBreak
  import opened Routes
  import opened NodeEvents

  // ---------------------------------------------------------------------
  // Tables

  /** What a step that is not about `k` may do to the entry of `k`: drop it,
      keep its next hop and hop count without starting a search, or find out
      that `k` is a neighbour. */
  ghost predicate Calm(t: Table, t': Table, k: Addr) {
    k in t' ==>
      || (k in t && t'[k].route.nextHop == t[k].route.nextHop && t'[k].info.hops == t[k].info.hops
          && (t'[k].info.flag == IN_SEARCH ==> t[k].info.flag == IN_SEARCH))
      || (t'[k].route.nextHop == k && t'[k].info.hops == 1 && t'[k].info.flag != IN_SEARCH)
  }

  ghost predicate UnderSearch(t: Table, k: Addr) { k in t && t[k].info.flag == IN_SEARCH }

  /** `t'` comes from `t` by a step about the entries in `about`: all others
      stay calm, no search starts or counts a request more, and the table
      invariant is kept. */
  ghost predicate Evolves(t: Table, t': Table, about: set<Addr>) {
    && (TableOk(t) ==> TableOk(t'))
    && (forall k :: k !in about ==> Calm(t, t', k))
    && (forall k :: UnderSearch(t', k) ==> UnderSearch(t, k) && t'[k].info.reqCnt <= t[k].info.reqCnt)
  }

  lemma EvolvesTrans(a: Table, b: Table, c: Table, x: set<Addr>, y: set<Addr>, z: set<Addr>)
    requires Evolves(a, b, x) && Evolves(b, c, y) && x <= z && y <= z
    ensures Evolves(a, c, z)
  {
    forall k | k !in z ensures Calm(a, c, k) {
      assert Calm(a, b, k) && Calm(b, c, k);
    }
  }

  lemma EvolvesOk(t: Table, t': Table, about: set<Addr>)
    requires Evolves(t, t', about) && TableOk(t)
    ensures TableOk(t')
  {
  }

  lemma EvolvesSame(t: Table)
    ensures Evolves(t, t, {})
  {
  }

  lemma EntryAt(t: Table, k: Addr)
    requires TableOk(t) && k in t
    ensures EntryOk(k, t[k])
  {
  }

  lemma PurgeEvolves(t: Table, now: Time, bad: Time)
    ensures Evolves(t, Purge(t, now, bad), {})
  {
  }

  lemma InvalidateEvolves(t: Table, dsts: set<Addr>, now: Time, bad: Time)
    ensures Evolves(t, InvalidateAll(t, dsts, now, bad), {})
  {
  }

  /** Writing one entry under its own key, without starting a search. */
  lemma WriteEvolves(t: Table, k: Addr, e: Entry)
    requires e.route.dst == k && e.info.Ok()
    requires e.info.flag == IN_SEARCH ==> UnderSearch(t, k) && e.info.reqCnt <= t[k].info.reqCnt
    ensures Evolves(t, t[k := e], {k})
    ensures Calm(t, t[k := e], k) ==> Evolves(t, t[k := e], {})
  {
  }

  /** `Update` of a copy that keeps next hop, hop count and flag. */
  lemma UpdateEvolves(t: Table, e: Entry)
    requires Distinct(e.info.precursors)
    requires var k := e.route.dst; e.info.flag == IN_SEARCH ==> UnderSearch(t, k) && e.info.reqCnt <= t[k].info.reqCnt
    ensures Evolves(t, Update(t, e), {e.route.dst})
    ensures Calm(t, Update(t, e), e.route.dst) ==> Evolves(t, Update(t, e), {})
  {
    if e.route.dst in t {
      WriteEvolves(t, e.route.dst, e.(info := e.info.Settle()));
    }
  }

  lemma RefreshEvolves(t: Table, addr: Addr, lifetime: Time, now: Time, bad: Time)
    requires TableOk(t)
    ensures Evolves(t, Refresh(t, addr, lifetime, now, bad), {})
  {
    hide Purge, TableOk, Evolves;
    PurgeEvolves(t, now, bad);
    var p := Purge(t, now, bad);
    if IsValid(p, addr) {
      var e :=
        p[addr].(info := p[addr].info.(reqCnt := 0, lifeTime := Max(lifetime, p[addr].info.GetLifeTime(now)) + now));
      EvolvesOk(t, p, {});
      EntryAt(p, addr);
      WriteEvolves(p, addr, e);
      EvolvesTrans(t, p, p[addr := e], {}, {}, {});
    }
  }

  lemma NeighborEvolves(cfg: Config, t: Table, sender: Addr, rcv: Iface, now: Time)
    ensures Evolves(t, RouteToNeighbor(cfg, t, sender, rcv, now), {})
  {
    var p := Purge(t, now, cfg.badLinkLifetime);
    var t' := RouteToNeighbor(cfg, t, sender, rcv, now);
    PurgeEvolves(t, now, cfg.badLinkLifetime);
    if sender in t' && t' == p[sender := t'[sender]] {
      if t' != p {
        WriteEvolves(p, sender, t'[sender]);
        EvolvesTrans(t, p, t', {}, {}, {});
      }
    }
  }

  lemma ReverseEvolves(cfg: Config, p: Table, h: Rreq, hop: U8, src: Addr, rcv: Iface, now: Time)
    requires TableOk(p)
    ensures Evolves(p, ReverseRoute(cfg, p, h, hop, src, rcv, now), {h.origin})
  {
    var t' := ReverseRoute(cfg, p, h, hop, src, rcv, now);
    assert h.origin in p ==> EntryOk(h.origin, p[h.origin]);
    WriteEvolves(p, h.origin, t'[h.origin]);
  }

  lemma RelayEvolves(cfg: Config, p: Table, h: Rreq, src: Addr, rcv: Iface, now: Time)
    requires TableOk(p)
    ensures Evolves(p, RelayRoute(cfg, p, h, src, rcv, now), {})
  {
    var t' := RelayRoute(cfg, p, h, src, rcv, now);
    assert src in p ==> EntryOk(src, p[src]);
    WriteEvolves(p, src, t'[src]);
  }

  lemma ForwardEvolves(p: Table, h: Rrep, hop: U8, sender: Addr, rcv: Iface, now: Time)
    requires TableOk(p)
    ensures Evolves(p, ForwardRoute(p, h, hop, sender, rcv, now), {h.dst})
  {
    WriteEvolves(p, h.dst, ForwardEntry(h, hop, sender, rcv, now));
  }

  lemma PrecursorEvolves(t: Table, k: Addr, id: Addr, now: Time)
    requires TableOk(t)
    ensures var e := AddPrecursor(GetOr(t, k, DefaultEntry(now)), id);
            Evolves(t, Update(t, e), {NO_ADDR}) && TableOk(Update(t, e)) && Distinct(e.info.precursors)
  {
    var e := AddPrecursor(GetOr(t, k, DefaultEntry(now)), id);
    assert k in t ==> EntryOk(k, t[k]);
    UpdateEvolves(t, e);
  }

  /** Writing back a copy taken two writes earlier. */
  lemma StaleUpdate(t: Table, t2: Table, o: Entry)
    requires Evolves(t, t2, {NO_ADDR}) && TableOk(t2) && Distinct(o.info.precursors)
    requires o.info.flag != IN_SEARCH && t2.Keys == t.Keys
    requires o.route.dst in t ==> o.route == t[o.route.dst].route && o.info.hops == t[o.route.dst].info.hops
    ensures Evolves(t, Update(t2, o), {NO_ADDR}) && TableOk(Update(t2, o))
  {
    var t3 := Update(t2, o);
    forall k | k !in {NO_ADDR} ensures Calm(t, t3, k) {
      assert Calm(t, t2, k);
    }
  }
}
