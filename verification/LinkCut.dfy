/** What a broken link and a received RERR do to the routes, and what the RERR
    that results says (section 6.11 of RFC 3561). */
module LinkCut {
  import opened Base
  import opened Messages
  import opened RouteTable
  import opened NodeState
  import opened LinkBreak

  // ---------------------------------------------------------------------
  // Routes that use a link

  predicate Uses(e: Entry, a: Addr) { e.route.nextHop == a || e.route.dst == a }

  /** No VALID route goes to `a` or through it. */
  ghost predicate CutOff(t: Table, a: Addr) {
    forall k :: IsValid(t, k) ==> !Uses(t[k], a)
  }

  /** Validity is only lost: every VALID route was VALID before, over the same
      next hop, and no entry appears. */
  ghost predicate OnlyLoses(t: Table, t': Table) {
    && t'.Keys <= t.Keys
    && (forall k :: k in t' ==> t'[k].route == t[k].route)
    && (forall k :: IsValid(t', k) ==> IsValid(t, k) && t'[k] == t[k])
  }

  lemma OnlyLosesTrans(a: Table, b: Table, c: Table)
    requires OnlyLoses(a, b) && OnlyLoses(b, c)
    ensures OnlyLoses(a, c)
  {
  }

  lemma CutOffStays(t: Table, t': Table, a: Addr)
    requires CutOff(t, a) && OnlyLoses(t, t')
    ensures CutOff(t', a)
  {
  }

  /** Every live entry of a freshly purged table outlasts the instant of the purge. */
  ghost predicate Current(t: Table, now: Time) {
    forall k :: k in t ==> t[k].info.flag == IN_SEARCH || t[k].info.lifeTime >= now
  }

  lemma PurgeIsCurrent(t: Table, now: Time, bad: Time)
    requires bad >= 0
    ensures Current(Purge(t, now, bad), now) && OnlyLoses(t, Purge(t, now, bad))
  {
  }

  lemma CurrentPurge(t: Table, now: Time, bad: Time)
    requires Current(t, now)
    ensures Purge(t, now, bad) == t
  {
  }

  // ---------------------------------------------------------------------
  // One broken link

  lemma SendRerrTable(s: Node, rerr: Rerr, precursors: seq<Addr>)
    ensures var s' := SendRerrMessage(s, rerr, precursors);
            s'.table == s.table && s'.cfg == s.cfg && s'.neighbors == s.neighbors
  {
    hide PrecursorIfaces, OnEveryInterface;
  }

  lemma BreakLinkTable(s: Node, nextHop: Addr, now: Time)
    ensures var s' := BreakLink(s, nextHop, now); var p := s.Purged(now);
            && s'.cfg == s.cfg && s'.neighbors == s.neighbors
            && s'.table == if nextHop in p
                           then InvalidateAll(p, LostDestinations(p, nextHop).Keys, now, s.cfg.badLinkLifetime) else p
  {
    hide SendRerrMessage, InvalidateAll, Purge, LostDestinations, LostPrecursors;
    var p := s.Purged(now);
    if nextHop in p {
      SendRerrTable(s.(table := p), Rerr(0, 0, LostDestinations(p, nextHop)), LostPrecursors(p, nextHop));
    }
  }

  /** The callback for a neighbour with an entry makes exactly the VALID routes
      to it or through it INVALID, for DeletePeriod, and touches nothing else. */
  lemma BreakLinkExactly(s: Node, nextHop: Addr, now: Time)
    requires TableOk(s.table) && s.cfg.badLinkLifetime >= 0 && nextHop in s.Purged(now)
    ensures var p := s.Purged(now); var t := BreakLink(s, nextHop, now).table;
            && t.Keys == p.Keys
            && forall k :: k in p ==>
                 t[k] == if IsValid(p, k) && Uses(p[k], nextHop)
                         then p[k].(info := p[k].info.(
                                      flag := INVALID, reqCnt := 0, lifeTime := s.cfg.badLinkLifetime + now))
                         else p[k]
  {
    hide BreakLink, Purge;
    BreakLinkTable(s, nextHop, now);
    PurgeEntries(s.table, now, s.cfg.badLinkLifetime);
  }

  lemma PurgeEntries(t: Table, now: Time, bad: Time)
    requires TableOk(t)
    ensures forall k :: k in Purge(t, now, bad) ==> Purge(t, now, bad)[k].route.dst == k
  {
  }

  /** No VALID route uses the lost neighbour afterwards exactly when it has an
      entry of its own, or no VALID route used it in the first place: without an
      entry the callback returns at once. */
  lemma BreakLinkCutsExactly(s: Node, nextHop: Addr, now: Time)
    requires TableOk(s.table) && s.cfg.badLinkLifetime >= 0
    ensures CutOff(BreakLink(s, nextHop, now).table, nextHop) <==>
            nextHop in s.Purged(now) || CutOff(s.Purged(now), nextHop)
  {
    hide BreakLink, Purge;
    BreakLinkTable(s, nextHop, now);
    if nextHop in s.Purged(now) {
      BreakLinkExactly(s, nextHop, now);
    }
  }

  lemma BreakLinkOnlyLoses(s: Node, nextHop: Addr, now: Time)
    requires s.cfg.badLinkLifetime >= 0
    ensures var s' := BreakLink(s, nextHop, now);
            && OnlyLoses(s.table, s'.table) && Current(s'.table, now) && s'.table.Keys == s.Purged(now).Keys
            && s'.cfg == s.cfg && s'.neighbors == s.neighbors
            && (TableOk(s.table) ==> TableOk(s'.table))
  {
    hide BreakLink, LostDestinations, Purge, InvalidateAll, OnlyLoses, Current, TableOk;
    BreakLinkTable(s, nextHop, now);
    PurgeIsCurrent(s.table, now, s.cfg.badLinkLifetime);
    PurgeOk(s.table, now, s.cfg.badLinkLifetime);
    var p := s.Purged(now);
    if nextHop in p {
      var dsts := LostDestinations(p, nextHop).Keys;
      InvalidateLoses(p, dsts, now, s.cfg.badLinkLifetime);
      OnlyLosesTrans(s.table, p, InvalidateAll(p, dsts, now, s.cfg.badLinkLifetime));
    }
  }

  lemma PurgeOk(t: Table, now: Time, bad: Time)
    ensures TableOk(t) ==> TableOk(Purge(t, now, bad))
  {
  }

  lemma InvalidateLoses(p: Table, dsts: set<Addr>, now: Time, bad: Time)
    requires Current(p, now) && bad >= 0
    ensures var t := InvalidateAll(p, dsts, now, bad);
            OnlyLoses(p, t) && Current(t, now) && t.Keys == p.Keys && (TableOk(p) ==> TableOk(t))
  {
  }

  // ---------------------------------------------------------------------
  // All broken links

  lemma {:induction false} BreakAllCuts(s: Node, lost: seq<Neighbor>, now: Time)
    requires TableOk(s.table) && s.cfg.badLinkLifetime >= 0
    ensures var s' := BreakAll(s, lost, now);
            && OnlyLoses(s.table, s'.table)
            && (forall i :: 0 <= i < |lost| && lost[i].addr in s.Purged(now) ==> CutOff(s'.table, lost[i].addr))
    decreases |lost|
  {
    hide BreakLink, Purge, TableOk, CutOff, OnlyLoses, Current;
    if lost == [] {
      OnlyLosesSelf(s.table);
    } else {
      var s1 := BreakLink(s, lost[0].addr, now);
      BreakLinkOnlyLoses(s, lost[0].addr, now);
      BreakLinkCutsExactly(s, lost[0].addr, now);
      CurrentPurge(s1.table, now, s.cfg.badLinkLifetime);
      BreakAllCuts(s1, lost[1..], now);
      var t' := BreakAll(s, lost, now).table;
      OnlyLosesTrans(s.table, s1.table, t');
      forall i | 0 <= i < |lost| && lost[i].addr in s.Purged(now) ensures CutOff(t', lost[i].addr) {
        if i == 0 {
          CutOffStays(s1.table, t', lost[0].addr);
        } else {
          assert lost[i] == lost[1..][i - 1];
        }
      }
    }
  }

  lemma OnlyLosesSelf(t: Table)
    ensures OnlyLoses(t, t)
  {
  }

  /** After Neighbors::Purge exactly the closed neighbours are gone, no route has
      become VALID, and no VALID route goes to or through a removed neighbour
      that had an entry. */
  lemma PurgeNeighborsCuts(s: Node, now: Time)
    requires TableOk(s.table) && s.cfg.badLinkLifetime >= 0
    ensures var s' := PurgeNeighbors(s, now);
            && OnlyLoses(s.table, s'.table)
            && (forall nb :: nb in s'.neighbors <==> nb in s.neighbors && !Closed(nb, now))
            && (forall nb :: nb in s.neighbors && Closed(nb, now) && nb.addr in s.Purged(now)
                  ==> CutOff(s'.table, nb.addr))
  {
    hide BreakAll, Filter, Purge, CutOff, OnlyLoses, TableOk;
    OnlyLosesSelf(s.table);
    var lost := Filter(IsClosed(now), s.neighbors);
    FilterMembers(IsClosed(now), s.neighbors);
    FilterMembers(IsOpen(now), s.neighbors);
    BreakAllCuts(s, lost, now);
    forall nb | nb in s.neighbors && Closed(nb, now) && nb.addr in s.Purged(now)
      ensures CutOff(PurgeNeighbors(s, now).table, nb.addr)
    {
      var i :| 0 <= i < |lost| && lost[i] == nb;
    }
  }

  /** A transmission error takes the neighbours that it hits out of the list at
      once, and no VALID route uses one of them that had an entry. */
  lemma TxErrorCuts(s: Node, hit: set<Addr>, now: Time)
    requires TableOk(s.table) && s.cfg.badLinkLifetime >= 0
    ensures var s' := ProcessTxError(s, hit, now);
            && (forall nb :: nb in s'.neighbors <==> nb in s.neighbors && !Closed(nb, now) && nb.addr !in hit)
            && (forall nb :: nb in s.neighbors && nb.addr in hit && nb.addr in s.Purged(now) ==>
                  CutOff(s'.table, nb.addr))
  {
    hide PurgeNeighbors, Purge, CutOff, OnlyLoses, TableOk;
    var s1 := s.(neighbors := CloseNeighbors(s.neighbors, hit));
    PurgeNeighborsCuts(s1, now);
    forall nb | nb in s.neighbors ensures nb.(close := nb.close || nb.addr in hit) in s1.neighbors {
      var i :| 0 <= i < |s.neighbors| && s.neighbors[i] == nb;
      assert s1.neighbors[i] == nb.(close := nb.close || nb.addr in hit);
    }
    forall nb | nb in s1.neighbors ensures nb.close || (nb in s.neighbors && nb.addr !in hit) {
      var i :| 0 <= i < |s1.neighbors| && s1.neighbors[i] == nb;
      assert nb == s.neighbors[i].(close := s.neighbors[i].close || s.neighbors[i].addr in hit);
    }
  }

  // ---------------------------------------------------------------------
  // What the RERR says and who gets it

  /** A broken link's RERR lists exactly the neighbour and the destinations
      behind it, each with the number in the table, and goes to exactly their
      precursors, each once. */
  lemma LostExactly(p: Table, nextHop: Addr)
    requires TableOk(p) && nextHop in p
    ensures var lost := LostDestinations(p, nextHop);
            && (forall k :: k in lost <==> k in p && Uses(p[k], nextHop))
            && (forall k :: k in lost ==> lost[k] == p[k].info.seqNo)
    ensures var prec := LostPrecursors(p, nextHop);
            && Distinct(prec)
            && (forall x :: x in prec <==> PrecursorOfLost(p, nextHop, x))
  {
    hide LostPrecursors;
    assert forall k :: k in p ==> p[k].route.dst == k;
    LostPrecursorsAre(p, nextHop);
  }

  /** `x` is a precursor of an entry that leads to or through the lost neighbour. */
  ghost predicate PrecursorOfLost(p: Table, nextHop: Addr, x: Addr) {
    exists k :: k in p && Uses(p[k], nextHop) && x in p[k].info.precursors
  }

  lemma LostPrecursorsAre(p: Table, nextHop: Addr)
    requires TableOk(p) && nextHop in p
    ensures Distinct(LostPrecursors(p, nextHop))
    ensures forall x :: x in LostPrecursors(p, nextHop) <==> PrecursorOfLost(p, nextHop, x)
  {
    hide TableOk, SortedKeys, CollectPrecursors, PushAllNew, PrecursorOfLost, Distinct;
    var via := RoutedVia(p, nextHop);
    var keys := SortedKeys(via.Keys);
    NothingDistinct();
    CollectFrom(p, keys, PushAllNew([], p[nextHop].info.precursors));
    forall x ensures x in LostPrecursors(p, nextHop) <==> PrecursorOfLost(p, nextHop, x) {
      LostPrecursorIs(p, nextHop, keys, x);
    }
  }

  lemma NothingDistinct()
    ensures Distinct<Addr>([])
  {
  }

  lemma LostPrecursorIs(p: Table, nextHop: Addr, keys: seq<Addr>, x: Addr)
    requires TableOk(p) && nextHop in p && forall k :: k in keys <==> k in RoutedVia(p, nextHop)
    ensures PrecursorOfLost(p, nextHop, x) <==>
            x in p[nextHop].info.precursors || exists k :: k in keys && k in p && x in p[k].info.precursors
  {
    assert forall k :: k in p ==> EntryOk(k, p[k]);
    if x in p[nextHop].info.precursors {
      assert Uses(p[nextHop], nextHop);
    }
    if k :| k in keys && k in p && x in p[k].info.precursors {
      assert Uses(p[k], nextHop);
    }
    if k :| k in p && Uses(p[k], nextHop) && x in p[k].info.precursors {
      assert k == nextHop || k in keys;
    }
  }

  lemma CollectFrom(p: Table, keys: seq<Addr>, prec: seq<Addr>)
    requires Distinct(prec)
    ensures var r := CollectPrecursors(p, keys, prec);
            && Distinct(r)
            && forall x :: x in r <==> x in prec || exists k :: k in keys && k in p && x in p[k].info.precursors
  {
  }

  /** A valid route to one of the precursors goes over `f`. */
  ghost predicate Reaches(p: Table, precursors: seq<Addr>, f: Iface) {
    exists j :: 0 <= j < |precursors| && IsValid(p, precursors[j]) && p[precursors[j]].info.iface == f
  }

  /** One of the sends is a broadcast on `f`. */
  ghost predicate BroadcastOn(sent: seq<Sent>, f: Iface) {
    exists i :: 0 <= i < |sent| && sent[i].iface == f && sent[i].to == f.BroadcastTarget()
  }

  /** What SendRerrMessage sends. */
  function RerrSends(s: Node, rerr: Rerr, precursors: seq<Addr>): seq<Sent> {
    if precursors == [] || s.ctr.rerrCount == s.cfg.rerrRateLimit then []
    else if |precursors| == 1 then
      if IsValid(s.table, precursors[0])
      then [Sent(RERR(rerr), 1, s.table[precursors[0]].info.iface, precursors[0])] else []
    else OnEveryInterface(PrecursorIfaces(s.table, precursors, []), RERR(rerr), 1)
  }

  lemma SendRerrSends(s: Node, rerr: Rerr, precursors: seq<Addr>)
    ensures SendRerrMessage(s, rerr, precursors).log.sent == s.log.sent + RerrSends(s, rerr, precursors)
  {
    hide PrecursorIfaces, OnEveryInterface;
  }

  /** Every send carries the message with TTL 1.  Below the rate limit a single
      precursor gets one unicast when its route is valid; several get exactly one
      broadcast on each interface over which a valid route to one of them goes,
      and on no other. */
  lemma RerrGoesTo(s: Node, rerr: Rerr, precursors: seq<Addr>)
    ensures var out := RerrSends(s, rerr, precursors);
            && (forall i :: 0 <= i < |out| ==> out[i].msg == RERR(rerr) && out[i].ttl == 1)
            && (s.ctr.rerrCount != s.cfg.rerrRateLimit && |precursors| > 1 ==>
                  forall f :: BroadcastOn(out, f) <==> Reaches(s.table, precursors, f))
            && (forall i, j :: 0 <= i < j < |out| ==> out[i].iface != out[j].iface)
  {
    hide PrecursorIfaces;
    NothingDistinctIface();
    PrecursorIfacesDistinct(s.table, precursors, []);
    var out := RerrSends(s, rerr, precursors);
    if s.ctr.rerrCount != s.cfg.rerrRateLimit && |precursors| > 1 {
      var ifaces := PrecursorIfaces(s.table, precursors, []);
      PrecursorIfacesAre(s.table, precursors, []);
      forall f ensures BroadcastOn(out, f) <==> Reaches(s.table, precursors, f) {
        if f in ifaces {
          var i :| 0 <= i < |ifaces| && ifaces[i] == f;
          assert out[i].iface == f;
        }
        if BroadcastOn(out, f) {
          var i :| 0 <= i < |out| && out[i].iface == f && out[i].to == f.BroadcastTarget();
          assert ifaces[i] == f;
        }
      }
    }
  }

  /** What breaking a link sends: nothing without an entry for the neighbour or
      when the one-byte count of lost destinations reads zero, else the RERR
      about exactly them, to exactly their precursors (`LostExactly`). */
  lemma BreakLinkReports(s: Node, nextHop: Addr, now: Time)
    ensures var p := s.Purged(now);
            BreakLink(s, nextHop, now).log.sent == s.log.sent +
              if nextHop in p && |LostDestinations(p, nextHop)| % 0x100 != 0
              then RerrSends(s.(table := p), Rerr(0, 0, LostDestinations(p, nextHop)), LostPrecursors(p, nextHop))
              else []
    ensures nextHop in s.Purged(now) ==> LostDestinations(s.Purged(now), nextHop) != map[]
  {
    hide SendRerrMessage, RerrSends, Purge, LostPrecursors, InvalidateAll;
    var p := s.Purged(now);
    if nextHop in p {
      assert nextHop in LostDestinations(p, nextHop);
      SendRerrSends(s.(table := p), Rerr(0, 0, LostDestinations(p, nextHop)), LostPrecursors(p, nextHop));
    }
  }

  lemma NothingDistinctIface()
    ensures Distinct<Iface>([])
  {
  }

  lemma {:induction false} PrecursorIfacesDistinct(p: Table, precursors: seq<Addr>, found: seq<Iface>)
    requires Distinct(found)
    ensures Distinct(PrecursorIfaces(p, precursors, found))
    decreases |precursors|
  {
    hide Distinct;
    if precursors != [] {
      PrecursorIfacesDistinct(p, precursors[1..],
                              if IsValid(p, precursors[0]) then PushNew(found, p[precursors[0]].info.iface) else found);
    }
  }

  lemma {:induction false} PrecursorIfacesAre(p: Table, precursors: seq<Addr>, found: seq<Iface>)
    ensures forall f :: f in PrecursorIfaces(p, precursors, found) <==> f in found || Reaches(p, precursors, f)
    decreases |precursors|
  {
    if precursors != [] {
      var rest := precursors[1..];
      var found' := if IsValid(p, precursors[0]) then PushNew(found, p[precursors[0]].info.iface) else found;
      PrecursorIfacesAre(p, rest, found');
      forall f ensures Reaches(p, precursors, f) <==>
                       (IsValid(p, precursors[0]) && p[precursors[0]].info.iface == f) || Reaches(p, rest, f)
      {
        if Reaches(p, rest, f) {
          var j :| 0 <= j < |rest| && IsValid(p, rest[j]) && p[rest[j]].info.iface == f;
          assert precursors[j + 1] == rest[j];
        }
        if j :| 0 < j < |precursors| && IsValid(p, precursors[j]) && p[precursors[j]].info.iface == f {
          assert rest[j - 1] == precursors[j];
        }
      }
    }
  }

  // ---------------------------------------------------------------------
  // A received RERR

  /** RecvError makes exactly the VALID routes INVALID that the message lists and
      that go through its sender, for DeletePeriod; it leaves every next hop and
      hop count alone. */
  lemma RecvErrorTable(s: Node, rerr: Rerr, src: Addr, now: Time)
    ensures var p := s.Purged(now); var t := RecvError(s, rerr, src, now).table;
            && t.Keys == p.Keys
            && forall k :: k in p ==>
                 t[k] == if k in rerr.unreachable && p[k].route.nextHop == src && p[k].info.flag == VALID
                         then p[k].(info := p[k].info.(
                                      flag := INVALID, reqCnt := 0, lifeTime := s.cfg.badLinkLifetime + now))
                         else p[k]
  {
    hide RecvError, Purge, InvalidateAll, Affected;
    var p := s.Purged(now);
    var affected := Affected(p, rerr.unreachable, src);
    RecvErrorInvalidates(s, rerr, src, now);
    AffectedKeys(p, rerr.unreachable, src);
    InvalidatedEntries(p, affected.Keys, now, s.cfg.badLinkLifetime);
  }

  lemma RecvErrorInvalidates(s: Node, rerr: Rerr, src: Addr, now: Time)
    ensures var p := s.Purged(now);
            RecvError(s, rerr, src, now).table ==
              InvalidateAll(p, Affected(p, rerr.unreachable, src).Keys, now, s.cfg.badLinkLifetime)
  {
    hide SendRerrMessage, Purge, InvalidateAll, Affected, CollectPrecursors;
  }

  lemma AffectedKeys(p: Table, unreachable: map<Addr, U32>, src: Addr)
    ensures forall k :: k in Affected(p, unreachable, src) <==> k in unreachable && k in p && p[k].route.nextHop == src
  {
  }

  lemma InvalidatedEntries(p: Table, dsts: set<Addr>, now: Time, bad: Time)
    ensures var t := InvalidateAll(p, dsts, now, bad);
            && t.Keys == p.Keys
            && forall k :: k in p ==>
                 t[k] == if k in dsts && p[k].info.flag == VALID
                         then p[k].(info := p[k].info.(flag := INVALID, reqCnt := 0, lifeTime := bad + now)) else p[k]
  {
  }

  lemma AffectedExactly(p: Table, unreachable: map<Addr, U32>, src: Addr)
    ensures var affected := Affected(p, unreachable, src);
            && (forall k :: k in affected <==> k in unreachable && k in p && p[k].route.nextHop == src)
            && (forall k :: k in affected ==> affected[k] == unreachable[k])
  {
  }

  /** What it passes on lists exactly those destinations, VALID or not, with the
      sequence numbers of the message, and goes to their precursors; nothing is
      passed on when no destination is affected or nobody uses one. */
  lemma RecvErrorForwards(s: Node, rerr: Rerr, src: Addr, now: Time)
    requires |rerr.unreachable| <= 255
    ensures var p := s.Purged(now); var affected := Affected(p, rerr.unreachable, src);
            var prec := CollectPrecursors(p, SortedKeys(affected.Keys), []);
            && RecvError(s, rerr, src, now).log.sent ==
                 s.log.sent + RerrSends(s.(table := p), rerr.(unreachable := affected), prec)
            && Distinct(prec)
            && (forall k :: k in affected <==> k in rerr.unreachable && k in p && p[k].route.nextHop == src)
            && (forall k :: k in affected ==> affected[k] == rerr.unreachable[k])
            && (forall x :: x in prec <==> exists k :: k in affected && x in p[k].info.precursors)
            && (affected == map[] ==> prec == [])
  {
    hide SendRerrMessage, RerrSends, Purge, SortedKeys, CollectPrecursors, InvalidateAll, Affected;
    AffectedExactly(s.Purged(now), rerr.unreachable, src);
    var p := s.Purged(now);
    var affected := Affected(p, rerr.unreachable, src);
    var prec := CollectPrecursors(p, SortedKeys(affected.Keys), []);
    AffectedSize(p, rerr.unreachable, src);
    SendRerrSends(s.(table := p), rerr.(unreachable := affected), prec);
    if affected == map[] {
      assert affected.Keys == {};
      NoSends(s.(table := p), rerr.(unreachable := affected));
    }
    AffectedPrecursors(p, rerr.unreachable, src);
  }

  lemma NoSends(s: Node, rerr: Rerr)
    ensures RerrSends(s, rerr, []) == []
    ensures CollectPrecursors(s.table, SortedKeys({}), []) == []
  {
    hide PrecursorIfaces, OnEveryInterface;
    var keys := SortedKeys({});
    assert keys == [];
  }

  lemma AffectedPrecursors(p: Table, unreachable: map<Addr, U32>, src: Addr)
    ensures var affected := Affected(p, unreachable, src);
            var prec := CollectPrecursors(p, SortedKeys(affected.Keys), []);
            Distinct(prec) && (forall x :: x in prec <==> exists k :: k in affected && x in p[k].info.precursors)
  {
    hide SortedKeys;
    var affected := Affected(p, unreachable, src);
    CollectFrom(p, SortedKeys(affected.Keys), []);
  }

  lemma AffectedSize(p: Table, unreachable: map<Addr, U32>, src: Addr)
    ensures |Affected(p, unreachable, src)| <= |unreachable|
    ensures |Affected(p, unreachable, src)| == 0 <==> Affected(p, unreachable, src) == map[]
  {
    SubsetSize(Affected(p, unreachable, src).Keys, unreachable.Keys);
    var a := Affected(p, unreachable, src);
    assert |a| == |a.Keys|;
  }

  lemma {:induction false} SubsetSize(a: set<Addr>, b: set<Addr>)
    requires a <= b
    ensures |a| <= |b|
  {
    if a != {} {
      var x :| x in a;
      SubsetSize(a - {x}, b - {x});
    }
  }
}
