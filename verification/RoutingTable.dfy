/** The routing table in the form the protocol keeps it: a map of entries that
    are copied by value but share a heap-allocated `Ipv4Route`. */
module RoutingTables {
  import opened Base
  import opened RouteTable

  class Ipv4Route {
    var destination: Addr
    var gateway: Addr
    var source: Addr
    var outputDevice: Device

    constructor (destination: Addr, gateway: Addr, source: Addr, outputDevice: Device)
      ensures this.destination == destination && this.gateway == gateway
      ensures this.source == source && this.outputDevice == outputDevice
    {
      this.destination, this.gateway := destination, gateway;
      this.source, this.outputDevice := source, outputDevice;
    }

    /** What the object holds now. */
    function Value(): Route
      reads this
    {
      Route(destination, gateway, source, outputDevice)
    }
  }

  /** A `RoutingTableEntry`.  Copying one copies `info` but shares `route`, so
      a setter that goes through the route is seen by every copy. */
  datatype RoutingTableEntry = RoutingTableEntry(route: Ipv4Route, info: Info) {

    ghost function Value(): Entry
      reads route
    {
      Entry(route.Value(), info)
    }

    /** `InsertPrecursor`: scan the vector, append when absent. */
    method InsertPrecursor(id: Addr) returns (r: RoutingTableEntry, added: bool)
      ensures r == this.(info := info.InsertPrecursor(id))
      ensures added <==> id !in info.precursors
    {
      for i := 0 to |info.precursors|
        invariant id !in info.precursors[..i]
      {
        if info.precursors[i] == id {
          return this, false;
        }
      }
      return this.(info := info.(precursors := info.precursors + [id])), true;
    }

    /** `GetPrecursors`: append to `prec` the precursors it does not hold yet. */
    method GetPrecursors(prec: seq<Addr>) returns (r: seq<Addr>)
      ensures r == PushAllNew(prec, info.precursors)
    {
      hide PushAllNew, PushNew;
      r := prec;
      NonePushed(prec);
      for i := 0 to |info.precursors|
        invariant r == PushAllNew(prec, info.precursors[..i])
      {
        var absent := IsAbsent(r, info.precursors[i]);
        PushAllNewSnoc(prec, info.precursors[..i], info.precursors[i]);
        assert info.precursors[..i + 1] == info.precursors[..i] + [info.precursors[i]];
        PushedWhenAbsent(r, info.precursors[i]);
        if absent {
          r := r + [info.precursors[i]];
        }
      }
      assert info.precursors[..|info.precursors|] == info.precursors;
    }

    /** The inner scan. */
    method IsAbsent(r: seq<Addr>, id: Addr) returns (absent: bool)
      ensures absent <==> id !in r
    {
      absent := true;
      for j := 0 to |r|
        invariant absent <==> id !in r[..j]
      {
        if r[j] == id {
          absent := false;
        }
      }
    }
  }

  lemma NonePushed(prec: seq<Addr>)
    ensures PushAllNew(prec, []) == prec
  {
  }

  lemma PushedWhenAbsent(r: seq<Addr>, id: Addr)
    ensures PushNew(r, id) == if id !in r then r + [id] else r
  {
  }

  method CreateEntry(dev: Device, dst: Addr, validSeqNo: bool, seqNo: U32, iface: Iface,
                     hops: U16, nextHop: Addr, lifetime: Time, now: Time)
    returns (e: RoutingTableEntry)
    ensures fresh(e.route) && Distinct(e.info.precursors)
    ensures e.Value() == NewEntry(dev, dst, validSeqNo, seqNo, iface, hops, nextHop, lifetime, now)
  {
    var route := new Ipv4Route(dst, nextHop, iface.local, dev);
    e := RoutingTableEntry(route, Info(iface, validSeqNo, seqNo, hops, lifetime + now, VALID, [], 0, false, now));
  }

  method CreateDefaultEntry(now: Time) returns (e: RoutingTableEntry)
    ensures fresh(e.route)
    ensures e.Value() == DefaultEntry(now)
  {
    e := CreateEntry(NO_DEVICE, NO_ADDR, false, 0, NO_IFACE, 0, NO_ADDR, now, now);
  }

  /** `t` is the map `m` with every route read out. */
  ghost predicate Represents(m: map<Addr, RoutingTableEntry>, t: Table)
    reads set k | k in m :: m[k].route
  {
    && (forall k :: k in m <==> k in t)
    && (forall k :: k in m ==> t[k] == m[k].Value())
  }

  ghost predicate SameRoutes(before: map<Addr, RoutingTableEntry>, after: map<Addr, RoutingTableEntry>) {
    forall k :: k in after ==> k in before && after[k].route == before[k].route
  }

  lemma SameRoutesTrans(a: map<Addr, RoutingTableEntry>, b: map<Addr, RoutingTableEntry>,
                        c: map<Addr, RoutingTableEntry>)
    requires SameRoutes(a, b) && SameRoutes(b, c)
    ensures SameRoutes(a, c)
  {
  }

  /** The purge loop has yet to visit the keys in `todo`. */
  ghost predicate PurgedSoFar(before: map<Addr, RoutingTableEntry>, after: map<Addr, RoutingTableEntry>,
                              todo: set<Addr>, now: Time, bad: Time)
  {
    && SameRoutes(before, after)
    && (forall k :: k in before && k in todo ==> k in after && after[k] == before[k])
    && (forall k :: k in before && k !in todo ==>
          before[k].info.Purge(now, bad) == if k in after then Some(after[k].info) else None)
  }

  lemma PurgedIsPurge(before: map<Addr, RoutingTableEntry>, after: map<Addr, RoutingTableEntry>,
                      t: Table, now: Time, bad: Time)
    requires PurgedSoFar(before, after, {}, now, bad)
    requires Represents(before, t)
    ensures Represents(after, RouteTable.Purge(t, now, bad)) && SameRoutes(before, after)
    ensures TableOk(t) ==> TableOk(RouteTable.Purge(t, now, bad))
  {
  }

  /** The invalidation loop has yet to visit the keys in `todo`. */
  ghost predicate InvalidatedSoFar(before: map<Addr, RoutingTableEntry>, after: map<Addr, RoutingTableEntry>,
                                   todo: set<Addr>, dsts: set<Addr>, now: Time, bad: Time)
  {
    && after.Keys == before.Keys
    && forall k :: k in before ==>
         after[k] == if k in todo then before[k]
                     else before[k].(info := before[k].info.InvalidateIf(k in dsts, now, bad))
  }

  lemma InvalidatedIsInvalidateAll(before: map<Addr, RoutingTableEntry>, after: map<Addr, RoutingTableEntry>,
                                   t: Table, dsts: set<Addr>, now: Time, bad: Time)
    requires InvalidatedSoFar(before, after, {}, dsts, now, bad)
    requires Represents(before, t)
    ensures Represents(after, InvalidateAll(t, dsts, now, bad))
    ensures TableOk(t) ==> TableOk(InvalidateAll(t, dsts, now, bad))
    ensures SameRoutes(before, after)
  {
  }

  /** The collecting loop has yet to visit the keys in `todo`. */
  ghost predicate CollectedSoFar(table: map<Addr, RoutingTableEntry>, found: map<Addr, U32>, todo: set<Addr>, via: Addr)
    reads set k | k in table :: table[k].route
  {
    && (forall k :: k in found <==> k in table && k !in todo && table[k].route.gateway == via)
    && (forall k :: k in found ==> found[k] == table[k].info.seqNo)
  }

  lemma CollectedIsRoutedVia(table: map<Addr, RoutingTableEntry>, t: Table, via: Addr, found: map<Addr, U32>)
    requires Represents(table, t) && CollectedSoFar(table, found, {}, via)
    ensures found == RoutedVia(t, via)
  {
  }

  /** A setter that went through the route shared with the entry at its destination. */
  ghost function WriteThrough(t: Table, r: Route): Table {
    if r.dst in t then t[r.dst := t[r.dst].(route := r)] else t
  }

  class RoutingTable {
    var entries: map<Addr, RoutingTableEntry>
    var badLinkLifetime: Time

    ghost var Repr: set<Ipv4Route>

    /** The table as a value, with every route read out. */
    ghost var Contents: Table

    /** Keys are destinations, counters of settled entries are zero and precursor
        lists hold no duplicates.  Since a route object has one destination, no
        two entries share one. */
    ghost predicate Valid()
      reads this, Repr
    {
      && (forall k :: k in entries ==> entries[k].route in Repr)
      && Represents(entries, Contents)
      && TableOk(Contents)
    }

    /** No two entries share a route object, and the one a copy shares its route
        with is the one stored under its destination. */
    lemma RoutesUnshared(rt: RoutingTableEntry)
      requires Valid()
      ensures forall j, k :: j in entries && k in entries && entries[j].route == entries[k].route ==> j == k
      ensures forall k :: k in entries && entries[k].route == rt.route ==> k == rt.route.destination
    {
      forall k | k in entries ensures entries[k].route.destination == k {
        assert EntryOk(k, Contents[k]);
      }
    }

    /** `rt` is a copy that shares its route with the stored entry. */
    ghost predicate Shares(rt: RoutingTableEntry)
      reads this, rt.route
    {
      rt.route.destination in entries && entries[rt.route.destination].route == rt.route
    }

    /** `rt` is a copy of what is stored under `id`. */
    ghost predicate Stored(id: Addr, rt: RoutingTableEntry)
      reads this, rt.route
    {
      && id in entries && rt == entries[id] && rt.route in Repr && Shares(rt)
      && rt.route.destination == id && Distinct(rt.info.precursors)
    }

    constructor (t: Time)
      ensures Valid() && Contents == map[] && badLinkLifetime == t && Repr == {}
    {
      entries, badLinkLifetime, Repr, Contents := map[], t, {}, map[];
    }

    method Purge(now: Time)
      requires Valid()
      modifies this`entries, this`Contents
      ensures Valid()
      ensures Contents == RouteTable.Purge(old(Contents), now, badLinkLifetime)
      ensures SameRoutes(old(entries), entries)
    {
      hide RouteTable.Purge, TableOk, Represents, PurgedSoFar;
      ghost var original := entries;
      var purged := PurgeMap(entries, now);
      PurgedIsPurge(original, purged, Contents, now, badLinkLifetime);
      entries := purged;
      Contents := RouteTable.Purge(Contents, now, badLinkLifetime);
    }

    /** The overload that `Print` uses works on a copy and leaves the table alone. */
    method PurgeCopy(table: map<Addr, RoutingTableEntry>, ghost t: Table, now: Time)
      returns (r: map<Addr, RoutingTableEntry>)
      requires Represents(table, t)
      ensures Represents(r, RouteTable.Purge(t, now, badLinkLifetime))
    {
      r := PurgeMap(table, now);
      PurgedIsPurge(table, r, t, now, badLinkLifetime);
    }

    /** The loop of both overloads: one pass in key order, erasing and invalidating as it goes. */
    method PurgeMap(table: map<Addr, RoutingTableEntry>, now: Time) returns (r: map<Addr, RoutingTableEntry>)
      ensures PurgedSoFar(table, r, {}, now, badLinkLifetime)
    {
      r := table;
      var todo := table.Keys;
      while todo != {}
        invariant todo <= table.Keys
        invariant PurgedSoFar(table, r, todo, now, badLinkLifetime)
      {
        var k := Least(todo);
        todo := todo - {k};
        var e := r[k];
        if e.info.GetLifeTime(now) < 0 {
          if e.info.flag == INVALID {
            r := r - {k};
          } else if e.info.flag == VALID {
            r := r[k := e.(info := e.info.Invalidate(now, badLinkLifetime))];
          }
        }
      }
    }

    /** `LookupRoute`: when nothing is found, the caller's `rt0` stays as it was. */
    method LookupRoute(id: Addr, rt0: RoutingTableEntry, now: Time) returns (found: bool, rt: RoutingTableEntry)
      requires Valid()
      modifies this`entries, this`Contents
      ensures Valid()
      ensures Contents == RouteTable.Purge(old(Contents), now, badLinkLifetime)
      ensures found <==> id in Contents
      ensures if found then rt.Value() == Contents[id] && Stored(id, rt) else rt == rt0
      ensures found ==> rt.route in Repr && rt.route.destination == id && Distinct(rt.info.precursors)
      ensures SameRoutes(old(entries), entries)
    {
      hide RouteTable.Purge;
      Purge(now);
      if id !in entries {
        return false, rt0;
      }
      return true, entries[id];
    }

    method LookupValidRoute(id: Addr, rt0: RoutingTableEntry, now: Time) returns (valid: bool, rt: RoutingTableEntry)
      requires Valid()
      modifies this`entries, this`Contents
      ensures Valid()
      ensures Contents == RouteTable.Purge(old(Contents), now, badLinkLifetime)
      ensures valid <==> id in Contents && Contents[id].info.flag == VALID
      ensures if id in Contents then rt.Value() == Contents[id] && Stored(id, rt) else rt == rt0
      ensures SameRoutes(old(entries), entries)
    {
      var found;
      found, rt := LookupRoute(id, rt0, now);
      valid := found && rt.info.flag == VALID;
    }

    method DeleteRoute(dst: Addr, now: Time) returns (deleted: bool)
      requires Valid()
      modifies this`entries, this`Contents
      ensures Valid()
      ensures Contents == Delete(old(Contents), dst, now, badLinkLifetime)
      ensures deleted <==> dst in RouteTable.Purge(old(Contents), now, badLinkLifetime)
    {
      hide RouteTable.Purge, TableOk;
      Purge(now);
      deleted := dst in entries;
      Remove(dst);
    }

    method AddRoute(rt: RoutingTableEntry, now: Time) returns (added: bool)
      requires Valid() && Distinct(rt.info.precursors)
      modifies this`entries, this`Contents, this`Repr
      ensures Valid() && Repr == old(Repr) + {rt.route}
      ensures Contents == Add(old(Contents), rt.Value(), now, badLinkLifetime)
      ensures added <==> rt.Value().route.dst !in RouteTable.Purge(old(Contents), now, badLinkLifetime)
    {
      hide RouteTable.Purge, TableOk;
      Purge(now);
      added := rt.route.destination !in entries;
      if added {
        Store(if rt.info.flag != IN_SEARCH then rt.(info := rt.info.(reqCnt := 0)) else rt);
      } else {
        Repr := Repr + {rt.route};
      }
    }

    /** `Update` writes the whole copy over the entry with its destination. */
    method Update(rt: RoutingTableEntry) returns (updated: bool)
      requires Valid() && Distinct(rt.info.precursors)
      modifies this`entries, this`Contents, this`Repr
      ensures Valid() && Repr == old(Repr) + {rt.route}
      ensures Contents == RouteTable.Update(old(Contents), rt.Value())
      ensures updated <==> rt.Value().route.dst in old(Contents)
    {
      updated := rt.route.destination in entries;
      if updated {
        Store(if rt.info.flag != IN_SEARCH then rt.(info := rt.info.(reqCnt := 0)) else rt);
      } else {
        Repr := Repr + {rt.route};
      }
    }

    /** The map assignment behind both: afterwards `rt` is the entry. */
    method Store(rt: RoutingTableEntry)
      requires Valid() && EntryOk(rt.route.destination, rt.Value())
      modifies this`entries, this`Contents, this`Repr
      ensures Valid() && Repr == old(Repr) + {rt.route}
      ensures Contents == old(Contents)[rt.Value().route.dst := rt.Value()]
    {
      entries := entries[rt.route.destination := rt];
      Contents := Contents[rt.route.destination := rt.Value()];
      Repr := Repr + {rt.route};
    }

    /** The map erasure behind `DeleteRoute`. */
    method Remove(dst: Addr)
      requires Valid()
      modifies this`entries, this`Contents
      ensures Valid()
      ensures Contents == old(Contents) - {dst}
    {
      entries := entries - {dst};
      Contents := Contents - {dst};
    }

    method GetListOfDestinationWithNextHop(nextHop: Addr, now: Time) returns (unreachable: map<Addr, U32>)
      requires Valid()
      modifies this`entries, this`Contents
      ensures Valid()
      ensures Contents == RouteTable.Purge(old(Contents), now, badLinkLifetime)
      ensures unreachable == RoutedVia(Contents, nextHop)
      ensures SameRoutes(old(entries), entries)
    {
      hide RouteTable.Purge, TableOk, Represents, RoutedVia, SameRoutes;
      Purge(now);
      unreachable := CollectVia(entries, nextHop);
      CollectedIsRoutedVia(entries, Contents, nextHop, unreachable);
    }

    method CollectVia(table: map<Addr, RoutingTableEntry>, nextHop: Addr) returns (unreachable: map<Addr, U32>)
      ensures CollectedSoFar(table, unreachable, {}, nextHop)
    {
      unreachable := map[];
      var todo := table.Keys;
      while todo != {}
        invariant todo <= table.Keys
        invariant CollectedSoFar(table, unreachable, todo, nextHop)
      {
        var k := Least(todo);
        todo := todo - {k};
        if table[k].route.gateway == nextHop {
          unreachable := unreachable[k := table[k].info.seqNo];
        }
      }
    }

    /** Two nested scans: every entry against every listed destination. */
    method InvalidateRoutesWithDst(unreachable: map<Addr, U32>, now: Time)
      requires Valid()
      modifies this`entries, this`Contents
      ensures Valid()
      ensures Contents == InvalidateRoutes(old(Contents), unreachable.Keys, now, badLinkLifetime)
      ensures SameRoutes(old(entries), entries)
    {
      hide RouteTable.Purge, InvalidateAll, Valid, SameRoutes;
      Purge(now);
      ghost var purged := entries;
      InvalidateListed(unreachable, now);
      SameRoutesTrans(old(entries), purged, entries);
    }

    method InvalidateListed(unreachable: map<Addr, U32>, now: Time)
      requires Valid()
      modifies this`entries, this`Contents
      ensures Valid()
      ensures Contents == InvalidateAll(old(Contents), unreachable.Keys, now, badLinkLifetime)
      ensures SameRoutes(old(entries), entries)
    {
      hide TableOk, InvalidateAll, Represents, InvalidatedSoFar;
      var invalidated := InvalidateMap(entries, unreachable, now);
      InvalidatedIsInvalidateAll(entries, invalidated, Contents, unreachable.Keys, now, badLinkLifetime);
      entries := invalidated;
      Contents := InvalidateAll(Contents, unreachable.Keys, now, badLinkLifetime);
    }

    /** The outer scan: every entry in key order. */
    method InvalidateMap(table: map<Addr, RoutingTableEntry>, unreachable: map<Addr, U32>, now: Time)
      returns (r: map<Addr, RoutingTableEntry>)
      ensures InvalidatedSoFar(table, r, {}, unreachable.Keys, now, badLinkLifetime)
    {
      r := table;
      var todo := table.Keys;
      while todo != {}
        invariant todo <= table.Keys
        invariant InvalidatedSoFar(table, r, todo, unreachable.Keys, now, badLinkLifetime)
      {
        var k := Least(todo);
        todo := todo - {k};
        var e := InvalidateIfListed(k, r[k], unreachable, now);
        r := r[k := e];
      }
    }

    /** The inner scan: one entry against every listed destination. */
    method InvalidateIfListed(k: Addr, e: RoutingTableEntry, unreachable: map<Addr, U32>, now: Time)
      returns (r: RoutingTableEntry)
      ensures r == e.(info := e.info.InvalidateIf(k in unreachable, now, badLinkLifetime))
    {
      r := e;
      var listed := unreachable.Keys;
      while listed != {}
        invariant listed <= unreachable.Keys
        invariant r == e.(info := e.info.InvalidateIf(k in unreachable && k !in listed, now, badLinkLifetime))
      {
        var j := Least(listed);
        listed := listed - {j};
        if k == j && r.info.flag == VALID {
          r := r.(info := r.info.Invalidate(now, badLinkLifetime));
        }
      }
    }

    method MarkLinkAsUnidirectional(neighbor: Addr, timeout: Time) returns (marked: bool)
      requires Valid()
      modifies this`entries, this`Contents
      ensures Valid()
      ensures marked <==> neighbor in old(Contents)
      ensures var t := old(Contents);
              Contents == if neighbor !in t then t
                          else t[neighbor := t[neighbor].(info := t[neighbor].info.(
                                   blackList := true, blackListTimeout := timeout, reqCnt := 0))]
    {
      marked := neighbor in entries;
      if marked {
        var e := entries[neighbor];
        entries := entries[neighbor := e.(info := e.info.(
                                           blackList := true, blackListTimeout := timeout, reqCnt := 0))];
        Contents := Contents[neighbor := entries[neighbor].Value()];
      }
    }

    /** The aliasing step: writing the next hop of a looked-up copy is already
        visible in the table, at that destination and nowhere else. */
    method SetNextHop(rt: RoutingTableEntry, nextHop: Addr)
      requires Valid()
      modifies rt.route`gateway, this`Contents
      ensures Valid() && rt.Value() == WithNextHop(old(rt.Value()), nextHop)
      ensures Contents == if Shares(rt) then WriteThrough(old(Contents), rt.Value().route) else old(Contents)
    {
      rt.route.gateway := nextHop;
      if Shares(rt) {
        Contents := WriteThrough(Contents, rt.Value().route);
      }
    }

    method SetOutputDevice(rt: RoutingTableEntry, dev: Device)
      requires Valid()
      modifies rt.route`outputDevice, this`Contents
      ensures Valid() && rt.Value() == WithDevice(old(rt.Value()), dev)
      ensures Contents == if Shares(rt) then WriteThrough(old(Contents), rt.Value().route) else old(Contents)
    {
      rt.route.outputDevice := dev;
      if Shares(rt) {
        Contents := WriteThrough(Contents, rt.Value().route);
      }
    }
  }
}
