/** The routing table as a value: what one call of each table operation does
    to a map from destination to entry.  The class in RoutingTable.dfy is
    proved against these functions. */
module RouteTable {
  import opened Base

  datatype Flag = VALID | INVALID | IN_SEARCH

  /** An interface address; `hostMask` says that its mask is 255.255.255.255. */
  datatype Iface = Iface(local: Addr, broadcast: Addr, hostMask: bool, dev: Device) {
    /** Where control messages go out on this interface. */
    function BroadcastTarget(): Addr {
      if hostMask then 0xFFFF_FFFF else broadcast
    }
  }

  /** A default-constructed `Ipv4InterfaceAddress`. */
  const NO_IFACE := Iface(NO_ADDR, NO_ADDR, false, NO_DEVICE)

  /** What the shared `Ipv4Route` object holds. */
  datatype Route = Route(dst: Addr, nextHop: Addr, source: Addr, dev: Device)

  /** The other fields of a `RoutingTableEntry`.  `lifeTime` is absolute: the
      expiry of a VALID entry, the deletion time of an INVALID one. */
  datatype Info = Info(
    iface: Iface, validSeqNo: bool, seqNo: U32, hops: U16,
    lifeTime: Time, flag: Flag, precursors: seq<Addr>, reqCnt: U8,
    blackList: bool, blackListTimeout: Time)
  {
    function SetLifeTime(lt: Time, now: Time): Info { this.(lifeTime := lt + now) }

    function GetLifeTime(now: Time): Time { lifeTime - now }

    function InsertPrecursor(id: Addr): Info { this.(precursors := PushNew(precursors, id)) }

    function Invalidate(now: Time, bad: Time): Info {
      if flag == INVALID then this
      else this.(flag := INVALID, reqCnt := 0, lifeTime := bad + now)
    }

    function InvalidateIf(listed: bool, now: Time, bad: Time): Info {
      if listed && flag == VALID then Invalidate(now, bad) else this
    }

    /** The retry counter only lives while the entry is IN_SEARCH. */
    function Settle(): Info {
      if flag == IN_SEARCH then this else this.(reqCnt := 0)
    }

    /** What one purge at `now` does to one entry. */
    function Purge(now: Time, bad: Time): Option<Info> {
      if GetLifeTime(now) < 0 then
        match flag
        case INVALID => None
        case VALID => Some(Invalidate(now, bad))
        case IN_SEARCH => Some(this)
      else Some(this)
    }

    ghost predicate Ok() {
      && (flag != IN_SEARCH ==> reqCnt == 0)
      && Distinct(precursors)
    }
  }

  datatype Entry = Entry(route: Route, info: Info)

  function WithNextHop(e: Entry, nextHop: Addr): Entry { e.(route := e.route.(nextHop := nextHop)) }

  function WithDevice(e: Entry, dev: Device): Entry { e.(route := e.route.(dev := dev)) }

  type Table = map<Addr, Entry>

  /** The entry that the constructor builds; `lifetime` is relative to `now`. */
  function NewEntry(dev: Device, dst: Addr, validSeqNo: bool, seqNo: U32, iface: Iface,
                    hops: U16, nextHop: Addr, lifetime: Time, now: Time): Entry {
    Entry(Route(dst, nextHop, iface.local, dev),
          Info(iface, validSeqNo, seqNo, hops, lifetime + now, VALID, [], 0, false, now))
  }

  /** A default-constructed entry. */
  function DefaultEntry(now: Time): Entry {
    NewEntry(NO_DEVICE, NO_ADDR, false, 0, NO_IFACE, 0, NO_ADDR, now, now)
  }

  function Purge(t: Table, now: Time, bad: Time): Table {
    map k | k in t && t[k].info.Purge(now, bad).Some? :: t[k].(info := t[k].info.Purge(now, bad).value)
  }

  function Get(t: Table, k: Addr): Option<Entry> {
    if k in t then Some(t[k]) else None
  }

  /** `AddRoute` on an already purged table: an existing entry wins. */
  function Insert(t: Table, e: Entry): Table {
    if e.route.dst in t then t else t[e.route.dst := e.(info := e.info.Settle())]
  }

  function Add(t: Table, e: Entry, now: Time, bad: Time): Table {
    Insert(Purge(t, now, bad), e)
  }

  function Update(t: Table, e: Entry): Table {
    if e.route.dst in t then t[e.route.dst := e.(info := e.info.Settle())] else t
  }

  /** `Update` of an entry that is known to be stored under `k`. */
  function Put(t: Table, k: Addr, e: Entry): Table { t[k := e.(info := e.info.Settle())] }

  function Delete(t: Table, k: Addr, now: Time, bad: Time): Table {
    Purge(t, now, bad) - {k}
  }

  /** The destinations routed through `via`, with their sequence numbers. */
  function RoutedVia(t: Table, via: Addr): map<Addr, U32> {
    map k | k in t && t[k].route.nextHop == via :: t[k].info.seqNo
  }

  /** `InvalidateRoutesWithDst` on an already purged table. */
  function InvalidateAll(t: Table, dsts: set<Addr>, now: Time, bad: Time): Table {
    map k | k in t :: t[k].(info := t[k].info.InvalidateIf(k in dsts, now, bad))
  }

  function InvalidateRoutes(t: Table, dsts: set<Addr>, now: Time, bad: Time): Table {
    InvalidateAll(Purge(t, now, bad), dsts, now, bad)
  }

  // ---------------------------------------------------------------------
  // The representation invariant

  /** What the table itself keeps of every entry. */
  ghost predicate EntryOk(k: Addr, e: Entry) {
    e.route.dst == k && e.info.Ok()
  }

  ghost predicate TableOk(t: Table) {
    forall k :: k in t ==> EntryOk(k, t[k])
  }

  /** Every table operation keeps the representation invariant. */
  lemma TableOpsKeepInvariant(t: Table, e: Entry, k: Addr, dsts: set<Addr>, now: Time, bad: Time)
    requires TableOk(t) && Distinct(e.info.precursors)
    ensures TableOk(Purge(t, now, bad))
    ensures TableOk(Add(t, e, now, bad))
    ensures TableOk(Update(t, e))
    ensures TableOk(Delete(t, k, now, bad))
    ensures TableOk(InvalidateRoutes(t, dsts, now, bad))
  {
  }

  // ---------------------------------------------------------------------
  // Lazy expiry

  /** The table after lookups (each of which purges) at the given instants. */
  function PurgeAll(t: Table, times: seq<Time>, bad: Time): Table
    decreases |times|
  {
    if times == [] then t else PurgeAll(Purge(t, times[0], bad), times[1..], bad)
  }

  /** The first instant after `e` expires, if any. */
  function FirstAfter(times: seq<Time>, expiry: Time): (r: Option<nat>)
    ensures r.Some? ==> r.value < |times| && times[r.value] > expiry
                        && forall i :: 0 <= i < r.value ==> times[i] <= expiry
    ensures r.None? ==> forall i :: 0 <= i < |times| ==> times[i] <= expiry
  {
    if times == [] then None
    else if times[0] > expiry then Some(0)
    else
      var rest := FirstAfter(times[1..], expiry);
      if rest.None? then None
      else
        assert forall i :: 0 < i < |times| ==> times[i] == times[1..][i - 1];
        Some(rest.value + 1)
  }

  /** What an entry that nobody touches has become after lookups at `times`,
      said without running them: it depends only on the first lookup after
      its expiry and on whether a later one comes after the deletion time. */
  ghost function Fate(e: Info, times: seq<Time>, bad: Time): Option<Info> {
    match e.flag
    case IN_SEARCH => Some(e)
    case INVALID =>
      if exists i :: 0 <= i < |times| && times[i] > e.lifeTime then None else Some(e)
    case VALID =>
      var first := FirstAfter(times, e.lifeTime);
      if first.None? then Some(e)
      else if exists j :: first.value < j < |times| && times[j] > times[first.value] + bad then None
      else Some(e.(flag := INVALID, reqCnt := 0, lifeTime := bad + times[first.value]))
  }

  ghost function WithInfo(e: Entry, info: Option<Info>): Option<Entry> {
    if info.Some? then Some(e.(info := info.value)) else None
  }

  lemma {:induction false} PurgeAllIsFate(t: Table, times: seq<Time>, bad: Time, k: Addr)
    requires k in t
    ensures Get(PurgeAll(t, times, bad), k) == WithInfo(t[k], Fate(t[k].info, times, bad))
    decreases |times|
  {
    if times != [] {
      var t1 := Purge(t, times[0], bad);
      assert forall i :: 0 < i < |times| ==> times[i] == times[1..][i - 1];
      if k in t1 {
        PurgeAllIsFate(t1, times[1..], bad, k);
        FateStep(t[k].info, times, bad);
      } else {
        AbsentStaysAbsent(t1, times[1..], bad, k);
      }
    }
  }

  lemma FateStep(e: Info, times: seq<Time>, bad: Time)
    requires times != [] && e.Purge(times[0], bad).Some?
    ensures Fate(e.Purge(times[0], bad).value, times[1..], bad) == Fate(e, times, bad)
  {
  }

  lemma {:induction false} AbsentStaysAbsent(t: Table, times: seq<Time>, bad: Time, k: Addr)
    requires k !in t
    ensures k !in PurgeAll(t, times, bad)
    decreases |times|
  {
    if times != [] {
      AbsentStaysAbsent(Purge(t, times[0], bad), times[1..], bad, k);
    }
  }

  /** Lazy expiry looks eager from outside: whatever lookups came before, a
      lookup of valid routes at `at` finds an untouched VALID entry exactly
      while `at` has not passed its expiry. */
  lemma LazyExpiryIsExact(t: Table, times: seq<Time>, bad: Time, k: Addr, at: Time)
    requires k in t && t[k].info.flag == VALID
    requires forall i :: 0 <= i < |times| ==> times[i] <= at
    ensures var t' := Purge(PurgeAll(t, times, bad), at, bad);
            (k in t' && t'[k].info.flag == VALID) <==> at <= t[k].info.lifeTime
  {
    PurgeAllIsFate(t, times, bad, k);
    var first := FirstAfter(times, t[k].info.lifeTime);
    if at > t[k].info.lifeTime {
      assert Fate(t[k].info, times, bad).Some? && first.Some? ==> Fate(t[k].info, times, bad).value.flag == INVALID;
    }
  }

  /** An entry invalidated by a lookup at `times[i]` is still there at every
      lookup up to DeletePeriod later; one under search is never collected. */
  lemma InvalidatedStaysForDeletePeriod(t: Table, times: seq<Time>, bad: Time, k: Addr, first: nat)
    requires k in t && t[k].info.flag == VALID
    requires first < |times| && times[first] > t[k].info.lifeTime
    requires forall i :: 0 <= i < first ==> times[i] <= t[k].info.lifeTime
    ensures k in PurgeAll(t, times, bad) <==>
            forall j :: first < j < |times| ==> times[j] <= times[first] + bad
  {
    PurgeAllIsFate(t, times, bad, k);
    var f := FirstAfter(times, t[k].info.lifeTime);
    assert f == Some(first);
  }

  lemma SearchEntriesSurvive(t: Table, times: seq<Time>, bad: Time, k: Addr)
    requires k in t && t[k].info.flag == IN_SEARCH
    ensures Get(PurgeAll(t, times, bad), k) == Some(t[k])
  {
    PurgeAllIsFate(t, times, bad, k);
  }

  /** Purging twice at one instant is purging once, for every table, exactly
      when DeletePeriod is not negative. */
  lemma PurgeIdempotentExactly(bad: Time)
    ensures (forall t, now :: Purge(Purge(t, now, bad), now, bad) == Purge(t, now, bad)) <==> bad >= 0
  {
    if bad >= 0 {
      forall t, now ensures Purge(Purge(t, now, bad), now, bad) == Purge(t, now, bad) {
        PurgeTwice(t, now, bad);
      }
    } else {
      var e := DefaultEntry(0);
      var t: Table := map[NO_ADDR := e.(info := e.info.(lifeTime := -1))];
      assert NO_ADDR in Purge(t, 0, bad);
      assert NO_ADDR !in Purge(Purge(t, 0, bad), 0, bad);
    }
  }

  lemma PurgeTwice(t: Table, now: Time, bad: Time)
    requires bad >= 0
    ensures Purge(Purge(t, now, bad), now, bad) == Purge(t, now, bad)
  {
  }
}
