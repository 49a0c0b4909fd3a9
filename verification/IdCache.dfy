/** The duplicate filter for flooded requests. */
module IdCaches {
  import opened Base

  datatype Key = Key(context: Addr, id: U32)

  /** A record; `expire` is absolute. */
  datatype UniqueId = UniqueId(key: Key, expire: Time)

  predicate Expired(u: UniqueId, now: Time) { u.expire < now }

  function IsLive(now: Time): UniqueId -> bool { (u: UniqueId) => !Expired(u, now) }

  function Purged(c: seq<UniqueId>, now: Time): seq<UniqueId> { Filter(IsLive(now), c) }

  predicate Holds(c: seq<UniqueId>, k: Key) {
    exists i :: 0 <= i < |c| && c[i].key == k
  }

  /** The answer of `IsDuplicate`. */
  predicate Duplicate(c: seq<UniqueId>, k: Key, now: Time) {
    Holds(Purged(c, now), k)
  }

  /** The cache after `IsDuplicate`: a first sighting is recorded. */
  function Record(c: seq<UniqueId>, k: Key, lifetime: Time, now: Time): seq<UniqueId> {
    if Duplicate(c, k, now) then Purged(c, now) else Purged(c, now) + [UniqueId(k, lifetime + now)]
  }

  class IdCache {
    var idCache: seq<UniqueId>
    var lifetime: Time

    constructor (lifetime: Time)
      ensures idCache == [] && this.lifetime == lifetime
    {
      idCache, this.lifetime := [], lifetime;
    }

    method SetLifetime(lifetime: Time)
      modifies this`lifetime
      ensures this.lifetime == lifetime
    {
      this.lifetime := lifetime;
    }

    method Purge(now: Time)
      modifies this`idCache
      ensures idCache == Purged(old(idCache), now)
    {
      var kept := [];
      for i := 0 to |idCache|
        invariant idCache == old(idCache)
        invariant kept == Filter(IsLive(now), idCache[..i])
      {
        FilterSnoc(IsLive(now), idCache, i);
        if !Expired(idCache[i], now) {
          kept := kept + [idCache[i]];
        }
      }
      assert idCache[..|idCache|] == idCache;
      idCache := kept;
    }

    method IsDuplicate(addr: Addr, id: U32, now: Time) returns (duplicate: bool)
      modifies this`idCache
      ensures duplicate <==> Duplicate(old(idCache), Key(addr, id), now)
      ensures idCache == Record(old(idCache), Key(addr, id), lifetime, now)
    {
      Purge(now);
      for i := 0 to |idCache|
        invariant forall j :: 0 <= j < i ==> idCache[j].key != Key(addr, id)
      {
        if idCache[i].key.context == addr && idCache[i].key.id == id {
          return true;
        }
      }
      idCache := idCache + [UniqueId(Key(addr, id), lifetime + now)];
      duplicate := false;
    }

    method GetSize(now: Time) returns (n: nat)
      modifies this`idCache
      ensures idCache == Purged(old(idCache), now)
      ensures n == |idCache|
    {
      Purge(now);
      n := |idCache|;
    }
  }

  // ---------------------------------------------------------------------
  // The cache against its history

  /** One call: a query made while the configured lifetime was `lifetime`, or
      a size request. */
  datatype Call = Query(key: Key, lifetime: Time, at: Time) | Size(at: Time)

  ghost predicate Monotone(calls: seq<Call>) {
    forall i, j :: 0 <= i < j < |calls| ==> calls[i].at <= calls[j].at
  }

  function CacheStep(c: seq<UniqueId>, call: Call): seq<UniqueId> {
    match call
    case Query(k, lifetime, at) => Record(c, k, lifetime, at)
    case Size(at) => Purged(c, at)
  }

  function CacheAfter(calls: seq<Call>): seq<UniqueId> {
    if calls == [] then []
    else CacheStep(CacheAfter(calls[..|calls| - 1]), calls[|calls| - 1])
  }

  /** The `i`-th call was told that its key is new. */
  predicate ToldNew(calls: seq<Call>, i: nat, k: Key)
    requires i < |calls|
  {
    calls[i].Query? && calls[i].key == k && !Duplicate(CacheAfter(calls[..i]), k, calls[i].at)
  }

  /** `j` is the latest call that was told that `k` is new. */
  ghost predicate LatestNew(calls: seq<Call>, k: Key, j: nat) {
    && j < |calls| && ToldNew(calls, j, k)
    && forall i :: j < i < |calls| ==> !ToldNew(calls, i, k)
  }

  /** The same history without the vector: per key, when the record made by
      the latest "new" answer runs out. */
  function History(calls: seq<Call>): map<Key, Time> {
    if calls == [] then map[]
    else HistoryStep(History(calls[..|calls| - 1]), calls[|calls| - 1])
  }

  function HistoryStep(h: map<Key, Time>, call: Call): map<Key, Time> {
    match call
    case Query(k, lifetime, at) =>
      if k in h && h[k] >= at then h else h[k := lifetime + at]
    case Size(_) => h
  }

  ghost predicate DistinctKeys(c: seq<UniqueId>) {
    forall i, j :: 0 <= i < j < |c| ==> c[i].key != c[j].key
  }

  /** The vector holds one record per key, all of them from the history, and
      every record of the history that is live at `t`. */
  ghost predicate Reflects(c: seq<UniqueId>, h: map<Key, Time>, t: Time) {
    && DistinctKeys(c)
    && (forall u :: u in c ==> u.key in h && h[u.key] == u.expire)
    && (forall k :: k in h && h[k] >= t ==> UniqueId(k, h[k]) in c)
  }

  lemma {:induction false} FilterKeys(p: UniqueId -> bool, c: seq<UniqueId>)
    requires DistinctKeys(c)
    ensures DistinctKeys(Filter(p, c))
  {
    if c != [] {
      FilterKeys(p, c[1..]);
      FilterMembers(p, c[1..]);
      var rest := Filter(p, c[1..]);
      forall i | 0 <= i < |rest| ensures c[0].key != rest[i].key {
        assert rest[i] in rest && rest[i] in c[1..];
      }
      assert Filter(p, c) == if p(c[0]) then [c[0]] + rest else rest;
    }
  }

  lemma PurgeReflects(c: seq<UniqueId>, h: map<Key, Time>, t: Time, now: Time)
    requires Reflects(c, h, t) && t <= now
    ensures Reflects(Purged(c, now), h, now)
    ensures forall u :: u in Purged(c, now) ==> u.expire >= now
  {
    FilterKeys(IsLive(now), c);
    FilterMembers(IsLive(now), c);
  }

  lemma DuplicateIsHistory(c: seq<UniqueId>, h: map<Key, Time>, t: Time, k: Key, now: Time)
    requires Reflects(c, h, t) && t <= now
    ensures Duplicate(c, k, now) <==> k in h && h[k] >= now
  {
    PurgeReflects(c, h, t, now);
    var p := Purged(c, now);
    if k in h && h[k] >= now {
      var i :| 0 <= i < |p| && p[i] == UniqueId(k, h[k]);
    }
    if Holds(p, k) {
      var i :| 0 <= i < |p| && p[i].key == k;
      assert p[i] in p;
    }
  }

  lemma StepReflects(c: seq<UniqueId>, h: map<Key, Time>, t: Time, call: Call)
    requires Reflects(c, h, t) && t <= call.at
    ensures Reflects(CacheStep(c, call), HistoryStep(h, call), call.at)
  {
    PurgeReflects(c, h, t, call.at);
    if call.Query? {
      DuplicateIsHistory(c, h, t, call.key, call.at);
    }
  }

  /** No call comes after `t`. */
  ghost predicate Until(calls: seq<Call>, t: Time) {
    Monotone(calls) && (calls != [] ==> calls[|calls| - 1].at <= t)
  }

  lemma {:induction false} CacheReflectsHistory(calls: seq<Call>, t: Time)
    requires Until(calls, t)
    ensures Reflects(CacheAfter(calls), History(calls), t)
  {
    if calls != [] {
      var n := |calls| - 1;
      CacheReflectsHistory(calls[..n], calls[n].at);
      StepReflects(CacheAfter(calls[..n]), History(calls[..n]), calls[n].at, calls[n]);
    }
  }

  lemma ToldNewBefore(calls: seq<Call>, n: nat, i: nat, k: Key)
    requires i < n <= |calls|
    ensures ToldNew(calls, i, k) <==> ToldNew(calls[..n], i, k)
  {
    assert calls[..n][..i] == calls[..i];
  }

  lemma LatestNewSnoc(calls: seq<Call>, k: Key, j: nat)
    requires calls != []
    ensures LatestNew(calls, k, j) <==>
            if ToldNew(calls, |calls| - 1, k) then j == |calls| - 1 else LatestNew(calls[..|calls| - 1], k, j)
  {
    var n := |calls| - 1;
    forall i: nat | i < n ensures ToldNew(calls, i, k) <==> ToldNew(calls[..n], i, k) {
      ToldNewBefore(calls, n, i, k);
    }
  }

  lemma {:induction false} HistoryIsLatestNew(calls: seq<Call>, k: Key)
    requires Monotone(calls)
    ensures k in History(calls) <==> exists j: nat :: LatestNew(calls, k, j)
    ensures forall j: nat :: LatestNew(calls, k, j) ==>
      k in History(calls) && History(calls)[k] == calls[j].at + calls[j].lifetime
  {
    if calls != [] {
      var n := |calls| - 1;
      var before := calls[..n];
      HistoryIsLatestNew(before, k);
      CacheReflectsHistory(before, calls[n].at);
      if calls[n].Query? {
        DuplicateIsHistory(CacheAfter(before), History(before), calls[n].at, calls[n].key, calls[n].at);
      }
      forall j: nat
        ensures LatestNew(calls, k, j) <==> if ToldNew(calls, n, k) then j == n else LatestNew(before, k, j)
      {
        LatestNewSnoc(calls, k, j);
      }
      if ToldNew(calls, n, k) {
        assert LatestNew(calls, k, n);
      }
    }
  }

  /** Whatever was asked before, at whatever lifetimes: a query is answered
      "duplicate" exactly when the latest earlier call that was told its key is
      new made a record that has not run out. */
  lemma DuplicateExactly(calls: seq<Call>, k: Key, now: Time)
    requires Until(calls, now)
    ensures Duplicate(CacheAfter(calls), k, now) <==>
            exists j: nat :: LatestNew(calls, k, j) && calls[j].at + calls[j].lifetime >= now
  {
    CacheReflectsHistory(calls, now);
    HistoryIsLatestNew(calls, k);
    DuplicateIsHistory(CacheAfter(calls), History(calls), now, k, now);
  }

  lemma {:induction false} DistinctKeysCount(c: seq<UniqueId>)
    requires DistinctKeys(c)
    ensures |c| == |set u | u in c :: u.key|
  {
    if c != [] {
      DistinctKeysCount(c[1..]);
      var rest := set u | u in c[1..] :: u.key;
      assert c[0].key !in rest;
      assert (set u | u in c :: u.key) == {c[0].key} + rest;
    }
  }

  /** `GetSize` counts exactly the keys whose latest record is live. */
  lemma SizeCountsLive(calls: seq<Call>, now: Time)
    requires Until(calls, now)
    ensures |Purged(CacheAfter(calls), now)| == |set k | k in History(calls) && History(calls)[k] >= now|
  {
    CacheReflectsHistory(calls, now);
    var c, h := CacheAfter(calls), History(calls);
    PurgeReflects(c, h, now, now);
    var p := Purged(c, now);
    DistinctKeysCount(p);
    var live := set k | k in h && h[k] >= now;
    var keys := set u | u in p :: u.key;
    forall k ensures k in keys <==> k in live {
      if k in live { assert UniqueId(k, h[k]) in p; }
    }
    assert keys == live;
  }
}
