/** What the retry timer of a search does, and when. */
module RetryOutcomes {
  import opened Base
  import opened Messages
  import opened RouteTable
  import opened NodeState
  import opened Discovery
  import opened LinkBreak
  import opened NodeEvents
  import PacketQueue

  /** The search may go on: it runs and its retries are not used up. */
  predicate MayRetry(cfg: Config, p: Table, dst: Addr) {
    dst in p && p[dst].info.flag == IN_SEARCH && p[dst].info.reqCnt != cfg.rreqRetries
  }

  /** Going from `s` to `s'` the node asked for `dst` on every interface. */
  ghost predicate Asked(s: Node, s': Node, dst: Addr) {
    && |s'.log.sent| == |s.log.sent| + |s.ifaces| && s.log.sent <= s'.log.sent
    && (forall i :: 0 <= i < |s.ifaces| ==>
          var m := s'.log.sent[|s.log.sent| + i];
          m.msg.RREQ? && m.msg.rreq.dst == dst && m.msg.rreq.origin == s.ifaces[i].local && m.iface == s.ifaces[i])
    && s'.search.postponed == s.search.postponed && dst in s'.table && s'.table[dst].info.flag == IN_SEARCH
    && s'.search.rreqCount == Wrap16(s.search.rreqCount + 1)
  }

  /** The request waits for the next reset of the rate limit. */
  ghost predicate PutOff(s: Node, s': Node, dst: Addr) {
    && s'.log == s.log && s'.search.rreqCount == s.search.rreqCount
    && s'.search.postponed == s.search.postponed + multiset{(dst, s.search.rateReset + 100_000)}
  }

  /** Entry, timer and packets are gone, and every live packet failed. */
  ghost predicate GaveUp(s: Node, s': Node, dst: Addr, now: Time) {
    && dst !in s'.table && dst !in s'.search.timers && s'.log.sent == s.log.sent
    && s'.log.delivered == s.log.delivered
    && (forall e :: e in s'.queue <==> e in s.queue && e.expire >= now && e.header.dst != dst)
    && (forall e :: e in s.queue && e !in s'.queue ==> e in s'.log.errors)
    && s'.search.postponed == s.search.postponed && s'.search.rreqCount == s.search.rreqCount
  }

  lemma AskedOrPutOff(s: Node, s1: Node, dst: Addr, now: Time)
    requires s1.log == s.log && s1.ifaces == s.ifaces && s1.cfg == s.cfg
    requires s1.search.postponed == s.search.postponed && s1.search.rreqCount == s.search.rreqCount
    requires s1.search.rateReset == s.search.rateReset
    ensures var s' := SendRequest(s1, dst, now);
            if s.search.rreqCount == s.cfg.rreqRateLimit then PutOff(s, s', dst) else Asked(s, s', dst)
  {
    hide Purge, RecordOwn, RetryDelay, NextTtl;
  }

  lemma GaveUpAll(s: Node, s1: Node, dst: Addr, now: Time)
    requires s1.log == s.log && s1.queue == s.queue
    requires s1.search.postponed == s.search.postponed && s1.search.rreqCount == s.search.rreqCount
    ensures GaveUp(s, GiveUp(s1, dst, now), dst, now)
  {
    hide Purge, Filter;
    var p := PacketQueue.Purge(s.queue, now);
    FilterMembers(PacketQueue.IsLive(now), s.queue);
    FilterMembers(PacketQueue.IsExpired(now), s.queue);
    FilterMembers(PacketQueue.IsFor(dst), p.queue);
    FilterMembers(PacketQueue.IsNotFor(dst), p.queue);
  }

  /** The timer flushes the queue exactly when there is a VALID route, asks again
      or puts that off exactly when the search may go on, and otherwise gives up. */
  lemma RetryExactly(s: Node, dst: Addr, now: Time)
    ensures var p := s.Purged(now); var s' := Apply(s, RetryTimer(dst), now);
            if IsValid(p, dst) then
              && s'.table == p && s'.search == s.search.(timers := s.search.timers[dst := None])
              && s'.log.sent == s.log.sent
              && s' == SendPacketFromQueue(s.(table := p, search := s'.search), dst, p[dst].route, now)
            else if MayRetry(s.cfg, p, dst) then
              if s.search.rreqCount == s.cfg.rreqRateLimit then PutOff(s, s', dst) else Asked(s, s', dst)
            else GaveUp(s, s', dst, now)
  {
    hide Purge, SendRequest, SendPacketFromQueue, GiveUp, PutOff, Asked, GaveUp;
    var s1 := s.(search := s.search.(timers := s.search.timers[dst := None]));
    var p := s.Purged(now);
    if IsValid(p, dst) {
      FlushOnly(s1.(table := p), dst, p[dst].route, now);
    } else if MayRetry(s.cfg, p, dst) {
      AskedOrPutOff(s, s1.(table := p), dst, now);
    } else {
      GaveUpAll(s, s1, dst, now);
    }
  }

  lemma FlushOnly(s: Node, dst: Addr, route: Route, now: Time)
    ensures var s' := SendPacketFromQueue(s, dst, route, now);
            s'.table == s.table && s'.search == s.search && s'.log.sent == s.log.sent
  {
    hide Filter, Matching, WithoutFirst, ForwardedAll;
  }
}
