/** Data packets: what becomes of a packet, and whose lives it prolongs, said with the fields of the
    entries as they are before the packet. */
module Packets {
  import opened SeqNo
  import opened Basics
  import opened Route
  import opened DaemonSpec
  import opened Takedown

  // ----- Which entries a packet renews

  /** The VALID route to `end` leads over `x`, and it is known to work. */
  predicate LeadsOver(cfg: Config, routes: map<Addr, Route>, end: Addr, x: Addr) {
    && end in routes && routes[end].valid && routes[end].nextHop == x && x != end
    && (cfg.llfeedback || routes[end].hello)
  }

  /** A neighbour from which no HELLO is heard. */
  predicate Silent(cfg: Config, r: Route) {
    r.hops == 1 && !r.hello && !cfg.llfeedback
  }

  /** The packet is good for the life of the entry: for the forward route unless that is a silent
      neighbour and no Internet destination, for the reverse route unless that is a silent
      neighbour, and for the next hop of either. */
  predicate Renews(cfg: Config, routes: map<Addr, Route>, dest: Addr, src: Addr, x: Addr)
    requires x in routes
  {
    var r := routes[x];
    r.valid &&
    ( || (x == dest && (r.flags.inetDest || !Silent(cfg, r)))
      || (x == src && !Silent(cfg, r))
      || LeadsOver(cfg, routes, dest, x)
      || LeadsOver(cfg, routes, src, x))
  }

  /** The entry expires at `at` at the earliest. */
  function NotBefore(r: Route, at: Time): Route {
    if r.timer.timeout >= at then r else r.(timer := Timer(r.timer.handler, true, at))
  }

  lemma ForwardExact(cfg: Config, routes: map<Addr, Route>, dest: Addr, now: Time, x: Addr)
    requires x in routes
    ensures var routes', r := RefreshForward(cfg, routes, dest, now), routes[x];
            && routes'.Keys == routes.Keys
            && routes'[x] == if r.valid && ((x == dest && (r.flags.inetDest || !Silent(cfg, r))) || LeadsOver(cfg, routes, dest, x))
                             then NotBefore(r, now + cfg.activeRouteTimeout) else r
  {
  }

  lemma ReverseExact(cfg: Config, routes: map<Addr, Route>, src: Addr, now: Time, x: Addr)
    requires x in routes
    ensures var routes', r := RefreshReverse(cfg, routes, src, now), routes[x];
            && routes'.Keys == routes.Keys
            && routes'[x] == if r.valid && ((x == src && !Silent(cfg, r)) || LeadsOver(cfg, routes, src, x))
                             then NotBefore(r, now + cfg.activeRouteTimeout) else r
  {
  }

  /** rt_table_update_route_timeouts as a whole. */
  lemma RefreshExact(cfg: Config, routes: map<Addr, Route>, dest: Addr, src: Addr, now: Time, x: Addr)
    requires x in routes
    ensures var routes' := RefreshReverse(cfg, RefreshForward(cfg, routes, dest, now), src, now);
            && routes'.Keys == routes.Keys
            && routes'[x] == if Renews(cfg, routes, dest, src, x) then NotBefore(routes[x], now + cfg.activeRouteTimeout)
                             else routes[x]
  {
    hide RefreshForward, RefreshReverse;
    var routes1 := RefreshForward(cfg, routes, dest, now);
    ForwardExact(cfg, routes, dest, now, x);
    if src in routes {
      ForwardExact(cfg, routes, dest, now, src);
    }
    ReverseExact(cfg, routes1, src, now, x);
  }

  // ----- What becomes of a packet

  /** The destination has a VALID entry that is no one-way neighbour. */
  predicate Carried(routes: map<Addr, Route>, d: Addr) {
    d in routes && routes[d].valid && !(routes[d].hops == 1 && routes[d].flags.unidir)
  }

  /** The destination is being repaired. */
  predicate Repaired(routes: map<Addr, Route>, d: Addr) {
    d in routes && routes[d].flags.repair
  }

  /** Exactly one of three things: the packet is accepted at once, or a forwarded packet is refused
      at once unless its destination is being repaired, or it is the last in the buffer and its
      destination is being sought.  A full buffer refuses its oldest packet first. */
  lemma PacketOutcome(cfg: Config, s: State, p: Packet, now: Time)
    requires !p.bypass
    ensures var s' := Receive(cfg, s, p, now);
            var log := s.log + [Arrived(p.id, p.dest, false)];
            && s'.kernel == s.kernel && s'.active == s.active
            && if Carried(s.routes, p.dest) || (p.forward && !Repaired(s.routes, p.dest)) then
                 && s'.log == log + [Verdict(p.id, p.dest, Carried(s.routes, p.dest), p.dest in s.kernel)]
                 && s'.queue == s.queue && s'.seeking == s.seeking
               else
                 && s'.seeking == s.seeking + {p.dest}
                 && if |s.queue| < 512 then
                      s'.queue == s.queue + [Buffered(p.id, p.dest, now)] && s'.log == log
                    else
                      && s'.queue == s.queue[1..] + [Buffered(p.id, p.dest, now)]
                      && s'.log == log + [Verdict(s.queue[0].id, s.queue[0].dest, false, s.queue[0].dest in s.kernel)]
  {
    hide RefreshForward, RefreshReverse, Touch, Enqueue, Discover, Repair, Renews;
    var s1 := s.(log := s.log + [Arrived(p.id, p.dest, false)],
                 routes := RefreshReverse(cfg, RefreshForward(cfg, s.routes, p.dest, now), p.src, now));
    RefreshKeys(cfg, s.routes, p.dest, p.src, now);
    if p.dest in s.routes {
      RefreshExact(cfg, s.routes, p.dest, p.src, now, p.dest);
    }
    EnqueueOutcome(s1, p.id, p.dest, now);
    SearchStarts(Enqueue(s1, p.id, p.dest, now), p.dest, now);
  }

  lemma RefreshKeys(cfg: Config, routes: map<Addr, Route>, dest: Addr, src: Addr, now: Time)
    ensures RefreshReverse(cfg, RefreshForward(cfg, routes, dest, now), src, now).Keys == routes.Keys
  {
    hide RefreshForward, RefreshReverse;
    RefreshProlongs(cfg, routes, dest, src, now);
  }

  /** packet_queue_add: a full buffer holds 512 packets and refuses its oldest. */
  lemma EnqueueOutcome(s: State, id: U32, d: Addr, now: Time)
    ensures var s', p := Enqueue(s, id, d, now), Buffered(id, d, now);
            if |s.queue| < 512 then
              s' == s.(queue := s.queue + [p])
            else
              s' == s.(queue := s.queue[1..] + [p],
                       log := s.log + [Verdict(s.queue[0].id, s.queue[0].dest, false, s.queue[0].dest in s.kernel)])
  {
  }

  lemma SearchStarts(s: State, d: Addr, now: Time)
    ensures var s' := Discover(s, d, now); s' == s.(routes := s'.routes, seeking := s.seeking + {d})
    ensures var s' := Repair(s, d, now);
            Repaired(s.routes, d) ==> s' == s.(routes := s'.routes, seeking := s.seeking + {d})
  {
    if d in s.seeking {
      assert s.seeking + {d} == s.seeking;
    }
  }

  /** A packet that the header tests let through is accepted and does nothing else. */
  lemma BypassOutcome(cfg: Config, s: State, p: Packet, now: Time)
    requires p.bypass
    ensures Receive(cfg, s, p, now) ==
            s.(log := s.log + [Arrived(p.id, p.dest, true), Verdict(p.id, p.dest, true, p.dest in s.kernel)])
  {
    var a, v := Arrived(p.id, p.dest, true), Verdict(p.id, p.dest, true, p.dest in s.kernel);
    assert s.log + [a] + [v] == s.log + [a, v];
  }

  /** Exactly which lives a packet prolongs, for every configuration; the destination of a packet
      that is not accepted is left to `DestinationHeld`. */
  lemma PacketRenews(cfg: Config, s: State, p: Packet, now: Time, x: Addr)
    requires !p.bypass && x in s.routes && (x != p.dest || Carried(s.routes, p.dest))
    ensures var s' := Receive(cfg, s, p, now);
            && s'.routes.Keys == s.routes.Keys
            && s'.routes[x] == if Renews(cfg, s.routes, p.dest, p.src, x)
                               then NotBefore(s.routes[x], now + cfg.activeRouteTimeout) else s.routes[x]
  {
    hide RefreshForward, RefreshReverse, Renews, Enqueue;
    RefreshExact(cfg, s.routes, p.dest, p.src, now, x);
    if p.dest in s.routes {
      RefreshExact(cfg, s.routes, p.dest, p.src, now, p.dest);
    }
    AfterRefresh(cfg, s, p, now);
  }

  /** What follows the renewal touches the destination alone, and only if the packet cannot go. */
  lemma AfterRefresh(cfg: Config, s: State, p: Packet, now: Time)
    requires !p.bypass
    ensures var routes := RefreshReverse(cfg, RefreshForward(cfg, s.routes, p.dest, now), p.src, now);
            var routes', d := Receive(cfg, s, p, now).routes, p.dest;
            if d !in routes || Carried(routes, d) then routes' == routes
            else routes' == routes[d := AfterRefusal(cfg, routes[d], p.forward, d in s.seeking, now)]
  {
    hide RefreshForward, RefreshReverse;
    var s1 := s.(log := s.log + [Arrived(p.id, p.dest, false)],
                 routes := RefreshReverse(cfg, RefreshForward(cfg, s.routes, p.dest, now), p.src, now));
    EnqueueShape(s1, p.id, p.dest, now);
  }

  /** The entry of a destination that cannot carry the packet: refused, it stays for DELETE_PERIOD
      more; otherwise a new search holds it for 5.6 seconds and, in a repair, takes over its timer. */
  function AfterRefusal(cfg: Config, r: Route, forward: bool, sought: bool, now: Time): Route {
    if forward && !r.flags.repair then
      if r.valid then NotBefore(r, now + cfg.deletePeriod) else r.(timer := Timer(r.timer.handler, true, now + cfg.deletePeriod))
    else if sought then
      r
    else
      NotBefore(if r.flags.repair then r.(timer := r.timer.(handler := RouteExpire)) else r, now + 5600)
  }

  lemma DestinationHeld(cfg: Config, s: State, p: Packet, now: Time)
    requires !p.bypass && p.dest in s.routes && !Carried(s.routes, p.dest)
    ensures var r := if Renews(cfg, s.routes, p.dest, p.src, p.dest)
                     then NotBefore(s.routes[p.dest], now + cfg.activeRouteTimeout) else s.routes[p.dest];
            && p.dest in Receive(cfg, s, p, now).routes
            && Receive(cfg, s, p, now).routes[p.dest] == AfterRefusal(cfg, r, p.forward, p.dest in s.seeking, now)
  {
    hide RefreshForward, RefreshReverse, Renews, Receive, AfterRefusal;
    RefreshExact(cfg, s.routes, p.dest, p.src, now, p.dest);
    AfterRefresh(cfg, s, p, now);
  }
}
