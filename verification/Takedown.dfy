/** Two ways in which an operation may touch entries other than its own: it takes VALID
    entries down, or it lets entries live longer.  Everything proved about whole runs rests
    on these two relations. */
module Takedown {
  import opened SeqNo
  import opened Basics
  import opened Route
  import opened DaemonSpec
  import opened GatewayChains
  import opened LinkFailure

  /** `r'` is what is left of the VALID entry `r` after it was invalidated at `now`. */
  predicate Downed(cfg: Config, r: Route, r': Route, now: Time) {
    && !r'.valid && !r'.hello
    && r'.seqno == Incr(r.seqno) && r'.nextHop == r.nextHop && r'.hops == r.hops
    && (r'.flags == r.flags || r'.flags == r.flags.(repair := true))
    && r'.timer == Timer(RestHandler(r'.flags), true, now + RestTime(cfg, r'.flags))
  }

  /** From `s` to `s'` some VALID entries went down: each fell once, was subtracted from the
      counter and taken out of the kernel; all other entries are as they were, except that
      INVALID ones may have lost their precursors. */
  ghost predicate TakesDown(cfg: Config, s: State, s': State, now: Time) {
    && s'.queue == s.queue && s'.log == s.log && s'.seeking == s.seeking
    && s'.routes.Keys == s.routes.Keys
    && ValidSet(s'.routes) <= ValidSet(s.routes)
    && var gone := ValidSet(s.routes) - ValidSet(s'.routes);
    && s'.active == s.active - |gone|
    && s'.kernel == DropRoutes(s.kernel, s.routes, gone)
    && (forall x :: x in s.routes ==>
          if x in gone then Downed(cfg, s.routes[x], s'.routes[x], now)
          else s'.routes[x] == s.routes[x] || (!s.routes[x].valid && s'.routes[x] == Forget(s.routes[x])))
  }

  /** What a takedown means for one entry. */
  lemma TakedownAt(cfg: Config, s: State, s': State, x: Addr, now: Time)
    requires TakesDown(cfg, s, s', now) && x in s.routes
    ensures x in s'.routes
    ensures s'.routes[x].valid ==> s'.routes[x] == s.routes[x]
    ensures s.routes[x].valid && !s'.routes[x].valid ==> Downed(cfg, s.routes[x], s'.routes[x], now)
    ensures !s.routes[x].valid ==> s'.routes[x] == s.routes[x] || s'.routes[x] == Forget(s.routes[x])
  {
  }

  lemma TakesDownCompose(cfg: Config, s: State, s1: State, s2: State, now: Time)
    requires TakesDown(cfg, s, s1, now) && TakesDown(cfg, s1, s2, now)
    ensures TakesDown(cfg, s, s2, now)
  {
    hide Downed, DropRoutes, ValidSet;
    var gone1 := ValidSet(s.routes) - ValidSet(s1.routes);
    var gone2 := ValidSet(s1.routes) - ValidSet(s2.routes);
    var gone := ValidSet(s.routes) - ValidSet(s2.routes);
    GoneTwice(ValidSet(s.routes), ValidSet(s1.routes), ValidSet(s2.routes));
    ValidMembers(s.routes);
    ValidMembers(s1.routes);
    ValidMembers(s2.routes);
    DropTwice(s.kernel, s.routes, s1.routes, gone1, gone2);
    forall x | x in s.routes ensures
      if x in gone then Downed(cfg, s.routes[x], s2.routes[x], now)
      else s2.routes[x] == s.routes[x] || (!s.routes[x].valid && s2.routes[x] == Forget(s.routes[x]))
    {
      DownedTwice(cfg, s, s1, s2, now, x);
    }
  }

  lemma GoneTwice(a: set<Addr>, b: set<Addr>, c: set<Addr>)
    requires c <= b <= a
    ensures a - c == (a - b) + (b - c) && |a - c| == |a - b| + |b - c|
  {
    assert a - c == (a - b) + (b - c);
  }

  lemma ValidMembers(routes: map<Addr, Route>)
    ensures ValidSet(routes) <= routes.Keys && forall x :: x in routes ==> (x in ValidSet(routes) <==> routes[x].valid)
  {
  }

  lemma DownedTwice(cfg: Config, s: State, s1: State, s2: State, now: Time, x: Addr)
    requires TakesDown(cfg, s, s1, now) && TakesDown(cfg, s1, s2, now) && x in s.routes
    ensures x in s2.routes
    ensures if s.routes[x].valid && !s2.routes[x].valid then Downed(cfg, s.routes[x], s2.routes[x], now)
            else s2.routes[x] == s.routes[x] || (!s.routes[x].valid && s2.routes[x] == Forget(s.routes[x]))
  {
    TakedownAt(cfg, s, s1, x, now);
    TakedownAt(cfg, s1, s2, x, now);
  }

  /** One entry in a collapse. */
  lemma CollapseAt(cfg: Config, s: State, marked: set<Addr>, gone: set<Addr>, keep: set<Addr>, now: Time, x: Addr)
    requires gone <= ValidSet(s.routes) && marked <= gone && x in s.routes
    ensures var s' := Collapse(cfg, s.(routes := MarkRepair(s.routes, marked)), gone, keep, now);
            if x in gone then Downed(cfg, s.routes[x], s'.routes[x], now) else s'.routes[x] == s.routes[x]
  {
  }

  /** A collapse of VALID entries, some of them marked for repair just before. */
  lemma CollapseTakesDown(cfg: Config, s: State, marked: set<Addr>, gone: set<Addr>, keep: set<Addr>, now: Time)
    requires gone <= ValidSet(s.routes) && marked <= gone
    ensures TakesDown(cfg, s, Collapse(cfg, s.(routes := MarkRepair(s.routes, marked)), gone, keep, now), now)
  {
    hide Fallen, MarkRepair, DropRoutes;
    MarkKeepsKeys(s.routes, marked);
    var s' := Collapse(cfg, s.(routes := MarkRepair(s.routes, marked)), gone, keep, now);
    MarkKeepsDrops(s.kernel, s.routes, marked, gone);
    forall x | x in s.routes ensures
      if x in gone then Downed(cfg, s.routes[x], s'.routes[x], now) else s'.routes[x] == s.routes[x]
    {
      CollapseAt(cfg, s, marked, gone, keep, now, x);
    }
    assert ValidSet(s.routes) - ValidSet(s'.routes) == gone;
  }

  lemma MarkKeepsKeys(routes: map<Addr, Route>, marked: set<Addr>)
    ensures MarkRepair(routes, marked).Keys == routes.Keys
  {
  }

  lemma CascadeOfValid(routes: map<Addr, Route>, d: Addr)
    requires d in routes && routes[d].valid
    ensures Cascade(routes, d) <= ValidSet(routes)
  {
    forall x | x in Cascade(routes, d) ensures routes[x].valid {
      if x != d {
        CascadeIsValid(routes, d, x);
      }
    }
  }

  lemma InvalidateTakesDown(cfg: Config, s: State, d: Addr, now: Time)
    ensures TakesDown(cfg, s, Invalidate(cfg, s, d, now), now)
  {
    if d in s.routes && s.routes[d].valid {
      hide Cascade;
      CascadeOfValid(s.routes, d);
      assert MarkRepair(s.routes, {}) == s.routes;
      CollapseTakesDown(cfg, s, {}, Cascade(s.routes, d), {d}, now);
    } else {
      assert ValidSet(s.routes) - ValidSet(s.routes) == {};
      assert DropRoutes(s.kernel, s.routes, {}) == s.kernel;
    }
  }

  lemma ForgetTakesDown(cfg: Config, s: State, d: Addr, now: Time)
    requires d in s.routes && !s.routes[d].valid
    ensures TakesDown(cfg, s, Put(s, d, Forget(s.routes[d])), now)
  {
    var s' := Put(s, d, Forget(s.routes[d]));
    assert ValidSet(s.routes) - ValidSet(s'.routes) == {};
    assert DropRoutes(s.kernel, s.routes, {}) == s.kernel;
  }

  /** The last part of a link break: the dependents and their cascades. */
  lemma DependentsTakenDown(cfg: Config, s: State, d: Addr, now: Time)
    requires d in s.routes
    ensures var marked := Repairable(s.routes, d);
            var s3 := s.(routes := MarkRepair(s.routes, marked));
            TakesDown(cfg, s, Collapse(cfg, s3, CascadeAll(s3.routes, Dependents(s3.routes, d)), marked, now), now)
  {
    var marked := Repairable(s.routes, d);
    var from := Dependents(s.routes, d);
    assert Dependents(MarkRepair(s.routes, marked), d) == from;
    MarkKeepsCascades(s.routes, marked, from);
    var gone := CascadeAll(s.routes, from);
    forall x | x in gone ensures x in ValidSet(s.routes) {
      var a :| a in from && Reaches(s.routes, a, x);
      CascadeOfValid(s.routes, a);
    }
    forall x | x in marked ensures x in gone {
      CascadeAllHasRoot(s.routes, from, x);
    }
    CollapseTakesDown(cfg, s, marked, gone, marked, now);
  }

  lemma LinkBreakTakesDown(cfg: Config, s: State, d: Addr, now: Time)
    ensures TakesDown(cfg, s, LinkBreak(cfg, s, d, now), now)
    ensures d in s.routes && s.routes[d].hops == 1 ==> !LinkBreak(cfg, s, d, now).routes[d].valid
    ensures d in s.routes && s.routes[d].hops == 1 ==>
      forall x :: x in s.routes && s.routes[x].nextHop == d && x != d ==> !LinkBreak(cfg, s, d, now).routes[x].valid
  {
    hide Invalidate, Collapse, CascadeAll, TakesDown;
    if d in s.routes && s.routes[d].hops == 1 {
      InvalidateTakesDown(cfg, s, d, now);
      InvalidateRoot(cfg, s, d, now);
      var s1 := Invalidate(cfg, s, d, now);
      var s2 := if s1.routes[d].flags.repair then s1 else Put(s1, d, Forget(s1.routes[d]));
      if !s1.routes[d].flags.repair {
        ForgetTakesDown(cfg, s1, d, now);
        TakesDownCompose(cfg, s, s1, s2, now);
      }
      DependentsTakenDown(cfg, s2, d, now);
      TakesDownCompose(cfg, s, s2, LinkBreak(cfg, s, d, now), now);
      LinkBreakClears(cfg, s, d, now);
    } else {
      NothingTakesDown(cfg, s, now);
    }
  }

  lemma NothingTakesDown(cfg: Config, s: State, now: Time)
    ensures TakesDown(cfg, s, s, now)
  {
    assert ValidSet(s.routes) - ValidSet(s.routes) == {};
    assert DropRoutes(s.kernel, s.routes, {}) == s.kernel;
  }

  /** After a link break nothing VALID has the neighbour as its next hop. */
  lemma LinkBreakClears(cfg: Config, s: State, d: Addr, now: Time)
    requires d in s.routes && s.routes[d].hops == 1
    ensures var s' := LinkBreak(cfg, s, d, now);
            && !s'.routes[d].valid
            && forall x :: x in s.routes && s.routes[x].nextHop == d && x != d ==> !s'.routes[x].valid
  {
    hide Invalidate, CascadeAll, Collapse, MarkRepair, Repairable;
    InvalidateRoot(cfg, s, d, now);
    InvalidateRemnant(cfg, s, d, now);
    var s1 := Invalidate(cfg, s, d, now);
    var s2 := if s1.routes[d].flags.repair then s1 else Put(s1, d, Forget(s1.routes[d]));
    var marked := Repairable(s2.routes, d);
    var s3 := s2.(routes := MarkRepair(s2.routes, marked));
    forall x | x in s.routes && (s.routes[x].nextHop == d || x == d) ensures !LinkBreak(cfg, s, d, now).routes[x].valid {
      MarkKeepsKeys(s2.routes, marked);
      DependentFalls(cfg, s2, d, marked, now, x);
    }
  }

  lemma DependentFalls(cfg: Config, s: State, d: Addr, marked: set<Addr>, now: Time, x: Addr)
    requires x in s.routes && (s.routes[x].valid ==> s.routes[x].nextHop == d && x != d)
    ensures var s3 := s.(routes := MarkRepair(s.routes, marked));
            !Collapse(cfg, s3, CascadeAll(s3.routes, Dependents(s3.routes, d)), marked, now).routes[x].valid
  {
    hide CascadeAll;
    var routes3 := MarkRepair(s.routes, marked);
    if s.routes[x].valid {
      CascadeAllHasRoot(routes3, Dependents(routes3, d), x);
    }
  }

  /** An entry that goes down in a link break without being the neighbour or using it as its
      next hop goes down because its next hop does. */
  lemma BreakReason(cfg: Config, s: State, d: Addr, now: Time, y: Addr)
    requires y in s.routes && s.routes[y].valid && !LinkBreak(cfg, s, d, now).routes[y].valid
    requires y != d && s.routes[y].nextHop != d
    ensures var nh := s.routes[y].nextHop;
            nh in s.routes && s.routes[nh].valid && !LinkBreak(cfg, s, d, now).routes[nh].valid
  {
    hide Invalidate, Collapse, CascadeAll, TakesDown;
    var s1 := Invalidate(cfg, s, d, now);
    var s2 := if s1.routes[d].flags.repair then s1 else Put(s1, d, Forget(s1.routes[d]));
    InvalidateRemnant(cfg, s, d, now);
    DependentsTakenDown(cfg, s2, d, now);
    var nh := s.routes[y].nextHop;
    if !s1.routes[y].valid {
      InvalidateReason(cfg, s, d, now, y);
      TakedownAt(cfg, s2, LinkBreak(cfg, s, d, now), nh, now);
    } else {
      DependentsReason(cfg, s2, d, now, y);
    }
  }

  lemma InvalidateReason(cfg: Config, s: State, d: Addr, now: Time, y: Addr)
    requires y in s.routes && s.routes[y].valid && !Invalidate(cfg, s, d, now).routes[y].valid
    requires y != d && s.routes[y].nextHop != d
    ensures var nh := s.routes[y].nextHop;
            nh in s.routes && s.routes[nh].valid && !Invalidate(cfg, s, d, now).routes[nh].valid
  {
    hide Reaches, IsChain;
    LastLink(s.routes, d, y);
    CascadeIsValid(s.routes, d, s.routes[y].nextHop);
  }

  lemma DependentsReason(cfg: Config, s: State, d: Addr, now: Time, y: Addr)
    requires d in s.routes && y in s.routes && s.routes[y].valid && y != d && s.routes[y].nextHop != d
    requires var marked := Repairable(s.routes, d);
             var s3 := s.(routes := MarkRepair(s.routes, marked));
             !Collapse(cfg, s3, CascadeAll(s3.routes, Dependents(s3.routes, d)), marked, now).routes[y].valid
    ensures var marked := Repairable(s.routes, d);
            var s3 := s.(routes := MarkRepair(s.routes, marked));
            var nh := s.routes[y].nextHop;
            && nh in s.routes && s.routes[nh].valid
            && !Collapse(cfg, s3, CascadeAll(s3.routes, Dependents(s3.routes, d)), marked, now).routes[nh].valid
  {
    hide Reaches, IsChain;
    var routes3 := MarkRepair(s.routes, Repairable(s.routes, d));
    var b :| b in Dependents(routes3, d) && Reaches(routes3, b, y);
    LastLink(routes3, b, y);
    if s.routes[y].nextHop != b {
      CascadeIsValid(routes3, b, s.routes[y].nextHop);
    }
  }

  /** The neighbour itself falls once, and may lose its precursors. */
  lemma LinkBreakRoot(cfg: Config, s: State, d: Addr, now: Time)
    requires d in s.routes && s.routes[d].hops == 1 && s.routes[d].valid
    ensures var r', fallen := LinkBreak(cfg, s, d, now).routes[d], Fall(cfg, s.routes[d], now);
            r' == fallen || r' == Forget(fallen)
  {
    hide Invalidate;
    InvalidateRoot(cfg, s, d, now);
    var s1 := Invalidate(cfg, s, d, now);
    var s2 := if s1.routes[d].flags.repair then s1 else Put(s1, d, Forget(s1.routes[d]));
    var routes3 := MarkRepair(s2.routes, Repairable(s2.routes, d));
    if d in CascadeAll(routes3, Dependents(routes3, d)) {
      var a :| a in Dependents(routes3, d) && Reaches(routes3, a, d);
      CascadeIsValid(routes3, a, d);
    }
  }

  // ----- Longer lives

  /** The same entry, perhaps armed anew; a VALID one never expires earlier for it. */
  predicate Prolonged(r: Route, r': Route) {
    r' == r || (r' == Arm(r, r'.timer.timeout) && (r.valid ==> r'.timer.timeout >= r.timer.timeout))
  }

  ghost predicate Prolongs(routes: map<Addr, Route>, routes': map<Addr, Route>) {
    routes'.Keys == routes.Keys && forall x :: x in routes ==> Prolonged(routes[x], routes'[x])
  }

  lemma ProlongsCompose(a: map<Addr, Route>, b: map<Addr, Route>, c: map<Addr, Route>)
    requires Prolongs(a, b) && Prolongs(b, c)
    ensures Prolongs(a, c)
  {
    forall x | x in a ensures Prolonged(a[x], c[x]) {
      assert Prolonged(a[x], b[x]) && Prolonged(b[x], c[x]);
    }
  }

  lemma TouchProlongs(routes: map<Addr, Route>, d: Addr, lifetime: nat, now: Time)
    ensures Prolongs(routes, Touch(routes, d, lifetime, now))
  {
  }

  lemma TouchPathProlongs(cfg: Config, routes: map<Addr, Route>, d: Addr, now: Time)
    ensures Prolongs(routes, TouchPath(cfg, routes, d, now))
  {
    if d in routes && routes[d].valid {
      var routes1 := Touch(routes, d, cfg.activeRouteTimeout, now);
      TouchProlongs(routes, d, cfg.activeRouteTimeout, now);
      TouchProlongs(routes1, routes1[d].nextHop, cfg.activeRouteTimeout, now);
      ProlongsCompose(routes, routes1, Touch(routes1, routes1[d].nextHop, cfg.activeRouteTimeout, now));
    }
  }

  lemma NextHopProlongs(cfg: Config, routes: map<Addr, Route>, routes1: map<Addr, Route>, d: Addr, now: Time)
    requires d in routes1 && Prolongs(routes, routes1)
    ensures Prolongs(routes, RefreshNextHop(cfg, routes1, d, now))
  {
    TouchProlongs(routes1, routes1[d].nextHop, cfg.activeRouteTimeout, now);
    ProlongsCompose(routes, routes1, Touch(routes1, routes1[d].nextHop, cfg.activeRouteTimeout, now));
  }

  lemma RefreshProlongs(cfg: Config, routes: map<Addr, Route>, dest: Addr, src: Addr, now: Time)
    ensures Prolongs(routes, RefreshReverse(cfg, RefreshForward(cfg, routes, dest, now), src, now))
  {
    hide RefreshNextHop;
    var routes1 := RefreshForward(cfg, routes, dest, now);
    if dest in routes && routes[dest].valid {
      TouchProlongs(routes, dest, cfg.activeRouteTimeout, now);
      NextHopProlongs(cfg, routes, routes, dest, now);
      NextHopProlongs(cfg, routes, Touch(routes, dest, cfg.activeRouteTimeout, now), dest, now);
    }
    assert Prolongs(routes, routes1);
    if src in routes1 && routes1[src].valid {
      TouchProlongs(routes1, src, cfg.activeRouteTimeout, now);
      NextHopProlongs(cfg, routes1, routes1, src, now);
      NextHopProlongs(cfg, routes1, Touch(routes1, src, cfg.activeRouteTimeout, now), src, now);
    }
    ProlongsCompose(routes, routes1, RefreshReverse(cfg, routes1, src, now));
  }

  lemma HoldProlongs(routes: map<Addr, Route>, d: Addr, now: Time)
    ensures Prolongs(routes, Hold(routes, d, now))
  {
    TouchProlongs(routes, d, DISCOVERY_HOLD, now);
  }

  function WithExpire(r: Route): Route {
    r.(timer := r.timer.(handler := RouteExpire))
  }

  lemma RepairShape(s: State, d: Addr, now: Time)
    ensures var s' := Repair(s, d, now);
            && s'.active == s.active && s'.kernel == s.kernel && s.seeking <= s'.seeking
            && (s' == s || (d in s.routes && s.routes[d].flags.repair && d !in s.seeking && d in s'.seeking &&
                            Prolongs(s.routes[d := WithExpire(s.routes[d])], s'.routes)))
  {
    if d in s.routes {
      HoldProlongs(s.routes[d := WithExpire(s.routes[d])], d, now);
    }
  }

  /** What a data packet does to the table: it prolongs lives and, if the destination is
      flagged for repair, may hand its timer to route_expire_timeout and start a search. */
  lemma ReceiveShape(cfg: Config, s: State, p: Packet, now: Time)
    ensures var s', d := Receive(cfg, s, p, now), p.dest;
            && s'.active == s.active && s'.kernel == s.kernel && s.seeking <= s'.seeking
            && (Prolongs(s.routes, s'.routes) ||
                (!p.bypass && d in s.routes && s.routes[d].flags.repair && d !in s.seeking && d in s'.seeking &&
                 Prolongs(s.routes[d := WithExpire(s.routes[d])], s'.routes)))
  {
    hide RefreshForward, RefreshReverse, Touch, Hold, Enqueue, Repair, Prolongs;
    ProlongsSelf(s.routes);
    if !p.bypass {
      var d := p.dest;
      var routes := RefreshReverse(cfg, RefreshForward(cfg, s.routes, d, now), p.src, now);
      RefreshProlongs(cfg, s.routes, d, p.src, now);
      TouchProlongs(routes, d, cfg.deletePeriod, now);
      ProlongsCompose(s.routes, routes, Touch(routes, d, cfg.deletePeriod, now));
      HoldProlongs(routes, d, now);
      ProlongsCompose(s.routes, routes, Hold(routes, d, now));
      var s1 := s.(log := s.log + [Arrived(p.id, p.dest, p.bypass)], routes := routes);
      EnqueueShape(s1, p.id, d, now);
      var s2 := Enqueue(s1, p.id, d, now);
      RepairShape(s2, d, now);
      if d in routes {
        WithExpireProlongs(s.routes, routes, d);
        if Prolongs(routes[d := WithExpire(routes[d])], Repair(s2, d, now).routes) {
          ProlongsCompose(s.routes[d := WithExpire(s.routes[d])], routes[d := WithExpire(routes[d])], Repair(s2, d, now).routes);
        }
      }
    }
  }

  lemma EnqueueShape(s: State, id: U32, d: Addr, now: Time)
    ensures var s' := Enqueue(s, id, d, now);
            s'.routes == s.routes && s'.active == s.active && s'.kernel == s.kernel && s'.seeking == s.seeking
  {
  }

  lemma ProlongsSelf(routes: map<Addr, Route>)
    ensures Prolongs(routes, routes)
  {
  }

  lemma WithExpireProlongs(routes: map<Addr, Route>, routes': map<Addr, Route>, d: Addr)
    requires Prolongs(routes, routes') && d in routes'
    ensures d in routes && routes'[d].flags == routes[d].flags
    ensures Prolongs(routes[d := WithExpire(routes[d])], routes'[d := WithExpire(routes'[d])])
  {
    assert Prolonged(routes[d], routes'[d]);
  }
}
