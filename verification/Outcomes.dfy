/** What the operations on neighbours and timers do, entry by entry, said with the fields of the
    entries and the settings. */
module Outcomes {
  import opened Basics
  import opened Route
  import opened DaemonSpec
  import opened GatewayChains
  import opened LinkFailure
  import opened Takedown
  import opened UpdateParts
  import opened Traffic
  import opened Packets

  // ----- A broken link

  /** The link to `d` breaks: `x` is `d` or uses `d`, or it depends through a chain of gateways on
      an entry that does. */
  ghost predicate Hit(routes: map<Addr, Route>, d: Addr, x: Addr)
    requires d in routes
  {
    || (routes[d].valid && Reaches(routes, d, x))
    || exists b :: b in Dependents(routes, d) && Reaches(routes, b, x)
  }

  /** Such an entry is to be repaired: the neighbour is, `x` uses it directly and is at most 10 hops
      away, and it is not down already as an Internet destination behind `d`. */
  ghost predicate ForRepair(routes: map<Addr, Route>, d: Addr, x: Addr)
    requires d in routes && x in routes
  {
    && routes[d].flags.repair && x != d && routes[x].valid && routes[x].nextHop == d && routes[x].hops <= 10
    && !(routes[d].valid && Reaches(routes, d, x))
  }

  /** With the cascade of the neighbour down, the dependents that still stand take down the rest. */
  lemma HitInTurn(routes: map<Addr, Route>, left: map<Addr, Route>, d: Addr, x: Addr)
    requires d in routes && Remnant(routes, left) && !left[d].valid && left[d].flags == routes[d].flags
    requires forall y :: y in left && y != d && !(routes[d].valid && Reaches(routes, d, y)) ==> left[y] == routes[y]
    requires forall y :: y in left && routes[d].valid && Reaches(routes, d, y) ==> !left[y].valid
    ensures Hit(routes, d, x) && x in routes <==>
            x in routes && ((routes[d].valid && Reaches(routes, d, x)) || x in CascadeAll(left, Dependents(left, d)))
  {
    hide Reaches;
    var first := if routes[d].valid then Cascade(routes, d) else {};
    var rest := CascadeAll(left, Dependents(left, d));
    if x in rest {
      var b :| b in Dependents(left, d) && Reaches(left, b, x);
      ReachesBefore(routes, left, b, x);
      assert b in Dependents(routes, d);
    }
    if x in routes && Hit(routes, d, x) && !(routes[d].valid && Reaches(routes, d, x)) {
      var b :| b in Dependents(routes, d) && Reaches(routes, b, x);
      RestIsClosed(routes, left, d);
      if b !in first {
        CascadeAllHasRoot(left, Dependents(left, d), b);
      }
      ClosedCovers(routes, b, first + rest);
      assert x in Cascade(routes, b);
    }
  }

  lemma RestIsClosed(routes: map<Addr, Route>, left: map<Addr, Route>, d: Addr)
    requires d in routes && Remnant(routes, left) && !left[d].valid && left[d].flags == routes[d].flags
    requires forall y :: y in left && y != d && !(routes[d].valid && Reaches(routes, d, y)) ==> left[y] == routes[y]
    requires forall y :: y in left && routes[d].valid && Reaches(routes, d, y) ==> !left[y].valid
    ensures var both := (if routes[d].valid then Cascade(routes, d) else {}) + CascadeAll(left, Dependents(left, d));
            forall a, b :: a in both && Feeds(routes, a, b) ==> b in both
  {
    hide Reaches;
    var first := if routes[d].valid then Cascade(routes, d) else {};
    var rest := CascadeAll(left, Dependents(left, d));
    forall a, b | a in first + rest && Feeds(routes, a, b) ensures b in first + rest {
      if a in first {
        ReachesFurther(routes, d, a, b);
      } else if b !in first {
        var e :| e in Dependents(left, d) && Reaches(left, e, a);
        if b == d {
          CascadeHasRoot(routes, d);
        }
        assert Feeds(left, a, b);
        ReachesFurther(left, e, a, b);
      }
    }
  }

  /** The first part of neighbor_link_break: the neighbour and its cascade go down. */
  ghost function Broken(cfg: Config, s: State, d: Addr, now: Time): (s2: State)
    requires d in s.routes
    ensures s2.routes.Keys == s.routes.Keys
  {
    var s1 := Invalidate(cfg, s, d, now);
    if s1.routes[d].flags.repair then s1 else Put(s1, d, Forget(s1.routes[d]))
  }

  lemma BrokenExact(cfg: Config, s: State, d: Addr, now: Time, x: Addr)
    requires d in s.routes && x in s.routes
    ensures var r, r', keep := s.routes[x], Broken(cfg, s, d, now).routes[x], x == d && s.routes[d].flags.repair;
            r' == if s.routes[d].valid && Reaches(s.routes, d, x) then
                    Struck(cfg, r, r.flags.repair, if keep then r.precursors else [], now)
                  else if x == d && !keep then r.(precursors := [])
                  else r
    ensures !Broken(cfg, s, d, now).routes[d].valid
    ensures s.routes[d].valid ==> Reaches(s.routes, d, d)
    ensures s.routes[d].valid && Reaches(s.routes, d, x) ==> s.routes[x].valid
  {
    hide Reaches, Fall, Invalidate;
    CascadeHasRoot(s.routes, d);
    if s.routes[d].valid {
      InvalidateExact(cfg, s, d, now);
    } else {
      InvalidateIdle(cfg, s, d, now);
    }
  }

  /** neighbor_link_break, exactly: who goes down, with which flags, timer and precursors. */
  lemma LinkBreakExact(cfg: Config, s: State, d: Addr, now: Time, x: Addr)
    requires d in s.routes && s.routes[d].hops == 1 && x in s.routes
    ensures var r, mark := s.routes[x], ForRepair(s.routes, d, x);
            LinkBreak(cfg, s, d, now).routes[x] ==
              if Hit(s.routes, d, x) then
                Struck(cfg, r, r.flags.repair || mark, if mark || (x == d && r.flags.repair) then r.precursors else [], now)
              else if x == d && !r.flags.repair then
                r.(precursors := [])
              else
                r
  {
    hide Reaches, LinkBreak, Collapse, Broken, Hit, CascadeAll, Repairable, MarkRepair;
    LinkBreakParts(cfg, s, d, now);
    BrokenExact(cfg, s, d, now, d);
    BrokenExact(cfg, s, d, now, x);
    HitLeft(cfg, s, d, now, x);
    DependentsExact(cfg, Broken(cfg, s, d, now), d, now, x);
  }

  lemma HitLeft(cfg: Config, s: State, d: Addr, now: Time, x: Addr)
    requires d in s.routes && x in s.routes
    ensures var left := Broken(cfg, s, d, now).routes;
            Hit(s.routes, d, x) <==>
              (s.routes[d].valid && Reaches(s.routes, d, x)) || x in CascadeAll(left, Dependents(left, d))
  {
    hide Reaches, Broken, Hit, CascadeAll;
    var s2 := Broken(cfg, s, d, now);
    forall y | y in s.routes ensures
      && (s2.routes[y].valid ==> s2.routes[y] == s.routes[y]) && s2.routes[y].flags == s.routes[y].flags
      && (y != d && !(s.routes[d].valid && Reaches(s.routes, d, y)) ==> s2.routes[y] == s.routes[y])
      && (s.routes[d].valid && Reaches(s.routes, d, y) ==> !s2.routes[y].valid)
    {
      BrokenExact(cfg, s, d, now, y);
    }
    BrokenExact(cfg, s, d, now, d);
    HitInTurn(s.routes, s2.routes, d, x);
  }

  lemma LinkBreakParts(cfg: Config, s: State, d: Addr, now: Time)
    requires d in s.routes && s.routes[d].hops == 1
    ensures var s2 := Broken(cfg, s, d, now);
            var marked := Repairable(s2.routes, d);
            var s3 := s2.(routes := MarkRepair(s2.routes, marked));
            LinkBreak(cfg, s, d, now) == Collapse(cfg, s3, CascadeAll(s3.routes, Dependents(s3.routes, d)), marked, now)
  {
    hide Invalidate, Collapse, CascadeAll;
  }

  /** The last part of it. */
  lemma DependentsExact(cfg: Config, s: State, d: Addr, now: Time, x: Addr)
    requires d in s.routes && x in s.routes && !s.routes[d].valid
    ensures var marked := Repairable(s.routes, d);
            var s3 := s.(routes := MarkRepair(s.routes, marked));
            var r, mark := s.routes[x], s.routes[d].flags.repair && x in Dependents(s.routes, d) && s.routes[x].hops <= 10;
            && Collapse(cfg, s3, CascadeAll(s3.routes, Dependents(s3.routes, d)), marked, now).routes[x] ==
                 (if x in CascadeAll(s.routes, Dependents(s.routes, d)) then
                    Struck(cfg, r, r.flags.repair || mark, if mark then r.precursors else [], now)
                  else r)
            && (x in CascadeAll(s.routes, Dependents(s.routes, d)) ==> s.routes[x].valid)
            && (mark ==> x in CascadeAll(s.routes, Dependents(s.routes, d)))
  {
    hide Reaches, Collapse, CascadeAll, MarkRepair;
    var marked, from := Repairable(s.routes, d), Dependents(s.routes, d);
    var gone := CascadeAll(s.routes, from);
    MarkKeepsDependents(s.routes, marked, d);
    MarkKeepsCascades(s.routes, marked, from);
    DependentsReached(s.routes, d, x);
    MarkedStrikes(cfg, s, marked, gone, now, x);
  }

  lemma MarkKeepsDependents(routes: map<Addr, Route>, marked: set<Addr>, d: Addr)
    ensures Dependents(MarkRepair(routes, marked), d) == Dependents(routes, d)
  {
  }

  lemma DependentsReached(routes: map<Addr, Route>, d: Addr, x: Addr)
    requires x in routes
    ensures x in Dependents(routes, d) ==> x in CascadeAll(routes, Dependents(routes, d))
    ensures x in CascadeAll(routes, Dependents(routes, d)) ==> routes[x].valid
  {
    hide Reaches;
    var from := Dependents(routes, d);
    if x in from {
      CascadeAllHasRoot(routes, from, x);
    }
    if x in CascadeAll(routes, from) {
      var b :| b in from && Reaches(routes, b, x);
      if x != b {
        CascadeIsValid(routes, b, x);
      }
    }
  }

  lemma MarkedStrikes(cfg: Config, s: State, marked: set<Addr>, gone: set<Addr>, now: Time, x: Addr)
    requires x in s.routes && gone <= s.routes.Keys
    ensures MarkRepair(s.routes, marked).Keys == s.routes.Keys
    ensures var r := s.routes[x];
            x in gone || x !in marked ==>
            Collapse(cfg, s.(routes := MarkRepair(s.routes, marked)), gone, marked, now).routes[x] ==
              if x in gone then
                Struck(cfg, r, r.flags.repair || x in marked, if x in marked then r.precursors else [], now)
              else r
  {
  }

  /** What that means for the neighbour and those who use it. */
  lemma LinkBreakClean(cfg: Config, s: State, d: Addr, now: Time, x: Addr)
    requires d in s.routes && s.routes[d].hops == 1 && x in s.routes && (x == d || s.routes[x].nextHop == d)
    ensures s.routes[x].valid ==> Hit(s.routes, d, x)
    ensures !LinkBreak(cfg, s, d, now).routes[x].valid
  {
    hide Reaches, LinkBreak, ForRepair;
    CascadeHasRoot(s.routes, x);
    if x != d && s.routes[x].valid {
      assert x in Dependents(s.routes, d);
    }
    LinkBreakExact(cfg, s, d, now, x);
  }

  // ----- HELLO timers

  /** hello_timeout.  Only a VALID neighbour over a two-way link takes entries down when it is not
      heard any more: itself, marked for repair if local repair is on, and all that use it. */
  lemma HelloOutcome(cfg: Config, s: State, d: Addr, localRepair: bool, now: Time)
    requires d in s.routes
    ensures var s', r := HelloTimeout(cfg, s, d, localRepair, now), s.routes[d];
            && s'.routes.Keys == s.routes.Keys && s'.queue == s.queue && s'.log == s.log && s'.seeking == s.seeking
            && if !r.valid || r.flags.unidir then
                 s' == s.(routes := s.routes[d := r.(hello := false)])
               else if r.hops == 1 then
                 && (forall x :: x in s.routes && (x == d || s.routes[x].nextHop == d) ==> !s'.routes[x].valid)
                 && var repair := r.flags.repair || localRepair;
                 s'.routes[d] == Struck(cfg, r, repair, if repair then r.precursors else [], now)
               else
                 s' == s.(routes := s.routes[d := Unheard(r, localRepair)])
  {
    hide LinkBreak, TakesDown, Hit, ForRepair;
    var r := s.routes[d];
    if r.valid && !r.flags.unidir {
      var s1 := s.(routes := s.routes[d := Unheard(r, localRepair)]);
      HelloBreaks(cfg, s, d, localRepair, now);
      LinkBreakTraffic(cfg, s1, d, now);
      if r.hops == 1 {
        forall x | x in s.routes && (x == d || s.routes[x].nextHop == d) ensures !LinkBreak(cfg, s1, d, now).routes[x].valid {
          LinkBreakClean(cfg, s1, d, now, x);
        }
        LinkBreakClean(cfg, s1, d, now, d);
        LinkBreakExact(cfg, s1, d, now, d);
        NotForRepair(s1.routes, d);
      } else {
        FarFromBreak(cfg, s1, d, now);
      }
    }
  }

  function Unheard(r: Route, localRepair: bool): Route {
    r.(hello := false, flags := r.flags.(repair := r.flags.repair || (localRepair && r.hops <= 10)))
  }

  lemma HelloBreaks(cfg: Config, s: State, d: Addr, localRepair: bool, now: Time)
    requires d in s.routes && s.routes[d].valid && !s.routes[d].flags.unidir
    ensures HelloTimeout(cfg, s, d, localRepair, now) ==
            LinkBreak(cfg, s.(routes := s.routes[d := Unheard(s.routes[d], localRepair)]), d, now)
  {
    hide LinkBreak;
    var r := s.routes[d];
    var r1 := r.(hello := false, flags := r.flags.(repair := true));
    assert s.routes[d := r.(hello := false)][d := r1] == s.routes[d := r1];
  }

  lemma LinkBreakTraffic(cfg: Config, s: State, d: Addr, now: Time)
    ensures var s' := LinkBreak(cfg, s, d, now);
            s'.routes.Keys == s.routes.Keys && s'.queue == s.queue && s'.log == s.log && s'.seeking == s.seeking
  {
    hide LinkBreak;
    LinkBreakTakesDown(cfg, s, d, now);
  }

  lemma NotForRepair(routes: map<Addr, Route>, d: Addr)
    requires d in routes
    ensures !ForRepair(routes, d, d)
  {
  }

  lemma FarFromBreak(cfg: Config, s: State, d: Addr, now: Time)
    requires d in s.routes && s.routes[d].hops != 1
    ensures LinkBreak(cfg, s, d, now) == s
  {
  }

  /** A VALID neighbour that has been heard is no silent one: packets to it or from it renew it, and
      so do packets on routes to which it is the next hop once these are heard. */
  lemma HeardIsRenewed(cfg: Config, s: State, d: Addr, now: Time, other: Addr)
    requires d in s.routes && s.routes[d].valid
    ensures var s' := Next(cfg, s, now, HelloStarts(d));
            && d in s'.routes && Renews(cfg, s'.routes, d, other, d) && Renews(cfg, s'.routes, other, d, d)
            && var nh := s.routes[d].nextHop;
            (nh in s.routes && s.routes[nh].valid && nh != d ==> Renews(cfg, s'.routes, d, other, nh))
            && s' == s.(routes := s.routes[d := s'.routes[d]])
  {
  }

  // ----- Route timers

  /** The handlers.  route_expire_timeout takes down what a broken link does if the entry is a
      neighbour, and what an invalidation does otherwise; local_repair_timeout gives the repair up
      and starts the delete timer; route_delete_timeout removes the entry and no other. */
  lemma ExpireOutcome(cfg: Config, s: State, d: Addr, now: Time)
    requires d in s.routes
    ensures var s', r := Expire(cfg, s, d, now), s.routes[d];
            && s'.queue == s.queue && s'.log == s.log && s'.seeking == s.seeking
            && match r.timer.handler
               case RouteExpire => forall x :: x in s.routes ==> x in s'.routes && Expired(cfg, s.routes, d, x, s'.routes[x], now)
               case LocalRepair =>
                 && s'.active == s.active
                 && s'.routes == s.routes[d := r.(flags := r.flags.(repair := false), precursors := [],
                                                  timer := Timer(RouteDelete, true, now + cfg.deletePeriod))]
               case RouteDelete => s'.routes == s.routes - {d} && s'.active == s.active - (if r.valid then 1 else 0)
  {
    hide Invalidate, LinkBreak, Expired;
    var r := s.routes[d];
    var s1 := Put(s, d, r.(timer := r.timer.(used := false)));
    ExpireTraffic(cfg, s, d, now);
    ExpireSeeks(cfg, s, d, now);
    if r.timer.handler == RouteExpire {
      forall x | x in s.routes ensures x in Expire(cfg, s, d, now).routes &&
        Expired(cfg, s.routes, d, x, Expire(cfg, s, d, now).routes[x], now)
      {
        ExpiredAt(cfg, s, d, now, x);
      }
    } else if r.timer.handler == RouteDelete {
      assert s1.routes - {d} == s.routes - {d};
    } else {
      var r' := r.(flags := r.flags.(repair := false), precursors := [], timer := Timer(RouteDelete, true, now + cfg.deletePeriod));
      assert s1.routes[d := r'] == s.routes[d := r'];
    }
  }

  /** What route_expire_timeout on `d` leaves of the entry for `x`. */
  ghost predicate Expired(cfg: Config, routes: map<Addr, Route>, d: Addr, x: Addr, r': Route, now: Time)
    requires d in routes && x in routes
  {
    var r, near := routes[x], routes[d].hops == 1;
    var hit, mark := (if near then Hit(routes, d, x) else routes[d].valid && Reaches(routes, d, x)), near && ForRepair(routes, d, x);
    var keep := mark || (near && x == d && r.flags.repair);
    if hit then r' == Struck(cfg, r, r.flags.repair || mark, if keep then r.precursors else [], now)
    else if x == d then r' == r.(timer := r.timer.(used := false), precursors := if keep then r.precursors else [])
    else r' == r
  }

  lemma ExpiredAt(cfg: Config, s: State, d: Addr, now: Time, x: Addr)
    requires d in s.routes && s.routes[d].timer.handler == RouteExpire && x in s.routes
    ensures x in Expire(cfg, s, d, now).routes && Expired(cfg, s.routes, d, x, Expire(cfg, s, d, now).routes[x], now)
  {
    hide Invalidate, LinkBreak, Hit, ForRepair, Reaches;
    var r := s.routes[d];
    var s1 := Put(s, d, r.(timer := r.timer.(used := false)));
    TimerKeepsHits(s.routes, s1.routes, d, x);
    if r.hops == 1 {
      LinkBreakExact(cfg, s1, d, now, x);
      NotForRepair(s.routes, d);
    } else if r.valid {
      InvalidateExact(cfg, s1, d, now);
      CascadeHasRoot(s.routes, d);
    } else {
      InvalidateIdle(cfg, s1, d, now);
    }
  }

  /** Who depends on whom does not depend on timers. */
  lemma TimerKeepsHits(routes: map<Addr, Route>, routes': map<Addr, Route>, d: Addr, x: Addr)
    requires d in routes && x in routes && d in routes' && routes' == routes[d := routes'[d]]
    requires routes'[d] == routes[d].(timer := routes'[d].timer)
    ensures Reaches(routes', d, x) <==> Reaches(routes, d, x)
    ensures Hit(routes', d, x) <==> Hit(routes, d, x)
    ensures ForRepair(routes', d, x) <==> ForRepair(routes, d, x)
  {
    hide Reaches;
    assert Dependents(routes', d) == Dependents(routes, d);
    forall a, b ensures Reaches(routes', a, b) <==> Reaches(routes, a, b) {
      SameFeedsReach(routes, routes', a, b);
    }
  }

  lemma SameFeedsReach(routes: map<Addr, Route>, routes': map<Addr, Route>, a: Addr, b: Addr)
    requires forall x, y :: Feeds(routes', x, y) <==> Feeds(routes, x, y)
    ensures Reaches(routes', a, b) <==> Reaches(routes, a, b)
  {
    assert forall p :: IsChain(routes', p) <==> IsChain(routes, p);
  }

  lemma ExpireSeeks(cfg: Config, s: State, d: Addr, now: Time)
    ensures Expire(cfg, s, d, now).seeking == s.seeking
  {
    hide Invalidate, LinkBreak, TakesDown;
    if d in s.routes {
      var s1 := Put(s, d, s.routes[d].(timer := s.routes[d].timer.(used := false)));
      LinkBreakTakesDown(cfg, s1, d, now);
      InvalidateTakesDown(cfg, s1, d, now);
      TakedownSeeks(cfg, s1, LinkBreak(cfg, s1, d, now), now);
      TakedownSeeks(cfg, s1, Invalidate(cfg, s1, d, now), now);
    }
  }

  // ----- Failed searches, deletions, precursors

  /** route_discovery_timeout: the search ends, each packet that waited for `d` is refused in the
      order of arrival, the others go on waiting, and a repair is given up. */
  lemma SeekOutcome(cfg: Config, s: State, d: Addr, now: Time)
    ensures var s' := SeekFailed(cfg, s, d, now);
            if d !in s.seeking then s' == s else
            && s'.seeking == s.seeking - {d} && s'.active == s.active
            && (forall p :: p in s'.queue <==> p in s.queue && p.dest != d)
            && var pkts := Matching(s.queue, d);
            && |s'.log| == |s.log| + |pkts| && s'.log[..|s.log|] == s.log
            && (forall i :: 0 <= i < |pkts| ==> s'.log[|s.log| + i] == Verdict(pkts[i].id, d, false, d in s.kernel))
            && (forall p :: p in pkts <==> p in s.queue && p.dest == d)
            && s'.routes ==
                 if d in s.routes && s.routes[d].flags.repair then
                   s.routes[d := s.routes[d].(flags := s.routes[d].flags.(repair := false), precursors := [],
                                              timer := Timer(RouteDelete, true, now + cfg.deletePeriod))]
                 else s.routes
  {
    hide SeekFailed, Matching, Others, Verdicts;
    SeekShape(cfg, s, d, now);
    PartitionDests(s.queue, d);
    PartitionCovers(s.queue, d);
    RefusedInOrder(s.log, s.kernel, Matching(s.queue, d), d);
  }

  lemma SeekShape(cfg: Config, s: State, d: Addr, now: Time)
    ensures var s' := SeekFailed(cfg, s, d, now);
            if d !in s.seeking then s' == s else
            && s'.seeking == s.seeking - {d} && s'.active == s.active && s'.queue == Others(s.queue, d)
            && s'.log == s.log + Verdicts(s.kernel, Matching(s.queue, d), false)
            && s'.routes ==
                 if d in s.routes && s.routes[d].flags.repair then
                   s.routes[d := s.routes[d].(flags := s.routes[d].flags.(repair := false), precursors := [],
                                              timer := Timer(RouteDelete, true, now + cfg.deletePeriod))]
                 else s.routes
  {
    hide Matching, Others, Verdicts, DropRoutes;
  }

  lemma RefusedInOrder(log: seq<Event>, kernel: Kernel, pkts: seq<Buffered>, d: Addr)
    requires forall p :: p in pkts ==> p.dest == d
    ensures var log' := log + Verdicts(kernel, pkts, false);
            && |log'| == |log| + |pkts| && log'[..|log|] == log
            && forall i :: 0 <= i < |pkts| ==> log'[|log| + i] == Verdict(pkts[i].id, d, false, d in kernel)
  {
    assert forall i :: 0 <= i < |pkts| ==> pkts[i] in pkts;
  }

  lemma {:induction false} PartitionCovers(q: seq<Buffered>, d: Addr)
    ensures forall p :: p in q <==> p in Matching(q, d) || p in Others(q, d)
  {
    if q != [] {
      var init, last := q[..|q| - 1], q[|q| - 1];
      PartitionCovers(init, d);
      assert q == init + [last];
      MatchingOneMore(init, last, d);
    }
  }

  /** rt_table_delete: the entry is gone, the others are as they were. */
  lemma DeleteOutcome(s: State, d: Addr)
    ensures var s' := Delete(s, d);
            && d !in s'.routes && s'.routes.Keys == s.routes.Keys - {d}
            && (forall x :: x in s'.routes ==> s'.routes[x] == s.routes[x])
            && s'.queue == s.queue && s'.log == s.log && s'.seeking == s.seeking
  {
    hide DropRoutes;
  }

  ghost predicate NoneTwice(xs: seq<Addr>) {
    forall i, j :: 0 <= i < j < |xs| ==> xs[i] != xs[j]
  }

  /** precursor_add: the neighbour is a precursor, once, and all that were are still. */
  lemma PrecursorAdded(s: State, d: Addr, n: Addr)
    requires d in s.routes
    ensures var s' := AddPrecursor(s, d, n);
            && d in s'.routes && s' == s.(routes := s.routes[d := s.routes[d].(precursors := s'.routes[d].precursors)])
            && n in s'.routes[d].precursors && (n !in s.routes[d].precursors ==> s'.routes[d].precursors[0] == n)
            && (forall x :: x in s'.routes[d].precursors <==> x == n || x in s.routes[d].precursors)
            && (NoneTwice(s.routes[d].precursors) ==> NoneTwice(s'.routes[d].precursors))
            && AddPrecursor(s', d, n) == s'
  {
    var xs := s.routes[d].precursors;
    if n in xs {
      assert s.routes == s.routes[d := s.routes[d].(precursors := xs)];
    } else {
      assert ([n] + xs)[0] == n;
    }
  }

  // ----- Updates

  /** rt_table_update on an entry that is no gateway: it has the new values, without the mark of a
      repair that it ends.  Only if it moves a neighbour further than one hop away do others go
      down, and then all that use it. */
  lemma UpdateOutcome(cfg: Config, s: State, d: Addr, c: Change, now: Time)
    requires d in s.routes
    ensures var s', r := UpdatePlain(cfg, s, d, c, now), s.routes[d];
            var r' := s'.routes[d];
            && r'.valid && r'.nextHop == c.next && r'.hops == c.hops && r'.seqno == c.seqno
            && r'.flags == (if r.valid || !r.flags.repair then c.flags else c.flags.(repair := false))
            && r'.hello == (r.hello && !(r.hops == 1 && c.hops > 1))
            && r'.precursors == (if r.hops == 1 && c.hops > 1 && !r.flags.repair then [] else r.precursors)
            && if r.hops == 1 && c.hops > 1 then
                 forall x :: x in s.routes && x != d && s.routes[x].nextHop == d ==> !s'.routes[x].valid
               else
                 forall x :: x in s.routes && x != d ==> s'.routes[x].valid == s.routes[x].valid
  {
    hide Rewrite, Revive, TakesDown;
    var s1, s2 := RewriteShape(cfg, s, d, c, now);
    var t := Rewrite(cfg, s, d, c, now);
    RewriteRoot(cfg, s, d, c, now);
    RewriteKeeps(cfg, s, d, c, now);
    ReviveItself(cfg, t, d, c.lifetime, now);
    forall x | x in s.routes && x != d ensures Revive(cfg, t, d, c.lifetime, now).routes[x].valid == s2.routes[x].valid {
      ReviveLeaves(cfg, t, d, c.lifetime, now, x);
    }
  }

  lemma RewriteKeeps(cfg: Config, s: State, d: Addr, c: Change, now: Time)
    requires d in s.routes
    ensures var r, r' := s.routes[d], Rewrite(cfg, s, d, c, now).routes[d];
            && r'.hello == (r.hello && !(r.hops == 1 && c.hops > 1))
            && r'.precursors == (if r.hops == 1 && c.hops > 1 && !r.flags.repair then [] else r.precursors)
  {
    hide LinkBreak, Hit;
    if s.routes[d].hops == 1 && c.hops > 1 {
      LinkBreakExact(cfg, Put(Announce(s, d, c), d, s.routes[d].(hello := false)), d, now, d);
    }
  }

  /** The timer of a new entry.  An INVALID one waits for DELETE_PERIOD or, if it is to be repaired,
      for ACTIVE_ROUTE_TIMEOUT; a VALID one for its lifetime, and for ACTIVE_ROUTE_TIMEOUT at least
      if it was sought. */
  function FirstTimer(cfg: Config, c: Change, valid: bool, sought: bool, now: Time): Timer {
    if !valid then
      if c.flags.repair then Armed(LocalRepair, cfg.activeRouteTimeout, now) else Armed(RouteDelete, cfg.deletePeriod, now)
    else
      var t := Armed(RouteExpire, c.lifetime, now);
      if sought && t.timeout < now + cfg.activeRouteTimeout then Timer(RouteExpire, true, now + cfg.activeRouteTimeout) else t
  }

  /** A delay of 0 leaves a new timer alone. */
  function Armed(handler: Handler, delay: nat, now: Time): Timer {
    if delay == 0 then Timer(handler, false, 0) else Timer(handler, true, now + delay)
  }

  /** rt_table_insert: the new entry; a VALID one ends the search for it, and its next hop then lives
      on for ACTIVE_ROUTE_TIMEOUT as well. */
  lemma InsertOutcome(cfg: Config, s: State, d: Addr, c: Change, valid: bool, now: Time)
    requires d !in s.routes
    ensures var s' := Insert(cfg, s, d, c, valid, now);
            && s'.routes.Keys == s.routes.Keys + {d}
            && s'.routes[d] == Route(c.next, c.hops, c.seqno, c.flags, valid,
                                     FirstTimer(cfg, c, valid, d in s.seeking, now), false, [])
            && s'.seeking == (if valid then s.seeking - {d} else s.seeking)
            && forall x :: x in s.routes ==>
                 s'.routes[x] == if valid && d in s.seeking && x == c.next && s.routes[x].valid
                                 then NotBefore(s.routes[x], now + cfg.activeRouteTimeout) else s.routes[x]
  {
    hide Insert, TouchPath;
    InsertShape(cfg, s, d, c, valid, now);
    var routes := s.routes[d := NewRoute(cfg, c, valid, now)];
    if valid && d in s.seeking {
      forall x | x in routes ensures x in TouchPath(cfg, routes, d, now) && TouchPath(cfg, routes, d, now)[x] ==
        if x == d || (x == c.next && routes[x].valid) then NotBefore(routes[x], now + cfg.activeRouteTimeout) else routes[x]
      {
        TouchPathExact(cfg, routes, d, now, x);
      }
      TouchPathExact(cfg, routes, d, now, d);
    }
  }

  lemma InsertShape(cfg: Config, s: State, d: Addr, c: Change, valid: bool, now: Time)
    requires d !in s.routes
    ensures var s', routes := Insert(cfg, s, d, c, valid, now), s.routes[d := NewRoute(cfg, c, valid, now)];
            && s'.routes == (if valid && d in s.seeking then TouchPath(cfg, routes, d, now) else routes)
            && s'.seeking == (if valid then s.seeking - {d} else s.seeking)
  {
    hide Matching, Others, AddRoute, TouchPath, NewRoute;
  }

  /** Traffic to a VALID destination renews it and its next hop. */
  lemma TouchPathExact(cfg: Config, routes: map<Addr, Route>, d: Addr, now: Time, x: Addr)
    requires d in routes && routes[d].valid && x in routes
    ensures var routes' := TouchPath(cfg, routes, d, now);
            && routes'.Keys == routes.Keys
            && routes'[x] == if x == d || (x == routes[d].nextHop && routes[x].valid)
                             then NotBefore(routes[x], now + cfg.activeRouteTimeout) else routes[x]
  {
  }
}
