/** What depends on a gateway: lemmas about chains of gateways and about taking a set of
    entries down in several rounds. */
module GatewayChains {
  import opened SeqNo
  import opened Basics
  import opened Route
  import opened DaemonSpec

  lemma CascadeHasRoot(routes: map<Addr, Route>, d: Addr)
    requires d in routes
    ensures d in Cascade(routes, d)
  {
    var p := [d];
    assert p[0] == d && p[|p| - 1] == d && IsChain(routes, p);
  }

  /** Following one more link stays inside the cascade. */
  lemma ReachesFurther(routes: map<Addr, Route>, a: Addr, b: Addr, c: Addr)
    requires Reaches(routes, a, b) && Feeds(routes, b, c)
    ensures Reaches(routes, a, c)
  {
    var p :| |p| > 0 && p[0] == a && p[|p| - 1] == b && IsChain(routes, p);
    var q := p + [c];
    assert q[0] == a && q[|q| - 1] == c && IsChain(routes, q);
  }

  lemma ReachesThrough(routes: map<Addr, Route>, a: Addr, b: Addr, c: Addr)
    requires Feeds(routes, a, b) && Reaches(routes, b, c)
    ensures Reaches(routes, a, c)
  {
    var p :| |p| > 0 && p[0] == b && p[|p| - 1] == c && IsChain(routes, p);
    var q := [a] + p;
    assert q[0] == a && q[|q| - 1] == c;
    forall i, j | 0 <= i < j < |q| && j == i + 1 ensures Feeds(routes, q[i], q[j]) {
      if i > 0 {
        assert q[i] == p[i - 1] && q[j] == p[j - 1];
      }
    }
    assert IsChain(routes, q);
  }

  /** A set that contains the root and is closed under the links contains the cascade. */
  lemma ClosedCovers(routes: map<Addr, Route>, d: Addr, closed: set<Addr>)
    requires d in closed
    requires forall a, b :: a in closed && Feeds(routes, a, b) ==> b in closed
    ensures Cascade(routes, d) <= closed
  {
    forall x | x in Cascade(routes, d) ensures x in closed {
      var p :| |p| > 0 && p[0] == d && p[|p| - 1] == x && IsChain(routes, p);
      ChainStaysInside(routes, p, closed, |p| - 1);
    }
  }

  lemma {:induction false} ChainStaysInside(routes: map<Addr, Route>, p: seq<Addr>, closed: set<Addr>, k: nat)
    requires k < |p| && p[0] in closed && IsChain(routes, p)
    requires forall a, b :: a in closed && Feeds(routes, a, b) ==> b in closed
    ensures p[k] in closed
  {
    if k > 0 {
      ChainStaysInside(routes, p, closed, k - 1);
      assert Feeds(routes, p[k - 1], p[k]);
    }
  }

  /** Every entry of a cascade but its root is there because of its next hop. */
  lemma LastLink(routes: map<Addr, Route>, a: Addr, y: Addr)
    requires Reaches(routes, a, y) && y != a
    ensures y in routes && Reaches(routes, a, routes[y].nextHop) && Feeds(routes, routes[y].nextHop, y)
  {
    var p :| |p| > 0 && p[0] == a && p[|p| - 1] == y && IsChain(routes, p);
    var q := p[..|p| - 1];
    assert Feeds(routes, p[|p| - 2], p[|p| - 1]);
    assert q[0] == a && q[|q| - 1] == routes[y].nextHop && IsChain(routes, q);
  }

  /** Every entry of a cascade but its root is VALID. */
  lemma CascadeIsValid(routes: map<Addr, Route>, d: Addr, x: Addr)
    requires x in Cascade(routes, d) && x != d
    ensures routes[x].valid && routes[x].flags.inetDest
  {
    var p :| |p| > 0 && p[0] == d && p[|p| - 1] == x && IsChain(routes, p);
    assert Feeds(routes, p[|p| - 2], p[|p| - 1]);
  }

  /** `later` is what is left of `routes` after some entries fell: those still VALID are unchanged. */
  ghost predicate Remnant(routes: map<Addr, Route>, later: map<Addr, Route>) {
    routes.Keys == later.Keys &&
    forall x :: x in later && later[x].valid ==> later[x] == routes[x]
  }

  /** What a VALID entry of a remnant reaches, it reached before. */
  lemma ReachesBefore(routes: map<Addr, Route>, later: map<Addr, Route>, a: Addr, b: Addr)
    requires Remnant(routes, later) && a in later && later[a].valid
    requires Reaches(later, a, b)
    ensures Reaches(routes, a, b)
  {
    var p :| |p| > 0 && p[0] == a && p[|p| - 1] == b && IsChain(later, p);
    forall i, j | 0 <= i < j < |p| && j == i + 1 ensures Feeds(routes, p[i], p[j]) {
      assert Feeds(later, p[i], p[j]);
      if i > 0 {
        assert Feeds(later, p[i - 1], p[i]);
      }
    }
    assert IsChain(routes, p);
  }

  /** One nested round of rt_table_invalidate.  The root `d` is half way down (its entry is
      `h`) and `gone` has fallen; the VALID entry `b` depends on `d`, and `more` is its own
      cascade in what is left.  Then `more` is part of the cascade of `d`, is disjoint from
      `gone`, and is closed together with it. */
  lemma NestedCascade(cfg: Config, s: State, d: Addr, gone: set<Addr>, h: Route, b: Addr, now: Time)
    requires d in gone && gone <= Cascade(s.routes, d) && d in s.routes && !h.valid
    requires Feeds(s.routes, d, b) && b !in gone
    requires forall x, y :: x in gone && x != d && Feeds(s.routes, x, y) ==> y in gone
    ensures var left := Put(Collapse(cfg, s, gone, {d}, now), d, h).routes;
            var more := Cascade(left, b);
            && b in left && left[b].valid && b in more
            && more <= Cascade(s.routes, d)
            && more !! gone
            && (forall x, y :: x in gone + more && x != d && Feeds(s.routes, x, y) ==> y in gone + more)
  {
    var left := Put(Collapse(cfg, s, gone, {d}, now), d, h).routes;
    var more := Cascade(left, b);
    assert left.Keys == s.routes.Keys;
    assert Remnant(s.routes, left);
    CascadeHasRoot(left, b);
    forall x | x in more ensures x in Cascade(s.routes, d) && x !in gone && left[x].valid {
      ReachesBefore(s.routes, left, b, x);
      ReachesThrough(s.routes, d, b, x);
      if x != b {
        CascadeIsValid(left, b, x);
      }
    }
    forall x, y | x in gone + more && x != d && Feeds(s.routes, x, y) ensures y in gone + more {
      if x in more && y !in gone {
        assert Feeds(left, x, y);
        ReachesFurther(left, b, x, y);
      }
    }
  }

  lemma FallenTwice(cfg: Config, routes: map<Addr, Route>, gone: set<Addr>, more: set<Addr>, d: Addr, h: Route, b: Addr, now: Time)
    requires gone <= routes.Keys && more <= routes.Keys && gone !! more && d in gone && b in more
    ensures var p := Fallen(cfg, routes, gone, {d}, now)[d := h];
            var q := Fallen(cfg, p, more, {b}, now);
            q[b := Forget(q[b])] == Fallen(cfg, routes, gone + more, {d}, now)[d := h]
  {
    var p := Fallen(cfg, routes, gone, {d}, now)[d := h];
    var q := Fallen(cfg, p, more, {b}, now);
    var q' := q[b := Forget(q[b])];
    var z := Fallen(cfg, routes, gone + more, {d}, now)[d := h];
    assert p.Keys == routes.Keys;
    assert q'.Keys == z.Keys;
    forall x | x in z ensures q'[x] == z[x] {
      if x in more {
        assert p[x] == routes[x];
      }
    }
  }

  lemma DropTwice(kernel: Kernel, routes: map<Addr, Route>, left: map<Addr, Route>, gone: set<Addr>, more: set<Addr>)
    requires gone <= routes.Keys && more <= routes.Keys && routes.Keys == left.Keys
    requires forall x :: x in more ==> left[x].nextHop == routes[x].nextHop && left[x].hops == routes[x].hops
    ensures DropRoutes(DropRoutes(kernel, routes, gone), left, more) == DropRoutes(kernel, routes, gone + more)
  {
  }

  /** Taking `more` down after `gone` is taking both down at once. */
  lemma CollapseTwice(cfg: Config, s: State, gone: set<Addr>, more: set<Addr>, d: Addr, h: Route, b: Addr, now: Time)
    requires gone <= s.routes.Keys && more <= s.routes.Keys && gone !! more && d in gone && b in more
    ensures var p := Put(Collapse(cfg, s, gone, {d}, now), d, h);
            more <= p.routes.Keys &&
            var q := Collapse(cfg, p, more, {b}, now);
            b in q.routes &&
            Put(q, b, Forget(q.routes[b])) == Put(Collapse(cfg, s, gone + more, {d}, now), d, h)
  {
    var p := Put(Collapse(cfg, s, gone, {d}, now), d, h);
    FallenTwice(cfg, s.routes, gone, more, d, h, b, now);
    DropTwice(s.kernel, s.routes, p.routes, gone, more);
  }

  /** A state inside rt_table_invalidate of `d`, half done: of the original state `s` exactly
      `gone` has fallen, all of it part of the cascade, and only `d` may still have
      dependents that stand. */
  ghost predicate Sweeping(cfg: Config, s: State, cur: State, d: Addr, gone: set<Addr>, now: Time) {
    && d in s.routes && s.routes[d].valid && d in gone && gone <= Cascade(s.routes, d)
    && cur == Put(Collapse(cfg, s, gone, {d}, now), d, Strike(s.routes[d]))
    && forall x, y :: x in gone && x != d && Feeds(s.routes, x, y) ==> y in gone
  }

  lemma SweepStarts(cfg: Config, s: State, d: Addr, kernel: Kernel, now: Time)
    requires d in s.routes && s.routes[d].valid
    requires kernel == DropRoute(s.kernel, d, s.routes[d].nextHop, s.routes[d].hops)
    ensures Sweeping(cfg, s, Put(s, d, Strike(s.routes[d])).(active := s.active - 1, kernel := kernel), d, {d}, now)
  {
    CascadeHasRoot(s.routes, d);
    DropsOne(s.kernel, s.routes, d);
    var h := Strike(s.routes[d]);
    assert Fallen(cfg, s.routes, {d}, {d}, now)[d := h] == s.routes[d := h];
  }

  /** Invalidating a dependent `b` of `d`, and dropping its precursors, is one round. */
  lemma SweepRound(cfg: Config, s: State, cur: State, d: Addr, gone: set<Addr>, b: Addr, now: Time)
    requires Sweeping(cfg, s, cur, d, gone, now)
    requires s.routes[d].flags.gateway
    requires b in cur.routes && cur.routes[b].valid && cur.routes[b].flags.inetDest && cur.routes[b].nextHop == d
    ensures ValidSet(cur.routes) < ValidSet(s.routes)
    ensures var next := Invalidate(cfg, cur, b, now);
            && b in next.routes
            && Sweeping(cfg, s, Put(next, b, Forget(next.routes[b])), d, gone + Cascade(cur.routes, b), now)
            && b in gone + Cascade(cur.routes, b)
  {
    var more := Cascade(cur.routes, b);
    var h := Strike(s.routes[d]);
    NestedCascade(cfg, s, d, gone, h, b, now);
    CollapseTwice(cfg, s, gone, more, d, h, b, now);
    assert d in ValidSet(s.routes) && d !in ValidSet(cur.routes);
    assert ValidSet(cur.routes) <= ValidSet(s.routes);
  }

  /** An entry that no longer matches the loop's test needs no round. */
  lemma SweepSkips(cfg: Config, s: State, cur: State, d: Addr, gone: set<Addr>, b: Addr, now: Time)
    requires Sweeping(cfg, s, cur, d, gone, now) && b in cur.routes
    requires !(cur.routes[b].valid && cur.routes[b].flags.inetDest && cur.routes[b].nextHop == d)
    ensures Feeds(s.routes, d, b) ==> b in gone
  {
  }

  /** When `d` has no dependents left standing, the whole cascade is down. */
  lemma SweepEnds(cfg: Config, s: State, cur: State, d: Addr, gone: set<Addr>, now: Time)
    requires Sweeping(cfg, s, cur, d, gone, now)
    requires forall x :: x in cur.routes && Feeds(s.routes, d, x) ==> x in gone
    ensures d in cur.routes
    ensures Put(cur, d, Rest(cfg, cur.routes[d], now)) == Invalidate(cfg, s, d, now)
  {
    assert cur.routes.Keys == s.routes.Keys;
    ClosedCovers(s.routes, d, gone);
    var h := Strike(s.routes[d]);
    var fallen: map<Addr, Route> := Fallen(cfg, s.routes, gone, {d}, now);
    assert fallen[d := h][d := Rest(cfg, h, now)] == fallen;
    assert gone == Cascade(s.routes, d);
  }

  /** Invalidating an INVALID entry again changes nothing. */
  lemma InvalidateIdle(cfg: Config, s: State, d: Addr, now: Time)
    requires d in s.routes ==> !s.routes[d].valid
    ensures Invalidate(cfg, s, d, now) == s
  {
  }

  /** What rt_table_invalidate does to the entry it is called on. */
  lemma InvalidateRoot(cfg: Config, s: State, d: Addr, now: Time)
    requires d in s.routes
    ensures Invalidate(cfg, s, d, now).routes[d] ==
            if s.routes[d].valid then Fall(cfg, s.routes[d], now) else s.routes[d]
  {
    CascadeHasRoot(s.routes, d);
  }

  /** What is left of the VALID entry `r` that went down at `now`: it waits for DELETE_PERIOD to be
      deleted or, if it is to be repaired, for ACTIVE_ROUTE_TIMEOUT. */
  function Struck(cfg: Config, r: Route, repair: bool, precursors: seq<Addr>, now: Time): Route {
    Route(r.nextHop, r.hops, Incr(r.seqno), r.flags.(repair := repair), false,
          if repair then Timer(LocalRepair, true, now + cfg.activeRouteTimeout)
          else Timer(RouteDelete, true, now + cfg.deletePeriod),
          false, precursors)
  }

  /** rt_table_invalidate as a whole: exactly the VALID entries that the entry reaches through
      chains of gateways go down, each with its sequence number raised once; everything else,
      and the kernel's routes to everything else, stay as they were. */
  lemma InvalidateExact(cfg: Config, s: State, d: Addr, now: Time)
    requires d in s.routes && s.routes[d].valid
    ensures var s' := Invalidate(cfg, s, d, now);
            && s'.routes.Keys == s.routes.Keys
            && (forall x :: x in s.routes ==>
                  var r := s.routes[x];
                  (Reaches(s.routes, d, x) <==> r.valid && !s'.routes[x].valid) &&
                  if Reaches(s.routes, d, x) then
                    && (x != d ==> r.flags.inetDest)
                    && s'.routes[x] == Struck(cfg, r, r.flags.repair, if x == d then r.precursors else [], now)
                  else
                    s'.routes[x] == r)
            && s.active - s'.active == |ValidSet(s.routes) - ValidSet(s'.routes)|
            && (forall x :: x in s.kernel && !(x in s.routes && Reaches(s.routes, d, x)) ==>
                  x in s'.kernel && s'.kernel[x] == s.kernel[x])
  {
    hide Reaches, Fall;
    var s' := Invalidate(cfg, s, d, now);
    var gone := Cascade(s.routes, d);
    CascadeHasRoot(s.routes, d);
    forall x | x in gone ensures s.routes[x].valid && (x != d ==> s.routes[x].flags.inetDest) {
      if x != d {
        CascadeIsValid(s.routes, d, x);
      }
    }
    forall x | x in gone ensures
      var r := s.routes[x];
      s'.routes[x] == Struck(cfg, r, r.flags.repair, if x == d then r.precursors else [], now)
    {
      FallStrikes(cfg, s.routes[x], now);
    }
    assert gone == ValidSet(s.routes) - ValidSet(s'.routes);
  }

  lemma FallStrikes(cfg: Config, r: Route, now: Time)
    ensures Fall(cfg, r, now) == Struck(cfg, r, r.flags.repair, r.precursors, now)
    ensures Forget(Fall(cfg, r, now)) == Struck(cfg, r, r.flags.repair, [], now)
  {
  }

  /** Once is enough: invalidating the same entry, or any that went down with it, changes nothing
      more, whenever it is done. */
  lemma InvalidateTwice(cfg: Config, s: State, d: Addr, now: Time, x: Addr, later: Time)
    requires x == d || (d in s.routes && s.routes[d].valid && Reaches(s.routes, d, x))
    ensures Invalidate(cfg, Invalidate(cfg, s, d, now), x, later) == Invalidate(cfg, s, d, now)
  {
    hide Reaches;
    if d in s.routes && s.routes[d].valid {
      CascadeHasRoot(s.routes, d);
    }
  }
}
