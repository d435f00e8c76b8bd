/** Breaking the link to a neighbour: the loop of neighbor_link_break visits the dependents
    of the neighbour one by one, in any order, and each takes down its own cascade. */
module LinkFailure {
  import opened Basics
  import opened Route
  import opened DaemonSpec
  import opened GatewayChains

  lemma MarkKeepsFeeds(routes: map<Addr, Route>, marked: set<Addr>, a: Addr, b: Addr)
    ensures Feeds(MarkRepair(routes, marked), a, b) <==> Feeds(routes, a, b)
  {
  }

  lemma MarkKeepsReach(routes: map<Addr, Route>, marked: set<Addr>, a: Addr, b: Addr)
    ensures Reaches(MarkRepair(routes, marked), a, b) <==> Reaches(routes, a, b)
  {
    forall p ensures IsChain(MarkRepair(routes, marked), p) <==> IsChain(routes, p) {
      forall i, j | 0 <= i < j < |p| && j == i + 1 {
        MarkKeepsFeeds(routes, marked, p[i], p[j]);
      }
    }
  }

  lemma MarkKeepsCascades(routes: map<Addr, Route>, marked: set<Addr>, from: set<Addr>)
    ensures CascadeAll(MarkRepair(routes, marked), from) == CascadeAll(routes, from)
  {
    forall a, b {
      MarkKeepsReach(routes, marked, a, b);
    }
  }

  lemma MarkKeepsDrops(kernel: Kernel, routes: map<Addr, Route>, marked: set<Addr>, gone: set<Addr>)
    requires gone <= routes.Keys
    ensures DropRoutes(kernel, MarkRepair(routes, marked), gone) == DropRoutes(kernel, routes, gone)
  {
  }

  /** What a VALID entry takes down with it does not have the INVALID `d` as its next hop. */
  lemma NotDependent(routes: map<Addr, Route>, d: Addr, b: Addr, x: Addr)
    requires d in routes && !routes[d].valid && b != d && x in Cascade(routes, b) && x != b
    ensures routes[x].nextHop != d
  {
    var p :| |p| > 0 && p[0] == b && p[|p| - 1] == x && IsChain(routes, p);
    assert Feeds(routes, p[|p| - 2], p[|p| - 1]);
    if |p| > 2 {
      assert Feeds(routes, p[|p| - 3], p[|p| - 2]);
    }
  }

  /** A dependent of an INVALID entry falls only when its own turn comes. */
  lemma DependentsStand(routes: map<Addr, Route>, d: Addr, done: set<Addr>, b: Addr)
    requires d in routes && !routes[d].valid && done <= Dependents(routes, d)
    requires b in Dependents(routes, d) && b !in done
    ensures b !in CascadeAll(routes, done)
  {
    forall a | a in done && Reaches(routes, a, b) ensures false {
      NotDependent(routes, d, a, b);
    }
  }

  /** With the cascades of `done` down, what the next dependent takes down is what is still
      missing from the cascades of `done` and itself. */
  lemma CascadesAddUp(routes: map<Addr, Route>, left: map<Addr, Route>, done: set<Addr>, b: Addr)
    requires routes.Keys == left.Keys && b in routes && routes[b].valid
    requires b !in CascadeAll(routes, done)
    requires forall x :: x in left ==>
      if x in CascadeAll(routes, done) then !left[x].valid else left[x] == routes[x]
    ensures CascadeAll(routes, done) !! Cascade(left, b)
    ensures CascadeAll(routes, done) + Cascade(left, b) == CascadeAll(routes, done + {b})
  {
    var gone, more := CascadeAll(routes, done), Cascade(left, b);
    forall x | x in more ensures x !in gone && Reaches(routes, b, x) {
      assert Remnant(routes, left);
      ReachesBefore(routes, left, b, x);
      if x != b {
        CascadeIsValid(left, b, x);
      }
    }
    CascadeHasRoot(left, b);
    var both := gone + more;
    forall x, y | x in both && Feeds(routes, x, y) ensures y in both {
      if x in gone {
        var a :| a in done && Reaches(routes, a, x);
        ReachesFurther(routes, a, x, y);
      } else if y !in gone {
        assert Feeds(left, x, y);
        ReachesFurther(left, b, x, y);
      }
    }
    ClosedCovers(routes, b, both);
    assert forall x :: x in CascadeAll(routes, done + {b}) ==> x in gone || x in Cascade(routes, b);
  }

  /** Taking disjoint sets down one after the other. */
  lemma CollapseInTurn(cfg: Config, s: State, gone: set<Addr>, more: set<Addr>, keep: set<Addr>, b: Addr, now: Time)
    requires gone <= s.routes.Keys && more <= s.routes.Keys && gone !! more
    requires b in more && forall x :: x in more && x != b ==> x !in keep
    ensures var p := Collapse(cfg, s, gone, keep, now);
            more <= p.routes.Keys &&
            var q := Collapse(cfg, p, more, {b}, now);
            b in q.routes &&
            (if b in keep then q else Put(q, b, Forget(q.routes[b]))) == Collapse(cfg, s, gone + more, keep, now)
  {
    hide DropRoutes, Fallen;
    var p := Collapse(cfg, s, gone, keep, now);
    FallenTurns(cfg, s.routes, gone, more, keep, b, now);
    DropTwice(s.kernel, s.routes, p.routes, gone, more);
  }

  lemma FallenTurns(cfg: Config, routes: map<Addr, Route>, gone: set<Addr>, more: set<Addr>, keep: set<Addr>, b: Addr, now: Time)
    requires gone !! more && b in more && (forall y :: y in more && y != b ==> y !in keep) && more <= routes.Keys
    ensures var p := Fallen(cfg, routes, gone, keep, now);
            var q := Fallen(cfg, p, more, {b}, now);
            && p.Keys == routes.Keys && b in q
            && (forall x :: x in more ==> p[x].nextHop == routes[x].nextHop && p[x].hops == routes[x].hops)
            && (if b in keep then q else q[b := Forget(q[b])]) == Fallen(cfg, routes, gone + more, keep, now)
            && |gone + more| == |gone| + |more|
  {
    hide Fall;
    var p := Fallen(cfg, routes, gone, keep, now);
    var q := Fallen(cfg, p, more, {b}, now);
    var q' := if b in keep then q else q[b := Forget(q[b])];
    var z := Fallen(cfg, routes, gone + more, keep, now);
    forall x | x in routes ensures q'[x] == z[x] && (x in more ==> p[x] == routes[x]) {
      FallenInTurn(cfg, routes, gone, more, keep, b, now, x);
    }
    assert q'.Keys == z.Keys;
    assert q' == z;
  }

  lemma FallenInTurn(cfg: Config, routes: map<Addr, Route>, gone: set<Addr>, more: set<Addr>, keep: set<Addr>, b: Addr, now: Time,
      x: Addr)
    requires gone !! more && b in more && (forall y :: y in more && y != b ==> y !in keep) && x in routes
    ensures var p := Fallen(cfg, routes, gone, keep, now);
            var q := Fallen(cfg, p, more, {b}, now);
            && x in p && x in q && (x in more ==> p[x] == routes[x])
            && (if x == b && b !in keep then Forget(q[x]) else q[x]) == Fallen(cfg, routes, gone + more, keep, now)[x]
  {
  }

  /** The state of the loop in neighbor_link_break(d), entered in `s`, when the dependents
      `done` have been visited. */
  ghost function Breaking(cfg: Config, s: State, d: Addr, done: set<Addr>, now: Time): State
    requires d in s.routes
  {
    var marked := Repairable(s.routes, d);
    Collapse(cfg, s.(routes := MarkRepair(s.routes, marked * done)), CascadeAll(s.routes, done), marked, now)
  }

  lemma BreakStarts(cfg: Config, s: State, d: Addr, now: Time)
    requires d in s.routes
    ensures Breaking(cfg, s, d, {}, now) == s
  {
    var b := Breaking(cfg, s, d, {}, now);
    assert CascadeAll(s.routes, {}) == {};
    assert b.routes == s.routes && b.kernel == s.kernel;
  }

  lemma BreakEnds(cfg: Config, s: State, d: Addr, now: Time)
    requires d in s.routes
    ensures var marked := Repairable(s.routes, d);
            var s' := s.(routes := MarkRepair(s.routes, marked));
            Breaking(cfg, s, d, Dependents(s.routes, d), now)
              == Collapse(cfg, s', CascadeAll(s'.routes, Dependents(s'.routes, d)), marked, now)
  {
    var marked := Repairable(s.routes, d);
    assert marked * Dependents(s.routes, d) == marked;
    var routes' := MarkRepair(s.routes, marked);
    assert Dependents(routes', d) == Dependents(s.routes, d);
    MarkKeepsCascades(s.routes, marked, Dependents(s.routes, d));
  }

  /** A dependent that has not been visited is untouched; other entries fail the loop's test. */
  lemma BreakLeaves(cfg: Config, s: State, d: Addr, done: set<Addr>, b: Addr, now: Time)
    requires d in s.routes && !s.routes[d].valid && done <= Dependents(s.routes, d) && b in s.routes
    ensures var cur := Breaking(cfg, s, d, done, now).routes;
            && cur.Keys == s.routes.Keys
            && (cur[b].valid && cur[b].nextHop == d && b != d <==> b in Dependents(s.routes, d) && b !in done)
            && (b in Dependents(s.routes, d) && b !in done ==> cur[b] == s.routes[b])
            && cur[d] == s.routes[d]
  {
    var gone := CascadeAll(s.routes, done);
    if b in Dependents(s.routes, d) && b !in done {
      DependentsStand(s.routes, d, done, b);
    }
    if b in done {
      CascadeHasRoot(s.routes, b);
    }
    if d in gone {
      var a :| a in done && Reaches(s.routes, a, d);
      CascadeIsValid(s.routes, a, d);
    }
  }

  /** Marking the dependent whose turn it is. */
  lemma BreakMarks(cfg: Config, s: State, d: Addr, done: set<Addr>, b: Addr, now: Time)
    requires d in s.routes && b in s.routes && b !in CascadeAll(s.routes, done)
    ensures var marked := Repairable(s.routes, d);
            var cur := Breaking(cfg, s, d, done, now);
            var r := s.routes[b];
            var s' := s.(routes := MarkRepair(s.routes, marked * (done + {b})));
            (if b in marked then Put(cur, b, r.(flags := r.flags.(repair := true))) else cur)
              == Collapse(cfg, s', CascadeAll(s.routes, done), marked, now)
  {
    hide Reaches, IsChain, CascadeAll, Repairable, DropRoutes;
    var marked := Repairable(s.routes, d);
    var gone := CascadeAll(s.routes, done);
    var cur := Breaking(cfg, s, d, done, now);
    var r := s.routes[b];
    var cur' := if b in marked then Put(cur, b, r.(flags := r.flags.(repair := true))) else cur;
    var s' := s.(routes := MarkRepair(s.routes, marked * (done + {b})));
    var fallen := Fallen(cfg, s'.routes, gone, marked, now);
    assert cur'.routes.Keys == fallen.Keys;
    forall x | x in fallen ensures cur'.routes[x] == fallen[x] {
      assert x != b ==> (x in marked * done <==> x in marked * (done + {b}));
    }
    MarkKeepsDrops(s.kernel, s.routes, marked * done, gone);
    MarkKeepsDrops(s.kernel, s.routes, marked * (done + {b}), gone);
  }

  /** One visit. */
  lemma BreakRound(cfg: Config, s: State, d: Addr, done: set<Addr>, b: Addr, now: Time)
    requires d in s.routes && !s.routes[d].valid && done <= Dependents(s.routes, d)
    requires b in Dependents(s.routes, d) && b !in done
    ensures var cur := Breaking(cfg, s, d, done, now);
            var r := s.routes[b];
            var mark := b in Repairable(s.routes, d);
            var cur' := if mark then Put(cur, b, r.(flags := r.flags.(repair := true))) else cur;
            var cur'' := Invalidate(cfg, cur', b, now);
            && b in cur.routes && b in cur'.routes && b in cur''.routes
            && (if mark then cur'' else Put(cur'', b, Forget(cur''.routes[b]))) == Breaking(cfg, s, d, done + {b}, now)
  {
    hide Reaches, IsChain, CascadeAll, Cascade;
    var marked := Repairable(s.routes, d);
    var gone := CascadeAll(s.routes, done);
    DependentsStand(s.routes, d, done, b);
    BreakMarks(cfg, s, d, done, b, now);
    var s' := s.(routes := MarkRepair(s.routes, marked * (done + {b})));
    var cur' := Collapse(cfg, s', gone, marked, now);
    MarkKeepsCascades(s.routes, marked * (done + {b}), done);
    MarkKeepsCascades(s.routes, marked * (done + {b}), done + {b});
    CascadesAddUp(s'.routes, cur'.routes, done, b);
    CascadeHasRoot(cur'.routes, b);
    var more := Cascade(cur'.routes, b);
    forall x | x in more && x != b ensures x !in marked {
      NotDependent(cur'.routes, d, b, x);
    }
    CollapseInTurn(cfg, s', gone, more, marked, b, now);
  }

  /** Invalidation leaves every entry that stays VALID exactly as it was. */
  lemma InvalidateRemnant(cfg: Config, s: State, d: Addr, now: Time)
    ensures Remnant(s.routes, Invalidate(cfg, s, d, now).routes)
  {
  }

  lemma CascadeAllHasRoot(routes: map<Addr, Route>, from: set<Addr>, x: Addr)
    requires x in from && x in routes
    ensures x in CascadeAll(routes, from)
  {
    CascadeHasRoot(routes, x);
  }
}
