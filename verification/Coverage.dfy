/** The kernel should have some route to every VALID entry, its own or an older one.  `StepCovers`
    says exactly when a step keeps that up. */
module Coverage {
  import opened Basics
  import opened Route
  import opened DaemonSpec
  import opened Takedown
  import opened UpdateParts
  import opened Timers
  import opened Lifetimes
  import opened Mirror
  import opened GatewayMoves
  import opened GatewayOwn
  import opened GatewayMirror
  import opened MirrorRuns

  /** The kernel can reach every VALID entry, by its own route or an older one. */
  ghost predicate Covered(s: State) {
    forall x :: x in s.routes && s.routes[x].valid ==> KernelOf(s, x) != map[]
  }

  // ----- A plain update

  /** The update of a VALID entry leaves no route to it. */
  predicate Severs(s: State, d: Addr, c: Change)
    requires d in s.routes
  {
    s.routes[d].valid && Told(KernelOf(s, d), s.routes[d], c) == map[]
  }

  /** Only the update of a neighbour that moves away without a new next hop can do that. */
  lemma SeversOnly(s: State, d: Addr, c: Change)
    requires d in s.routes && KernelOf(s, d) != map[]
    ensures Severs(s, d, c) <==>
      var r := s.routes[d];
      r.valid && Demotes(r, c) && !Tells(r, c) && Without(KernelOf(s, d), r.nextHop, r.hops) == map[]
  {
    var ms := KernelOf(s, d);
    assert c.hops in ms[c.hops := c.next];
    if Demotes(s.routes[d], c) {
      assert c.hops in Without(ms[c.hops := c.next], s.routes[d].nextHop, s.routes[d].hops);
    }
  }

  /** `Rewrite` leaves a route to the entry exactly if it does not sever it. */
  lemma RewriteCovers(cfg: Config, s: State, d: Addr, c: Change, now: Time)
    requires d in s.routes
    ensures KernelOf(Rewrite(cfg, s, d, c, now), d) != map[] <==> !Severs(s, d, c)
  {
    hide Rewrite, Told;
    RewriteKernel(cfg, s, d, c, now);
    assert c.hops in KernelOf(s, d)[c.hops := c.next];
  }

  /** It leaves all VALID entries covered; one that it severs is INVALID for the moment. */
  lemma RewriteKeepsCovered(cfg: Config, s: State, d: Addr, c: Change, now: Time)
    requires d in s.routes && Covered(s)
    ensures Covered(Rewrite(cfg, s, d, c, now))
  {
    hide Rewrite, TakesDown, KernelOf;
    var s1, s2 := RewriteShape(cfg, s, d, c, now);
    RewriteCovers(cfg, s, d, c, now);
    RewriteRoot(cfg, s, d, c, now);
    if s.routes[d].valid {
      SeversOnly(s, d, c);
    }
    forall x | x in s.routes && x != d && Rewrite(cfg, s, d, c, now).routes[x].valid
      ensures KernelOf(Rewrite(cfg, s, d, c, now), x) != map[]
    {
      RewriteMirror(cfg, s, d, c, now, x);
      RewriteLeaves(cfg, s, d, c, now, x);
    }
  }

  lemma ReviveValid(cfg: Config, s: State, d: Addr, lifetime: nat, now: Time, z: Addr)
    requires d in s.routes && z in s.routes
    ensures var s' := Revive(cfg, s, d, lifetime, now);
            s'.routes[z].valid == (z == d || s.routes[z].valid) && KernelOf(s', z) == KernelOf(s, z)
  {
    hide Revive;
    ReviveShape(cfg, s, d, lifetime, now);
    var s' := Revive(cfg, s, d, lifetime, now);
    assert Prolonged(if z == d then Revived(s.routes[d], lifetime, now) else s.routes[z], s'.routes[z]);
  }

  /** `Revive` leaves all of them covered exactly if the kernel has a route to its entry. */
  lemma ReviveCovers(cfg: Config, s: State, d: Addr, lifetime: nat, now: Time)
    requires d in s.routes && Covered(s)
    ensures Covered(Revive(cfg, s, d, lifetime, now)) <==> KernelOf(s, d) != map[]
  {
    hide Revive, KernelOf;
    var s' := Revive(cfg, s, d, lifetime, now);
    forall x | x in s.routes
      ensures s'.routes[x].valid == (x == d || s.routes[x].valid) && KernelOf(s', x) == KernelOf(s, x)
    {
      ReviveValid(cfg, s, d, lifetime, now, x);
    }
  }

  /** Exactly when a plain update leaves every VALID entry covered. */
  lemma PlainCovers(cfg: Config, s: State, d: Addr, c: Change, now: Time)
    requires d in s.routes && Covered(s)
    ensures Covered(UpdatePlain(cfg, s, d, c, now)) <==> !Severs(s, d, c)
  {
    hide Rewrite, Revive, Severs;
    RewriteCovers(cfg, s, d, c, now);
    RewriteKeepsCovered(cfg, s, d, c, now);
    ReviveCovers(cfg, Rewrite(cfg, s, d, c, now), d, c.lifetime, now);
  }

  // ----- The update of a gateway

  /** From `s` to `s'` the VALID entry `z`, which has only its own route, goes down. */
  predicate Strands(s: State, s': State, z: Addr)
    requires z in s.routes && z in s'.routes
  {
    var r := s.routes[z];
    r.valid && !s'.routes[z].valid && Without(KernelOf(s, z), r.nextHop, r.hops) == map[]
  }

  /** rt_table_update_inet_rt does not take down a gateway that has only its own route, and leaves
      the kernel a route to every Internet destination that comes out of it VALID.  One that a
      second gateway made it move twice has one unless the first move severed it and the second
      was not announced. */
  ghost predicate LoopCovers(cfg: Config, s: State, gw: Addr, life: nat, order: seq<Addr>, now: Time)
    requires gw in s.routes
  {
    var k, s' := FirstDual(cfg, s, gw, life, order, now), MoveAll(cfg, s, gw, life, order, now);
    && !Strands(s, s', gw)
    && forall z :: z in s.routes && InetActive(s'.routes, z) && z != gw ==> Connected(s, gw, life, k, order, z)
  }

  predicate Connected(s: State, gw: Addr, life: nat, k: nat, order: seq<Addr>, z: Addr)
    requires gw in s.routes && z in s.routes && k <= |order|
  {
    if k == |order| || z == order[k] then !Severs(s, z, Onto(s.routes, gw, z, life)) else
    var via := if z in order[..k] then gw else order[k];
    via != 0 || !Severs(s, z, Change(via, s.routes[gw].hops, 0, life, s.routes[z].flags))
  }

  /** The routes to an entry that is VALID afterwards. */
  lemma LoopCoversAt(cfg: Config, s: State, gw: Addr, life: nat, order: seq<Addr>, now: Time, z: Addr)
    requires gw in s.routes && s.routes[gw].flags.gateway && z in s.routes && z != gw && Covered(s)
    requires MoveReturns(cfg, s, gw, life, order, now) && Traverses(order, s.routes)
    requires MoveAll(cfg, s, gw, life, order, now).routes[z].valid
    ensures var k, s' := FirstDual(cfg, s, gw, life, order, now), MoveAll(cfg, s, gw, life, order, now);
            KernelOf(s', z) != map[] <==> (InetActive(s'.routes, z) ==> Connected(s, gw, life, k, order, z))
  {
    hide UpdateInet, FirstDual, MoveAll, MoveReturns, Told, KernelOf;
    var k, s' := FirstDual(cfg, s, gw, life, order, now), MoveAll(cfg, s, gw, life, order, now);
    MovePasses(cfg, s, gw, life, order, now, z);
    MoveLands(cfg, s, gw, life, order, now);
    if !InetActive(s'.routes, z) {
      PlainRoutes(cfg, s, gw, life, order, now, z);
    } else {
      assert z in InetSet(s'.routes);
      assert z in InetSet(s.routes);
      if k == |order| {
        OnePass(cfg, s, gw, life, order, now);
        PassKernel(cfg, s, gw, life, order, now, z);
      } else if z == order[k] {
        SelfRoutes(cfg, s, gw, life, k, order, now);
      } else {
        var r1 := DualRoutes(cfg, s, gw, life, k, order, now, z);
        DualHands(cfg, s, gw, life, order, now);
        var a, b := (if z in order[..k] then gw else order[k]), if z in order[..k] then order[k] else gw;
        var flags, H := s.routes[z].flags, s.routes[gw].hops;
        var ms1 := Told(KernelOf(s, z), s.routes[z], Change(a, H, 0, life, flags));
        ToldOnward(ms1, r1, Change(b, H, 0, life, flags));
        assert H in ms1[H := b];
      }
    }
  }

  lemma OnePass(cfg: Config, s: State, gw: Addr, life: nat, order: seq<Addr>, now: Time)
    requires gw in s.routes && FirstDual(cfg, s, gw, life, order, now) == |order|
    ensures MoveAll(cfg, s, gw, life, order, now) == UpdateInet(cfg, s, gw, life, order, now)
  {
  }

  /** An entry that is VALID afterwards and no Internet destination keeps its routes. */
  lemma PlainRoutes(cfg: Config, s: State, gw: Addr, life: nat, order: seq<Addr>, now: Time, z: Addr)
    requires gw in s.routes && s.routes[gw].flags.gateway && z in s.routes && z != gw && !InetActive(s.routes, z)
    requires MoveReturns(cfg, s, gw, life, order, now) && Traverses(order, s.routes)
    requires MoveAll(cfg, s, gw, life, order, now).routes[z].valid
    ensures KernelOf(MoveAll(cfg, s, gw, life, order, now), z) == KernelOf(s, z)
  {
    hide UpdateInet, FirstDual, Rewrite, Revive, MoveReturns, Told, Bystander, Prolonged;
    var k := FirstDual(cfg, s, gw, life, order, now);
    if k == |order| {
      PassKernel(cfg, s, gw, life, order, now, z);
    } else {
      var w, rest := TheWay(cfg, s, gw, life, k, order, now), order[k + 1..];
      hide TheWay, MoveAll;
      WayIsHanded(cfg, s, gw, life, k, order, now);
      DistinctParts(order, k);
      PlainOnTheWay(cfg, s, gw, life, k, order, now, z);
      PassKernel(cfg, s, gw, life, order[..k], now, z);
      RewriteMirror(cfg, w.s1, w.x, Onto(w.s1.routes, gw, w.x, life), now, z);
      PassKernel(cfg, w.t, w.x, life, order, now, z);
      ReviveMirror(cfg, w.u, w.x, life, now, z);
      PassKernel(cfg, w.v, gw, life, rest, now, z);
    }
  }

  /** What is VALID afterwards was so all the way. */
  lemma PlainOnTheWay(cfg: Config, s: State, gw: Addr, life: nat, k: nat, order: seq<Addr>, now: Time, z: Addr)
    requires Underway(cfg, s, gw, life, k, order, now) && z in s.routes && z != gw && !InetActive(s.routes, z)
    requires MoveAll(cfg, s, gw, life, order, now).routes[z].valid
    ensures var w := TheWay(cfg, s, gw, life, k, order, now);
            && w.s1.routes[z].valid && w.t.routes[z].valid && w.u.routes[z].valid && w.v.routes[z].valid && z != w.x
            && !InetActive(w.t.routes, z) && !InetActive(w.v.routes, z)
  {
    hide UpdateInet, FirstDual, Rewrite, Revive, MoveAll, MoveReturns, MoveDual, TheWay, Traverses, Prolonged;
    var w := TheWay(cfg, s, gw, life, k, order, now);
    WayIsHanded(cfg, s, gw, life, k, order, now);
    NeverInet(cfg, s, gw, life, k, order, now, z);
    StaysInvalid(cfg, w.v, gw, life, order[k + 1..], now, z);
    ReviveShape(cfg, w.u, w.x, life, now);
    SameRoute(w.u.routes[z], w.v.routes[z]);
    StaysInvalid(cfg, w.t, w.x, life, order, now, z);
    RewriteLeaves(cfg, w.s1, w.x, Onto(w.s1.routes, gw, w.x, life), now, z);
  }

  /** It never becomes an Internet destination either. */
  lemma NeverInet(cfg: Config, s: State, gw: Addr, life: nat, k: nat, order: seq<Addr>, now: Time, z: Addr)
    requires Underway(cfg, s, gw, life, k, order, now) && z in s.routes && !InetActive(s.routes, z)
    ensures var w := TheWay(cfg, s, gw, life, k, order, now);
            !InetActive(w.s1.routes, z) && !InetActive(w.t.routes, z) && !InetActive(w.v.routes, z) && z != w.x
  {
    hide UpdateInet, FirstDual, Rewrite, Revive, MoveAll, MoveReturns, MoveDual, TheWay, Handed, Bystander, SameKinds;
    var w := TheWay(cfg, s, gw, life, k, order, now);
    WayIsHanded(cfg, s, gw, life, k, order, now);
    DualHands(cfg, s, gw, life, order, now);
    assert z !in InetSet(s.routes);
    assert z !in InetSet(w.s1.routes) && z !in InetSet(w.v.routes);
    RewriteOthers(cfg, w.s1, w.x, Onto(w.s1.routes, gw, w.x, life), now);
    SameRoute(w.s1.routes[z], w.t.routes[z]);
  }

  /** The second gateway has been told once. */
  lemma SelfRoutes(cfg: Config, s: State, gw: Addr, life: nat, k: nat, order: seq<Addr>, now: Time)
    requires Underway(cfg, s, gw, life, k, order, now)
    ensures order[k] in s.routes && KernelOf(MoveAll(cfg, s, gw, life, order, now), order[k]) ==
            Told(KernelOf(s, order[k]), s.routes[order[k]], Onto(s.routes, gw, order[k], life))
  {
    hide UpdateInet, FirstDual, Rewrite, Revive, MoveAll, MoveReturns, TheWay, Told, MovedTimer, KernelOf;
    var w := TheWay(cfg, s, gw, life, k, order, now);
    var x := order[k];
    WayIsHanded(cfg, s, gw, life, k, order, now);
    WayAlone(cfg, s, gw, life, k, order, now);
    DistinctParts(order, k);
    InetTimer(cfg, s, gw, life, order[..k], now, x);
    PassKernel(cfg, s, gw, life, order[..k], now, x);
    InetMoved(cfg, s, gw, life, order[..k], now);
    RewriteKernel(cfg, w.s1, x, Onto(w.s1.routes, gw, x, life), now);
    SelfKeeps(cfg, s, gw, life, k, order, now);
  }

  /** From then on the kernel hears nothing about it. */
  lemma SelfKeeps(cfg: Config, s: State, gw: Addr, life: nat, k: nat, order: seq<Addr>, now: Time)
    requires Underway(cfg, s, gw, life, k, order, now)
    ensures KernelOf(MoveAll(cfg, s, gw, life, order, now), order[k]) ==
            KernelOf(TheWay(cfg, s, gw, life, k, order, now).t, order[k])
  {
    hide UpdateInet, FirstDual, Rewrite, Revive, MoveAll, MoveReturns, MoveDual, TheWay, Told, Handed, KernelOf, InetSet, SameKinds;
    var w := TheWay(cfg, s, gw, life, k, order, now);
    var x := order[k];
    WayIsHanded(cfg, s, gw, life, k, order, now);
    WayAlone(cfg, s, gw, life, k, order, now);
    DualHands(cfg, s, gw, life, order, now);
    HandedGateway(w.v.routes, gw, x, s.routes[gw].hops);
    DistinctParts(order, k);
    PassAlone(cfg, w.t, x, life, order, now, x);
    ReviveMirror(cfg, w.u, x, life, now, x);
    SameKernel(w.u, w.v, x);
    SelfValid(cfg, s, gw, life, k, order, now);
    PassKernel(cfg, w.v, gw, life, order[k + 1..], now, x);
  }

  lemma SameKernel(s: State, s': State, x: Addr)
    requires s'.kernel == s.kernel
    ensures KernelOf(s', x) == KernelOf(s, x)
  {
  }

  /** The kernel has a route to the gateway when it is VALID again, exactly if it was not severed
      and the loop did not take it down with its only route. */
  lemma GatewayRoutes(cfg: Config, s: State, d: Addr, c: Change, order: seq<Addr>, now: Time)
    requires d in s.routes && c.flags.gateway
    requires Returns(cfg, s, d, c, order, now) && Traverses(order, s.routes)
    ensures var s1 := Rewrite(cfg, s, d, c, now);
            var s2 := MoveAll(cfg, s1, d, c.lifetime, order, now);
            KernelOf(s2, d) != map[] <==> !Severs(s, d, c) && !Strands(s1, s2, d)
  {
    hide Rewrite, MoveAll, MoveReturns, FirstDual, KernelOf, Severs, Traverses;
    var s1 := Rewrite(cfg, s, d, c, now);
    RewriteRoot(cfg, s, d, c, now);
    RewriteCovers(cfg, s, d, c, now);
    SameTraversal(order, s.routes, s1.routes);
    CoversAll(order, s1.routes);
    MoveAlone(cfg, s1, d, c.lifetime, order, now);
  }

  /** Exactly when the update of a gateway leaves every VALID entry covered. */
  lemma GatewayCovers(cfg: Config, s: State, d: Addr, c: Change, order: seq<Addr>, now: Time)
    requires d in s.routes && c.flags.gateway && Covered(s)
    requires Returns(cfg, s, d, c, order, now) && Traverses(order, s.routes)
    ensures Covered(Update(cfg, s, d, c, order, now)) <==>
            !Severs(s, d, c) && LoopCovers(cfg, Rewrite(cfg, s, d, c, now), d, c.lifetime, order, now)
  {
    hide Rewrite, Revive, MoveAll, MoveReturns, FirstDual, KernelOf, Connected, Traverses, Severs, Strands;
    var s1 := Rewrite(cfg, s, d, c, now);
    var s2, s' := MoveAll(cfg, s1, d, c.lifetime, order, now), Update(cfg, s, d, c, order, now);
    var k := FirstDual(cfg, s1, d, c.lifetime, order, now);
    RewriteRoot(cfg, s, d, c, now);
    RewriteKeepsCovered(cfg, s, d, c, now);
    SameTraversal(order, s.routes, s1.routes);
    GatewayRoutes(cfg, s, d, c, order, now);
    ReviveValid(cfg, s2, d, c.lifetime, now, d);
    forall z | z in s.routes && z != d ensures
      && s'.routes[z].valid == s2.routes[z].valid && KernelOf(s', z) == KernelOf(s2, z)
      && (s2.routes[z].valid ==>
            (KernelOf(s2, z) != map[] <==> (InetActive(s2.routes, z) ==> Connected(s1, d, c.lifetime, k, order, z))))
    {
      ReviveValid(cfg, s2, d, c.lifetime, now, z);
      if s2.routes[z].valid {
        LoopCoversAt(cfg, s1, d, c.lifetime, order, now, z);
      }
    }
  }

  /** The update of `x` neither severs it nor takes down an entry of `held` with its only route. */
  ghost predicate Gentle(cfg: Config, s: State, x: Addr, c: Change, now: Time, held: set<Addr>)
    requires x in s.routes
  {
    && !Severs(s, x, c)
    && forall z :: z in held && z in s.routes && z != x ==> !Strands(s, Rewrite(cfg, s, x, c, now), z)
  }

  /** No step of the pass does. */
  ghost predicate PassCareful(cfg: Config, s: State, gw: Addr, life: nat, order: seq<Addr>, now: Time, held: set<Addr>)
    requires gw in s.routes
    decreases |order|
  {
    order == [] ||
    (var n := |order| - 1;
     var s1, x := UpdateInet(cfg, s, gw, life, order[..n], now), order[n];
     && PassCareful(cfg, s, gw, life, order[..n], now, held)
     && (InetActive(s1.routes, x) ==> Gentle(cfg, s1, x, Onto(s1.routes, gw, x, life), now, held)))
  }

  /** There are routes to all entries of `held`. */
  ghost predicate Holds(s: State, held: set<Addr>) {
    forall z :: z in held ==> KernelOf(s, z) != map[]
  }

  lemma RewriteHolds(cfg: Config, s: State, d: Addr, c: Change, now: Time, held: set<Addr>)
    requires d in s.routes && held <= s.routes.Keys && Covered(s) && Gentle(cfg, s, d, c, now, held) && Holds(s, held)
    ensures var s' := Rewrite(cfg, s, d, c, now); Covered(s') && Holds(s', held) && KernelOf(s', d) != map[]
  {
    hide Rewrite, Severs, KernelOf, Covered;
    RewriteKeepsCovered(cfg, s, d, c, now);
    RewriteCovers(cfg, s, d, c, now);
    forall z | z in held && z != d ensures KernelOf(Rewrite(cfg, s, d, c, now), z) != map[] {
      RewriteAlone(cfg, s, d, c, now, z);
    }
  }

  lemma ReviveHolds(cfg: Config, s: State, d: Addr, lifetime: nat, now: Time, held: set<Addr>)
    requires d in s.routes && Covered(s) && KernelOf(s, d) != map[] && Holds(s, held)
    ensures var s' := Revive(cfg, s, d, lifetime, now); Covered(s') && Holds(s', held)
  {
    hide Revive, Covered;
    ReviveCovers(cfg, s, d, lifetime, now);
    ReviveMirror(cfg, s, d, lifetime, now, d);
  }

  lemma {:induction false} PassCovers(cfg: Config, s: State, gw: Addr, life: nat, order: seq<Addr>, now: Time, held: set<Addr>)
    requires gw in s.routes && held <= s.routes.Keys && Covered(s) && Holds(s, held)
    requires PassCareful(cfg, s, gw, life, order, now, held)
    ensures var s' := UpdateInet(cfg, s, gw, life, order, now); Covered(s') && Holds(s', held)
    decreases |order|
  {
    hide Rewrite, Revive, Gentle, Covered, Holds;
    if order != [] {
      var init, x := order[..|order| - 1], order[|order| - 1];
      PassCovers(cfg, s, gw, life, init, now, held);
      var s1 := UpdateInet(cfg, s, gw, life, init, now);
      if InetActive(s1.routes, x) {
        var c := Onto(s1.routes, gw, x, life);
        RewriteHolds(cfg, s1, x, c, now, held);
        ReviveHolds(cfg, Rewrite(cfg, s1, x, c, now), x, life, now, held);
      }
    }
  }

  /** No update inside rt_table_update_inet_rt severs its entry or takes down a gateway that waits
      for the end of its own update with only its own route. */
  ghost predicate MoveCareful(cfg: Config, s: State, gw: Addr, life: nat, order: seq<Addr>, now: Time)
    requires gw in s.routes
  {
    var k := FirstDual(cfg, s, gw, life, order, now);
    if k == |order| then PassCareful(cfg, s, gw, life, order, now, {gw}) else
    var s1, x := UpdateInet(cfg, s, gw, life, order[..k], now), order[k];
    var c := Onto(s1.routes, gw, x, life);
    && PassCareful(cfg, s, gw, life, order[..k], now, {gw})
    && Gentle(cfg, s1, x, c, now, {gw})
    && PassCareful(cfg, Rewrite(cfg, s1, x, c, now), x, life, order, now, {gw, x})
    && PassCareful(cfg, MoveDual(cfg, s1, gw, life, x, order, now), gw, life, order[k + 1..], now, {gw})
  }

  lemma MoveCovers(cfg: Config, s: State, gw: Addr, life: nat, order: seq<Addr>, now: Time)
    requires gw in s.routes && Covered(s) && KernelOf(s, gw) != map[] && MoveCareful(cfg, s, gw, life, order, now)
    ensures var s' := MoveAll(cfg, s, gw, life, order, now); Covered(s') && KernelOf(s', gw) != map[]
  {
    hide UpdateInet, FirstDual, Rewrite, Revive, PassCareful, Gentle, Covered;
    var k := FirstDual(cfg, s, gw, life, order, now);
    if k == |order| {
      PassCovers(cfg, s, gw, life, order, now, {gw});
    } else {
      var s1, x := UpdateInet(cfg, s, gw, life, order[..k], now), order[k];
      var c := Onto(s1.routes, gw, x, life);
      PassCovers(cfg, s, gw, life, order[..k], now, {gw});
      RewriteHolds(cfg, s1, x, c, now, {gw});
      var t := Rewrite(cfg, s1, x, c, now);
      PassCovers(cfg, t, x, life, order, now, {gw, x});
      var u := UpdateInet(cfg, t, x, life, order, now);
      ReviveHolds(cfg, u, x, life, now, {gw});
      PassCovers(cfg, Revive(cfg, u, x, life, now), gw, life, order[k + 1..], now, {gw});
    }
  }

  /** No update inside the update severs its entry. */
  ghost predicate UpdateCareful(cfg: Config, s: State, d: Addr, c: Change, order: seq<Addr>, now: Time) {
    d in s.routes ==>
      && !Severs(s, d, c)
      && (c.flags.gateway ==> MoveCareful(cfg, Rewrite(cfg, s, d, c, now), d, c.lifetime, order, now))
  }

  lemma CarefulCovers(cfg: Config, s: State, d: Addr, c: Change, order: seq<Addr>, now: Time)
    requires Covered(s) && UpdateCareful(cfg, s, d, c, order, now)
    ensures Covered(Update(cfg, s, d, c, order, now))
  {
    hide Rewrite, Revive, UpdatePlain, Severs, Covered;
    if d !in s.routes {
      UpdateOfNothing(cfg, s, d, c, order, now);
    } else if c.flags.gateway {
      var s1 := Rewrite(cfg, s, d, c, now);
      RewriteKeepsCovered(cfg, s, d, c, now);
      RewriteCovers(cfg, s, d, c, now);
      MoveCovers(cfg, s1, d, c.lifetime, order, now);
      ReviveCovers(cfg, MoveAll(cfg, s1, d, c.lifetime, order, now), d, c.lifetime, now);
    } else {
      UpdateIsPlain(cfg, s, d, c, order, now);
      PlainCovers(cfg, s, d, c, now);
    }
  }

  /** The update leaves the kernel a route to every VALID entry. */
  ghost predicate UpdateCovers(cfg: Config, s: State, d: Addr, c: Change, order: seq<Addr>, now: Time) {
    d in s.routes ==>
      && !Severs(s, d, c)
      && (c.flags.gateway ==> LoopCovers(cfg, Rewrite(cfg, s, d, c, now), d, c.lifetime, order, now))
  }

  lemma UpdateCoversIff(cfg: Config, s: State, d: Addr, c: Change, order: seq<Addr>, now: Time)
    requires Covered(s) && Genuine(cfg, s, now, Updates(d, c, order))
    ensures Covered(Update(cfg, s, d, c, order, now)) <==> UpdateCovers(cfg, s, d, c, order, now)
  {
    hide Update, UpdatePlain, Rewrite, LoopCovers, Severs, Covered, Returns, Traverses;
    if d !in s.routes {
      UpdateOfNothing(cfg, s, d, c, order, now);
    } else if c.flags.gateway {
      GatewayCovers(cfg, s, d, c, order, now);
    } else {
      UpdateIsPlain(cfg, s, d, c, order, now);
      PlainCovers(cfg, s, d, c, now);
    }
  }

  // ----- Steps that are no updates

  lemma InsertCovers(cfg: Config, s: State, d: Addr, c: Change, valid: bool, now: Time)
    requires Covered(s)
    ensures Covered(Insert(cfg, s, d, c, valid, now))
  {
    hide Matching, Others, TouchPath;
    InsertRoutes(cfg, s, d, c, valid, now);
    if d !in s.routes {
      var routes := s.routes[d := NewRoute(cfg, c, valid, now)];
      var s' := Insert(cfg, s, d, c, valid, now);
      forall x | x in s'.routes && s'.routes[x].valid ensures KernelOf(s', x) != map[] {
        assert Prolonged(routes[x], s'.routes[x]);
        assert c.hops in KernelOf(s, d)[c.hops := c.next];
      }
    }
  }

  lemma TakedownKeepsCovered(cfg: Config, s: State, s': State, now: Time)
    requires TakesDown(cfg, s, s', now) && Covered(s)
    ensures Covered(s')
  {
    hide TakesDown;
    TakedownSeeks(cfg, s, s', now);
    forall x | x in s'.routes && s'.routes[x].valid ensures KernelOf(s', x) != map[] {
      TakedownKernel(cfg, s, s', now, x);
      TakedownAt(cfg, s, s', x, now);
    }
  }

  lemma PutCovers(s: State, d: Addr, r: Route)
    requires Covered(s) && d in s.routes && r.valid == s.routes[d].valid
    ensures Covered(Put(s, d, r))
  {
  }

  lemma DeleteCovers(s: State, d: Addr)
    requires Covered(s)
    ensures Covered(Delete(s, d))
  {
  }

  /** The end of a repair severs a VALID entry that has only its own route. */
  lemma RepairCovers(cfg: Config, s: State, d: Addr, now: Time)
    requires Covered(s) && d in s.routes
    ensures Covered(RepairTimeout(cfg, s, d, now)) <==>
      !(s.routes[d].valid && Without(KernelOf(s, d), s.routes[d].nextHop, s.routes[d].hops) == map[])
  {
    var s' := RepairTimeout(cfg, s, d, now);
    DropsOne(s.kernel, s.routes, d);
    assert KernelOf(s', d) == Without(KernelOf(s, d), s.routes[d].nextHop, s.routes[d].hops);
    forall x | x in s.routes && x != d ensures KernelOf(s', x) == KernelOf(s, x) {
    }
    assert s'.routes[d].valid == s.routes[d].valid;
  }

  lemma ExpireCovers(cfg: Config, s: State, d: Addr, now: Time)
    requires Covered(s) && TimedAs(s, d, Loose)
    ensures Covered(Expire(cfg, s, d, now))
  {
    hide Invalidate, LinkBreak, Delete, RepairTimeout, Covered;
    if d in s.routes {
      var r := s.routes[d];
      var s1 := Put(s, d, r.(timer := r.timer.(used := false)));
      PutCovers(s, d, s1.routes[d]);
      match r.timer.handler
      case RouteExpire =>
        if r.hops == 1 {
          LinkBreakTakesDown(cfg, s1, d, now);
          TakedownKeepsCovered(cfg, s1, LinkBreak(cfg, s1, d, now), now);
        } else {
          InvalidateTakesDown(cfg, s1, d, now);
          var s2 := Invalidate(cfg, s1, d, now);
          TakedownKeepsCovered(cfg, s1, s2, now);
          PutCovers(s2, d, Forget(s2.routes[d]));
        }
      case LocalRepair => RepairCovers(cfg, s1, d, now);
      case RouteDelete => DeleteCovers(s1, d);
    }
  }

  lemma HelloCovers(cfg: Config, s: State, d: Addr, localRepair: bool, now: Time)
    requires Covered(s)
    ensures Covered(HelloTimeout(cfg, s, d, localRepair, now))
  {
    hide LinkBreak, Covered;
    if d in s.routes {
      var s1 := Put(s, d, s.routes[d].(hello := false));
      PutCovers(s, d, s1.routes[d]);
      var r := s1.routes[d];
      var s2 := if localRepair && r.hops <= MAX_REPAIR_TTL then Put(s1, d, r.(flags := r.flags.(repair := true))) else s1;
      PutCovers(s1, d, r.(flags := r.flags.(repair := true)));
      LinkBreakTakesDown(cfg, s2, d, now);
      TakedownKeepsCovered(cfg, s2, LinkBreak(cfg, s2, d, now), now);
    }
  }

  /** A failed search on a VALID entry flagged for repair that has no other route. */
  predicate Cuts(s: State, d: Addr) {
    Orphans(s, d) && Without(KernelOf(s, d), s.routes[d].nextHop, s.routes[d].hops) == map[]
  }

  lemma SeekFailedCovers(cfg: Config, s: State, d: Addr, now: Time)
    requires Covered(s)
    ensures Covered(SeekFailed(cfg, s, d, now)) <==> !Cuts(s, d)
  {
    hide RepairTimeout, Matching, Others;
    if d in s.seeking {
      var s1 := DropFor(s, d).(seeking := s.seeking - {d});
      assert Covered(s1);
      if d in s.routes {
        RepairCovers(cfg, s1, d, now);
      }
    }
  }

  lemma ReceiveCovers(cfg: Config, s: State, p: Packet, now: Time)
    requires Covered(s)
    ensures Covered(Receive(cfg, s, p, now))
  {
    hide Receive;
    ReceiveShape(cfg, s, p, now);
    var s' := Receive(cfg, s, p, now);
    forall x | x in s'.routes && s'.routes[x].valid ensures KernelOf(s', x) != map[] {
      var r := if Prolongs(s.routes, s'.routes) || x != p.dest then s.routes[x] else WithExpire(s.routes[x]);
      assert Prolonged(r, s'.routes[x]);
    }
  }

  lemma SameCovered(s: State, s': State)
    requires Covered(s) && s'.routes == s.routes && s'.kernel == s.kernel
    ensures Covered(s')
  {
  }

  // ----- All steps and whole runs

  ghost predicate Covers(cfg: Config, s: State, now: Time, step: Step) {
    match step
    case Updates(d, c, order) => UpdateCovers(cfg, s, d, c, order, now)
    case SeekFails(d) => !Cuts(s, d)
    case _ => true
  }

  /** Exactly when a step leaves the kernel a route to every VALID entry. */
  lemma StepCovers(cfg: Config, s: State, now: Time, step: Step)
    requires Covered(s) && Genuine(cfg, s, now, step) && forall x :: x in s.routes ==> TimedAs(s, x, Loose)
    ensures Covered(Next(cfg, s, now, step)) <==> Covers(cfg, s, now, step)
  {
    hide Covered, TimedAs, Genuine, UpdateCovers, Cuts, Invalidate, LinkBreak, Update, Insert, Receive, Expire, HelloTimeout,
      SeekFailed, Collect, Delete;
    match step
    case Receives(p) => ReceiveCovers(cfg, s, p, now);
    case Inserts(d, c, valid) => InsertCovers(cfg, s, d, c, valid, now);
    case Updates(d, c, order) => UpdateCoversIff(cfg, s, d, c, order, now);
    case Invalidates(d) =>
      InvalidateTakesDown(cfg, s, d, now);
      TakedownKeepsCovered(cfg, s, Invalidate(cfg, s, d, now), now);
    case Deletes(d) => DeleteCovers(s, d);
    case Expires(d) =>
      LooseAt(s, d);
      ExpireCovers(cfg, s, d, now);
    case LinkBreaks(d) =>
      LinkBreakTakesDown(cfg, s, d, now);
      TakedownKeepsCovered(cfg, s, LinkBreak(cfg, s, d, now), now);
    case HelloFails(d, localRepair) => HelloCovers(cfg, s, d, localRepair, now);
    case SeekFails(d) => SeekFailedCovers(cfg, s, d, now);
    case HelloStarts(d) =>
      if d in s.routes {
        PutCovers(s, d, s.routes[d].(hello := true));
      }
    case AddsPrecursor(d, n) =>
      if d in s.routes {
        PutCovers(s, d, s.routes[d].(precursors := [n] + s.routes[d].precursors));
      }
    case Ticks =>
      CollectKeeps(s, now);
      SameCovered(s, Collect(s, now));
  }

  /** The step severs no VALID entry at any moment. */
  ghost predicate Careful(cfg: Config, s: State, now: Time, step: Step) {
    match step
    case Updates(d, c, order) => UpdateCareful(cfg, s, d, c, order, now)
    case SeekFails(d) => !Cuts(s, d)
    case _ => true
  }

  /** Such a step leaves all of them covered, whether or not the update of a gateway comes back. */
  lemma CarefulStep(cfg: Config, s: State, now: Time, step: Step)
    requires Covered(s) && Careful(cfg, s, now, step) && forall x :: x in s.routes ==> TimedAs(s, x, Loose)
    ensures Covered(Next(cfg, s, now, step))
  {
    hide Next, Covered, TimedAs, UpdateCareful, Cuts;
    if step.Updates? {
      NextUpdates(cfg, s, now, step);
      CarefulCovers(cfg, s, step.d, step.c, step.order, now);
    } else {
      StepCovers(cfg, s, now, step);
    }
  }

  lemma NextUpdates(cfg: Config, s: State, now: Time, step: Step)
    requires step.Updates?
    ensures Next(cfg, s, now, step) == Update(cfg, s, step.d, step.c, step.order, now)
  {
  }
}
