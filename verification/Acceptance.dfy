/** What is accepted: exactly in which runs a data packet that went through the routing decision
    is accepted although the kernel has no route for it. */
module Acceptance {
  import opened Basics
  import opened Route
  import opened DaemonSpec
  import opened Takedown
  import opened UpdateParts
  import opened Timers
  import opened Traffic
  import opened Lifetimes
  import opened Mirror
  import opened GatewayMoves
  import opened GatewayOwn
  import opened GatewayMirror
  import opened Coverage

  /** A packet accepted without a route in the kernel is one that just came in and was let
      through by the header tests. */
  ghost predicate SafeLog(log: seq<Event>) {
    log == [] ||
    (var n := |log| - 1;
     && SafeLog(log[..n])
     && (log[n].Verdict? && log[n].accept && !log[n].routed ==>
           n > 0 && log[n - 1] == Arrived(log[n].id, log[n].dest, true)))
  }

  /** What holds between two steps: the kernel has a route to each of its destinations, and a
      packet that the header tests let through has had its verdict. */
  ghost predicate Sane(s: State) {
    Solid(s.kernel) && Answered(s.log)
  }

  ghost predicate Solid(kernel: Kernel) {
    forall x :: x in kernel ==> kernel[x] != map[]
  }

  predicate Answered(log: seq<Event>) {
    log == [] || !(log[|log| - 1].Arrived? && log[|log| - 1].bypass)
  }

  /** From `s` to `s'` nothing was accepted without a route, exactly if `harmless`. */
  ghost predicate Judges(s: State, s': State, harmless: bool) {
    Sane(s') && (SafeLog(s'.log) <==> SafeLog(s.log) && harmless)
  }

  // ----- Verdicts

  lemma SafeOneMore(log: seq<Event>, e: Event)
    ensures SafeLog(log + [e]) <==>
      && SafeLog(log)
      && (e.Verdict? && e.accept && !e.routed ==> log != [] && log[|log| - 1] == Arrived(e.id, e.dest, true))
  {
    assert (log + [e])[..|log|] == log;
  }

  ghost predicate AllRouted(kernel: Kernel, pkts: seq<Buffered>) {
    forall p :: p in pkts ==> p.dest in kernel
  }

  lemma {:induction false} SafeVerdicts(log: seq<Event>, kernel: Kernel, pkts: seq<Buffered>, accept: bool)
    requires Answered(log)
    ensures var log' := log + Verdicts(kernel, pkts, accept);
            Answered(log') && (SafeLog(log') <==> SafeLog(log) && (accept ==> AllRouted(kernel, pkts)))
  {
    hide SafeLog, Verdicts, AllRouted;
    if pkts == [] {
      NoVerdicts(log, kernel, accept);
    } else {
      var init, p := pkts[..|pkts| - 1], pkts[|pkts| - 1];
      SafeVerdicts(log, kernel, init, accept);
      OneVerdict(log, kernel, init, p, accept);
      assert pkts == init + [p];
      SafeOneMore(log + Verdicts(kernel, init, accept), Verdict(p.id, p.dest, accept, p.dest in kernel));
    }
  }

  lemma NoVerdicts(log: seq<Event>, kernel: Kernel, accept: bool)
    ensures log + Verdicts(kernel, [], accept) == log && AllRouted(kernel, [])
  {
  }

  lemma OneVerdict(log: seq<Event>, kernel: Kernel, init: seq<Buffered>, p: Buffered, accept: bool)
    ensures log + Verdicts(kernel, init + [p], accept) ==
            log + Verdicts(kernel, init, accept) + [Verdict(p.id, p.dest, accept, p.dest in kernel)]
    ensures AllRouted(kernel, init + [p]) <==> AllRouted(kernel, init) && p.dest in kernel
  {
    assert forall q :: q in init + [p] <==> q in init || q == p;
  }

  /** Packets are buffered for `d`, and a VALID route would release them. */
  predicate Waits(s: State, d: Addr) {
    d in s.seeking && Matching(s.queue, d) != []
  }

  /** Accepting what is buffered for a destination is safe exactly if nothing is or the kernel can
      reach the destination; dropping it always is. */
  lemma SafeRelease(s: State, d: Addr, accept: bool)
    requires Sane(s)
    ensures Judges(s, Judge(s, Matching(s.queue, d), accept), accept && Matching(s.queue, d) != [] ==> d in s.kernel)
  {
    hide SafeLog, Matching, Verdicts;
    PartitionDests(s.queue, d);
    var pkts := Matching(s.queue, d);
    SafeVerdicts(s.log, s.kernel, pkts, accept);
    if pkts != [] {
      assert pkts[0] in pkts;
    }
  }

  lemma JudgesAlike(s: State, s': State, s'': State, harmless: bool)
    requires Judges(s, s', harmless) && s''.log == s'.log && s''.kernel == s'.kernel
    ensures Judges(s, s'', harmless)
  {
  }

  // ----- The kernel's table holds no empty entry

  lemma DropsSolid(kernel: Kernel, routes: map<Addr, Route>, gone: set<Addr>)
    requires Solid(kernel) && gone <= routes.Keys
    ensures Solid(DropRoutes(kernel, routes, gone))
  {
  }

  lemma TakedownJudges(cfg: Config, s: State, s': State, now: Time)
    requires TakesDown(cfg, s, s', now) && Sane(s)
    ensures Judges(s, s', true) && s'.log == s.log && s'.queue == s.queue && s'.seeking == s.seeking
  {
    hide DropRoutes, SafeLog, Downed;
    DropsSolid(s.kernel, s.routes, ValidSet(s.routes) - ValidSet(s'.routes));
  }

  lemma AddSolid(kernel: Kernel, d: Addr, next: Addr, metric: nat)
    requires Solid(kernel)
    ensures Solid(AddRoute(kernel, d, next, metric)) && d in AddRoute(kernel, d, next, metric)
  {
    assert metric in AddRoute(kernel, d, next, metric)[d];
  }

  lemma RewriteJudges(cfg: Config, s: State, d: Addr, c: Change, now: Time)
    requires d in s.routes && Sane(s)
    ensures var s' := Rewrite(cfg, s, d, c, now);
            Judges(s, s', true) && s'.log == s.log && s'.queue == s.queue && s'.seeking == s.seeking
  {
    hide Rewrite, AddRoute, SafeLog, TakesDown;
    var s1, s2 := RewriteShape(cfg, s, d, c, now);
    AddSolid(s.kernel, d, c.next, c.hops);
    TakedownJudges(cfg, s1, s2, now);
  }

  // ----- An update

  /** The entry is VALID again when nobody waits for it or the kernel can reach it. */
  predicate ReviveHarmless(s: State, d: Addr) {
    Waits(s, d) ==> KernelOf(s, d) != map[]
  }

  lemma ReviveJudges(cfg: Config, s: State, d: Addr, lifetime: nat, now: Time)
    requires d in s.routes && Sane(s)
    ensures Judges(s, Revive(cfg, s, d, lifetime, now), ReviveHarmless(s, d))
  {
    hide Revive, SafeLog, Matching, Others, Prolongs, Verdicts;
    ReviveShape(cfg, s, d, lifetime, now);
    SafeRelease(s, d, true);
  }

  /** The update does not sever an entry that packets wait for. */
  predicate PlainHarmless(s: State, d: Addr, c: Change)
    requires d in s.routes
  {
    Waits(s, d) ==> !Severs(s, d, c)
  }

  /** Exactly when a plain update accepts nothing without a route. */
  lemma PlainJudges(cfg: Config, s: State, d: Addr, c: Change, now: Time)
    requires d in s.routes && Sane(s)
    ensures Judges(s, UpdatePlain(cfg, s, d, c, now), PlainHarmless(s, d, c))
  {
    hide Rewrite, Revive, Severs, SafeLog, Matching, KernelOf;
    RewriteJudges(cfg, s, d, c, now);
    RewriteCovers(cfg, s, d, c, now);
    ReviveJudges(cfg, Rewrite(cfg, s, d, c, now), d, c.lifetime, now);
  }

  ghost predicate PassHarmless(cfg: Config, s: State, gw: Addr, life: nat, order: seq<Addr>, now: Time)
    requires gw in s.routes
    decreases |order|
  {
    order == [] ||
    (var n := |order| - 1;
     var s1, x := UpdateInet(cfg, s, gw, life, order[..n], now), order[n];
     && PassHarmless(cfg, s, gw, life, order[..n], now)
     && (InetActive(s1.routes, x) ==> PlainHarmless(s1, x, Onto(s1.routes, gw, x, life))))
  }

  lemma {:induction false} PassJudges(cfg: Config, s: State, gw: Addr, life: nat, order: seq<Addr>, now: Time)
    requires gw in s.routes && Sane(s)
    ensures Judges(s, UpdateInet(cfg, s, gw, life, order, now), PassHarmless(cfg, s, gw, life, order, now))
    decreases |order|
  {
    hide UpdatePlain, PlainHarmless, Sane, SafeLog;
    if order != [] {
      var init, x := order[..|order| - 1], order[|order| - 1];
      PassJudges(cfg, s, gw, life, init, now);
      var s1 := UpdateInet(cfg, s, gw, life, init, now);
      if InetActive(s1.routes, x) {
        PlainJudges(cfg, s1, x, Onto(s1.routes, gw, x, life), now);
      }
    }
  }

  /** The same for each update in rt_table_update_inet_rt, and for the second gateway when it is
      VALID again. */
  ghost predicate MoveHarmless(cfg: Config, s: State, gw: Addr, life: nat, order: seq<Addr>, now: Time)
    requires gw in s.routes
  {
    var k := FirstDual(cfg, s, gw, life, order, now);
    if k == |order| then PassHarmless(cfg, s, gw, life, order, now) else
    var s1, x := UpdateInet(cfg, s, gw, life, order[..k], now), order[k];
    var t := Rewrite(cfg, s1, x, Onto(s1.routes, gw, x, life), now);
    && PassHarmless(cfg, s, gw, life, order[..k], now)
    && PassHarmless(cfg, t, x, life, order, now)
    && ReviveHarmless(UpdateInet(cfg, t, x, life, order, now), x)
    && PassHarmless(cfg, MoveDual(cfg, s1, gw, life, x, order, now), gw, life, order[k + 1..], now)
  }

  lemma MoveJudges(cfg: Config, s: State, gw: Addr, life: nat, order: seq<Addr>, now: Time)
    requires gw in s.routes && Sane(s)
    ensures Judges(s, MoveAll(cfg, s, gw, life, order, now), MoveHarmless(cfg, s, gw, life, order, now))
  {
    hide UpdateInet, FirstDual, Rewrite, Revive, PassHarmless, ReviveHarmless, Sane, SafeLog;
    var k := FirstDual(cfg, s, gw, life, order, now);
    if k == |order| {
      PassJudges(cfg, s, gw, life, order, now);
    } else {
      var s1, x := UpdateInet(cfg, s, gw, life, order[..k], now), order[k];
      var t := Rewrite(cfg, s1, x, Onto(s1.routes, gw, x, life), now);
      var u := UpdateInet(cfg, t, x, life, order, now);
      PassJudges(cfg, s, gw, life, order[..k], now);
      RewriteJudges(cfg, s1, x, Onto(s1.routes, gw, x, life), now);
      PassJudges(cfg, t, x, life, order, now);
      ReviveJudges(cfg, u, x, life, now);
      PassJudges(cfg, Revive(cfg, u, x, life, now), gw, life, order[k + 1..], now);
    }
  }

  ghost predicate UpdateHarmless(cfg: Config, s: State, d: Addr, c: Change, order: seq<Addr>, now: Time) {
    d in s.routes ==>
      if c.flags.gateway then
        var s1 := Rewrite(cfg, s, d, c, now);
        && MoveHarmless(cfg, s1, d, c.lifetime, order, now)
        && ReviveHarmless(MoveAll(cfg, s1, d, c.lifetime, order, now), d)
      else
        PlainHarmless(s, d, c)
  }

  lemma UpdateJudges(cfg: Config, s: State, d: Addr, c: Change, order: seq<Addr>, now: Time)
    requires Sane(s)
    ensures Judges(s, Update(cfg, s, d, c, order, now), UpdateHarmless(cfg, s, d, c, order, now))
  {
    hide Rewrite, Revive, MoveAll, UpdatePlain, MoveHarmless, ReviveHarmless, PlainHarmless, Sane, SafeLog;
    if d !in s.routes {
      UpdateOfNothing(cfg, s, d, c, order, now);
    } else if c.flags.gateway {
      var s1 := Rewrite(cfg, s, d, c, now);
      RewriteJudges(cfg, s, d, c, now);
      MoveJudges(cfg, s1, d, c.lifetime, order, now);
      ReviveJudges(cfg, MoveAll(cfg, s1, d, c.lifetime, order, now), d, c.lifetime, now);
    } else {
      UpdateIsPlain(cfg, s, d, c, order, now);
      PlainJudges(cfg, s, d, c, now);
    }
  }

  // ----- The gateways of an update that comes back

  lemma {:induction false} MatchingOthers(q: seq<Buffered>, x: Addr, z: Addr)
    requires x != z
    ensures Matching(Others(q, x), z) == Matching(q, z)
  {
    if q != [] {
      var init, p := q[..|q| - 1], q[|q| - 1];
      MatchingOthers(init, x, z);
      MatchingOneMore(Others(init, x), p, z);
    }
  }

  lemma ReviveWaits(cfg: Config, s: State, d: Addr, lifetime: nat, now: Time, z: Addr)
    requires d in s.routes && z != d
    ensures Waits(Revive(cfg, s, d, lifetime, now), z) <==> Waits(s, z)
  {
    hide Revive, Matching, Others, Prolongs, Verdicts;
    ReviveShape(cfg, s, d, lifetime, now);
    MatchingOthers(s.queue, d, z);
  }

  lemma RewriteWaits(cfg: Config, s: State, d: Addr, c: Change, now: Time, z: Addr)
    requires d in s.routes
    ensures Waits(Rewrite(cfg, s, d, c, now), z) <==> Waits(s, z)
  {
    hide Rewrite, Matching, Downed, DropRoutes;
    var s1, s2 := RewriteShape(cfg, s, d, c, now);
  }

  /** A pass that never updates `z` releases nothing that waits for `z`. */
  lemma {:induction false} PassWaits(cfg: Config, s: State, gw: Addr, life: nat, order: seq<Addr>, now: Time, z: Addr)
    requires gw in s.routes && z in s.routes
    requires z in order && InetActive(s.routes, z) ==>
      s.routes[z].flags.gateway && FirstDual(cfg, s, gw, life, order, now) == |order|
    ensures Waits(UpdateInet(cfg, s, gw, life, order, now), z) <==> Waits(s, z)
    decreases |order|
  {
    hide Rewrite, Revive, Waits;
    if order != [] {
      var init, x := order[..|order| - 1], order[|order| - 1];
      assert order == init + [x];
      if z in order && InetActive(s.routes, z) {
        PrefixDual(cfg, s, gw, life, order, now, |init|);
      }
      PassWaits(cfg, s, gw, life, init, now, z);
      InetMoved(cfg, s, gw, life, init, now);
      var s1 := UpdateInet(cfg, s, gw, life, init, now);
      if InetActive(s1.routes, x) {
        assert x in InetSet(s1.routes);
        assert x != z;
        var c := Onto(s1.routes, gw, x, life);
        RewriteWaits(cfg, s1, x, c, now, z);
        ReviveWaits(cfg, Rewrite(cfg, s1, x, c, now), x, life, now, z);
      }
    }
  }

  /** Nothing happened before to an entry that a pass comes to. */
  lemma TurnHarmless(cfg: Config, s: State, gw: Addr, life: nat, init: seq<Addr>, now: Time, x: Addr)
    requires gw in s.routes && x != gw && x !in init && Distinct(init)
    requires InetActive(UpdateInet(cfg, s, gw, life, init, now).routes, x)
    ensures var s1 := UpdateInet(cfg, s, gw, life, init, now);
            x in s.routes &&
            (PlainHarmless(s1, x, Onto(s1.routes, gw, x, life)) <==> PlainHarmless(s, x, Onto(s.routes, gw, x, life)))
  {
    hide UpdateInet, Waits, Told, KernelOf, MovedTimer;
    InetMoved(cfg, s, gw, life, init, now);
    InetTimer(cfg, s, gw, life, init, now, x);
    PassKernel(cfg, s, gw, life, init, now, x);
    PassWaits(cfg, s, gw, life, init, now, x);
  }

  /** A pass without a second gateway accepts nothing without a route exactly if no entry that it
      updates is one that packets waited for and that the move severs, both as they were before. */
  lemma {:induction false} PassAccepts(cfg: Config, s: State, gw: Addr, life: nat, order: seq<Addr>, now: Time)
    requires gw in s.routes && s.routes[gw].flags.gateway && Distinct(order)
    requires FirstDual(cfg, s, gw, life, order, now) == |order|
    ensures PassHarmless(cfg, s, gw, life, order, now) <==>
      forall j :: 0 <= j < |order| && InetActive(UpdateInet(cfg, s, gw, life, order[..j], now).routes, order[j]) ==>
        PlainHarmless(s, order[j], Onto(s.routes, gw, order[j], life))
    decreases |order|
  {
    hide UpdateInet, PlainHarmless;
    if order != [] {
      var n := |order| - 1;
      var init, x := order[..n], order[n];
      PrefixDual(cfg, s, gw, life, order, now, n);
      DistinctParts(order, n);
      PassAccepts(cfg, s, gw, life, init, now);
      InetMoved(cfg, s, gw, life, init, now);
      forall j | 0 <= j < n ensures init[..j] == order[..j] && init[j] == order[j] {
      }
      if InetActive(UpdateInet(cfg, s, gw, life, init, now).routes, x) {
        TurnHarmless(cfg, s, gw, life, init, now, x);
      }
    }
  }

  lemma MoveWaits(cfg: Config, s: State, gw: Addr, life: nat, order: seq<Addr>, now: Time)
    requires gw in s.routes && s.routes[gw].flags.gateway
    requires MoveReturns(cfg, s, gw, life, order, now) && Traverses(order, s.routes)
    ensures Waits(MoveAll(cfg, s, gw, life, order, now), gw) <==> Waits(s, gw)
  {
    hide UpdateInet, FirstDual, Rewrite, Revive, MoveDual, TheWay, Waits, LeftAlone, InetSet, Bystander;
    var k := FirstDual(cfg, s, gw, life, order, now);
    if k == |order| {
      PassWaits(cfg, s, gw, life, order, now, gw);
    } else {
      var w := TheWay(cfg, s, gw, life, k, order, now);
      var c := Onto(w.s1.routes, gw, w.x, life);
      WayAlone(cfg, s, gw, life, k, order, now);
      WayIsHanded(cfg, s, gw, life, k, order, now);
      PrefixDual(cfg, s, gw, life, order, now, k);
      PassWaits(cfg, s, gw, life, order[..k], now, gw);
      InetMoved(cfg, s, gw, life, order[..k], now);
      RewriteOthers(cfg, w.s1, w.x, c, now);
      SameRoute(w.s1.routes[gw], w.t.routes[gw]);
      RewriteWaits(cfg, w.s1, w.x, c, now, gw);
      PassWaits(cfg, w.t, w.x, life, order, now, gw);
      ReviveWaits(cfg, w.u, w.x, life, now, gw);
      PassWaits(cfg, w.v, gw, life, order[k + 1..], now, gw);
    }
  }

  /** The gateway accepts nothing without a route exactly if nobody waited for it before the update,
      or the update does not sever it and the loop does not take it down with its only route. */
  lemma GatewayAccepts(cfg: Config, s: State, d: Addr, c: Change, order: seq<Addr>, now: Time)
    requires d in s.routes && c.flags.gateway
    requires Returns(cfg, s, d, c, order, now) && Traverses(order, s.routes)
    ensures var s1 := Rewrite(cfg, s, d, c, now);
            var s2 := MoveAll(cfg, s1, d, c.lifetime, order, now);
            ReviveHarmless(s2, d) <==> (Waits(s, d) ==> !Severs(s, d, c) && !Strands(s1, s2, d))
  {
    hide Rewrite, MoveAll, MoveReturns, KernelOf, Severs, Strands, Waits, Traverses;
    var s1 := Rewrite(cfg, s, d, c, now);
    RewriteRoot(cfg, s, d, c, now);
    SameTraversal(order, s.routes, s1.routes);
    RewriteWaits(cfg, s, d, c, now, d);
    MoveWaits(cfg, s1, d, c.lifetime, order, now);
    GatewayRoutes(cfg, s, d, c, order, now);
  }

  /** So does a second gateway, which goes down only where its own update demotes it. */
  lemma SecondAccepts(cfg: Config, s: State, gw: Addr, life: nat, k: nat, order: seq<Addr>, now: Time)
    requires Underway(cfg, s, gw, life, k, order, now)
    ensures var w := TheWay(cfg, s, gw, life, k, order, now);
            w.x in s.routes &&
            (ReviveHarmless(w.u, w.x) <==> (Waits(s, w.x) ==> !Severs(s, w.x, Onto(s.routes, gw, w.x, life))))
  {
    hide UpdateInet, FirstDual, Rewrite, Revive, MoveAll, MoveReturns, TheWay, Waits, Told, KernelOf;
    var w := TheWay(cfg, s, gw, life, k, order, now);
    WayIsHanded(cfg, s, gw, life, k, order, now);
    WayAlone(cfg, s, gw, life, k, order, now);
    DistinctParts(order, k);
    PassWaits(cfg, s, gw, life, order[..k], now, w.x);
    RewriteWaits(cfg, w.s1, w.x, Onto(w.s1.routes, gw, w.x, life), now, w.x);
    PassWaits(cfg, w.t, w.x, life, order, now, w.x);
    PassAlone(cfg, w.t, w.x, life, order, now, w.x);
    SelfRoutes(cfg, s, gw, life, k, order, now);
    SelfKeeps(cfg, s, gw, life, k, order, now);
    InetMoved(cfg, s, gw, life, order[..k], now);
    assert w.x in InetSet(w.s1.routes);
    assert w.x in InetSet(s.routes);
  }

  // ----- Steps that are no updates

  lemma InsertJudges(cfg: Config, s: State, d: Addr, c: Change, valid: bool, now: Time)
    requires Sane(s)
    ensures Judges(s, Insert(cfg, s, d, c, valid, now), true)
  {
    hide SafeLog, Matching, Others, TouchPath, Verdicts, AddRoute;
    if d !in s.routes && valid {
      AddSolid(s.kernel, d, c.next, c.hops);
      SafeRelease(s.(kernel := AddRoute(s.kernel, d, c.next, c.hops)), d, true);
    }
  }

  lemma DropJudges(s: State, s': State, d: Addr)
    requires Sane(s) && d in s.routes && s'.kernel == DropRoutes(s.kernel, s.routes, {d}) && s'.log == s.log
    ensures Judges(s, s', true)
  {
    hide DropRoutes, SafeLog;
    DropsSolid(s.kernel, s.routes, {d});
  }

  lemma ExpireJudges(cfg: Config, s: State, d: Addr, now: Time)
    requires Sane(s)
    ensures Judges(s, Expire(cfg, s, d, now), true)
  {
    hide Invalidate, LinkBreak, DropRoutes, Sane, SafeLog, TakesDown;
    if d in s.routes {
      var r := s.routes[d];
      var s1 := Put(s, d, r.(timer := r.timer.(used := false)));
      JudgesAlike(s, s, s1, true);
      match r.timer.handler
      case RouteExpire =>
        if r.hops == 1 {
          LinkBreakTakesDown(cfg, s1, d, now);
          TakedownJudges(cfg, s1, LinkBreak(cfg, s1, d, now), now);
        } else {
          InvalidateTakesDown(cfg, s1, d, now);
          TakedownJudges(cfg, s1, Invalidate(cfg, s1, d, now), now);
          JudgesAlike(s1, Invalidate(cfg, s1, d, now), Expire(cfg, s, d, now), true);
        }
      case LocalRepair => DropJudges(s1, RepairTimeout(cfg, s1, d, now), d);
      case RouteDelete => DeleteJudges(s1, d);
    }
  }

  lemma DeleteJudges(s: State, d: Addr)
    requires Sane(s)
    ensures Judges(s, Delete(s, d), true)
  {
    hide DropRoutes, SafeLog;
    if d in s.routes {
      DropsSolid(s.kernel, s.routes, {d});
    }
  }

  lemma HelloJudges(cfg: Config, s: State, d: Addr, localRepair: bool, now: Time)
    requires Sane(s)
    ensures Judges(s, HelloTimeout(cfg, s, d, localRepair, now), true)
  {
    hide LinkBreak, SafeLog, TakesDown;
    if d in s.routes {
      var s1 := Put(s, d, s.routes[d].(hello := false));
      var r := s1.routes[d];
      var s2 := if localRepair && r.hops <= MAX_REPAIR_TTL then Put(s1, d, r.(flags := r.flags.(repair := true))) else s1;
      LinkBreakTakesDown(cfg, s2, d, now);
      TakedownJudges(cfg, s2, LinkBreak(cfg, s2, d, now), now);
    }
  }

  lemma SeekFailedJudges(cfg: Config, s: State, d: Addr, now: Time)
    requires Sane(s)
    ensures Judges(s, SeekFailed(cfg, s, d, now), true)
  {
    hide DropRoutes, SafeLog, Matching, Others, Verdicts;
    SafeRelease(s, d, false);
    var s1 := DropFor(s, d).(seeking := s.seeking - {d});
    if d in s1.routes {
      DropJudges(s1, RepairTimeout(cfg, s1, d, now), d);
    }
  }

  lemma CollectJudges(s: State, now: Time)
    requires Sane(s)
    ensures Judges(s, Collect(s, now), true)
  {
    hide SafeLog, Verdicts;
    SafeVerdicts(s.log, s.kernel, Aged(s.queue, now), false);
  }

  /** The packet is let through by the header tests, or is not accepted at once, or the kernel can
      reach its destination. */
  predicate ReceiveHarmless(s: State, p: Packet) {
    p.bypass || Unusable(s.routes, p.dest) || p.dest in s.kernel
  }

  lemma ReceiveJudges(cfg: Config, s: State, p: Packet, now: Time)
    requires Sane(s)
    ensures Judges(s, Receive(cfg, s, p, now), ReceiveHarmless(s, p))
  {
    hide SafeLog, RefreshForward, RefreshReverse, Touch, Hold, Verdicts;
    var arrived := s.log + [Arrived(p.id, p.dest, p.bypass)];
    SafeOneMore(s.log, Arrived(p.id, p.dest, p.bypass));
    SafeOneMore(arrived, Verdict(p.id, p.dest, false, p.dest in s.kernel));
    SafeOneMore(arrived, Verdict(p.id, p.dest, true, p.dest in s.kernel));
    var routes := RefreshReverse(cfg, RefreshForward(cfg, s.routes, p.dest, now), p.src, now);
    RefreshProlongs(cfg, s.routes, p.dest, p.src, now);
    assert p.dest in s.routes ==> Prolonged(s.routes[p.dest], routes[p.dest]);
    assert Unusable(routes, p.dest) == Unusable(s.routes, p.dest);
    if !p.bypass && |s.queue| >= MAX_QUEUE_LENGTH {
      SafeVerdicts(arrived, s.kernel, s.queue[..1], false);
    }
  }

  // ----- All steps and whole runs

  ghost predicate Harmless(cfg: Config, s: State, now: Time, step: Step) {
    match step
    case Receives(p) => ReceiveHarmless(s, p)
    case Updates(d, c, order) => UpdateHarmless(cfg, s, d, c, order, now)
    case _ => true
  }

  /** Exactly when a step accepts no packet without a route. */
  lemma StepAccepts(cfg: Config, s: State, now: Time, step: Step)
    requires Sane(s)
    ensures var s' := Next(cfg, s, now, step);
            Sane(s') && (SafeLog(s'.log) <==> SafeLog(s.log) && Harmless(cfg, s, now, step))
  {
    hide SafeLog, Sane, Invalidate, LinkBreak, Update, Insert, Receive, Expire, HelloTimeout, SeekFailed, Collect, Delete,
      TakesDown, UpdateHarmless, ReceiveHarmless;
    match step
    case Receives(p) => ReceiveJudges(cfg, s, p, now);
    case Inserts(d, c, valid) => InsertJudges(cfg, s, d, c, valid, now);
    case Updates(d, c, order) => UpdateJudges(cfg, s, d, c, order, now);
    case Invalidates(d) =>
      InvalidateTakesDown(cfg, s, d, now);
      TakedownJudges(cfg, s, Invalidate(cfg, s, d, now), now);
    case Deletes(d) => DeleteJudges(s, d);
    case Expires(d) => ExpireJudges(cfg, s, d, now);
    case LinkBreaks(d) =>
      LinkBreakTakesDown(cfg, s, d, now);
      TakedownJudges(cfg, s, LinkBreak(cfg, s, d, now), now);
    case HelloFails(d, localRepair) => HelloJudges(cfg, s, d, localRepair, now);
    case SeekFails(d) => SeekFailedJudges(cfg, s, d, now);
    case HelloStarts(d) => JudgesAlike(s, s, StartHello(s, d), true);
    case AddsPrecursor(d, n) => JudgesAlike(s, s, AddPrecursor(s, d, n), true);
    case Ticks => CollectJudges(s, now);
  }

  ghost predicate HarmlessRun(cfg: Config, steps: seq<Timed>) {
    steps == [] ||
    (var init, last := steps[..|steps| - 1], steps[|steps| - 1];
     HarmlessRun(cfg, init) && Harmless(cfg, Run(cfg, init), last.now, last.step))
  }

  /** Exactly in which runs no packet was accepted without a route in the kernel, at once or from
      the buffer, unless the header tests let it through. */
  lemma {:induction false} RunAccepts(cfg: Config, steps: seq<Timed>)
    ensures Sane(Run(cfg, steps))
    ensures SafeLog(Run(cfg, steps).log) <==> HarmlessRun(cfg, steps)
  {
    if steps != [] {
      hide Next, SafeLog, Sane, Harmless;
      var init, last := steps[..|steps| - 1], steps[|steps| - 1];
      RunAccepts(cfg, init);
      StepAccepts(cfg, Run(cfg, init), last.now, last.step);
    }
  }

  // ----- Runs that sever nothing

  lemma {:induction false} CarefulPass(cfg: Config, s: State, gw: Addr, life: nat, order: seq<Addr>, now: Time, held: set<Addr>)
    requires gw in s.routes && PassCareful(cfg, s, gw, life, order, now, held)
    ensures PassHarmless(cfg, s, gw, life, order, now)
    decreases |order|
  {
    hide UpdateInet, Severs, Waits;
    if order != [] {
      CarefulPass(cfg, s, gw, life, order[..|order| - 1], now, held);
    }
  }

  lemma CarefulMove(cfg: Config, s: State, gw: Addr, life: nat, order: seq<Addr>, now: Time)
    requires gw in s.routes && Covered(s) && KernelOf(s, gw) != map[] && MoveCareful(cfg, s, gw, life, order, now)
    ensures MoveHarmless(cfg, s, gw, life, order, now)
  {
    hide UpdateInet, FirstDual, Rewrite, Revive, MoveDual, PassCareful, PassHarmless, Gentle, Covered, Waits;
    var k := FirstDual(cfg, s, gw, life, order, now);
    if k == |order| {
      CarefulPass(cfg, s, gw, life, order, now, {gw});
    } else {
      var s1, x := UpdateInet(cfg, s, gw, life, order[..k], now), order[k];
      var c := Onto(s1.routes, gw, x, life);
      var t := Rewrite(cfg, s1, x, c, now);
      CarefulPass(cfg, s, gw, life, order[..k], now, {gw});
      CarefulPass(cfg, t, x, life, order, now, {gw, x});
      CarefulPass(cfg, MoveDual(cfg, s1, gw, life, x, order, now), gw, life, order[k + 1..], now, {gw});
      PassCovers(cfg, s, gw, life, order[..k], now, {gw});
      RewriteHolds(cfg, s1, x, c, now, {gw});
      PassCovers(cfg, t, x, life, order, now, {gw, x});
    }
  }

  /** A step that severs no VALID entry is harmless if all of them are covered. */
  lemma CarefulIsHarmless(cfg: Config, s: State, now: Time, step: Step)
    requires Covered(s) && Careful(cfg, s, now, step)
    ensures Harmless(cfg, s, now, step)
  {
    hide Rewrite, MoveAll, MoveCareful, MoveHarmless, Severs, Waits;
    if step.Updates? && step.d in s.routes && step.c.flags.gateway {
      var s1 := Rewrite(cfg, s, step.d, step.c, now);
      RewriteKeepsCovered(cfg, s, step.d, step.c, now);
      RewriteCovers(cfg, s, step.d, step.c, now);
      CarefulMove(cfg, s1, step.d, step.c.lifetime, step.order, now);
      MoveCovers(cfg, s1, step.d, step.c.lifetime, step.order, now);
    }
  }

  ghost predicate CarefulRun(cfg: Config, steps: seq<Timed>) {
    steps == [] ||
    (var init, last := steps[..|steps| - 1], steps[|steps| - 1];
     CarefulRun(cfg, init) && Careful(cfg, Run(cfg, init), last.now, last.step))
  }

  lemma {:induction false} CarefulRuns(cfg: Config, steps: seq<Timed>)
    requires CarefulRun(cfg, steps)
    ensures Covered(Run(cfg, steps)) && HarmlessRun(cfg, steps)
  {
    if steps != [] {
      hide Next, TimedAs, Covered, Careful, Harmless;
      var init, last := steps[..|steps| - 1], steps[|steps| - 1];
      CarefulRuns(cfg, init);
      RunLoose(cfg, init);
      CarefulStep(cfg, Run(cfg, init), last.now, last.step);
      CarefulIsHarmless(cfg, Run(cfg, init), last.now, last.step);
    }
  }

  /** A run that severs no VALID entry accepts no packet without a route. */
  lemma RunSafe(cfg: Config, steps: seq<Timed>)
    requires CarefulRun(cfg, steps)
    ensures Covered(Run(cfg, steps)) && SafeLog(Run(cfg, steps).log)
  {
    hide Covered, SafeLog, Run;
    CarefulRuns(cfg, steps);
    RunAccepts(cfg, steps);
  }

  // ----- A run in which it fails

  const InDoubt: Flags := Flags(true, false, false, false, false)

  /** A neighbour over a link in doubt; a packet waits for it; then it is moved two hops away by
      way of itself. */
  const UnsafeSteps: seq<Timed> := [
    Timed(0, Inserts(7, Change(7, 1, 0, 3000, InDoubt), true)),
    Timed(1, Receives(Packet(1, 9, 7, false, false))),
    Timed(2, Updates(7, Change(7, 2, 0, 3000, InDoubt), [7]))]

  function Neighbour(timeout: Time): Route {
    Route(7, 1, 0, InDoubt, true, Timer(RouteExpire, true, timeout), false, [])
  }

  lemma UnsafeWaits()
    ensures Run(Defaults, UnsafeSteps[..2]) ==
      State(map[7 := Neighbour(5601)], 1, map[7 := map[1 := 7]], [Buffered(1, 7, 1)], [Arrived(1, 7, false)], {7})
  {
    var t := UnsafeSteps;
    assert t[..1] == [] + [t[0]] && t[..2] == t[..1] + [t[1]];
    RunOneMore(Defaults, [], t[0]);
    var s := State(map[7 := Neighbour(3000)], 1, map[7 := map[1 := 7]], [], [], {});
    assert Run(Defaults, t[..1]) == s;
    RunOneMore(Defaults, t[..1], t[1]);
  }

  lemma UnsafeRewrite(s: State, c: Change)
    requires s == State(map[7 := Neighbour(5601)], 1, map[7 := map[1 := 7]], [Buffered(1, 7, 1)], [Arrived(1, 7, false)], {7})
    requires c == Change(7, 2, 0, 3000, InDoubt)
    ensures var t := Rewrite(Defaults, s, 7, c, 2);
            7 in t.routes && 7 !in t.kernel && t.queue == s.queue && t.log == s.log && t.seeking == s.seeking
  {
    hide Rewrite, LinkBreak;
    var s1, s2 := RewriteShape(Defaults, s, 7, c, 2);
    assert map[1 := 7] - {1} == map[];
    assert ValidSet(s1.routes) - ValidSet(s2.routes) == {7};
    DropsOne(s1.kernel, s1.routes, 7);
  }

  lemma UnsafeUpdate(s: State, c: Change)
    requires s == State(map[7 := Neighbour(5601)], 1, map[7 := map[1 := 7]], [Buffered(1, 7, 1)], [Arrived(1, 7, false)], {7})
    requires c == Change(7, 2, 0, 3000, InDoubt)
    ensures Update(Defaults, s, 7, c, [7], 2).log == [Arrived(1, 7, false), Verdict(1, 7, true, false)]
  {
    hide Rewrite, Revive, Matching, Prolongs;
    UpdateIsPlain(Defaults, s, 7, c, [7], 2);
    var t := Rewrite(Defaults, s, 7, c, 2);
    UnsafeRewrite(s, c);
    ReviveShape(Defaults, t, 7, 3000, 2);
    assert s.queue == [] + [Buffered(1, 7, 1)];
    MatchingOneMore([], Buffered(1, 7, 1), 7);
    NothingMatches(7);
    assert Matching(s.queue, 7) == [Buffered(1, 7, 1)];
  }

  lemma NothingMatches(d: Addr)
    ensures Matching([], d) == []
  {
  }

  /** The packet is accepted, and the kernel has no route for it. */
  lemma UnsafeRun()
    ensures Run(Defaults, UnsafeSteps).log == [Arrived(1, 7, false), Verdict(1, 7, true, false)]
    ensures !SafeLog(Run(Defaults, UnsafeSteps).log)
  {
    hide Run, Update;
    var t := UnsafeSteps;
    UnsafeWaits();
    assert t == t[..2] + [t[2]];
    RunOneMore(Defaults, t[..2], t[2]);
    UnsafeUpdate(Run(Defaults, t[..2]), t[2].step.c);
  }
}
