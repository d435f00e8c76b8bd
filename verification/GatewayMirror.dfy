/** The kernel's routes through the update of a gateway: exactly when it leaves them in agreement
    with the table. */
module GatewayMirror {
  import opened Basics
  import opened Route
  import opened DaemonSpec
  import opened Takedown
  import opened UpdateParts
  import opened GatewayMoves
  import opened GatewayOwn
  import opened Lifetimes
  import opened Mirror

  // ----- Who goes down in a pass

  /** An entry that the pass from `s` to `s'` neither updates nor takes down. */
  predicate Stays(s: State, s': State, z: Addr) {
    z in s.routes && z in s'.routes ==> !InetActive(s.routes, z) && (s.routes[z].valid ==> s'.routes[z].valid)
  }

  lemma StaysStep(cfg: Config, s: State, x: Addr, c: Change, now: Time, z: Addr)
    requires InetActive(s.routes, x) && z in s.routes && !InetActive(s.routes, z)
    ensures UpdatePlain(cfg, s, x, c, now).routes[z].valid ==> s.routes[z].valid
  {
    hide UpdatePlain;
    PlainOthers(cfg, s, x, c, now);
  }

  /** A VALID Internet destination whose next hop and whose new gateway stay, stays itself. */
  lemma {:induction false} StaysUp(cfg: Config, s: State, gw: Addr, life: nat, order: seq<Addr>, now: Time, y: Addr)
    requires gw in s.routes && InetActive(s.routes, y) && y != gw && y != s.routes[y].nextHop
    requires var s' := UpdateInet(cfg, s, gw, life, order, now); Stays(s, s', gw) && Stays(s, s', s.routes[y].nextHop)
    ensures var s' := UpdateInet(cfg, s, gw, life, order, now);
            InetActive(s'.routes, y) && s'.routes[y].nextHop in {s.routes[y].nextHop, gw}
    decreases |order|
  {
    hide UpdatePlain;
    if order != [] {
      var init, x := order[..|order| - 1], order[|order| - 1];
      var s1, s' := UpdateInet(cfg, s, gw, life, init, now), UpdateInet(cfg, s, gw, life, order, now);
      InetMoved(cfg, s, gw, life, init, now);
      StaysBefore(cfg, s, gw, life, order, now, gw);
      StaysBefore(cfg, s, gw, life, order, now, s.routes[y].nextHop);
      StaysUp(cfg, s, gw, life, init, now, y);
      if InetActive(s1.routes, x) {
        var c := Onto(s1.routes, gw, x, life);
        PlainOthers(cfg, s1, x, c, now);
        if x != y {
          StepUp(cfg, s1, x, c, now, y);
        }
      }
    }
  }

  /** One step of it. */
  lemma StepUp(cfg: Config, s: State, x: Addr, c: Change, now: Time, y: Addr)
    requires InetActive(s.routes, x) && InetActive(s.routes, y) && x != y
    requires Stays(s, UpdatePlain(cfg, s, x, c, now), s.routes[y].nextHop)
    ensures InetActive(UpdatePlain(cfg, s, x, c, now).routes, y)
    ensures UpdatePlain(cfg, s, x, c, now).routes[y].nextHop == s.routes[y].nextHop
  {
    hide UpdatePlain;
    PlainOthers(cfg, s, x, c, now);
    if !UpdatePlain(cfg, s, x, c, now).routes[y].valid {
      PlainReason(cfg, s, x, c, now, y);
    }
  }

  /** What stays through a pass, stays through its beginning and its last step. */
  lemma StaysBefore(cfg: Config, s: State, gw: Addr, life: nat, order: seq<Addr>, now: Time, z: Addr)
    requires gw in s.routes && order != [] && Stays(s, UpdateInet(cfg, s, gw, life, order, now), z)
    ensures var s1 := UpdateInet(cfg, s, gw, life, order[..|order| - 1], now);
            Stays(s, s1, z) && Stays(s1, UpdateInet(cfg, s, gw, life, order, now), z)
  {
    hide UpdatePlain;
    var init, x := order[..|order| - 1], order[|order| - 1];
    var s1 := UpdateInet(cfg, s, gw, life, init, now);
    InetMoved(cfg, s, gw, life, init, now);
    if z in s.routes {
      InetBystander(cfg, s, gw, life, init, now, z);
      if InetActive(s1.routes, x) {
        StaysStep(cfg, s1, x, Onto(s1.routes, gw, x, life), now, z);
      }
    }
  }

  // ----- The kernel's routes in a pass

  /** An entry in agreement with the kernel is so after the pass, or it is an Internet destination
      that was moved. */
  lemma {:induction false} PassMirror(cfg: Config, s: State, gw: Addr, life: nat, order: seq<Addr>, now: Time, y: Addr)
    requires gw in s.routes && y != gw && MirrorAt(s, y) && Stays(s, UpdateInet(cfg, s, gw, life, order, now), gw)
    ensures var s' := UpdateInet(cfg, s, gw, life, order, now);
            MirrorAt(s', y) || (y in order && InetActive(s'.routes, y))
    decreases |order|
  {
    hide UpdatePlain, MirrorAt;
    if order != [] {
      var init, x := order[..|order| - 1], order[|order| - 1];
      var s1 := UpdateInet(cfg, s, gw, life, init, now);
      StaysBefore(cfg, s, gw, life, order, now, gw);
      PassMirror(cfg, s, gw, life, init, now, y);
      assert order == init + [x];
      if InetActive(s1.routes, x) {
        var c := Onto(s1.routes, gw, x, life);
        PlainOthers(cfg, s1, x, c, now);
        if x != y {
          if MirrorAt(s1, y) {
            PlainMirrorAt(cfg, s1, x, c, now, y);
          } else {
            InetMoved(cfg, s, gw, life, init, now);
            StepUp(cfg, s1, x, c, now, y);
          }
        }
      }
    }
  }

  /** The routes to an entry that is VALID after the pass. */
  predicate PassedOn(s: State, s': State, y: Addr, c: Change, passed: bool)
    requires y in s.routes && y in s'.routes
  {
    s'.routes[y].valid ==>
      KernelOf(s', y) == if passed && InetActive(s.routes, y) then Told(KernelOf(s, y), s.routes[y], c) else KernelOf(s, y)
  }

  lemma {:induction false} PassKernel(cfg: Config, s: State, gw: Addr, life: nat, order: seq<Addr>, now: Time, y: Addr)
    requires gw in s.routes && y in s.routes && y != gw
    requires Distinct(order)
    ensures PassedOn(s, UpdateInet(cfg, s, gw, life, order, now), y, Onto(s.routes, gw, y, life), y in order)
    decreases |order|
  {
    hide UpdatePlain, Told, MovedTimer;
    if order != [] {
      var init, x := order[..|order| - 1], order[|order| - 1];
      var s1 := UpdateInet(cfg, s, gw, life, init, now);
      PassKernel(cfg, s, gw, life, init, now, y);
      InetTimer(cfg, s, gw, life, init, now, y);
      InetMoved(cfg, s, gw, life, init, now);
      assert order == init + [x] && x !in init;
      if InetActive(s1.routes, x) {
        PlainKernel(cfg, s1, x, Onto(s1.routes, gw, x, life), now, y);
      }
    }
  }

  lemma PlainKernel(cfg: Config, s: State, d: Addr, c: Change, now: Time, y: Addr)
    requires d in s.routes && s.routes[d].valid && y in s.routes
    ensures var s' := UpdatePlain(cfg, s, d, c, now);
            && (s'.routes[y].valid && y != d ==> KernelOf(s', y) == KernelOf(s, y) && s.routes[y].valid)
            && (y == d ==> KernelOf(s', y) == Told(KernelOf(s, y), s.routes[y], c))
  {
    hide Rewrite, Revive, Told;
    var t := Rewrite(cfg, s, d, c, now);
    ReviveMirror(cfg, t, d, c.lifetime, now, y);
    if y == d {
      RewriteKernel(cfg, s, d, c, now);
    } else {
      RewriteMirror(cfg, s, d, c, now, y);
      PlainOthers(cfg, s, d, c, now);
      ReviveShape(cfg, t, d, c.lifetime, now);
      assert Prolonged(t.routes[y], Revive(cfg, t, d, c.lifetime, now).routes[y]);
    }
  }

  // ----- The whole loop without a second gateway

  /** Exactly when an entry other than the gateway agrees with the kernel afterwards. */
  lemma PassMirrorIff(cfg: Config, s: State, gw: Addr, life: nat, order: seq<Addr>, now: Time, z: Addr)
    requires gw in s.routes && Traverses(order, s.routes) && z != gw && MirrorAt(s, z)
    requires Stays(s, UpdateInet(cfg, s, gw, life, order, now), gw)
    ensures var s' := UpdateInet(cfg, s, gw, life, order, now);
            MirrorAt(s', z) <==> (InetActive(s'.routes, z) ==> !Loses(s.routes[z], Onto(s.routes, gw, z, life)))
  {
    hide UpdateInet, Told, Loses, MirrorAt;
    var s' := UpdateInet(cfg, s, gw, life, order, now);
    if InetActive(s'.routes, z) {
      InetMoved(cfg, s, gw, life, order, now);
      assert z in InetSet(s'.routes);
      assert z in InetSet(s.routes);
      PassKernel(cfg, s, gw, life, order, now, z);
      MirrorOfValid(s, z);
      MirrorOfValid(s', z);
      ToldRight(s.routes[z], Onto(s.routes, gw, z, life));
    } else {
      PassMirror(cfg, s, gw, life, order, now, z);
    }
  }

  // ----- The whole loop with a second gateway

  /** Two moves in a row, first to `a` and then to `b`, both `hops` away. */
  lemma ToldTwice(r: Route, r1: Route, a: Change, b: Change)
    requires r.valid && r1.hops == a.hops && r1.nextHop == a.next && a.hops == b.hops > 1 && a.next != b.next
    ensures Told(Told(map[r.hops := r.nextHop], r, a), r1, b) == map[b.hops := b.next] <==>
            (r.hops == 1 || r.hops == b.hops) && a.next != 0
  {
    hide Told;
    var ms, ms' := map[r.hops := r.nextHop], map[b.hops := b.next];
    var ms1 := Told(ms, r, a);
    ToldOnce(r, a);
    ToldOnward(ms1, r1, b);
    assert b.hops in ms';
    if a.next != 0 {
      if r.hops == 1 || r.hops == b.hops {
        assert ms1[b.hops := b.next] == ms';
      } else {
        assert r.hops in ms1[b.hops := b.next] && r.hops !in ms';
      }
    }
  }

  lemma ToldOnward(ms: map<nat, Addr>, r1: Route, b: Change)
    requires r1.hops == b.hops > 1 && r1.nextHop != b.next
    ensures Told(ms, r1, b) == if r1.nextHop != 0 then ms[b.hops := b.next] else ms
  {
  }

  lemma ToldOnce(r: Route, a: Change)
    requires r.valid && a.hops > 1
    ensures var ms1 := Told(map[r.hops := r.nextHop], r, a);
            && (r.hops == 1 || r.hops == a.hops ==> ms1.Keys <= {a.hops})
            && (r.hops != 1 ==> r.hops in ms1)
            && (a.next == 0 && a.hops in ms1 ==> ms1[a.hops] == 0)
  {
  }

  /** A gateway that comes through the loop VALID is no Internet destination. */
  lemma GatewayIsPlain(cfg: Config, s: State, gw: Addr, life: nat, order: seq<Addr>, now: Time)
    requires gw in s.routes && s.routes[gw].flags.gateway
    requires MoveReturns(cfg, s, gw, life, order, now) && forall x :: x in s.routes ==> x in order
    requires s.routes[gw].valid ==> MoveAll(cfg, s, gw, life, order, now).routes[gw].valid
    ensures !InetActive(s.routes, gw)
  {
    hide UpdateInet, FirstDual, MoveDual, MoveReturns, TheWay, InetSet;
    var k := FirstDual(cfg, s, gw, life, order, now);
    if k == |order| {
      HandedOthers(cfg, s, gw, life, order, now);
      InetMoved(cfg, s, gw, life, order, now);
      assert !DualAt(UpdateInet(cfg, s, gw, life, order, now).routes, gw);
    } else {
      WayAlone(cfg, s, gw, life, k, order, now);
      DualHands(cfg, s, gw, life, order, now);
      WayIsHanded(cfg, s, gw, life, k, order, now);
    }
  }

  /** The loop meets a second gateway at `k`, and comes back. */
  ghost predicate Underway(cfg: Config, s: State, gw: Addr, life: nat, k: nat, order: seq<Addr>, now: Time) {
    && gw in s.routes && s.routes[gw].flags.gateway && k == FirstDual(cfg, s, gw, life, order, now) < |order|
    && MoveReturns(cfg, s, gw, life, order, now) && Traverses(order, s.routes)
  }

  /** Moreover the gateway does not go down. */
  ghost predicate OnTheWay(cfg: Config, s: State, gw: Addr, life: nat, k: nat, order: seq<Addr>, now: Time) {
    && Underway(cfg, s, gw, life, k, order, now)
    && (s.routes[gw].valid ==> MoveAll(cfg, s, gw, life, order, now).routes[gw].valid)
  }

  /** Both gateways stay through every part. */
  lemma WayStays(cfg: Config, s: State, gw: Addr, life: nat, k: nat, order: seq<Addr>, now: Time)
    requires OnTheWay(cfg, s, gw, life, k, order, now)
    ensures var w := TheWay(cfg, s, gw, life, k, order, now);
            && Stays(s, w.s1, gw) && Stays(w.s1, w.t, gw) && Stays(w.t, w.u, gw) && Stays(w.t, w.u, w.x)
            && Stays(w.v, MoveAll(cfg, s, gw, life, order, now), gw)
  {
    hide UpdateInet, FirstDual, Rewrite, Revive, MoveAll, MoveReturns, TheWay, Bystander, Ready;
    var w := TheWay(cfg, s, gw, life, k, order, now);
    GatewayIsPlain(cfg, s, gw, life, order, now);
    WayAlone(cfg, s, gw, life, k, order, now);
    WayIsHanded(cfg, s, gw, life, k, order, now);
    InetMoved(cfg, s, gw, life, order[..k], now);
    RewriteOthers(cfg, w.s1, w.x, Onto(w.s1.routes, gw, w.x, life), now);
    SameRoute(w.s1.routes[gw], w.t.routes[gw]);
  }

  /** Up to the end of the second gateway's pass. */
  lemma WayMirror(cfg: Config, s: State, gw: Addr, life: nat, k: nat, order: seq<Addr>, now: Time, z: Addr)
    requires OnTheWay(cfg, s, gw, life, k, order, now) && z != gw && z != order[k] && MirrorAt(s, z)
    ensures var w := TheWay(cfg, s, gw, life, k, order, now); MirrorAt(w.u, z) || InetActive(w.u.routes, z)
  {
    hide UpdateInet, FirstDual, Rewrite, Revive, MoveAll, MoveReturns, MoveDual, TheWay, MirrorAt, Stays;
    var w := TheWay(cfg, s, gw, life, k, order, now);
    WayStays(cfg, s, gw, life, k, order, now);
    WayIsHanded(cfg, s, gw, life, k, order, now);
    PassMirror(cfg, s, gw, life, order[..k], now, z);
    if MirrorAt(w.s1, z) {
      RewriteMirror(cfg, w.s1, w.x, Onto(w.s1.routes, gw, w.x, life), now, z);
      PassMirror(cfg, w.t, w.x, life, order, now, z);
    } else {
      InetMoved(cfg, s, gw, life, order[..k], now);
      WayUp(cfg, s, gw, life, k, order, now, z);
    }
  }

  /** An entry that is no VALID Internet destination afterwards agrees with the kernel. */
  lemma DualKeeps(cfg: Config, s: State, gw: Addr, life: nat, k: nat, order: seq<Addr>, now: Time, z: Addr)
    requires OnTheWay(cfg, s, gw, life, k, order, now) && z != gw && z != order[k] && MirrorAt(s, z)
    requires !InetActive(MoveAll(cfg, s, gw, life, order, now).routes, z)
    ensures MirrorAt(MoveAll(cfg, s, gw, life, order, now), z)
  {
    hide UpdateInet, FirstDual, Rewrite, Revive, MoveAll, MoveReturns, MoveDual, TheWay, MirrorAt, Stays, Handed, Prolonged;
    var w := TheWay(cfg, s, gw, life, k, order, now);
    var s', rest := MoveAll(cfg, s, gw, life, order, now), order[k + 1..];
    WayStays(cfg, s, gw, life, k, order, now);
    WayIsHanded(cfg, s, gw, life, k, order, now);
    WayMirror(cfg, s, gw, life, k, order, now, z);
    DualHands(cfg, s, gw, life, order, now);
    RestLands(cfg, w.v, gw, w.x, s.routes[gw].hops, life, rest, now);
    assert z in InetSet(w.v.routes) <==> z in InetSet(s'.routes);
    ReviveShape(cfg, w.u, w.x, life, now);
    if z in w.u.routes {
      SameRoute(w.u.routes[z], w.v.routes[z]);
    }
    ReviveMirror(cfg, w.u, w.x, life, now, z);
    PassMirror(cfg, w.v, gw, life, rest, now, z);
  }

  /** An Internet destination that was moved to the gateway in the first part is VALID after the
      pass of the second gateway. */
  lemma WayUp(cfg: Config, s: State, gw: Addr, life: nat, k: nat, order: seq<Addr>, now: Time, z: Addr)
    requires OnTheWay(cfg, s, gw, life, k, order, now) && z != gw && z != order[k]
    requires var w := TheWay(cfg, s, gw, life, k, order, now); InetActive(w.s1.routes, z) && w.s1.routes[z].nextHop == gw
    ensures InetActive(TheWay(cfg, s, gw, life, k, order, now).u.routes, z)
  {
    hide UpdateInet, FirstDual, Rewrite, Revive, MoveAll, MoveReturns, TheWay, Bystander, Ready;
    var w := TheWay(cfg, s, gw, life, k, order, now);
    var c := Onto(w.s1.routes, gw, w.x, life);
    WayStays(cfg, s, gw, life, k, order, now);
    WayAlone(cfg, s, gw, life, k, order, now);
    WayIsHanded(cfg, s, gw, life, k, order, now);
    RewriteOthers(cfg, w.s1, w.x, c, now);
    SameRoute(w.s1.routes[z], w.t.routes[z]);
    if !w.t.routes[z].valid {
      RewriteReason(cfg, w.s1, w.x, c, now, z);
    }
    StaysUp(cfg, w.t, w.x, life, order, now, z);
  }

  /** An Internet destination that is VALID afterwards has been moved twice; the kernel agrees
      exactly if its old distance left nothing behind and the second move was announced. */
  lemma DualMoves(cfg: Config, s: State, gw: Addr, life: nat, k: nat, order: seq<Addr>, now: Time, z: Addr)
    requires OnTheWay(cfg, s, gw, life, k, order, now) && z != gw && z != order[k] && MirrorAt(s, z)
    requires InetActive(MoveAll(cfg, s, gw, life, order, now).routes, z)
    ensures z in s.routes
    ensures MirrorAt(MoveAll(cfg, s, gw, life, order, now), z) <==>
            && (s.routes[z].hops == 1 || s.routes[z].hops == s.routes[gw].hops)
            && (if z in order[..k] then gw else order[k]) != 0
  {
    hide UpdateInet, FirstDual, Rewrite, Revive, MoveAll, MoveReturns, TheWay, MirrorAt, Told, MovedTimer, Prolonged;
    var w := TheWay(cfg, s, gw, life, k, order, now);
    var s', rest, H := MoveAll(cfg, s, gw, life, order, now), order[k + 1..], s.routes[gw].hops;
    var a, b := (if z in order[..k] then gw else w.x), if z in order[..k] then w.x else gw;
    MoveLands(cfg, s, gw, life, order, now);
    assert z in InetSet(s'.routes);
    assert z in InetSet(s.routes);
    var r1 := DualRoutes(cfg, s, gw, life, k, order, now, z);
    MirrorOfValid(s, z);
    MirrorOfValid(s', z);
    DualHands(cfg, s, gw, life, order, now);
    ToldTwice(s.routes[z], r1, Change(a, H, 0, life, s.routes[z].flags), Change(b, H, 0, life, s.routes[z].flags));
  }

  /** The routes to such a destination, with its entry between the moves. */
  lemma DualRoutes(cfg: Config, s: State, gw: Addr, life: nat, k: nat, order: seq<Addr>, now: Time, z: Addr) returns (r1: Route)
    requires Underway(cfg, s, gw, life, k, order, now) && z != gw && z != order[k]
    requires InetActive(MoveAll(cfg, s, gw, life, order, now).routes, z) && InetActive(s.routes, z)
    ensures var H, flags := s.routes[gw].hops, s.routes[z].flags;
            var a, b := (if z in order[..k] then gw else order[k]), if z in order[..k] then order[k] else gw;
            r1.hops == H && r1.nextHop == a &&
            KernelOf(MoveAll(cfg, s, gw, life, order, now), z) ==
              Told(Told(KernelOf(s, z), s.routes[z], Change(a, H, 0, life, flags)), r1, Change(b, H, 0, life, flags))
  {
    hide UpdateInet, FirstDual, Rewrite, Revive, MoveAll, MoveReturns, TheWay, Told, Traverses;
    var w := TheWay(cfg, s, gw, life, k, order, now);
    FirstMove(cfg, s, gw, life, k, order, now, z);
    SecondMove(cfg, s, gw, life, k, order, now, z);
    ThirdMove(cfg, s, gw, life, k, order, now, z);
    r1 := if z in order[..k] then w.t.routes[z] else w.v.routes[z];
  }

  /** The routes to it, and its entry, when the second gateway starts its pass. */
  lemma FirstMove(cfg: Config, s: State, gw: Addr, life: nat, k: nat, order: seq<Addr>, now: Time, z: Addr)
    requires Underway(cfg, s, gw, life, k, order, now) && z != gw && z != order[k]
    requires InetActive(MoveAll(cfg, s, gw, life, order, now).routes, z) && InetActive(s.routes, z)
    ensures var w, H := TheWay(cfg, s, gw, life, k, order, now), s.routes[gw].hops;
            if z in order[..k] then
              && KernelOf(w.t, z) == Told(KernelOf(s, z), s.routes[z], Change(gw, H, 0, life, s.routes[z].flags))
              && w.t.routes[z].hops == H && w.t.routes[z].nextHop == gw && w.t.routes[z].flags == s.routes[z].flags
            else
              KernelOf(w.t, z) == KernelOf(s, z) && w.t.routes[z] == s.routes[z]
  {
    hide UpdateInet, FirstDual, Rewrite, Revive, MoveAll, MoveReturns, TheWay, Told, MovedTimer;
    var w := TheWay(cfg, s, gw, life, k, order, now);
    WayIsHanded(cfg, s, gw, life, k, order, now);
    WayValid(cfg, s, gw, life, k, order, now, z);
    DistinctParts(order, k);
    InetTimer(cfg, s, gw, life, order[..k], now, z);
    PassKernel(cfg, s, gw, life, order[..k], now, z);
    InetMoved(cfg, s, gw, life, order[..k], now);
    RewriteLeaves(cfg, w.s1, w.x, Onto(w.s1.routes, gw, w.x, life), now, z);
    RewriteMirror(cfg, w.s1, w.x, Onto(w.s1.routes, gw, w.x, life), now, z);
  }

  /** After that pass. */
  lemma SecondMove(cfg: Config, s: State, gw: Addr, life: nat, k: nat, order: seq<Addr>, now: Time, z: Addr)
    requires Underway(cfg, s, gw, life, k, order, now) && z != gw && z != order[k]
    requires InetActive(MoveAll(cfg, s, gw, life, order, now).routes, z) && InetActive(s.routes, z)
    ensures var w, H := TheWay(cfg, s, gw, life, k, order, now), s.routes[gw].hops;
            var flags := w.t.routes[z].flags;
            && KernelOf(w.v, z) == Told(KernelOf(w.t, z), w.t.routes[z], Change(w.x, H, 0, life, flags))
            && w.v.routes[z].hops == H && w.v.routes[z].nextHop == w.x && w.v.routes[z].flags == flags
  {
    hide UpdateInet, FirstDual, Rewrite, Revive, MoveAll, TheWay, Told, MovedTimer, Bystander;
    var w := TheWay(cfg, s, gw, life, k, order, now);
    WayIsHanded(cfg, s, gw, life, k, order, now);
    WayValid(cfg, s, gw, life, k, order, now, z);
    InetMoved(cfg, s, gw, life, order[..k], now);
    RewriteRoot(cfg, w.s1, w.x, Onto(w.s1.routes, gw, w.x, life), now);
    InetMoved(cfg, w.t, w.x, life, order, now);
    InetTimer(cfg, w.t, w.x, life, order, now, z);
    PassKernel(cfg, w.t, w.x, life, order, now, z);
    ReviveMirror(cfg, w.u, w.x, life, now, z);
    ReviveShape(cfg, w.u, w.x, life, now);
    assert Prolonged(w.u.routes[z], w.v.routes[z]);
  }

  /** After the rest of the loop. */
  lemma ThirdMove(cfg: Config, s: State, gw: Addr, life: nat, k: nat, order: seq<Addr>, now: Time, z: Addr)
    requires Underway(cfg, s, gw, life, k, order, now) && z != gw && z != order[k]
    requires InetActive(MoveAll(cfg, s, gw, life, order, now).routes, z) && InetActive(s.routes, z)
    ensures var w, s' := TheWay(cfg, s, gw, life, k, order, now), MoveAll(cfg, s, gw, life, order, now);
            KernelOf(s', z) ==
              if z in order[..k] then KernelOf(w.v, z)
              else Told(KernelOf(w.v, z), w.v.routes[z], Change(gw, s.routes[gw].hops, 0, life, w.v.routes[z].flags))
  {
    hide UpdateInet, FirstDual, Rewrite, Revive, MoveAll, MoveReturns, MoveDual, TheWay, Told, Handed, Distinct, InetSet, SameKinds;
    var w := TheWay(cfg, s, gw, life, k, order, now);
    WayIsHanded(cfg, s, gw, life, k, order, now);
    WayValid(cfg, s, gw, life, k, order, now, z);
    DualHands(cfg, s, gw, life, order, now);
    HandedGateway(w.v.routes, gw, w.x, s.routes[gw].hops);
    SplitOrder(order, k, z);
    DistinctParts(order, k);
    PassKernel(cfg, w.v, gw, life, order[k + 1..], now, z);
  }

  /** What is VALID afterwards was so all the way. */
  lemma WayValid(cfg: Config, s: State, gw: Addr, life: nat, k: nat, order: seq<Addr>, now: Time, z: Addr)
    requires Underway(cfg, s, gw, life, k, order, now) && z != gw && z != order[k]
    requires InetActive(MoveAll(cfg, s, gw, life, order, now).routes, z)
    ensures var w := TheWay(cfg, s, gw, life, k, order, now);
            InetActive(w.s1.routes, z) && InetActive(w.t.routes, z) && InetActive(w.u.routes, z) && InetActive(w.v.routes, z)
  {
    hide UpdateInet, FirstDual, Rewrite, Revive, MoveAll, MoveReturns, MoveDual, TheWay, Handed, Prolonged, Bystander;
    var w := TheWay(cfg, s, gw, life, k, order, now);
    WayIsHanded(cfg, s, gw, life, k, order, now);
    DualHands(cfg, s, gw, life, order, now);
    RestLands(cfg, w.v, gw, w.x, s.routes[gw].hops, life, order[k + 1..], now);
    assert z in InetSet(MoveAll(cfg, s, gw, life, order, now).routes);
    assert z in InetSet(w.v.routes);
    ReviveShape(cfg, w.u, w.x, life, now);
    SameRoute(w.u.routes[z], w.v.routes[z]);
    InetMoved(cfg, w.t, w.x, life, order, now);
    assert z in InetSet(w.u.routes);
    assert z in InetSet(w.t.routes);
    assert z in InetSet(w.s1.routes);
  }

  /** The second gateway itself. */
  lemma DualSelf(cfg: Config, s: State, gw: Addr, life: nat, k: nat, order: seq<Addr>, now: Time)
    requires OnTheWay(cfg, s, gw, life, k, order, now) && MirrorAt(s, order[k])
    ensures order[k] in s.routes
    ensures MirrorAt(MoveAll(cfg, s, gw, life, order, now), order[k]) <==>
            !Loses(s.routes[order[k]], Onto(s.routes, gw, order[k], life))
  {
    hide UpdateInet, FirstDual, Rewrite, Revive, MoveAll, MoveReturns, TheWay, MirrorAt, Loses, Ready, Stays, Bystander, MovedTimer;
    var w := TheWay(cfg, s, gw, life, k, order, now);
    var s', x := MoveAll(cfg, s, gw, life, order, now), order[k];
    WayIsHanded(cfg, s, gw, life, k, order, now);
    WayStays(cfg, s, gw, life, k, order, now);
    WayAlone(cfg, s, gw, life, k, order, now);
    DistinctParts(order, k);
    InetTimer(cfg, s, gw, life, order[..k], now, x);
    InetMoved(cfg, s, gw, life, order[..k], now);
    PassMirror(cfg, s, gw, life, order[..k], now, x);
    RewriteReady(cfg, w.s1, x, Onto(w.s1.routes, gw, x, life), now);
    PassAlone(cfg, w.t, x, life, order, now, x);
    AloneReady(cfg, w.t, w.u, x, now);
    ReviveMirror(cfg, w.u, x, life, now, x);
    SelfAfter(cfg, s, gw, life, k, order, now);
  }

  /** The rest of the loop does not concern it. */
  lemma SelfAfter(cfg: Config, s: State, gw: Addr, life: nat, k: nat, order: seq<Addr>, now: Time)
    requires Underway(cfg, s, gw, life, k, order, now)
    ensures var w := TheWay(cfg, s, gw, life, k, order, now);
            MirrorAt(MoveAll(cfg, s, gw, life, order, now), order[k]) <==> MirrorAt(w.v, order[k])
  {
    hide UpdateInet, FirstDual, Rewrite, Revive, MoveAll, MoveReturns, MoveDual, TheWay, MirrorAt, Prolonged, Distinct, SameKinds, InetSet;
    var w := TheWay(cfg, s, gw, life, k, order, now);
    var s', x, rest := MoveAll(cfg, s, gw, life, order, now), order[k], order[k + 1..];
    WayIsHanded(cfg, s, gw, life, k, order, now);
    DualHands(cfg, s, gw, life, order, now);
    DistinctParts(order, k);
    RestLands(cfg, w.v, gw, x, s.routes[gw].hops, life, rest, now);
    SameRoute(w.v.routes[x], s'.routes[x]);
    PassKernel(cfg, w.v, gw, life, rest, now, x);
    MirrorOfValid(w.v, x);
    MirrorOfValid(s', x);
  }

  // ----- The update of a gateway

  /** rt_table_update_inet_rt keeps the kernel's routes.  It must not take the gateway down.
      Without a second gateway each Internet destination must be told, as in a plain update.  With
      one, `x`, that holds for `x`, while every other has been moved twice: the second move is
      announced unless the first was to 0.0.0.0, and the route with its old distance is gone only
      if it was demoted or the distance is still the same. */
  ghost predicate LoopKeeps(cfg: Config, s: State, gw: Addr, life: nat, order: seq<Addr>, now: Time)
    requires gw in s.routes
  {
    var k, s' := FirstDual(cfg, s, gw, life, order, now), MoveAll(cfg, s, gw, life, order, now);
    && (s.routes[gw].valid ==> s'.routes[gw].valid)
    && forall z :: z in s.routes && InetActive(s'.routes, z) && z != gw ==>
         if k == |order| || z == order[k] then
           !Loses(s.routes[z], Onto(s.routes, gw, z, life))
         else
           && (s.routes[z].hops == 1 || s.routes[z].hops == s.routes[gw].hops)
           && (if z in order[..k] then gw else order[k]) != 0
  }

  lemma SelfValid(cfg: Config, s: State, gw: Addr, life: nat, k: nat, order: seq<Addr>, now: Time)
    requires Underway(cfg, s, gw, life, k, order, now)
    ensures InetActive(MoveAll(cfg, s, gw, life, order, now).routes, order[k])
  {
    hide UpdateInet, FirstDual, MoveReturns, MoveDual, Prolonged;
    var s1 := UpdateInet(cfg, s, gw, life, order[..k], now);
    var v := MoveDual(cfg, s1, gw, life, order[k], order, now);
    DualHands(cfg, s, gw, life, order, now);
    DistinctParts(order, k);
    RestLands(cfg, v, gw, order[k], s.routes[gw].hops, life, order[k + 1..], now);
    assert order[k] in InetSet(v.routes);
    assert order[k] in InetSet(MoveAll(cfg, s, gw, life, order, now).routes);
  }

  lemma LoopMirrorAt(cfg: Config, s: State, gw: Addr, life: nat, order: seq<Addr>, now: Time, z: Addr)
    requires gw in s.routes && s.routes[gw].flags.gateway && z != gw && MirrorAt(s, z)
    requires MoveReturns(cfg, s, gw, life, order, now) && Traverses(order, s.routes)
    requires s.routes[gw].valid ==> MoveAll(cfg, s, gw, life, order, now).routes[gw].valid
    ensures var k, s' := FirstDual(cfg, s, gw, life, order, now), MoveAll(cfg, s, gw, life, order, now);
            MirrorAt(s', z) <==> (InetActive(s'.routes, z) ==>
              if k == |order| || z == order[k] then
                !Loses(s.routes[z], Onto(s.routes, gw, z, life))
              else
                && (s.routes[z].hops == 1 || s.routes[z].hops == s.routes[gw].hops)
                && (if z in order[..k] then gw else order[k]) != 0)
  {
    hide UpdateInet, FirstDual, MoveDual, MoveReturns, MirrorAt, Loses, Traverses;
    var k := FirstDual(cfg, s, gw, life, order, now);
    if k == |order| {
      CoversAll(order, s.routes);
      GatewayIsPlain(cfg, s, gw, life, order, now);
      PassMirrorIff(cfg, s, gw, life, order, now, z);
    } else {
      hide MoveAll;
      if z == order[k] {
        DualSelf(cfg, s, gw, life, k, order, now);
        SelfValid(cfg, s, gw, life, k, order, now);
      } else if InetActive(MoveAll(cfg, s, gw, life, order, now).routes, z) {
        DualMoves(cfg, s, gw, life, k, order, now, z);
      } else {
        DualKeeps(cfg, s, gw, life, k, order, now, z);
      }
    }
  }

  /** Exactly when the update of a gateway keeps the mirror. */
  lemma GatewayMirrorIff(cfg: Config, s: State, d: Addr, c: Change, order: seq<Addr>, now: Time)
    requires d in s.routes && c.flags.gateway && Mirrored(s)
    requires Returns(cfg, s, d, c, order, now) && Traverses(order, s.routes)
    ensures Mirrored(Update(cfg, s, d, c, order, now)) <==>
            !Loses(s.routes[d], c) && LoopKeeps(cfg, Rewrite(cfg, s, d, c, now), d, c.lifetime, order, now)
  {
    hide Rewrite, Revive, MoveAll, MoveReturns, FirstDual, MirrorAt, Loses, Ready, Traverses;
    var s1 := Rewrite(cfg, s, d, c, now);
    var s2, s' := MoveAll(cfg, s1, d, c.lifetime, order, now), Update(cfg, s, d, c, order, now);
    RewriteRoot(cfg, s, d, c, now);
    SameTraversal(order, s.routes, s1.routes);
    CoversAll(order, s1.routes);
    RewriteReady(cfg, s, d, c, now);
    MoveAlone(cfg, s1, d, c.lifetime, order, now);
    AloneReady(cfg, s1, s2, d, now);
    ReviveMirror(cfg, s2, d, c.lifetime, now, d);
    assert MirrorAt(s', d) <==> !Loses(s.routes[d], c) && (s1.routes[d].valid ==> s2.routes[d].valid);
    forall x: Addr | x != d ensures MirrorAt(s1, x) && (MirrorAt(s2, x) <==> MirrorAt(s', x)) {
      RewriteMirror(cfg, s, d, c, now, x);
      ReviveMirror(cfg, s2, d, c.lifetime, now, x);
    }
    if s1.routes[d].valid ==> s2.routes[d].valid {
      LoopMirror(cfg, s1, d, c.lifetime, order, now);
    }
    assert Mirrored(s') <==> MirrorAt(s', d) && forall x: Addr :: x != d ==> MirrorAt(s', x);
  }

  lemma LoopMirror(cfg: Config, s: State, gw: Addr, life: nat, order: seq<Addr>, now: Time)
    requires gw in s.routes && s.routes[gw].flags.gateway && forall z: Addr :: z != gw ==> MirrorAt(s, z)
    requires MoveReturns(cfg, s, gw, life, order, now) && Traverses(order, s.routes)
    requires s.routes[gw].valid ==> MoveAll(cfg, s, gw, life, order, now).routes[gw].valid
    ensures (forall z: Addr :: z != gw ==> MirrorAt(MoveAll(cfg, s, gw, life, order, now), z)) <==>
            LoopKeeps(cfg, s, gw, life, order, now)
  {
    hide MoveAll, MoveReturns, FirstDual, MirrorAt, Loses, Traverses;
    forall z: Addr | z != gw ensures
      var k, s' := FirstDual(cfg, s, gw, life, order, now), MoveAll(cfg, s, gw, life, order, now);
      MirrorAt(s', z) <==> (InetActive(s'.routes, z) ==>
        if k == |order| || z == order[k] then
          !Loses(s.routes[z], Onto(s.routes, gw, z, life))
        else
          && (s.routes[z].hops == 1 || s.routes[z].hops == s.routes[gw].hops)
          && (if z in order[..k] then gw else order[k]) != 0)
    {
      LoopMirrorAt(cfg, s, gw, life, order, now, z);
    }
  }
}
