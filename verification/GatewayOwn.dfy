/** The gateway's own entry, and that of a second gateway, while rt_table_update_inet_rt moves the
    Internet destinations. */
module GatewayOwn {
  import opened Basics
  import opened Route
  import opened DaemonSpec
  import opened Takedown
  import opened UpdateParts
  import opened GatewayMoves
  import opened Mirror

  /** From `s` to `s'` the entry for `z` is not updated.  It may go down, perhaps marked for
      repair; then it takes its own route along and rests from now on.  Otherwise its routes are as
      before, and so is the time when it expires if it was INVALID. */
  predicate LeftAlone(cfg: Config, s: State, s': State, z: Addr, now: Time) {
    && z in s.routes && z in s'.routes
    && var r, r' := s.routes[z], s'.routes[z];
    && (r'.valid ==> r.valid) && r'.nextHop == r.nextHop && r'.hops == r.hops
    && if r.valid && !r'.valid then
         && (r'.flags == r.flags || r'.flags == r.flags.(repair := true))
         && r'.timer.timeout == now + RestTime(cfg, r'.flags)
         && KernelOf(s', z) == Without(KernelOf(s, z), r.nextHop, r.hops)
       else
         && r'.flags == r.flags && (!r.valid ==> r'.timer == r.timer)
         && KernelOf(s', z) == KernelOf(s, z)
  }

  lemma AloneTwice(cfg: Config, s: State, s1: State, s2: State, z: Addr, now: Time)
    requires LeftAlone(cfg, s, s1, z, now) && LeftAlone(cfg, s1, s2, z, now)
    ensures LeftAlone(cfg, s, s2, z, now)
  {
  }

  /** The kernel keeps what it knows about such an entry exactly if it does not go down. */
  lemma AloneReady(cfg: Config, s: State, s': State, z: Addr, now: Time)
    requires LeftAlone(cfg, s, s', z, now)
    ensures Ready(s', z) <==> Ready(s, z) && (s.routes[z].valid ==> s'.routes[z].valid)
  {
    var r := s.routes[z];
    assert r.hops in map[r.hops := r.nextHop];
  }

  lemma RewriteAlone(cfg: Config, s: State, d: Addr, c: Change, now: Time, z: Addr)
    requires d in s.routes && z in s.routes && z != d
    ensures LeftAlone(cfg, s, Rewrite(cfg, s, d, c, now), z, now)
  {
    hide Rewrite, TakesDown;
    var s1, s2 := RewriteShape(cfg, s, d, c, now);
    TakedownKernel(cfg, s1, s2, now, z);
    TakedownAt(cfg, s1, s2, z, now);
  }

  lemma ReviveAlone(cfg: Config, s: State, d: Addr, lifetime: nat, now: Time, z: Addr)
    requires d in s.routes && z in s.routes && z != d
    ensures LeftAlone(cfg, s, Revive(cfg, s, d, lifetime, now), z, now)
  {
    hide Revive;
    ReviveShape(cfg, s, d, lifetime, now);
    ReviveLeaves(cfg, s, d, lifetime, now, z);
  }

  lemma PlainAlone(cfg: Config, s: State, d: Addr, c: Change, now: Time, z: Addr)
    requires d in s.routes && z in s.routes && z != d
    ensures LeftAlone(cfg, s, UpdatePlain(cfg, s, d, c, now), z, now)
  {
    hide Rewrite, Revive, LeftAlone;
    var t := Rewrite(cfg, s, d, c, now);
    RewriteAlone(cfg, s, d, c, now, z);
    ReviveAlone(cfg, t, d, c.lifetime, now, z);
    AloneTwice(cfg, s, t, UpdatePlain(cfg, s, d, c, now), z, now);
  }

  /** A pass that never updates `z`: it is a gateway and no second gateway is met, or it is no
      VALID Internet destination. */
  lemma {:induction false} PassAlone(cfg: Config, s: State, gw: Addr, life: nat, order: seq<Addr>, now: Time, z: Addr)
    requires gw in s.routes && z in s.routes
    requires !InetActive(s.routes, z) || (s.routes[z].flags.gateway && FirstDual(cfg, s, gw, life, order, now) == |order|)
    ensures LeftAlone(cfg, s, UpdateInet(cfg, s, gw, life, order, now), z, now)
    decreases |order|
  {
    hide UpdatePlain, LeftAlone;
    if order == [] {
      SameAlone(cfg, s, z, now);
    } else {
      var init, x := order[..|order| - 1], order[|order| - 1];
      if InetActive(s.routes, z) {
        PrefixDual(cfg, s, gw, life, order, now, |init|);
      }
      PassAlone(cfg, s, gw, life, init, now, z);
      InetMoved(cfg, s, gw, life, init, now);
      var s1 := UpdateInet(cfg, s, gw, life, init, now);
      if InetActive(s1.routes, x) {
        assert x in InetSet(s1.routes);
        assert x != z;
        PlainAlone(cfg, s1, x, Onto(s1.routes, gw, x, life), now, z);
        AloneTwice(cfg, s, s1, UpdateInet(cfg, s, gw, life, order, now), z, now);
      }
    }
  }

  lemma SameAlone(cfg: Config, s: State, z: Addr, now: Time)
    requires z in s.routes
    ensures LeftAlone(cfg, s, s, z, now)
  {
  }

  // ----- The whole loop

  /** The states on the way: before the second gateway, when it has its new values, after its own
      pass, and when it is VALID again. */
  datatype Way = Way(s1: State, x: Addr, t: State, u: State, v: State)

  ghost function TheWay(cfg: Config, s: State, gw: Addr, life: nat, k: nat, order: seq<Addr>, now: Time): (w: Way)
    requires gw in s.routes && k == FirstDual(cfg, s, gw, life, order, now) < |order|
    ensures w.s1.routes.Keys == w.t.routes.Keys == w.u.routes.Keys == w.v.routes.Keys == s.routes.Keys
    ensures w.x == order[k] && DualAt(w.s1.routes, w.x)
    ensures MoveAll(cfg, s, gw, life, order, now) == UpdateInet(cfg, w.v, gw, life, order[k + 1..], now)
  {
    var s1, x := UpdateInet(cfg, s, gw, life, order[..k], now), order[k];
    var t := Rewrite(cfg, s1, x, Onto(s1.routes, gw, x, life), now);
    var u := UpdateInet(cfg, t, x, life, order, now);
    Way(s1, x, t, u, Revive(cfg, u, x, life, now))
  }

  /** What is known about the gateway on the way. */
  lemma WayAlone(cfg: Config, s: State, gw: Addr, life: nat, k: nat, order: seq<Addr>, now: Time)
    requires gw in s.routes && s.routes[gw].flags.gateway && k == FirstDual(cfg, s, gw, life, order, now) < |order|
    requires MoveReturns(cfg, s, gw, life, order, now) && forall x :: x in s.routes ==> x in order
    ensures var w := TheWay(cfg, s, gw, life, k, order, now);
            && LeftAlone(cfg, s, w.s1, gw, now) && LeftAlone(cfg, w.s1, w.t, gw, now) && LeftAlone(cfg, w.t, w.u, gw, now)
            && LeftAlone(cfg, w.u, w.v, gw, now) && LeftAlone(cfg, w.v, MoveAll(cfg, s, gw, life, order, now), gw, now)
            && gw != w.x && !InetActive(w.v.routes, gw)
            && !w.t.routes[w.x].valid && !w.u.routes[w.x].valid
  {
    hide UpdateInet, FirstDual, Rewrite, Revive, MoveAll, LeftAlone, InetSet, Bystander;
    var w := TheWay(cfg, s, gw, life, k, order, now);
    var c := Onto(w.s1.routes, gw, w.x, life);
    DualHands(cfg, s, gw, life, order, now);
    PrefixDual(cfg, s, gw, life, order, now, k);
    PassAlone(cfg, s, gw, life, order[..k], now, gw);
    InetMoved(cfg, s, gw, life, order[..k], now);
    RewriteAlone(cfg, w.s1, w.x, c, now, gw);
    RewriteOthers(cfg, w.s1, w.x, c, now);
    SameRoute(w.s1.routes[gw], w.t.routes[gw]);
    PassAlone(cfg, w.t, w.x, life, order, now, gw);
    ReviveAlone(cfg, w.u, w.x, life, now, gw);
    PassAlone(cfg, w.v, gw, life, order[k + 1..], now, gw);
    DualItself(cfg, w.s1, gw, life, w.x, order, now);
  }

  /** rt_table_update_inet_rt does not update the gateway: it leaves the kernel all routes to the
      gateway but the one that goes if the gateway goes down. */
  lemma MoveAlone(cfg: Config, s: State, gw: Addr, life: nat, order: seq<Addr>, now: Time)
    requires gw in s.routes && s.routes[gw].flags.gateway
    requires MoveReturns(cfg, s, gw, life, order, now) && forall x :: x in s.routes ==> x in order
    ensures LeftAlone(cfg, s, MoveAll(cfg, s, gw, life, order, now), gw, now)
  {
    hide UpdateInet, FirstDual, MoveDual, MoveReturns, LeftAlone, TheWay;
    var k := FirstDual(cfg, s, gw, life, order, now);
    if k == |order| {
      PassAlone(cfg, s, gw, life, order, now, gw);
    } else {
      var w := TheWay(cfg, s, gw, life, k, order, now);
      WayAlone(cfg, s, gw, life, k, order, now);
      AloneTwice(cfg, s, w.s1, w.t, gw, now);
      AloneTwice(cfg, s, w.t, w.u, gw, now);
      AloneTwice(cfg, s, w.u, w.v, gw, now);
      AloneTwice(cfg, s, w.v, MoveAll(cfg, s, gw, life, order, now), gw, now);
    }
  }

  lemma WayIsHanded(cfg: Config, s: State, gw: Addr, life: nat, k: nat, order: seq<Addr>, now: Time)
    requires gw in s.routes && k == FirstDual(cfg, s, gw, life, order, now) < |order|
    ensures var w := TheWay(cfg, s, gw, life, k, order, now);
            && w.s1 == UpdateInet(cfg, s, gw, life, order[..k], now)
            && w.t == Rewrite(cfg, w.s1, w.x, Onto(w.s1.routes, gw, w.x, life), now)
            && w.u == UpdateInet(cfg, w.t, w.x, life, order, now)
            && w.v == Revive(cfg, w.u, w.x, life, now)
            && w.v == MoveDual(cfg, w.s1, gw, life, w.x, order, now)
  {
    hide UpdateInet, FirstDual, Rewrite, Revive;
  }

  lemma CoversAll(order: seq<Addr>, routes: map<Addr, Route>)
    requires Traverses(order, routes)
    ensures forall x :: x in routes ==> x in order
  {
  }

  lemma SameTraversal(order: seq<Addr>, routes: map<Addr, Route>, routes': map<Addr, Route>)
    requires Traverses(order, routes) && routes'.Keys == routes.Keys
    ensures Traverses(order, routes')
  {
  }
}
