/** The mutual recursion of rt_table_update and rt_table_update_inet_rt: updating a gateway
    updates every VALID Internet destination, and one of these that is a gateway too starts the
    whole loop again.  Here the recursion is written down as the program runs it, with a bound
    on its depth; `ReturnsIff` says exactly when some depth is enough, and `DoneIsUpdate` that
    it then does what `DaemonSpec.Update` says. */
module GatewayRecursion {
  import opened Basics
  import opened Route
  import opened DaemonSpec
  import opened Takedown
  import opened UpdateParts
  import opened GatewayMoves

  /** A call that has come back, or one that has used up its depth. */
  datatype Outcome<T> = Running | Done(value: T)

  /** What the loop leaves, and how many entries it has updated. */
  datatype Moved = Moved(s: State, n: nat)

  /** rt_table_update with at most `depth` calls of it inside each other. */
  ghost function UpdateWithin(depth: nat, cfg: Config, s: State, d: Addr, c: Change, order: seq<Addr>, now: Time)
    : (o: Outcome<State>)
    requires d in s.routes
    ensures o.Done? ==> o.value.routes.Keys == s.routes.Keys
    decreases depth, 0
  {
    if depth == 0 then Running else
    var s1 := Rewrite(cfg, s, d, c, now);
    if NewFlags(s.routes[d], c).gateway then
      var o := MoveWithin(depth - 1, cfg, s1, d, c.lifetime, order, order, now);
      if o.Running? then Running else Done(Revive(cfg, o.value.s, d, c.lifetime, now))
    else
      Done(Revive(cfg, s1, d, c.lifetime, now))
  }

  /** rt_table_update_inet_rt on a table that is traversed as `order`, up to the end of `seen`. */
  ghost function MoveWithin(depth: nat, cfg: Config, s: State, gw: Addr, life: nat, seen: seq<Addr>, order: seq<Addr>, now: Time)
    : (o: Outcome<Moved>)
    requires gw in s.routes
    ensures o.Done? ==> o.value.s.routes.Keys == s.routes.Keys
    decreases depth, 1 + |seen|
  {
    if seen == [] then Done(Moved(s, 0)) else
    var o := MoveWithin(depth, cfg, s, gw, life, seen[..|seen| - 1], order, now);
    if o.Running? then Running else
    MoveOne(depth, cfg, o.value, gw, life, seen[|seen| - 1], order, now)
  }

  /** One step of that loop. */
  ghost function MoveOne(depth: nat, cfg: Config, m: Moved, gw: Addr, life: nat, x: Addr, order: seq<Addr>, now: Time)
    : (o: Outcome<Moved>)
    requires gw in m.s.routes
    ensures o.Done? ==> o.value.s.routes.Keys == m.s.routes.Keys
    decreases depth, 1
  {
    if !InetActive(m.s.routes, x) then Done(m) else
    var o := UpdateWithin(depth, cfg, m.s, x, Onto(m.s.routes, gw, x, life), order, now);
    if o.Running? then Running else Done(Moved(o.value, m.n + 1))
  }

  lemma MoveStep(depth: nat, cfg: Config, s: State, gw: Addr, life: nat, seen: seq<Addr>, x: Addr, order: seq<Addr>, now: Time)
    requires gw in s.routes
    ensures var o := MoveWithin(depth, cfg, s, gw, life, seen, order, now);
            MoveWithin(depth, cfg, s, gw, life, seen + [x], order, now) ==
              if o.Running? then Running else MoveOne(depth, cfg, o.value, gw, life, x, order, now)
  {
    assert (seen + [x])[..|seen|] == seen;
  }

  lemma MoveStarts(depth: nat, cfg: Config, s: State, gw: Addr, life: nat, order: seq<Addr>, now: Time)
    requires gw in s.routes
    ensures MoveWithin(depth, cfg, s, gw, life, [], order, now) == Done(Moved(s, 0))
  {
  }

  /** A loop that is still running somewhere never reaches a later point. */
  lemma DoneBefore(depth: nat, cfg: Config, s: State, gw: Addr, life: nat, seen: seq<Addr>, order: seq<Addr>, now: Time)
    requires gw in s.routes && seen <= order && MoveWithin(depth, cfg, s, gw, life, order, order, now).Done?
    ensures MoveWithin(depth, cfg, s, gw, life, seen, order, now).Done?
  {
    assert order[..|seen|] == seen && order[..|order|] == order;
    DoneBeforeUpTo(depth, cfg, s, gw, life, |seen|, |order|, order, now);
  }

  lemma {:induction false} DoneBeforeUpTo(depth: nat, cfg: Config, s: State, gw: Addr, life: nat,
      i: nat, m: nat, order: seq<Addr>, now: Time)
    requires gw in s.routes && i <= m <= |order| && MoveWithin(depth, cfg, s, gw, life, order[..m], order, now).Done?
    ensures MoveWithin(depth, cfg, s, gw, life, order[..i], order, now).Done?
    decreases m
  {
    if i < m {
      assert order[..m] == order[..m - 1] + [order[m - 1]];
      MoveStep(depth, cfg, s, gw, life, order[..m - 1], order[m - 1], order, now);
      DoneBeforeUpTo(depth, cfg, s, gw, life, i, m - 1, order, now);
    }
  }

  /** More depth changes nothing once a call has come back. */
  lemma {:induction false} DeeperUpdate(depth: nat, cfg: Config, s: State, d: Addr, c: Change, order: seq<Addr>, now: Time)
    requires d in s.routes && UpdateWithin(depth, cfg, s, d, c, order, now).Done?
    ensures UpdateWithin(depth + 1, cfg, s, d, c, order, now) == UpdateWithin(depth, cfg, s, d, c, order, now)
    decreases depth, 0
  {
    hide Rewrite, Revive, MoveWithin;
    if NewFlags(s.routes[d], c).gateway {
      DeeperMove(depth - 1, cfg, Rewrite(cfg, s, d, c, now), d, c.lifetime, order, order, now);
    }
  }

  lemma {:induction false} DeeperMove(depth: nat, cfg: Config, s: State, gw: Addr, life: nat, seen: seq<Addr>, order: seq<Addr>, now: Time)
    requires gw in s.routes && MoveWithin(depth, cfg, s, gw, life, seen, order, now).Done?
    ensures MoveWithin(depth + 1, cfg, s, gw, life, seen, order, now) == MoveWithin(depth, cfg, s, gw, life, seen, order, now)
    decreases depth, 1 + |seen|
  {
    hide UpdateWithin;
    if seen != [] {
      var init, x := seen[..|seen| - 1], seen[|seen| - 1];
      DeeperMove(depth, cfg, s, gw, life, init, order, now);
      var m := MoveWithin(depth, cfg, s, gw, life, init, order, now).value;
      if InetActive(m.s.routes, x) {
        DeeperUpdate(depth, cfg, m.s, x, Onto(m.s.routes, gw, x, life), order, now);
      }
    }
  }

  // ----- Up to the first second gateway

  lemma PlainWithin(depth: nat, cfg: Config, s: State, d: Addr, c: Change, order: seq<Addr>, now: Time)
    requires d in s.routes && !c.flags.gateway
    ensures UpdateWithin(depth, cfg, s, d, c, order, now) ==
            if depth == 0 then Running else Done(UpdatePlain(cfg, s, d, c, now))
  {
    hide Rewrite, Revive;
  }

  /** As long as no second gateway is met, the loop is `UpdateInet`. */
  lemma {:induction false} PlainPass(depth: nat, cfg: Config, s: State, gw: Addr, life: nat, m: nat, order: seq<Addr>, now: Time)
    requires gw in s.routes && m <= FirstDual(cfg, s, gw, life, order, now)
    ensures var o := MoveWithin(depth, cfg, s, gw, life, order[..m], order, now);
            && (depth > 0 ==> o.Done?)
            && (o.Done? ==>
                  && o.value.s == UpdateInet(cfg, s, gw, life, order[..m], now)
                  && o.value.n == InetUpdates(cfg, s, gw, life, order[..m], now))
    decreases m
  {
    if m > 0 {
      hide UpdatePlain, UpdateWithin, FirstDual;
      var init, x := order[..m - 1], order[m - 1];
      PlainPass(depth, cfg, s, gw, life, m - 1, order, now);
      assert order[..m] == init + [x] && order[..m][..m - 1] == init;
      MoveStep(depth, cfg, s, gw, life, init, x, order, now);
      BeforeDual(cfg, s, gw, life, order, now, m - 1);
      var s1 := UpdateInet(cfg, s, gw, life, init, now);
      if InetActive(s1.routes, x) {
        PlainWithin(depth, cfg, s1, x, Onto(s1.routes, gw, x, life), order, now);
      }
    }
  }

  // ----- Calls that never come back

  /** The entry at `k` is a gateway and Internet destination that a gateway `hops` away does not
      move further, nor does it any entry before. */
  ghost predicate Stuck(routes: map<Addr, Route>, order: seq<Addr>, k: nat, hops: nat) {
    && k < |order| && DualAt(routes, order[k])
    && forall j :: 0 <= j <= k && InetActive(routes, order[j]) ==> !(hops > 1 && routes[order[j]].hops == 1)
  }

  /** A step of the loop that moves nothing further away leaves a stuck entry stuck. */
  lemma StaysStuck(cfg: Config, s: State, gw: Addr, life: nat, x: Addr, k: nat, order: seq<Addr>, now: Time)
    requires gw in s.routes && Stuck(s.routes, order, k, s.routes[gw].hops) && InetActive(s.routes, x)
    requires !s.routes[x].flags.gateway && !Demotes(s.routes[x], Onto(s.routes, gw, x, life))
    ensures var s' := UpdatePlain(cfg, s, x, Onto(s.routes, gw, x, life), now);
            Stuck(s'.routes, order, k, s.routes[gw].hops) && s'.routes[gw].hops == s.routes[gw].hops
  {
    hide UpdatePlain, Prolonged, Bystander;
    var c := Onto(s.routes, gw, x, life);
    PlainOthers(cfg, s, x, c, now);
    var s' := UpdatePlain(cfg, s, x, c, now);
    forall z | z in s.routes && z != x ensures
      && s'.routes[z].valid == s.routes[z].valid && s'.routes[z].hops == s.routes[z].hops
      && s'.routes[z].flags.inetDest == s.routes[z].flags.inetDest && s'.routes[z].flags.gateway == s.routes[z].flags.gateway
    {
      SameRoute(s.routes[z], s'.routes[z]);
    }
  }

  /** The update of a stuck entry never comes back. */
  lemma {:induction false} StuckUpdate(depth: nat, cfg: Config, s: State, gw: Addr, life: nat, k: nat, order: seq<Addr>, now: Time)
    requires gw in s.routes && Stuck(s.routes, order, k, s.routes[gw].hops)
    ensures UpdateWithin(depth, cfg, s, order[k], Onto(s.routes, gw, order[k], life), order, now).Running?
    decreases depth, 0
  {
    if depth > 0 {
      hide Rewrite, Revive, MoveWithin;
      var x := order[k];
      var c := Onto(s.routes, gw, x, life);
      RewriteRoot(cfg, s, x, c, now);
      RewriteOthers(cfg, s, x, c, now);
      var s1 := Rewrite(cfg, s, x, c, now);
      assert Stuck(s1.routes, order, k, s1.routes[x].hops);
      StuckMove(depth - 1, cfg, s1, x, life, k, |order|, order, now);
      assert order[..|order|] == order;
    }
  }

  lemma {:induction false} StuckMove(depth: nat, cfg: Config, s: State, gw: Addr, life: nat, k: nat, m: nat, order: seq<Addr>, now: Time)
    requires gw in s.routes && Stuck(s.routes, order, k, s.routes[gw].hops) && m <= |order|
    ensures var o := MoveWithin(depth, cfg, s, gw, life, order[..m], order, now);
            && (m > k ==> o.Running?)
            && (o.Done? ==> Stuck(o.value.s.routes, order, k, s.routes[gw].hops) &&
                            o.value.s.routes[gw].hops == s.routes[gw].hops)
    decreases depth, 1 + m
  {
    hide UpdateWithin, UpdatePlain, Stuck;
    if m > 0 {
      var init, x := order[..m - 1], order[m - 1];
      StuckMove(depth, cfg, s, gw, life, k, m - 1, order, now);
      assert order[..m] == init + [x];
      MoveStep(depth, cfg, s, gw, life, init, x, order, now);
      var o := MoveWithin(depth, cfg, s, gw, life, init, order, now);
      if o.Done? {
        var s1 := o.value.s;
        StuckAt(s1.routes, order, k, m - 1, s.routes[gw].hops);
        if InetActive(s1.routes, x) {
          if s1.routes[x].flags.gateway {
            StuckUpdate(depth, cfg, s1, gw, life, m - 1, order, now);
          } else {
            PlainWithin(depth, cfg, s1, x, Onto(s1.routes, gw, x, life), order, now);
            StaysStuck(cfg, s1, gw, life, x, k, order, now);
          }
        }
      }
    }
  }

  lemma StuckAt(routes: map<Addr, Route>, order: seq<Addr>, k: nat, j: nat, hops: nat)
    requires Stuck(routes, order, k, hops)
    ensures DualAt(routes, order[k])
    ensures j <= k && InetActive(routes, order[j]) ==> !(hops > 1 && routes[order[j]].hops == 1)
    ensures j <= k && DualAt(routes, order[j]) ==> Stuck(routes, order, j, hops)
  {
  }

  // ----- What every finished call leaves

  /** What an update on behalf of a gateway `hops` away makes of an entry. */
  predicate Carried(r: Route, r': Route, hops: nat) {
    && r'.flags.inetDest == r.flags.inetDest && r'.flags.gateway == r.flags.gateway
    && (r'.hops == r.hops || r'.hops == hops)
    && (r'.valid && r'.flags.inetDest ==> r.valid)
  }

  ghost predicate AllCarried(routes: map<Addr, Route>, routes': map<Addr, Route>, hops: nat) {
    routes'.Keys == routes.Keys && forall z :: z in routes ==> Carried(routes[z], routes'[z], hops)
  }

  lemma CarriedTwice(a: map<Addr, Route>, b: map<Addr, Route>, c: map<Addr, Route>, hops: nat)
    requires AllCarried(a, b, hops) && AllCarried(b, c, hops)
    ensures AllCarried(a, c, hops)
  {
    forall z | z in a ensures Carried(a[z], c[z], hops) {
      assert Carried(a[z], b[z], hops) && Carried(b[z], c[z], hops);
    }
  }

  /** Every VALID Internet destination is `hops` away. */
  ghost predicate AllAt(routes: map<Addr, Route>, hops: nat) {
    forall z :: InetActive(routes, z) ==> routes[z].hops == hops
  }

  /** The first and the last part of an update around the loop inside it. */
  lemma CarriedAround(cfg: Config, s: State, gw: Addr, life: nat, x: Addr, u: State, now: Time)
    requires gw in s.routes && InetActive(s.routes, x)
    requires AllCarried(Rewrite(cfg, s, x, Onto(s.routes, gw, x, life), now).routes, u.routes, s.routes[gw].hops)
    ensures var s' := Revive(cfg, u, x, life, now);
            && AllCarried(s.routes, s'.routes, s.routes[gw].hops)
            && InetActive(s'.routes, x) && s'.routes[x].hops == s.routes[gw].hops
            && (AllAt(u.routes, s.routes[gw].hops) ==> AllAt(s'.routes, s.routes[gw].hops))
  {
    hide Rewrite, Revive, Prolonged, Bystander;
    var c := Onto(s.routes, gw, x, life);
    var t := Rewrite(cfg, s, x, c, now);
    RewriteRoot(cfg, s, x, c, now);
    RewriteOthers(cfg, s, x, c, now);
    ReviveShape(cfg, u, x, life, now);
    var s' := Revive(cfg, u, x, life, now);
    assert Carried(t.routes[x], u.routes[x], c.hops);
    var r := Revived(u.routes[x], life, now);
    SameRoute(r, s'.routes[x]);
    forall z | z in s.routes ensures
      Carried(s.routes[z], s'.routes[z], c.hops) && (z != x ==> (InetActive(s'.routes, z) <==> InetActive(u.routes, z)))
      && (z != x ==> s'.routes[z].hops == u.routes[z].hops)
    {
      assert Carried(t.routes[z], u.routes[z], c.hops);
      if z != x {
        SameRoute(s.routes[z], t.routes[z]);
        SameRoute(u.routes[z], s'.routes[z]);
      }
    }
  }

  /** The update of an Internet destination leaves it VALID, and no other becomes VALID; if it is
      a gateway too, all end up at the same distance. */
  lemma {:induction false} UpdateCarries(depth: nat, cfg: Config, s: State, gw: Addr, life: nat, x: Addr, order: seq<Addr>, now: Time)
    requires gw in s.routes && InetActive(s.routes, x) && forall z :: z in s.routes ==> z in order
    ensures var o := UpdateWithin(depth, cfg, s, x, Onto(s.routes, gw, x, life), order, now);
            o.Done? ==>
              && AllCarried(s.routes, o.value.routes, s.routes[gw].hops)
              && InetActive(o.value.routes, x) && o.value.routes[x].hops == s.routes[gw].hops
              && (s.routes[x].flags.gateway ==> AllAt(o.value.routes, s.routes[gw].hops))
    decreases depth, 0
  {
    hide Rewrite, Revive, MoveWithin, AllCarried, AllAt;
    if depth > 0 {
      var c := Onto(s.routes, gw, x, life);
      var t := Rewrite(cfg, s, x, c, now);
      RewriteRoot(cfg, s, x, c, now);
      if s.routes[x].flags.gateway {
        MoveCarries(depth - 1, cfg, t, x, life, |order|, order, now);
        assert order[..|order|] == order;
        var o := MoveWithin(depth - 1, cfg, t, x, life, order, order, now);
        if o.Done? {
          CarriedAround(cfg, s, gw, life, x, o.value.s, now);
        }
      } else {
        CarriedSelf(t.routes, c.hops);
        CarriedAround(cfg, s, gw, life, x, t, now);
      }
    }
  }

  lemma CarriedSelf(routes: map<Addr, Route>, hops: nat)
    ensures AllCarried(routes, routes, hops)
  {
  }

  /** The loop moves every Internet destination that it passes and that is VALID afterwards. */
  lemma {:induction false} MoveCarries(depth: nat, cfg: Config, s: State, gw: Addr, life: nat, m: nat, order: seq<Addr>, now: Time)
    requires gw in s.routes && m <= |order| && forall z :: z in s.routes ==> z in order
    ensures var o := MoveWithin(depth, cfg, s, gw, life, order[..m], order, now);
            o.Done? ==>
              && AllCarried(s.routes, o.value.s.routes, s.routes[gw].hops)
              && (forall j :: 0 <= j < m && InetActive(o.value.s.routes, order[j]) ==>
                    o.value.s.routes[order[j]].hops == s.routes[gw].hops)
              && (m == |order| ==> AllAt(o.value.s.routes, s.routes[gw].hops))
    decreases depth, 1 + m
  {
    hide UpdateWithin;
    if m > 0 {
      var init, x := order[..m - 1], order[m - 1];
      MoveCarries(depth, cfg, s, gw, life, m - 1, order, now);
      assert order[..m] == init + [x];
      MoveStep(depth, cfg, s, gw, life, init, x, order, now);
      var o := MoveWithin(depth, cfg, s, gw, life, init, order, now);
      var o' := MoveWithin(depth, cfg, s, gw, life, order[..m], order, now);
      if o'.Done? && InetActive(o.value.s.routes, x) {
        assert Carried(s.routes[gw], o.value.s.routes[gw], s.routes[gw].hops);
        UpdateCarries(depth, cfg, o.value.s, gw, life, x, order, now);
        CarriedTwice(s.routes, o.value.s.routes, o'.value.s.routes, s.routes[gw].hops);
        CarriedKeeps(o.value.s.routes, o'.value.s.routes, s.routes[gw].hops, m - 1, order);
      }
    } else {
      CarriedSelf(s.routes, s.routes[gw].hops);
    }
  }

  lemma CarriedKeeps(routes: map<Addr, Route>, routes': map<Addr, Route>, hops: nat, m: nat, order: seq<Addr>)
    requires AllCarried(routes, routes', hops) && m <= |order|
    requires forall j :: 0 <= j < m && InetActive(routes, order[j]) ==> routes[order[j]].hops == hops
    ensures forall j :: 0 <= j < m && InetActive(routes', order[j]) ==> routes'[order[j]].hops == hops
  {
    forall j | 0 <= j < m && InetActive(routes', order[j]) ensures routes'[order[j]].hops == hops {
      assert Carried(routes[order[j]], routes'[order[j]], hops);
    }
  }

  // ----- Two second gateways

  /** All Internet destinations are as far away as the gateway, and one of them, `y`, is a gateway
      too: whoever meets `y` now does not come back. */
  ghost predicate Doomed(routes: map<Addr, Route>, gw: Addr, y: Addr, hops: nat) {
    gw in routes && routes[gw].hops == hops && AllAt(routes, hops) && DualAt(routes, y)
  }

  lemma DoomedIsStuck(routes: map<Addr, Route>, order: seq<Addr>, gw: Addr, y: Addr, k: nat, hops: nat)
    requires Doomed(routes, gw, y, hops) && k < |order| && DualAt(routes, order[k])
    ensures Stuck(routes, order, k, hops)
  {
  }

  lemma StaysDoomed(cfg: Config, s: State, gw: Addr, life: nat, x: Addr, y: Addr, now: Time)
    requires gw in s.routes && Doomed(s.routes, gw, y, s.routes[gw].hops) && InetActive(s.routes, x) && !s.routes[x].flags.gateway
    ensures Doomed(UpdatePlain(cfg, s, x, Onto(s.routes, gw, x, life), now).routes, gw, y, s.routes[gw].hops)
  {
    hide UpdatePlain, Prolonged, Bystander;
    var c := Onto(s.routes, gw, x, life);
    PlainOthers(cfg, s, x, c, now);
    var s' := UpdatePlain(cfg, s, x, c, now);
    forall z | z in s.routes && z != x ensures
      && s'.routes[z].valid == s.routes[z].valid && s'.routes[z].hops == s.routes[z].hops
      && s'.routes[z].flags.inetDest == s.routes[z].flags.inetDest && s'.routes[z].flags.gateway == s.routes[z].flags.gateway
    {
      SameRoute(s.routes[z], s'.routes[z]);
    }
  }

  lemma {:induction false} DoomedRest(depth: nat, cfg: Config, s: State, gw: Addr, life: nat,
      m0: nat, m: nat, y: Addr, order: seq<Addr>, now: Time)
    requires gw in s.routes && m0 <= m <= |order|
    requires var o := MoveWithin(depth, cfg, s, gw, life, order[..m0], order, now);
             o.Done? ==> Doomed(o.value.s.routes, gw, y, s.routes[gw].hops)
    ensures var o := MoveWithin(depth, cfg, s, gw, life, order[..m], order, now);
            && (o.Done? ==> Doomed(o.value.s.routes, gw, y, s.routes[gw].hops))
            && (y in order[m0..m] ==> o.Running?)
    decreases m
  {
    hide UpdateWithin, UpdatePlain, Stuck, Doomed;
    if m0 < m {
      var init, x := order[..m - 1], order[m - 1];
      DoomedRest(depth, cfg, s, gw, life, m0, m - 1, y, order, now);
      assert order[..m] == init + [x] && order[m0..m] == order[m0..m - 1] + [x];
      MoveStep(depth, cfg, s, gw, life, init, x, order, now);
      var o := MoveWithin(depth, cfg, s, gw, life, init, order, now);
      if o.Done? {
        var s1 := o.value.s;
        DoomedHas(s1.routes, gw, y, s.routes[gw].hops);
        if DualAt(s1.routes, x) {
          DoomedIsStuck(s1.routes, order, gw, y, m - 1, s.routes[gw].hops);
          StuckUpdate(depth, cfg, s1, gw, life, m - 1, order, now);
        } else if InetActive(s1.routes, x) {
          PlainWithin(depth, cfg, s1, x, Onto(s1.routes, gw, x, life), order, now);
          StaysDoomed(cfg, s1, gw, life, x, y, now);
        }
      }
    }
  }

  lemma DoomedHas(routes: map<Addr, Route>, gw: Addr, y: Addr, hops: nat)
    requires Doomed(routes, gw, y, hops)
    ensures DualAt(routes, y) && gw in routes && routes[gw].hops == hops
  {
  }

  /** The pass on behalf of a second gateway `x` that meets a third one, `order[k]`. */
  lemma ThirdGateway(depth: nat, cfg: Config, t: State, x: Addr, life: nat, k: nat, order: seq<Addr>, now: Time)
    requires x in t.routes && !InetActive(t.routes, x) && forall z :: z in t.routes ==> z in order
    requires k == FirstDual(cfg, t, x, life, order, now) < |order|
    ensures var o := MoveWithin(depth, cfg, t, x, life, order, order, now);
            && (o.Done? ==> Doomed(o.value.s.routes, x, order[k], t.routes[x].hops))
            && DualAt(t.routes, order[k]) && order[k] != x
  {
    hide UpdateWithin, UpdateInet, FirstDual, Stuck, Doomed;
    var y := order[k];
    var t2 := UpdateInet(cfg, t, x, life, order[..k], now);
    InetMoved(cfg, t, x, life, order[..k], now);
    assert y in InetSet(t2.routes);
    assert y in InetSet(t.routes);
    PlainPass(depth, cfg, t, x, life, k, order, now);
    assert order[..k + 1] == order[..k] + [y] && order[..|order|] == order;
    MoveStep(depth, cfg, t, x, life, order[..k], y, order, now);
    var c := Onto(t2.routes, x, y, life);
    var o := MoveWithin(depth, cfg, t, x, life, order[..k + 1], order, now);
    if !Demotes(t2.routes[y], c) {
      PassedIsStuck(t2.routes, order, k, x);
      StuckUpdate(depth, cfg, t2, x, life, k, order, now);
    } else {
      UpdateCarries(depth, cfg, t2, x, life, y, order, now);
      if o.Done? {
        CarriedIsDoomed(t2.routes, o.value.s.routes, x, y);
      }
    }
    DoomedRest(depth, cfg, t, x, life, k + 1, |order|, y, order, now);
  }

  lemma PassedIsStuck(routes: map<Addr, Route>, order: seq<Addr>, k: nat, gw: Addr)
    requires k < |order| && gw in routes && DualAt(routes, order[k]) && !(routes[gw].hops > 1 && routes[order[k]].hops == 1)
    requires forall x :: x in order[..k] && InetActive(routes, x) ==> PointsAt(routes, x, gw)
    ensures Stuck(routes, order, k, routes[gw].hops)
  {
    forall j | 0 <= j < k && InetActive(routes, order[j]) ensures routes[order[j]].hops == routes[gw].hops {
      assert order[j] == order[..k][j];
    }
  }

  lemma CarriedIsDoomed(routes: map<Addr, Route>, routes': map<Addr, Route>, gw: Addr, y: Addr)
    requires gw in routes && DualAt(routes, y) && AllCarried(routes, routes', routes[gw].hops)
    requires InetActive(routes', y) && AllAt(routes', routes[gw].hops)
    ensures Doomed(routes', gw, y, routes[gw].hops)
  {
    assert Carried(routes[gw], routes'[gw], routes[gw].hops) && Carried(routes[y], routes'[y], routes[gw].hops);
  }

  /** The update of the second gateway is then doomed as well. */
  lemma SecondGateway(depth: nat, cfg: Config, s: State, gw: Addr, life: nat, x: Addr, k: nat, order: seq<Addr>, now: Time)
    requires gw in s.routes && DualAt(s.routes, x) && Demotes(s.routes[x], Onto(s.routes, gw, x, life))
    requires forall z :: z in s.routes ==> z in order
    requires k == FirstDual(cfg, Rewrite(cfg, s, x, Onto(s.routes, gw, x, life), now), x, life, order, now) < |order|
    ensures var o := UpdateWithin(depth, cfg, s, x, Onto(s.routes, gw, x, life), order, now);
            && (o.Done? ==> Doomed(o.value.routes, gw, order[k], s.routes[gw].hops))
            && DualAt(s.routes, order[k]) && order[k] != x
  {
    hide Rewrite, Revive, MoveWithin, FirstDual, Prolonged, Bystander, AllCarried, AllAt;
    var c, y := Onto(s.routes, gw, x, life), order[k];
    var t := Rewrite(cfg, s, x, c, now);
    RewriteRoot(cfg, s, x, c, now);
    RewriteOthers(cfg, s, x, c, now);
    SameRoute(s.routes[y], t.routes[y]);
    UpdateCarries(depth, cfg, s, gw, life, x, order, now);
    var o := UpdateWithin(depth, cfg, s, x, c, order, now);
    if depth > 0 {
      ThirdGateway(depth - 1, cfg, t, x, life, k, order, now);
      SameRoute(s.routes[y], t.routes[y]);
      if o.Done? {
        var u := MoveWithin(depth - 1, cfg, t, x, life, order, order, now).value.s;
        ReviveShape(cfg, u, x, life, now);
        SameRoute(u.routes[y], o.value.routes[y]);
        CarriedIsDoomed(s.routes, o.value.routes, gw, y);
      }
    } else {
      InetMoved(cfg, t, x, life, order[..k], now);
      assert y in InetSet(UpdateInet(cfg, t, x, life, order[..k], now).routes);
      assert y in InetSet(t.routes);
    }
  }

  /** The step of the loop at its first second gateway. */
  lemma DualStep(depth: nat, cfg: Config, s: State, gw: Addr, life: nat, k: nat, order: seq<Addr>, now: Time)
    requires gw in s.routes && k == FirstDual(cfg, s, gw, life, order, now) < |order|
    ensures var s1 := UpdateInet(cfg, s, gw, life, order[..k], now);
            var u := UpdateWithin(depth, cfg, s1, order[k], Onto(s1.routes, gw, order[k], life), order, now);
            var o := MoveWithin(depth, cfg, s, gw, life, order[..k + 1], order, now);
            && (o.Done? ==> u.Done?)
            && (depth > 0 && u.Done? ==> o.Done?)
            && (o.Done? ==> o.value == Moved(u.value, InetUpdates(cfg, s, gw, life, order[..k], now) + 1))
  {
    hide UpdateInet, InetUpdates, UpdateWithin, FirstDual;
    PlainPass(depth, cfg, s, gw, life, k, order, now);
    assert order[..k + 1] == order[..k] + [order[k]];
    MoveStep(depth, cfg, s, gw, life, order[..k], order[k], order, now);
  }

  /** In all other cases rt_table_update_inet_rt exceeds every depth. */
  lemma NeverReturns(depth: nat, cfg: Config, s: State, gw: Addr, life: nat, order: seq<Addr>, now: Time)
    requires gw in s.routes && Traverses(order, s.routes) && !MoveReturns(cfg, s, gw, life, order, now)
    ensures MoveWithin(depth, cfg, s, gw, life, order, order, now).Running?
  {
    hide UpdateWithin, MoveWithin, UpdateInet, InetUpdates, Rewrite, FirstDual, Stuck, Doomed;
    var k := FirstDual(cfg, s, gw, life, order, now);
    var s1, x := UpdateInet(cfg, s, gw, life, order[..k], now), order[k];
    var c := Onto(s1.routes, gw, x, life);
    InetMoved(cfg, s, gw, life, order[..k], now);
    DualStep(depth, cfg, s, gw, life, k, order, now);
    assert order[..|order|] == order;
    if !Demotes(s1.routes[x], c) {
      PassedIsStuck(s1.routes, order, k, gw);
      StuckUpdate(depth, cfg, s1, gw, life, k, order, now);
    } else {
      var k2 := FirstDual(cfg, Rewrite(cfg, s1, x, c, now), x, life, order, now);
      SecondGateway(depth, cfg, s1, gw, life, x, k2, order, now);
      assert k2 > k by {
        if k2 < k {
          PassedIsPlain(cfg, s, gw, life, order, now, k2, k);
        }
      }
      assert order[k2] == order[k + 1..][k2 - k - 1] && order[k + 1..|order|] == order[k + 1..];
      DoomedRest(depth, cfg, s, gw, life, k + 1, |order|, order[k2], order, now);
    }
    if MoveWithin(depth, cfg, s, gw, life, order, order, now).Done? {
      DoneBefore(depth, cfg, s, gw, life, order[..k + 1], order, now);
    }
  }

  // ----- Calls that come back

  lemma {:induction false} RestPass(depth: nat, cfg: Config, s: State, gw: Addr, x: Addr, hops: nat, life: nat,
      m0: nat, m: nat, v: Moved, order: seq<Addr>, now: Time)
    requires depth > 0 && gw in s.routes && m0 <= m <= |order|
    requires MoveWithin(depth, cfg, s, gw, life, order[..m0], order, now) == Done(v)
    requires Handed(v.s.routes, gw, x, hops) && x !in order[m0..]
    ensures MoveWithin(depth, cfg, s, gw, life, order[..m], order, now) ==
            Done(Moved(UpdateInet(cfg, v.s, gw, life, order[m0..m], now), v.n + InetUpdates(cfg, v.s, gw, life, order[m0..m], now)))
    decreases m
  {
    hide UpdateWithin, MoveWithin, UpdateInet, InetUpdates, Handed;
    HandedHas(v.s.routes, gw, x, hops, x);
    if m0 < m {
      var init, z := order[m0..m - 1], order[m - 1];
      RestPass(depth, cfg, s, gw, x, hops, life, m0, m - 1, v, order, now);
      assert order[..m] == order[..m - 1] + [z] && order[m0..m] == init + [z];
      MoveStep(depth, cfg, s, gw, life, order[..m - 1], z, order, now);
      assert z == order[m0..][m - 1 - m0];
      RestStep(depth, cfg, v, gw, x, hops, life, init, z, order, now);
    } else {
      assert order[m0..m] == [];
      InetStarts(cfg, v.s, gw, life, now);
    }
  }

  lemma RestStep(depth: nat, cfg: Config, v: Moved, gw: Addr, x: Addr, hops: nat, life: nat, init: seq<Addr>, z: Addr,
      order: seq<Addr>, now: Time)
    requires depth > 0 && Handed(v.s.routes, gw, x, hops) && x !in init && z != x
    ensures MoveOne(depth, cfg,
                    Moved(UpdateInet(cfg, v.s, gw, life, init, now), v.n + InetUpdates(cfg, v.s, gw, life, init, now)),
                    gw, life, z, order, now) ==
            Done(Moved(UpdateInet(cfg, v.s, gw, life, init + [z], now), v.n + InetUpdates(cfg, v.s, gw, life, init + [z], now)))
  {
    hide UpdateWithin, UpdatePlain, UpdateInet, InetUpdates, Handed, Prolonged;
    HandedHas(v.s.routes, gw, x, hops, z);
    RestLands(cfg, v.s, gw, x, hops, life, init, now);
    InetStep(cfg, v.s, gw, life, init, z, now);
    var w := UpdateInet(cfg, v.s, gw, life, init, now);
    if InetActive(w.routes, z) {
      assert z in InetSet(w.routes);
      assert z in InetSet(v.s.routes);
      PlainWithin(depth, cfg, w, z, Onto(w.routes, gw, z, life), order, now);
    }
  }

  lemma HandedHas(routes: map<Addr, Route>, gw: Addr, x: Addr, hops: nat, z: Addr)
    requires Handed(routes, gw, x, hops)
    ensures gw in routes
    ensures z != x ==> !DualAt(routes, z)
  {
  }

  /** Otherwise a depth of two is enough, and the loop does what `MoveAll` says. */
  lemma ReturnsDone(depth: nat, cfg: Config, s: State, gw: Addr, life: nat, order: seq<Addr>, now: Time)
    requires depth >= 2 && gw in s.routes && Traverses(order, s.routes) && MoveReturns(cfg, s, gw, life, order, now)
    ensures MoveWithin(depth, cfg, s, gw, life, order, order, now) ==
            Done(Moved(MoveAll(cfg, s, gw, life, order, now), MoveCount(cfg, s, gw, life, order, now)))
  {
    hide UpdateInet, InetUpdates, UpdateWithin, MoveWithin, MoveDual, Rewrite, FirstDual, Handed, InetSet, SameKinds, MoveReturns;
    var k := FirstDual(cfg, s, gw, life, order, now);
    assert order[..|order|] == order;
    if k == |order| {
      PlainPass(depth, cfg, s, gw, life, k, order, now);
    } else {
      DualHands(cfg, s, gw, life, order, now);
      assert order[k] !in order[k + 1..];
      DualDone(depth, cfg, s, gw, life, k, order, now);
    }
  }

  lemma DualDone(depth: nat, cfg: Config, s: State, gw: Addr, life: nat, k: nat, order: seq<Addr>, now: Time)
    requires depth >= 2 && gw in s.routes && MoveReturns(cfg, s, gw, life, order, now)
    requires k == FirstDual(cfg, s, gw, life, order, now) < |order| && order[k] !in order[k + 1..]
    requires Handed(MoveDual(cfg, UpdateInet(cfg, s, gw, life, order[..k], now), gw, life, order[k], order, now).routes,
                    gw, order[k], s.routes[gw].hops)
    ensures MoveWithin(depth, cfg, s, gw, life, order, order, now) ==
            Done(Moved(MoveAll(cfg, s, gw, life, order, now), MoveCount(cfg, s, gw, life, order, now)))
  {
    hide UpdateInet, InetUpdates, UpdateWithin, MoveWithin, MoveDual, Rewrite, FirstDual, Handed;
    var s1, x := UpdateInet(cfg, s, gw, life, order[..k], now), order[k];
    DualUpdate(depth, cfg, s1, gw, life, x, order, now);
    DualStep(depth, cfg, s, gw, life, k, order, now);
    var v := Moved(MoveDual(cfg, s1, gw, life, x, order, now), InetUpdates(cfg, s, gw, life, order[..k], now) + 1);
    assert order[k + 1..|order|] == order[k + 1..] && order[..|order|] == order;
    RestPass(depth, cfg, s, gw, x, s.routes[gw].hops, life, k + 1, |order|, v, order, now);
  }

  lemma DualUpdate(depth: nat, cfg: Config, s: State, gw: Addr, life: nat, x: Addr, order: seq<Addr>, now: Time)
    requires depth >= 2 && gw in s.routes && DualAt(s.routes, x)
    requires FirstDual(cfg, Rewrite(cfg, s, x, Onto(s.routes, gw, x, life), now), x, life, order, now) == |order|
    ensures UpdateWithin(depth, cfg, s, x, Onto(s.routes, gw, x, life), order, now) ==
            Done(MoveDual(cfg, s, gw, life, x, order, now))
  {
    hide UpdateInet, Rewrite, Revive, FirstDual, MoveWithin;
    assert order[..|order|] == order;
    PlainPass(depth - 1, cfg, Rewrite(cfg, s, x, Onto(s.routes, gw, x, life), now), x, life, |order|, order, now);
  }

  // ----- The update as a whole

  /** rt_table_update comes back within some depth exactly if `Returns` holds, and then within
      depth three. */
  lemma ReturnsIff(cfg: Config, s: State, d: Addr, c: Change, order: seq<Addr>, now: Time)
    requires d in s.routes && Traverses(order, s.routes)
    ensures (exists depth: nat :: UpdateWithin(depth, cfg, s, d, c, order, now).Done?) <==> Returns(cfg, s, d, c, order, now)
    ensures Returns(cfg, s, d, c, order, now) ==>
      UpdateWithin(3, cfg, s, d, c, order, now) == Done(Update(cfg, s, d, c, order, now))
  {
    hide Rewrite, Revive, MoveAll, MoveWithin, MoveReturns;
    var s1 := Rewrite(cfg, s, d, c, now);
    if Returns(cfg, s, d, c, order, now) {
      if c.flags.gateway {
        ReturnsDone(2, cfg, s1, d, c.lifetime, order, now);
      }
      assert UpdateWithin(3, cfg, s, d, c, order, now).Done?;
    } else {
      forall depth: nat ensures UpdateWithin(depth, cfg, s, d, c, order, now).Running? {
        if depth > 0 {
          NeverReturns(depth - 1, cfg, s1, d, c.lifetime, order, now);
        }
      }
    }
  }

  /** Whatever the depth, a call that has come back has done `Update`. */
  lemma DoneIsUpdate(depth: nat, cfg: Config, s: State, d: Addr, c: Change, order: seq<Addr>, now: Time)
    requires d in s.routes && Traverses(order, s.routes) && UpdateWithin(depth, cfg, s, d, c, order, now).Done?
    ensures UpdateWithin(depth, cfg, s, d, c, order, now).value == Update(cfg, s, d, c, order, now)
  {
    hide UpdateWithin, Update;
    ReturnsIff(cfg, s, d, c, order, now);
    DeeperBy(depth, 3, cfg, s, d, c, order, now);
    DeeperBy(3, depth, cfg, s, d, c, order, now);
  }

  lemma {:induction false} DeeperBy(depth: nat, more: nat, cfg: Config, s: State, d: Addr, c: Change, order: seq<Addr>, now: Time)
    requires d in s.routes && UpdateWithin(depth, cfg, s, d, c, order, now).Done?
    ensures UpdateWithin(depth + more, cfg, s, d, c, order, now) == UpdateWithin(depth, cfg, s, d, c, order, now)
    decreases more
  {
    hide UpdateWithin;
    if more > 0 {
      DeeperBy(depth, more - 1, cfg, s, d, c, order, now);
      DeeperUpdate(depth + more - 1, cfg, s, d, c, order, now);
    }
  }

  /** The same for the loop alone. */
  lemma DoneIsMove(depth: nat, cfg: Config, s: State, gw: Addr, life: nat, order: seq<Addr>, now: Time)
    requires gw in s.routes && Traverses(order, s.routes) && MoveWithin(depth, cfg, s, gw, life, order, order, now).Done?
    ensures MoveReturns(cfg, s, gw, life, order, now)
    ensures MoveWithin(depth, cfg, s, gw, life, order, order, now) ==
            Done(Moved(MoveAll(cfg, s, gw, life, order, now), MoveCount(cfg, s, gw, life, order, now)))
  {
    hide MoveWithin, MoveAll, MoveCount, MoveReturns;
    if !MoveReturns(cfg, s, gw, life, order, now) {
      NeverReturns(depth, cfg, s, gw, life, order, now);
    }
    DeeperMove(depth, cfg, s, gw, life, order, order, now);
    DeeperMove(depth + 1, cfg, s, gw, life, order, order, now);
    ReturnsDone(depth + 2, cfg, s, gw, life, order, now);
  }

  // ----- A table on which it never comes back

  /** Gateway 1, and entry 2 that was reached as an Internet destination through it and has since
      answered as a gateway itself; both are two hops away. */
  const TwoGateways: map<Addr, Route> := map[
    1 := Route(5, 2, 0, Flags(false, false, false, false, true), true, Timer(RouteExpire, true, 3000), false, []),
    2 := Route(1, 2, 0, Flags(false, false, false, true, true), true, Timer(RouteExpire, true, 3000), false, [])]

  lemma EndlessUpdate(cfg: Config, s: State, depth: nat, now: Time)
    requires s.routes == TwoGateways
    ensures UpdateWithin(depth, cfg, s, 1, Change(5, 2, 1, 3000, TwoGateways[1].flags), [1, 2], now).Running?
  {
    hide Rewrite, MoveReturns, UpdateWithin;
    var c := Change(5, 2, 1, 3000, TwoGateways[1].flags);
    var s1 := Rewrite(cfg, s, 1, c, now);
    RewriteOthers(cfg, s, 1, c, now);
    RewriteRoot(cfg, s, 1, c, now);
    assert DualAt(s1.routes, 2) && Traverses([1, 2], s1.routes) && Traverses([1, 2], s.routes);
    QuietReturnsIff(cfg, s1, 1, 3000, [1, 2], now);
    ReturnsIff(cfg, s, 1, c, [1, 2], now);
  }
}
