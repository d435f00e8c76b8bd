/** Moving all Internet destinations to a gateway (rt_table_update_inet_rt): where they end up,
    what goes down on the way, and what a second gateway among them does. */
module GatewayMoves {
  import opened Basics
  import opened Route
  import opened DaemonSpec
  import opened Takedown
  import opened UpdateParts
  import opened Counting

  /** The VALID Internet destinations. */
  function InetSet(routes: map<Addr, Route>): set<Addr> {
    set x | x in routes && InetActive(routes, x)
  }

  predicate PointsAt(routes: map<Addr, Route>, x: Addr, gw: Addr) {
    x in routes && gw in routes && routes[x].nextHop == gw && routes[x].hops == routes[gw].hops
  }

  /** No entry has become or ceased to be a gateway or an Internet destination. */
  ghost predicate SameKinds(routes: map<Addr, Route>, routes': map<Addr, Route>) {
    && routes'.Keys == routes.Keys
    && forall x :: x in routes ==>
         routes'[x].flags.inetDest == routes[x].flags.inetDest && routes'[x].flags.gateway == routes[x].flags.gateway
  }

  // ----- One pass over the table

  /** Whatever link breaks happen on the way, every Internet destination of `order` that is
      VALID afterwards goes through the gateway, as far away as the gateway is; none has
      become VALID that was not. */
  lemma {:induction false} InetMoved(cfg: Config, s: State, gw: Addr, life: nat, order: seq<Addr>, now: Time)
    requires gw in s.routes
    ensures var s' := UpdateInet(cfg, s, gw, life, order, now);
            && s'.routes[gw].hops == s.routes[gw].hops
            && (forall x :: x in order && InetActive(s'.routes, x) ==> PointsAt(s'.routes, x, gw))
            && InetSet(s'.routes) <= InetSet(s.routes)
            && SameKinds(s.routes, s'.routes)
    decreases |order|
  {
    hide UpdatePlain;
    if order != [] {
      var init, x := order[..|order| - 1], order[|order| - 1];
      InetMoved(cfg, s, gw, life, init, now);
      var s1 := UpdateInet(cfg, s, gw, life, init, now);
      if InetActive(s1.routes, x) {
        var c := Onto(s1.routes, gw, x, life);
        PlainOthers(cfg, s1, x, c, now);
        var s' := UpdatePlain(cfg, s1, x, c, now);
        forall y | y in s1.routes && y != x ensures Bystander(s1.routes[y], s'.routes[y]) {
        }
        forall y | InetActive(s'.routes, y) ensures InetActive(s1.routes, y) {
          assert y == x || Bystander(s1.routes[y], s'.routes[y]);
        }
        forall y | y in order && InetActive(s'.routes, y) ensures PointsAt(s'.routes, y, gw) {
          assert gw == x || Bystander(s1.routes[gw], s'.routes[gw]);
          if y != x {
            assert y in init;
            assert Bystander(s1.routes[y], s'.routes[y]);
          }
        }
      }
    }
  }

  /** An entry that is no VALID Internet destination may go down or live longer, no more. */
  lemma {:induction false} InetBystander(cfg: Config, s: State, gw: Addr, life: nat, order: seq<Addr>, now: Time, z: Addr)
    requires gw in s.routes && z in s.routes && !InetActive(s.routes, z)
    ensures var s' := UpdateInet(cfg, s, gw, life, order, now);
            Bystander(s.routes[z], s'.routes[z]) && (z in s'.seeking <==> z in s.seeking)
    decreases |order|
  {
    hide UpdatePlain;
    if order != [] {
      var init, x := order[..|order| - 1], order[|order| - 1];
      InetBystander(cfg, s, gw, life, init, now, z);
      var s1 := UpdateInet(cfg, s, gw, life, init, now);
      if InetActive(s1.routes, x) {
        PlainOthers(cfg, s1, x, Onto(s1.routes, gw, x, life), now);
        PlainSeeks(cfg, s1, x, Onto(s1.routes, gw, x, life), now);
      }
    }
  }

  lemma StaysInvalid(cfg: Config, s: State, gw: Addr, life: nat, order: seq<Addr>, now: Time, y: Addr)
    requires gw in s.routes && y in s.routes
    ensures UpdateInet(cfg, s, gw, life, order, now).routes[y].valid ==> s.routes[y].valid
  {
    hide UpdateInet;
    if !s.routes[y].valid {
      InetBystander(cfg, s, gw, life, order, now, y);
    }
  }

  /** An Internet destination that is VALID at some point of the pass was so at every earlier one. */
  lemma {:induction false} InetBack(cfg: Config, s: State, gw: Addr, life: nat, order: seq<Addr>, now: Time, j: nat, m: nat, z: Addr)
    requires gw in s.routes && j <= m <= |order|
    requires InetActive(UpdateInet(cfg, s, gw, life, order[..m], now).routes, z)
    ensures InetActive(UpdateInet(cfg, s, gw, life, order[..j], now).routes, z)
    decreases m
  {
    if j < m {
      hide UpdatePlain;
      assert order[..m][..m - 1] == order[..m - 1];
      var s1, x := UpdateInet(cfg, s, gw, life, order[..m - 1], now), order[m - 1];
      if InetActive(s1.routes, x) && x != z {
        PlainOthers(cfg, s1, x, Onto(s1.routes, gw, x, life), now);
        assert Bystander(s1.routes[z], UpdatePlain(cfg, s1, x, Onto(s1.routes, gw, x, life), now).routes[z]);
      }
      InetBack(cfg, s, gw, life, order, now, j, m - 1, z);
    }
  }

  // ----- Passes in which nothing goes down

  /** One quiet step of the loop: nothing goes down. */
  lemma QuietStep(cfg: Config, s: State, gw: Addr, x: Addr, life: nat, now: Time)
    requires gw in s.routes && Quiet(s.routes, s.routes[gw].hops) && InetActive(s.routes, x)
    ensures var s' := UpdatePlain(cfg, s, x, Onto(s.routes, gw, x, life), now);
            && InetSet(s'.routes) == InetSet(s.routes)
            && Quiet(s'.routes, s.routes[gw].hops) && Slack(s') == Slack(s)
            && (forall y :: y in s.routes && y != x ==> Prolonged(s.routes[y], s'.routes[y]))
  {
    hide UpdatePlain, Slack;
    var c := Onto(s.routes, gw, x, life);
    PlainOthers(cfg, s, x, c, now);
    UpdatePlainSlack(cfg, s, x, c, now);
    var s' := UpdatePlain(cfg, s, x, c, now);
    forall y | y in s.routes ensures InetActive(s'.routes, y) == InetActive(s.routes, y) {
      assert y == x || Prolonged(s.routes[y], s'.routes[y]);
    }
  }

  /** When no one-hop Internet destination is moved further away, no entry goes down: the
      same Internet destinations are VALID as before, everything else keeps all but its
      lifetime, and the counter stays in step. */
  lemma {:induction false} InetQuiet(cfg: Config, s: State, gw: Addr, life: nat, order: seq<Addr>, now: Time)
    requires gw in s.routes && Quiet(s.routes, s.routes[gw].hops)
    ensures var s' := UpdateInet(cfg, s, gw, life, order, now);
            && InetSet(s'.routes) == InetSet(s.routes)
            && Quiet(s'.routes, s.routes[gw].hops) && Slack(s') == Slack(s)
            && (forall y :: y in s.routes && !(y in order && y in InetSet(s.routes)) ==> Prolonged(s.routes[y], s'.routes[y]))
    decreases |order|
  {
    hide UpdatePlain, Slack, Quiet;
    if order != [] {
      var init, x := order[..|order| - 1], order[|order| - 1];
      InetQuiet(cfg, s, gw, life, init, now);
      InetMoved(cfg, s, gw, life, init, now);
      var s1 := UpdateInet(cfg, s, gw, life, init, now);
      if InetActive(s1.routes, x) {
        assert x in InetSet(s1.routes);
        QuietStep(cfg, s1, gw, x, life, now);
        var s' := UpdateInet(cfg, s, gw, life, order, now);
        forall y | y in s.routes && !(y in order && y in InetSet(s.routes)) ensures Prolonged(s.routes[y], s'.routes[y]) {
          assert Prolonged(s.routes[y], s1.routes[y]) && Prolonged(s1.routes[y], s'.routes[y]);
        }
      }
    }
  }

  // ----- A second gateway among the Internet destinations

  ghost predicate Distinct(order: seq<Addr>) {
    forall i, j :: 0 <= i < j < |order| ==> order[i] != order[j]
  }

  lemma DistinctParts(order: seq<Addr>, k: nat)
    requires Distinct(order) && k < |order|
    ensures Distinct(order[..k]) && Distinct(order[k + 1..])
    ensures order[k] !in order[..k] && order[k] !in order[k + 1..]
  {
    var rest := order[k + 1..];
    forall i, j | 0 <= i < j < |rest| ensures rest[i] != rest[j] {
      assert rest[i] == order[k + 1 + i] && rest[j] == order[k + 1 + j];
    }
  }

  /** `order` is a traversal of the table: every entry, none twice. */
  ghost predicate Traverses(order: seq<Addr>, routes: map<Addr, Route>) {
    (forall x :: x in routes ==> x in order) && Distinct(order)
  }

  /** Exactly when rt_table_update_inet_rt comes back, see `GatewayRecursion.ReturnsIff`: it
      updates no entry that is a gateway too, or the first such entry is moved away from one
      hop, so that it is INVALID during its own pass, and that pass meets no other. */
  ghost predicate MoveReturns(cfg: Config, s: State, gw: Addr, life: nat, order: seq<Addr>, now: Time)
    requires gw in s.routes
  {
    var k := FirstDual(cfg, s, gw, life, order, now);
    k < |order| ==>
      var s1 := UpdateInet(cfg, s, gw, life, order[..k], now);
      var c := Onto(s1.routes, gw, order[k], life);
      && Demotes(s1.routes[order[k]], c)
      && FirstDual(cfg, Rewrite(cfg, s1, order[k], c, now), order[k], life, order, now) == |order|
  }

  /** Before the first such entry the loop has updated none, and none that it passed is one now. */
  lemma {:induction false} BeforeDual(cfg: Config, s: State, gw: Addr, life: nat, order: seq<Addr>, now: Time, j: nat)
    requires gw in s.routes && j < FirstDual(cfg, s, gw, life, order, now)
    ensures !DualAt(UpdateInet(cfg, s, gw, life, order[..j], now).routes, order[j])
    decreases |order|
  {
    hide UpdateInet;
    var n := |order| - 1;
    if j < n {
      assert order[..n][..j] == order[..j];
      BeforeDual(cfg, s, gw, life, order[..n], now, j);
    }
  }

  lemma PassedIsPlain(cfg: Config, s: State, gw: Addr, life: nat, order: seq<Addr>, now: Time, j: nat, m: nat)
    requires gw in s.routes && j < m <= FirstDual(cfg, s, gw, life, order, now)
    ensures !DualAt(UpdateInet(cfg, s, gw, life, order[..m], now).routes, order[j])
  {
    hide UpdateInet, FirstDual;
    if DualAt(UpdateInet(cfg, s, gw, life, order[..m], now).routes, order[j]) {
      InetBack(cfg, s, gw, life, order, now, j, m, order[j]);
      InetMoved(cfg, s, gw, life, order[..m], now);
      InetMoved(cfg, s, gw, life, order[..j], now);
      BeforeDual(cfg, s, gw, life, order, now, j);
      assert false;
    }
  }

  /** The state in which the loop goes on behind a second gateway `x`: every other VALID Internet
      destination has been moved to `x`, none of them is a gateway, and `x` itself is VALID and
      goes through `gw`. */
  ghost predicate Handed(routes: map<Addr, Route>, gw: Addr, x: Addr, hops: nat) {
    && gw in routes && x in routes && x != gw && hops > 1 && routes[gw].hops == hops
    && DualAt(routes, x) && routes[x].nextHop == gw && routes[x].hops == hops
    && forall z :: InetActive(routes, z) && z != x ==>
         routes[z].nextHop == x && routes[z].hops == hops && !routes[z].flags.gateway
  }

  /** What a bystander or a prolonged entry keeps. */
  lemma SameRoute(r: Route, r': Route)
    ensures Prolonged(r, r') ==> r'.valid == r.valid
    ensures Bystander(r, r') ==> (r'.valid ==> r.valid)
    ensures Prolonged(r, r') || Bystander(r, r') ==>
      && r'.nextHop == r.nextHop && r'.hops == r.hops
      && r'.flags.inetDest == r.flags.inetDest && r'.flags.gateway == r.flags.gateway
  {
  }

  /** The second gateway itself: INVALID during its own pass, VALID again after it. */
  lemma DualItself(cfg: Config, s: State, gw: Addr, life: nat, x: Addr, order: seq<Addr>, now: Time)
    requires gw in s.routes && DualAt(s.routes, x) && Demotes(s.routes[x], Onto(s.routes, gw, x, life))
    ensures var c := Onto(s.routes, gw, x, life);
            var u := UpdateInet(cfg, Rewrite(cfg, s, x, c, now), x, life, order, now);
            var r' := MoveDual(cfg, s, gw, life, x, order, now).routes[x];
            && !Rewrite(cfg, s, x, c, now).routes[x].valid && !u.routes[x].valid
            && r'.valid && r'.flags.inetDest && r'.flags.gateway && r'.nextHop == gw && r'.hops == c.hops
  {
    hide UpdateInet, Rewrite, Revive, Prolonged, Bystander;
    var c := Onto(s.routes, gw, x, life);
    var t := Rewrite(cfg, s, x, c, now);
    RewriteRoot(cfg, s, x, c, now);
    var u := UpdateInet(cfg, t, x, life, order, now);
    InetBystander(cfg, t, x, life, order, now, x);
    SameRoute(t.routes[x], u.routes[x]);
    ReviveShape(cfg, u, x, life, now);
    var r := Revived(u.routes[x], life, now);
    SameRoute(r, Revive(cfg, u, x, life, now).routes[x]);
  }

  /** What the second gateway `x` makes of another entry. */
  predicate HandedOver(s: State, v: State, x: Addr, z: Addr) {
    && z in s.routes && z in v.routes
    && v.routes[z].flags.inetDest == s.routes[z].flags.inetDest && v.routes[z].flags.gateway == s.routes[z].flags.gateway
    && (InetActive(v.routes, z) ==> InetActive(s.routes, z) && PointsAt(v.routes, z, x) && !v.routes[z].flags.gateway)
  }

  lemma DualHandsAt(cfg: Config, s: State, gw: Addr, life: nat, x: Addr, order: seq<Addr>, now: Time, z: Addr)
    requires gw in s.routes && DualAt(s.routes, x) && Demotes(s.routes[x], Onto(s.routes, gw, x, life))
    requires FirstDual(cfg, Rewrite(cfg, s, x, Onto(s.routes, gw, x, life), now), x, life, order, now) == |order|
    requires z in s.routes && z != x && forall y :: y in s.routes ==> y in order
    ensures HandedOver(s, MoveDual(cfg, s, gw, life, x, order, now), x, z)
  {
    hide UpdateInet, FirstDual, Rewrite, Revive, Prolonged, Bystander;
    var c := Onto(s.routes, gw, x, life);
    var t := Rewrite(cfg, s, x, c, now);
    RewriteRoot(cfg, s, x, c, now);
    RewriteOthers(cfg, s, x, c, now);
    var u := UpdateInet(cfg, t, x, life, order, now);
    InetMoved(cfg, t, x, life, order, now);
    HandedOthers(cfg, t, x, life, order, now);
    var v := MoveDual(cfg, s, gw, life, x, order, now);
    ReviveShape(cfg, u, x, life, now);
    DualItself(cfg, s, gw, life, x, order, now);
    SameRoute(s.routes[z], t.routes[z]);
    SameRoute(u.routes[z], v.routes[z]);
    if InetActive(v.routes, z) {
      assert InetActive(u.routes, z) && !DualAt(u.routes, z);
      assert z in InetSet(u.routes);
      assert z in InetSet(t.routes);
    }
  }

  lemma DualHandsOn(cfg: Config, s: State, gw: Addr, life: nat, x: Addr, order: seq<Addr>, now: Time)
    requires gw in s.routes && DualAt(s.routes, x) && Demotes(s.routes[x], Onto(s.routes, gw, x, life))
    requires FirstDual(cfg, Rewrite(cfg, s, x, Onto(s.routes, gw, x, life), now), x, life, order, now) == |order|
    requires forall z :: z in s.routes ==> z in order
    ensures var v := MoveDual(cfg, s, gw, life, x, order, now);
            && Handed(v.routes, gw, x, s.routes[gw].hops)
            && InetSet(v.routes) <= InetSet(s.routes) && SameKinds(s.routes, v.routes)
  {
    hide UpdateInet, FirstDual, Rewrite, MoveDual;
    var v := MoveDual(cfg, s, gw, life, x, order, now);
    DualItself(cfg, s, gw, life, x, order, now);
    DualSparesHops(cfg, s, gw, life, x, order, now);
    forall z | z in s.routes && z != x ensures HandedOver(s, v, x, z) {
      DualHandsAt(cfg, s, gw, life, x, order, now, z);
    }
  }

  lemma DualSparesHops(cfg: Config, s: State, gw: Addr, life: nat, x: Addr, order: seq<Addr>, now: Time)
    requires gw in s.routes && DualAt(s.routes, x) && Demotes(s.routes[x], Onto(s.routes, gw, x, life))
    ensures gw != x && MoveDual(cfg, s, gw, life, x, order, now).routes[gw].hops == s.routes[gw].hops
  {
    hide UpdateInet, Rewrite, Revive, Prolonged, Bystander;
    var c := Onto(s.routes, gw, x, life);
    var t := Rewrite(cfg, s, x, c, now);
    RewriteRoot(cfg, s, x, c, now);
    RewriteOthers(cfg, s, x, c, now);
    SameRoute(s.routes[gw], t.routes[gw]);
    GatewayHops(cfg, t, x, life, order, now, gw);
    var u := UpdateInet(cfg, t, x, life, order, now);
    ReviveShape(cfg, u, x, life, now);
    SameRoute(u.routes[gw], MoveDual(cfg, s, gw, life, x, order, now).routes[gw]);
  }

  /** The pass changes distances only to that of its gateway. */
  lemma {:induction false} GatewayHops(cfg: Config, s: State, gw: Addr, life: nat, order: seq<Addr>, now: Time, z: Addr)
    requires gw in s.routes && z in s.routes && s.routes[z].hops == s.routes[gw].hops
    ensures UpdateInet(cfg, s, gw, life, order, now).routes[z].hops == s.routes[gw].hops
    decreases |order|
  {
    hide UpdatePlain;
    if order != [] {
      var init, x := order[..|order| - 1], order[|order| - 1];
      GatewayHops(cfg, s, gw, life, init, now, z);
      InetMoved(cfg, s, gw, life, init, now);
      var s1 := UpdateInet(cfg, s, gw, life, init, now);
      if InetActive(s1.routes, x) {
        PlainOthers(cfg, s1, x, Onto(s1.routes, gw, x, life), now);
      }
    }
  }

  lemma DualHands(cfg: Config, s: State, gw: Addr, life: nat, order: seq<Addr>, now: Time)
    requires gw in s.routes && MoveReturns(cfg, s, gw, life, order, now) && forall x :: x in s.routes ==> x in order
    requires FirstDual(cfg, s, gw, life, order, now) < |order|
    ensures var k := FirstDual(cfg, s, gw, life, order, now);
            var s1 := UpdateInet(cfg, s, gw, life, order[..k], now);
            var v := MoveDual(cfg, s1, gw, life, order[k], order, now);
            && s1.routes[gw].hops == s.routes[gw].hops
            && Handed(v.routes, gw, order[k], s.routes[gw].hops)
            && InetSet(v.routes) <= InetSet(s1.routes) <= InetSet(s.routes)
            && SameKinds(s.routes, v.routes)
  {
    hide UpdateInet, FirstDual, Rewrite, MoveDual;
    var k := FirstDual(cfg, s, gw, life, order, now);
    InetMoved(cfg, s, gw, life, order[..k], now);
    DualHandsOn(cfg, UpdateInet(cfg, s, gw, life, order[..k], now), gw, life, order[k], order, now);
  }

  /** After a whole pass that met no second gateway, none is left. */
  lemma HandedOthers(cfg: Config, s: State, gw: Addr, life: nat, order: seq<Addr>, now: Time)
    requires gw in s.routes && FirstDual(cfg, s, gw, life, order, now) == |order|
    requires forall x :: x in s.routes ==> x in order
    ensures forall z :: !DualAt(UpdateInet(cfg, s, gw, life, order, now).routes, z)
  {
    hide UpdateInet, FirstDual;
    var s' := UpdateInet(cfg, s, gw, life, order, now);
    forall z ensures !DualAt(s'.routes, z) {
      if z in s'.routes {
        var j :| 0 <= j < |order| && order[j] == z;
        assert order[..|order|] == order;
        PassedIsPlain(cfg, s, gw, life, order, now, j, |order|);
      }
    }
  }

  // ----- Where everything ends up

  lemma PrefixDual(cfg: Config, s: State, gw: Addr, life: nat, order: seq<Addr>, now: Time, m: nat)
    requires gw in s.routes && m <= FirstDual(cfg, s, gw, life, order, now)
    ensures FirstDual(cfg, s, gw, life, order[..m], now) == m
    decreases |order|
  {
    hide UpdateInet;
    if m < |order| {
      var n := |order| - 1;
      assert order[..n][..m] == order[..m];
      PrefixDual(cfg, s, gw, life, order[..n], now, m);
    } else {
      assert order[..m] == order;
    }
  }

  lemma BystandersCompose(r: Route, r1: Route, r2: Route)
    requires Bystander(r, r1) || Prolonged(r, r1)
    requires Bystander(r1, r2) || Prolonged(r1, r2)
    ensures Bystander(r, r2)
  {
  }

  /** A pass that meets no second gateway leaves every gateway where it is. */
  lemma {:induction false} InetSpares(cfg: Config, s: State, gw: Addr, life: nat, order: seq<Addr>, now: Time, z: Addr)
    requires gw in s.routes && z in s.routes && s.routes[z].flags.gateway
    requires FirstDual(cfg, s, gw, life, order, now) == |order|
    ensures var s' := UpdateInet(cfg, s, gw, life, order, now);
            Bystander(s.routes[z], s'.routes[z]) && (z in s'.seeking <==> z in s.seeking)
    decreases |order|
  {
    hide UpdatePlain;
    if order != [] {
      var init, x := order[..|order| - 1], order[|order| - 1];
      PrefixDual(cfg, s, gw, life, order, now, |init|);
      InetSpares(cfg, s, gw, life, init, now, z);
      var s1 := UpdateInet(cfg, s, gw, life, init, now);
      if InetActive(s1.routes, x) {
        PlainOthers(cfg, s1, x, Onto(s1.routes, gw, x, life), now);
        PlainSeeks(cfg, s1, x, Onto(s1.routes, gw, x, life), now);
      }
    }
  }

  /** The gateway may go down or live longer meanwhile; its route stays. */
  lemma MoveSpares(cfg: Config, s: State, gw: Addr, life: nat, order: seq<Addr>, now: Time)
    requires gw in s.routes && s.routes[gw].flags.gateway
    requires MoveReturns(cfg, s, gw, life, order, now) && forall x :: x in s.routes ==> x in order
    ensures var s' := MoveAll(cfg, s, gw, life, order, now);
            Bystander(s.routes[gw], s'.routes[gw]) && (gw in s'.seeking <==> gw in s.seeking)
  {
    hide UpdateInet, FirstDual, Rewrite, Revive, Bystander, Prolonged;
    var k := FirstDual(cfg, s, gw, life, order, now);
    if k == |order| {
      InetSpares(cfg, s, gw, life, order, now, gw);
    } else {
      var s1, x := UpdateInet(cfg, s, gw, life, order[..k], now), order[k];
      PrefixDual(cfg, s, gw, life, order, now, k);
      InetSpares(cfg, s, gw, life, order[..k], now, gw);
      SameRoute(s.routes[gw], s1.routes[gw]);
      var t := Rewrite(cfg, s1, x, Onto(s1.routes, gw, x, life), now);
      RewriteOthers(cfg, s1, x, Onto(s1.routes, gw, x, life), now);
      RewriteLeaves(cfg, s1, x, Onto(s1.routes, gw, x, life), now, gw);
      DualHands(cfg, s, gw, life, order, now);
      SameRoute(s1.routes[gw], t.routes[gw]);
      var u := UpdateInet(cfg, t, x, life, order, now);
      InetSpares(cfg, t, x, life, order, now, gw);
      SameRoute(t.routes[gw], u.routes[gw]);
      var v := Revive(cfg, u, x, life, now);
      ReviveShape(cfg, u, x, life, now);
      SameRoute(u.routes[gw], v.routes[gw]);
      assert !InetActive(v.routes, gw);
      InetBystander(cfg, v, gw, life, order[k + 1..], now, gw);
      BystandersCompose(s.routes[gw], s1.routes[gw], t.routes[gw]);
      BystandersCompose(s.routes[gw], t.routes[gw], u.routes[gw]);
      BystandersCompose(s.routes[gw], u.routes[gw], v.routes[gw]);
      BystandersCompose(s.routes[gw], v.routes[gw], MoveAll(cfg, s, gw, life, order, now).routes[gw]);
    }
  }

  /** After rt_table_update_inet_rt every VALID Internet destination goes through `gw` at its
      distance, except that those which the loop had passed before it met a second gateway are
      left on that one.  None has become VALID. */
  lemma MoveLands(cfg: Config, s: State, gw: Addr, life: nat, order: seq<Addr>, now: Time)
    requires gw in s.routes && MoveReturns(cfg, s, gw, life, order, now) && Traverses(order, s.routes)
    ensures var s', k := MoveAll(cfg, s, gw, life, order, now), FirstDual(cfg, s, gw, life, order, now);
            && s'.routes[gw].hops == s.routes[gw].hops
            && InetSet(s'.routes) <= InetSet(s.routes) && SameKinds(s.routes, s'.routes)
            && forall z :: InetActive(s'.routes, z) ==>
                 s'.routes[z].hops == s.routes[gw].hops &&
                 s'.routes[z].nextHop == if k < |order| && z in order[..k] then order[k] else gw
  {
    hide UpdateInet, FirstDual, MoveReturns;
    var k := FirstDual(cfg, s, gw, life, order, now);
    if k == |order| {
      InetMoved(cfg, s, gw, life, order, now);
    } else {
      hide MoveAll, MoveDual, InetSet, SameKinds;
      DualLands(cfg, s, gw, life, k, order, now);
    }
  }

  lemma DualLands(cfg: Config, s: State, gw: Addr, life: nat, k: nat, order: seq<Addr>, now: Time)
    requires gw in s.routes && MoveReturns(cfg, s, gw, life, order, now) && Traverses(order, s.routes)
    requires k == FirstDual(cfg, s, gw, life, order, now) < |order|
    ensures var s' := MoveAll(cfg, s, gw, life, order, now);
            && s'.routes[gw].hops == s.routes[gw].hops
            && InetSet(s'.routes) <= InetSet(s.routes) && SameKinds(s.routes, s'.routes)
            && forall z :: InetActive(s'.routes, z) ==>
                 s'.routes[z].hops == s.routes[gw].hops && s'.routes[z].nextHop == if z in order[..k] then order[k] else gw
  {
    hide UpdateInet, FirstDual, MoveAll, MoveDual, MoveReturns, Handed, InetSet, SameKinds, Prolonged, Slack, Distinct;
    var s1, x, rest := UpdateInet(cfg, s, gw, life, order[..k], now), order[k], order[k + 1..];
    var v := MoveDual(cfg, s1, gw, life, x, order, now);
    var s' := UpdateInet(cfg, v, gw, life, rest, now);
    MovesOn(cfg, s, gw, life, k, order, now);
    DualHands(cfg, s, gw, life, order, now);
    DistinctParts(order, k);
    RestLands(cfg, v, gw, x, s.routes[gw].hops, life, rest, now);
    SameKindsTwice(s.routes, v.routes, s'.routes);
    forall z | InetActive(s'.routes, z) ensures z in order[..k] <==> z != x && z !in rest {
      SplitOrder(order, k, z);
    }
  }

  lemma MovesOn(cfg: Config, s: State, gw: Addr, life: nat, k: nat, order: seq<Addr>, now: Time)
    requires gw in s.routes && k == FirstDual(cfg, s, gw, life, order, now) < |order|
    ensures MoveAll(cfg, s, gw, life, order, now) ==
            UpdateInet(cfg, MoveDual(cfg, UpdateInet(cfg, s, gw, life, order[..k], now), gw, life, order[k], order, now), gw, life,
              order[k + 1..], now)
  {
    hide UpdateInet, FirstDual, MoveDual;
  }

  lemma SameKindsTwice(a: map<Addr, Route>, b: map<Addr, Route>, c: map<Addr, Route>)
    requires SameKinds(a, b) && SameKinds(b, c)
    ensures SameKinds(a, c)
  {
  }

  /** The rest of the loop behind a second gateway. */
  lemma RestLands(cfg: Config, s: State, gw: Addr, x: Addr, hops: nat, life: nat, rest: seq<Addr>, now: Time)
    requires Handed(s.routes, gw, x, hops) && x !in rest
    ensures var s' := UpdateInet(cfg, s, gw, life, rest, now);
            && s'.routes[gw].hops == hops && InetSet(s'.routes) == InetSet(s.routes) && SameKinds(s.routes, s'.routes)
            && Slack(s') == Slack(s)
            && (forall z :: z in s.routes && !(z in rest && InetActive(s.routes, z)) ==> Prolonged(s.routes[z], s'.routes[z]))
            && forall z :: InetActive(s'.routes, z) ==>
                 s'.routes[z].hops == hops && s'.routes[z].nextHop == if z == x || z in rest then gw else x
  {
    hide UpdateInet, Prolonged, Slack;
    InetMoved(cfg, s, gw, life, rest, now);
    InetQuiet(cfg, s, gw, life, rest, now);
    var s' := UpdateInet(cfg, s, gw, life, rest, now);
    forall z | InetActive(s'.routes, z) ensures
      s'.routes[z].hops == hops && s'.routes[z].nextHop == if z == x || z in rest then gw else x
    {
      assert z in InetSet(s'.routes);
      assert z in InetSet(s.routes);
      if z !in rest {
        SameRoute(s.routes[z], s'.routes[z]);
      }
    }
  }

  lemma SplitOrder(order: seq<Addr>, k: nat, z: Addr)
    requires k < |order| && z in order && Distinct(order)
    ensures z in order[..k] ==> z != order[k] && z !in order[k + 1..]
    ensures z !in order[..k] ==> (z == order[k] <==> z !in order[k + 1..])
  {
    assert order == order[..k] + [order[k]] + order[k + 1..];
  }

  // ----- Tables on which it comes back

  /** A pass over a table without such an entry meets none. */
  lemma NoDualPasses(cfg: Config, s: State, gw: Addr, life: nat, order: seq<Addr>, now: Time)
    requires gw in s.routes && forall z :: !DualAt(s.routes, z)
    ensures FirstDual(cfg, s, gw, life, order, now) == |order|
  {
    hide UpdateInet, FirstDual;
    var k := FirstDual(cfg, s, gw, life, order, now);
    if k < |order| {
      DualBack(cfg, s, gw, life, order[..k], now, order[k]);
    }
  }

  lemma DualBack(cfg: Config, s: State, gw: Addr, life: nat, order: seq<Addr>, now: Time, z: Addr)
    requires gw in s.routes && DualAt(UpdateInet(cfg, s, gw, life, order, now).routes, z)
    ensures DualAt(s.routes, z)
  {
    hide UpdateInet;
    InetMoved(cfg, s, gw, life, order, now);
    assert z in InetSet(UpdateInet(cfg, s, gw, life, order, now).routes);
    assert z in InetSet(s.routes);
  }

  /** A single such entry does no harm if it is one hop away and the gateway further. */
  lemma LoneDualReturns(cfg: Config, s: State, gw: Addr, life: nat, order: seq<Addr>, now: Time, x: Addr)
    requires gw in s.routes && DualAt(s.routes, x) && (forall z :: DualAt(s.routes, z) ==> z == x)
    requires s.routes[x].hops == 1 && s.routes[gw].hops > 1 && Traverses(order, s.routes)
    ensures MoveReturns(cfg, s, gw, life, order, now)
  {
    hide UpdateInet, FirstDual, Rewrite, Bystander;
    var k := FirstDual(cfg, s, gw, life, order, now);
    if k < |order| {
      var s1 := UpdateInet(cfg, s, gw, life, order[..k], now);
      InetMoved(cfg, s, gw, life, order[..k], now);
      DualBack(cfg, s, gw, life, order[..k], now, order[k]);
      assert x !in order[..k];
      InetAhead(cfg, s, gw, life, order[..k], now, x);
      SameRoute(s.routes[x], s1.routes[x]);
      var c := Onto(s1.routes, gw, x, life);
      var t := Rewrite(cfg, s1, x, c, now);
      RewriteRoot(cfg, s1, x, c, now);
      RewriteOthers(cfg, s1, x, c, now);
      forall z ensures !DualAt(t.routes, z) {
        if z in s1.routes && z != x && DualAt(t.routes, z) {
          SameRoute(s1.routes[z], t.routes[z]);
          DualBack(cfg, s, gw, life, order[..k], now, z);
        }
      }
      NoDualPasses(cfg, t, x, life, order, now);
    }
  }

  /** An entry that the loop has not reached keeps its route; it may have gone down. */
  lemma {:induction false} InetAhead(cfg: Config, s: State, gw: Addr, life: nat, order: seq<Addr>, now: Time, z: Addr)
    requires gw in s.routes && z in s.routes && z !in order
    ensures Bystander(s.routes[z], UpdateInet(cfg, s, gw, life, order, now).routes[z])
    decreases |order|
  {
    hide UpdatePlain;
    if order != [] {
      var init, x := order[..|order| - 1], order[|order| - 1];
      InetAhead(cfg, s, gw, life, init, now, z);
      var s1 := UpdateInet(cfg, s, gw, life, init, now);
      if InetActive(s1.routes, x) {
        PlainOthers(cfg, s1, x, Onto(s1.routes, gw, x, life), now);
      }
    }
  }

  /** In a table where nothing has to move further away, it comes back exactly if no VALID
      Internet destination is a gateway. */
  lemma QuietReturnsIff(cfg: Config, s: State, gw: Addr, life: nat, order: seq<Addr>, now: Time)
    requires gw in s.routes && Quiet(s.routes, s.routes[gw].hops) && Traverses(order, s.routes)
    ensures MoveReturns(cfg, s, gw, life, order, now) <==> forall z :: !DualAt(s.routes, z)
  {
    hide UpdateInet, FirstDual, Rewrite, Slack;
    var k := FirstDual(cfg, s, gw, life, order, now);
    if k == |order| {
      HandedOthers(cfg, s, gw, life, order, now);
      InetQuiet(cfg, s, gw, life, order, now);
      InetMoved(cfg, s, gw, life, order, now);
      var s' := UpdateInet(cfg, s, gw, life, order, now);
      forall z ensures !DualAt(s.routes, z) {
        assert !DualAt(s'.routes, z) && (z in InetSet(s.routes) <==> z in InetSet(s'.routes));
      }
    } else {
      InetQuiet(cfg, s, gw, life, order[..k], now);
      InetMoved(cfg, s, gw, life, order[..k], now);
      DualBack(cfg, s, gw, life, order[..k], now, order[k]);
    }
  }

  /** Exactly when rt_table_update comes back. */
  ghost predicate Returns(cfg: Config, s: State, d: Addr, c: Change, order: seq<Addr>, now: Time)
    requires d in s.routes
  {
    c.flags.gateway ==> MoveReturns(cfg, Rewrite(cfg, s, d, c, now), d, c.lifetime, order, now)
  }

  /** rt_table_update on a gateway, seen as a whole: it is VALID with its new values, and every
      other VALID Internet destination goes through it, or through a second gateway if it
      comes before that in the traversal. */
  lemma GatewayUpdate(cfg: Config, s: State, gw: Addr, c: Change, order: seq<Addr>, now: Time)
    requires gw in s.routes && c.flags.gateway && Returns(cfg, s, gw, c, order, now) && Traverses(order, s.routes)
    ensures var s1 := Rewrite(cfg, s, gw, c, now);
            var k := FirstDual(cfg, s1, gw, c.lifetime, order, now);
            var s' := Update(cfg, s, gw, c, order, now);
            && gw in s'.routes && s'.routes[gw].valid && s'.routes[gw].hops == c.hops && s'.routes[gw].nextHop == c.next
            && forall x :: InetActive(s'.routes, x) && x != gw ==>
                 x in InetSet(s.routes) && s'.routes[x].hops == c.hops &&
                 s'.routes[x].nextHop == if k < |order| && x in order[..k] then order[k] else gw
  {
    hide Rewrite, Revive, MoveAll, MoveReturns, FirstDual, Prolonged, Bystander;
    var s1 := Rewrite(cfg, s, gw, c, now);
    RewriteRoot(cfg, s, gw, c, now);
    RewriteOthers(cfg, s, gw, c, now);
    MoveLands(cfg, s1, gw, c.lifetime, order, now);
    MoveSpares(cfg, s1, gw, c.lifetime, order, now);
    var s2 := MoveAll(cfg, s1, gw, c.lifetime, order, now);
    ReviveShape(cfg, s2, gw, c.lifetime, now);
    var s' := Revive(cfg, s2, gw, c.lifetime, now);
    var r := Revived(s2.routes[gw], c.lifetime, now);
    SameRoute(s1.routes[gw], s2.routes[gw]);
    SameRoute(r, s'.routes[gw]);
    forall x | InetActive(s'.routes, x) && x != gw ensures InetActive(s2.routes, x) && x in InetSet(s.routes)
      && s'.routes[x].hops == s2.routes[x].hops && s'.routes[x].nextHop == s2.routes[x].nextHop
    {
      SameRoute(s2.routes[x], s'.routes[x]);
      assert x in InetSet(s2.routes);
      assert x in InetSet(s1.routes);
      SameRoute(s.routes[x], s1.routes[x]);
    }
  }
}
