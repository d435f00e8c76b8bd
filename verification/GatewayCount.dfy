/** What rt_table_update_inet_rt counts, and the sequence numbers that it leaves. */
module GatewayCount {
  import opened Basics
  import opened Route
  import opened DaemonSpec
  import opened Takedown
  import opened UpdateParts
  import opened GatewayMoves
  import opened GatewayOwn
  import opened GatewayMirror

  function Among(order: seq<Addr>, xs: set<Addr>): set<Addr> {
    set x | x in order && x in xs
  }

  lemma AmongOneMore(order: seq<Addr>, x: Addr, xs: set<Addr>)
    requires x !in order
    ensures |Among(order + [x], xs)| == |Among(order, xs)| + (if x in xs then 1 else 0)
  {
    assert Among(order + [x], xs) == Among(order, xs) + (if x in xs then {x} else {});
  }

  lemma SameAmong(order: seq<Addr>, xs: set<Addr>, ys: set<Addr>)
    requires forall x :: x in order ==> (x in xs <==> x in ys)
    ensures Among(order, xs) == Among(order, ys)
  {
  }

  /** One step leaves the Internet destinations that were moved before VALID. */
  lemma CountStep(cfg: Config, s: State, gw: Addr, life: nat, init: seq<Addr>, x: Addr, now: Time, y: Addr)
    requires gw in s.routes && y in init && y != x
    requires var s1 := UpdateInet(cfg, s, gw, life, init, now);
             InetActive(s1.routes, x) && Stays(s1, UpdatePlain(cfg, s1, x, Onto(s1.routes, gw, x, life), now), gw)
    ensures var s1 := UpdateInet(cfg, s, gw, life, init, now);
            var s' := UpdatePlain(cfg, s1, x, Onto(s1.routes, gw, x, life), now);
            y in InetSet(s1.routes) <==> y in InetSet(s'.routes)
  {
    hide UpdatePlain, UpdateInet;
    var s1 := UpdateInet(cfg, s, gw, life, init, now);
    var c := Onto(s1.routes, gw, x, life);
    InetMoved(cfg, s, gw, life, init, now);
    PlainOthers(cfg, s1, x, c, now);
    if InetActive(s1.routes, y) {
      StepUp(cfg, s1, x, c, now, y);
    }
  }

  /** A pass that does not take its gateway down updates exactly the Internet destinations that
      are VALID after it. */
  lemma {:induction false} PassCount(cfg: Config, s: State, gw: Addr, life: nat, order: seq<Addr>, now: Time)
    requires gw in s.routes && Distinct(order) && Stays(s, UpdateInet(cfg, s, gw, life, order, now), gw)
    ensures InetUpdates(cfg, s, gw, life, order, now) ==
            |Among(order, InetSet(UpdateInet(cfg, s, gw, life, order, now).routes))|
    decreases |order|
  {
    hide UpdatePlain, InetSet, Stays;
    if order != [] {
      var init, x := order[..|order| - 1], order[|order| - 1];
      var s1, s' := UpdateInet(cfg, s, gw, life, init, now), UpdateInet(cfg, s, gw, life, order, now);
      StaysBefore(cfg, s, gw, life, order, now, gw);
      PassCount(cfg, s, gw, life, init, now);
      assert order == init + [x] && x !in init;
      if InetActive(s1.routes, x) {
        forall y | y in init ensures y in InetSet(s1.routes) <==> y in InetSet(s'.routes) {
          CountStep(cfg, s, gw, life, init, x, now, y);
        }
        PlainOthers(cfg, s1, x, Onto(s1.routes, gw, x, life), now);
      }
      InInetSet(s'.routes, x);
      SameAmong(init, InetSet(s1.routes), InetSet(s'.routes));
      AmongOneMore(init, x, InetSet(s'.routes));
    }
  }

  lemma InInetSet(routes: map<Addr, Route>, x: Addr)
    ensures x in InetSet(routes) <==> InetActive(routes, x)
  {
  }

  lemma InetKeys(routes: map<Addr, Route>)
    ensures InetSet(routes) <= routes.Keys
  {
  }

  /** Any pass has updated the Internet destinations that are VALID after it. */
  lemma {:induction false} PassCountsAll(cfg: Config, s: State, gw: Addr, life: nat, order: seq<Addr>, now: Time)
    requires gw in s.routes && Distinct(order)
    ensures InetUpdates(cfg, s, gw, life, order, now) >=
            |Among(order, InetSet(UpdateInet(cfg, s, gw, life, order, now).routes))|
    decreases |order|
  {
    hide UpdatePlain, InetSet, Among;
    if order == [] {
      AmongNone(InetSet(s.routes));
    } else {
      var init, x := order[..|order| - 1], order[|order| - 1];
      var s1, s' := UpdateInet(cfg, s, gw, life, init, now), UpdateInet(cfg, s, gw, life, order, now);
      PassCountsAll(cfg, s, gw, life, init, now);
      assert order == init + [x] && x !in init;
      if InetActive(s1.routes, x) {
        InetFewer(cfg, s1, x, Onto(s1.routes, gw, x, life), now);
      }
      InInetSet(s1.routes, x);
      FewerAmong(init, InetSet(s'.routes), InetSet(s1.routes));
      AmongOneMore(init, x, InetSet(s'.routes));
    }
  }

  lemma InetFewer(cfg: Config, s: State, x: Addr, c: Change, now: Time)
    requires InetActive(s.routes, x)
    ensures InetSet(UpdatePlain(cfg, s, x, c, now).routes) <= InetSet(s.routes)
  {
    hide UpdatePlain;
    PlainOthers(cfg, s, x, c, now);
  }

  lemma AmongNone(xs: set<Addr>)
    ensures Among([], xs) == {}
  {
  }

  lemma FewerAmong(order: seq<Addr>, xs: set<Addr>, ys: set<Addr>)
    requires xs <= ys
    ensures |Among(order, xs)| <= |Among(order, ys)|
  {
    FewerElements(Among(order, xs), Among(order, ys));
  }

  lemma FewerElements(a: set<Addr>, b: set<Addr>)
    requires a <= b
    ensures |a| <= |b|
  {
    assert b == a + (b - a);
  }

  /** The number that rt_table_update_inet_rt returns is never below that of the Internet
      destinations which are VALID after it.  It is that number unless the gateway goes down. */
  lemma CountsWhatIsLeft(cfg: Config, s: State, gw: Addr, life: nat, order: seq<Addr>, now: Time)
    requires gw in s.routes && s.routes[gw].flags.gateway
    requires MoveReturns(cfg, s, gw, life, order, now) && Traverses(order, s.routes)
    ensures var n, s' := MoveCount(cfg, s, gw, life, order, now), MoveAll(cfg, s, gw, life, order, now);
            n >= |InetSet(s'.routes)| && ((s.routes[gw].valid ==> s'.routes[gw].valid) ==> n == |InetSet(s'.routes)|)
  {
    hide UpdateInet, InetUpdates, FirstDual, MoveReturns, MoveDual;
    var k := FirstDual(cfg, s, gw, life, order, now);
    var s' := MoveAll(cfg, s, gw, life, order, now);
    if k == |order| {
      assert Among(order, InetSet(s'.routes)) == InetSet(s'.routes);
      PassCountsAll(cfg, s, gw, life, order, now);
      if s.routes[gw].valid ==> s'.routes[gw].valid {
        GatewayIsPlain(cfg, s, gw, life, order, now);
        PassCount(cfg, s, gw, life, order, now);
      }
    } else {
      DualCountsAll(cfg, s, gw, life, k, order, now);
      if s.routes[gw].valid ==> s'.routes[gw].valid {
        DualCount(cfg, s, gw, life, k, order, now);
      }
    }
  }

  lemma DualCountsAll(cfg: Config, s: State, gw: Addr, life: nat, k: nat, order: seq<Addr>, now: Time)
    requires Underway(cfg, s, gw, life, k, order, now)
    ensures MoveCount(cfg, s, gw, life, order, now) >= |InetSet(MoveAll(cfg, s, gw, life, order, now).routes)|
  {
    hide UpdateInet, InetUpdates, FirstDual, Rewrite, Revive, MoveReturns, MoveDual, TheWay, InetSet, Distinct, Among, Handed,
      SameKinds;
    var w := TheWay(cfg, s, gw, life, k, order, now);
    var inet, rest := InetSet(MoveAll(cfg, s, gw, life, order, now).routes), order[k + 1..];
    WayIsHanded(cfg, s, gw, life, k, order, now);
    DistinctParts(order, k);
    DualHands(cfg, s, gw, life, order, now);
    RestLands(cfg, w.v, gw, w.x, s.routes[gw].hops, life, rest, now);
    PassCountsAll(cfg, s, gw, life, order[..k], now);
    PassCountsAll(cfg, w.v, gw, life, rest, now);
    FewerAmong(order[..k], inet, InetSet(w.s1.routes));
    SelfValid(cfg, s, gw, life, k, order, now);
    InInetSet(MoveAll(cfg, s, gw, life, order, now).routes, w.x);
    InetKeys(MoveAll(cfg, s, gw, life, order, now).routes);
    SplitCount(order, k, inet, s.routes);
  }

  lemma DualCount(cfg: Config, s: State, gw: Addr, life: nat, k: nat, order: seq<Addr>, now: Time)
    requires OnTheWay(cfg, s, gw, life, k, order, now)
    ensures MoveCount(cfg, s, gw, life, order, now) == |InetSet(MoveAll(cfg, s, gw, life, order, now).routes)|
  {
    hide UpdateInet, InetUpdates, FirstDual, Rewrite, Revive, MoveReturns, MoveDual, TheWay, InetSet, Stays, Distinct, Among;
    var w := TheWay(cfg, s, gw, life, k, order, now);
    var inet, rest := InetSet(MoveAll(cfg, s, gw, life, order, now).routes), order[k + 1..];
    WayIsHanded(cfg, s, gw, life, k, order, now);
    WayStays(cfg, s, gw, life, k, order, now);
    DistinctParts(order, k);
    PassCount(cfg, s, gw, life, order[..k], now);
    PassCount(cfg, w.v, gw, life, rest, now);
    SelfValid(cfg, s, gw, life, k, order, now);
    InInetSet(MoveAll(cfg, s, gw, life, order, now).routes, w.x);
    forall y | y in order[..k] ensures y in InetSet(w.s1.routes) <==> y in inet {
      DualStays(cfg, s, gw, life, k, order, now, y);
    }
    SameAmong(order[..k], InetSet(w.s1.routes), inet);
    InetKeys(MoveAll(cfg, s, gw, life, order, now).routes);
    SplitCount(order, k, inet, s.routes);
  }

  lemma DualStays(cfg: Config, s: State, gw: Addr, life: nat, k: nat, order: seq<Addr>, now: Time, y: Addr)
    requires OnTheWay(cfg, s, gw, life, k, order, now) && y in order[..k]
    ensures y in InetSet(TheWay(cfg, s, gw, life, k, order, now).s1.routes) <==>
            y in InetSet(MoveAll(cfg, s, gw, life, order, now).routes)
  {
    hide UpdateInet, FirstDual, MoveReturns, MoveAll, TheWay, Traverses;
    var w := TheWay(cfg, s, gw, life, k, order, now);
    if y == gw {
      GatewayStaysOut(cfg, s, gw, life, k, order, now);
    } else if InetActive(w.s1.routes, y) {
      StaysInet(cfg, s, gw, life, k, order, now, y);
    } else if InetActive(MoveAll(cfg, s, gw, life, order, now).routes, y) {
      WayIsOther(cfg, s, gw, life, k, order, now, y);
      WayValid(cfg, s, gw, life, k, order, now, y);
    }
  }

  lemma WayIsOther(cfg: Config, s: State, gw: Addr, life: nat, k: nat, order: seq<Addr>, now: Time, y: Addr)
    requires Underway(cfg, s, gw, life, k, order, now) && y in order[..k]
    ensures y != order[k]
  {
    DistinctParts(order, k);
  }

  /** What was moved before the second gateway is still an Internet destination afterwards. */
  lemma StaysInet(cfg: Config, s: State, gw: Addr, life: nat, k: nat, order: seq<Addr>, now: Time, y: Addr)
    requires OnTheWay(cfg, s, gw, life, k, order, now) && y in order[..k] && y != gw
    requires InetActive(TheWay(cfg, s, gw, life, k, order, now).s1.routes, y)
    ensures y in InetSet(MoveAll(cfg, s, gw, life, order, now).routes)
  {
    hide UpdateInet, FirstDual, Rewrite, Revive, MoveReturns, MoveDual, MoveAll, TheWay, Handed, Prolonged, Traverses, SameKinds;
    var w := TheWay(cfg, s, gw, life, k, order, now);
    WayIsHanded(cfg, s, gw, life, k, order, now);
    WayIsOther(cfg, s, gw, life, k, order, now, y);
    InetMoved(cfg, s, gw, life, order[..k], now);
    WayUp(cfg, s, gw, life, k, order, now, y);
    ReviveShape(cfg, w.u, w.x, life, now);
    SameRoute(w.u.routes[y], w.v.routes[y]);
    assert y in InetSet(w.v.routes);
    RestStays(cfg, s, gw, life, k, order, now);
  }

  lemma RestStays(cfg: Config, s: State, gw: Addr, life: nat, k: nat, order: seq<Addr>, now: Time)
    requires OnTheWay(cfg, s, gw, life, k, order, now)
    ensures InetSet(TheWay(cfg, s, gw, life, k, order, now).v.routes) <= InetSet(MoveAll(cfg, s, gw, life, order, now).routes)
  {
    hide UpdateInet, FirstDual, Rewrite, Revive, MoveReturns, MoveDual, MoveAll, TheWay, Handed, InetSet, SameKinds;
    var w := TheWay(cfg, s, gw, life, k, order, now);
    WayIsHanded(cfg, s, gw, life, k, order, now);
    DualHands(cfg, s, gw, life, order, now);
    DistinctParts(order, k);
    RestLands(cfg, w.v, gw, w.x, s.routes[gw].hops, life, order[k + 1..], now);
  }

  lemma GatewayStaysOut(cfg: Config, s: State, gw: Addr, life: nat, k: nat, order: seq<Addr>, now: Time)
    requires OnTheWay(cfg, s, gw, life, k, order, now)
    ensures gw !in InetSet(TheWay(cfg, s, gw, life, k, order, now).s1.routes)
    ensures gw !in InetSet(MoveAll(cfg, s, gw, life, order, now).routes)
  {
    hide UpdateInet, FirstDual, MoveReturns, MoveAll, TheWay, SameKinds;
    WayStays(cfg, s, gw, life, k, order, now);
    MoveLands(cfg, s, gw, life, order, now);
  }

  /** A set of table entries, counted along a traversal. */
  lemma SplitCount(order: seq<Addr>, k: nat, xs: set<Addr>, routes: map<Addr, Route>)
    requires Traverses(order, routes) && k < |order| && order[k] in xs && xs <= routes.Keys
    ensures |xs| == |Among(order[..k], xs)| + 1 + |Among(order[k + 1..], xs)|
  {
    var a, b := Among(order[..k], xs), Among(order[k + 1..], xs);
    DistinctParts(order, k);
    forall x | x in xs ensures x in a + {order[k]} + b {
      SplitOrder(order, k, x);
    }
    forall x | x in a ensures x !in b {
      SplitOrder(order, k, x);
    }
    assert xs == a + {order[k]} + b;
  }

  // ----- Sequence numbers

  /** An entry keeps a sequence number of 0 unless it goes down. */
  predicate ZeroAgain(s: State, s': State, z: Addr) {
    && z in s.routes && z in s'.routes
    && (s.routes[z].seqno == 0 && (s'.routes[z].valid || !s.routes[z].valid) ==> s'.routes[z].seqno == 0)
  }

  lemma PlainZero(cfg: Config, s: State, d: Addr, c: Change, now: Time, z: Addr)
    requires d in s.routes && z in s.routes && c.seqno == 0
    ensures ZeroAgain(s, UpdatePlain(cfg, s, d, c, now), z)
    ensures z == d ==> UpdatePlain(cfg, s, d, c, now).routes[z].seqno == 0
  {
    hide Rewrite, Revive, TakesDown;
    var s1, s2 := RewriteShape(cfg, s, d, c, now);
    var t := Rewrite(cfg, s, d, c, now);
    TakedownAt(cfg, s1, s2, z, now);
    if z == d {
      ReviveItself(cfg, t, d, c.lifetime, now);
    } else {
      ReviveLeaves(cfg, t, d, c.lifetime, now, z);
    }
  }

  /** A pass leaves 0 in every Internet destination that it moves, and where it was. */
  lemma {:induction false} PassZero(cfg: Config, s: State, gw: Addr, life: nat, order: seq<Addr>, now: Time, z: Addr)
    requires gw in s.routes && z in s.routes
    ensures var s' := UpdateInet(cfg, s, gw, life, order, now);
            && ((z in order || s.routes[z].seqno == 0) && InetActive(s'.routes, z) ==> s'.routes[z].seqno == 0)
            && (!s.routes[z].valid && s.routes[z].seqno == 0 ==> s'.routes[z].seqno == 0)
    decreases |order|
  {
    hide UpdatePlain;
    if order != [] {
      var init, x := order[..|order| - 1], order[|order| - 1];
      var s1 := UpdateInet(cfg, s, gw, life, init, now);
      assert order == init + [x];
      PassZero(cfg, s, gw, life, init, now, z);
      StaysInvalid(cfg, s, gw, life, init, now, z);
      if InetActive(s1.routes, x) {
        var c := Onto(s1.routes, gw, x, life);
        PlainZero(cfg, s1, x, c, now, z);
        PlainOthers(cfg, s1, x, c, now);
      }
    }
  }

  /** Every Internet destination that is VALID after rt_table_update_inet_rt has sequence number 0. */
  lemma MoveZero(cfg: Config, s: State, gw: Addr, life: nat, order: seq<Addr>, now: Time, z: Addr)
    requires gw in s.routes && MoveReturns(cfg, s, gw, life, order, now) && Traverses(order, s.routes)
    requires InetActive(MoveAll(cfg, s, gw, life, order, now).routes, z)
    ensures MoveAll(cfg, s, gw, life, order, now).routes[z].seqno == 0
  {
    hide UpdateInet, FirstDual, MoveDual;
    var k := FirstDual(cfg, s, gw, life, order, now);
    if k == |order| {
      PassZero(cfg, s, gw, life, order, now, z);
    } else {
      var s1 := UpdateInet(cfg, s, gw, life, order[..k], now);
      var v := MoveDual(cfg, s1, gw, life, order[k], order, now);
      DualZero(cfg, s1, gw, life, order[k], order, now, z);
      PassZero(cfg, v, gw, life, order[k + 1..], now, z);
      InetMoved(cfg, v, gw, life, order[k + 1..], now);
      assert z in InetSet(MoveAll(cfg, s, gw, life, order, now).routes);
      assert z in InetSet(v.routes);
    }
  }

  lemma DualZero(cfg: Config, s: State, gw: Addr, life: nat, x: Addr, order: seq<Addr>, now: Time, z: Addr)
    requires gw in s.routes && DualAt(s.routes, x) && z in s.routes && z in order
    requires Demotes(s.routes[x], Onto(s.routes, gw, x, life))
    ensures var v := MoveDual(cfg, s, gw, life, x, order, now); InetActive(v.routes, z) ==> v.routes[z].seqno == 0
  {
    hide UpdateInet, Rewrite, Revive;
    var t := Rewrite(cfg, s, x, Onto(s.routes, gw, x, life), now);
    var u := UpdateInet(cfg, t, x, life, order, now);
    RewriteRoot(cfg, s, x, Onto(s.routes, gw, x, life), now);
    PassZero(cfg, t, x, life, order, now, z);
    if z == x {
      ReviveItself(cfg, u, x, life, now);
    } else {
      ReviveLeaves(cfg, u, x, life, now, z);
    }
  }
}
