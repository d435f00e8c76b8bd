/** Expiry times.  An entry that stays VALID should never expire earlier than it would have; an
    update that takes it down on the way can break this, because it comes back with a lifetime
    of its own.  `StepLives` says exactly when.  And a data packet renews both routes it uses. */
module Lifetimes {
  import opened Basics
  import opened Route
  import opened DaemonSpec
  import opened Takedown
  import opened UpdateParts
  import opened GatewayMoves
  import opened GatewayOwn
  import opened Timers

  predicate ValidAt(s: State, x: Addr) {
    x in s.routes && s.routes[x].valid
  }

  /** If `x` is VALID before and after, it expires no earlier after. */
  predicate LivesOn(s: State, s': State, x: Addr) {
    ValidAt(s, x) && ValidAt(s', x) ==> s'.routes[x].timer.timeout >= s.routes[x].timer.timeout
  }

  // ----- A plain update

  function Later(t: Time, at: Time, yes: bool): Time {
    if yes && t < at then at else t
  }

  /** What the lifetime of an entry that fell as `r` starts from: an ordinary one takes the
      lifetime of the update, an Internet destination keeps the timer with which it fell. */
  function Reborn(cfg: Config, r: Route, c: Change, now: Time): Time {
    now + if c.flags.inetDest then RestTime(cfg, r.flags) else c.lifetime
  }

  /** When the VALID entry `r` expires after an update; `sought` says that packets waited for it. */
  function UpdatedTimer(cfg: Config, r: Route, c: Change, now: Time, sought: bool): Time {
    var t := if Demotes(r, c) then Reborn(cfg, r, c, now)
             else Later(r.timer.timeout, now + c.lifetime, !c.flags.inetDest);
    Later(t, now + cfg.activeRouteTimeout, sought)
  }

  lemma PlainTimer(cfg: Config, s: State, d: Addr, c: Change, now: Time)
    requires d in s.routes && s.routes[d].valid
    ensures UpdatePlain(cfg, s, d, c, now).routes[d].timer.timeout ==
            UpdatedTimer(cfg, s.routes[d], c, now, d in s.seeking)
  {
    hide Rewrite, Revive, TakesDown;
    var s1, s2 := RewriteShape(cfg, s, d, c, now);
    var t := Rewrite(cfg, s, d, c, now);
    if Demotes(s.routes[d], c) {
      RewriteDemoted(cfg, s, d, c, now);
    }
    TakedownSeeks(cfg, s1, s2, now);
    RewriteRoot(cfg, s, d, c, now);
    ReviveItself(cfg, t, d, c.lifetime, now);
  }

  /** An update leaves every other VALID entry but its next hop exactly as it was, and an INVALID
      one with its timer. */
  lemma PlainLeaves(cfg: Config, s: State, d: Addr, c: Change, now: Time, z: Addr)
    requires d in s.routes && z in s.routes && z != d
    ensures var s' := UpdatePlain(cfg, s, d, c, now);
            && s'.seeking == s.seeking - {d}
            && (s'.routes[z].valid && z != c.next ==> s'.routes[z] == s.routes[z])
            && (!s.routes[z].valid ==> !s'.routes[z].valid && s'.routes[z].timer == s.routes[z].timer)
  {
    hide Rewrite, Revive;
    RewriteLeaves(cfg, s, d, c, now, z);
    RewriteRoot(cfg, s, d, c, now);
    PlainSeeks(cfg, s, d, c, now);
    ReviveLeaves(cfg, Rewrite(cfg, s, d, c, now), d, c.lifetime, now, z);
  }

  // ----- The loop over the Internet destinations

  /** An INVALID entry keeps its timer through the loop. */
  lemma {:induction false} InvalidTimer(cfg: Config, s: State, gw: Addr, life: nat, order: seq<Addr>, now: Time, z: Addr)
    requires gw in s.routes && z in s.routes && !s.routes[z].valid
    ensures var s' := UpdateInet(cfg, s, gw, life, order, now);
            !s'.routes[z].valid && s'.routes[z].timer == s.routes[z].timer && (z in s'.seeking <==> z in s.seeking)
    decreases |order|
  {
    hide UpdatePlain;
    if order != [] {
      var init, x := order[..|order| - 1], order[|order| - 1];
      InvalidTimer(cfg, s, gw, life, init, now, z);
      var s1 := UpdateInet(cfg, s, gw, life, init, now);
      if InetActive(s1.routes, x) {
        PlainLeaves(cfg, s1, x, Onto(s1.routes, gw, x, life), now, z);
      }
    }
  }

  /** What the loop makes of the VALID entry `r` for `y`, other than the gateway itself: an
      Internet destination that it has passed is updated once, everything else stays. */
  predicate Passed(cfg: Config, s: State, s': State, y: Addr, hops: nat, passed: bool, now: Time)
    requires y in s.routes && y in s'.routes
  {
    s'.routes[y].valid ==>
      if passed && InetActive(s.routes, y) then
        && s'.routes[y].timer.timeout == MovedTimer(cfg, s.routes[y], hops, now, y in s.seeking)
        && s'.routes[y].hops == hops && s'.routes[y].flags == s.routes[y].flags && y !in s'.seeking
      else
        s'.routes[y] == s.routes[y] && (y in s'.seeking <==> y in s.seeking)
  }

  /** When a VALID Internet destination expires that is moved to a gateway `hops` away. */
  function MovedTimer(cfg: Config, r: Route, hops: nat, now: Time, sought: bool): Time {
    Later(if hops > 1 && r.hops == 1 then now + RestTime(cfg, r.flags) else r.timer.timeout, now + cfg.activeRouteTimeout, sought)
  }

  lemma PassedHere(cfg: Config, s: State, gw: Addr, life: nat, y: Addr, now: Time)
    requires gw in s.routes && InetActive(s.routes, y)
    ensures Passed(cfg, s, UpdatePlain(cfg, s, y, Onto(s.routes, gw, y, life), now), y, s.routes[gw].hops, true, now)
  {
    hide UpdatePlain;
    var c := Onto(s.routes, gw, y, life);
    PlainTimer(cfg, s, y, c, now);
    PlainOthers(cfg, s, y, c, now);
    PlainSeeks(cfg, s, y, c, now);
  }

  lemma {:induction false} InetTimer(cfg: Config, s: State, gw: Addr, life: nat, order: seq<Addr>, now: Time, y: Addr)
    requires gw in s.routes && y in s.routes && y != gw
    requires Distinct(order)
    ensures Passed(cfg, s, UpdateInet(cfg, s, gw, life, order, now), y, s.routes[gw].hops, y in order, now)
    decreases |order|
  {
    hide UpdatePlain, MovedTimer;
    if order != [] {
      var init, x := order[..|order| - 1], order[|order| - 1];
      InetTimer(cfg, s, gw, life, init, now, y);
      InetMoved(cfg, s, gw, life, init, now);
      var s1 := UpdateInet(cfg, s, gw, life, init, now);
      assert order == init + [x] && x !in init;
      if InetActive(s1.routes, x) {
        if x == y {
          PassedHere(cfg, s1, gw, life, y, now);
        } else {
          PlainLeaves(cfg, s1, x, Onto(s1.routes, gw, x, life), now, y);
          PlainOthers(cfg, s1, x, Onto(s1.routes, gw, x, life), now);
        }
      }
    }
  }

  /** Two updates in a row on behalf of gateways equally far away count as one. */
  lemma PassedTwice(cfg: Config, s: State, s1: State, s2: State, y: Addr, hops: nat, first: bool, second: bool, now: Time)
    requires y in s.routes && y in s1.routes && y in s2.routes && (s2.routes[y].valid ==> s1.routes[y].valid)
    requires Passed(cfg, s, s1, y, hops, first, now) && Passed(cfg, s1, s2, y, hops, second, now)
    ensures Passed(cfg, s, s2, y, hops, first || second, now)
  {
  }

  /** The update of a second gateway `x`, seen from another entry. */
  lemma DualPasses(cfg: Config, s: State, gw: Addr, life: nat, x: Addr, order: seq<Addr>, now: Time, y: Addr)
    requires gw in s.routes && DualAt(s.routes, x) && y in s.routes && y != x && y != gw && Traverses(order, s.routes)
    ensures var v := MoveDual(cfg, s, gw, life, x, order, now);
            Passed(cfg, s, v, y, s.routes[gw].hops, true, now) && (v.routes[y].valid ==> s.routes[y].valid)
  {
    hide UpdateInet, Rewrite, Revive, MovedTimer;
    var c := Onto(s.routes, gw, x, life);
    var t := Rewrite(cfg, s, x, c, now);
    RewriteLeaves(cfg, s, x, c, now, y);
    RewriteRoot(cfg, s, x, c, now);
    InetTimer(cfg, t, x, life, order, now, y);
    StaysInvalid(cfg, t, x, life, order, now, y);
    var u := UpdateInet(cfg, t, x, life, order, now);
    DualNextHop(cfg, s, gw, life, x, order, now);
    ReviveLeaves(cfg, u, x, life, now, y);
    ReviveShape(cfg, u, x, life, now);
  }

  /** The second gateway points at the gateway when its own pass is over, or at itself. */
  lemma DualNextHop(cfg: Config, s: State, gw: Addr, life: nat, x: Addr, order: seq<Addr>, now: Time)
    requires gw in s.routes && DualAt(s.routes, x)
    ensures var t := Rewrite(cfg, s, x, Onto(s.routes, gw, x, life), now);
            UpdateInet(cfg, t, x, life, order, now).routes[x].nextHop in {gw, x}
  {
    hide Rewrite, UpdateInet;
    RewriteRoot(cfg, s, x, Onto(s.routes, gw, x, life), now);
    PassNextHop(cfg, Rewrite(cfg, s, x, Onto(s.routes, gw, x, life), now), x, life, order, now, x);
  }

  lemma {:induction false} PassNextHop(cfg: Config, s: State, gw: Addr, life: nat, order: seq<Addr>, now: Time, z: Addr)
    requires gw in s.routes && z in s.routes
    ensures UpdateInet(cfg, s, gw, life, order, now).routes[z].nextHop in {s.routes[z].nextHop, gw}
    decreases |order|
  {
    hide UpdatePlain;
    if order != [] {
      var init, x := order[..|order| - 1], order[|order| - 1];
      PassNextHop(cfg, s, gw, life, init, now, z);
      var s1 := UpdateInet(cfg, s, gw, life, init, now);
      if InetActive(s1.routes, x) {
        PlainOthers(cfg, s1, x, Onto(s1.routes, gw, x, life), now);
      }
    }
  }

  /** The second gateway itself. */
  lemma DualTimer(cfg: Config, s: State, gw: Addr, life: nat, x: Addr, order: seq<Addr>, now: Time)
    requires gw in s.routes && DualAt(s.routes, x) && Demotes(s.routes[x], Onto(s.routes, gw, x, life))
    ensures Passed(cfg, s, MoveDual(cfg, s, gw, life, x, order, now), x, s.routes[gw].hops, true, now)
  {
    hide UpdateInet, Rewrite, Revive, Bystander;
    var c := Onto(s.routes, gw, x, life);
    var t := Rewrite(cfg, s, x, c, now);
    RewriteDemoted(cfg, s, x, c, now);
    RewriteRoot(cfg, s, x, c, now);
    RewriteSeeks(cfg, s, x, c, now);
    InvalidTimer(cfg, t, x, life, order, now, x);
    InetBystander(cfg, t, x, life, order, now, x);
    var u := UpdateInet(cfg, t, x, life, order, now);
    SameRoute(t.routes[x], u.routes[x]);
    PassAlone(cfg, t, x, life, order, now, x);
    ReviveItself(cfg, u, x, life, now);
    ReviveShape(cfg, u, x, life, now);
  }

  /** The loop up to and including a second gateway, seen from an entry other than the gateway. */
  lemma UpToDual(cfg: Config, s: State, gw: Addr, life: nat, k: nat, order: seq<Addr>, now: Time, y: Addr)
    requires gw in s.routes && y in s.routes && y != gw && Traverses(order, s.routes)
    requires MoveReturns(cfg, s, gw, life, order, now) && k == FirstDual(cfg, s, gw, life, order, now) < |order|
    ensures var v := MoveDual(cfg, UpdateInet(cfg, s, gw, life, order[..k], now), gw, life, order[k], order, now);
            Passed(cfg, s, v, y, s.routes[gw].hops, true, now) && (v.routes[y].valid ==> s.routes[y].valid)
  {
    hide UpdateInet, FirstDual, Rewrite, MoveDual, MovedTimer, Passed, InetSet, SameKinds, PointsAt;
    var s1, x := UpdateInet(cfg, s, gw, life, order[..k], now), order[k];
    InetTimer(cfg, s, gw, life, order[..k], now, y);
    StaysInvalid(cfg, s, gw, life, order[..k], now, y);
    InetMoved(cfg, s, gw, life, order[..k], now);
    if y == x {
      DualTimer(cfg, s1, gw, life, x, order, now);
    } else {
      DualPasses(cfg, s1, gw, life, x, order, now, y);
    }
    PassedTwice(cfg, s, s1, MoveDual(cfg, s1, gw, life, x, order, now), y, s.routes[gw].hops, y in order[..k], true, now);
  }

  /** rt_table_update_inet_rt as a whole. */
  lemma MovePasses(cfg: Config, s: State, gw: Addr, life: nat, order: seq<Addr>, now: Time, y: Addr)
    requires gw in s.routes && y in s.routes && y != gw
    requires MoveReturns(cfg, s, gw, life, order, now) && Traverses(order, s.routes)
    ensures var s' := MoveAll(cfg, s, gw, life, order, now);
            Passed(cfg, s, s', y, s.routes[gw].hops, true, now) && (s'.routes[y].valid ==> s.routes[y].valid)
  {
    hide UpdateInet, FirstDual, MoveDual, MoveReturns, MovedTimer, Passed, Handed, InetSet, SameKinds;
    var k := FirstDual(cfg, s, gw, life, order, now);
    if k == |order| {
      InetTimer(cfg, s, gw, life, order, now, y);
      StaysInvalid(cfg, s, gw, life, order, now, y);
    } else {
      var v, rest := MoveDual(cfg, UpdateInet(cfg, s, gw, life, order[..k], now), gw, life, order[k], order, now), order[k + 1..];
      UpToDual(cfg, s, gw, life, k, order, now, y);
      DualHands(cfg, s, gw, life, order, now);
      HandedGateway(v.routes, gw, order[k], s.routes[gw].hops);
      InetTimer(cfg, v, gw, life, rest, now, y);
      StaysInvalid(cfg, v, gw, life, rest, now, y);
      PassedTwice(cfg, s, v, UpdateInet(cfg, v, gw, life, rest, now), y, s.routes[gw].hops, true, y in rest, now);
    }
  }

  lemma HandedGateway(routes: map<Addr, Route>, gw: Addr, x: Addr, hops: nat)
    requires Handed(routes, gw, x, hops)
    ensures gw in routes && routes[gw].hops == hops
  {
  }

  // ----- The update of a gateway

  /** An entry other than the gateway that is VALID before and after. */
  lemma GatewayTimer(cfg: Config, s: State, d: Addr, c: Change, order: seq<Addr>, now: Time, y: Addr)
    requires d in s.routes && c.flags.gateway && Returns(cfg, s, d, c, order, now) && Traverses(order, s.routes)
    requires y != d && ValidAt(s, y) && ValidAt(Update(cfg, s, d, c, order, now), y)
    ensures Update(cfg, s, d, c, order, now).routes[y].timer.timeout ==
            Later(if InetActive(s.routes, y) then MovedTimer(cfg, s.routes[y], c.hops, now, y in s.seeking)
                  else s.routes[y].timer.timeout,
                  now + cfg.activeRouteTimeout, d in s.seeking && y == c.next)
  {
    hide Rewrite, Revive, MoveAll, MoveReturns, MovedTimer, Bystander;
    var s1 := Rewrite(cfg, s, d, c, now);
    RewriteRoot(cfg, s, d, c, now);
    RewriteLeaves(cfg, s, d, c, now, y);
    MovePasses(cfg, s1, d, c.lifetime, order, now, y);
    MoveSpares(cfg, s1, d, c.lifetime, order, now);
    var s2 := MoveAll(cfg, s1, d, c.lifetime, order, now);
    SameRoute(s1.routes[d], s2.routes[d]);
    ReviveLeaves(cfg, s2, d, c.lifetime, now, y);
  }

  /** The gateway itself.  If it fell it did so as it was, demoted, or in the loop with its new
      flags, perhaps marked for repair. */
  lemma GatewayOwnTimer(cfg: Config, s: State, d: Addr, c: Change, order: seq<Addr>, now: Time)
    requires d in s.routes && c.flags.gateway && Returns(cfg, s, d, c, order, now) && Traverses(order, s.routes) && ValidAt(s, d)
    ensures var r := MoveAll(cfg, Rewrite(cfg, s, d, c, now), d, c.lifetime, order, now).routes[d];
            var t := Update(cfg, s, d, c, order, now).routes[d].timer.timeout;
            if r.valid then t >= s.routes[d].timer.timeout
            else
              && t == Later(Reborn(cfg, if Demotes(s.routes[d], c) then s.routes[d] else r, c, now),
                            now + cfg.activeRouteTimeout, d in s.seeking)
              && (Demotes(s.routes[d], c) || r.flags == c.flags || r.flags == c.flags.(repair := true))
  {
    hide Rewrite, Revive, MoveAll, MoveReturns, Traverses;
    var s1 := Rewrite(cfg, s, d, c, now);
    RewriteRoot(cfg, s, d, c, now);
    RewriteSeeks(cfg, s, d, c, now);
    if Demotes(s.routes[d], c) {
      RewriteDemoted(cfg, s, d, c, now);
    } else {
      RewriteOwnTimer(cfg, s, d, c, now);
    }
    SameTraversal(order, s.routes, s1.routes);
    CoversAll(order, s1.routes);
    MoveSpares(cfg, s1, d, c.lifetime, order, now);
    MoveAlone(cfg, s1, d, c.lifetime, order, now);
    ReviveItself(cfg, MoveAll(cfg, s1, d, c.lifetime, order, now), d, c.lifetime, now);
  }

  lemma RewriteOwnTimer(cfg: Config, s: State, d: Addr, c: Change, now: Time)
    requires d in s.routes && !Demotes(s.routes[d], c)
    ensures Rewrite(cfg, s, d, c, now).routes[d].timer == s.routes[d].timer
  {
    hide Rewrite;
    var s1, s2 := RewriteShape(cfg, s, d, c, now);
  }

  /** The update makes the VALID entry `x` expire earlier: it takes `x` down and brings it back
      with less time than `x` had left. */
  ghost predicate UpdateShortens(cfg: Config, s: State, d: Addr, c: Change, order: seq<Addr>, now: Time, x: Addr)
    requires d in s.routes && x in s.routes
  {
    var old', renewed := s.routes[x].timer.timeout, now + cfg.activeRouteTimeout;
    if x == d && c.flags.gateway then
      var r := MoveAll(cfg, Rewrite(cfg, s, d, c, now), d, c.lifetime, order, now).routes[d];
      !r.valid && Later(Reborn(cfg, if Demotes(s.routes[d], c) then s.routes[d] else r, c, now), renewed, d in s.seeking) < old'
    else if x == d then
      Demotes(s.routes[d], c) && Later(Reborn(cfg, s.routes[d], c, now), renewed, d in s.seeking) < old'
    else
      && c.flags.gateway && InetActive(s.routes, x) && c.hops > 1 && s.routes[x].hops == 1
      && Later(now + RestTime(cfg, s.routes[x].flags), renewed, x in s.seeking || (d in s.seeking && x == c.next)) < old'
  }

  /** The update of a gateway has come back, and `order` is the order of the table. */
  ghost predicate Genuine(cfg: Config, s: State, now: Time, step: Step) {
    step.Updates? && step.c.flags.gateway && step.d in s.routes ==>
      Returns(cfg, s, step.d, step.c, step.order, now) && Traverses(step.order, s.routes)
  }

  lemma UpdateLives(cfg: Config, s: State, d: Addr, c: Change, order: seq<Addr>, now: Time, x: Addr)
    requires d in s.routes && Genuine(cfg, s, now, Updates(d, c, order))
    requires ValidAt(s, x) && ValidAt(Update(cfg, s, d, c, order, now), x)
    ensures Update(cfg, s, d, c, order, now).routes[x].timer.timeout >= s.routes[x].timer.timeout <==>
            !UpdateShortens(cfg, s, d, c, order, now, x)
  {
    hide Rewrite, Update, UpdatePlain, MoveAll, Returns, Traverses;
    if c.flags.gateway {
      if x == d {
        GatewayOwnTimer(cfg, s, d, c, order, now);
      } else {
        GatewayTimer(cfg, s, d, c, order, now, x);
      }
    } else {
      UpdateIsPlain(cfg, s, d, c, order, now);
      PlainTimerIff(cfg, s, d, c, now, x);
    }
  }

  /** An update that is none of a gateway. */
  lemma PlainTimerIff(cfg: Config, s: State, d: Addr, c: Change, now: Time, x: Addr)
    requires d in s.routes && ValidAt(s, x) && ValidAt(UpdatePlain(cfg, s, d, c, now), x)
    ensures UpdatePlain(cfg, s, d, c, now).routes[x].timer.timeout >= s.routes[x].timer.timeout <==>
            !(x == d && Demotes(s.routes[d], c) &&
              Later(Reborn(cfg, s.routes[d], c, now), now + cfg.activeRouteTimeout, d in s.seeking) < s.routes[d].timer.timeout)
  {
    hide UpdatePlain;
    if x == d {
      PlainTimer(cfg, s, d, c, now);
    } else {
      PlainOthers(cfg, s, d, c, now);
    }
  }

  // ----- All steps

  lemma TakedownLives(cfg: Config, s: State, s': State, now: Time, x: Addr)
    requires TakesDown(cfg, s, s', now)
    ensures LivesOn(s, s', x) && (ValidAt(s', x) ==> ValidAt(s, x))
  {
    if x in s.routes {
      TakedownAt(cfg, s, s', x, now);
    }
  }

  lemma LinkBreakLives(cfg: Config, s: State, d: Addr, now: Time, x: Addr)
    ensures LivesOn(s, LinkBreak(cfg, s, d, now), x)
  {
    hide LinkBreak;
    LinkBreakTakesDown(cfg, s, d, now);
    TakedownLives(cfg, s, LinkBreak(cfg, s, d, now), now, x);
  }

  lemma ExpireLives(cfg: Config, s: State, d: Addr, now: Time, x: Addr)
    requires TimedAs(s, d, Loose)
    ensures LivesOn(s, Expire(cfg, s, d, now), x)
  {
    hide Invalidate, LinkBreak, TakesDown;
    if d in s.routes {
      var r := s.routes[d];
      var s1 := Put(s, d, r.(timer := r.timer.(used := false)));
      if r.timer.handler == RouteExpire && r.hops == 1 {
        LinkBreakLives(cfg, s1, d, now, x);
      } else if r.timer.handler == RouteExpire {
        InvalidateTakesDown(cfg, s1, d, now);
        TakedownLives(cfg, s1, Invalidate(cfg, s1, d, now), now, x);
      }
    }
  }

  lemma HelloLives(cfg: Config, s: State, d: Addr, localRepair: bool, now: Time, x: Addr)
    ensures LivesOn(s, HelloTimeout(cfg, s, d, localRepair, now), x)
  {
    hide LinkBreak;
    if d in s.routes {
      var s1 := Put(s, d, s.routes[d].(hello := false));
      var r := s1.routes[d];
      var s2 := if localRepair && r.hops <= MAX_REPAIR_TTL then Put(s1, d, r.(flags := r.flags.(repair := true))) else s1;
      LinkBreakLives(cfg, s2, d, now, x);
    }
  }

  lemma ReceiveLives(cfg: Config, s: State, p: Packet, now: Time, x: Addr)
    ensures LivesOn(s, Receive(cfg, s, p, now), x)
  {
    hide Receive;
    ReceiveShape(cfg, s, p, now);
    var s' := Receive(cfg, s, p, now);
    if x in s'.routes {
      var r := if Prolongs(s.routes, s'.routes) || x != p.dest then s.routes[x] else WithExpire(s.routes[x]);
      assert Prolonged(r, s'.routes[x]);
    }
  }

  /** The step makes the VALID entry `x` expire earlier: an update that takes it down and brings
      it back, or a failed search on an entry flagged for repair that has more than
      DELETE_PERIOD left. */
  ghost predicate Shortens(cfg: Config, s: State, now: Time, step: Step, x: Addr)
    requires x in s.routes
  {
    match step
    case Updates(d, c, order) => d in s.routes && UpdateShortens(cfg, s, d, c, order, now, x)
    case SeekFails(d) => d == x && Orphans(s, d) && now + cfg.deletePeriod < s.routes[x].timer.timeout
    case _ => false
  }

  /** Exactly when an entry that stays VALID expires no earlier after a step. */
  lemma StepLives(cfg: Config, s: State, now: Time, step: Step, x: Addr)
    requires Genuine(cfg, s, now, step) && forall y :: y in s.routes ==> TimedAs(s, y, Loose)
    requires ValidAt(s, x) && ValidAt(Next(cfg, s, now, step), x)
    ensures Next(cfg, s, now, step).routes[x].timer.timeout >= s.routes[x].timer.timeout <==> !Shortens(cfg, s, now, step, x)
  {
    hide Invalidate, LinkBreak, Update, UpdateShortens, Genuine, Receive, Expire, HelloTimeout, TouchPath;
    match step
    case Receives(p) => ReceiveLives(cfg, s, p, now, x);
    case Inserts(d, c, valid) =>
      if d !in s.routes {
        var routes := s.routes[d := NewRoute(cfg, c, valid, now)];
        TouchPathProlongs(cfg, routes, d, now);
        assert x in routes ==> Prolonged(routes[x], TouchPath(cfg, routes, d, now)[x]);
      }
    case Updates(d, c, order) =>
      if d in s.routes {
        UpdateLives(cfg, s, d, c, order, now, x);
      } else {
        UpdateOfNothing(cfg, s, d, c, order, now);
      }
    case Invalidates(d) =>
      InvalidateTakesDown(cfg, s, d, now);
      TakedownLives(cfg, s, Invalidate(cfg, s, d, now), now, x);
    case Deletes(d) =>
    case Expires(d) => ExpireLives(cfg, s, d, now, x);
    case LinkBreaks(d) => LinkBreakLives(cfg, s, d, now, x);
    case HelloFails(d, localRepair) => HelloLives(cfg, s, d, localRepair, now, x);
    case SeekFails(d) =>
    case HelloStarts(d) =>
    case AddsPrecursor(d, n) =>
    case Ticks =>
  }

  // ----- Whole runs

  /** From step `from` on, `x` is VALID and no step makes it expire earlier. */
  ghost predicate Steady(cfg: Config, steps: seq<Timed>, from: nat, x: Addr)
    requires from <= |steps|
    decreases |steps|
  {
    && ValidAt(Run(cfg, steps), x)
    && (from < |steps| ==>
          var init, last := steps[..|steps| - 1], steps[|steps| - 1];
          && Steady(cfg, init, from, x)
          && Genuine(cfg, Run(cfg, init), last.now, last.step) && !Shortens(cfg, Run(cfg, init), last.now, last.step, x))
  }

  /** Over any such stretch of a run the expiry of the entry only moves later. */
  lemma {:induction false} LifeNeverShortens(cfg: Config, steps: seq<Timed>, from: nat, x: Addr)
    requires from <= |steps| && Steady(cfg, steps, from, x)
    ensures ValidAt(Run(cfg, steps[..from]), x)
    ensures Run(cfg, steps).routes[x].timer.timeout >= Run(cfg, steps[..from]).routes[x].timer.timeout
    decreases |steps|
  {
    hide Next, Shortens, Genuine;
    if from == |steps| {
      assert steps[..from] == steps;
    } else {
      var init, last := steps[..|steps| - 1], steps[|steps| - 1];
      assert init[..from] == steps[..from];
      LifeNeverShortens(cfg, init, from, x);
      RunLoose(cfg, init);
      StepLives(cfg, Run(cfg, init), last.now, last.step, x);
    }
  }

  /** A neighbour with nine seconds left is moved two hops away by an update with a lifetime of
      one second. */
  const ShorterSteps: seq<Timed> := [
    Timed(0, Inserts(7, Change(7, 1, 0, 9000, Plain), true)),
    Timed(1, Updates(7, Change(5, 2, 0, 1000, Plain), [7]))]

  /** Its entry is VALID before and after, and expires eight seconds earlier. */
  lemma ShorterRun()
    ensures var s, s' := Run(Defaults, ShorterSteps[..1]), Run(Defaults, ShorterSteps);
            && ValidAt(s, 7) && s.routes[7].timer.timeout == 9000
            && ValidAt(s', 7) && s'.routes[7].timer.timeout == 1001
  {
    hide Update, UpdatePlain;
    var t := ShorterSteps;
    var c := t[1].step.c;
    assert t[..1] == [] + [t[0]] && t == t[..1] + [t[1]];
    RunOneMore(Defaults, [], t[0]);
    var s := Run(Defaults, t[..1]);
    assert s.routes == map[7 := Route(7, 1, 0, Plain, true, Timer(RouteExpire, true, 9000), false, [])] && s.seeking == {};
    RunOneMore(Defaults, t[..1], t[1]);
    UpdateIsPlain(Defaults, s, 7, c, [7], 1);
    PlainTimer(Defaults, s, 7, c, 1);
    PlainOthers(Defaults, s, 7, c, 1);
  }
}
