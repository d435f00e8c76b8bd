/** How long an entry stays in the table after it has gone down. */
module Resting {
  import opened Basics
  import opened Route
  import opened DaemonSpec
  import opened GatewayChains
  import opened Takedown
  import opened UpdateParts
  import opened Traffic
  import opened Packets
  import opened Outcomes

  /** The timer of an entry that went down at `now`. */
  predicate RestsFrom(cfg: Config, r: Route, now: Time) {
    r.timer == if r.flags.repair then Timer(LocalRepair, true, now + cfg.activeRouteTimeout)
               else Timer(RouteDelete, true, now + cfg.deletePeriod)
  }

  // ----- Who goes down in a step

  /** From `s` to `s'` the entry does not come up; if it goes down it rests from now on, and if it was
      down it rests as before. */
  predicate GoesToRest(cfg: Config, s: State, s': State, x: Addr, now: Time) {
    && x in s.routes && x in s'.routes
    && var r, r' := s.routes[x], s'.routes[x];
    && (r'.valid ==> r.valid)
    && (!r'.valid ==> if r.valid then RestsFrom(cfg, r', now) else r'.timer == r.timer && r'.flags == r.flags)
  }

  lemma RestTwice(cfg: Config, s: State, s1: State, s2: State, x: Addr, now: Time)
    requires GoesToRest(cfg, s, s1, x, now) && GoesToRest(cfg, s1, s2, x, now)
    ensures GoesToRest(cfg, s, s2, x, now)
  {
  }

  lemma SameRest(cfg: Config, s: State, x: Addr, now: Time)
    requires x in s.routes
    ensures GoesToRest(cfg, s, s, x, now)
  {
  }

  lemma TakedownRests(cfg: Config, s: State, s': State, now: Time, x: Addr)
    requires TakesDown(cfg, s, s', now) && x in s.routes
    ensures GoesToRest(cfg, s, s', x, now)
  {
    hide TakesDown;
    TakedownAt(cfg, s, s', x, now);
  }

  lemma RewriteRests(cfg: Config, s: State, d: Addr, c: Change, now: Time, x: Addr)
    requires d in s.routes && x in s.routes && x != d
    ensures GoesToRest(cfg, s, Rewrite(cfg, s, d, c, now), x, now)
  {
    hide Rewrite, TakesDown;
    var s1, s2 := RewriteShape(cfg, s, d, c, now);
    TakedownRests(cfg, s1, s2, now, x);
  }

  lemma ReviveRests(cfg: Config, s: State, d: Addr, lifetime: nat, now: Time, x: Addr)
    requires d in s.routes && x in s.routes && x != d
    ensures GoesToRest(cfg, s, Revive(cfg, s, d, lifetime, now), x, now)
  {
    hide Revive;
    ReviveLeaves(cfg, s, d, lifetime, now, x);
  }

  lemma ReviveIsValid(cfg: Config, s: State, d: Addr, lifetime: nat, now: Time)
    requires d in s.routes
    ensures Revive(cfg, s, d, lifetime, now).routes[d].valid
  {
    hide Revive;
    ReviveItself(cfg, s, d, lifetime, now);
  }

  lemma PlainRests(cfg: Config, s: State, d: Addr, c: Change, now: Time, x: Addr)
    requires d in s.routes && s.routes[d].valid && x in s.routes
    ensures GoesToRest(cfg, s, UpdatePlain(cfg, s, d, c, now), x, now)
  {
    hide Rewrite, Revive, GoesToRest;
    var t := Rewrite(cfg, s, d, c, now);
    if x == d {
      ReviveIsValid(cfg, t, d, c.lifetime, now);
      ValidRests(cfg, s, UpdatePlain(cfg, s, d, c, now), d, now);
    } else {
      RewriteRests(cfg, s, d, c, now, x);
      ReviveRests(cfg, t, d, c.lifetime, now, x);
      RestTwice(cfg, s, t, UpdatePlain(cfg, s, d, c, now), x, now);
    }
  }

  lemma ValidRests(cfg: Config, s: State, s': State, x: Addr, now: Time)
    requires x in s.routes && x in s'.routes && s.routes[x].valid && s'.routes[x].valid
    ensures GoesToRest(cfg, s, s', x, now)
  {
  }

  lemma {:induction false} PassRests(cfg: Config, s: State, gw: Addr, life: nat, order: seq<Addr>, now: Time, x: Addr)
    requires gw in s.routes && x in s.routes
    ensures GoesToRest(cfg, s, UpdateInet(cfg, s, gw, life, order, now), x, now)
    decreases |order|
  {
    hide UpdatePlain, GoesToRest;
    if order == [] {
      SameRest(cfg, s, x, now);
    } else {
      var init, y := order[..|order| - 1], order[|order| - 1];
      PassRests(cfg, s, gw, life, init, now, x);
      var s1 := UpdateInet(cfg, s, gw, life, init, now);
      if InetActive(s1.routes, y) {
        PlainRests(cfg, s1, y, Onto(s1.routes, gw, y, life), now, x);
        RestTwice(cfg, s, s1, UpdateInet(cfg, s, gw, life, order, now), x, now);
      }
    }
  }

  lemma DualRests(cfg: Config, s: State, gw: Addr, life: nat, y: Addr, order: seq<Addr>, now: Time, x: Addr)
    requires gw in s.routes && y in s.routes && s.routes[y].valid && x in s.routes
    ensures GoesToRest(cfg, s, MoveDual(cfg, s, gw, life, y, order, now), x, now)
  {
    hide UpdateInet, Rewrite, Revive, GoesToRest;
    var t := Rewrite(cfg, s, y, Onto(s.routes, gw, y, life), now);
    var u := UpdateInet(cfg, t, y, life, order, now);
    var v := Revive(cfg, u, y, life, now);
    if x == y {
      ReviveIsValid(cfg, u, y, life, now);
      ValidRests(cfg, s, v, y, now);
    } else {
      RewriteRests(cfg, s, y, Onto(s.routes, gw, y, life), now, x);
      PassRests(cfg, t, y, life, order, now, x);
      ReviveRests(cfg, u, y, life, now, x);
      RestTwice(cfg, s, t, u, x, now);
      RestTwice(cfg, s, u, v, x, now);
    }
  }

  lemma MoveRests(cfg: Config, s: State, gw: Addr, life: nat, order: seq<Addr>, now: Time, x: Addr)
    requires gw in s.routes && x in s.routes
    ensures GoesToRest(cfg, s, MoveAll(cfg, s, gw, life, order, now), x, now)
  {
    hide UpdateInet, FirstDual, MoveDual, GoesToRest;
    var k := FirstDual(cfg, s, gw, life, order, now);
    if k == |order| {
      PassRests(cfg, s, gw, life, order, now, x);
    } else {
      var s1 := UpdateInet(cfg, s, gw, life, order[..k], now);
      var v := MoveDual(cfg, s1, gw, life, order[k], order, now);
      PassRests(cfg, s, gw, life, order[..k], now, x);
      DualRests(cfg, s1, gw, life, order[k], order, now, x);
      PassRests(cfg, v, gw, life, order[k + 1..], now, x);
      RestTwice(cfg, s, s1, v, x, now);
      RestTwice(cfg, s, v, MoveAll(cfg, s, gw, life, order, now), x, now);
    }
  }

  /** An update, of a gateway too, seen from another entry. */
  lemma UpdateRests(cfg: Config, s: State, d: Addr, c: Change, order: seq<Addr>, now: Time, x: Addr)
    requires x in s.routes && x != d
    ensures GoesToRest(cfg, s, Update(cfg, s, d, c, order, now), x, now)
  {
    hide Rewrite, Revive, MoveAll, GoesToRest;
    if d !in s.routes {
      SameRest(cfg, s, x, now);
    } else {
      var s1 := Rewrite(cfg, s, d, c, now);
      var s2 := if NewFlags(s.routes[d], c).gateway then MoveAll(cfg, s1, d, c.lifetime, order, now) else s1;
      RewriteRests(cfg, s, d, c, now, x);
      if s2 != s1 {
        MoveRests(cfg, s1, d, c.lifetime, order, now, x);
        RestTwice(cfg, s, s1, s2, x, now);
      }
      ReviveRests(cfg, s2, d, c.lifetime, now, x);
      RestTwice(cfg, s, s2, Update(cfg, s, d, c, order, now), x, now);
    }
  }

  lemma UpdatedIsValid(cfg: Config, s: State, d: Addr, c: Change, order: seq<Addr>, now: Time)
    requires d in s.routes
    ensures d in Update(cfg, s, d, c, order, now).routes && Update(cfg, s, d, c, order, now).routes[d].valid
  {
    hide Rewrite, Revive, MoveAll;
    var s1 := Rewrite(cfg, s, d, c, now);
    ReviveIsValid(cfg, if NewFlags(s.routes[d], c).gateway then MoveAll(cfg, s1, d, c.lifetime, order, now) else s1, d,
      c.lifetime, now);
  }

  /** The expiry of a timer. */
  lemma ExpireRests(cfg: Config, s: State, d: Addr, now: Time, x: Addr)
    requires x in s.routes && x in Expire(cfg, s, d, now).routes
    ensures var s' := Expire(cfg, s, d, now);
            && (s.routes[x].valid && !s'.routes[x].valid ==> RestsFrom(cfg, s'.routes[x], now))
            && (x != d ==> GoesToRest(cfg, s, s', x, now))
  {
    hide Expire, Hit, ForRepair, Reaches;
    if d !in s.routes {
      ExpireOfNothing(cfg, s, d, now);
    } else {
      ExpireOutcome(cfg, s, d, now);
      if s.routes[d].timer.handler == RouteExpire {
        ExpiredWasValid(cfg, s, d, now, x);
      }
    }
  }

  lemma ExpireOfNothing(cfg: Config, s: State, d: Addr, now: Time)
    requires d !in s.routes
    ensures Expire(cfg, s, d, now) == s
  {
  }

  lemma ExpiredWasValid(cfg: Config, s: State, d: Addr, now: Time, x: Addr)
    requires d in s.routes && x in s.routes
    ensures Hit(s.routes, d, x) ==> s.routes[x].valid
    ensures s.routes[d].valid && Reaches(s.routes, d, x) ==> s.routes[x].valid
  {
    hide Reaches;
    if s.routes[d].valid && Reaches(s.routes, d, x) && x != d {
      CascadeIsValid(s.routes, d, x);
    }
    if Hit(s.routes, d, x) && !(s.routes[d].valid && Reaches(s.routes, d, x)) {
      var b :| b in Dependents(s.routes, d) && Reaches(s.routes, b, x);
      if x != b {
        CascadeIsValid(s.routes, b, x);
      }
    }
  }

  lemma HelloRests(cfg: Config, s: State, d: Addr, localRepair: bool, now: Time, x: Addr)
    requires x in s.routes
    ensures var s' := HelloTimeout(cfg, s, d, localRepair, now);
            && x in s'.routes && (s'.routes[x].valid ==> s.routes[x].valid)
            && (s.routes[x].valid && !s'.routes[x].valid ==> RestsFrom(cfg, s'.routes[x], now))
            && (!s.routes[x].valid ==> s'.routes[x].timer == s.routes[x].timer && s'.routes[x].flags == s.routes[x].flags)
  {
    hide LinkBreak, TakesDown;
    if d in s.routes && s.routes[d].valid && !s.routes[d].flags.unidir {
      var s1 := s.(routes := s.routes[d := Unheard(s.routes[d], localRepair)]);
      HelloBreaks(cfg, s, d, localRepair, now);
      LinkBreakTakesDown(cfg, s1, d, now);
      TakedownRests(cfg, s1, LinkBreak(cfg, s1, d, now), now, x);
    }
  }

  /** An insertion takes nothing down. */
  lemma InsertRests(cfg: Config, s: State, d: Addr, c: Change, valid: bool, now: Time, x: Addr)
    requires x in s.routes
    ensures var s' := Insert(cfg, s, d, c, valid, now);
            && x in s'.routes && s'.routes[x].valid == s.routes[x].valid
            && (!s.routes[x].valid ==> s'.routes[x] == s.routes[x])
  {
    hide Insert;
    if d in s.routes {
      InsertRoutes(cfg, s, d, c, valid, now);
    } else {
      InsertOutcome(cfg, s, d, c, valid, now);
    }
  }

  /** Nor does a data packet. */
  lemma ReceiveRests(cfg: Config, s: State, p: Packet, now: Time, x: Addr)
    requires x in s.routes
    ensures var s' := Receive(cfg, s, p, now); x in s'.routes && s'.routes[x].valid == s.routes[x].valid
  {
    hide Receive;
    ReceiveShape(cfg, s, p, now);
    var s' := Receive(cfg, s, p, now);
    var r := if Prolongs(s.routes, s'.routes) || x != p.dest then s.routes[x] else WithExpire(s.routes[x]);
    assert Prolonged(r, s'.routes[x]);
  }

  /** Whatever takes a VALID entry down leaves it with its timer armed: to delete it after
      DELETE_PERIOD or, if it is flagged for repair, to give the repair up after
      ACTIVE_ROUTE_TIMEOUT. */
  lemma StepRests(cfg: Config, s: State, now: Time, step: Step, x: Addr)
    requires x in s.routes && s.routes[x].valid
    requires x in Next(cfg, s, now, step).routes && !Next(cfg, s, now, step).routes[x].valid
    ensures RestsFrom(cfg, Next(cfg, s, now, step).routes[x], now)
  {
    hide Invalidate, LinkBreak, Update, Insert, Receive, Expire, HelloTimeout, SeekFailed, TakesDown, RestsFrom;
    match step
    case Receives(p) => ReceiveRests(cfg, s, p, now, x);
    case Inserts(d, c, valid) => InsertRests(cfg, s, d, c, valid, now, x);
    case Updates(d, c, order) =>
      if x == d {
        UpdatedIsValid(cfg, s, d, c, order, now);
      } else {
        UpdateRests(cfg, s, d, c, order, now, x);
      }
    case Invalidates(d) =>
      InvalidateTakesDown(cfg, s, d, now);
      TakedownRests(cfg, s, Invalidate(cfg, s, d, now), now, x);
    case Deletes(d) =>
    case Expires(d) => ExpireRests(cfg, s, d, now, x);
    case LinkBreaks(d) =>
      LinkBreakTakesDown(cfg, s, d, now);
      TakedownRests(cfg, s, LinkBreak(cfg, s, d, now), now, x);
    case HelloFails(d, localRepair) => HelloRests(cfg, s, d, localRepair, now, x);
    case SeekFails(d) => SeekOutcome(cfg, s, d, now);
    case HelloStarts(d) =>
    case AddsPrecursor(d, n) =>
    case Ticks =>
  }

  // ----- How long it rests

  /** The entry is INVALID, not to be repaired, and due to be deleted at `at` at the earliest. */
  predicate Rests(s: State, x: Addr, at: Time) {
    && x in s.routes && !s.routes[x].valid && !s.routes[x].flags.repair
    && s.routes[x].timer.handler == RouteDelete && s.routes[x].timer.timeout >= at
  }

  /** Timers do not go off early. */
  predicate OnTime(s: State, now: Time, step: Step) {
    step.Expires? && step.d in s.routes ==> s.routes[step.d].timer.timeout <= now
  }

  /** The step asks for the entry itself to be revived or removed. */
  predicate Claims(step: Step, x: Addr) {
    (step.Updates? || step.Deletes?) && step.d == x
  }

  lemma ReceiveLetsRest(cfg: Config, s: State, p: Packet, now: Time, x: Addr, at: Time)
    requires Rests(s, x, at) && at <= now + cfg.deletePeriod
    ensures Rests(Receive(cfg, s, p, now), x, at)
  {
    hide Receive;
    if p.bypass {
      BypassOutcome(cfg, s, p, now);
    } else if x != p.dest {
      PacketRenews(cfg, s, p, now, x);
    } else {
      DestinationHeld(cfg, s, p, now);
    }
  }

  /** Nothing else shortens its rest: not packets, searches, link breaks or updates of others. */
  lemma RestGoesOn(cfg: Config, s: State, now: Time, step: Step, x: Addr, at: Time)
    requires Rests(s, x, at) && now < at <= now + cfg.deletePeriod && OnTime(s, now, step) && !Claims(step, x)
    ensures Rests(Next(cfg, s, now, step), x, at)
  {
    hide Invalidate, LinkBreak, Update, Insert, Receive, Expire, HelloTimeout, SeekFailed, TakesDown, RestsFrom;
    match step
    case Receives(p) => ReceiveLetsRest(cfg, s, p, now, x, at);
    case Inserts(d, c, valid) => InsertRests(cfg, s, d, c, valid, now, x);
    case Updates(d, c, order) => UpdateRests(cfg, s, d, c, order, now, x);
    case Invalidates(d) =>
      InvalidateTakesDown(cfg, s, d, now);
      TakedownRests(cfg, s, Invalidate(cfg, s, d, now), now, x);
    case Deletes(d) =>
    case Expires(d) =>
      if d in s.routes {
        ExpireOutcome(cfg, s, d, now);
      } else {
        ExpireOfNothing(cfg, s, d, now);
      }
      ExpireRests(cfg, s, d, now, x);
    case LinkBreaks(d) =>
      LinkBreakTakesDown(cfg, s, d, now);
      TakedownRests(cfg, s, LinkBreak(cfg, s, d, now), now, x);
    case HelloFails(d, localRepair) => HelloRests(cfg, s, d, localRepair, now, x);
    case SeekFails(d) => SeekOutcome(cfg, s, d, now);
    case HelloStarts(d) =>
    case AddsPrecursor(d, n) =>
    case Ticks =>
  }

  /** No timer goes off early in this run. */
  ghost predicate Punctual(cfg: Config, steps: seq<Timed>) {
    steps == [] ||
    (var init, last := steps[..|steps| - 1], steps[|steps| - 1];
     Punctual(cfg, init) && OnTime(Run(cfg, init), last.now, last.step))
  }

  /** The step at `from` takes down the VALID entry `x`, which is not to be repaired. */
  ghost predicate FallsAt(cfg: Config, steps: seq<Timed>, from: nat, x: Addr)
    requires from < |steps|
  {
    var s, s' := Run(cfg, steps[..from]), Run(cfg, steps[..from + 1]);
    && x in s.routes && s.routes[x].valid
    && x in s'.routes && !s'.routes[x].valid && !s'.routes[x].flags.repair
  }

  /** In every run with a clock that does not go back and timers that do not go off early, an entry
      that went down without being marked for repair stays in the table for DELETE_PERIOD, unless it
      is updated or deleted by name. */
  lemma {:induction false} RestsForDeletePeriod(cfg: Config, steps: seq<Timed>, start: Time, from: nat, x: Addr)
    requires Clocked(steps, start) && Punctual(cfg, steps) && from < |steps| && FallsAt(cfg, steps, from, x)
    requires forall i :: from < i < |steps| ==> !Claims(steps[i].step, x)
    requires forall i :: from < i < |steps| ==> steps[i].now < steps[from].now + cfg.deletePeriod
    ensures Rests(Run(cfg, steps), x, steps[from].now + cfg.deletePeriod)
    decreases |steps|
  {
    hide Next, OnTime, Claims;
    var n := |steps| - 1;
    var init, last := steps[..n], steps[n];
    if from == n {
      assert steps[..from + 1] == steps;
      StepRests(cfg, Run(cfg, init), last.now, last.step, x);
    } else {
      assert init[..from] == steps[..from] && init[..from + 1] == steps[..from + 1];
      RestsForDeletePeriod(cfg, init, start, from, x);
      RestGoesOn(cfg, Run(cfg, init), last.now, last.step, x, steps[from].now + cfg.deletePeriod);
    }
  }
}
