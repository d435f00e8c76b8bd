/** num_active over whole runs: how far it falls behind the number of VALID entries. */
module ActiveCount {
  import opened Basics
  import opened Route
  import opened DaemonSpec
  import opened Takedown
  import opened UpdateParts
  import opened Counting
  import opened GatewayMoves

  // ----- Updates of a gateway

  /** The update of a second gateway `x`: the demotions of its pass, and its own. */
  ghost function DualDemotions(cfg: Config, s: State, gw: Addr, life: nat, x: Addr, order: seq<Addr>, now: Time): nat
    requires gw in s.routes && x in s.routes
  {
    var s1 := Rewrite(cfg, s, x, Onto(s.routes, gw, x, life), now);
    InetDemotions(cfg, s1, x, life, order, now) +
    (if UpdateInet(cfg, s1, x, life, order, now).routes[x].valid then 0 else 1)
  }

  lemma DualSlack(cfg: Config, s: State, gw: Addr, life: nat, x: Addr, order: seq<Addr>, now: Time)
    requires gw in s.routes && x in s.routes && s.routes[x].valid
    ensures Slack(MoveDual(cfg, s, gw, life, x, order, now)) == Slack(s) + DualDemotions(cfg, s, gw, life, x, order, now)
  {
    hide Rewrite, Revive, UpdateInet, Slack;
    var c := Onto(s.routes, gw, x, life);
    RewriteSlack(cfg, s, x, c, now);
    var s1 := Rewrite(cfg, s, x, c, now);
    UpdateInetSlack(cfg, s1, x, life, order, now);
    ReviveSlack(cfg, UpdateInet(cfg, s1, x, life, order, now), x, life, now);
  }

  /** The demotions of VALID entries in rt_table_update_inet_rt. */
  ghost function MoveDemotions(cfg: Config, s: State, gw: Addr, life: nat, order: seq<Addr>, now: Time): nat
    requires gw in s.routes
  {
    var k := FirstDual(cfg, s, gw, life, order, now);
    if k == |order| then InetDemotions(cfg, s, gw, life, order, now) else
    var s1 := UpdateInet(cfg, s, gw, life, order[..k], now);
    InetDemotions(cfg, s, gw, life, order[..k], now) +
    DualDemotions(cfg, s1, gw, life, order[k], order, now) +
    InetDemotions(cfg, MoveDual(cfg, s1, gw, life, order[k], order, now), gw, life, order[k + 1..], now)
  }

  lemma MoveSlack(cfg: Config, s: State, gw: Addr, life: nat, order: seq<Addr>, now: Time)
    requires gw in s.routes
    ensures Slack(MoveAll(cfg, s, gw, life, order, now)) == Slack(s) + MoveDemotions(cfg, s, gw, life, order, now)
  {
    hide UpdateInet, FirstDual, MoveDual, DualDemotions, InetDemotions, Slack;
    var k := FirstDual(cfg, s, gw, life, order, now);
    if k == |order| {
      UpdateInetSlack(cfg, s, gw, life, order, now);
    } else {
      var s1 := UpdateInet(cfg, s, gw, life, order[..k], now);
      UpdateInetSlack(cfg, s, gw, life, order[..k], now);
      DualSlack(cfg, s1, gw, life, order[k], order, now);
      UpdateInetSlack(cfg, MoveDual(cfg, s1, gw, life, order[k], order, now), gw, life, order[k + 1..], now);
    }
  }

  lemma MoveKeepsInvalid(cfg: Config, s: State, gw: Addr, life: nat, order: seq<Addr>, now: Time)
    requires gw in s.routes && !s.routes[gw].valid
    ensures !MoveAll(cfg, s, gw, life, order, now).routes[gw].valid
  {
    hide UpdateInet, FirstDual, Rewrite, Revive, Bystander;
    var k := FirstDual(cfg, s, gw, life, order, now);
    if k == |order| {
      StaysInvalid(cfg, s, gw, life, order, now, gw);
    } else {
      var s1, x := UpdateInet(cfg, s, gw, life, order[..k], now), order[k];
      StaysInvalid(cfg, s, gw, life, order[..k], now, gw);
      var t := Rewrite(cfg, s1, x, Onto(s1.routes, gw, x, life), now);
      RewriteOthers(cfg, s1, x, Onto(s1.routes, gw, x, life), now);
      SameRoute(s1.routes[gw], t.routes[gw]);
      StaysInvalid(cfg, t, x, life, order, now, gw);
      var u := UpdateInet(cfg, t, x, life, order, now);
      ReviveShape(cfg, u, x, life, now);
      var v := Revive(cfg, u, x, life, now);
      SameRoute(u.routes[gw], v.routes[gw]);
      StaysInvalid(cfg, v, gw, life, order[k + 1..], now, gw);
    }
  }

  /** The VALID entries that an update takes down and brings back without counting them: those
      that the loop over the Internet destinations moves away from one hop, and the entry
      itself if it goes down on the way. */
  ghost function UpdateGap(cfg: Config, s: State, d: Addr, c: Change, order: seq<Addr>, now: Time): nat {
    if d !in s.routes then 0 else
    var s1 := Rewrite(cfg, s, d, c, now);
    if c.flags.gateway then
      MoveDemotions(cfg, s1, d, c.lifetime, order, now) +
      (if s.routes[d].valid && !MoveAll(cfg, s1, d, c.lifetime, order, now).routes[d].valid then 1 else 0)
    else if s.routes[d].valid && Demotes(s.routes[d], c) then 1 else 0
  }

  lemma UpdateSlack(cfg: Config, s: State, d: Addr, c: Change, order: seq<Addr>, now: Time)
    ensures Slack(Update(cfg, s, d, c, order, now)) == Slack(s) + UpdateGap(cfg, s, d, c, order, now)
  {
    hide Rewrite, Revive, UpdatePlain, MoveAll, MoveDemotions, Slack;
    if d in s.routes {
      if c.flags.gateway {
        var s1 := Rewrite(cfg, s, d, c, now);
        RewriteSlack(cfg, s, d, c, now);
        RewriteRoot(cfg, s, d, c, now);
        MoveSlack(cfg, s1, d, c.lifetime, order, now);
        if !s1.routes[d].valid {
          MoveKeepsInvalid(cfg, s1, d, c.lifetime, order, now);
        }
        ReviveSlack(cfg, MoveAll(cfg, s1, d, c.lifetime, order, now), d, c.lifetime, now);
      } else {
        UpdateIsPlain(cfg, s, d, c, order, now);
        UpdatePlainSlack(cfg, s, d, c, now);
      }
    }
  }

  /** A pass without demotions takes nothing down, and nothing in it was due to be demoted. */
  lemma {:induction false} UndemotedPass(cfg: Config, s: State, gw: Addr, life: nat, order: seq<Addr>, now: Time)
    requires gw in s.routes && InetDemotions(cfg, s, gw, life, order, now) == 0
    ensures var s' := UpdateInet(cfg, s, gw, life, order, now);
            && InetSet(s'.routes) == InetSet(s.routes)
            && (forall z :: z in s.routes && z !in order ==> Prolonged(s.routes[z], s'.routes[z]))
            && (forall z :: z in order && z in InetSet(s.routes) ==> !(s.routes[gw].hops > 1 && s.routes[z].hops == 1))
    decreases |order|
  {
    hide UpdatePlain, Prolonged, Bystander;
    if order != [] {
      var init, x := order[..|order| - 1], order[|order| - 1];
      UndemotedPass(cfg, s, gw, life, init, now);
      InetMoved(cfg, s, gw, life, init, now);
      var s1 := UpdateInet(cfg, s, gw, life, init, now);
      assert order == init + [x];
      assert x in InetSet(s1.routes) <==> x in InetSet(s.routes);
      if x in s.routes && x !in init {
        SameRoute(s.routes[x], s1.routes[x]);
      }
      if InetActive(s1.routes, x) {
        var c := Onto(s1.routes, gw, x, life);
        PlainOthers(cfg, s1, x, c, now);
        var s' := UpdatePlain(cfg, s1, x, c, now);
        forall z | z in s.routes ensures z in InetSet(s'.routes) <==> z in InetSet(s1.routes) {
          if z != x {
            SameRoute(s1.routes[z], s'.routes[z]);
          }
        }
        forall z | z in s.routes && z !in order ensures Prolonged(s.routes[z], s'.routes[z]) {
          ProlongedTwice(s.routes[z], s1.routes[z], s'.routes[z]);
        }
      }
    } else {
      forall z | z in s.routes ensures Prolonged(s.routes[z], s.routes[z]) {
        ProlongedTwice(s.routes[z], s.routes[z], s.routes[z]);
      }
    }
  }

  lemma ProlongedTwice(r: Route, r1: Route, r2: Route)
    ensures Prolonged(r, r)
    ensures Prolonged(r, r1) && Prolonged(r1, r2) ==> Prolonged(r, r2)
  {
  }

  /** Exactly when the update of a gateway leaves the counter alone: the gateway is not demoted
      and no one-hop Internet destination has to move away. */
  lemma GatewaySlackIff(cfg: Config, s: State, d: Addr, c: Change, order: seq<Addr>, now: Time)
    requires d in s.routes && c.flags.gateway && Returns(cfg, s, d, c, order, now) && Traverses(order, s.routes)
    ensures Slack(Update(cfg, s, d, c, order, now)) == Slack(s) <==>
      !(s.routes[d].valid && Demotes(s.routes[d], c)) && Quiet(Rewrite(cfg, s, d, c, now).routes, c.hops)
  {
    hide Rewrite, Update, MoveAll, MoveReturns, MoveDemotions, Slack, Quiet;
    var s1 := Rewrite(cfg, s, d, c, now);
    RewriteRoot(cfg, s, d, c, now);
    UpdateSlack(cfg, s, d, c, order, now);
    if s1.routes[d].valid == s.routes[d].valid {
      QuietIff(cfg, s1, d, c.lifetime, order, now);
    } else {
      MoveKeepsInvalid(cfg, s1, d, c.lifetime, order, now);
    }
  }

  lemma QuietIff(cfg: Config, s: State, gw: Addr, life: nat, order: seq<Addr>, now: Time)
    requires gw in s.routes && MoveReturns(cfg, s, gw, life, order, now) && Traverses(order, s.routes)
    ensures Quiet(s.routes, s.routes[gw].hops) <==> MoveDemotions(cfg, s, gw, life, order, now) == 0
    ensures Quiet(s.routes, s.routes[gw].hops) ==> MoveAll(cfg, s, gw, life, order, now).routes[gw].valid == s.routes[gw].valid
  {
    hide UpdateInet, FirstDual, Rewrite, MoveDual, Slack, Prolonged;
    var k := FirstDual(cfg, s, gw, life, order, now);
    if Quiet(s.routes, s.routes[gw].hops) {
      QuietReturnsIff(cfg, s, gw, life, order, now);
      NoDualPasses(cfg, s, gw, life, order, now);
      InetQuiet(cfg, s, gw, life, order, now);
      UpdateInetSlack(cfg, s, gw, life, order, now);
      assert !DualAt(s.routes, gw);
      QuietSparesGateway(cfg, s, gw, life, order, now);
    } else if k == |order| {
      if InetDemotions(cfg, s, gw, life, order, now) == 0 {
        UndemotedPass(cfg, s, gw, life, order, now);
      }
    } else {
      var s1 := UpdateInet(cfg, s, gw, life, order[..k], now);
      DualItself(cfg, s1, gw, life, order[k], order, now);
    }
  }

  lemma QuietSparesGateway(cfg: Config, s: State, gw: Addr, life: nat, order: seq<Addr>, now: Time)
    requires gw in s.routes && Quiet(s.routes, s.routes[gw].hops)
    ensures UpdateInet(cfg, s, gw, life, order, now).routes[gw].valid == s.routes[gw].valid
  {
    hide UpdateInet, Slack, Quiet, Prolonged;
    InetQuiet(cfg, s, gw, life, order, now);
    var s' := UpdateInet(cfg, s, gw, life, order, now);
    if gw in InetSet(s.routes) {
      assert gw in InetSet(s'.routes);
    } else {
      SameRoute(s.routes[gw], s'.routes[gw]);
    }
  }

  // ----- All steps

  lemma PutSlack(s: State, d: Addr, r: Route)
    requires d in s.routes && r.valid == s.routes[d].valid
    ensures Slack(Put(s, d, r)) == Slack(s)
  {
    assert ValidSet(Put(s, d, r).routes) == ValidSet(s.routes);
  }

  lemma InsertSlack(cfg: Config, s: State, d: Addr, c: Change, valid: bool, now: Time)
    ensures Slack(Insert(cfg, s, d, c, valid, now)) == Slack(s)
  {
    hide TouchPath;
    if d !in s.routes {
      var r := NewRoute(cfg, c, valid, now);
      ValidSetPut(s.routes, d, r);
      TouchPathProlongs(cfg, s.routes[d := r], d, now);
      ProlongsKeepsValid(s.routes[d := r], TouchPath(cfg, s.routes[d := r], d, now));
      ValidMember(s.routes, d);
    }
  }

  lemma DeleteSlack(s: State, d: Addr)
    ensures Slack(Delete(s, d)) == Slack(s)
  {
    if d in s.routes {
      assert ValidSet(s.routes - {d}) == ValidSet(s.routes) - {d};
      ValidMember(s.routes, d);
    }
  }

  lemma ExpireSlack(cfg: Config, s: State, d: Addr, now: Time)
    ensures Slack(Expire(cfg, s, d, now)) == Slack(s)
  {
    hide Invalidate, LinkBreak, Delete, Slack;
    if d in s.routes {
      var r := s.routes[d];
      var s1 := Put(s, d, r.(timer := r.timer.(used := false)));
      PutSlack(s, d, s1.routes[d]);
      LinkBreakTakesDown(cfg, s1, d, now);
      TakedownKeepsSlack(cfg, s1, LinkBreak(cfg, s1, d, now), now);
      InvalidateTakesDown(cfg, s1, d, now);
      var s2 := Invalidate(cfg, s1, d, now);
      TakedownKeepsSlack(cfg, s1, s2, now);
      PutSlack(s2, d, Forget(s2.routes[d]));
      DeleteSlack(s1, d);
      RepairTimeoutSlack(cfg, s1, d, now);
    }
  }

  lemma RepairTimeoutSlack(cfg: Config, s: State, d: Addr, now: Time)
    requires d in s.routes
    ensures Slack(RepairTimeout(cfg, s, d, now)) == Slack(s)
  {
    assert ValidSet(RepairTimeout(cfg, s, d, now).routes) == ValidSet(s.routes);
  }

  lemma HelloSlack(cfg: Config, s: State, d: Addr, localRepair: bool, now: Time)
    ensures Slack(HelloTimeout(cfg, s, d, localRepair, now)) == Slack(s)
  {
    hide LinkBreak, Slack;
    if d in s.routes {
      var s1 := Put(s, d, s.routes[d].(hello := false));
      PutSlack(s, d, s1.routes[d]);
      var r := s1.routes[d];
      var s2 := if localRepair && r.hops <= MAX_REPAIR_TTL then Put(s1, d, r.(flags := r.flags.(repair := true))) else s1;
      PutSlack(s1, d, r.(flags := r.flags.(repair := true)));
      LinkBreakTakesDown(cfg, s2, d, now);
      TakedownKeepsSlack(cfg, s2, LinkBreak(cfg, s2, d, now), now);
    }
  }

  lemma ReceiveSlack(cfg: Config, s: State, p: Packet, now: Time)
    ensures Slack(Receive(cfg, s, p, now)) == Slack(s)
  {
    hide Receive;
    ReceiveShape(cfg, s, p, now);
    var s', d := Receive(cfg, s, p, now), p.dest;
    if Prolongs(s.routes, s'.routes) {
      ProlongsKeepsValid(s.routes, s'.routes);
    } else {
      var routes := s.routes[d := WithExpire(s.routes[d])];
      ProlongsKeepsValid(routes, s'.routes);
      assert ValidSet(routes) == ValidSet(s.routes);
    }
  }

  ghost function Gap(cfg: Config, s: State, now: Time, step: Step): nat {
    match step
    case Updates(d, c, order) => UpdateGap(cfg, s, d, c, order, now)
    case _ => 0
  }

  /** Only an update lets the counter fall behind, by exactly the entries that it takes down and
      brings back.  No step lets it run ahead. */
  lemma StepSlack(cfg: Config, s: State, now: Time, step: Step)
    ensures Slack(Next(cfg, s, now, step)) == Slack(s) + Gap(cfg, s, now, step)
  {
    hide Invalidate, LinkBreak, Update, UpdateGap, UpdatePlain, Insert, Receive, Expire, HelloTimeout, Delete, RepairTimeout, Slack;
    match step
    case Receives(p) => ReceiveSlack(cfg, s, p, now);
    case Inserts(d, c, valid) => InsertSlack(cfg, s, d, c, valid, now);
    case Updates(d, c, order) => UpdateSlack(cfg, s, d, c, order, now);
    case Invalidates(d) =>
      InvalidateTakesDown(cfg, s, d, now);
      TakedownKeepsSlack(cfg, s, Invalidate(cfg, s, d, now), now);
    case Deletes(d) => DeleteSlack(s, d);
    case Expires(d) => ExpireSlack(cfg, s, d, now);
    case LinkBreaks(d) =>
      LinkBreakTakesDown(cfg, s, d, now);
      TakedownKeepsSlack(cfg, s, LinkBreak(cfg, s, d, now), now);
    case HelloFails(d, localRepair) => HelloSlack(cfg, s, d, localRepair, now);
    case SeekFails(d) => SeekFailedSlack(cfg, s, d, now);
    case HelloStarts(d) =>
      if d in s.routes {
        PutSlack(s, d, s.routes[d].(hello := true));
      }
    case AddsPrecursor(d, n) =>
      if d in s.routes {
        PutSlack(s, d, s.routes[d].(precursors := [n] + s.routes[d].precursors));
      }
    case Ticks => SameSlack(s, Collect(s, now));
  }

  lemma SameSlack(s: State, s': State)
    requires s'.routes == s.routes && s'.active == s.active
    ensures Slack(s') == Slack(s)
  {
  }

  lemma SeekFailedSlack(cfg: Config, s: State, d: Addr, now: Time)
    ensures Slack(SeekFailed(cfg, s, d, now)) == Slack(s)
  {
    hide RepairTimeout, Slack;
    if d in s.seeking {
      var s1 := DropFor(s, d).(seeking := s.seeking - {d});
      SameSlack(s, s1);
      if d in s.routes {
        RepairTimeoutSlack(cfg, s1, d, now);
      }
    }
  }

  /** All of them in a run. */
  ghost function Gaps(cfg: Config, steps: seq<Timed>): nat {
    if steps == [] then 0 else
    var init, last := steps[..|steps| - 1], steps[|steps| - 1];
    Gaps(cfg, init) + Gap(cfg, Run(cfg, init), last.now, last.step)
  }

  /** In every run num_active is behind the number of VALID entries by exactly the entries that
      were taken down and brought back inside an update; so it is never ahead, and right if and
      only if there was none. */
  lemma {:induction false} RunSlack(cfg: Config, steps: seq<Timed>)
    ensures |ValidSet(Run(cfg, steps).routes)| - Run(cfg, steps).active == Gaps(cfg, steps)
  {
    hide Next, Gap;
    if steps == [] {
      assert ValidSet(Run(cfg, steps).routes) == {};
    } else {
      var init, last := steps[..|steps| - 1], steps[|steps| - 1];
      RunSlack(cfg, init);
      StepSlack(cfg, Run(cfg, init), last.now, last.step);
    }
  }
}
