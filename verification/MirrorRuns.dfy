/** The kernel's routes over whole runs. */
module MirrorRuns {
  import opened Basics
  import opened Route
  import opened DaemonSpec
  import opened GatewayChains
  import opened Takedown
  import opened UpdateParts
  import opened Counting
  import opened GatewayMoves
  import opened Timers
  import opened Lifetimes
  import opened Mirror
  import opened GatewayMirror

  // ----- Steps that are no updates

  lemma InsertMirror(cfg: Config, s: State, d: Addr, c: Change, valid: bool, now: Time)
    requires Mirrored(s)
    ensures Mirrored(Insert(cfg, s, d, c, valid, now))
  {
    hide Insert;
    InsertRoutes(cfg, s, d, c, valid, now);
    InsertKernel(cfg, s, d, c, valid, now);
    var s' := Insert(cfg, s, d, c, valid, now);
    if d !in s.routes {
      var routes := s.routes[d := NewRoute(cfg, c, valid, now)];
      forall x: Addr ensures MirrorAt(s', x) {
        assert MirrorAt(s, x) && MirrorAt(s, d);
        assert x in routes ==> Prolonged(routes[x], s'.routes[x]);
      }
    }
  }

  lemma InsertKernel(cfg: Config, s: State, d: Addr, c: Change, valid: bool, now: Time)
    ensures Insert(cfg, s, d, c, valid, now).kernel ==
            if valid && d !in s.routes then AddRoute(s.kernel, d, c.next, c.hops) else s.kernel
  {
    hide Matching, Others, TouchPath;
  }

  lemma TakedownMirrors(cfg: Config, s: State, s': State, now: Time)
    requires TakesDown(cfg, s, s', now) && Mirrored(s)
    ensures Mirrored(s')
  {
    hide TakesDown, MirrorAt;
    forall x: Addr ensures MirrorAt(s', x) {
      TakedownMirror(cfg, s, s', now, x);
    }
  }

  /** Changes to an entry that leave its state, next hop and distance alone. */
  lemma PutMirror(s: State, d: Addr, r: Route)
    requires Mirrored(s) && d in s.routes
    requires r.valid == s.routes[d].valid && r.nextHop == s.routes[d].nextHop && r.hops == s.routes[d].hops
    ensures Mirrored(Put(s, d, r))
  {
    forall x: Addr ensures MirrorAt(Put(s, d, r), x) {
      assert MirrorAt(s, x);
    }
  }

  lemma DeleteMirror(s: State, d: Addr)
    requires Mirrored(s)
    ensures Mirrored(Delete(s, d))
  {
    assert MirrorAt(s, d);
    forall x: Addr ensures MirrorAt(Delete(s, d), x) {
      assert MirrorAt(s, x);
    }
  }

  /** The end of a repair keeps the mirror exactly if the entry is INVALID. */
  lemma RepairTimeoutMirror(cfg: Config, s: State, d: Addr, now: Time)
    requires Mirrored(s) && d in s.routes
    ensures Mirrored(RepairTimeout(cfg, s, d, now)) <==> !s.routes[d].valid
  {
    var s' := RepairTimeout(cfg, s, d, now);
    assert MirrorAt(s, d);
    forall x: Addr | !s.routes[d].valid || x != d ensures MirrorAt(s', x) {
      assert MirrorAt(s, x);
    }
    if s.routes[d].valid {
      var r := s.routes[d];
      assert Without(s.kernel[d], r.nextHop, r.hops) == map[];
      assert !MirrorAt(s', d);
    }
  }

  lemma ExpireMirror(cfg: Config, s: State, d: Addr, now: Time)
    requires Mirrored(s) && TimedAs(s, d, Loose)
    ensures Mirrored(Expire(cfg, s, d, now))
  {
    hide Invalidate, LinkBreak, Delete, RepairTimeout, Mirrored;
    if d in s.routes {
      var r := s.routes[d];
      var s1 := Put(s, d, r.(timer := r.timer.(used := false)));
      PutMirror(s, d, s1.routes[d]);
      match r.timer.handler
      case RouteExpire =>
        if r.hops == 1 {
          LinkBreakTakesDown(cfg, s1, d, now);
          TakedownMirrors(cfg, s1, LinkBreak(cfg, s1, d, now), now);
        } else {
          InvalidateTakesDown(cfg, s1, d, now);
          var s2 := Invalidate(cfg, s1, d, now);
          TakedownMirrors(cfg, s1, s2, now);
          PutMirror(s2, d, Forget(s2.routes[d]));
        }
      case LocalRepair => RepairTimeoutMirror(cfg, s1, d, now);
      case RouteDelete => DeleteMirror(s1, d);
    }
  }

  lemma HelloMirror(cfg: Config, s: State, d: Addr, localRepair: bool, now: Time)
    requires Mirrored(s)
    ensures Mirrored(HelloTimeout(cfg, s, d, localRepair, now))
  {
    hide LinkBreak, Mirrored;
    if d in s.routes {
      var s1 := Put(s, d, s.routes[d].(hello := false));
      PutMirror(s, d, s1.routes[d]);
      var r := s1.routes[d];
      var s2 := if localRepair && r.hops <= MAX_REPAIR_TTL then Put(s1, d, r.(flags := r.flags.(repair := true))) else s1;
      PutMirror(s1, d, s2.routes[d]);
      assert Put(s1, d, s2.routes[d]) == s2;
      LinkBreakTakesDown(cfg, s2, d, now);
      TakedownMirrors(cfg, s2, LinkBreak(cfg, s2, d, now), now);
    }
  }

  lemma SeekFailedMirror(cfg: Config, s: State, d: Addr, now: Time)
    requires Mirrored(s)
    ensures Mirrored(SeekFailed(cfg, s, d, now)) <==> !Orphans(s, d)
  {
    hide RepairTimeout, Matching, Others;
    if d in s.seeking {
      var s1 := DropFor(s, d).(seeking := s.seeking - {d});
      forall x: Addr ensures MirrorAt(s1, x) {
        assert MirrorAt(s, x);
      }
      if d in s.routes {
        RepairTimeoutMirror(cfg, s1, d, now);
      }
    }
  }

  lemma ReceiveMirror(cfg: Config, s: State, p: Packet, now: Time)
    requires Mirrored(s)
    ensures Mirrored(Receive(cfg, s, p, now))
  {
    hide Receive;
    ReceiveShape(cfg, s, p, now);
    var s' := Receive(cfg, s, p, now);
    forall x: Addr ensures MirrorAt(s', x) {
      assert MirrorAt(s, x);
      if x in s.routes {
        var r := if Prolongs(s.routes, s'.routes) || x != p.dest then s.routes[x] else WithExpire(s.routes[x]);
        assert Prolonged(r, s'.routes[x]);
      }
    }
  }

  lemma SameMirror(s: State, s': State)
    requires Mirrored(s) && s'.routes == s.routes && s'.kernel == s.kernel
    ensures Mirrored(s')
  {
    forall x: Addr ensures MirrorAt(s', x) {
      assert MirrorAt(s, x);
    }
  }

  // ----- All steps

  /** The update keeps the kernel's routes. */
  ghost predicate Keeps(cfg: Config, s: State, d: Addr, c: Change, order: seq<Addr>, now: Time) {
    d in s.routes ==>
      && !Loses(s.routes[d], c)
      && (c.flags.gateway ==> LoopKeeps(cfg, Rewrite(cfg, s, d, c, now), d, c.lifetime, order, now))
  }

  /** Exactly when an update keeps the mirror. */
  lemma UpdateMirror(cfg: Config, s: State, d: Addr, c: Change, order: seq<Addr>, now: Time)
    requires Mirrored(s) && Genuine(cfg, s, now, Updates(d, c, order))
    ensures Mirrored(Update(cfg, s, d, c, order, now)) <==> Keeps(cfg, s, d, c, order, now)
  {
    hide Update, UpdatePlain, Rewrite, LoopKeeps, Loses, Mirrored, Returns, Traverses;
    if d !in s.routes {
      UpdateOfNothing(cfg, s, d, c, order, now);
    } else if c.flags.gateway {
      GatewayMirrorIff(cfg, s, d, c, order, now);
    } else {
      UpdateIsPlain(cfg, s, d, c, order, now);
      PlainMirror(cfg, s, d, c, now);
    }
  }

  /** The step keeps the kernel's routes. */
  ghost predicate Faithful(cfg: Config, s: State, now: Time, step: Step) {
    match step
    case Updates(d, c, order) => Keeps(cfg, s, d, c, order, now)
    case SeekFails(d) => !Orphans(s, d)
    case _ => true
  }

  /** Exactly when a step keeps the mirror. */
  lemma StepMirror(cfg: Config, s: State, now: Time, step: Step)
    requires Mirrored(s) && Genuine(cfg, s, now, step) && forall x :: x in s.routes ==> TimedAs(s, x, Loose)
    ensures Mirrored(Next(cfg, s, now, step)) <==> Faithful(cfg, s, now, step)
  {
    hide Mirrored, Keeps, Genuine, TimedAs, Orphans, Invalidate, LinkBreak, Update, Insert, Receive, Expire, HelloTimeout,
      SeekFailed, Collect, Delete;
    match step
    case Receives(p) => ReceiveMirror(cfg, s, p, now);
    case Inserts(d, c, valid) => InsertMirror(cfg, s, d, c, valid, now);
    case Updates(d, c, order) => UpdateMirror(cfg, s, d, c, order, now);
    case Invalidates(d) =>
      InvalidateTakesDown(cfg, s, d, now);
      TakedownMirrors(cfg, s, Invalidate(cfg, s, d, now), now);
    case Deletes(d) => DeleteMirror(s, d);
    case Expires(d) =>
      LooseAt(s, d);
      ExpireMirror(cfg, s, d, now);
    case LinkBreaks(d) =>
      LinkBreakTakesDown(cfg, s, d, now);
      TakedownMirrors(cfg, s, LinkBreak(cfg, s, d, now), now);
    case HelloFails(d, localRepair) => HelloMirror(cfg, s, d, localRepair, now);
    case SeekFails(d) => SeekFailedMirror(cfg, s, d, now);
    case HelloStarts(d) =>
      if d in s.routes {
        PutMirror(s, d, s.routes[d].(hello := true));
      }
    case AddsPrecursor(d, n) =>
      if d in s.routes {
        PutMirror(s, d, s.routes[d].(precursors := [n] + s.routes[d].precursors));
      }
    case Ticks =>
      CollectKeeps(s, now);
      SameMirror(s, Collect(s, now));
  }

  lemma LooseAt(s: State, d: Addr)
    requires forall x :: x in s.routes ==> TimedAs(s, x, Loose)
    ensures TimedAs(s, d, Loose)
  {
  }

  lemma CollectKeeps(s: State, now: Time)
    ensures Collect(s, now).routes == s.routes && Collect(s, now).kernel == s.kernel
  {
  }

  // ----- Whole runs

  ghost predicate FaithfulRun(cfg: Config, steps: seq<Timed>) {
    steps == [] ||
    (var init, last := steps[..|steps| - 1], steps[|steps| - 1];
     && FaithfulRun(cfg, init)
     && Genuine(cfg, Run(cfg, init), last.now, last.step) && Faithful(cfg, Run(cfg, init), last.now, last.step))
  }

  /** In every run whose updates keep the kernel's routes and whose failed searches fall on no
      VALID entry flagged for repair, the kernel has exactly the routes of the VALID entries. */
  lemma {:induction false} RunMirror(cfg: Config, steps: seq<Timed>)
    requires FaithfulRun(cfg, steps)
    ensures Mirrored(Run(cfg, steps))
  {
    if steps != [] {
      hide Next, TimedAs, Mirrored, Genuine, Faithful;
      var init, last := steps[..|steps| - 1], steps[|steps| - 1];
      RunMirror(cfg, init);
      RunLoose(cfg, init);
      StepMirror(cfg, Run(cfg, init), last.now, last.step);
    }
  }

  // ----- Runs in which it fails

  /** A neighbour is moved two hops away by way of itself. */
  const DemotionSteps: seq<Timed> := [
    Timed(0, Inserts(7, Change(7, 1, 0, 3000, Plain), true)),
    Timed(1, Updates(7, Change(7, 2, 0, 3000, Plain), [7]))]

  /** A route over next hop 0.0.0.0 gets a real next hop, at the same distance. */
  const NoHopSteps: seq<Timed> := [
    Timed(0, Inserts(7, Change(0, 2, 0, 3000, Plain), true)),
    Timed(1, Updates(7, Change(5, 2, 0, 3000, Plain), [7]))]

  /** A destination comes one hop nearer over the same next hop, and then its route breaks. */
  const NearerSteps: seq<Timed> := [
    Timed(0, Inserts(7, Change(5, 3, 0, 3000, Plain), true)),
    Timed(1, Updates(7, Change(5, 2, 0, 3000, Plain), [7])),
    Timed(2, Invalidates(7))]

  /** The only entry after a first step that inserts it. */
  lemma FirstInsert(c: Change, t: Timed)
    requires t == Timed(0, Inserts(7, c, true)) && c.lifetime == 3000 && c.seqno == 0 && c.flags == Plain
    ensures Run(Defaults, [t]) ==
      State(map[7 := Route(c.next, c.hops, 0, Plain, true, Timer(RouteExpire, true, 3000), false, [])],
            1, map[7 := map[c.hops := c.next]], [], [], {})
  {
    assert [t] == [] + [t];
    RunOneMore(Defaults, [], t);
  }

  /** The same entry updated. */
  lemma ThenUpdate(c: Change, u: Change, steps: seq<Timed>)
    requires steps == [Timed(0, Inserts(7, c, true)), Timed(1, Updates(7, u, [7]))]
    requires c.lifetime == 3000 && c.seqno == 0 && c.flags == Plain && u.flags == Plain
    ensures var s := Run(Defaults, steps);
            var r := Route(c.next, c.hops, 0, Plain, true, Timer(RouteExpire, true, 3000), false, []);
            && 7 in s.routes && s.routes[7].valid && s.routes[7].nextHop == u.next && s.routes[7].hops == u.hops
            && KernelOf(s, 7) == Told(map[c.hops := c.next], r, u)
            && Slack(s) == if Demotes(r, u) then 1 else 0
  {
    hide Update, UpdatePlain, Told;
    var s := Run(Defaults, [steps[0]]);
    FirstInsert(c, steps[0]);
    assert steps == [steps[0]] + [steps[1]];
    RunOneMore(Defaults, [steps[0]], steps[1]);
    assert ValidSet(s.routes) == {7};
    UpdateIsPlain(Defaults, s, 7, u, [7], 1);
    PlainOthers(Defaults, s, 7, u, 1);
    PlainKernel(Defaults, s, 7, u, 1, 7);
    UpdatePlainSlack(Defaults, s, 7, u, 1);
  }

  /** Its entry is VALID, but the kernel has lost its route and the counter is one behind. */
  lemma DemotionRun()
    ensures var s := Run(Defaults, DemotionSteps);
            7 in s.routes && s.routes[7].valid && KernelOf(s, 7) == map[] && !MirrorAt(s, 7) && Slack(s) == 1
  {
    hide Run;
    ThenUpdate(Change(7, 1, 0, 3000, Plain), Change(7, 2, 0, 3000, Plain), DemotionSteps);
    assert map[1 := 7] - {1} == map[] && 2 in map[2 := 7];
    MirrorOfValid(Run(Defaults, DemotionSteps), 7);
  }

  /** The kernel still has the route over 0.0.0.0 and none over the next hop of the entry. */
  lemma NoHopRun()
    ensures var s := Run(Defaults, NoHopSteps);
            && 7 in s.routes && s.routes[7].valid && s.routes[7].nextHop == 5
            && KernelOf(s, 7) == map[2 := 0] && !MirrorAt(s, 7)
  {
    hide Run;
    ThenUpdate(Change(0, 2, 0, 3000, Plain), Change(5, 2, 0, 3000, Plain), NoHopSteps);
    MirrorOfValid(Run(Defaults, NoHopSteps), 7);
    assert map[2 := 0][2] != map[2 := 5][2];
  }

  /** The entry is INVALID, and the kernel keeps the route that it had at first. */
  lemma NearerRun()
    ensures var s := Run(Defaults, NearerSteps);
            7 in s.routes && !s.routes[7].valid && KernelOf(s, 7) == map[3 := 5] && !MirrorAt(s, 7)
  {
    hide Run, Invalidate, TakesDown;
    var t := NearerSteps;
    ThenUpdate(Change(5, 3, 0, 3000, Plain), Change(5, 2, 0, 3000, Plain), [t[0], t[1]]);
    assert t == [t[0], t[1]] + [t[2]];
    RunOneMore(Defaults, [t[0], t[1]], t[2]);
    var s := Run(Defaults, [t[0], t[1]]);
    InvalidateRoot(Defaults, s, 7, 2);
    InvalidateTakesDown(Defaults, s, 7, 2);
    TakedownKernel(Defaults, s, Invalidate(Defaults, s, 7, 2), 2, 7);
    assert KernelOf(Invalidate(Defaults, s, 7, 2), 7) == map[3 := 5];
    assert 3 in map[3 := 5];
  }
}
