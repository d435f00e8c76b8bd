/** The route timer as a state machine: which handler waits on which entry.

    An INVALID entry should always be on its way out: its timer is armed and will delete it, or
    end its repair if it is flagged for repair.  That is `ArmedAt`.  A packet that starts a
    local repair breaks it, because rreq_local_repair hands the timer back to
    route_expire_timeout; then the destination is being sought, and the end of the search
    settles the entry.  What remains true is `TimedAt`, and the one step that breaks even that
    is named by `Orphans`. */
module Timers {
  import opened Basics
  import opened Route
  import opened DaemonSpec
  import opened Takedown
  import opened UpdateParts

  /** Both delays are set; the defaults are 3000 and 15000, or 10000 and 10000. */
  predicate Settings(cfg: Config) {
    cfg.activeRouteTimeout > 0 && cfg.deletePeriod > 0
  }

  predicate TimedEntry(r: Route, sought: bool) {
    if r.valid then
      r.timer.handler == RouteExpire
    else
      (r.timer.used && r.timer.handler == RestHandler(r.flags)) || (r.flags.repair && sought)
  }

  /** With `Sought` a running search is an excuse, with `Strict` it is not; `Loose` only asks that
      no VALID entry is on the repair handler. */
  datatype Mode = Strict | Sought | Loose

  predicate TimedAs(s: State, x: Addr, mode: Mode) {
    x in s.routes ==>
      if mode.Loose? then s.routes[x].valid ==> s.routes[x].timer.handler != LocalRepair
      else TimedEntry(s.routes[x], mode.Sought? && x in s.seeking)
  }

  predicate TimedAt(s: State, x: Addr) {
    TimedAs(s, x, Sought)
  }

  /** A VALID entry is on the expiry handler; an INVALID one has its timer armed to end its
      repair, if it is flagged for repair, or to delete it. */
  predicate ArmedAt(s: State, x: Addr) {
    TimedAs(s, x, Strict)
  }

  /** A packet that starts the repair of an INVALID entry. */
  predicate Disarms(s: State, p: Packet) {
    !p.bypass && p.dest in s.routes && !s.routes[p.dest].valid && s.routes[p.dest].flags.repair && p.dest !in s.seeking
  }

  /** A failed search for an entry that is VALID and flagged for repair: the end of the repair
      then falls on an entry that needs none. */
  predicate Orphans(s: State, d: Addr) {
    d in s.seeking && d in s.routes && s.routes[d].valid && s.routes[d].flags.repair
  }

  lemma TakedownTimed(cfg: Config, s: State, s': State, x: Addr, now: Time, mode: Mode)
    requires TakesDown(cfg, s, s', now) && TimedAs(s, x, mode)
    ensures TimedAs(s', x, mode)
  {
    if x in s.routes {
      TakedownAt(cfg, s, s', x, now);
    }
  }

  lemma ProlongedTimed(r: Route, r': Route, sought: bool)
    requires Prolonged(r, r') && TimedEntry(r, sought)
    ensures TimedEntry(r', sought)
  {
  }

  lemma RewriteTimed(cfg: Config, s: State, d: Addr, c: Change, now: Time, x: Addr, mode: Mode)
    requires d in s.routes && TimedAs(s, x, mode) && x != d
    ensures TimedAs(Rewrite(cfg, s, d, c, now), x, mode)
  {
    hide Rewrite, TakesDown;
    var s1, s2 := RewriteShape(cfg, s, d, c, now);
    TakedownTimed(cfg, s1, s2, x, now, mode);
    TakedownSeeks(cfg, s1, s2, now);
  }

  lemma ReviveTimed(cfg: Config, s: State, d: Addr, lifetime: nat, now: Time, x: Addr, mode: Mode)
    requires d in s.routes && (TimedAs(s, x, mode) || x == d)
    ensures TimedAs(Revive(cfg, s, d, lifetime, now), x, mode)
  {
    hide Revive;
    ReviveShape(cfg, s, d, lifetime, now);
    var s' := Revive(cfg, s, d, lifetime, now);
    var r := Revived(s.routes[d], lifetime, now);
    if x == d {
      assert Prolonged(r, s'.routes[d]);
      ProlongedTimed(r, s'.routes[d], false);
    } else if x in s'.routes {
      assert Prolonged(s.routes[x], s'.routes[x]);
      if !mode.Loose? {
        ProlongedTimed(s.routes[x], s'.routes[x], mode.Sought? && x in s.seeking);
      }
    }
  }

  lemma {:induction false} InetTimed(cfg: Config, s: State, gw: Addr, life: nat, order: seq<Addr>, now: Time, x: Addr, mode: Mode)
    requires gw in s.routes && TimedAs(s, x, mode)
    ensures TimedAs(UpdateInet(cfg, s, gw, life, order, now), x, mode)
    decreases |order|
  {
    hide Rewrite, Revive, TimedEntry;
    if order != [] {
      var y := order[|order| - 1];
      InetTimed(cfg, s, gw, life, order[..|order| - 1], now, x, mode);
      var s1 := UpdateInet(cfg, s, gw, life, order[..|order| - 1], now);
      if InetActive(s1.routes, y) {
        var c := Onto(s1.routes, gw, y, life);
        if x != y {
          RewriteTimed(cfg, s1, y, c, now, x, mode);
        }
        ReviveTimed(cfg, Rewrite(cfg, s1, y, c, now), y, life, now, x, mode);
      }
    }
  }

  lemma MoveTimed(cfg: Config, s: State, gw: Addr, life: nat, order: seq<Addr>, now: Time, x: Addr, mode: Mode)
    requires gw in s.routes && TimedAs(s, x, mode)
    ensures TimedAs(MoveAll(cfg, s, gw, life, order, now), x, mode)
  {
    hide UpdateInet, FirstDual, Rewrite, Revive, TimedAs;
    var k := FirstDual(cfg, s, gw, life, order, now);
    if k == |order| {
      InetTimed(cfg, s, gw, life, order, now, x, mode);
    } else {
      var s1, y := UpdateInet(cfg, s, gw, life, order[..k], now), order[k];
      InetTimed(cfg, s, gw, life, order[..k], now, x, mode);
      var t := Rewrite(cfg, s1, y, Onto(s1.routes, gw, y, life), now);
      var u := UpdateInet(cfg, t, y, life, order, now);
      if x != y {
        RewriteTimed(cfg, s1, y, Onto(s1.routes, gw, y, life), now, x, mode);
        InetTimed(cfg, t, y, life, order, now, x, mode);
      }
      ReviveTimed(cfg, u, y, life, now, x, mode);
      InetTimed(cfg, Revive(cfg, u, y, life, now), gw, life, order[k + 1..], now, x, mode);
    }
  }

  lemma UpdateTimed(cfg: Config, s: State, d: Addr, c: Change, order: seq<Addr>, now: Time, x: Addr, mode: Mode)
    requires TimedAs(s, x, mode)
    ensures TimedAs(Update(cfg, s, d, c, order, now), x, mode)
  {
    hide Rewrite, Revive, MoveAll, TimedEntry;
    if d in s.routes {
      var s1 := Rewrite(cfg, s, d, c, now);
      var s2 := if NewFlags(s.routes[d], c).gateway then MoveAll(cfg, s1, d, c.lifetime, order, now) else s1;
      if x != d {
        RewriteTimed(cfg, s, d, c, now, x, mode);
        MoveTimed(cfg, s1, d, c.lifetime, order, now, x, mode);
      }
      ReviveTimed(cfg, s2, d, c.lifetime, now, x, mode);
    }
  }

  lemma InsertTimed(cfg: Config, s: State, d: Addr, c: Change, valid: bool, now: Time, x: Addr, mode: Mode)
    requires (mode.Loose? || Settings(cfg)) && TimedAs(s, x, mode)
    ensures TimedAs(Insert(cfg, s, d, c, valid, now), x, mode)
  {
    hide Insert;
    InsertRoutes(cfg, s, d, c, valid, now);
    InsertSeeks(cfg, s, d, c, valid, now);
    var s' := Insert(cfg, s, d, c, valid, now);
    if d !in s.routes && x in s'.routes {
      var routes := s.routes[d := NewRoute(cfg, c, valid, now)];
      assert Prolonged(routes[x], s'.routes[x]);
    }
  }

  lemma InsertSeeks(cfg: Config, s: State, d: Addr, c: Change, valid: bool, now: Time)
    ensures Insert(cfg, s, d, c, valid, now).seeking == s.seeking - (if valid && d !in s.routes then {d} else {})
  {
    hide Matching, Others, TouchPath;
  }

  lemma LinkBreakTimed(cfg: Config, s: State, d: Addr, now: Time, x: Addr, mode: Mode)
    requires TimedAs(s, x, mode)
    ensures TimedAs(LinkBreak(cfg, s, d, now), x, mode)
  {
    hide LinkBreak;
    LinkBreakTakesDown(cfg, s, d, now);
    TakedownTimed(cfg, s, LinkBreak(cfg, s, d, now), x, now, mode);
  }

  /** An expiring timer: its handler either moves the entry on and arms the timer again, or
      deletes the entry, or leaves an INVALID entry to the search it waits for. */
  lemma ExpireTimed(cfg: Config, s: State, d: Addr, now: Time, x: Addr, mode: Mode)
    requires forall y :: y in s.routes ==> TimedAs(s, y, mode)
    ensures TimedAs(Expire(cfg, s, d, now), x, mode)
  {
    hide Invalidate, LinkBreak;
    if d in s.routes {
      assert TimedAs(s, d, mode);
      var r := s.routes[d];
      var s1 := Put(s, d, r.(timer := r.timer.(used := false)));
      if x != d {
        assert TimedAs(s1, x, mode);
      }
      if r.timer.handler == RouteExpire {
        assert TimedAs(s1, d, mode);
        if r.hops == 1 {
          LinkBreakTimed(cfg, s1, d, now, x, mode);
        } else {
          InvalidateTakesDown(cfg, s1, d, now);
          TakedownTimed(cfg, s1, Invalidate(cfg, s1, d, now), x, now, mode);
        }
      }
    }
  }

  lemma HelloTimed(cfg: Config, s: State, d: Addr, localRepair: bool, now: Time, x: Addr, mode: Mode)
    requires TimedAs(s, x, mode)
    ensures TimedAs(HelloTimeout(cfg, s, d, localRepair, now), x, mode)
  {
    hide LinkBreak;
    if d in s.routes {
      var s1 := Put(s, d, s.routes[d].(hello := false));
      var r := s1.routes[d];
      var mark := localRepair && r.hops <= MAX_REPAIR_TTL;
      if r.valid && !r.flags.unidir {
        LinkBreakTimed(cfg, if mark then Put(s1, d, r.(flags := r.flags.(repair := true))) else s1, d, now, x, mode);
      }
    }
  }

  /** A packet leaves the timers in order, unless it disarms the entry of its destination. */
  lemma ReceiveTimed(cfg: Config, s: State, p: Packet, now: Time, x: Addr, mode: Mode)
    requires TimedAs(s, x, mode) && !(mode.Strict? && x == p.dest && Disarms(s, p))
    ensures TimedAs(Receive(cfg, s, p, now), x, mode)
  {
    hide Receive;
    ReceiveShape(cfg, s, p, now);
    var s' := Receive(cfg, s, p, now);
    if x in s'.routes {
      var r := if Prolongs(s.routes, s'.routes) || x != p.dest then s.routes[x] else WithExpire(s.routes[x]);
      assert Prolonged(r, s'.routes[x]);
    }
  }

  /** The packet that starts a repair hands the timer of the INVALID entry to
      route_expire_timeout. */
  lemma ReceiveDisarms(cfg: Config, s: State, p: Packet, now: Time)
    requires Disarms(s, p)
    ensures var s', d := Receive(cfg, s, p, now), p.dest;
            d in s'.routes && !s'.routes[d].valid && s'.routes[d].flags.repair && s'.routes[d].timer.handler == RouteExpire
  {
    hide RefreshForward, RefreshReverse, Enqueue, Hold;
    var d := p.dest;
    var routes := RefreshReverse(cfg, RefreshForward(cfg, s.routes, d, now), p.src, now);
    RefreshProlongs(cfg, s.routes, d, p.src, now);
    assert Prolonged(s.routes[d], routes[d]);
    var s1 := s.(log := s.log + [Arrived(p.id, d, p.bypass)], routes := routes);
    EnqueueShape(s1, p.id, d, now);
    var routes1 := routes[d := WithExpire(routes[d])];
    HoldProlongs(routes1, d, now);
    assert Prolonged(routes1[d], Hold(routes1, d, now)[d]);
  }

  /** The step takes the timer away from an entry that needs it. */
  predicate Untimes(s: State, step: Step, mode: Mode) {
    match step
    case SeekFails(d) => !mode.Loose? && Orphans(s, d)
    case Receives(p) => mode.Strict? && Disarms(s, p)
    case _ => false
  }

  lemma StepTimedAs(cfg: Config, s: State, now: Time, step: Step, mode: Mode)
    requires (mode.Loose? || Settings(cfg)) && forall x :: x in s.routes ==> TimedAs(s, x, mode)
    ensures var s' := Next(cfg, s, now, step);
            (forall x :: x in s'.routes ==> TimedAs(s', x, mode)) <==> !Untimes(s, step, mode)
  {
    hide Invalidate, LinkBreak, Update, Insert, Receive, Expire, HelloTimeout, TakesDown;
    var s' := Next(cfg, s, now, step);
    forall x | !Untimes(s, step, mode) ensures TimedAs(s', x, mode) {
      assert TimedAs(s, x, mode);
      match step
      case Receives(p) => ReceiveTimed(cfg, s, p, now, x, mode);
      case Inserts(d, c, valid) => InsertTimed(cfg, s, d, c, valid, now, x, mode);
      case Updates(d, c, order) => UpdateTimed(cfg, s, d, c, order, now, x, mode);
      case Invalidates(d) =>
        InvalidateTakesDown(cfg, s, d, now);
        TakedownTimed(cfg, s, s', x, now, mode);
      case Deletes(d) =>
      case Expires(d) => ExpireTimed(cfg, s, d, now, x, mode);
      case LinkBreaks(d) => LinkBreakTimed(cfg, s, d, now, x, mode);
      case HelloFails(d, localRepair) => HelloTimed(cfg, s, d, localRepair, now, x, mode);
      case SeekFails(d) =>
      case HelloStarts(d) =>
      case AddsPrecursor(d, n) =>
      case Ticks =>
    }
    if Untimes(s, step, mode) {
      if step.SeekFails? {
        assert !TimedAs(s', step.d, mode);
      } else {
        ReceiveDisarms(cfg, s, step.p, now);
        assert !TimedAs(s', step.p.dest, mode);
      }
    }
  }

  /** Exactly when a step leaves every timer armed as it should be: it is no packet that starts
      the repair of an INVALID entry, and no failed search on a VALID one flagged for repair. */
  lemma StepArmed(cfg: Config, s: State, now: Time, step: Step)
    requires Settings(cfg) && forall x :: x in s.routes ==> ArmedAt(s, x)
    ensures var s' := Next(cfg, s, now, step);
            (forall x :: x in s'.routes ==> ArmedAt(s', x)) <==>
              !(step.Receives? && Disarms(s, step.p)) && !(step.SeekFails? && Orphans(s, step.d))
  {
    hide Next, TimedAs, Disarms, Orphans;
    StepTimedAs(cfg, s, now, step, Strict);
  }

  /** Exactly when a step leaves every INVALID entry armed or being sought. */
  lemma StepTimed(cfg: Config, s: State, now: Time, step: Step)
    requires Settings(cfg) && forall x :: x in s.routes ==> TimedAt(s, x)
    ensures var s' := Next(cfg, s, now, step);
            (forall x :: x in s'.routes ==> TimedAt(s', x)) <==> !(step.SeekFails? && Orphans(s, step.d))
  {
    hide Next, TimedAs, Orphans;
    StepTimedAs(cfg, s, now, step, Sought);
  }

  // ----- Whole runs

  /** No failed search in this run falls on a VALID entry flagged for repair. */
  ghost predicate Settled(cfg: Config, steps: seq<Timed>) {
    steps == [] ||
    (var init, last := steps[..|steps| - 1], steps[|steps| - 1];
     Settled(cfg, init) && !(last.step.SeekFails? && Orphans(Run(cfg, init), last.step.d)))
  }

  /** Nor does a packet start a repair. */
  ghost predicate Unrepaired(cfg: Config, steps: seq<Timed>) {
    steps == [] ||
    (var init, last := steps[..|steps| - 1], steps[|steps| - 1];
     Unrepaired(cfg, init) && !(last.step.Receives? && Disarms(Run(cfg, init), last.step.p)))
  }

  /** In every run of the first kind every entry waits on the right handler or for a search. */
  lemma {:induction false} RunTimed(cfg: Config, steps: seq<Timed>)
    requires Settings(cfg) && Settled(cfg, steps)
    ensures forall x :: x in Run(cfg, steps).routes ==> TimedAt(Run(cfg, steps), x)
  {
    hide Next, TimedAt;
    if steps != [] {
      var last := steps[|steps| - 1];
      RunTimed(cfg, steps[..|steps| - 1]);
      StepTimed(cfg, Run(cfg, steps[..|steps| - 1]), last.now, last.step);
    }
  }

  /** In every run of both kinds every timer is armed as it should be. */
  lemma {:induction false} RunArmed(cfg: Config, steps: seq<Timed>)
    requires Settings(cfg) && Settled(cfg, steps) && Unrepaired(cfg, steps)
    ensures forall x :: x in Run(cfg, steps).routes ==> ArmedAt(Run(cfg, steps), x)
  {
    hide Next, ArmedAt, Disarms, Orphans;
    if steps != [] {
      var last := steps[|steps| - 1];
      RunArmed(cfg, steps[..|steps| - 1]);
      StepArmed(cfg, Run(cfg, steps[..|steps| - 1]), last.now, last.step);
    }
  }

  /** In every run whatsoever no VALID entry is on the repair handler. */
  lemma {:induction false} RunLoose(cfg: Config, steps: seq<Timed>)
    ensures forall x :: x in Run(cfg, steps).routes ==> TimedAs(Run(cfg, steps), x, Loose)
  {
    hide Next, TimedAs;
    if steps != [] {
      var last := steps[|steps| - 1];
      RunLoose(cfg, steps[..|steps| - 1]);
      StepTimedAs(cfg, Run(cfg, steps[..|steps| - 1]), last.now, last.step, Loose);
    }
  }

  // ----- Runs in which it fails

  const Defaults: Config := Config(3000, 15000, false)

  /** The flags of an ordinary entry, and with RT_REPAIR and RT_UNIDIR. */
  const Plain: Flags := Flags(false, false, false, false, false)
  const Repairing: Flags := Plain.(repair := true)
  const OneWay: Flags := Repairing.(unidir := true)

  /** A neighbour is heard once and then lost, with local repair on; then a packet for it comes in. */
  const RepairSteps: seq<Timed> := [
    Timed(0, Inserts(7, Change(7, 1, 0, 3000, Plain), true)),
    Timed(0, HelloStarts(7)),
    Timed(2100, HelloFails(7, true)),
    Timed(2200, Receives(Packet(1, 9, 7, false, false)))]

  lemma RepairHeard()
    ensures var r := Route(7, 1, 0, Plain, true, Timer(RouteExpire, true, 3000), true, []);
            Run(Defaults, RepairSteps[..2]) == State(map[7 := r], 1, map[7 := map[1 := 7]], [], [], {})
  {
    var t := RepairSteps;
    assert t[..1] == [] + [t[0]] && t[..2] == t[..1] + [t[1]];
    var r := Route(7, 1, 0, Plain, true, Timer(RouteExpire, true, 3000), false, []);
    RunOneMore(Defaults, [], t[0]);
    assert Run(Defaults, t[..1]) == State(map[7 := r], 1, map[7 := map[1 := 7]], [], [], {});
    RunOneMore(Defaults, t[..1], t[1]);
  }

  /** The link break that follows the lost HELLO. */
  lemma RepairLost(s: State)
    requires 7 in s.routes && s.routes[7].hops == 1 && s.routes[7].valid && s.routes[7].flags == Plain && 7 !in s.seeking
    ensures var s' := HelloTimeout(Defaults, s, 7, true, 2100);
            7 in s'.routes && !s'.routes[7].valid && s'.routes[7].flags.repair && 7 !in s'.seeking
  {
    hide LinkBreak, TakesDown;
    var r := s.routes[7].(hello := false, flags := Repairing);
    var s1 := Put(Put(s, 7, s.routes[7].(hello := false)), 7, r);
    var s2 := LinkBreak(Defaults, s1, 7, 2100);
    LinkBreakTakesDown(Defaults, s1, 7, 2100);
    TakedownSeeks(Defaults, s1, s2, 2100);
    TakedownAt(Defaults, s1, s2, 7, 2100);
  }

  /** The entry of the neighbour is INVALID and flagged for repair, but its timer is not that of
      the repair. */
  lemma RepairRun()
    ensures var s := Run(Defaults, RepairSteps);
            && 7 in s.routes && !s.routes[7].valid && s.routes[7].flags.repair
            && s.routes[7].timer.handler == RouteExpire && !ArmedAt(s, 7)
  {
    hide Run, Receive, HelloTimeout;
    var t := RepairSteps;
    RepairHeard();
    assert t[..3] == t[..2] + [t[2]] && t == t[..3] + [t[3]];
    RunOneMore(Defaults, t[..2], t[2]);
    RepairLost(Run(Defaults, t[..2]));
    RunOneMore(Defaults, t[..3], t[3]);
    ReceiveDisarms(Defaults, Run(Defaults, t[..3]), t[3].step.p, 2200);
  }

  /** A destination two hops away is heard directly, over a link in doubt, and not again: its
      VALID entry is flagged for repair.  Then it becomes a neighbour, its flags kept; a HELLO
      from it over a link in doubt adds RT_UNIDIR; a packet to it starts a repair; the repair
      fails. */
  const OrphanSteps: seq<Timed> := [
    Timed(0, Inserts(7, Change(5, 2, 0, 3000, Plain), true)),
    Timed(0, HelloStarts(7)),
    Timed(2100, HelloFails(7, true)),
    Timed(2200, Updates(7, Change(7, 1, 0, 3000, Repairing), [7])),
    Timed(2300, Updates(7, Change(7, 1, 0, 3000, OneWay), [7])),
    Timed(2400, Receives(Packet(1, 9, 7, false, false))),
    Timed(9000, SeekFails(7))]

  /** The state with this entry, while it is VALID and not sought. */
  function Orphan(next: Addr, hops: nat, flags: Flags, timeout: Time, kernel: map<nat, Addr>): State {
    State(map[7 := Route(next, hops, 0, flags, true, Timer(RouteExpire, true, timeout), false, [])],
          1, map[7 := kernel], [], [], {})
  }

  lemma OrphanHeard()
    ensures Run(Defaults, OrphanSteps[..3]) == Orphan(5, 2, Repairing, 3000, map[2 := 5])
  {
    var t := OrphanSteps;
    var s1 := Orphan(5, 2, Plain, 3000, map[2 := 5]);
    RunOneMore(Defaults, [], t[0]);
    assert t[..1] == [] + [t[0]] && t[..2] == t[..1] + [t[1]] && t[..3] == t[..2] + [t[2]];
    assert Run(Defaults, t[..1]) == s1;
    RunOneMore(Defaults, t[..1], t[1]);
    var s2 := Put(s1, 7, s1.routes[7].(hello := true));
    assert Run(Defaults, t[..2]) == s2;
    RunOneMore(Defaults, t[..2], t[2]);
    assert Put(s2, 7, s1.routes[7]) == s1;
  }

  lemma OrphanMoves(next: Addr, hops: nat, flags: Flags, timeout: Time, kernel: map<nat, Addr>, c: Change, now: Time)
    requires c.next == 7 && c.hops == 1 && c.seqno == 0 && c.lifetime == 3000 && !c.flags.inetDest && !c.flags.gateway
    requires next != 0 && timeout < now + 3000 && (next == 7 ==> 1 in kernel && kernel[1] == 7)
    ensures Update(Defaults, Orphan(next, hops, flags, timeout, kernel), 7, c, [7], now) ==
            Orphan(7, 1, c.flags, now + 3000, kernel[1 := 7])
  {
    hide Rewrite;
    var s := Orphan(next, hops, flags, timeout, kernel);
    UpdateIsPlain(Defaults, s, 7, c, [7], now);
    var s1, s2 := RewriteShape(Defaults, s, 7, c, now);
    assert kernel[1 := 7] == if next == 7 then kernel else kernel[1 := 7];
    assert s1.kernel == map[7 := kernel[1 := 7]];
    assert Rewrite(Defaults, s, 7, c, now).routes.Keys == {7};
    assert UpdatePlain(Defaults, s, 7, c, now).routes == Orphan(7, 1, c.flags, now + 3000, kernel[1 := 7]).routes;
  }

  lemma OrphanNeighbour()
    ensures Run(Defaults, OrphanSteps[..5]) == Orphan(7, 1, OneWay, 5300, map[2 := 5, 1 := 7])
  {
    hide Update;
    var t := OrphanSteps;
    assert t[..4] == t[..3] + [t[3]] && t[..5] == t[..4] + [t[4]];
    OrphanHeard();
    RunOneMore(Defaults, t[..3], t[3]);
    OrphanMoves(5, 2, Repairing, 3000, map[2 := 5], t[3].step.c, 2200);
    assert map[2 := 5][1 := 7] == map[2 := 5, 1 := 7] == map[2 := 5, 1 := 7][1 := 7];
    RunOneMore(Defaults, t[..4], t[4]);
    OrphanMoves(7, 1, Repairing, 5200, map[2 := 5, 1 := 7], t[4].step.c, 2300);
  }

  lemma OrphanSought()
    ensures var s' := Receive(Defaults, Orphan(7, 1, OneWay, 5300, map[2 := 5, 1 := 7]), Packet(1, 9, 7, false, false), 2400);
            && 7 in s'.seeking && s'.routes == map[7 := Arm(Orphan(7, 1, OneWay, 5300, map[2 := 5, 1 := 7]).routes[7], 8000)]
            && s'.kernel == map[7 := map[2 := 5, 1 := 7]]
  {
  }

  lemma OrphanDropped(s: State)
    requires 7 in s.seeking && s.routes == map[7 := Arm(Orphan(7, 1, OneWay, 5300, map[2 := 5, 1 := 7]).routes[7], 8000)]
    requires s.kernel == map[7 := map[2 := 5, 1 := 7]]
    ensures var s' := SeekFailed(Defaults, s, 7, 9000);
            && 7 in s'.routes && s'.routes[7].valid && s'.routes[7].nextHop == 7 && s'.routes[7].timer.handler == RouteDelete
            && s'.kernel == map[7 := map[2 := 5]]
  {
    hide Matching, Others;
    DropsOne(s.kernel, s.routes, 7);
    assert Without(s.kernel[7], 7, 1) == map[2 := 5];
    assert map[2 := 5] != map[] by { assert 2 in map[2 := 5]; }
    assert DropRoute(s.kernel, 7, 7, 1) == map[7 := map[2 := 5]];
  }

  /** The entry is VALID and waits to be deleted; its route is out of the kernel's routing table,
      but that of the time when it was two hops away is still there. */
  lemma OrphanRun()
    ensures var s := Run(Defaults, OrphanSteps);
            && 7 in s.routes && s.routes[7].valid && s.routes[7].nextHop == 7 && s.routes[7].timer.handler == RouteDelete
            && s.kernel == map[7 := map[2 := 5]]
  {
    hide Run, Receive, SeekFailed;
    var t := OrphanSteps;
    OrphanNeighbour();
    assert t[..6] == t[..5] + [t[5]] && t == t[..6] + [t[6]];
    RunOneMore(Defaults, t[..5], t[5]);
    OrphanSought();
    RunOneMore(Defaults, t[..6], t[6]);
    OrphanDropped(Run(Defaults, t[..6]));
  }
}
