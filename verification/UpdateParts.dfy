/** rt_table_update taken apart: what each part does to its own entry and to the others, and
    the loop that moves all Internet destinations to a new gateway. */
module UpdateParts {
  import opened Basics
  import opened Route
  import opened DaemonSpec
  import opened Takedown

  /** `Rewrite` announces the entry, takes entries down if it demotes a neighbour, and stores
      the new values: `s1` and `s2` are the states between these parts. */
  lemma RewriteShape(cfg: Config, s: State, d: Addr, c: Change, now: Time) returns (s1: State, s2: State)
    requires d in s.routes
    ensures var r := s.routes[d];
            && s1 == (if Demotes(r, c) then Put(Announce(s, d, c), d, r.(hello := false)) else Announce(s, d, c))
            && TakesDown(cfg, s1, s2, now) && s2.routes.Keys == s.routes.Keys
            && (Demotes(r, c) ==> !s2.routes[d].valid)
            && (Demotes(r, c) ==> forall x :: x in s.routes && s.routes[x].nextHop == d && x != d ==> !s2.routes[x].valid)
            && (!Demotes(r, c) ==> s2 == s1)
            && Rewrite(cfg, s, d, c, now) ==
                 Put(s2, d, s2.routes[d].(flags := NewFlags(r, c), seqno := c.seqno, nextHop := c.next, hops := c.hops))
  {
    hide LinkBreak, TakesDown;
    var r := s.routes[d];
    if Demotes(r, c) {
      s1 := Put(Announce(s, d, c), d, r.(hello := false));
      s2 := LinkBreak(cfg, s1, d, now);
      LinkBreakTakesDown(cfg, s1, d, now);
    } else {
      s1 := Announce(s, d, c);
      s2 := s1;
      NothingTakesDown(cfg, s1, now);
    }
  }

  /** The entry as `Revive` stores it. */
  function Revived(r: Route, lifetime: nat, now: Time): Route {
    var r1 := r.(timer := r.timer.(handler := RouteExpire));
    (if r1.flags.inetDest then r1 else Extend(r1, lifetime, now)).(valid := true)
  }

  /** `Revive` stores the entry and then only prolongs lives, ends the search for `d` and
      accepts what was buffered for it. */
  lemma ReviveShape(cfg: Config, s: State, d: Addr, lifetime: nat, now: Time)
    requires d in s.routes
    ensures var s' := Revive(cfg, s, d, lifetime, now);
            && Prolongs(s.routes[d := Revived(s.routes[d], lifetime, now)], s'.routes)
            && s'.active == s.active && s'.kernel == s.kernel
            && s'.seeking == s.seeking - {d}
            && (d !in s.seeking ==> s'.queue == s.queue && s'.log == s.log)
            && (d in s.seeking ==>
                  s'.queue == Others(s.queue, d) && s'.log == s.log + Verdicts(s.kernel, Matching(s.queue, d), true))
  {
    hide Prolongs, TouchPath, Matching, Others;
    var routes := s.routes[d := Revived(s.routes[d], lifetime, now)];
    ProlongsSelf(routes);
    TouchPathProlongs(cfg, routes, d, now);
  }

  /** Updating an Internet destination that is no gateway is a plain update. */
  lemma UpdateIsPlain(cfg: Config, s: State, d: Addr, c: Change, order: seq<Addr>, now: Time)
    requires d in s.routes && !c.flags.gateway
    ensures Update(cfg, s, d, c, order, now) == UpdatePlain(cfg, s, d, c, now)
  {
    hide Rewrite, Revive;
  }

  lemma UpdateOfNothing(cfg: Config, s: State, d: Addr, c: Change, order: seq<Addr>, now: Time)
    requires d !in s.routes
    ensures Update(cfg, s, d, c, order, now) == s
  {
  }

  /** What `Rewrite` leaves in the entry itself. */
  lemma RewriteRoot(cfg: Config, s: State, d: Addr, c: Change, now: Time)
    requires d in s.routes
    ensures var r := Rewrite(cfg, s, d, c, now).routes[d];
            && r.flags == NewFlags(s.routes[d], c) && r.nextHop == c.next && r.hops == c.hops && r.seqno == c.seqno
            && r.valid == (s.routes[d].valid && !Demotes(s.routes[d], c))
  {
    hide Rewrite;
    var s1, s2 := RewriteShape(cfg, s, d, c, now);
  }

  /** One more step of rt_table_update_inet_rt. */
  lemma InetStep(cfg: Config, s: State, gw: Addr, life: nat, order: seq<Addr>, x: Addr, now: Time)
    requires gw in s.routes
    ensures var s1 := UpdateInet(cfg, s, gw, life, order, now);
            && UpdateInet(cfg, s, gw, life, order + [x], now) ==
                 (if InetActive(s1.routes, x)
                  then UpdatePlain(cfg, s1, x, Onto(s1.routes, gw, x, life), now)
                  else s1)
            && InetUpdates(cfg, s, gw, life, order + [x], now) ==
                 InetUpdates(cfg, s, gw, life, order, now) + (if InetActive(s1.routes, x) then 1 else 0)
  {
    hide UpdatePlain;
    assert (order + [x])[..|order|] == order;
  }

  lemma InetStarts(cfg: Config, s: State, gw: Addr, life: nat, now: Time)
    requires gw in s.routes
    ensures UpdateInet(cfg, s, gw, life, [], now) == s && InetUpdates(cfg, s, gw, life, [], now) == 0
  {
  }

  /** What happens to an entry when another one is updated: it may go down, or live longer. */
  predicate Bystander(r: Route, r': Route) {
    && r'.hops == r.hops && r'.nextHop == r.nextHop
    && r'.flags.inetDest == r.flags.inetDest && r'.flags.gateway == r.flags.gateway
    && (r'.valid ==> r.valid && Prolonged(r, r'))
  }

  lemma RewriteOthers(cfg: Config, s: State, d: Addr, c: Change, now: Time)
    requires d in s.routes
    ensures var s' := Rewrite(cfg, s, d, c, now);
            && (forall x :: x in s.routes && x != d ==> Bystander(s.routes[x], s'.routes[x]))
            && (!Demotes(s.routes[d], c) ==> forall x :: x in s.routes && x != d ==> s'.routes[x] == s.routes[x])
  {
    hide Rewrite, TakesDown;
    var s1, s2 := RewriteShape(cfg, s, d, c, now);
    forall x | x in s.routes && x != d ensures Bystander(s.routes[x], s2.routes[x]) {
      TakedownAt(cfg, s1, s2, x, now);
    }
  }

  /** An update as seen from outside: the entry gets its new values and is VALID; the others
      are bystanders, and none of them goes down unless a neighbour is demoted. */
  lemma PlainOthers(cfg: Config, s: State, d: Addr, c: Change, now: Time)
    requires d in s.routes
    ensures var s' := UpdatePlain(cfg, s, d, c, now);
            && s'.routes[d].valid && s'.routes[d].nextHop == c.next && s'.routes[d].hops == c.hops
            && s'.routes[d].flags == NewFlags(s.routes[d], c)
            && (forall x :: x in s.routes && x != d ==> Bystander(s.routes[x], s'.routes[x]))
            && (!Demotes(s.routes[d], c) ==> forall x :: x in s.routes && x != d ==> Prolonged(s.routes[x], s'.routes[x]))
  {
    hide Rewrite, Revive;
    var s1 := Rewrite(cfg, s, d, c, now);
    RewriteOthers(cfg, s, d, c, now);
    RewriteRoot(cfg, s, d, c, now);
    ReviveShape(cfg, s1, d, c.lifetime, now);
    var s' := Revive(cfg, s1, d, c.lifetime, now);
    assert Prolonged(Revived(s1.routes[d], c.lifetime, now), s'.routes[d]);
    forall x | x in s.routes && x != d ensures Bystander(s.routes[x], s'.routes[x])
      && (!Demotes(s.routes[d], c) ==> Prolonged(s.routes[x], s'.routes[x]))
    {
      assert Prolonged(s1.routes[x], s'.routes[x]);
      assert Bystander(s.routes[x], s1.routes[x]);
    }
  }

  lemma InsertRoutes(cfg: Config, s: State, d: Addr, c: Change, valid: bool, now: Time)
    ensures var s' := Insert(cfg, s, d, c, valid, now);
            if d in s.routes then s' == s else Prolongs(s.routes[d := NewRoute(cfg, c, valid, now)], s'.routes)
  {
    hide TouchPath, Matching, Others, Prolongs;
    if d !in s.routes {
      var routes := s.routes[d := NewRoute(cfg, c, valid, now)];
      TouchPathProlongs(cfg, routes, d, now);
      ProlongsSelf(routes);
    }
  }

  /** rt_table_insert as seen from outside: a known destination changes nothing; a new one gets
      an entry with the given values and every other entry keeps its own. */
  lemma InsertEffect(cfg: Config, s: State, d: Addr, c: Change, valid: bool, now: Time)
    ensures var s' := Insert(cfg, s, d, c, valid, now);
            if d in s.routes then s' == s
            else
              && s'.routes.Keys == s.routes.Keys + {d}
              && (forall x :: x in s.routes ==> Prolonged(s.routes[x], s'.routes[x]))
              && var r := s'.routes[d];
              && r.nextHop == c.next && r.hops == c.hops && r.seqno == c.seqno && r.flags == c.flags
              && r.valid == valid && r.precursors == [] && !r.hello
              && (valid && c.lifetime > 0 ==> r.timer.used && r.timer.timeout >= now + c.lifetime)
  {
    hide Insert;
    InsertRoutes(cfg, s, d, c, valid, now);
    if d !in s.routes {
      var routes, routes' := s.routes[d := NewRoute(cfg, c, valid, now)], Insert(cfg, s, d, c, valid, now).routes;
      assert Prolonged(routes[d], routes'[d]);
      assert forall x :: x in s.routes && x != d ==> Prolonged(routes[x], routes'[x]);
    }
  }

  // ----- Timers in an update

  /** `Revive` leaves all entries but its own and that of its next hop alone. */
  lemma ReviveLeaves(cfg: Config, s: State, d: Addr, lifetime: nat, now: Time, z: Addr)
    requires d in s.routes && z in s.routes && z != d
    ensures Revive(cfg, s, d, lifetime, now).routes[z] ==
            if d in s.seeking && z == s.routes[d].nextHop && s.routes[z].valid
            then Extend(s.routes[z], cfg.activeRouteTimeout, now) else s.routes[z]
  {
    hide Matching, Others;
  }

  /** The entry itself is VALID for at least ACTIVE_ROUTE_TIMEOUT if it was being sought. */
  lemma ReviveItself(cfg: Config, s: State, d: Addr, lifetime: nat, now: Time)
    requires d in s.routes
    ensures var r := Revived(s.routes[d], lifetime, now);
            Revive(cfg, s, d, lifetime, now).routes[d] ==
              if d in s.seeking then Extend(r, cfg.activeRouteTimeout, now) else r
  {
    hide Matching, Others;
  }

  /** When a demoted VALID entry would expire: it fell a moment ago. */
  lemma RewriteDemoted(cfg: Config, s: State, d: Addr, c: Change, now: Time)
    requires d in s.routes && s.routes[d].valid && Demotes(s.routes[d], c)
    ensures Rewrite(cfg, s, d, c, now).routes[d].timer.timeout == now + RestTime(cfg, s.routes[d].flags)
  {
    hide LinkBreak;
    var r := s.routes[d];
    LinkBreakRoot(cfg, Put(Announce(s, d, c), d, r.(hello := false)), d, now);
  }

  /** `Rewrite` on another entry: one that is still VALID is as it was, and the timer of one that
      was INVALID as well. */
  lemma RewriteLeaves(cfg: Config, s: State, d: Addr, c: Change, now: Time, z: Addr)
    requires d in s.routes && z in s.routes && z != d
    ensures var s' := Rewrite(cfg, s, d, c, now);
            && s'.seeking == s.seeking
            && (s'.routes[z].valid ==> s'.routes[z] == s.routes[z])
            && (!s.routes[z].valid ==> !s'.routes[z].valid && s'.routes[z].timer == s.routes[z].timer)
  {
    hide Rewrite, TakesDown;
    var s1, s2 := RewriteShape(cfg, s, d, c, now);
    TakedownAt(cfg, s1, s2, z, now);
    TakedownSeeks(cfg, s1, s2, now);
  }

  lemma TakedownSeeks(cfg: Config, s: State, s': State, now: Time)
    requires TakesDown(cfg, s, s', now)
    ensures s'.seeking == s.seeking && s'.routes.Keys == s.routes.Keys
  {
  }

  lemma RewriteSeeks(cfg: Config, s: State, d: Addr, c: Change, now: Time)
    requires d in s.routes
    ensures Rewrite(cfg, s, d, c, now).seeking == s.seeking
  {
    hide Rewrite, TakesDown;
    var s1, s2 := RewriteShape(cfg, s, d, c, now);
    TakedownSeeks(cfg, s1, s2, now);
  }

  /** An update ends the search for its entry and no other. */
  lemma PlainSeeks(cfg: Config, s: State, d: Addr, c: Change, now: Time)
    requires d in s.routes
    ensures UpdatePlain(cfg, s, d, c, now).seeking == s.seeking - {d}
  {
    hide Rewrite, Revive;
    RewriteSeeks(cfg, s, d, c, now);
    ReviveShape(cfg, Rewrite(cfg, s, d, c, now), d, c.lifetime, now);
  }

  /** An entry that goes down in the update of another one, which is not its next hop, goes down
      because its next hop does. */
  lemma RewriteReason(cfg: Config, s: State, d: Addr, c: Change, now: Time, y: Addr)
    requires d in s.routes && y in s.routes && y != d && s.routes[y].nextHop != d
    requires s.routes[y].valid && !Rewrite(cfg, s, d, c, now).routes[y].valid
    ensures var nh := s.routes[y].nextHop;
            nh in s.routes && s.routes[nh].valid && !Rewrite(cfg, s, d, c, now).routes[nh].valid
  {
    hide LinkBreak;
    BreakReason(cfg, Put(Announce(s, d, c), d, s.routes[d].(hello := false)), d, now, y);
  }

  lemma PlainReason(cfg: Config, s: State, d: Addr, c: Change, now: Time, y: Addr)
    requires d in s.routes && y in s.routes && y != d && s.routes[y].nextHop != d
    requires s.routes[y].valid && !UpdatePlain(cfg, s, d, c, now).routes[y].valid
    ensures var nh := s.routes[y].nextHop;
            nh in s.routes && s.routes[nh].valid && !UpdatePlain(cfg, s, d, c, now).routes[nh].valid
  {
    hide Rewrite, Revive;
    var t := Rewrite(cfg, s, d, c, now);
    ReviveShape(cfg, t, d, c.lifetime, now);
    var s' := Revive(cfg, t, d, c.lifetime, now);
    assert Prolonged(t.routes[y], s'.routes[y]);
    RewriteReason(cfg, s, d, c, now, y);
    assert Prolonged(t.routes[s.routes[y].nextHop], s'.routes[s.routes[y].nextHop]);
  }
}
