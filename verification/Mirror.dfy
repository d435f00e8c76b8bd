/** The kernel's routing table against the daemon's: it should hold, for exactly the VALID
    entries, one route to the destination, over the entry's next hop and with the entry's
    distance as its metric.  rt_table_update does not always keep this.  `Loses` says exactly
    when a single update does not, `LoopKeeps` when the update of a gateway does. */
module Mirror {
  import opened Basics
  import opened Route
  import opened DaemonSpec
  import opened Takedown
  import opened UpdateParts

  predicate MirrorAt(s: State, x: Addr) {
    if x in s.routes && s.routes[x].valid then
      x in s.kernel && s.kernel[x] == map[s.routes[x].hops := s.routes[x].nextHop]
    else
      x !in s.kernel
  }

  ghost predicate Mirrored(s: State) {
    forall x: Addr :: MirrorAt(s, x)
  }

  function KernelOf(s: State, x: Addr): map<nat, Addr> {
    if x in s.kernel then s.kernel[x] else map[]
  }

  lemma MirrorOfValid(s: State, x: Addr)
    requires x in s.routes && s.routes[x].valid
    ensures MirrorAt(s, x) <==> KernelOf(s, x) == map[s.routes[x].hops := s.routes[x].nextHop]
  {
    assert s.routes[x].hops in map[s.routes[x].hops := s.routes[x].nextHop];
  }

  // ----- A plain update

  /** The update of a VALID entry announces a new next hop to the kernel. */
  predicate Tells(r: Route, c: Change) {
    r.nextHop != 0 && r.nextHop != c.next
  }

  /** What the update of a VALID entry makes of the routes to it. */
  function Told(ms: map<nat, Addr>, r: Route, c: Change): map<nat, Addr> {
    var ms1 := if Tells(r, c) then ms[c.hops := c.next] else ms;
    if Demotes(r, c) then Without(ms1, r.nextHop, r.hops) else ms1
  }

  /** The update of a VALID entry spoils its routes.  A demoted neighbour loses its route for
      good if its next hop stays, or was 0.0.0.0: nothing is announced, and the link break takes
      the route away.  Otherwise a new distance leaves the route with the old metric behind, and
      a change from next hop 0.0.0.0 is not announced. */
  predicate Loses(r: Route, c: Change) {
    r.valid && (if Demotes(r, c) then !Tells(r, c) else r.hops != c.hops || (r.nextHop == 0 && c.next != 0))
  }

  lemma ToldRight(r: Route, c: Change)
    requires r.valid
    ensures Told(map[r.hops := r.nextHop], r, c) == map[c.hops := c.next] <==> !Loses(r, c)
  {
    var ms, ms' := map[r.hops := r.nextHop], map[c.hops := c.next];
    assert r.hops in ms && c.hops in ms';
    if Demotes(r, c) {
      if Tells(r, c) {
        assert ms[c.hops := c.next] - {r.hops} == ms';
      } else {
        assert ms - {r.hops} == map[];
      }
    } else if r.hops == c.hops {
      assert ms[c.hops := c.next] == ms';
    } else {
      assert r.hops in Told(ms, r, c) && r.hops !in ms';
    }
  }

  /** A takedown drops the route of an entry that goes down, and no other. */
  lemma TakedownKernel(cfg: Config, s: State, s': State, now: Time, x: Addr)
    requires TakesDown(cfg, s, s', now) && x in s.routes
    ensures KernelOf(s', x) ==
            if s.routes[x].valid && !s'.routes[x].valid
            then Without(KernelOf(s, x), s.routes[x].nextHop, s.routes[x].hops) else KernelOf(s, x)
    ensures !(s.routes[x].valid && !s'.routes[x].valid) ==> (x in s'.kernel <==> x in s.kernel)
  {
  }

  lemma TakedownMirror(cfg: Config, s: State, s': State, now: Time, x: Addr)
    requires TakesDown(cfg, s, s', now) && MirrorAt(s, x)
    ensures MirrorAt(s', x)
  {
    if x in s.routes {
      TakedownAt(cfg, s, s', x, now);
    }
  }

  lemma RewriteKernel(cfg: Config, s: State, d: Addr, c: Change, now: Time)
    requires d in s.routes
    ensures KernelOf(Rewrite(cfg, s, d, c, now), d) ==
            if s.routes[d].valid then Told(KernelOf(s, d), s.routes[d], c) else KernelOf(s, d)[c.hops := c.next]
  {
    hide Rewrite, TakesDown;
    var s1, s2 := RewriteShape(cfg, s, d, c, now);
    TakedownKernel(cfg, s1, s2, now, d);
    if !Demotes(s.routes[d], c) {
      assert s2 == s1;
    }
  }

  /** `Rewrite` on another entry. */
  lemma RewriteMirror(cfg: Config, s: State, d: Addr, c: Change, now: Time, x: Addr)
    requires d in s.routes && x != d
    ensures var s' := Rewrite(cfg, s, d, c, now);
            && (MirrorAt(s, x) ==> MirrorAt(s', x))
            && (x in s.routes && s'.routes[x].valid ==> KernelOf(s', x) == KernelOf(s, x))
            && (x in s.routes && s'.routes[x].valid == s.routes[x].valid ==> KernelOf(s', x) == KernelOf(s, x))
  {
    hide Rewrite, TakesDown;
    var s1, s2 := RewriteShape(cfg, s, d, c, now);
    if MirrorAt(s, x) {
      TakedownMirror(cfg, s1, s2, now, x);
    }
    if x in s.routes {
      TakedownKernel(cfg, s1, s2, now, x);
    }
  }

  /** The kernel has been told all about the entry. */
  predicate Ready(s: State, d: Addr)
    requires d in s.routes
  {
    KernelOf(s, d) == map[s.routes[d].hops := s.routes[d].nextHop]
  }

  lemma RewriteReady(cfg: Config, s: State, d: Addr, c: Change, now: Time)
    requires d in s.routes && MirrorAt(s, d)
    ensures Ready(Rewrite(cfg, s, d, c, now), d) <==> !Loses(s.routes[d], c)
  {
    hide Rewrite, Told;
    RewriteKernel(cfg, s, d, c, now);
    RewriteRoot(cfg, s, d, c, now);
    if s.routes[d].valid {
      MirrorOfValid(s, d);
      ToldRight(s.routes[d], c);
    } else {
      assert KernelOf(s, d) == map[];
    }
  }

  lemma ReviveMirror(cfg: Config, s: State, d: Addr, lifetime: nat, now: Time, x: Addr)
    requires d in s.routes
    ensures var s' := Revive(cfg, s, d, lifetime, now);
            && s'.kernel == s.kernel
            && (x != d ==> (MirrorAt(s, x) <==> MirrorAt(s', x)))
            && (MirrorAt(s', d) <==> Ready(s, d))
  {
    hide Revive;
    ReviveShape(cfg, s, d, lifetime, now);
    var s' := Revive(cfg, s, d, lifetime, now);
    assert Prolonged(Revived(s.routes[d], lifetime, now), s'.routes[d]);
    MirrorOfValid(s', d);
    if x != d && x in s.routes {
      assert Prolonged(s.routes[x], s'.routes[x]);
    }
  }

  lemma PlainMirrorAt(cfg: Config, s: State, d: Addr, c: Change, now: Time, x: Addr)
    requires d in s.routes && MirrorAt(s, x)
    ensures var s' := UpdatePlain(cfg, s, d, c, now);
            if x == d then MirrorAt(s', d) <==> !Loses(s.routes[d], c) else MirrorAt(s', x)
  {
    hide Rewrite, Revive, Ready, Loses;
    if x == d {
      RewriteReady(cfg, s, d, c, now);
    } else {
      RewriteMirror(cfg, s, d, c, now, x);
    }
    ReviveMirror(cfg, Rewrite(cfg, s, d, c, now), d, c.lifetime, now, x);
  }

  /** Exactly when a plain update keeps the mirror. */
  lemma PlainMirror(cfg: Config, s: State, d: Addr, c: Change, now: Time)
    requires d in s.routes && Mirrored(s)
    ensures Mirrored(UpdatePlain(cfg, s, d, c, now)) <==> !Loses(s.routes[d], c)
  {
    hide UpdatePlain, MirrorAt, Loses;
    var s' := UpdatePlain(cfg, s, d, c, now);
    forall x: Addr ensures if x == d then MirrorAt(s', d) <==> !Loses(s.routes[d], c) else MirrorAt(s', x) {
      PlainMirrorAt(cfg, s, d, c, now, x);
    }
    PlainMirrorAt(cfg, s, d, c, now, d);
    assert Mirrored(s') ==> MirrorAt(s', d);
  }
}
