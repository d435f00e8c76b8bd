/** The daemon's own data: a 64-bucket hash table of mutable entries with two counters, the
    packet buffer with its length counter and the set of destinations being sought.
    Every method is proved to do to `Abs()` what the function of DaemonSpec says. */
module Daemon {
  import opened SeqNo
  import opened Basics
  import opened Route
  import opened DaemonSpec
  import opened GatewayChains
  import opened LinkFailure
  import opened UpdateParts
  import opened Counting
  import opened GatewayMoves
  import opened GatewayRecursion
  import opened GatewayCount

  const RT_TABLESIZE: nat := 64

  /** An entry of the routing table.  Its destination and hash never change; everything
      else is updated in place. */
  class Entry {
    const dest: Addr
    const hash: U32
    var r: Route

    constructor (dest: Addr, r: Route)
      ensures this.dest == dest && hash == dest && this.r == r
    {
      this.dest, this.hash, this.r := dest, dest, r;
    }
  }

  /** The hash value masked with RT_TABLESIZE - 1. */
  function Bucket(d: Addr): nat {
    d % RT_TABLESIZE
  }

  function Dests(b: seq<Entry>): seq<Addr> {
    seq(|b|, k requires 0 <= k < |b| => b[k].dest)
  }

  function Flatten(buckets: seq<seq<Entry>>): seq<Addr> {
    if buckets == [] then [] else Flatten(buckets[..|buckets| - 1]) + Dests(buckets[|buckets| - 1])
  }

  /** The entries of the buckets before bucket `i`, and the first `k` of that bucket. */
  function Seen(buckets: seq<seq<Entry>>, i: nat, k: nat): seq<Addr>
    requires i < |buckets| && k <= |buckets[i]|
  {
    Flatten(buckets[..i]) + Dests(buckets[i][..k])
  }

  lemma SeenOneMore(buckets: seq<seq<Entry>>, i: nat, k: nat)
    requires i < |buckets| && k < |buckets[i]|
    ensures Seen(buckets, i, k + 1) == Seen(buckets, i, k) + [buckets[i][k].dest]
  {
  }

  lemma SeenBucket(buckets: seq<seq<Entry>>, i: nat)
    requires i < |buckets|
    ensures Seen(buckets, i, 0) == Flatten(buckets[..i])
    ensures Seen(buckets, i, |buckets[i]|) == Flatten(buckets[..i + 1])
  {
    assert buckets[..i + 1][..i] == buckets[..i];
    assert buckets[i][..|buckets[i]|] == buckets[i];
  }

  /** Bucket `i` holds each of its entries once, and only entries that belong there. */
  ghost predicate BucketOk(b: seq<Entry>, i: nat, entries: map<Addr, Entry>) {
    && (forall k :: 0 <= k < |b| ==>
          Bucket(b[k].dest) == i && b[k].hash == b[k].dest && b[k].dest in entries && entries[b[k].dest] == b[k])
    && (forall j, k :: 0 <= j < k < |b| ==> b[j] != b[k])
  }

  /** Every entry sits once in the bucket of its destination, nothing else does, and `n`
      is their number. */
  ghost predicate WellPlaced(buckets: seq<seq<Entry>>, entries: map<Addr, Entry>, n: int) {
    && |buckets| == RT_TABLESIZE && n == |entries|
    && (forall i :: 0 <= i < RT_TABLESIZE ==> BucketOk(buckets[i], i, entries))
    && (forall d :: d in entries ==> entries[d].dest == d && entries[d] in buckets[Bucket(d)])
  }

  lemma {:induction false} InFlatten(buckets: seq<seq<Entry>>, i: nat, k: nat)
    requires i < |buckets| && k < |buckets[i]|
    ensures buckets[i][k].dest in Flatten(buckets)
  {
    var n := |buckets| - 1;
    if i < n {
      assert buckets[..n][i] == buckets[i];
      InFlatten(buckets[..n], i, k);
    } else {
      assert Dests(buckets[n])[k] == buckets[i][k].dest;
    }
  }

  /** A loop over all buckets meets every entry. */
  lemma FlattenCovers(buckets: seq<seq<Entry>>, entries: map<Addr, Entry>, n: int)
    requires WellPlaced(buckets, entries, n)
    ensures forall d :: d in entries ==> d in Flatten(buckets)
  {
    forall d | d in entries ensures d in Flatten(buckets) {
      var k :| 0 <= k < |buckets[Bucket(d)]| && buckets[Bucket(d)][k] == entries[d];
      InFlatten(buckets, Bucket(d), k);
    }
  }

  ghost function Contents(entries: map<Addr, Entry>): map<Addr, Route>
    reads entries.Values
  {
    map d | d in entries :: entries[d].r
  }

  lemma ContentsWith(entries: map<Addr, Entry>, e: Entry)
    ensures Contents(entries[e.dest := e]) == Contents(entries)[e.dest := e.r]
  {
  }

  lemma ContentsWithout(entries: map<Addr, Entry>, d: Addr)
    ensures Contents(entries - {d}) == Contents(entries) - {d}
  {
  }

  /** PQ_DROP, PQ_SEND and PQ_ENC_SEND. */
  datatype PqVerdict = PqDrop | PqSend | PqEncSend

  lemma VerdictsOneMore(log: seq<Event>, kernel: Kernel, pkts: seq<Buffered>, p: Buffered, accept: bool)
    ensures log + Verdicts(kernel, pkts + [p], accept) ==
            log + Verdicts(kernel, pkts, accept) + [Verdict(p.id, p.dest, accept, p.dest in kernel)]
  {
  }

  lemma WalkStarts(log: seq<Event>, kernel: Kernel, q: seq<Buffered>, d: Addr, now: Time, accept: bool)
    ensures log == log + Verdicts(kernel, [], accept) && q == [] + q
    ensures Matching([], d) == Others([], d) == Aged([], now) == Young([], now) == []
  {
  }

  /** Different destinations of the table, all from the buckets before `n`. */
  ghost predicate MetOnce(order: seq<Addr>, entries: map<Addr, Entry>, n: nat) {
    && (forall i :: 0 <= i < |order| ==> order[i] in entries && Bucket(order[i]) < n)
    && (forall i, j :: 0 <= i < j < |order| ==> order[i] != order[j])
  }

  lemma {:induction false} FlattenMeetsOnce(buckets: seq<seq<Entry>>, n: nat, entries: map<Addr, Entry>, k: int)
    requires WellPlaced(buckets, entries, k) && n <= |buckets|
    ensures MetOnce(Flatten(buckets[..n]), entries, n)
  {
    if n > 0 {
      hide WellPlaced, BucketOk, Dests;
      var order, last := Flatten(buckets[..n - 1]), Dests(buckets[n - 1]);
      FlattenMeetsOnce(buckets, n - 1, entries, k);
      assert BucketOk(buckets[n - 1], n - 1, entries) by { BucketsOk(buckets, entries, k); }
      BucketDests(buckets[n - 1], n - 1, entries);
      assert buckets[..n][..n - 1] == buckets[..n - 1];
      assert Flatten(buckets[..n]) == order + last;
    }
  }

  lemma BucketsOk(buckets: seq<seq<Entry>>, entries: map<Addr, Entry>, k: int)
    requires WellPlaced(buckets, entries, k)
    ensures forall i :: 0 <= i < |buckets| ==> BucketOk(buckets[i], i, entries)
  {
  }

  lemma BucketDests(b: seq<Entry>, i: nat, entries: map<Addr, Entry>)
    requires BucketOk(b, i, entries)
    ensures |Dests(b)| == |b|
    ensures forall k :: 0 <= k < |b| ==> Dests(b)[k] in entries && Bucket(Dests(b)[k]) == i
    ensures forall j, k :: 0 <= j < k < |b| ==> Dests(b)[j] != Dests(b)[k]
  {
  }

  /** What has been seen so far is the beginning of what there is to see. */
  lemma {:induction false} SeenIsPrefix(buckets: seq<seq<Entry>>, i: nat, k: nat)
    requires i < |buckets| && k <= |buckets[i]|
    ensures Seen(buckets, i, k) <= Flatten(buckets)
    decreases |buckets|
  {
    hide Dests;
    var n := |buckets| - 1;
    if i < n {
      SeenIsPrefix(buckets[..n], i, k);
      assert buckets[..n][..i] == buckets[..i];
    } else {
      DestsOfPrefix(buckets[i], k);
    }
  }

  lemma DestsOfPrefix(b: seq<Entry>, k: nat)
    requires k <= |b|
    ensures Dests(b[..k]) <= Dests(b)
  {
  }

  /** Inserting first in the bucket keeps the table well placed. */
  lemma PlaceFirst(buckets: seq<seq<Entry>>, entries: map<Addr, Entry>, n: int, e: Entry)
    requires WellPlaced(buckets, entries, n) && e.dest !in entries && e.hash == e.dest
    ensures var i := Bucket(e.dest);
            |buckets| == RT_TABLESIZE && WellPlaced(buckets[i := [e] + buckets[i]], entries[e.dest := e], n + 1)
  {
    var i := Bucket(e.dest);
    var b' := [e] + buckets[i];
    var buckets', entries' := buckets[i := b'], entries[e.dest := e];
    forall j | 0 <= j < RT_TABLESIZE ensures BucketOk(buckets'[j], j, entries') {
      assert BucketOk(buckets[j], j, entries);
    }
    forall d | d in entries' ensures entries'[d] in buckets'[Bucket(d)] {
      if d != e.dest {
        assert entries[d] in buckets[Bucket(d)];
      }
    }
  }

  /** Detaching an entry from a bucket. */
  lemma BucketWithout(b: seq<Entry>, i: nat, entries: map<Addr, Entry>, k: nat)
    requires BucketOk(b, i, entries) && k < |b|
    ensures BucketOk(b[..k] + b[k + 1..], i, entries - {b[k].dest})
    ensures Bucket(b[k].dest) == i && b[k].dest in entries && entries[b[k].dest] == b[k]
    ensures forall e :: e in b && e != b[k] ==> e in b[..k] + b[k + 1..]
  {
    var b' := b[..k] + b[k + 1..];
    forall j | 0 <= j < |b'| ensures b'[j].dest != b[k].dest {
      assert b'[j] == b[if j < k then j else j + 1];
    }
    forall e | e in b && e != b[k] ensures e in b' {
      var j :| 0 <= j < |b| && b[j] == e;
      assert b'[if j < k then j else j - 1] == e;
    }
  }

  /** Detaching an entry keeps the table well placed. */
  lemma Displace(buckets: seq<seq<Entry>>, entries: map<Addr, Entry>, n: int, i: nat, k: nat)
    requires WellPlaced(buckets, entries, n) && i < |buckets| && k < |buckets[i]|
    ensures WellPlaced(buckets[i := buckets[i][..k] + buckets[i][k + 1..]], entries - {buckets[i][k].dest}, n - 1)
  {
    hide BucketOk;
    var e := buckets[i][k];
    var b' := buckets[i][..k] + buckets[i][k + 1..];
    var buckets', entries' := buckets[i := b'], entries - {e.dest};
    BucketWithout(buckets[i], i, entries, k);
    forall j | 0 <= j < RT_TABLESIZE ensures BucketOk(buckets'[j], j, entries') {
      if j != i {
        OtherBucket(buckets[j], j, entries, e.dest);
      }
    }
    forall d | d in entries' ensures entries[d] in buckets'[Bucket(d)] {
      assert entries[d] in buckets[Bucket(d)];
      assert entries[d] != e;
    }
    assert |entries'.Keys| == |entries.Keys - {e.dest}|;
  }

  lemma OtherBucket(b: seq<Entry>, i: nat, entries: map<Addr, Entry>, d: Addr)
    requires BucketOk(b, i, entries) && Bucket(d) != i
    ensures BucketOk(b, i, entries - {d})
  {
  }

  /** One step of a loop that detaches elements while it walks a list: `kept` has been
      walked over, `ahead` is still to come. */
  lemma WalkStep<T>(kept: seq<T>, ahead: seq<T>)
    requires ahead != []
    ensures var l := kept + ahead;
            && l[|kept|] == ahead[0]
            && l[..|kept|] + l[|kept| + 1..] == kept + ahead[1..]
            && l == kept + [ahead[0]] + ahead[1..]
  {
  }

  class Daemon {
    const cfg: Config
    const tbl: array<seq<Entry>>
    var numEntries: int
    var numActive: int
    var queue: seq<Buffered>
    var len: int
    var seeking: set<Addr>

    /** The outside: the kernel's routing table and the packet interface. */
    var kernel: Kernel
    var log: seq<Event>

    /** The entry for each destination. */
    ghost var entries: map<Addr, Entry>

    ghost predicate Wf()
      reads `entries, `numEntries, `queue, `len, tbl
    {
      && WellPlaced(tbl[..], entries, numEntries)
      && len == |queue|
    }

    ghost predicate Holds(e: Entry)
      reads `entries
    {
      e.dest in entries && entries[e.dest] == e
    }

    ghost function Routes(): map<Addr, Route>
      reads `entries, entries.Values
    {
      Contents(entries)
    }

    ghost function Abs(): State
      reads this, entries.Values
    {
      State(Routes(), numActive, kernel, queue, log, seeking)
    }

    /** The order in which loops over the whole table visit the entries. */
    ghost function Order(): seq<Addr>
      reads tbl
    {
      Flatten(tbl[..])
    }

    /** What the loops over the table need of Wf. */
    lemma Slots()
      requires Wf()
      ensures tbl.Length == RT_TABLESIZE
      ensures forall i, k :: 0 <= i < tbl.Length && 0 <= k < |tbl[i]| ==> Holds(tbl[i][k])
    {
    }

    lemma KeysOfRoutes()
      ensures forall d :: d in Routes() <==> d in entries
    {
    }

    lemma At(e: Entry)
      requires Holds(e)
      ensures e.dest in Routes() && e.r == Routes()[e.dest]
    {
    }

    lemma SlotOf(e: Entry)
      requires Wf() && Holds(e)
      ensures tbl.Length == RT_TABLESIZE && e in tbl[Bucket(e.dest)]
    {
    }

    /** rt_table_init and packet_queue_init. */
    constructor (cfg: Config)
      ensures Wf() && Abs() == Initial && fresh(tbl) && this.cfg == cfg
    {
      this.cfg := cfg;
      tbl := new seq<Entry>[RT_TABLESIZE](_ => []);
      numEntries, numActive, queue, len, seeking := 0, 0, [], 0, {};
      kernel, log, entries := map[], [], map[];
    }

    /** Store new contents in an entry. */
    method Store(e: Entry, r: Route)
      requires Wf() && Holds(e)
      modifies e
      ensures e.r == r && Routes() == old(Routes())[e.dest := r]
      ensures Abs() == Put(old(Abs()), e.dest, r)
    {
      e.r := r;
    }

    /** rt_table_find, with its early exit on an empty table. */
    method Find(d: Addr) returns (e: Entry?)
      requires Wf()
      ensures e == null <==> d !in Routes()
      ensures e != null ==> Holds(e) && e.dest == d && e.r == Routes()[d]
    {
      if numEntries == 0 {
        return null;
      }
      var hash, i, k := d, Bucket(d), 0;
      while k < |tbl[i]|
        invariant 0 <= k <= |tbl[i]|
        invariant forall j :: 0 <= j < k ==> tbl[i][j].dest != d
      {
        if tbl[i][k].hash == hash && tbl[i][k].dest == d {
          return tbl[i][k];
        }
        k := k + 1;
      }
      return null;
    }

    /** rt_table_find_gateway: a VALID gateway with the fewest hops. */
    method FindGateway() returns (gw: Entry?)
      requires Wf()
      ensures gw == null <==> forall d :: d in Routes() ==> !(Routes()[d].valid && Routes()[d].flags.gateway)
      ensures gw != null ==>
        && Holds(gw) && gw.r.valid && gw.r.flags.gateway
        && forall d :: d in Routes() && Routes()[d].valid && Routes()[d].flags.gateway ==> gw.r.hops <= Routes()[d].hops
    {
      hide WellPlaced;
      Slots();
      gw := null;
      var i := 0;
      while i < RT_TABLESIZE
        invariant 0 <= i <= RT_TABLESIZE
        invariant gw != null ==> Holds(gw) && gw.r.valid && gw.r.flags.gateway
        invariant forall d :: d in entries && d in Flatten(tbl[..i]) && entries[d].r.valid && entries[d].r.flags.gateway ==>
          gw != null && gw.r.hops <= entries[d].r.hops
      {
        var k := 0;
        SeenBucket(tbl[..], i);
        assert tbl[..][..i] == tbl[..i] && tbl[..][..i + 1] == tbl[..i + 1];
        while k < |tbl[i]|
          invariant 0 <= k <= |tbl[i]|
          invariant gw != null ==> Holds(gw) && gw.r.valid && gw.r.flags.gateway
          invariant forall d :: d in entries && d in Seen(tbl[..], i, k) && entries[d].r.valid && entries[d].r.flags.gateway ==>
            gw != null && gw.r.hops <= entries[d].r.hops
        {
          var rt := tbl[i][k];
          if rt.r.flags.gateway && rt.r.valid && (gw == null || rt.r.hops < gw.r.hops) {
            gw := rt;
          }
          SeenOneMore(tbl[..], i, k);
          k := k + 1;
        }
        i := i + 1;
      }
      FlattenCovers(tbl[..], entries, numEntries);
      assert tbl[..RT_TABLESIZE] == tbl[..];
      assert forall d :: d in entries ==> Routes()[d] == entries[d].r;
      if gw != null {
        assert gw.dest in Routes() && Routes()[gw.dest] == gw.r;
      }
    }

    /** nl_send_add_route_msg. */
    method SendAddRoute(d: Addr, next: Addr, metric: nat)
      modifies this`kernel
      ensures kernel == AddRoute(old(kernel), d, next, metric)
    {
      kernel := AddRoute(kernel, d, next, metric);
    }

    /** nl_send_del_route_msg. */
    method SendDelRoute(d: Addr, next: Addr, metric: nat)
      modifies this`kernel
      ensures kernel == DropRoute(old(kernel), d, next, metric)
    {
      kernel := DropRoute(kernel, d, next, metric);
    }

    /** The first half of rt_table_invalidate, on the entry alone. */
    method StrikeEntry(e: Entry)
      requires Wf() && Holds(e)
      modifies this`numActive, this`kernel, e
      ensures Wf()
      ensures var s, d := old(Abs()), e.dest;
              && Abs() == Put(s, d, Strike(s.routes[d])).(active := s.active - 1, kernel := kernel)
              && kernel == DropRoute(s.kernel, d, s.routes[d].nextHop, s.routes[d].hops)
    {
      hide WellPlaced, Contents;
      At(e);
      Store(e, Strike(e.r));
      numActive := numActive - 1;
      SendDelRoute(e.dest, e.r.nextHop, e.r.hops);
    }

    /** rt_table_invalidate: the recursion over the table that it makes for a gateway takes
        down exactly the gateway's cascade. */
    method Invalidate(e: Entry, now: Time) returns (done: bool)
      requires Wf() && Holds(e)
      modifies this`numActive, this`kernel, entries.Values
      ensures Wf()
      ensures Abs() == DaemonSpec.Invalidate(cfg, old(Abs()), e.dest, now)
      ensures done == old(e.r.valid)
      decreases ValidSet(Routes()), 2
    {
      hide WellPlaced, Contents, Sweeping, DaemonSpec.Cascade, DaemonSpec.Invalidate;
      At(e);
      if !e.r.valid {
        InvalidateIdle(cfg, Abs(), e.dest, now);
        return false;
      }
      ghost var s0 := Abs();
      ghost var gone := {e.dest};
      StrikeEntry(e);
      At(e);
      SweepStarts(cfg, s0, e.dest, kernel, now);
      // With CONFIG_GATEWAY; the search for another gateway made here is never used.
      if e.r.flags.gateway {
        gone := InvalidateFeeders(e.dest, now, s0);
      }
      SweepEnds(cfg, s0, Abs(), e.dest, gone, now);
      At(e);
      Store(e, Rest(cfg, e.r, now));
      return true;
    }

    /** The loop over the table inside rt_table_invalidate. */
    method InvalidateFeeders(d: Addr, now: Time, ghost s0: State) returns (ghost gone: set<Addr>)
      requires Wf() && Sweeping(cfg, s0, Abs(), d, {d}, now) && s0.routes[d].flags.gateway
      modifies this`numActive, this`kernel, entries.Values
      ensures Wf() && Sweeping(cfg, s0, Abs(), d, gone, now)
      ensures forall x :: x in Routes() && Feeds(s0.routes, d, x) ==> x in gone
      decreases ValidSet(s0.routes), 1
    {
      hide WellPlaced, Contents, Dests, Sweeping, DaemonSpec.Cascade, Feeds;
      gone := {d};
      var i := 0;
      Slots();
      while i < RT_TABLESIZE
        invariant 0 <= i <= RT_TABLESIZE && Wf() && Sweeping(cfg, s0, Abs(), d, gone, now)
        invariant forall x :: x in Flatten(tbl[..i]) && Feeds(s0.routes, d, x) ==> x in gone
      {
        var k := 0;
        SeenBucket(tbl[..], i);
        assert tbl[..][..i] == tbl[..i] && tbl[..][..i + 1] == tbl[..i + 1];
        while k < |tbl[i]|
          invariant 0 <= k <= |tbl[i]| && Wf() && Sweeping(cfg, s0, Abs(), d, gone, now)
          invariant forall x :: x in Seen(tbl[..], i, k) && Feeds(s0.routes, d, x) ==> x in gone
        {
          gone := InvalidateFeeder(tbl[i][k], d, now, s0, gone);
          SeenOneMore(tbl[..], i, k);
          k := k + 1;
        }
        i := i + 1;
      }
      FlattenCovers(tbl[..], entries, numEntries);
      KeysOfRoutes();
      assert tbl[..RT_TABLESIZE] == tbl[..];
    }

    /** The body of that loop. */
    method InvalidateFeeder(rt2: Entry, d: Addr, now: Time, ghost s0: State, ghost gone: set<Addr>)
      returns (ghost gone': set<Addr>)
      requires Wf() && Holds(rt2) && Sweeping(cfg, s0, Abs(), d, gone, now) && s0.routes[d].flags.gateway
      modifies this`numActive, this`kernel, entries.Values
      ensures Wf() && Sweeping(cfg, s0, Abs(), d, gone', now) && gone <= gone'
      ensures Feeds(s0.routes, d, rt2.dest) ==> rt2.dest in gone'
      decreases ValidSet(s0.routes), 0
    {
      hide WellPlaced, Contents, Sweeping, DaemonSpec.Cascade, DaemonSpec.Invalidate, Feeds;
      gone' := gone;
      ghost var b := rt2.dest;
      At(rt2);
      if rt2.r.valid && rt2.r.flags.inetDest && rt2.r.nextHop == d {
        SweepRound(cfg, s0, Abs(), d, gone, b, now);
        gone' := gone + Cascade(Routes(), b);
        var _ := Invalidate(rt2, now);
        At(rt2);
        Store(rt2, Forget(rt2.r));
      } else {
        SweepSkips(cfg, s0, Abs(), d, gone, b, now);
      }
    }

    /** neighbor_link_break. */
    method LinkBreak(e: Entry, now: Time)
      requires Wf() && Holds(e)
      modifies this`numActive, this`kernel, entries.Values
      ensures Wf()
      ensures Abs() == DaemonSpec.LinkBreak(cfg, old(Abs()), e.dest, now)
    {
      At(e);
      if e.r.hops != 1 {
        return;
      }
      hide WellPlaced, Contents, DaemonSpec.Invalidate, CascadeAll, Collapse, Breaking, MarkRepair;
      InvalidateRoot(cfg, Abs(), e.dest, now);
      var _ := Invalidate(e, now);
      At(e);
      if !e.r.flags.repair {
        Store(e, Forget(e.r));
      }
      ghost var s := Abs();
      BreakStarts(cfg, s, e.dest, now);
      BreakDependents(e, now, s);
      BreakEnds(cfg, s, e.dest, now);
    }

    /** The loop over the table inside neighbor_link_break. */
    method BreakDependents(e: Entry, now: Time, ghost s: State)
      requires Wf() && Holds(e) && e.dest in s.routes && !s.routes[e.dest].valid && s.routes.Keys == entries.Keys
      requires Abs() == Breaking(cfg, s, e.dest, {}, now)
      modifies this`numActive, this`kernel, entries.Values
      ensures Wf() && Abs() == Breaking(cfg, s, e.dest, Dependents(s.routes, e.dest), now)
    {
      hide WellPlaced, Contents, Dests, Breaking;
      ghost var d := e.dest;
      ghost var done := {};
      var i := 0;
      Slots();
      while i < RT_TABLESIZE
        invariant 0 <= i <= RT_TABLESIZE && Wf()
        invariant done <= Dependents(s.routes, d) && Abs() == Breaking(cfg, s, d, done, now)
        invariant forall x :: x in Flatten(tbl[..i]) && x in Dependents(s.routes, d) ==> x in done
      {
        var k := 0;
        SeenBucket(tbl[..], i);
        assert tbl[..][..i] == tbl[..i] && tbl[..][..i + 1] == tbl[..i + 1];
        while k < |tbl[i]|
          invariant 0 <= k <= |tbl[i]| && Wf()
          invariant done <= Dependents(s.routes, d) && Abs() == Breaking(cfg, s, d, done, now)
          invariant forall x :: x in Seen(tbl[..], i, k) && x in Dependents(s.routes, d) ==> x in done
        {
          done := BreakDependent(tbl[i][k], e, now, s, done);
          SeenOneMore(tbl[..], i, k);
          k := k + 1;
        }
        i := i + 1;
      }
      FlattenCovers(tbl[..], entries, numEntries);
      assert tbl[..RT_TABLESIZE] == tbl[..];
      assert done == Dependents(s.routes, d);
    }

    /** The body of that loop. */
    method BreakDependent(rt: Entry, e: Entry, now: Time, ghost s: State, ghost done: set<Addr>) returns (ghost done': set<Addr>)
      requires Wf() && Holds(e) && Holds(rt) && s.routes.Keys == entries.Keys
      requires e.dest in s.routes && !s.routes[e.dest].valid && done <= Dependents(s.routes, e.dest)
      requires Abs() == Breaking(cfg, s, e.dest, done, now)
      modifies this`numActive, this`kernel, entries.Values
      ensures Wf() && Abs() == Breaking(cfg, s, e.dest, done', now)
      ensures done <= done' <= Dependents(s.routes, e.dest)
      ensures rt.dest in Dependents(s.routes, e.dest) ==> rt.dest in done'
    {
      hide WellPlaced, Contents, DaemonSpec.Invalidate, Breaking;
      ghost var d, b := e.dest, rt.dest;
      BreakLeaves(cfg, s, d, done, b, now);
      At(rt);
      At(e);
      done' := done;
      if rt.r.valid && rt.r.nextHop == e.dest && rt.dest != e.dest {
        BreakRound(cfg, s, d, done, b, now);
        done' := done + {b};
        if e.r.flags.repair && rt.r.hops <= MAX_REPAIR_TTL {
          Store(rt, rt.r.(flags := rt.r.flags.(repair := true)));
          var _ := Invalidate(rt, now);
        } else {
          var _ := Invalidate(rt, now);
          At(rt);
          Store(rt, Forget(rt.r));
        }
      }
    }

    /** rt_table_update_timeout. */
    method UpdateTimeout(e: Entry, lifetime: nat, now: Time)
      requires Wf() && Holds(e)
      modifies e
      ensures Abs() == old(Abs()).(routes := Touch(old(Routes()), e.dest, lifetime, now))
    {
      hide WellPlaced, Contents;
      At(e);
      if e.r.valid {
        if e.r.timer.timeout < now + lifetime {
          Store(e, Arm(e.r, now + lifetime));
        }
      } else {
        Store(e, Arm(e.r, now + lifetime));
      }
      assert Routes() == Touch(old(Routes()), e.dest, lifetime, now);
    }

    // ----- The packet buffer

    /** Take the packet at position `i` off the buffer and give its verdict. */
    method DetachPacket(i: nat, accept: bool)
      requires i < |queue| && len == |queue|
      modifies `queue, `len, `log
      ensures queue == old(queue)[..i] + old(queue)[i + 1..] && len == |queue|
      ensures var p := old(queue)[i]; log == old(log) + [Verdict(p.id, p.dest, accept, p.dest in kernel)]
    {
      var p := queue[i];
      queue := queue[..i] + queue[i + 1..];
      log := log + [Verdict(p.id, p.dest, accept, p.dest in kernel)];
      len := len - 1;
    }

    /** The loop of packet_queue_set_verdict: it detaches while it iterates. */
    method JudgeMatching(d: Addr, accept: bool) returns (count: nat)
      requires len == |queue|
      modifies `queue, `len, `log
      ensures queue == Others(old(queue), d) && len == |queue|
      ensures log == old(log) + Verdicts(kernel, Matching(old(queue), d), accept)
      ensures count == |Matching(old(queue), d)|
    {
      var i := 0;
      count := 0;
      ghost var done, ahead := [], queue;
      hide Verdicts, Others, Matching;
      WalkStarts(log, kernel, queue, d, 0, accept);
      while i < |queue|
        invariant old(queue) == done + ahead && queue == Others(done, d) + ahead && i == |Others(done, d)|
        invariant log == old(log) + Verdicts(kernel, Matching(done, d), accept)
        invariant count == |Matching(done, d)| && len == |queue|
        decreases ahead
      {
        WalkStep(Others(done, d), ahead);
        WalkStep(done, ahead);
        MatchingOneMore(done, ahead[0], d);
        if queue[i].dest != d {
          i := i + 1;
        } else {
          VerdictsOneMore(old(log), kernel, Matching(done, d), ahead[0], accept);
          DetachPacket(i, accept);
          count := count + 1;
        }
        done, ahead := done + [ahead[0]], ahead[1..];
      }
      assert done == old(queue);
    }

    /** The loop of packet_queue_garbage_collect. */
    method JudgeAged(now: Time) returns (count: nat)
      requires len == |queue|
      modifies `queue, `len, `log
      ensures queue == Young(old(queue), now) && len == |queue|
      ensures log == old(log) + Verdicts(kernel, Aged(old(queue), now), false)
      ensures count == |Aged(old(queue), now)|
    {
      var i := 0;
      count := 0;
      ghost var done, ahead := [], queue;
      hide Verdicts, Young, Aged;
      WalkStarts(log, kernel, queue, 0, now, false);
      while i < |queue|
        invariant old(queue) == done + ahead && queue == Young(done, now) + ahead && i == |Young(done, now)|
        invariant log == old(log) + Verdicts(kernel, Aged(done, now), false)
        invariant count == |Aged(done, now)| && len == |queue|
        decreases ahead
      {
        WalkStep(Young(done, now), ahead);
        WalkStep(done, ahead);
        AgedOneMore(done, ahead[0], now);
        if now - queue[i].at <= MAX_QUEUE_TIME {
          i := i + 1;
        } else {
          VerdictsOneMore(old(log), kernel, Aged(done, now), ahead[0], false);
          DetachPacket(i, false);
          count := count + 1;
        }
        done, ahead := done + [ahead[0]], ahead[1..];
      }
      assert done == old(queue);
    }

    /** packet_queue_garbage_collect. */
    method GarbageCollect(now: Time) returns (count: nat)
      requires Wf()
      modifies `queue, `len, `log
      ensures Wf() && Abs() == Collect(old(Abs()), now) && count == |Aged(old(queue), now)|
    {
      hide WellPlaced, Contents;
      count := JudgeAged(now);
    }

    /** packet_queue_destroy. */
    method DestroyQueue()
      requires Wf()
      modifies `queue, `len, `log
      ensures Wf() && Abs() == Shutdown(old(Abs()))
    {
      hide WellPlaced, Contents;
      ghost var q, n := queue, 0;
      while queue != []
        invariant 0 <= n <= |q| && queue == q[n..] && len == |queue|
        invariant log == old(log) + Verdicts(kernel, q[..n], false)
        decreases |queue|
      {
        assert q[..n + 1] == q[..n] + [q[n]];
        VerdictsOneMore(old(log), kernel, q[..n], q[n], false);
        DetachPacket(0, false);
        n := n + 1;
      }
      assert q[..n] == q;
      len := 0;
    }

    /** packet_queue_add. */
    method AddPacket(id: U32, d: Addr, now: Time)
      requires Wf()
      modifies `queue, `len, `log
      ensures Wf() && Abs() == Enqueue(old(Abs()), id, d, now)
    {
      hide WellPlaced, Contents;
      if len >= MAX_QUEUE_LENGTH && queue != [] {
        assert queue[..0] + queue[1..] == queue[1..];
        assert queue[..1] == [] + [queue[0]];
        VerdictsOneMore(old(log), kernel, [], queue[0], false);
        DetachPacket(0, false);
      }
      queue := queue + [Buffered(id, d, now)];
      len := len + 1;
    }

    /** packet_queue_set_verdict.  The fallback that would look up the gateway of an Internet
        destination is dead: both lookups ask for the same destination. */
    method SetVerdict(d: Addr, v: PqVerdict, now: Time) returns (count: int)
      requires Wf()
      modifies `queue, `len, `log, entries.Values
      ensures Wf()
      ensures v.PqDrop? ==> Abs() == DropFor(old(Abs()), d)
      ensures !v.PqDrop? ==> Abs() == SendFor(cfg, old(Abs()), d, now)
      ensures count == if v.PqDrop? || d in old(Routes()) then |Matching(old(queue), d)| else -1
    {
      hide WellPlaced, Contents;
      var rt: Entry?, inetRt: Entry? := null, null;
      if !v.PqDrop? {
        if v.PqEncSend? {
          inetRt := Find(d);
        }
        rt := Find(d);
        if rt == null && inetRt != null {
          assert false;
        }
        if rt == null {
          return -1;
        }
      }
      count := JudgeMatching(d, !v.PqDrop?);
      if rt != null && rt.r.valid {
        UpdateTimeout(rt, cfg.activeRouteTimeout, now);
        At(rt);
        var nh := Find(rt.r.nextHop);
        if nh != null && nh.r.valid && nh.dest != rt.dest {
          UpdateTimeout(nh, cfg.activeRouteTimeout, now);
        }
      }
    }

    /** The end of rt_table_insert and rt_table_update. */
    method ReleaseFor(e: Entry, now: Time)
      requires Wf() && Holds(e)
      modifies `seeking, `queue, `len, `log, entries.Values
      ensures Wf() && Abs() == Release(cfg, old(Abs()), e.dest, now)
    {
      hide WellPlaced, Contents;
      if e.dest in seeking {
        seeking := seeking - {e.dest};
        var _ := SetVerdict(e.dest, if e.r.flags.inetDest then PqEncSend else PqSend, now);
      }
    }

    // ----- Insertion, update, deletion

    /** The search for an existing entry at the start of rt_table_insert. */
    method IsKnown(d: Addr) returns (known: bool)
      requires Wf()
      ensures (known <==> d in Routes()) && (known <==> d in entries)
    {
      var i, k := Bucket(d), 0;
      while k < |tbl[i]|
        invariant 0 <= k <= |tbl[i]|
        invariant forall j :: 0 <= j < k ==> tbl[i][j].dest != d
      {
        if tbl[i][k].dest == d {
          return true;
        }
        k := k + 1;
      }
      return false;
    }

    /** rt_table_insert. */
    method Insert(d: Addr, c: Change, valid: bool, now: Time) returns (e: Entry?)
      requires Wf()
      modifies this, tbl, entries.Values
      ensures Wf() && Abs() == DaemonSpec.Insert(cfg, old(Abs()), d, c, valid, now)
      ensures e == null <==> d in old(Routes())
      ensures e != null ==> Holds(e) && e.dest == d && fresh(e)
    {
      hide WellPlaced, Contents, Release;
      var known := IsKnown(d);
      if known {
        return null;
      }
      e := new Entry(d, NewRoute(cfg, c, valid, now));
      AddEntry(e);
      if valid {
        numActive := numActive + 1;
        SendAddRoute(d, c.next, c.hops);
        ReleaseFor(e, now);
      }
    }

    /** list_add at the head of the entry's bucket. */
    method AddEntry(e: Entry)
      requires Wf() && e.dest !in entries && e.hash == e.dest
      modifies `entries, `numEntries, tbl
      ensures Wf() && entries == old(entries)[e.dest := e]
      ensures Abs() == Put(old(Abs()), e.dest, e.r)
    {
      ghost var buckets := tbl[..];
      var i := Bucket(e.dest);
      hide WellPlaced, Contents;
      PlaceFirst(buckets, entries, numEntries, e);
      ContentsWith(entries, e);
      hide Contents;
      numEntries := numEntries + 1;
      tbl[i] := [e] + tbl[i];
      assert tbl[..] == buckets[i := [e] + buckets[i]];
      entries := entries[e.dest := e];
    }

    /** The place of an entry in its bucket. */
    method Locate(e: Entry) returns (k: nat)
      requires Wf() && Holds(e)
      ensures tbl.Length == RT_TABLESIZE && k < |tbl[Bucket(e.dest)]| && tbl[Bucket(e.dest)][k] == e
    {
      SlotOf(e);
      k :| 0 <= k < |tbl[Bucket(e.dest)]| && tbl[Bucket(e.dest)][k] == e;
    }

    /** list_detach, and one entry less. */
    method RemoveEntry(e: Entry)
      requires Wf() && Holds(e)
      modifies `entries, `numEntries, tbl
      ensures forall i :: 0 <= i < tbl.Length && i != Bucket(e.dest) ==> tbl[i] == old(tbl[i])
      ensures Wf() && entries == old(entries) - {e.dest}
      ensures Abs() == old(Abs()).(routes := old(Routes()) - {e.dest})
    {
      hide WellPlaced;
      ghost var buckets := tbl[..];
      var i := Bucket(e.dest);
      var k := Locate(e);
      Displace(buckets, entries, numEntries, i, k);
      ContentsWithout(entries, e.dest);
      hide Contents;
      tbl[i] := tbl[i][..k] + tbl[i][k + 1..];
      assert tbl[..] == buckets[i := buckets[i][..k] + buckets[i][k + 1..]];
      numEntries := numEntries - 1;
      entries := entries - {e.dest};
    }

    /** rt_table_delete. */
    method Delete(e: Entry)
      requires Wf() && Holds(e)
      modifies `entries, `numEntries, `numActive, `kernel, tbl
      ensures forall i :: 0 <= i < tbl.Length && i != Bucket(e.dest) ==> tbl[i] == old(tbl[i])
      ensures Wf() && entries == old(entries) - {e.dest}
      ensures Abs() == DaemonSpec.Delete(old(Abs()), e.dest)
    {
      hide WellPlaced, Contents;
      At(e);
      RemoveEntry(e);
      if e.r.valid {
        SendDelRoute(e.dest, e.r.nextHop, e.r.hops);
        numActive := numActive - 1;
        DropsOne(old(kernel), old(Routes()), e.dest);
      }
    }

    /** rt_table_destroy. */
    method DestroyTable()
      requires Wf()
      modifies `entries, `numEntries, `numActive, `kernel, tbl
      ensures Wf() && entries == map[] && numEntries == 0 && forall i :: 0 <= i < tbl.Length ==> tbl[i] == []
      ensures Abs() == Removed(old(Abs()), old(Routes()).Keys)
    {
      hide WellPlaced, Contents, Removed;
      Slots();
      ghost var s, gone := Abs(), {};
      RemovedNone(s);
      var i := 0;
      while i < RT_TABLESIZE
        invariant 0 <= i <= RT_TABLESIZE && Wf()
        invariant gone <= s.routes.Keys && Abs() == Removed(s, gone)
        invariant forall j :: 0 <= j < i ==> tbl[j] == []
      {
        gone := EmptyBucket(i, s, gone);
        i := i + 1;
      }
      NothingLeft(tbl[..], entries, numEntries);
      KeysOfRoutes();
      RemovedAll(s, gone);
    }

    /** The loop over one bucket in rt_table_destroy. */
    method EmptyBucket(i: nat, ghost s: State, ghost gone: set<Addr>) returns (ghost gone': set<Addr>)
      requires Wf() && i < tbl.Length && gone <= s.routes.Keys && Abs() == Removed(s, gone)
      modifies `entries, `numEntries, `numActive, `kernel, tbl
      ensures Wf() && gone' <= s.routes.Keys && Abs() == Removed(s, gone') && tbl[i] == []
      ensures forall j :: 0 <= j < tbl.Length && j != i ==> tbl[j] == old(tbl[j])
    {
      hide WellPlaced, Contents, Removed, DaemonSpec.Delete;
      gone' := gone;
      while tbl[i] != []
        invariant Wf() && gone' <= s.routes.Keys && Abs() == Removed(s, gone')
        invariant forall j :: 0 <= j < tbl.Length && j != i ==> tbl[j] == old(tbl[j])
        decreases entries.Keys
      {
        var e := tbl[i][0];
        InBucket(i);
        At(e);
        RemovedOneMore(s, gone', e.dest);
        Delete(e);
        gone' := gone' + {e.dest};
      }
    }

    lemma InBucket(i: nat)
      requires Wf() && i < tbl.Length && tbl[i] != []
      ensures Holds(tbl[i][0]) && Bucket(tbl[i][0].dest) == i
    {
    }

    /** The first part of rt_table_update: count the entry and tell the kernel. */
    method AnnounceRoute(e: Entry, c: Change) returns (flags: Flags)
      requires Wf() && Holds(e)
      modifies `numActive, `kernel
      ensures Wf() && Abs() == Announce(old(Abs()), e.dest, c) && flags == NewFlags(e.r, c)
    {
      hide WellPlaced, Contents;
      At(e);
      flags := c.flags;
      if !e.r.valid {
        numActive := numActive + 1;
        if e.r.flags.repair {
          flags := flags.(repair := false);
        }
        SendAddRoute(e.dest, c.next, c.hops);
      } else if e.r.nextHop != 0 && e.r.nextHop != c.next {
        SendAddRoute(e.dest, c.next, c.hops);
      }
    }

    /** rt_table_update up to the new values of the entry. */
    method RewriteEntry(e: Entry, c: Change, now: Time) returns (flags: Flags)
      requires Wf() && Holds(e)
      modifies `numActive, `kernel, entries.Values
      ensures Wf() && Abs() == Rewrite(cfg, old(Abs()), e.dest, c, now) && flags == NewFlags(old(e.r), c)
    {
      hide WellPlaced, Contents, DaemonSpec.LinkBreak;
      At(e);
      flags := AnnounceRoute(e, c);
      At(e);
      if c.hops > 1 && e.r.hops == 1 {
        Store(e, e.r.(hello := false));
        LinkBreak(e, now);
      }
      At(e);
      Store(e, e.r.(flags := flags, seqno := c.seqno, nextHop := c.next, hops := c.hops));
    }

    /** The rest of rt_table_update. */
    method ReviveEntry(e: Entry, lifetime: nat, now: Time)
      requires Wf() && Holds(e)
      modifies `seeking, `queue, `len, `log, entries.Values
      ensures Wf() && Abs() == Revive(cfg, old(Abs()), e.dest, lifetime, now)
    {
      hide WellPlaced, Contents, Release;
      At(e);
      ghost var s := Abs();
      Store(e, e.r.(timer := e.r.timer.(handler := RouteExpire)));
      At(e);
      if !e.r.flags.inetDest {
        UpdateTimeout(e, lifetime, now);
        At(e);
      }
      Store(e, e.r.(valid := true));
      assert Routes() == s.routes[e.dest := e.r];
      ReleaseFor(e, now);
    }

    /** The loops over the table visit every entry once. */
    lemma TableTraverses()
      requires Wf()
      ensures Traverses(Order(), Routes())
    {
      KeysOfRoutes();
      assert tbl[..][..RT_TABLESIZE] == tbl[..];
      FlattenCovers(tbl[..], entries, numEntries);
      FlattenMeetsOnce(tbl[..], RT_TABLESIZE, entries, numEntries);
    }

    /** rt_table_update.  The second precondition is exactly that it comes back at all, see
        `GatewayRecursion.ReturnsIff`. */
    method Update(e: Entry, c: Change, now: Time)
      requires Wf() && Holds(e)
      requires e.dest in Routes() && Returns(cfg, Abs(), e.dest, c, Order(), now)
      modifies `numActive, `kernel, `seeking, `queue, `len, `log, entries.Values
      ensures Wf() && Abs() == DaemonSpec.Update(cfg, old(Abs()), e.dest, c, Order(), now)
    {
      hide WellPlaced, Contents, Returns, DaemonSpec.Update, UpdateWithin, Traverses;
      TableTraverses();
      ReturnsIff(cfg, Abs(), e.dest, c, Order(), now);
      UpdateNested(e, c, now, 3);
    }

    /** rt_table_update inside at most `depth` calls of itself. */
    method UpdateNested(e: Entry, c: Change, now: Time, ghost depth: nat)
      requires Wf() && Holds(e) && e.dest in Routes()
      requires UpdateWithin(depth, cfg, Abs(), e.dest, c, Order(), now).Done?
      modifies `numActive, `kernel, `seeking, `queue, `len, `log, entries.Values
      ensures Wf() && e.dest in old(Routes())
      ensures UpdateWithin(depth, cfg, old(Abs()), e.dest, c, Order(), now) == Done(Abs())
      decreases depth, 0
    {
      hide WellPlaced, Contents, Rewrite, Revive, MoveWithin;
      At(e);
      RewriteRoot(cfg, Abs(), e.dest, c, now);
      var flags := RewriteEntry(e, c, now);
      if flags.gateway {
        var _ := UpdateInetRt(e, c.lifetime, now, depth - 1);
      }
      ReviveEntry(e, c.lifetime, now);
    }

    /** rt_table_update_inet_rt, with at most `depth` calls of rt_table_update inside each other. */
    method UpdateInetRt(gw: Entry, life: nat, now: Time, ghost depth: nat) returns (n: nat)
      requires Wf() && Holds(gw) && gw.dest in Routes()
      requires MoveWithin(depth, cfg, Abs(), gw.dest, life, Order(), Order(), now).Done?
      modifies `numActive, `kernel, `seeking, `queue, `len, `log, entries.Values
      ensures Wf() && gw.dest in old(Routes())
      ensures MoveWithin(depth, cfg, old(Abs()), gw.dest, life, Order(), Order(), now) == Done(Moved(Abs(), n))
      ensures old(gw.r.flags.gateway) ==> n >= |InetSet(Routes())|
      ensures old(gw.r.flags.gateway) && (old(gw.r.valid) ==> gw.r.valid) ==> n == |InetSet(Routes())|
      decreases depth, 2
    {
      hide WellPlaced, Contents, Dests, MoveWithin, InetSet, Traverses;
      At(gw);
      ghost var s, order := Abs(), Order();
      n := 0;
      var i := 0;
      Slots();
      MoveStarts(depth, cfg, s, gw.dest, life, order, now);
      while i < RT_TABLESIZE
        invariant 0 <= i <= RT_TABLESIZE && Wf()
        invariant MoveWithin(depth, cfg, s, gw.dest, life, Flatten(tbl[..i]), order, now) == Done(Moved(Abs(), n))
      {
        var k := 0;
        SeenBucket(tbl[..], i);
        assert tbl[..][..i] == tbl[..i] && tbl[..][..i + 1] == tbl[..i + 1];
        while k < |tbl[i]|
          invariant 0 <= k <= |tbl[i]| && Wf()
          invariant MoveWithin(depth, cfg, s, gw.dest, life, Seen(tbl[..], i, k), order, now) == Done(Moved(Abs(), n))
        {
          SeenOneMore(tbl[..], i, k);
          SeenIsPrefix(tbl[..], i, k + 1);
          DoneBefore(depth, cfg, s, gw.dest, life, Seen(tbl[..], i, k + 1), order, now);
          var updated := UpdateInetEntry(tbl[i][k], gw, life, now, depth, s, Seen(tbl[..], i, k), n);
          if updated {
            n := n + 1;
          }
          k := k + 1;
        }
        i := i + 1;
      }
      assert tbl[..RT_TABLESIZE] == tbl[..];
      At(gw);
      SameDestinations(s.routes);
      TableTraverses();
      Counted(depth, s, gw.dest, life, now, n);
    }

    lemma SameDestinations(routes: map<Addr, Route>)
      requires Wf() && routes.Keys == Routes().Keys
      ensures Traverses(Order(), routes)
    {
      hide WellPlaced;
      TableTraverses();
    }

    lemma Counted(depth: nat, s: State, gw: Addr, life: nat, now: Time, n: nat)
      requires gw in s.routes && Traverses(Order(), s.routes)
      requires MoveWithin(depth, cfg, s, gw, life, Order(), Order(), now) == Done(Moved(Abs(), n))
      ensures gw in Routes()
      ensures s.routes[gw].flags.gateway ==> n >= |InetSet(Routes())|
      ensures s.routes[gw].flags.gateway && (s.routes[gw].valid ==> Routes()[gw].valid) ==> n == |InetSet(Routes())|
    {
      hide WellPlaced, Contents, MoveWithin, MoveAll, MoveCount, MoveReturns, Traverses, InetSet;
      DoneIsMove(depth, cfg, s, gw, life, Order(), now);
      if s.routes[gw].flags.gateway {
        CountsWhatIsLeft(cfg, s, gw, life, Order(), now);
      }
    }

    /** The body of that loop. */
    method UpdateInetEntry(rt: Entry, gw: Entry, life: nat, now: Time,
        ghost depth: nat, ghost s: State, ghost seen: seq<Addr>, ghost n: nat) returns (updated: bool)
      requires Wf() && Holds(gw) && Holds(rt) && gw.dest in s.routes
      requires MoveWithin(depth, cfg, s, gw.dest, life, seen, Order(), now) == Done(Moved(Abs(), n))
      requires MoveWithin(depth, cfg, s, gw.dest, life, seen + [rt.dest], Order(), now).Done?
      modifies `numActive, `kernel, `seeking, `queue, `len, `log, entries.Values
      ensures Wf()
      ensures MoveWithin(depth, cfg, s, gw.dest, life, seen + [rt.dest], Order(), now) ==
              Done(Moved(Abs(), n + if updated then 1 else 0))
      decreases depth, 1
    {
      hide WellPlaced, Contents, MoveWithin, UpdateWithin;
      At(rt);
      At(gw);
      MoveStep(depth, cfg, s, gw.dest, life, seen, rt.dest, Order(), now);
      updated := rt.r.flags.inetDest && rt.r.valid;
      if updated {
        assert InetActive(Routes(), rt.dest);
        UpdateNested(rt, Change(gw.dest, gw.r.hops, 0, life, rt.r.flags), now, depth);
      }
    }

    // ----- Timers

    /** local_repair_timeout. */
    method RepairTimedOut(e: Entry, now: Time)
      requires Wf() && Holds(e)
      modifies `kernel, e
      ensures Wf() && Abs() == RepairTimeout(cfg, old(Abs()), e.dest, now)
    {
      hide WellPlaced, Contents;
      At(e);
      SendDelRoute(e.dest, e.r.nextHop, e.r.hops);
      var r := Forget(e.r.(flags := e.r.flags.(repair := false)));
      Store(e, r.(timer := Timer(RouteDelete, true, now + cfg.deletePeriod)));
      DropsOne(old(kernel), old(Routes()), e.dest);
    }

    /** The route timer of an entry has expired: route_expire_timeout, local_repair_timeout
        or route_delete_timeout. */
    method TimerExpired(e: Entry, now: Time)
      requires Wf() && Holds(e)
      modifies `entries, `numEntries, `numActive, `kernel, tbl, entries.Values
      ensures Wf() && Abs() == Expire(cfg, old(Abs()), e.dest, now)
    {
      hide WellPlaced, Contents, DaemonSpec.LinkBreak, DaemonSpec.Invalidate, DaemonSpec.Delete, RepairTimeout;
      At(e);
      Store(e, e.r.(timer := e.r.timer.(used := false)));
      match e.r.timer.handler
      case RouteExpire =>
        if e.r.hops == 1 {
          LinkBreak(e, now);
        } else {
          var _ := Invalidate(e, now);
          At(e);
          Store(e, Forget(e.r));
        }
      case LocalRepair =>
        RepairTimedOut(e, now);
      case RouteDelete =>
        Delete(e);
    }

    /** hello_timeout. */
    method HelloTimedOut(e: Entry, localRepair: bool, now: Time)
      requires Wf() && Holds(e)
      modifies `numActive, `kernel, entries.Values
      ensures Wf() && Abs() == HelloTimeout(cfg, old(Abs()), e.dest, localRepair, now)
    {
      hide WellPlaced, Contents, DaemonSpec.LinkBreak;
      At(e);
      Store(e, e.r.(hello := false));
      At(e);
      if e.r.valid && !e.r.flags.unidir {
        if localRepair && e.r.hops <= MAX_REPAIR_TTL {
          Store(e, e.r.(flags := e.r.flags.(repair := true)));
        }
        LinkBreak(e, now);
      }
    }

    /** route_discovery_timeout after the last retry. */
    method SeekTimedOut(d: Addr, now: Time)
      requires Wf()
      modifies `seeking, `kernel, `queue, `len, `log, entries.Values
      ensures Wf() && Abs() == SeekFailed(cfg, old(Abs()), d, now)
    {
      hide WellPlaced, Contents, DropFor, RepairTimeout;
      if d in seeking {
        DropKeepsRoutes(Abs(), d);
        var _ := SetVerdict(d, PqDrop, now);
        var rt := Find(d);
        seeking := seeking - {d};
        if rt != null && rt.r.flags.repair {
          RepairTimedOut(rt, now);
        }
      }
    }

    // ----- Neighbours

    /** precursor_add. */
    method PrecursorAdd(e: Entry, addr: Addr)
      requires Wf() && Holds(e)
      modifies e
      ensures Wf() && Abs() == AddPrecursor(old(Abs()), e.dest, addr)
    {
      hide WellPlaced, Contents;
      At(e);
      var k := 0;
      while k < |e.r.precursors|
        invariant 0 <= k <= |e.r.precursors| && addr !in e.r.precursors[..k]
      {
        if e.r.precursors[k] == addr {
          return;
        }
        k := k + 1;
      }
      assert e.r.precursors[..k] == e.r.precursors;
      Store(e, e.r.(precursors := [addr] + e.r.precursors));
    }

    /** hello_update_timeout. */
    method HelloReceived(e: Entry)
      requires Wf() && Holds(e)
      modifies e
      ensures Wf() && Abs() == StartHello(old(Abs()), e.dest)
    {
      hide WellPlaced, Contents;
      At(e);
      Store(e, e.r.(hello := true));
    }

    // ----- Data packets

    /** rt_table_update_route_timeouts. */
    method UpdateRouteTimeouts(dest: Addr, src: Addr, now: Time)
      requires Wf()
      modifies entries.Values
      ensures Wf()
      ensures Abs() == old(Abs()).(routes := RefreshReverse(cfg, RefreshForward(cfg, old(Routes()), dest, now), src, now))
    {
      hide WellPlaced, Contents, Touch;
      var fwd := Find(dest);
      if fwd != null && fwd.r.valid {
        if cfg.llfeedback || fwd.r.flags.inetDest || fwd.r.hops != 1 || fwd.r.hello {
          UpdateTimeout(fwd, cfg.activeRouteTimeout, now);
        }
        RefreshNextHopOf(fwd, now);
      }
      assert Routes() == RefreshForward(cfg, old(Routes()), dest, now);
      var rev := Find(src);
      if rev != null && rev.r.valid {
        if cfg.llfeedback || rev.r.hops != 1 || rev.r.hello {
          UpdateTimeout(rev, cfg.activeRouteTimeout, now);
        }
        RefreshNextHopOf(rev, now);
      }
    }

    method RefreshNextHopOf(e: Entry, now: Time)
      requires Wf() && Holds(e)
      modifies entries.Values
      ensures Abs() == old(Abs()).(routes := RefreshNextHop(cfg, old(Routes()), e.dest, now))
    {
      hide WellPlaced, Contents, Touch;
      At(e);
      var nh := Find(e.r.nextHop);
      if nh != null && nh.r.valid && nh.dest != e.dest && (cfg.llfeedback || e.r.hello) {
        UpdateTimeout(nh, cfg.activeRouteTimeout, now);
      }
    }

    /** Keep an entry that waits for a reply. */
    method HoldEntry(e: Entry, now: Time)
      requires Wf() && Holds(e)
      modifies e
      ensures Abs() == old(Abs()).(routes := Hold(old(Routes()), e.dest, now))
    {
      hide WellPlaced, Contents, Touch;
      At(e);
      if e.r.timer.timeout - now < DISCOVERY_HOLD {
        UpdateTimeout(e, DISCOVERY_HOLD, now);
      }
    }

    /** rreq_route_discovery. */
    method RouteDiscovery(d: Addr, now: Time)
      requires Wf()
      modifies `seeking, entries.Values
      ensures Wf() && Abs() == Discover(old(Abs()), d, now)
    {
      hide WellPlaced, Contents, Touch;
      if d in seeking {
        return;
      }
      var rt := Find(d);
      if rt != null {
        HoldEntry(rt, now);
      }
      seeking := seeking + {d};
    }

    /** rreq_local_repair. */
    method RepairRoute(e: Entry, now: Time)
      requires Wf() && Holds(e)
      modifies `seeking, entries.Values
      ensures Wf() && Abs() == Repair(old(Abs()), e.dest, now)
    {
      hide WellPlaced, Contents, Hold;
      At(e);
      if e.dest in seeking || !e.r.flags.repair {
        return;
      }
      Store(e, e.r.(timer := e.r.timer.(handler := RouteExpire)));
      HoldEntry(e, now);
      seeking := seeking + {e.dest};
    }

    /** nfqueue_set_packet_verdict from the callback. */
    method Reply(p: Packet, accept: bool)
      requires Wf()
      modifies `log
      ensures Wf() && Abs() == Answer(old(Abs()), p, accept)
    {
      log := log + [Verdict(p.id, p.dest, accept, p.dest in kernel)];
    }

    /** nfqueue_packet_cb with packet_input_handle_packet and send_rerr_for_unknown_dest. */
    method HandlePacket(p: Packet, now: Time)
      requires Wf()
      modifies `seeking, `queue, `len, `log, entries.Values
      ensures Wf() && Abs() == Receive(cfg, old(Abs()), p, now)
    {
      hide WellPlaced, Contents, RefreshForward, RefreshReverse, Touch, Enqueue, Discover, Repair, Answer;
      log := log + [Arrived(p.id, p.dest, p.bypass)];
      if p.bypass {
        Reply(p, true);
        return;
      }
      UpdateRouteTimeouts(p.dest, p.src, now);
      var fwd := Find(p.dest);
      if fwd == null || !fwd.r.valid || (fwd.r.hops == 1 && fwd.r.flags.unidir) {
        var repairing := fwd != null && fwd.r.flags.repair;
        if !repairing && p.forward {
          TouchNothing(Routes(), p.dest, cfg.deletePeriod, now);
          if fwd != null {
            UpdateTimeout(fwd, cfg.deletePeriod, now);
          }
          Reply(p, false);
        } else {
          AddPacket(p.id, p.dest, now);
          if repairing {
            RepairRoute(fwd, now);
          } else {
            RouteDiscovery(p.dest, now);
          }
        }
      } else {
        Reply(p, true);
      }
    }
  }

  lemma RemovedNone(s: State)
    ensures Removed(s, {}) == s
  {
    assert ValidSet(s.routes) * {} == {};
    assert s.routes - {} == s.routes && DropRoutes(s.kernel, s.routes, {}) == s.kernel;
  }

  lemma RemovedOneMore(s: State, gone: set<Addr>, d: Addr)
    requires gone <= s.routes.Keys && d in Removed(s, gone).routes
    ensures d in s.routes && DaemonSpec.Delete(Removed(s, gone), d) == Removed(s, gone + {d})
  {
    hide DropRoutes, ValidSet;
    var v := ValidSet(s.routes);
    ValidMember(s.routes, d);
    assert s.routes - gone - {d} == s.routes - (gone + {d});
    if d in v {
      OneMoreIn(v, gone, d);
      DropOneMore(s.kernel, s.routes, v * gone, gone, d);
    } else {
      assert v * (gone + {d}) == v * gone;
    }
  }

  lemma OneMoreIn(v: set<Addr>, gone: set<Addr>, d: Addr)
    requires d in v && d !in gone
    ensures v * (gone + {d}) == v * gone + {d} && |v * (gone + {d})| == |v * gone| + 1
  {
    assert v * (gone + {d}) == v * gone + {d};
  }

  lemma DropOneMore(kernel: Kernel, routes: map<Addr, Route>, dropped: set<Addr>, gone: set<Addr>, d: Addr)
    requires dropped <= routes.Keys && d in routes && d !in gone
    ensures d in (routes - gone).Keys &&
            DropRoutes(DropRoutes(kernel, routes, dropped), routes - gone, {d}) == DropRoutes(kernel, routes, dropped + {d})
  {
  }

  lemma RemovedAll(s: State, gone: set<Addr>)
    requires gone <= s.routes.Keys && forall d :: d !in Removed(s, gone).routes
    ensures gone == s.routes.Keys
  {
    forall d | d in s.routes ensures d in gone {
      assert d !in s.routes - gone;
    }
  }

  /** A table of empty buckets has no entries. */
  lemma NothingLeft(buckets: seq<seq<Entry>>, entries: map<Addr, Entry>, n: int)
    requires WellPlaced(buckets, entries, n) && forall i :: 0 <= i < |buckets| ==> buckets[i] == []
    ensures entries == map[] && n == 0
  {
    forall d ensures d !in entries {
      assert Bucket(d) < |buckets|;
    }
    assert entries == map[];
  }

  lemma DropKeepsRoutes(s: State, d: Addr)
    ensures DropFor(s, d).routes == s.routes && DropFor(s, d).seeking == s.seeking
  {
  }

  lemma TouchNothing(routes: map<Addr, Route>, d: Addr, lifetime: nat, now: Time)
    ensures d !in routes ==> Touch(routes, d, lifetime, now) == routes
  {
  }
}
