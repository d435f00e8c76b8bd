/** The kernel module as a whole: netlink messages from the owning daemon act on the list of
    routes and on the queue of packets that wait for one. */
module KernelModule {
  import opened Basics
  import opened KernelQueue
  import E = ExpireList

  datatype Message =
    | AddRoute(dst: Addr, via: E.Via, time: nat)
    | DelRoute(dst: Addr)
    | NoRouteFound(dst: Addr)
    | Configure(activeRouteTimeout: int, qualTh: int, isGateway: int)
    | Unknown

  /** A packet put back on its way, wrapped for the gateway `gw` or as it was. */
  datatype Delivery = Plain(p: Skb) | Encapsulated(p: Skb, gw: Addr)

  /** `peer` is the process that owns the module, 0 if there is none; `delivered` and `freed`
      record what became of packets, `icmp` the senders told that a host is unreachable. */
  datatype Kernel = Kernel(
    expl: E.Expl,
    queue: seq<Skb>,
    peer: int,
    delivered: seq<Delivery>,
    freed: seq<Skb>,
    icmp: seq<Skb>)

  const Initial: Kernel := Kernel(E.Expl([], 0), [], 0, [], [], [])

  /** What the module cannot decide itself: the clock, its rate, and which packets fail to be
      encapsulated. */
  datatype World = World(jiffies: nat, hz: nat, encapFails: set<nat>)

  // ----- The operations as functions

  /** kaodv_queue_set_verdict with KAODV_QUEUE_DROP. */
  function DropAll(k: Kernel, d: Addr): Kernel {
    var pkts := Only(k.queue, d);
    k.(queue := Rest(k.queue, d), freed := k.freed + pkts, icmp := k.icmp + (if pkts == [] then [] else [pkts[0]]))
  }

  function RouteTo(x: E.Expl, d: Addr): Option<E.Via> {
    if E.Has(x.list, d) then Some(x.list[E.Place(x.list, d)].via) else None
  }

  /** What becomes of one packet that is to be sent: without a route, or if it cannot be
      encapsulated for the gateway, it is freed. */
  function Fate(r: Option<E.Via>, p: Skb, fails: set<nat>): Option<Delivery> {
    if r.None? || (r.value.encap && p.id in fails) then None
    else if r.value.encap then Some(Encapsulated(p, r.value.nhop))
    else Some(Plain(p))
  }

  function Deliveries(r: Option<E.Via>, pkts: seq<Skb>, fails: set<nat>): seq<Delivery> {
    if pkts == [] then [] else
    var n := |pkts| - 1;
    var fate := Fate(r, pkts[n], fails);
    if fate.Some? then Deliveries(r, pkts[..n], fails) + [fate.value] else Deliveries(r, pkts[..n], fails)
  }

  function Losses(r: Option<E.Via>, pkts: seq<Skb>, fails: set<nat>): seq<Skb> {
    if pkts == [] then [] else
    var n := |pkts| - 1;
    if Fate(r, pkts[n], fails).Some? then Losses(r, pkts[..n], fails) else Losses(r, pkts[..n], fails) + [pkts[n]]
  }

  lemma SentOneMore(r: Option<E.Via>, pkts: seq<Skb>, p: Skb, fails: set<nat>)
    ensures var fate := Fate(r, p, fails);
            && Deliveries(r, pkts + [p], fails) ==
                 (if fate.Some? then Deliveries(r, pkts, fails) + [fate.value] else Deliveries(r, pkts, fails))
            && Losses(r, pkts + [p], fails) == (if fate.Some? then Losses(r, pkts, fails) else Losses(r, pkts, fails) + [p])
  {
    assert (pkts + [p])[..|pkts|] == pkts;
  }

  /** kaodv_queue_set_verdict with KAODV_QUEUE_SEND. */
  function SendAll(k: Kernel, d: Addr, w: World): Kernel {
    var r, pkts := RouteTo(k.expl, d), Only(k.queue, d);
    k.(queue := Rest(k.queue, d),
       delivered := k.delivered + Deliveries(r, pkts, w.encapFails),
       freed := k.freed + Losses(r, pkts, w.encapFails))
  }

  /** kaodv_netlink_receive_peer.  A known route is not refreshed by KAODVM_ADDROUTE: the lookup
      answers 0 or 1, and the update is reserved for negative answers. */
  function Receive(k: Kernel, m: Message, w: World): Kernel {
    match m
    case AddRoute(d, via, time) =>
      SendAll(k.(expl := E.Add(k.expl, E.Entry(d, via, E.Deadline(w.jiffies, time, w.hz)))), d, w)
    case DelRoute(d) => DropAll(k.(expl := E.Del(k.expl, d)), d)
    case NoRouteFound(d) => DropAll(k, d)
    case Configure(_, _, _) => k
    case Unknown => k
  }

  const EINVAL := 22
  const EBUSY := 16

  /** The answer of kaodv_netlink_receive_peer. */
  function Status(k: Kernel, m: Message): int {
    match m
    case AddRoute(d, _, _) =>
      if E.Has(k.expl.list, d) then 0 else if k.expl.len >= E.EXPL_MAX_LEN then -E.ENOSPC else 1
    case Unknown => -EINVAL
    case _ => 0
  }

  datatype Step =
    | Queues(p: Skb)
    | Receives(pid: int, m: Message, tooShort: bool, w: World)
    | Releases(pid: int)

  function Served(k: Kernel, maxlen: nat, step: Step): Kernel {
    match step
    case Queues(p) => if |k.queue| >= maxlen then k else k.(queue := k.queue + [p])
    case Receives(pid, m, tooShort, w) =>
      if pid <= 0 || (k.peer != 0 && k.peer != pid) then k
      else if tooShort then k.(peer := pid)
      else Receive(k.(peer := pid), m, w)
    case Releases(pid) =>
      if pid == 0 || pid != k.peer then k
      else k.(peer := 0, expl := E.Flush(k.expl), freed := k.freed + k.queue, queue := [])
  }

  function Run(maxlen: nat, steps: seq<Step>): Kernel {
    if steps == [] then Initial else Served(Run(maxlen, steps[..|steps| - 1]), maxlen, steps[|steps| - 1])
  }

  // ----- What a message does across the module

  predicate About(m: Message, d: Addr) {
    (m.AddRoute? || m.DelRoute? || m.NoRouteFound?) && m.dst == d
  }

  /** After any message about `d` no packet for `d` waits, and the packets for every other
      destination wait as before, in order. */
  lemma MessageClearsQueue(k: Kernel, m: Message, w: World, d: Addr, x: Addr)
    requires About(m, d)
    ensures Only(Receive(k, m, w).queue, x) == if x == d then [] else Only(k.queue, x)
  {
    SplitsQueue(k.queue, d, x);
  }

  /** Over a route without encapsulation all packets go, in order; without a route none. */
  lemma {:induction false} PlainDeliveries(r: Option<E.Via>, pkts: seq<Skb>, fails: set<nat>)
    requires r.Some? ==> !r.value.encap
    ensures r.Some? ==> |Deliveries(r, pkts, fails)| == |pkts| && Losses(r, pkts, fails) == []
    ensures r.Some? ==> forall i :: 0 <= i < |pkts| ==> Deliveries(r, pkts, fails)[i] == Plain(pkts[i])
    ensures r.None? ==> Deliveries(r, pkts, fails) == [] && Losses(r, pkts, fails) == pkts
  {
    if pkts != [] {
      var n := |pkts| - 1;
      PlainDeliveries(r, pkts[..n], fails);
      assert pkts == pkts[..n] + [pkts[n]];
    }
  }

  /** The route that is used afterwards: the old one if there was one, else the new one unless
      the list was full. */
  lemma {:induction false} AddedRoute(x: E.Expl, e: E.Entry)
    ensures RouteTo(E.Add(x, e), e.daddr) ==
            if E.Has(x.list, e.daddr) then RouteTo(x, e.daddr)
            else if x.len >= E.EXPL_MAX_LEN then None
            else Some(e.via)
  {
    if !E.Has(x.list, e.daddr) && x.len < E.EXPL_MAX_LEN {
      var k := E.InsertedAt(x.list, e);
      var l := E.Inserted(x.list, e);
      assert l[k] == e;
      assert forall i :: 0 <= i < k ==> l[i] == x.list[i];
      E.PlaceIsUnique(l, e.daddr, k);
    }
  }

  /** Over a route with encapsulation each packet goes to the gateway, wrapped, in order, unless the
      wrapping fails: then it is freed. */
  lemma {:induction false} EncapsulatedDeliveries(r: E.Via, pkts: seq<Skb>, fails: set<nat>)
    requires r.encap
    ensures forall x :: x in Deliveries(Some(r), pkts, fails) <==>
      exists p :: p in pkts && p.id !in fails && x == Encapsulated(p, r.nhop)
    ensures forall p :: p in Losses(Some(r), pkts, fails) <==> p in pkts && p.id in fails
    ensures (forall p :: p in pkts ==> p.id !in fails) ==>
      |Deliveries(Some(r), pkts, fails)| == |pkts| &&
      forall i :: 0 <= i < |pkts| ==> Deliveries(Some(r), pkts, fails)[i] == Encapsulated(pkts[i], r.nhop)
  {
    if pkts != [] {
      var n := |pkts| - 1;
      var init, p := pkts[..n], pkts[n];
      EncapsulatedDeliveries(r, init, fails);
      assert pkts == init + [p];
    }
  }

  /** What a message does to the routes in use: KAODVM_DELROUTE takes away the one to its destination,
      KAODVM_ADDROUTE brings one in if there is none and there is room, and nothing else changes. */
  lemma MessageRoutes(k: Kernel, m: Message, w: World, d: Addr)
    requires E.Sound(k.expl)
    ensures var x, x' := k.expl, Receive(k, m, w).expl;
            RouteTo(x', d) ==
              if m.DelRoute? && m.dst == d then None
              else if m.AddRoute? && m.dst == d && RouteTo(x, d).None? && x.len < 1024 then Some(m.via)
              else RouteTo(x, d)
    ensures !m.AddRoute? && !m.DelRoute? ==> Receive(k, m, w).expl == k.expl
  {
    hide E.Add, E.Del, E.Sound;
    match m
    case AddRoute(dst, via, time) =>
      var e := E.Entry(dst, via, E.Deadline(w.jiffies, time, w.hz));
      AddIsStep(k.expl, e);
      E.StepLookup(k.expl, E.Adds(e), d);
    case DelRoute(dst) =>
      DelIsStep(k.expl, dst);
      E.StepLookup(k.expl, E.Dels(dst), d);
    case NoRouteFound(dst) =>
    case Configure(_, _, _) =>
    case Unknown =>
  }

  /** KAODVM_DELROUTE and KAODVM_NOROUTE_FOUND free what waits for `d`, in order, and tell the sender
      of the first of these packets, once, that the host cannot be reached. */
  lemma MessageFrees(k: Kernel, m: Message, w: World)
    requires m.DelRoute? || m.NoRouteFound?
    ensures var k', pkts := Receive(k, m, w), Only(k.queue, m.dst);
            && k'.freed == k.freed + pkts && k'.delivered == k.delivered
            && (pkts == [] ==> k'.icmp == k.icmp) && (pkts != [] ==> k'.icmp == k.icmp + [pkts[0]])
  {
  }

  /** The answer to KAODVM_ADDROUTE says what became of the route: 1 if it is new in the list, 0 if
      it was known, an error if there was no room for it. */
  lemma StatusTellsRoute(k: Kernel, d: Addr, via: E.Via, time: nat, w: World)
    ensures var ret, list, list' := Status(k, AddRoute(d, via, time)), k.expl.list, Receive(k, AddRoute(d, via, time), w).expl.list;
            && (ret == 1 <==> |list'| == |list| + 1)
            && (ret == 0 <==> E.Has(list, d))
            && (ret < 0 <==> !E.Has(list', d))
            && ret <= 1
  {
    hide E.Inserted;
    if !E.Has(k.expl.list, d) && k.expl.len < E.EXPL_MAX_LEN {
      var e := E.Entry(d, via, E.Deadline(w.jiffies, time, w.hz));
      var j := E.InsertedAt(k.expl.list, e);
      assert E.Inserted(k.expl.list, e)[j] == e;
    }
  }

  /** A new route lasts for `time` milliseconds, rounded down to whole ticks. */
  lemma DeadlineInTicks(jiffies: nat, time: nat, hz: nat)
    ensures var ticks := E.Deadline(jiffies, time, hz) - jiffies; 1000 * ticks <= time * hz < 1000 * (ticks + 1)
  {
  }

  /** Only its owner can make the module do anything, and the first to speak to it owns it until it
      leaves; then the routes are gone and the waiting packets freed. */
  lemma OwnerAlone(k: Kernel, maxlen: nat, step: Step)
    ensures var k' := Served(k, maxlen, step);
            match step
            case Queues(p) => k' == k.(queue := k'.queue)
            case Receives(pid, m, tooShort, w) =>
              if pid <= 0 || k.peer !in {0, pid} then k' == k
              else k'.peer == pid && (tooShort ==> k' == k.(peer := pid))
            case Releases(pid) =>
              if pid == 0 || pid != k.peer then k' == k
              else
                && k'.peer == 0 && k'.expl.list == [] && k'.queue == [] && k'.freed == k.freed + k.queue
                && k'.delivered == k.delivered && k'.icmp == k.icmp
  {
  }

  /** KAODVM_ADDROUTE without encapsulation puts all waiting packets for `d` back on their way,
      in order of arrival, unless the route is new and the list is full: then it frees them. */
  lemma AddRouteDelivers(k: Kernel, d: Addr, via: E.Via, time: nat, w: World)
    requires E.Has(k.expl.list, d) ==> !k.expl.list[E.Place(k.expl.list, d)].via.encap
    requires !via.encap
    ensures var k' := Receive(k, AddRoute(d, via, time), w);
            var pkts := Only(k.queue, d);
            if E.Has(k.expl.list, d) || k.expl.len < E.EXPL_MAX_LEN then
              && k'.freed == k.freed
              && |k'.delivered| == |k.delivered| + |pkts| && k'.delivered[..|k.delivered|] == k.delivered
              && forall i :: 0 <= i < |pkts| ==> k'.delivered[|k.delivered| + i] == Plain(pkts[i])
            else
              k'.delivered == k.delivered && k'.freed == k.freed + pkts
  {
    hide E.Add, Deliveries, Losses;
    var e := E.Entry(d, via, E.Deadline(w.jiffies, time, w.hz));
    AddedRoute(k.expl, e);
    PlainDeliveries(RouteTo(E.Add(k.expl, e), d), Only(k.queue, d), w.encapFails);
  }

  /** A route that is known is left as it is, expiry and all. */
  lemma AddRouteNeverRefreshes(k: Kernel, d: Addr, via: E.Via, time: nat, w: World)
    ensures Receive(k, AddRoute(d, via, time), w).expl == k.expl <==> E.Has(k.expl.list, d)
  {
  }

  // ----- Whole runs

  /** How often packet `id` is in a sequence. */
  ghost function Count(pkts: seq<Skb>, id: nat): nat {
    if pkts == [] then 0 else Count(pkts[1..], id) + (if pkts[0].id == id then 1 else 0)
  }

  ghost function CountDelivered(ds: seq<Delivery>, id: nat): nat {
    if ds == [] then 0 else CountDelivered(ds[..|ds| - 1], id) + (if ds[|ds| - 1].p.id == id then 1 else 0)
  }

  ghost function Total(k: Kernel, id: nat): nat {
    Count(k.queue, id) + CountDelivered(k.delivered, id) + Count(k.freed, id)
  }

  lemma {:induction false} CountConcat(a: seq<Skb>, b: seq<Skb>, id: nat)
    ensures Count(a + b, id) == Count(a, id) + Count(b, id)
  {
    if a == [] {
      assert a + b == b;
    } else {
      assert (a + b)[1..] == a[1..] + b;
      CountConcat(a[1..], b, id);
    }
  }

  lemma {:induction false} CountSplit(q: seq<Skb>, d: Addr, id: nat)
    ensures Count(q, id) == Count(Only(q, d), id) + Count(Rest(q, d), id)
  {
    if q != [] {
      CountSplit(q[1..], d, id);
      var o, r := Only(q[1..], d), Rest(q[1..], d);
      assert ([q[0]] + o)[1..] == o && ([q[0]] + r)[1..] == r;
    }
  }

  lemma DeliveredOneMore(ds: seq<Delivery>, e: Delivery, id: nat)
    ensures CountDelivered(ds + [e], id) == CountDelivered(ds, id) + (if e.p.id == id then 1 else 0)
  {
    assert (ds + [e])[..|ds|] == ds;
  }

  lemma CountOneMore(pkts: seq<Skb>, p: Skb, id: nat)
    ensures Count(pkts + [p], id) == Count(pkts, id) + (if p.id == id then 1 else 0)
  {
    CountConcat(pkts, [p], id);
    assert [p][1..] == [];
  }

  /** Every packet that is sent is delivered or freed. */
  lemma {:induction false} DeliveriesCount(ds: seq<Delivery>, r: Option<E.Via>, pkts: seq<Skb>, fails: set<nat>, id: nat)
    ensures CountDelivered(ds + Deliveries(r, pkts, fails), id) + Count(Losses(r, pkts, fails), id)
            == CountDelivered(ds, id) + Count(pkts, id)
  {
    if pkts == [] {
      assert ds + Deliveries(r, pkts, fails) == ds;
    } else {
      hide Count, CountDelivered, Deliveries, Losses;
      var n := |pkts| - 1;
      var init, p := pkts[..n], pkts[n];
      assert pkts == init + [p];
      DeliveriesCount(ds, r, init, fails, id);
      CountOneMore(init, p, id);
      SentOneMore(r, init, p, fails);
      var fate := Fate(r, p, fails);
      if fate.Some? {
        assert ds + Deliveries(r, pkts, fails) == ds + Deliveries(r, init, fails) + [fate.value];
        DeliveredOneMore(ds + Deliveries(r, init, fails), fate.value, id);
      } else {
        CountOneMore(Losses(r, init, fails), p, id);
      }
    }
  }

  lemma NoPackets(id: nat)
    ensures Count([], id) == 0 && CountDelivered([], id) == 0
  {
  }

  lemma SendConserves(k: Kernel, d: Addr, w: World, id: nat)
    ensures Total(SendAll(k, d, w), id) == Total(k, id)
  {
    hide Count, CountDelivered, Deliveries, Losses, Only, Rest;
    var r, pkts := RouteTo(k.expl, d), Only(k.queue, d);
    CountSplit(k.queue, d, id);
    DeliveriesCount(k.delivered, r, pkts, w.encapFails, id);
    CountConcat(k.freed, Losses(r, pkts, w.encapFails), id);
  }

  lemma DropConserves(k: Kernel, d: Addr, id: nat)
    ensures Total(DropAll(k, d), id) == Total(k, id)
  {
    hide Count, CountDelivered, Only, Rest;
    CountSplit(k.queue, d, id);
    CountConcat(k.freed, Only(k.queue, d), id);
  }

  /** What the module promises about itself at any time. */
  ghost predicate Invariant(k: Kernel, maxlen: nat) {
    E.Sound(k.expl) && |k.queue| <= maxlen && k.peer >= 0 && (k.peer == 0 ==> k.expl.list == [])
  }

  lemma {:induction false} RestIsShorter(q: seq<Skb>, d: Addr)
    ensures |Rest(q, d)| <= |q|
  {
    if q != [] {
      RestIsShorter(q[1..], d);
    }
  }

  lemma ReceiveInvariant(k: Kernel, maxlen: nat, m: Message, w: World)
    requires Invariant(k, maxlen) && k.peer > 0
    ensures Invariant(Receive(k, m, w), maxlen)
  {
    hide E.Sound, E.Add, E.Del, Only, Rest;
    match m
    case AddRoute(d, via, time) =>
      var e := E.Entry(d, via, E.Deadline(w.jiffies, time, w.hz));
      AddIsStep(k.expl, e);
      E.StepDrift(k.expl, E.Adds(e));
      RestIsShorter(k.queue, d);
    case DelRoute(d) =>
      DelIsStep(k.expl, d);
      E.StepDrift(k.expl, E.Dels(d));
      RestIsShorter(k.queue, d);
    case NoRouteFound(d) => RestIsShorter(k.queue, d);
    case Configure(_, _, _) =>
    case Unknown =>
  }

  lemma AddIsStep(x: E.Expl, e: E.Entry)
    ensures E.Next(x, E.Adds(e)) == E.Add(x, e)
  {
  }

  lemma DelIsStep(x: E.Expl, d: Addr)
    ensures E.Next(x, E.Dels(d)) == E.Del(x, d)
  {
  }

  /** In every run: the list of routes is sound, the queue is within its limit, and the routes
      are gone whenever nobody owns the module. */
  lemma {:induction false} RunInvariant(maxlen: nat, steps: seq<Step>)
    ensures Invariant(Run(maxlen, steps), maxlen)
  {
    hide Receive;
    if steps != [] {
      var k, step := Run(maxlen, steps[..|steps| - 1]), steps[|steps| - 1];
      RunInvariant(maxlen, steps[..|steps| - 1]);
      if step.Receives? && step.pid > 0 && (k.peer == 0 || k.peer == step.pid) {
        ReceiveInvariant(k.(peer := step.pid), maxlen, step.m, step.w);
      }
    }
  }

  /** How often packet `id` was let into the queue. */
  ghost function LetIn(maxlen: nat, steps: seq<Step>, id: nat): nat {
    if steps == [] then 0 else
    var init, step := steps[..|steps| - 1], steps[|steps| - 1];
    LetIn(maxlen, init, id) + (if step.Queues? && |Run(maxlen, init).queue| < maxlen && step.p.id == id then 1 else 0)
  }

  lemma ReceiveConserves(k: Kernel, m: Message, w: World, id: nat)
    ensures Total(Receive(k, m, w), id) == Total(k, id)
  {
    hide DropAll, SendAll, Count, CountDelivered;
    match m
    case AddRoute(d, via, time) =>
      SendConserves(k.(expl := E.Add(k.expl, E.Entry(d, via, E.Deadline(w.jiffies, time, w.hz)))), d, w, id);
    case DelRoute(d) => DropConserves(k.(expl := E.Del(k.expl, d)), d, id);
    case NoRouteFound(d) => DropConserves(k, d, id);
    case Configure(_, _, _) =>
    case Unknown =>
  }

  /** In every run each packet that was let in is waiting, delivered or freed, exactly once. */
  lemma {:induction false} RunConserves(maxlen: nat, steps: seq<Step>, id: nat)
    ensures Total(Run(maxlen, steps), id) == LetIn(maxlen, steps, id)
  {
    if steps == [] {
      NoPackets(id);
    } else {
      hide Receive, Count, CountDelivered;
      var k, step := Run(maxlen, steps[..|steps| - 1]), steps[|steps| - 1];
      RunConserves(maxlen, steps[..|steps| - 1], id);
      match step
      case Queues(p) => CountOneMore(k.queue, p, id);
      case Receives(pid, m, tooShort, w) => ReceiveConserves(k.(peer := pid), m, w, id);
      case Releases(pid) =>
        NoPackets(id);
        CountConcat(k.freed, k.queue, id);
    }
  }

  // ----- The loop that sends

  /** Inside the sending loop for `d`, entered in `k0`: `done` have been sent, `hand` is next. */
  ghost predicate Sending(k0: Kernel, k: Kernel, done: seq<Skb>, hand: Option<Skb>, d: Addr, w: World) {
    var r := RouteTo(k0.expl, d);
    && k == k0.(queue := k.queue,
                delivered := k0.delivered + Deliveries(r, done, w.encapFails),
                freed := k0.freed + Losses(r, done, w.encapFails))
    && Only(k0.queue, d) == done + (if hand.Some? then [hand.value] else []) + Only(k.queue, d)
    && Rest(k0.queue, d) == Rest(k.queue, d)
    && (hand.None? ==> Only(k.queue, d) == [] && Rest(k.queue, d) == k.queue)
  }

  /** Between two packets. */
  ghost predicate BetweenSends(k0: Kernel, k: Kernel, done: seq<Skb>, d: Addr, w: World) {
    var r := RouteTo(k0.expl, d);
    && k == k0.(queue := k.queue,
                delivered := k0.delivered + Deliveries(r, done, w.encapFails),
                freed := k0.freed + Losses(r, done, w.encapFails))
    && Only(k0.queue, d) == done + Only(k.queue, d) && Rest(k0.queue, d) == Rest(k.queue, d)
  }

  lemma SendingTakes(k0: Kernel, k: Kernel, done: seq<Skb>, d: Addr, w: World, start: bool)
    requires if start then k == k0 && done == [] else BetweenSends(k0, k, done, d, w)
    ensures var n := Oldest(k.queue, d);
            if n == |k.queue| then Sending(k0, k, done, None, d, w)
            else Sending(k0, k.(queue := Without(k.queue, n)), done, Some(k.queue[n]), d, w)
  {
    Took(k.queue, d);
  }

  lemma SendingSends(k0: Kernel, k: Kernel, done: seq<Skb>, p: Skb, d: Addr, w: World)
    requires Sending(k0, k, done, Some(p), d, w)
    ensures var fate := Fate(RouteTo(k0.expl, d), p, w.encapFails);
            var k1 := if fate.Some? then k.(delivered := k.delivered + [fate.value]) else k.(freed := k.freed + [p]);
            BetweenSends(k0, k1, done + [p], d, w)
  {
    SentOneMore(RouteTo(k0.expl, d), done, p, w.encapFails);
  }

  lemma SendingEnds(k0: Kernel, k: Kernel, done: seq<Skb>, d: Addr, w: World)
    requires Sending(k0, k, done, None, d, w)
    ensures k == SendAll(k0, d, w)
  {
    assert done == Only(k0.queue, d);
  }

  // ----- The module in place

  class Module {
    const queue: Queue
    const expl: E.ExplList
    var peer: int
    var activeRouteTimeout: int
    var qualTh: int
    var isGateway: int
    var delivered: seq<Delivery>
    var freed: seq<Skb>
    var icmp: seq<Skb>

    ghost predicate Valid()
      reads this, queue
    {
      queue.Valid()
    }

    ghost function View(): Kernel
      reads this, queue, expl
    {
      Kernel(expl.View(), queue.list, peer, delivered, freed, icmp)
    }

    constructor ()
      ensures Valid() && View() == Initial && fresh(queue) && fresh(expl)
    {
      queue := new Queue();
      expl := new E.ExplList();
      peer, delivered, freed, icmp := 0, [], [], [];
    }

    /** The KAODV_QUEUE_DROP loop of kaodv_queue_set_verdict. */
    method SetVerdictDrop(d: Addr) returns (pkts: nat)
      requires Valid()
      modifies `freed, `icmp, queue
      ensures Valid() && View() == DropAll(old(View()), d) && pkts == |Only(old(queue.list), d)|
    {
      hide Only, Rest;
      pkts := 0;
      ghost var done: seq<Skb> := [];
      Took(queue.list, d);
      var p := queue.FindDequeue(Some(d));
      while p.Some?
        invariant Valid() && pkts == |done| && freed == old(freed) + done
        invariant Only(old(queue.list), d) == done + (if p.Some? then [p.value] else []) + Only(queue.list, d)
        invariant Rest(old(queue.list), d) == Rest(queue.list, d)
        invariant p.None? ==> Only(queue.list, d) == [] && Rest(queue.list, d) == queue.list
        invariant icmp == old(icmp) + (if done == [] then [] else [done[0]])
        decreases |queue.list|, p.Some?
      {
        if pkts == 0 {
          icmp := icmp + [p.value];
        }
        freed := freed + [p.value];
        pkts := pkts + 1;
        done := done + [p.value];
        Took(queue.list, d);
        p := queue.FindDequeue(Some(d));
      }
    }

    /** One packet of the KAODV_QUEUE_SEND loop; the route is looked up anew for each. */
    method SendOne(p: Skb, d: Addr, w: World) returns (sent: nat)
      modifies `delivered, `freed
      ensures var fate := Fate(RouteTo(expl.View(), d), p, w.encapFails);
              && delivered == (if fate.Some? then old(delivered) + [fate.value] else old(delivered))
              && freed == (if fate.Some? then old(freed) else old(freed) + [p])
              && sent == (if fate.Some? then 1 else 0)
    {
      sent := 0;
      var e := expl.Get(d);
      if e.None? {
        freed := freed + [p];
      } else if e.value.via.encap && p.id in w.encapFails {
        freed := freed + [p];
      } else {
        delivered := delivered + [if e.value.via.encap then Encapsulated(p, e.value.via.nhop) else Plain(p)];
        sent := 1;
      }
    }

    /** The KAODV_QUEUE_SEND loop of kaodv_queue_set_verdict. */
    method SetVerdictSend(d: Addr, w: World) returns (pkts: nat)
      requires Valid()
      modifies `delivered, `freed, queue
      ensures Valid() && View() == SendAll(old(View()), d, w)
      ensures pkts == |delivered| - |old(delivered)|
    {
      hide Sending, BetweenSends, SendAll, Fate, RouteTo;
      pkts := 0;
      ghost var k0 := View();
      ghost var done: seq<Skb> := [];
      SendingTakes(k0, k0, done, d, w, true);
      var p := queue.FindDequeue(Some(d));
      while p.Some?
        invariant Valid() && expl.View() == k0.expl && Sending(k0, View(), done, p, d, w)
        invariant pkts == |delivered| - |k0.delivered|
        decreases |queue.list|, p.Some?
      {
        SendingSends(k0, View(), done, p.value, d, w);
        var sent := SendOne(p.value, d, w);
        pkts := pkts + sent;
        done := done + [p.value];
        SendingTakes(k0, View(), done, d, w, false);
        p := queue.FindDequeue(Some(d));
      }
      SendingEnds(k0, View(), done, d, w);
    }

    /** kaodv_netlink_receive_peer. */
    method ReceivePeer(m: Message, w: World) returns (ret: int)
      requires Valid()
      modifies this, queue, expl
      ensures Valid() && View() == Receive(old(View()), m, w) && ret == Status(old(View()), m)
      ensures (activeRouteTimeout, qualTh, isGateway) ==
              if m.Configure? then (m.activeRouteTimeout, m.qualTh, m.isGateway)
              else old((activeRouteTimeout, qualTh, isGateway))
    {
      hide DropAll, SendAll;
      ret := 0;
      match m
      case AddRoute(d, via, time) =>
        var known := expl.Get(d);
        ret := if known.Some? then 1 else 0;
        if ret < 0 {
          assert false; // kaodv_expl_update would be called here
        } else {
          ret := expl.AddEntry(E.Entry(d, via, E.Deadline(w.jiffies, time, w.hz)));
        }
        var _ := SetVerdictSend(d, w);
      case DelRoute(d) =>
        var _ := expl.DelEntry(d);
        var _ := SetVerdictDrop(d);
      case NoRouteFound(d) =>
        var _ := SetVerdictDrop(d);
      case Configure(timeout, threshold, gateway) =>
        activeRouteTimeout, qualTh, isGateway := timeout, threshold, gateway;
      case Unknown =>
        ret := -EINVAL;
    }

    /** kaodv_netlink_rcv_skb from the ownership test on. */
    method ReceiveSkb(pid: int, m: Message, tooShort: bool, w: World) returns (ret: int)
      requires Valid()
      modifies this, queue, expl
      ensures Valid() && View() == Served(old(View()), queue.maxlen, Receives(pid, m, tooShort, w))
      ensures ret ==
              if pid <= 0 then -EINVAL
              else if old(peer) != 0 && old(peer) != pid then -EBUSY
              else if tooShort then -EINVAL
              else Status(old(View()), m)
    {
      hide Receive;
      if pid <= 0 {
        return -EINVAL;
      }
      if peer != 0 {
        if peer != pid {
          return -EBUSY;
        }
      } else {
        peer := pid;
      }
      if tooShort {
        return -EINVAL;
      }
      ret := ReceivePeer(m, w);
    }

    /** kaodv_netlink_rcv_nl_event: the owner has closed its socket. */
    method Release(pid: int)
      requires Valid()
      modifies this, queue, expl
      ensures Valid() && View() == Served(old(View()), queue.maxlen, Releases(pid))
    {
      if pid != 0 && pid == peer {
        peer := 0;
        expl.FlushAll();
        freed := freed + queue.list;
        queue.Flush();
      }
    }
  }

  /** One find-and-dequeue for `d`. */
  lemma Took(q: seq<Skb>, d: Addr)
    ensures var k := Oldest(q, d);
            if k == |q| then Only(q, d) == [] && Rest(q, d) == q
            else Only(q, d) == [q[k]] + Only(Without(q, k), d) && Rest(q, d) == Rest(Without(q, k), d)
  {
    var k := Oldest(q, d);
    if k == |q| {
      NoneLeft(q, d);
    } else {
      TakeOldest(q, d, k);
    }
  }
}
