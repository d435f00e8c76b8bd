/** Data packets: every packet handed to the daemon is either buffered or has had exactly one
    verdict, the buffer is bounded and ordered, and nobody waits in it for long. */
module Traffic {
  import opened SeqNo
  import opened Basics
  import opened Route
  import opened DaemonSpec
  import opened Takedown
  import opened UpdateParts

  // ----- packet_queue_set_verdict is a stable partition

  /** The sequence that takes from `a` where `fromA` is true and from `b` elsewhere. */
  function Weave<T>(fromA: seq<bool>, a: seq<T>, b: seq<T>): seq<T>
    requires |a| + |b| == |fromA| && |a| == Trues(fromA)
  {
    if fromA == [] then [] else
    var n := |fromA| - 1;
    if fromA[n] then Weave(fromA[..n], a[..|a| - 1], b) + [a[|a| - 1]]
    else Weave(fromA[..n], a, b[..|b| - 1]) + [b[|b| - 1]]
  }

  function Trues(bs: seq<bool>): (n: nat)
    ensures n <= |bs|
  {
    if bs == [] then 0 else Trues(bs[..|bs| - 1]) + (if bs[|bs| - 1] then 1 else 0)
  }

  lemma WeaveOneMore<T>(fromA: seq<bool>, a: seq<T>, b: seq<T>, x: T)
    requires |a| + |b| == |fromA| && |a| == Trues(fromA)
    ensures Trues(fromA + [true]) == |a| + 1 && Trues(fromA + [false]) == |a|
    ensures Weave(fromA + [true], a + [x], b) == Weave(fromA, a, b) + [x]
    ensures Weave(fromA + [false], a, b + [x]) == Weave(fromA, a, b) + [x]
  {
    assert (fromA + [true])[..|fromA|] == fromA && (fromA + [false])[..|fromA|] == fromA;
    assert (a + [x])[..|a|] == a && (b + [x])[..|b|] == b;
  }

  function For(q: seq<Buffered>, d: Addr): seq<bool> {
    seq(|q|, i requires 0 <= i < |q| => q[i].dest == d)
  }

  lemma {:induction false} PartitionDests(q: seq<Buffered>, d: Addr)
    ensures forall p :: p in Matching(q, d) ==> p.dest == d
    ensures forall p :: p in Others(q, d) ==> p.dest != d
  {
    if q != [] {
      PartitionDests(q[..|q| - 1], d);
    }
  }

  lemma ForOneMore(q: seq<Buffered>, p: Buffered, d: Addr)
    ensures For(q + [p], d) == if p.dest == d then For(q, d) + [true] else For(q, d) + [false]
  {
  }

  /** The two parts of the buffer fit together as they stood. */
  ghost predicate Woven(q: seq<Buffered>, d: Addr) {
    && Trues(For(q, d)) == |Matching(q, d)| && |Matching(q, d)| + |Others(q, d)| == |For(q, d)| == |q|
    && Weave(For(q, d), Matching(q, d), Others(q, d)) == q
  }

  lemma WovenOneMore(q: seq<Buffered>, p: Buffered, d: Addr)
    requires Woven(q, d)
    ensures Woven(q + [p], d)
  {
    hide Weave, Trues, Matching, Others, For;
    ForOneMore(q, p, d);
    MatchingOneMore(q, p, d);
    WeaveOneMore(For(q, d), Matching(q, d), Others(q, d), p);
  }

  /** The packets for `d` and the others, woven together again as they stood, are the whole
      buffer: each packet lands in exactly one part and both parts keep the arrival order. */
  lemma {:induction false} PartitionIsStable(q: seq<Buffered>, d: Addr)
    ensures Woven(q, d)
  {
    if q != [] {
      hide Woven;
      var init, p := q[..|q| - 1], q[|q| - 1];
      assert q == init + [p];
      PartitionIsStable(init, d);
      WovenOneMore(init, p, d);
    }
  }

  // ----- Conservation

  /** How often packet `id` was handed to the daemon. */
  ghost function Arrivals(log: seq<Event>, id: U32): nat {
    if log == [] then 0 else
    var e := log[|log| - 1];
    Arrivals(log[..|log| - 1], id) + (if e.Arrived? && e.id == id then 1 else 0)
  }

  /** How many verdicts were given on packet `id`. */
  ghost function Judged(log: seq<Event>, id: U32): nat {
    if log == [] then 0 else
    var e := log[|log| - 1];
    Judged(log[..|log| - 1], id) + (if e.Verdict? && e.id == id then 1 else 0)
  }

  /** How often packet `id` is buffered. */
  ghost function Waiting(q: seq<Buffered>, id: U32): nat {
    if q == [] then 0 else Waiting(q[..|q| - 1], id) + (if q[|q| - 1].id == id then 1 else 0)
  }

  /** Every arrival of `id` so far is matched by one verdict or one buffered packet. */
  ghost predicate Balanced(s: State, id: U32) {
    Arrivals(s.log, id) == Judged(s.log, id) + Waiting(s.queue, id)
  }

  lemma LogOneMore(log: seq<Event>, e: Event, id: U32)
    ensures Arrivals(log + [e], id) == Arrivals(log, id) + (if e.Arrived? && e.id == id then 1 else 0)
    ensures Judged(log + [e], id) == Judged(log, id) + (if e.Verdict? && e.id == id then 1 else 0)
  {
    assert (log + [e])[..|log|] == log;
  }

  lemma {:induction false} VerdictsCount(log: seq<Event>, kernel: Kernel, pkts: seq<Buffered>, accept: bool, id: U32)
    ensures Arrivals(log + Verdicts(kernel, pkts, accept), id) == Arrivals(log, id)
    ensures Judged(log + Verdicts(kernel, pkts, accept), id) == Judged(log, id) + Waiting(pkts, id)
  {
    if pkts == [] {
      assert log + Verdicts(kernel, pkts, accept) == log;
    } else {
      var n := |pkts| - 1;
      var e := Verdict(pkts[n].id, pkts[n].dest, accept, pkts[n].dest in kernel);
      VerdictsCount(log, kernel, pkts[..n], accept, id);
      assert log + Verdicts(kernel, pkts, accept) == log + Verdicts(kernel, pkts[..n], accept) + [e];
      LogOneMore(log + Verdicts(kernel, pkts[..n], accept), e, id);
    }
  }

  lemma WaitingOneMore(q: seq<Buffered>, p: Buffered, id: U32)
    ensures Waiting(q + [p], id) == Waiting(q, id) + (if p.id == id then 1 else 0)
  {
    assert (q + [p])[..|q|] == q;
  }

  lemma {:induction false} WaitingTail(q: seq<Buffered>, id: U32)
    requires q != []
    ensures Waiting(q, id) == Waiting(q[..1], id) + Waiting(q[1..], id)
    decreases |q|
  {
    var n := |q| - 1;
    if n > 0 {
      WaitingTail(q[..n], id);
      assert q[..n][..1] == q[..1] && q[..n][1..] == q[1..n];
      assert q[1..] == q[1..n] + [q[n]];
      WaitingOneMore(q[1..n], q[n], id);
    }
  }

  lemma {:induction false} WaitingPartition(q: seq<Buffered>, d: Addr, id: U32)
    ensures Waiting(q, id) == Waiting(Matching(q, d), id) + Waiting(Others(q, d), id)
  {
    if q != [] {
      hide Matching, Others, Waiting;
      var init, p := q[..|q| - 1], q[|q| - 1];
      assert q == init + [p];
      WaitingPartition(init, d, id);
      MatchingOneMore(init, p, d);
      WaitingOneMore(init, p, id);
      WaitingOneMore(Matching(init, d), p, id);
      WaitingOneMore(Others(init, d), p, id);
    }
  }

  lemma {:induction false} WaitingByAge(q: seq<Buffered>, now: Time, id: U32)
    ensures Waiting(q, id) == Waiting(Aged(q, now), id) + Waiting(Young(q, now), id)
  {
    if q != [] {
      hide Aged, Young, Waiting;
      var init, p := q[..|q| - 1], q[|q| - 1];
      assert q == init + [p];
      WaitingByAge(init, now, id);
      AgedOneMore(init, p, now);
      WaitingOneMore(init, p, id);
      WaitingOneMore(Aged(init, now), p, id);
      WaitingOneMore(Young(init, now), p, id);
    }
  }

  // ----- The shape of the buffer

  /** Packets that came in from `floor` up to `now`. */
  datatype Window = Window(floor: Time, now: Time)

  /** At most MAX_QUEUE_LENGTH packets, in the order of their arrival, all from the window. */
  ghost predicate Orderly(q: seq<Buffered>, w: Window) {
    && |q| <= MAX_QUEUE_LENGTH
    && (forall i, j :: 0 <= i < j < |q| ==> q[i].at <= q[j].at)
    && (forall i :: 0 <= i < |q| ==> w.floor <= q[i].at <= w.now)
  }

  lemma {:induction false} OthersOrderly(q: seq<Buffered>, d: Addr, w: Window)
    requires Orderly(q, w)
    ensures Orderly(Others(q, d), w) && |Others(q, d)| <= |q|
    ensures forall p :: p in Others(q, d) ==> p in q
  {
    if q != [] {
      var init, p := q[..|q| - 1], q[|q| - 1];
      OthersOrderly(init, d, w);
      forall x | x in Others(init, d) ensures x.at <= p.at {
        assert x in init;
      }
      assert forall i :: 0 <= i < |Others(init, d)| ==> Others(init, d)[i] in Others(init, d);
    }
  }

  /** The packets before place `k`, and no others, are over age. */
  ghost predicate AgedUpTo(q: seq<Buffered>, now: Time, k: nat) {
    k <= |q| && forall i :: 0 <= i < |q| ==> (i < k <==> now - q[i].at > MAX_QUEUE_TIME)
  }

  lemma {:induction false} AgedSlice(q: seq<Buffered>, now: Time, k: nat)
    requires AgedUpTo(q, now, k)
    ensures Aged(q, now) == q[..k] && Young(q, now) == q[k..]
    decreases |q|
  {
    if q != [] {
      hide Aged, Young;
      var init, p := q[..|q| - 1], q[|q| - 1];
      assert q == init + [p];
      AgedOneMore(init, p, now);
      var j := if k == |q| then k - 1 else k;
      assert AgedUpTo(init, now, j);
      AgedSlice(init, now, j);
      SliceOneMore(init, p, j);
    }
  }

  /** packet_queue_garbage_collect on an orderly buffer takes off exactly a prefix, the
      packets older than MAX_QUEUE_TIME. */
  lemma AgedIsPrefix(q: seq<Buffered>, w: Window, now: Time) returns (k: nat)
    requires Orderly(q, w)
    ensures AgedUpTo(q, now, k) && Aged(q, now) == q[..k] && Young(q, now) == q[k..]
  {
    hide Aged, Young;
    k := 0;
    while k < |q| && now - q[k].at > MAX_QUEUE_TIME
      invariant k <= |q| && forall i :: 0 <= i < k ==> now - q[i].at > MAX_QUEUE_TIME
    {
      k := k + 1;
    }
    AgedSlice(q, now, k);
  }

  lemma SliceOneMore<T>(s: seq<T>, x: T, j: nat)
    requires j <= |s|
    ensures (s + [x])[..j] == s[..j] && (s + [x])[j..] == s[j..] + [x]
    ensures s[..|s|] == s && s[|s|..] == [] && (s + [x])[..|s| + 1] == s + [x] && (s + [x])[|s| + 1..] == []
  {
  }

  /** What an operation that takes in no packet does to the traffic: it stays balanced and
      orderly if it was. */
  ghost predicate Carries(s: State, s': State, id: U32, w: Window) {
    && (Balanced(s, id) ==> Balanced(s', id))
    && (Orderly(s.queue, w) ==> Orderly(s'.queue, w))
  }

  lemma CarriesCompose(s: State, s1: State, s2: State, id: U32, w: Window)
    requires Carries(s, s1, id, w) && Carries(s1, s2, id, w)
    ensures Carries(s, s2, id, w)
  {
  }

  lemma SameTraffic(s: State, s': State, id: U32, w: Window)
    requires s'.queue == s.queue && s'.log == s.log
    ensures Carries(s, s', id, w)
  {
  }

  /** A verdict on everything buffered for `d`. */
  lemma ReleaseCarries(s: State, s': State, kernel: Kernel, d: Addr, accept: bool, id: U32, w: Window)
    requires s'.queue == Others(s.queue, d) && s'.log == s.log + Verdicts(kernel, Matching(s.queue, d), accept)
    ensures Carries(s, s', id, w)
  {
    VerdictsCount(s.log, kernel, Matching(s.queue, d), accept, id);
    WaitingPartition(s.queue, d, id);
    if Orderly(s.queue, w) {
      OthersOrderly(s.queue, d, w);
    }
  }

  lemma ReviveCarries(cfg: Config, s: State, d: Addr, lifetime: nat, now: Time, id: U32, w: Window)
    requires d in s.routes
    ensures Carries(s, Revive(cfg, s, d, lifetime, now), id, w)
  {
    hide Revive, Carries;
    ReviveShape(cfg, s, d, lifetime, now);
    if d in s.seeking {
      ReleaseCarries(s, Revive(cfg, s, d, lifetime, now), s.kernel, d, true, id, w);
    } else {
      SameTraffic(s, Revive(cfg, s, d, lifetime, now), id, w);
    }
  }

  lemma RewriteCarries(cfg: Config, s: State, d: Addr, c: Change, now: Time, id: U32, w: Window)
    requires d in s.routes
    ensures Carries(s, Rewrite(cfg, s, d, c, now), id, w)
  {
    hide Rewrite, Carries;
    var s1, s2 := RewriteShape(cfg, s, d, c, now);
    SameTraffic(s, Rewrite(cfg, s, d, c, now), id, w);
  }

  lemma PlainCarries(cfg: Config, s: State, d: Addr, c: Change, now: Time, id: U32, w: Window)
    requires d in s.routes
    ensures Carries(s, UpdatePlain(cfg, s, d, c, now), id, w)
  {
    hide Rewrite, Revive, Carries;
    var s1 := Rewrite(cfg, s, d, c, now);
    RewriteCarries(cfg, s, d, c, now, id, w);
    ReviveCarries(cfg, s1, d, c.lifetime, now, id, w);
    CarriesCompose(s, s1, UpdatePlain(cfg, s, d, c, now), id, w);
  }

  lemma {:induction false} InetCarries(cfg: Config, s: State, gw: Addr, life: nat, order: seq<Addr>, now: Time, id: U32, w: Window)
    requires gw in s.routes
    ensures Carries(s, UpdateInet(cfg, s, gw, life, order, now), id, w)
    decreases |order|
  {
    hide UpdatePlain, Carries;
    if order == [] {
      SameTraffic(s, s, id, w);
    } else {
      var x := order[|order| - 1];
      InetCarries(cfg, s, gw, life, order[..|order| - 1], now, id, w);
      var s1 := UpdateInet(cfg, s, gw, life, order[..|order| - 1], now);
      if InetActive(s1.routes, x) {
        PlainCarries(cfg, s1, x, Onto(s1.routes, gw, x, life), now, id, w);
        CarriesCompose(s, s1, UpdateInet(cfg, s, gw, life, order, now), id, w);
      }
    }
  }

  lemma MoveCarries(cfg: Config, s: State, gw: Addr, life: nat, order: seq<Addr>, now: Time, id: U32, w: Window)
    requires gw in s.routes
    ensures Carries(s, MoveAll(cfg, s, gw, life, order, now), id, w)
  {
    hide UpdateInet, FirstDual, Rewrite, Revive, Carries;
    var k := FirstDual(cfg, s, gw, life, order, now);
    if k == |order| {
      InetCarries(cfg, s, gw, life, order, now, id, w);
    } else {
      var s1, x := UpdateInet(cfg, s, gw, life, order[..k], now), order[k];
      InetCarries(cfg, s, gw, life, order[..k], now, id, w);
      var c := Onto(s1.routes, gw, x, life);
      var t := Rewrite(cfg, s1, x, c, now);
      RewriteCarries(cfg, s1, x, c, now, id, w);
      CarriesCompose(s, s1, t, id, w);
      InetCarries(cfg, t, x, life, order, now, id, w);
      var u := UpdateInet(cfg, t, x, life, order, now);
      CarriesCompose(s, t, u, id, w);
      var v := Revive(cfg, u, x, life, now);
      ReviveCarries(cfg, u, x, life, now, id, w);
      CarriesCompose(s, u, v, id, w);
      InetCarries(cfg, v, gw, life, order[k + 1..], now, id, w);
      CarriesCompose(s, v, MoveAll(cfg, s, gw, life, order, now), id, w);
    }
  }

  lemma UpdateCarries(cfg: Config, s: State, d: Addr, c: Change, order: seq<Addr>, now: Time, id: U32, w: Window)
    ensures Carries(s, Update(cfg, s, d, c, order, now), id, w)
  {
    hide Rewrite, Revive, MoveAll, Carries;
    if d !in s.routes {
      SameTraffic(s, s, id, w);
    } else {
      var s1 := Rewrite(cfg, s, d, c, now);
      RewriteCarries(cfg, s, d, c, now, id, w);
      var s2 := if NewFlags(s.routes[d], c).gateway then MoveAll(cfg, s1, d, c.lifetime, order, now) else s1;
      MoveCarries(cfg, s1, d, c.lifetime, order, now, id, w);
      SameTraffic(s1, s1, id, w);
      CarriesCompose(s, s1, s2, id, w);
      ReviveCarries(cfg, s2, d, c.lifetime, now, id, w);
      CarriesCompose(s, s2, Update(cfg, s, d, c, order, now), id, w);
    }
  }

  lemma InsertCarries(cfg: Config, s: State, d: Addr, c: Change, valid: bool, now: Time, id: U32, w: Window)
    ensures Carries(s, Insert(cfg, s, d, c, valid, now), id, w)
  {
    hide Carries, Matching, Others;
    var s' := Insert(cfg, s, d, c, valid, now);
    if d !in s.routes && valid && d in s.seeking {
      ReleaseCarries(s, s', AddRoute(s.kernel, d, c.next, c.hops), d, true, id, w);
    } else {
      SameTraffic(s, s', id, w);
    }
  }

  /** Steps that neither buffer nor judge a packet. */
  lemma ExpireTraffic(cfg: Config, s: State, d: Addr, now: Time)
    ensures var s' := Expire(cfg, s, d, now); s'.queue == s.queue && s'.log == s.log
  {
    hide Invalidate, LinkBreak;
    if d in s.routes {
      var s1 := Put(s, d, s.routes[d].(timer := s.routes[d].timer.(used := false)));
      InvalidateTakesDown(cfg, s1, d, now);
      LinkBreakTakesDown(cfg, s1, d, now);
    }
  }

  lemma HelloTraffic(cfg: Config, s: State, d: Addr, localRepair: bool, now: Time)
    ensures var s' := HelloTimeout(cfg, s, d, localRepair, now); s'.queue == s.queue && s'.log == s.log
  {
    hide LinkBreak;
    if d in s.routes {
      var s1 := Put(s, d, s.routes[d].(hello := false));
      var r := s1.routes[d];
      var mark := localRepair && r.hops <= MAX_REPAIR_TTL;
      LinkBreakTakesDown(cfg, if mark then Put(s1, d, r.(flags := r.flags.(repair := true))) else s1, d, now);
    }
  }

  lemma SeekFailedCarries(cfg: Config, s: State, d: Addr, now: Time, id: U32, w: Window)
    ensures Carries(s, SeekFailed(cfg, s, d, now), id, w)
  {
    hide Carries, Matching, Others;
    if d in s.seeking {
      ReleaseCarries(s, SeekFailed(cfg, s, d, now), s.kernel, d, false, id, w);
    } else {
      SameTraffic(s, s, id, w);
    }
  }

  // ----- Arrivals and ageing

  /** packet_queue_add conserves, one arrival being in hand. */
  lemma EnqueueBalances(s: State, added: U32, d: Addr, now: Time, id: U32)
    ensures var s' := Enqueue(s, added, d, now);
            && Arrivals(s'.log, id) == Arrivals(s.log, id)
            && Judged(s'.log, id) + Waiting(s'.queue, id) ==
               Judged(s.log, id) + Waiting(s.queue, id) + (if added == id then 1 else 0)
  {
    var p := Buffered(added, d, now);
    if |s.queue| >= MAX_QUEUE_LENGTH {
      VerdictsCount(s.log, s.kernel, s.queue[..1], false, id);
      WaitingTail(s.queue, id);
      WaitingOneMore(s.queue[1..], p, id);
    } else {
      WaitingOneMore(s.queue, p, id);
    }
  }

  lemma EnqueueOrderly(s: State, id: U32, d: Addr, w: Window)
    requires w.floor <= w.now && Orderly(s.queue, w)
    ensures Orderly(Enqueue(s, id, d, w.now).queue, w)
  {
    var rest := if |s.queue| >= MAX_QUEUE_LENGTH then s.queue[1..] else s.queue;
    var q := rest + [Buffered(id, d, w.now)];
    assert forall i :: 0 <= i < |rest| ==> w.floor <= rest[i].at <= w.now;
    assert forall i :: 0 <= i < |q| ==> q[i] == if i < |rest| then rest[i] else Buffered(id, d, w.now);
  }

  lemma ReceiveCarries(cfg: Config, s: State, p: Packet, id: U32, w: Window)
    requires w.floor <= w.now
    ensures Carries(s, Receive(cfg, s, p, w.now), id, w)
  {
    hide RefreshForward, RefreshReverse, Touch, Hold, Enqueue, Arrivals, Judged, Waiting, Orderly;
    var s0 := s.(log := s.log + [Arrived(p.id, p.dest, p.bypass)]);
    LogOneMore(s.log, Arrived(p.id, p.dest, p.bypass), id);
    LogOneMore(s0.log, Verdict(p.id, p.dest, true, p.dest in s.kernel), id);
    LogOneMore(s0.log, Verdict(p.id, p.dest, false, p.dest in s.kernel), id);
    if !p.bypass {
      var s1 := s0.(routes := RefreshReverse(cfg, RefreshForward(cfg, s0.routes, p.dest, w.now), p.src, w.now));
      EnqueueBalances(s1, p.id, p.dest, w.now, id);
      if Orderly(s.queue, w) {
        EnqueueOrderly(s1, p.id, p.dest, w);
      }
    }
  }

  lemma CollectOrderly(q: seq<Buffered>, now: Time, w: Window)
    requires Orderly(q, w)
    ensures Orderly(Young(q, now), w) && Orderly(Young(q, now), w.(floor := now - MAX_QUEUE_TIME))
  {
    hide Young, Aged;
    var k := AgedIsPrefix(q, w, now);
  }

  /** A tick keeps the balance, and afterwards nothing older than MAX_QUEUE_TIME waits. */
  lemma CollectCarries(s: State, now: Time, id: U32, w: Window)
    ensures Carries(s, Collect(s, now), id, w)
    ensures Orderly(s.queue, w) ==> Orderly(Collect(s, now).queue, w.(floor := now - MAX_QUEUE_TIME))
  {
    hide Young, Aged, Orderly, Arrivals, Judged, Waiting;
    VerdictsCount(s.log, s.kernel, Aged(s.queue, now), false, id);
    WaitingByAge(s.queue, now, id);
    if Orderly(s.queue, w) {
      CollectOrderly(s.queue, now, w);
    }
  }

  /** packet_queue_garbage_collect: exactly the packets that have waited for more than ten seconds
      are refused, in order, and the others go on waiting. */
  lemma CollectOutcome(s: State, now: Time)
    ensures var s', gone := Collect(s, now), Aged(s.queue, now);
            && (forall p :: p in s'.queue <==> p in s.queue && now - p.at <= 10000)
            && (forall p :: p in gone <==> p in s.queue && now - p.at > 10000)
            && |s'.log| == |s.log| + |gone| && s'.log[..|s.log|] == s.log
            && (forall i :: 0 <= i < |gone| ==>
                  s'.log[|s.log| + i] == Verdict(gone[i].id, gone[i].dest, false, gone[i].dest in s.kernel))
            && s' == s.(queue := s'.queue, log := s'.log)
  {
    hide Young, Aged;
    AgedExact(s.queue, now);
  }

  lemma {:induction false} AgedExact(q: seq<Buffered>, now: Time)
    ensures forall p :: p in Young(q, now) <==> p in q && now - p.at <= 10000
    ensures forall p :: p in Aged(q, now) <==> p in q && now - p.at > 10000
  {
    if q != [] {
      var init, last := q[..|q| - 1], q[|q| - 1];
      AgedExact(init, now);
      assert q == init + [last];
    }
  }

  /** No step loses or duplicates a packet or disturbs the order. */
  lemma StepCarries(cfg: Config, s: State, step: Step, id: U32, w: Window)
    requires w.floor <= w.now
    ensures Carries(s, Next(cfg, s, w.now, step), id, w)
  {
    hide Carries, Invalidate, LinkBreak, Update, Insert, Receive, Collect, Expire, HelloTimeout, SeekFailed;
    var s' := Next(cfg, s, w.now, step);
    match step
    case Receives(p) => ReceiveCarries(cfg, s, p, id, w);
    case Inserts(d, c, valid) => InsertCarries(cfg, s, d, c, valid, w.now, id, w);
    case Updates(d, c, order) => UpdateCarries(cfg, s, d, c, order, w.now, id, w);
    case Invalidates(d) =>
      InvalidateTakesDown(cfg, s, d, w.now);
      SameTraffic(s, s', id, w);
    case Deletes(d) => SameTraffic(s, s', id, w);
    case Expires(d) =>
      ExpireTraffic(cfg, s, d, w.now);
      SameTraffic(s, s', id, w);
    case LinkBreaks(d) =>
      LinkBreakTakesDown(cfg, s, d, w.now);
      SameTraffic(s, s', id, w);
    case HelloFails(d, localRepair) =>
      HelloTraffic(cfg, s, d, localRepair, w.now);
      SameTraffic(s, s', id, w);
    case SeekFails(d) => SeekFailedCarries(cfg, s, d, w.now, id, w);
    case HelloStarts(d) => SameTraffic(s, s', id, w);
    case AddsPrecursor(d, n) => SameTraffic(s, s', id, w);
    case Ticks => CollectCarries(s, w.now, id, w);
  }

  // ----- Whole runs

  /** In every run, every packet handed to the daemon is accounted for. */
  lemma {:induction false} RunBalances(cfg: Config, steps: seq<Timed>, id: U32)
    ensures Balanced(Run(cfg, steps), id)
  {
    hide Next;
    if steps != [] {
      var last := steps[|steps| - 1];
      RunBalances(cfg, steps[..|steps| - 1], id);
      StepCarries(cfg, Run(cfg, steps[..|steps| - 1]), last.step, id, Window(last.now, last.now));
    }
  }

  /** A packet id that arrived once either still waits, once and without a verdict, or has had
      exactly one verdict and waits no more; after packet_queue_destroy it has had exactly one. */
  lemma EachPacketOnce(cfg: Config, steps: seq<Timed>, id: U32)
    requires Arrivals(Run(cfg, steps).log, id) == 1
    ensures var s := Run(cfg, steps);
            || (Judged(s.log, id) == 1 && Waiting(s.queue, id) == 0)
            || (Judged(s.log, id) == 0 && Waiting(s.queue, id) == 1)
    ensures Judged(Shutdown(Run(cfg, steps)).log, id) == 1 && Shutdown(Run(cfg, steps)).queue == []
  {
    hide Run;
    RunBalances(cfg, steps, id);
    var s := Run(cfg, steps);
    VerdictsCount(s.log, s.kernel, s.queue, false, id);
  }

  /** packet_queue_destroy refuses every packet that still waits, in order. */
  lemma ShutdownRefuses(s: State)
    ensures var s' := Shutdown(s);
            && s'.queue == [] && |s'.log| == |s.log| + |s.queue| && s'.log[..|s.log|] == s.log
            && forall i :: 0 <= i < |s.queue| ==>
                 s'.log[|s.log| + i] == Verdict(s.queue[i].id, s.queue[i].dest, false, s.queue[i].dest in s.kernel)
  {
  }

  /** The clock starts at `start` and never goes back. */
  ghost predicate Clocked(steps: seq<Timed>, start: Time) {
    && (forall i :: 0 <= i < |steps| ==> start <= steps[i].now)
    && (forall i, j :: 0 <= i < j < |steps| ==> steps[i].now <= steps[j].now)
  }

  /** When the buffer was last swept; packet_queue_init counts as the first time. */
  ghost function LastTick(steps: seq<Timed>, start: Time): Time {
    if steps == [] then start
    else if steps[|steps| - 1].step.Ticks? then steps[|steps| - 1].now
    else LastTick(steps[..|steps| - 1], start)
  }

  /** The time of the last step. */
  function Present(steps: seq<Timed>, start: Time): Time {
    if steps == [] then start else steps[|steps| - 1].now
  }

  /** In every run the buffer holds at most MAX_QUEUE_LENGTH packets, in order of arrival, and
      none that was over age when the buffer was last swept. */
  lemma {:induction false} RunOrderly(cfg: Config, steps: seq<Timed>, start: Time)
    requires Clocked(steps, start)
    ensures LastTick(steps, start) <= Present(steps, start)
    ensures Orderly(Run(cfg, steps).queue, Window(LastTick(steps, start) - MAX_QUEUE_TIME, Present(steps, start)))
  {
    hide Next;
    if steps != [] {
      var init, last := steps[..|steps| - 1], steps[|steps| - 1];
      RunOrderly(cfg, init, start);
      var s := Run(cfg, init);
      var w := Window(LastTick(init, start) - MAX_QUEUE_TIME, last.now);
      assert Orderly(s.queue, w);
      StepCarries(cfg, s, last.step, 0, w);
      if last.step.Ticks? {
        assert Next(cfg, s, last.now, last.step) == Collect(s, last.now) by { NextTick(cfg, s, last.now); }
        CollectCarries(s, last.now, 0, w);
      }
    }
  }

  lemma NextTick(cfg: Config, s: State, now: Time)
    ensures Next(cfg, s, now, Ticks) == Collect(s, now)
  {
  }

  /** With sweeps at most GARBAGE_COLLECT_TIME and `delay` apart, no packet waits longer than
      MAX_QUEUE_TIME + GARBAGE_COLLECT_TIME + `delay`. */
  lemma WaitIsBounded(cfg: Config, steps: seq<Timed>, start: Time, delay: nat, p: Buffered)
    requires Clocked(steps, start) && p in Run(cfg, steps).queue
    requires Present(steps, start) - LastTick(steps, start) <= GARBAGE_COLLECT_TIME + delay
    ensures 0 <= Present(steps, start) - p.at <= 11000 + delay
  {
    hide Run, Clocked, LastTick, Present;
    RunOrderly(cfg, steps, start);
  }
}
