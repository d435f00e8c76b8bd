/** The packet queue of the kernel module.  Every operation holds a lock, but the loop that
    disposes of the packets for one destination gives the lock up between two packets, so
    packets may come in meanwhile.  The queue is written oldest first: the list is filled at
    its head and searched from its tail. */
module KernelQueue {
  import opened Basics

  /** A queued packet; `id` tells packets apart. */
  datatype Skb = Skb(id: nat, daddr: Addr)

  const KAODV_QUEUE_QMAX_DEFAULT: nat := 1024

  /** The packets for `d`, oldest first, and all others in their order. */
  function Only(q: seq<Skb>, d: Addr): seq<Skb> {
    if q == [] then [] else
    if q[0].daddr == d then [q[0]] + Only(q[1..], d) else Only(q[1..], d)
  }

  function Rest(q: seq<Skb>, d: Addr): seq<Skb> {
    if q == [] then [] else
    if q[0].daddr == d then Rest(q[1..], d) else [q[0]] + Rest(q[1..], d)
  }

  /** `k` is the place of the oldest packet for `d`, or the length if there is none. */
  predicate IsOldest(q: seq<Skb>, d: Addr, k: nat) {
    k <= |q| && (k < |q| ==> q[k].daddr == d) && forall i :: 0 <= i < k ==> q[i].daddr != d
  }

  function Oldest(q: seq<Skb>, d: Addr): (k: nat)
    ensures IsOldest(q, d, k)
  {
    if q == [] || q[0].daddr == d then 0 else 1 + Oldest(q[1..], d)
  }

  lemma OldestIsUnique(q: seq<Skb>, d: Addr, k: nat)
    requires IsOldest(q, d, k)
    ensures k == Oldest(q, d)
  {
  }

  function Without(q: seq<Skb>, k: nat): seq<Skb>
    requires k < |q|
  {
    q[..k] + q[k + 1..]
  }

  lemma {:induction false} OnlyConcat(a: seq<Skb>, b: seq<Skb>, d: Addr)
    ensures Only(a + b, d) == Only(a, d) + Only(b, d) && Rest(a + b, d) == Rest(a, d) + Rest(b, d)
  {
    if a == [] {
      assert a + b == b;
    } else {
      assert (a + b)[1..] == a[1..] + b;
      OnlyConcat(a[1..], b, d);
    }
  }

  lemma OnlyOne(p: Skb, d: Addr)
    ensures Only([p], d) == if p.daddr == d then [p] else []
    ensures Rest([p], d) == if p.daddr == d then [] else [p]
  {
    assert [p][1..] == [];
  }

  /** Taking the oldest packet for `d` off the queue. */
  lemma {:induction false} TakeOldest(q: seq<Skb>, d: Addr, k: nat)
    requires IsOldest(q, d, k) && k < |q|
    ensures Only(q, d) == [q[k]] + Only(Without(q, k), d)
    ensures Rest(q, d) == Rest(Without(q, k), d)
    ensures forall x :: x != d ==> Only(Without(q, k), x) == Only(q, x)
  {
    if k == 0 {
      assert Without(q, 0) == q[1..];
    } else {
      TakeOldest(q[1..], d, k - 1);
      assert Without(q, k) == [q[0]] + Without(q[1..], k - 1);
      assert Without(q, k)[1..] == Without(q[1..], k - 1);
    }
  }

  lemma {:induction false} NoneLeft(q: seq<Skb>, d: Addr)
    requires IsOldest(q, d, |q|)
    ensures Only(q, d) == [] && Rest(q, d) == q
  {
    if q != [] {
      assert q == [q[0]] + q[1..];
      NoneLeft(q[1..], d);
    }
  }

  /** Only and Rest split the queue; both keep the order. */
  lemma {:induction false} SplitsQueue(q: seq<Skb>, d: Addr, x: Addr)
    ensures Only(Rest(q, d), x) == if x == d then [] else Only(q, x)
    ensures Only(Only(q, d), x) == if x == d then Only(q, d) else []
  {
    if q != [] {
      SplitsQueue(q[1..], d, x);
      if q[0].daddr == d {
        assert Only(q, d)[1..] == Only(q[1..], d);
      } else {
        assert Rest(q, d)[1..] == Rest(q[1..], d);
      }
    }
  }

  // ----- The queue

  class Queue {
    const maxlen: nat
    var list: seq<Skb>
    var total: int

    ghost predicate Valid()
      reads this
    {
      total == |list| <= maxlen
    }

    constructor ()
      ensures Valid() && list == [] && maxlen == KAODV_QUEUE_QMAX_DEFAULT
    {
      maxlen, list, total := KAODV_QUEUE_QMAX_DEFAULT, [], 0;
    }

    /** kaodv_queue_enqueue_packet: refused when the queue is full. */
    method Enqueue(p: Skb) returns (accepted: bool)
      requires Valid()
      modifies this
      ensures Valid() && accepted == (|old(list)| < maxlen)
      ensures list == if accepted then old(list) + [p] else old(list)
      ensures forall s: QueueState :: s.queue == old(list) && s.total == old(total) ==>
        var s' := Next(s, maxlen, Arrives(p)); s'.queue == list && s'.total == total
    {
      if total >= maxlen {
        return false;
      }
      list := list + [p];
      total := total + 1;
      return true;
    }

    /** __kaodv_queue_find_entry; without a destination any entry will do. */
    method FindEntry(d: Option<Addr>) returns (k: nat)
      ensures k <= |list|
      ensures d.Some? ==> k == Oldest(list, d.value)
      ensures d.None? ==> k == 0
    {
      k := 0;
      while k < |list|
        invariant k <= |list| && (d.None? ==> k == 0)
        invariant forall i :: 0 <= i < k ==> d.Some? && list[i].daddr != d.value
      {
        if d.None? || list[k].daddr == d.value {
          break;
        }
        k := k + 1;
      }
      if d.Some? {
        OldestIsUnique(list, d.value, k);
      }
    }

    /** kaodv_queue_find_dequeue_entry. */
    method FindDequeue(d: Option<Addr>) returns (p: Option<Skb>)
      requires Valid()
      modifies this
      ensures Valid()
      ensures var k := if d.Some? then Oldest(old(list), d.value) else 0;
              if k == |old(list)| then p == None && list == old(list)
              else p == Some(old(list)[k]) && list == Without(old(list), k)
      ensures d.Some? ==> forall s: QueueState ::
        s.queue == old(list) && s.total == old(total) && s.loop == Running(d.value) ==>
          var s' := Next(s, maxlen, Takes);
          s'.queue == list && s'.total == total && s'.loop == if p.None? then Idle else Holding(d.value, p.value)
    {
      var k := FindEntry(d);
      if k == |list| {
        return None;
      }
      p := Some(list[k]);
      list := list[..k] + list[k + 1..];
      total := total - 1;
    }

    /** kaodv_queue_find. */
    method Find(d: Addr) returns (found: bool)
      ensures found <==> Only(list, d) != []
    {
      var k := FindEntry(Some(d));
      found := k < |list|;
      if found {
        TakeOldest(list, d, k);
      } else {
        NoneLeft(list, d);
      }
    }

    /** kaodv_queue_flush. */
    method Flush()
      requires Valid()
      modifies this
      ensures Valid() && list == []
    {
      var p := FindDequeue(None);
      while p.Some?
        invariant Valid() && (p.None? ==> list == [])
        decreases |list|, p.Some?
      {
        p := FindDequeue(None);
      }
    }
  }

  // ----- Packets coming in while a verdict loop is at work

  /** The verdict loop: not running, between two packets, or with one in hand. */
  datatype Loop = Idle | Running(d: Addr) | Holding(d: Addr, p: Skb)

  /** `accepted` are all packets that were ever let into the queue, `disposed` those that the
      loop has sent or dropped, both in order of time. */
  datatype QueueState = QueueState(queue: seq<Skb>, total: int, loop: Loop, accepted: seq<Skb>, disposed: seq<Skb>)

  datatype Step = Arrives(p: Skb) | Starts(d: Addr) | Takes | Disposes

  /** One step under the lock, or one packet disposed of outside it. */
  function Next(s: QueueState, maxlen: nat, step: Step): QueueState {
    match step
    case Arrives(p) =>
      if s.total >= maxlen then s
      else s.(queue := s.queue + [p], total := s.total + 1, accepted := s.accepted + [p])
    case Starts(d) =>
      if s.loop.Idle? then s.(loop := Running(d)) else s
    case Takes =>
      if !s.loop.Running? then s else
      var k := Oldest(s.queue, s.loop.d);
      if k == |s.queue| then s.(loop := Idle)
      else s.(queue := Without(s.queue, k), total := s.total - 1, loop := Holding(s.loop.d, s.queue[k]))
    case Disposes =>
      if !s.loop.Holding? then s
      else s.(loop := Running(s.loop.d), disposed := s.disposed + [s.loop.p])
  }

  function Run(maxlen: nat, steps: seq<Step>): QueueState {
    if steps == [] then QueueState([], 0, Idle, [], [])
    else Next(Run(maxlen, steps[..|steps| - 1]), maxlen, steps[|steps| - 1])
  }

  function InHand(l: Loop): seq<Skb> {
    if l.Holding? then [l.p] else []
  }

  /** For destination `x`: disposed of, in hand, still queued, in this order. */
  function Timeline(s: QueueState, x: Addr): seq<Skb> {
    Only(s.disposed, x) + Only(InHand(s.loop), x) + Only(s.queue, x)
  }

  ghost predicate Consistent(s: QueueState, maxlen: nat) {
    && s.total == |s.queue| <= maxlen
    && (s.loop.Holding? ==> s.loop.p.daddr == s.loop.d)
    && forall x: Addr :: Timeline(s, x) == Only(s.accepted, x)
  }

  lemma ArriveInOrder(s: QueueState, maxlen: nat, p: Skb, x: Addr)
    requires Timeline(s, x) == Only(s.accepted, x)
    ensures Timeline(Next(s, maxlen, Arrives(p)), x) == Only(Next(s, maxlen, Arrives(p)).accepted, x)
  {
    if s.total < maxlen {
      OnlyConcat(s.queue, [p], x);
      OnlyConcat(s.accepted, [p], x);
    }
  }

  lemma TakeInOrder(s: QueueState, maxlen: nat, x: Addr)
    ensures Timeline(Next(s, maxlen, Takes), x) == Timeline(s, x)
  {
    if s.loop.Running? {
      var k := Oldest(s.queue, s.loop.d);
      if k < |s.queue| {
        TakeOldest(s.queue, s.loop.d, k);
        OnlyOne(s.queue[k], x);
      }
    }
  }

  lemma DisposeInOrder(s: QueueState, maxlen: nat, x: Addr)
    ensures Timeline(Next(s, maxlen, Disposes), x) == Timeline(s, x)
  {
    if s.loop.Holding? {
      OnlyConcat(s.disposed, [s.loop.p], x);
    }
  }

  lemma StepConsistent(s: QueueState, maxlen: nat, step: Step)
    requires Consistent(s, maxlen)
    ensures Consistent(Next(s, maxlen, step), maxlen)
  {
    hide Only, Timeline;
    var s' := Next(s, maxlen, step);
    forall x: Addr ensures Timeline(s', x) == Only(s'.accepted, x) {
      match step
      case Arrives(p) => ArriveInOrder(s, maxlen, p, x);
      case Starts(d) => StartInOrder(s, maxlen, d, x);
      case Takes => TakeInOrder(s, maxlen, x);
      case Disposes => DisposeInOrder(s, maxlen, x);
    }
  }

  lemma StartInOrder(s: QueueState, maxlen: nat, d: Addr, x: Addr)
    ensures Timeline(Next(s, maxlen, Starts(d)), x) == Timeline(s, x)
  {
  }

  /** For every interleaving: per destination nothing is lost, doubled or overtaken, and the
      counter is the length of the queue and within the limit. */
  lemma {:induction false} RunConsistent(maxlen: nat, steps: seq<Step>)
    ensures Consistent(Run(maxlen, steps), maxlen)
  {
    hide Next, Consistent;
    if steps == [] {
      InitiallyConsistent(maxlen);
    } else {
      RunConsistent(maxlen, steps[..|steps| - 1]);
      StepConsistent(Run(maxlen, steps[..|steps| - 1]), maxlen, steps[|steps| - 1]);
    }
  }

  lemma InitiallyConsistent(maxlen: nat)
    ensures Consistent(QueueState([], 0, Idle, [], []), maxlen)
  {
  }

  /** When the loop for `d` ends, no packet for `d` is queued at that moment, and all that were
      ever let in have been disposed of, in order of arrival. */
  lemma LoopEndsEmpty(maxlen: nat, steps: seq<Step>)
    requires Run(maxlen, steps).loop.Running? && Run(maxlen, steps + [Takes]).loop.Idle?
    ensures var s, d := Run(maxlen, steps + [Takes]), Run(maxlen, steps).loop.d;
            Only(s.queue, d) == [] && Only(s.disposed, d) == Only(s.accepted, d)
  {
    RunConsistent(maxlen, steps);
    var s := Run(maxlen, steps);
    assert (steps + [Takes])[..|steps|] == steps;
    NoneLeft(s.queue, s.loop.d);
    assert Timeline(s, s.loop.d) == Only(s.accepted, s.loop.d);
  }
}
