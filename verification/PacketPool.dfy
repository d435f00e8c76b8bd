/** The packet allocator of the simulator: freed packets go on a list threaded through the
    packets themselves and are handed out again; reference counts delay the freeing. */
module PacketPool {
  import opened Basics

  type Data = seq<bv8>

  // ----- The pool as a value

  /** `live` is the flag set by alloc and cleared by the last free; `refs` counts the holders
      beyond the first. */
  datatype Pkt = Pkt(live: bool, refs: int, data: Option<Data>)

  /** `free` is the free list from its head on. */
  datatype Pool<!P> = Pool(free: seq<P>, pkts: map<P, Pkt>)

  /** Packet::alloc: the head of the free list, or `p` if the list is empty. */
  function Alloc<P>(v: Pool<P>, p: P): Pool<P>
    requires if v.free == [] then p !in v.pkts else p == v.free[0] && p in v.pkts
  {
    if v.free == [] then v.(pkts := v.pkts[p := Pkt(true, 0, None)])
    else Pool(v.free[1..], v.pkts[p := v.pkts[p].(live := true)])
  }

  /** Packet::free. */
  function Free<P>(v: Pool<P>, p: P): Pool<P>
    requires p in v.pkts
  {
    var k := v.pkts[p];
    if !k.live then v
    else if k.refs == 0 then Pool([p] + v.free, v.pkts[p := Pkt(false, 0, None)])
    else v.(pkts := v.pkts[p := k.(refs := k.refs - 1)])
  }

  /** Packet::refcopy. */
  function RefCopy<P>(v: Pool<P>, p: P): Pool<P>
    requires p in v.pkts
  {
    v.(pkts := v.pkts[p := v.pkts[p].(refs := v.pkts[p].refs + 1)])
  }

  /** allocdata and setdata. */
  function SetData<P>(v: Pool<P>, p: P, d: Data): Pool<P>
    requires p in v.pkts
  {
    v.(pkts := v.pkts[p := v.pkts[p].(data := Some(d))])
  }

  /** The free list holds exactly the packets that are not live, each once, all without data. */
  ghost predicate Structured<P(!new)>(v: Pool<P>) {
    && (forall i, j :: 0 <= i < j < |v.free| ==> v.free[i] != v.free[j])
    && (forall p :: p in v.free <==> p in v.pkts && !v.pkts[p].live)
    && (forall p :: p in v.pkts ==> v.pkts[p].refs >= 0 && (!v.pkts[p].live ==> v.pkts[p].data == None))
  }

  /** Moreover nothing refers to a packet that is not live. */
  ghost predicate Tidy<P(!new)>(v: Pool<P>) {
    Structured(v) && forall p :: p in v.pkts && !v.pkts[p].live ==> v.pkts[p].refs == 0
  }

  // ----- Reference counting

  function FreeTimes<P>(v: Pool<P>, p: P, n: nat): (v': Pool<P>)
    requires p in v.pkts
    ensures p in v'.pkts
  {
    if n == 0 then v else Free(FreeTimes(v, p, n - 1), p)
  }

  /** A packet with `k` extra references goes to the free list on exactly its (k + 1)-th free:
      before that only its count falls, and after that nothing changes any more. */
  lemma {:induction false} ReturnsOnLastFree<P>(v: Pool<P>, p: P, n: nat)
    requires p in v.pkts && v.pkts[p].live && v.pkts[p].refs >= 0
    ensures var k := v.pkts[p];
            FreeTimes(v, p, n) ==
              if n <= k.refs then v.(pkts := v.pkts[p := k.(refs := k.refs - n)])
              else Pool([p] + v.free, v.pkts[p := Pkt(false, 0, None)])
  {
    var k := v.pkts[p];
    if n == 0 {
      assert v.pkts[p := k] == v.pkts;
    } else {
      ReturnsOnLastFree(v, p, n - 1);
      assert n - 1 <= k.refs ==> FreeTimes(v, p, n - 1).pkts[p := k.(refs := k.refs - n)] == v.pkts[p := k.(refs := k.refs - n)];
    }
  }

  // ----- Runs

  datatype Step<P> = Allocs(p: P) | RefCopies(p: P) | Frees(p: P) | SetsData(p: P, d: Data)

  /** The step can be made: alloc hands out what the list says, and only packets in use are
      copied by reference or given data. */
  predicate Allowed<P(==)>(v: Pool<P>, step: Step<P>) {
    match step
    case Allocs(p) => if v.free == [] then p !in v.pkts else p == v.free[0]
    case RefCopies(p) => p in v.pkts && v.pkts[p].live
    case Frees(p) => p in v.pkts
    case SetsData(p, d) => p in v.pkts && v.pkts[p].live
  }

  function Next<P(==)>(v: Pool<P>, step: Step<P>): Pool<P> {
    match step
    case Allocs(p) =>
      if (if v.free == [] then p !in v.pkts else p == v.free[0] && p in v.pkts) then Alloc(v, p) else v
    case RefCopies(p) => if p in v.pkts then RefCopy(v, p) else v
    case Frees(p) => if p in v.pkts then Free(v, p) else v
    case SetsData(p, d) => if p in v.pkts then SetData(v, p, d) else v
  }

  function Run<P(==)>(steps: seq<Step<P>>): Pool<P> {
    if steps == [] then Pool([], map[]) else Next(Run(steps[..|steps| - 1]), steps[|steps| - 1])
  }

  predicate Disciplined<P(==)>(steps: seq<Step<P>>) {
    steps == [] ||
    (Disciplined(steps[..|steps| - 1]) && Allowed(Run(steps[..|steps| - 1]), steps[|steps| - 1]))
  }

  /** Who holds the packet: the one it was allocated for, plus one for each copy, less one for
      each free, but never below none.  This looks at the steps alone. */
  function Holders<P(==)>(steps: seq<Step<P>>, p: P): nat {
    if steps == [] then 0 else
    var before, step := Holders(steps[..|steps| - 1], p), steps[|steps| - 1];
    if step.p != p then before
    else match step
      case Allocs(_) => 1
      case RefCopies(_) => before + 1
      case Frees(_) => if before == 0 then 0 else before - 1
      case SetsData(_, _) => before
  }

  /** The step gives data to a packet that is not live. */
  predicate Soils<P(==)>(v: Pool<P>, step: Step<P>) {
    step.SetsData? && step.p in v.pkts && !v.pkts[step.p].live
  }

  /** The step takes a reference on a packet that is not live. */
  predicate Revives<P(==)>(v: Pool<P>, step: Step<P>) {
    step.RefCopies? && step.p in v.pkts && !v.pkts[step.p].live
  }

  /** Exactly when a step keeps the structure: references do not matter. */
  lemma StepStructured<P(!new)>(v: Pool<P>, step: Step<P>)
    requires Structured(v)
    ensures Structured(Next(v, step)) <==> !Soils(v, step)
  {
    var v' := Next(v, step);
    match step
    case Allocs(p) =>
      if v.free != [] {
        assert v.free[0] in v.free;
        AfterHead(v.free);
      }
    case RefCopies(p) =>
    case Frees(p) =>
    case SetsData(p, d) =>
      if Soils(v, step) {
        assert p in v'.pkts && !v'.pkts[p].live && v'.pkts[p].data != None;
      }
  }

  /** Exactly when a step keeps the pool tidy. */
  lemma StepTidy<P(!new)>(v: Pool<P>, step: Step<P>)
    requires Tidy(v)
    ensures Tidy(Next(v, step)) <==> !Soils(v, step) && !Revives(v, step)
  {
    hide Structured;
    StepStructured(v, step);
    var v' := Next(v, step);
    if Revives(v, step) {
      assert step.p in v'.pkts && !v'.pkts[step.p].live && v'.pkts[step.p].refs != 0;
    }
  }

  /** A packet keeps its data until it is given other data or freed for the last time; a new one has
      none. */
  lemma StepData<P>(v: Pool<P>, step: Step<P>, p: P)
    requires p in Next(v, step).pkts
    ensures Next(v, step).pkts[p].data ==
            if p !in v.pkts then None
            else if step.SetsData? && step.p == p then Some(step.d)
            else if step.Frees? && step.p == p && v.pkts[p].live && v.pkts[p].refs == 0 then None
            else v.pkts[p].data
  {
  }

  lemma AfterHead<P>(s: seq<P>)
    requires s != [] && forall i, j :: 0 <= i < j < |s| ==> s[i] != s[j]
    ensures forall p :: p in s[1..] <==> p in s && p != s[0]
  {
    assert s == [s[0]] + s[1..];
    assert forall i :: 0 <= i < |s[1..]| ==> s[1..][i] == s[i + 1];
  }

  /** What a step does to the holders of one packet. */
  lemma StepHolders<P(!new)>(v: Pool<P>, step: Step<P>, p: P, holders: nat)
    requires Tidy(v) && Allowed(v, step)
    requires holders == if p in v.pkts && v.pkts[p].live then v.pkts[p].refs + 1 else 0
    ensures var v' := Next(v, step);
            var after := if step.p != p then holders
                         else match step
                           case Allocs(_) => 1
                           case RefCopies(_) => holders + 1
                           case Frees(_) => if holders == 0 then 0 else holders - 1
                           case SetsData(_, _) => holders;
            after == if p in v'.pkts && v'.pkts[p].live then v'.pkts[p].refs + 1 else 0
  {
    if step.Allocs? && v.free != [] {
      assert v.free[0] in v.free;
    }
  }

  /** In every disciplined run: live and free packets are disjoint, the free list has no
      duplicates, and a packet is live exactly as long as somebody holds it. */
  lemma {:induction false} RunTidy<P(!new)>(steps: seq<Step<P>>, p: P)
    requires Disciplined(steps)
    ensures Tidy(Run(steps))
    ensures var v := Run(steps);
            Holders(steps, p) == if p in v.pkts && v.pkts[p].live then v.pkts[p].refs + 1 else 0
  {
    hide Next, Tidy;
    if steps == [] {
      EmptyIsTidy<P>();
    } else {
      var init, step := steps[..|steps| - 1], steps[|steps| - 1];
      RunTidy(init, p);
      StepTidy(Run(init), step);
      StepHolders(Run(init), step, p, Holders(init, p));
    }
  }

  /** No step of the run gives data to a packet that is not live. */
  predicate Clean<P(==)>(steps: seq<Step<P>>) {
    steps == [] || (Clean(steps[..|steps| - 1]) && !Soils(Run(steps[..|steps| - 1]), steps[|steps| - 1]))
  }

  /** In every such run, whatever references are taken, the free list has no duplicates and holds
      exactly the packets that are not live, ready for alloc. */
  lemma {:induction false} RunStructured<P(!new)>(steps: seq<Step<P>>)
    requires Clean(steps)
    ensures Structured(Run(steps))
  {
    hide Next, Structured;
    if steps == [] {
      EmptyIsTidy<P>();
    } else {
      RunStructured(steps[..|steps| - 1]);
      StepStructured(Run(steps[..|steps| - 1]), steps[|steps| - 1]);
    }
  }

  lemma EmptyIsTidy<P(!new)>()
    ensures Tidy(Pool<P>.Pool([], map[])) && Structured(Pool<P>.Pool([], map[]))
  {
  }

  /** Copying a freed packet by reference breaks this: it comes back from alloc with the
      reference still counted, so its only holder must free it twice. */
  lemma CopyOfFreedPacket<P>(p: P)
    ensures var v := Free(Alloc(Pool([], map[]), p), p);
            var w := Alloc(RefCopy(v, p), p);
            w.pkts[p].live && w.pkts[p].refs == 1 && Free(w, p).pkts[p].live && Free(w, p).free == []
  {
  }

  // ----- The pool in place

  class Packet {
    var next: Packet?
    var fflag: bool
    var refCount: int
    var data: Option<Data>
    var uid: int

    constructor ()
      ensures next == null && refCount == 0 && data == None && uid == 0 && !fflag
    {
      next, refCount, data, uid, fflag := null, 0, None, 0, false;
    }
  }

  class Allocator {
    var free: Packet?

    /** The packets on the free list, from its head on, and all packets ever made. */
    ghost var chain: seq<Packet>
    ghost var packets: set<Packet>

    /** The links of the packets spell out `chain`, which is exactly the free list. */
    ghost predicate Linked()
      reads this, packets
    {
      && (forall p :: p in chain ==> p in packets)
      && (if chain == [] then free == null else free == chain[0] && chain[|chain| - 1].next == null)
      && (forall i, j :: 0 <= i < j < |chain| && j == i + 1 ==> chain[i].next == chain[j])
    }

    ghost predicate Valid()
      reads this, packets
    {
      && Linked()
      && (forall i, j :: 0 <= i < j < |chain| ==> chain[i] != chain[j])
      && (forall p :: p in packets ==> (p in chain <==> !p.fflag))
      && (forall p :: p in packets && !p.fflag ==> p.data == None)
    }

    ghost function View(): Pool<Packet>
      reads this, packets
    {
      Pool(chain, map p | p in packets :: Pkt(p.fflag, p.refCount, p.data))
    }

    constructor ()
      ensures Valid() && View() == Pool([], map[])
    {
      free, chain, packets := null, [], {};
    }

    /** Packet::alloc on a free list that is not empty, with the two assertions of the source. */
    method TakeHead() returns (p: Packet)
      requires Valid() && free != null
      modifies this, packets
      ensures Valid() && packets == old(packets) && p in packets
      ensures old(chain) != [] && p == old(chain)[0] && chain == old(chain)[1..] && p in old(packets)
      ensures p.fflag && p.next == null && p.refCount == old(p.refCount) && p.data == old(p.data) == None
      ensures forall x :: x in packets && x != p ==> unchanged(x)
    {
      p := free;
      TailLinks();
      assert p in chain;
      assert !p.fflag;
      free := p.next;
      assert p.data == None;
      p.uid := 0;
      chain := chain[1..];
      p.fflag := true;
      p.next := null;
    }

    /** Packet::alloc on an empty free list. */
    method MakeNew() returns (p: Packet)
      requires Valid() && free == null
      modifies this
      ensures Valid() && chain == old(chain) == [] && fresh(p) && packets == old(packets) + {p}
      ensures p.fflag && p.next == null && p.refCount == 0 && p.data == None
    {
      p := new Packet();
      packets := packets + {p};
      p.fflag := true;
    }

    /** Packet::alloc. */
    method AllocPacket() returns (p: Packet)
      requires Valid()
      modifies this, packets
      ensures Valid() && p.fflag && p.next == null && p.data == None && packets == old(packets) + {p}
      ensures if old(chain) == [] then fresh(p) else p == old(chain)[0]
      ensures forall x :: x in old(packets) && x != p ==> unchanged(x)
      ensures (if old(chain) == [] then p !in old(packets) else p in old(packets)) && View() == Alloc(old(View()), p)
    {
      if free != null {
        p := TakeHead();
        hide Valid, Linked;
      } else {
        p := MakeNew();
        hide Valid, Linked;
      }
    }

    lemma TailLinks()
      requires Valid() && chain != []
      ensures var rest := chain[1..];
              && chain[0] !in rest
              && (forall p :: p in rest <==> p in chain && p != chain[0])
              && (if rest == [] then chain[0].next == null else chain[0].next == rest[0] && rest[|rest| - 1].next == null)
              && (forall i, j :: 0 <= i < j < |rest| && j == i + 1 ==> rest[i].next == rest[j])
    {
      AfterHead(chain);
      var rest := chain[1..];
      forall i, j | 0 <= i < j < |rest| && j == i + 1 ensures rest[i].next == rest[j] {
        assert rest[i] == chain[i + 1] && rest[j] == chain[j + 1];
      }
    }

    /** The last free of a packet: it goes to the head of the free list, without its data. */
    method Retire(p: Packet)
      requires Valid() && p in packets && p.fflag && p.refCount == 0
      modifies this, p
      ensures Valid() && packets == old(packets)
      ensures View() == Pool([p] + old(chain), old(View()).pkts[p := Pkt(false, 0, None)])
    {
      p.data := None;
      p.next := free;
      free := p;
      p.fflag := false;
      chain := [p] + chain;
    }

    /** Packet::free; on the last free the packet must be out of the event queue. */
    method FreePacket(p: Packet)
      requires Valid() && p in packets
      requires p.fflag && p.refCount == 0 ==> p.uid <= 0
      modifies this, p
      ensures Valid() && packets == old(packets) && View() == Free(old(View()), p)
    {
      if p.fflag {
        if p.refCount == 0 {
          Retire(p);
        } else {
          p.refCount := p.refCount - 1;
        }
      }
    }

    /** Packet::refcopy. */
    method RefCopyPacket(p: Packet) returns (q: Packet)
      requires Valid() && p in packets
      modifies p
      ensures Valid() && q == p && View() == RefCopy(old(View()), p)
    {
      p.refCount := p.refCount + 1;
      return p;
    }

    /** Packet::copy: another packet with the same data, which shares nothing with the first;
        but the packet itself if it is the next to be handed out. */
    method CopyPacket(p: Packet) returns (q: Packet)
      requires Valid() && p in packets
      modifies this, packets
      ensures Valid() && q.fflag && q.data == old(p.data)
      ensures q == p <==> old(chain) != [] && p == old(chain)[0]
      ensures packets == old(packets) + {q} && forall x :: x in old(packets) && x != q ==> unchanged(x)
    {
      assert chain != [] ==> chain[0] in chain && chain[0].data == None;
      q := AllocPacket();
      q.data := p.data;
    }
  }
}
