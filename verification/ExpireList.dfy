/** The list of routes in the kernel module, sorted by expiry, with its length counter.

    The counter is not what its name says: a refused addition counts as one more entry, and an
    update at the limit loses its entry without being subtracted.  `Drift` measures the gap,
    and `StepDrift` says exactly which steps widen it; nothing ever narrows it. */
module ExpireList {
  import opened Basics

  const EXPL_MAX_LEN: nat := 1024

  /** What a route is good for, besides its destination and expiry. */
  datatype Via = Via(nhop: Addr, encap: bool, repair: bool, ifindex: int)

  datatype Entry = Entry(daddr: Addr, via: Via, expires: int)

  datatype Expl = Expl(list: seq<Entry>, len: int)

  /** When a route of `time` milliseconds expires, in ticks of `hz` per second. */
  function Deadline(jiffies: nat, time: nat, hz: nat): nat {
    jiffies + time * hz / 1000
  }

  // ----- The operations as functions

  /** Before the first entry that expires later. */
  function Inserted(list: seq<Entry>, e: Entry): seq<Entry> {
    if list == [] then [e]
    else if list[0].expires > e.expires then [e] + list
    else [list[0]] + Inserted(list[1..], e)
  }

  /** Where the entry for `d` stands, or the length of the list. */
  function Place(list: seq<Entry>, d: Addr): (k: nat)
    ensures k <= |list| && (k < |list| ==> list[k].daddr == d)
    ensures forall i :: 0 <= i < k ==> list[i].daddr != d
  {
    if list == [] || list[0].daddr == d then 0 else 1 + Place(list[1..], d)
  }

  predicate Has(list: seq<Entry>, d: Addr) {
    Place(list, d) < |list|
  }

  function Cut(list: seq<Entry>, k: nat): seq<Entry>
    requires k < |list|
  {
    list[..k] + list[k + 1..]
  }

  /** kaodv_expl_add. */
  function Add(s: Expl, e: Entry): Expl {
    if Has(s.list, e.daddr) then s
    else if s.len >= EXPL_MAX_LEN then s.(len := s.len + 1)
    else Expl(Inserted(s.list, e), s.len + 1)
  }

  /** kaodv_expl_del. */
  function Del(s: Expl, d: Addr): Expl {
    if Has(s.list, d) then Expl(Cut(s.list, Place(s.list, d)), s.len - 1) else s
  }

  /** kaodv_expl_update: take out, change, put back. */
  function Update(s: Expl, e: Entry): Expl {
    if !Has(s.list, e.daddr) then s else
    var rest := Cut(s.list, Place(s.list, e.daddr));
    if s.len >= EXPL_MAX_LEN then s.(list := rest) else s.(list := Inserted(rest, e))
  }

  /** kaodv_expl_flush. */
  function Flush(s: Expl): Expl {
    Expl([], s.len - |s.list|)
  }

  /** How many entries kaodv_expl_timeout takes off: it stops at the first that is not due. */
  function Due(list: seq<Entry>, now: int): (k: nat)
    ensures k <= |list|
  {
    if list == [] || list[0].expires > now then 0 else 1 + Due(list[1..], now)
  }

  function Timeout(s: Expl, now: int): Expl {
    var k := Due(s.list, now);
    Expl(s.list[k..], s.len - k)
  }

  // ----- Order and uniqueness

  ghost predicate Sorted(list: seq<Entry>) {
    forall i, j :: 0 <= i < j < |list| ==> list[i].expires <= list[j].expires
  }

  ghost predicate Unique(list: seq<Entry>) {
    forall i, j :: 0 <= i < j < |list| ==> list[i].daddr != list[j].daddr
  }

  ghost predicate Sound(s: Expl) {
    Sorted(s.list) && Unique(s.list) && |s.list| <= EXPL_MAX_LEN && |s.list| <= s.len
  }

  /** The place of insertion, and what stands around it. */
  lemma {:induction false} InsertedAt(list: seq<Entry>, e: Entry) returns (k: nat)
    ensures k <= |list| && Inserted(list, e) == list[..k] + [e] + list[k..]
    ensures forall i :: 0 <= i < k ==> list[i].expires <= e.expires
    ensures k < |list| ==> list[k].expires > e.expires
  {
    if list == [] || list[0].expires > e.expires {
      k := 0;
    } else {
      var j := InsertedAt(list[1..], e);
      k := j + 1;
      assert list[..k] == [list[0]] + list[1..][..j] && list[k..] == list[1..][j..];
    }
  }

  lemma InsertedSound(list: seq<Entry>, e: Entry)
    requires Sorted(list) && Unique(list) && !Has(list, e.daddr)
    ensures Sorted(Inserted(list, e)) && Unique(Inserted(list, e)) && |Inserted(list, e)| == |list| + 1
  {
    hide Inserted;
    var k := InsertedAt(list, e);
    var l := list[..k] + [e] + list[k..];
    assert forall i :: 0 <= i < |l| ==> l[i] == if i < k then list[i] else if i == k then e else list[i - 1];
  }

  lemma CutSound(list: seq<Entry>, k: nat)
    requires Sorted(list) && Unique(list) && k < |list|
    ensures Sorted(Cut(list, k)) && Unique(Cut(list, k)) && !Has(Cut(list, k), list[k].daddr)
  {
    var l := Cut(list, k);
    assert forall i :: 0 <= i < |l| ==> l[i] == if i < k then list[i] else list[i + 1];
  }

  /** On a sorted list the early break of the timeout loses nothing: what is taken off is
      exactly what is due, and what stays is exactly what is not. */
  lemma {:induction false} TimeoutExact(list: seq<Entry>, now: int)
    requires Sorted(list)
    ensures forall i :: 0 <= i < |list| ==> (i < Due(list, now) <==> list[i].expires <= now)
  {
    if list != [] && list[0].expires <= now {
      TimeoutExact(list[1..], now);
      assert forall i :: 0 < i < |list| ==> list[i] == list[1..][i - 1];
    }
  }

  // ----- Runs

  datatype Step = Adds(e: Entry) | Dels(d: Addr) | Updates(e: Entry) | Flushes | TimesOut(now: int)

  function Next(s: Expl, step: Step): Expl {
    match step
    case Adds(e) => Add(s, e)
    case Dels(d) => Del(s, d)
    case Updates(e) => Update(s, e)
    case Flushes => Flush(s)
    case TimesOut(now) => Timeout(s, now)
  }

  function Run(steps: seq<Step>): Expl {
    if steps == [] then Expl([], 0) else Next(Run(steps[..|steps| - 1]), steps[|steps| - 1])
  }

  function Drift(s: Expl): int {
    s.len - |s.list|
  }

  /** The step meets the limit: a new entry is refused, or an entry to be updated is lost. */
  predicate HitsLimit(s: Expl, step: Step) {
    s.len >= EXPL_MAX_LEN &&
    match step
    case Adds(e) => !Has(s.list, e.daddr)
    case Updates(e) => Has(s.list, e.daddr)
    case _ => false
  }

  lemma UpdateSound(s: Expl, e: Entry)
    requires Sound(s)
    ensures Sound(Update(s, e)) && Drift(Update(s, e)) == Drift(s) + (if HitsLimit(s, Updates(e)) then 1 else 0)
  {
    hide Inserted;
    if Has(s.list, e.daddr) {
      var k := Place(s.list, e.daddr);
      CutSound(s.list, k);
      InsertedSound(Cut(s.list, k), e);
    }
  }

  /** Every step keeps the list sorted, free of duplicates and within the limit; the counter
      moves away from the length by one exactly when the step meets the limit. */
  lemma StepDrift(s: Expl, step: Step)
    requires Sound(s)
    ensures Sound(Next(s, step))
    ensures Drift(Next(s, step)) == Drift(s) + (if HitsLimit(s, step) then 1 else 0)
  {
    hide Inserted;
    match step
    case Adds(e) =>
      if !Has(s.list, e.daddr) && s.len < EXPL_MAX_LEN {
        InsertedSound(s.list, e);
      }
    case Dels(d) =>
      if Has(s.list, d) {
        CutSound(s.list, Place(s.list, d));
      }
    case Updates(e) => UpdateSound(s, e);
    case Flushes =>
    case TimesOut(now) => TimeoutSound(s, now);
  }

  lemma TimeoutSound(s: Expl, now: int)
    requires Sound(s)
    ensures Sound(Timeout(s, now)) && Drift(Timeout(s, now)) == Drift(s)
  {
    var k := Due(s.list, now);
    assert forall i :: 0 <= i < |s.list[k..]| ==> s.list[k..][i] == s.list[k + i];
  }

  // ----- The list as a map

  function Lookup(list: seq<Entry>, d: Addr): Option<Entry> {
    if Has(list, d) then Some(list[Place(list, d)]) else None
  }

  /** What is found does not depend on where it stands. */
  lemma LookupIs(list: seq<Entry>, k: nat)
    requires Unique(list) && k < |list|
    ensures Lookup(list, list[k].daddr) == Some(list[k])
  {
    PlaceIsUnique(list, list[k].daddr, k);
  }

  /** One entry less makes no difference to the others. */
  lemma LookupCut(list: seq<Entry>, k: nat, d: Addr)
    requires Unique(list) && k < |list|
    ensures Lookup(Cut(list, k), d) == if d == list[k].daddr then None else Lookup(list, d)
  {
    var l := Cut(list, k);
    assert forall i :: 0 <= i < |l| ==> l[i] == if i < k then list[i] else list[i + 1];
    if d != list[k].daddr && Has(list, d) {
      var j := Place(list, d);
      LookupIs(l, if j < k then j else j - 1);
    }
  }

  lemma LookupInserted(list: seq<Entry>, e: Entry, d: Addr)
    requires Sorted(list) && Unique(list) && !Has(list, e.daddr)
    ensures Lookup(Inserted(list, e), d) == if d == e.daddr then Some(e) else Lookup(list, d)
  {
    hide Inserted, Lookup;
    var k := InsertedAt(list, e);
    var l := Inserted(list, e);
    InsertedSound(list, e);
    assert Cut(l, k) == list;
    LookupIs(l, k);
    LookupCut(l, k, d);
  }

  lemma LookupRest(list: seq<Entry>, now: int, d: Addr)
    requires Sorted(list) && Unique(list)
    ensures var found := Lookup(list, d);
            Lookup(list[Due(list, now)..], d) == if found.Some? && found.value.expires <= now then None else found
  {
    hide Due;
    var k := Due(list, now);
    var l := list[k..];
    TimeoutExact(list, now);
    assert forall i :: 0 <= i < |l| ==> l[i] == list[k + i];
    if Has(list, d) && Place(list, d) >= k {
      LookupIs(l, Place(list, d) - k);
    }
  }

  /** The list is a map from destinations to entries, whatever its order.  An addition does not
      replace an entry, and neither an addition nor an update finds room once the counter is at
      1024. */
  lemma StepLookup(s: Expl, step: Step, d: Addr)
    requires Sound(s)
    ensures var found := Lookup(s.list, d);
            Lookup(Next(s, step).list, d) ==
              match step
              case Adds(e) =>
                if d != e.daddr || found.Some? then found else if s.len >= 1024 then None else Some(e)
              case Dels(x) => if d == x then None else found
              case Updates(e) =>
                if d != e.daddr || found.None? then found else if s.len >= 1024 then None else Some(e)
              case Flushes => None
              case TimesOut(now) => if found.Some? && found.value.expires <= now then None else found
  {
    hide Inserted, Cut;
    match step
    case Adds(e) =>
      if !Has(s.list, e.daddr) {
        LookupInserted(s.list, e, d);
      }
    case Dels(x) =>
      if Has(s.list, x) {
        LookupCut(s.list, Place(s.list, x), d);
      }
    case Updates(e) =>
      if Has(s.list, e.daddr) {
        var k := Place(s.list, e.daddr);
        CutSound(s.list, k);
        LookupCut(s.list, k, d);
        LookupInserted(Cut(s.list, k), e, d);
      }
    case Flushes =>
    case TimesOut(now) => LookupRest(s.list, now, d);
  }

  /** How often a run met the limit. */
  function Hits(steps: seq<Step>): nat {
    if steps == [] then 0 else
    Hits(steps[..|steps| - 1]) + (if HitsLimit(Run(steps[..|steps| - 1]), steps[|steps| - 1]) then 1 else 0)
  }

  /** In every run the list is sound and the counter is the length plus the number of times
      the limit was met: the two agree if and only if it never was. */
  lemma {:induction false} RunSound(steps: seq<Step>)
    ensures Sound(Run(steps)) && Drift(Run(steps)) == Hits(steps)
  {
    hide Next;
    if steps != [] {
      RunSound(steps[..|steps| - 1]);
      StepDrift(Run(steps[..|steps| - 1]), steps[|steps| - 1]);
    }
  }

  /** With an empty list and a counter at the limit no step adds anything. */
  lemma StarvedStep(s: Expl, step: Step)
    requires s.list == [] && s.len >= EXPL_MAX_LEN
    ensures Next(s, step).list == [] && Next(s, step).len >= EXPL_MAX_LEN
  {
  }

  /** So after as many hits as there are places, an empty list stays empty for ever. */
  lemma {:induction false} Starves(steps: seq<Step>, more: seq<Step>)
    requires Hits(steps) >= EXPL_MAX_LEN && Run(steps).list == []
    ensures Run(steps + more).list == [] && Run(steps + more).len >= EXPL_MAX_LEN
    decreases |more|
  {
    hide Next, Hits;
    if more == [] {
      RunSound(steps);
      assert steps + more == steps;
    } else {
      var n := |more| - 1;
      var before := steps + more[..n];
      Starves(steps, more[..n]);
      assert steps + more == before + [more[n]];
      assert (before + [more[n]])[..|before|] == before;
      StarvedStep(Run(before), more[n]);
    }
  }

  // ----- Runs in which it happens

  /** The addition of so many different destinations. */
  function Additions(n: nat): seq<Step>
    requires n <= 2 * EXPL_MAX_LEN
  {
    if n == 0 then [] else Additions(n - 1) + [Adds(Entry(n - 1, Via(1, false, false, 0), n))]
  }

  /** The first 1024 of them are stored, the others refused and counted. */
  lemma {:induction false} Filling(n: nat)
    requires n <= 2 * EXPL_MAX_LEN
    ensures var s := Run(Additions(n));
            && s.len == n && Hits(Additions(n)) == (if n <= EXPL_MAX_LEN then 0 else n - EXPL_MAX_LEN)
            && forall e :: e in s.list ==> e.daddr < n
  {
    if n > 0 {
      hide Next, HitsLimit;
      Filling(n - 1);
      var step := Adds(Entry(n - 1, Via(1, false, false, 0), n));
      var init := Additions(n - 1);
      assert (init + [step])[..|init|] == init;
      FillingStep(Run(init), step.e);
    }
  }

  lemma FillingStep(s: Expl, e: Entry)
    requires forall x :: x in s.list ==> x.daddr < e.daddr
    ensures var s' := Next(s, Adds(e));
            && s'.len == s.len + 1 && (HitsLimit(s, Adds(e)) <==> s.len >= EXPL_MAX_LEN)
            && forall x :: x in s'.list ==> x.daddr <= e.daddr
  {
    hide Inserted;
    assert !Has(s.list, e.daddr);
    var k := InsertedAt(s.list, e);
  }

  /** One destination too many: the list is full, the counter is ahead of it. */
  lemma LimitRun()
    ensures var steps := Additions(EXPL_MAX_LEN + 1);
            Hits(steps) == 1 && |Run(steps).list| == EXPL_MAX_LEN && Run(steps).len == EXPL_MAX_LEN + 1
  {
    Filling(EXPL_MAX_LEN + 1);
    RunSound(Additions(EXPL_MAX_LEN + 1));
  }

  /** As many too many as there are places, and then a flush: the list is empty for ever. */
  lemma StarvingRun(more: seq<Step>)
    ensures Run(Additions(2 * EXPL_MAX_LEN) + [Flushes] + more).list == []
  {
    hide Additions;
    var fill := Additions(2 * EXPL_MAX_LEN);
    Filling(2 * EXPL_MAX_LEN);
    assert (fill + [Flushes])[..|fill|] == fill;
    Starves(fill + [Flushes], more);
  }

  // ----- The list in place

  class ExplList {
    var list: seq<Entry>
    var len: int

    ghost function View(): Expl
      reads this
    {
      Expl(list, len)
    }

    constructor ()
      ensures View() == Expl([], 0)
    {
      list, len := [], 0;
    }

    /** __kaodv_expl_find. */
    method FindPlace(d: Addr) returns (k: nat)
      ensures k == Place(list, d)
    {
      k := 0;
      while k < |list|
        invariant k <= |list| && forall i :: 0 <= i < k ==> list[i].daddr != d
      {
        if list[k].daddr == d {
          break;
        }
        k := k + 1;
      }
      PlaceIsUnique(list, d, k);
    }

    /** __kaodv_expl_add. */
    method Link(e: Entry) returns (ok: bool)
      modifies `list
      ensures ok == (len < EXPL_MAX_LEN)
      ensures list == if ok then Inserted(old(list), e) else old(list)
    {
      if len >= EXPL_MAX_LEN {
        return false;
      }
      var k := 0;
      while k < |list|
        invariant k <= |list|
        invariant forall i :: 0 <= i < k ==> list[i].expires <= e.expires
      {
        if list[k].expires > e.expires {
          break;
        }
        k := k + 1;
      }
      InsertedThere(list, e, k);
      list := list[..k] + [e] + list[k..];
      return true;
    }

    /** kaodv_expl_get. */
    method Get(d: Addr) returns (e: Option<Entry>)
      ensures e.Some? <==> Has(list, d)
      ensures e.Some? ==> e.value == list[Place(list, d)]
    {
      var k := FindPlace(d);
      e := if k < |list| then Some(list[k]) else None;
    }

    /** kaodv_expl_add: 0 if known, 1 if added, -ENOSPC if refused; both of these are "true"
        to the test that counts the entry. */
    method AddEntry(e: Entry) returns (status: int)
      modifies this
      ensures View() == Add(old(View()), e)
      ensures status == if Has(old(list), e.daddr) then 0 else if old(len) >= EXPL_MAX_LEN then -ENOSPC else 1
    {
      var known := Get(e.daddr);
      if known.Some? {
        return 0;
      }
      var ok := Link(e);
      status := if ok then 1 else -ENOSPC;
      if status != 0 {
        len := len + 1;
      }
    }

    /** kaodv_expl_del. */
    method DelEntry(d: Addr) returns (res: int)
      modifies this
      ensures View() == Del(old(View()), d) && res == if Has(old(list), d) then 1 else 0
    {
      var k := FindPlace(d);
      if k == |list| {
        return 0;
      }
      list := list[..k] + list[k + 1..];
      len := len - 1;
      return 1;
    }

    /** kaodv_expl_update. */
    method UpdateEntry(e: Entry) returns (ret: int)
      modifies this
      ensures View() == Update(old(View()), e) && ret == if Has(old(list), e.daddr) then 0 else -1
    {
      var k := FindPlace(e.daddr);
      if k == |list| {
        return -1;
      }
      list := list[..k] + list[k + 1..];
      var _ := Link(e);
      return 0;
    }

    /** kaodv_expl_flush. */
    method FlushAll()
      modifies this
      ensures View() == Flush(old(View()))
    {
      while list != []
        invariant len - |list| == old(len - |list|)
        decreases |list|
      {
        list := list[1..];
        len := len - 1;
      }
    }

    /** kaodv_expl_timeout, as far as the list is concerned: the destinations that it reports. */
    method ExpireDue(now: int) returns (gone: seq<Addr>)
      modifies this
      ensures View() == Timeout(old(View()), now)
      ensures gone == Daddrs(old(list)[..Due(old(list), now)])
    {
      gone := [];
      ghost var k := 0;
      while list != []
        invariant k <= |old(list)| && list == old(list)[k..] && len == old(len) - k
        invariant gone == Daddrs(old(list)[..k])
        invariant k + Due(list, now) == Due(old(list), now)
        decreases |list|
      {
        if list[0].expires > now {
          break;
        }
        assert old(list)[..k + 1] == old(list)[..k] + [list[0]];
        gone := gone + [list[0].daddr];
        list := list[1..];
        len := len - 1;
        k := k + 1;
      }
    }
  }

  const ENOSPC: int := 28

  function Daddrs(list: seq<Entry>): seq<Addr> {
    seq(|list|, i requires 0 <= i < |list| => list[i].daddr)
  }

  lemma {:induction false} PlaceIsUnique(list: seq<Entry>, d: Addr, k: nat)
    requires k <= |list| && (k < |list| ==> list[k].daddr == d) && forall i :: 0 <= i < k ==> list[i].daddr != d
    ensures k == Place(list, d)
  {
    var j := Place(list, d);
  }

  lemma {:induction false} InsertedThere(list: seq<Entry>, e: Entry, k: nat)
    requires k <= |list| && (k < |list| ==> list[k].expires > e.expires)
    requires forall i :: 0 <= i < k ==> list[i].expires <= e.expires
    ensures Inserted(list, e) == list[..k] + [e] + list[k..]
  {
    var j := InsertedAt(list, e);
  }
}
