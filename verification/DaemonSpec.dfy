/** The daemon as a function on values: what every operation makes of the routing table,
    the kernel's routes, the packet buffer, the verdicts given so far and the set of
    destinations being sought.  The class in Daemon.dfy implements these functions on a
    hash table of mutable entries; the other modules prove what they promise. */
module DaemonSpec {
  import opened SeqNo
  import opened Basics
  import opened Route

  /** A packet held in the user-space buffer since `at`. */
  datatype Buffered = Buffered(id: U32, dest: Addr, at: Time)

  /** What the packet interface saw, in order.  A verdict records whether the kernel had
      a route to the packet's destination when it was told. */
  datatype Event =
    | Arrived(id: U32, dest: Addr, bypass: bool)
    | Verdict(id: U32, dest: Addr, accept: bool, routed: bool)

  /** For each destination that the kernel can reach, the next hop by metric. */
  type Kernel = map<Addr, map<nat, Addr>>

  /** `active` is the num_active counter; `kernel` is the kernel's routing table. */
  datatype State = State(
    routes: map<Addr, Route>,
    active: int,
    kernel: Kernel,
    queue: seq<Buffered>,
    log: seq<Event>,
    seeking: set<Addr>)

  const Initial: State := State(map[], 0, map[], [], [], {})

  const MAX_QUEUE_LENGTH: nat := 512
  const MAX_QUEUE_TIME: nat := 10000
  const GARBAGE_COLLECT_TIME: nat := 1000

  /** The arguments of rt_table_update beside the entry; every caller asks for VALID. */
  datatype Change = Change(next: Addr, hops: nat, seqno: U32, lifetime: nat, flags: Flags)

  // ----- The kernel's routing table

  /** RTM_NEWROUTE with NLM_F_REPLACE: it takes the place of a route with the same metric, which
      is the distance, and stands beside routes with other metrics. */
  function AddRoute(kernel: Kernel, d: Addr, next: Addr, metric: nat): Kernel {
    kernel[d := (if d in kernel then kernel[d] else map[])[metric := next]]
  }

  /** RTM_DELROUTE: it takes away the route with this metric if it leads to this next hop. */
  function Without(routes: map<nat, Addr>, next: Addr, metric: nat): map<nat, Addr> {
    if metric in routes && routes[metric] == next then routes - {metric} else routes
  }

  function DropRoute(kernel: Kernel, d: Addr, next: Addr, metric: nat): Kernel {
    if d !in kernel then kernel else
    var left := Without(kernel[d], next, metric);
    if left == map[] then kernel - {d} else kernel[d := left]
  }

  /** The same for each destination of `gone`, with the values of its entry. */
  function DropRoutes(kernel: Kernel, routes: map<Addr, Route>, gone: set<Addr>): Kernel
    requires gone <= routes.Keys
  {
    map x | x in kernel && !(x in gone && Without(kernel[x], routes[x].nextHop, routes[x].hops) == map[]) ::
      if x in gone then Without(kernel[x], routes[x].nextHop, routes[x].hops) else kernel[x]
  }

  lemma DropsOne(kernel: Kernel, routes: map<Addr, Route>, d: Addr)
    requires d in routes
    ensures DropRoutes(kernel, routes, {d}) == DropRoute(kernel, d, routes[d].nextHop, routes[d].hops)
  {
  }

  // ----- Invalidation

  function ValidSet(routes: map<Addr, Route>): set<Addr> {
    set x | x in routes && routes[x].valid
  }

  /** Entry `b` is VALID and sends Internet traffic through the gateway entry `a`. */
  predicate Feeds(routes: map<Addr, Route>, a: Addr, b: Addr) {
    a in routes && b in routes && routes[a].flags.gateway &&
    routes[b].valid && routes[b].flags.inetDest && routes[b].nextHop == a
  }

  ghost predicate IsChain(routes: map<Addr, Route>, p: seq<Addr>) {
    forall i, j :: 0 <= i < j < |p| && j == i + 1 ==> Feeds(routes, p[i], p[j])
  }

  ghost predicate Reaches(routes: map<Addr, Route>, a: Addr, b: Addr) {
    exists p: seq<Addr> :: |p| > 0 && p[0] == a && p[|p| - 1] == b && IsChain(routes, p)
  }

  /** `d` and every entry that depends on it through a chain of gateways. */
  ghost function Cascade(routes: map<Addr, Route>, d: Addr): (gone: set<Addr>)
    ensures gone <= routes.Keys
  {
    set x | x in routes && Reaches(routes, d, x)
  }

  function Fallen(cfg: Config, routes: map<Addr, Route>, gone: set<Addr>, keep: set<Addr>, now: Time): map<Addr, Route> {
    map x | x in routes ::
      if x !in gone then routes[x]
      else if x in keep then Fall(cfg, routes[x], now)
      else Forget(Fall(cfg, routes[x], now))
  }

  /** All entries of `gone` fall; all but those of `keep` lose their precursors. */
  function Collapse(cfg: Config, s: State, gone: set<Addr>, keep: set<Addr>, now: Time): (s': State)
    requires gone <= s.routes.Keys
    ensures s'.routes.Keys == s.routes.Keys
  {
    s.(routes := Fallen(cfg, s.routes, gone, keep, now),
       active := s.active - |gone|,
       kernel := DropRoutes(s.kernel, s.routes, gone))
  }

  /** rt_table_invalidate. */
  ghost function Invalidate(cfg: Config, s: State, d: Addr, now: Time): (s': State)
    ensures s'.routes.Keys == s.routes.Keys
  {
    if d in s.routes && s.routes[d].valid then
      Collapse(cfg, s, Cascade(s.routes, d), {d}, now)
    else
      s
  }

  function Put(s: State, d: Addr, r: Route): State {
    s.(routes := s.routes[d := r])
  }

  /** The VALID entries other than `d` whose next hop is `d`. */
  function Dependents(routes: map<Addr, Route>, d: Addr): set<Addr> {
    set x | x in routes && routes[x].valid && routes[x].nextHop == d && x != d
  }

  /** The entries that a link break marks for local repair. */
  function Repairable(routes: map<Addr, Route>, d: Addr): set<Addr>
    requires d in routes
  {
    set x | x in Dependents(routes, d) && routes[d].flags.repair && routes[x].hops <= MAX_REPAIR_TTL
  }

  function MarkRepair(routes: map<Addr, Route>, marked: set<Addr>): map<Addr, Route> {
    map x | x in routes ::
      if x in marked then routes[x].(flags := routes[x].flags.(repair := true)) else routes[x]
  }

  /** Everything that some entry of `from` takes down with it. */
  ghost function CascadeAll(routes: map<Addr, Route>, from: set<Addr>): (gone: set<Addr>)
    ensures gone <= routes.Keys
  {
    set x | x in routes && exists d :: d in from && Reaches(routes, d, x)
  }

  /** neighbor_link_break, without the RERR it sends. */
  ghost function LinkBreak(cfg: Config, s: State, d: Addr, now: Time): (s': State)
    ensures s'.routes.Keys == s.routes.Keys
  {
    if d !in s.routes || s.routes[d].hops != 1 then s else
    var s1 := Invalidate(cfg, s, d, now);
    var s2 := if s1.routes[d].flags.repair then s1 else Put(s1, d, Forget(s1.routes[d]));
    var marked := Repairable(s2.routes, d);
    var s3 := s2.(routes := MarkRepair(s2.routes, marked));
    Collapse(cfg, s3, CascadeAll(s3.routes, Dependents(s3.routes, d)), marked, now)
  }

  // ----- The packet buffer

  /** The buffered packets for `d`, oldest first. */
  function Matching(q: seq<Buffered>, d: Addr): seq<Buffered> {
    if q == [] then [] else
    var p := q[|q| - 1];
    if p.dest == d then Matching(q[..|q| - 1], d) + [p] else Matching(q[..|q| - 1], d)
  }

  /** The buffered packets for other destinations, in order. */
  function Others(q: seq<Buffered>, d: Addr): seq<Buffered> {
    if q == [] then [] else
    var p := q[|q| - 1];
    if p.dest == d then Others(q[..|q| - 1], d) else Others(q[..|q| - 1], d) + [p]
  }

  /** The packets buffered for at most MAX_QUEUE_TIME. */
  function Young(q: seq<Buffered>, now: Time): seq<Buffered> {
    if q == [] then [] else
    var p := q[|q| - 1];
    if now - p.at <= MAX_QUEUE_TIME then Young(q[..|q| - 1], now) + [p] else Young(q[..|q| - 1], now)
  }

  function Aged(q: seq<Buffered>, now: Time): seq<Buffered> {
    if q == [] then [] else
    var p := q[|q| - 1];
    if now - p.at <= MAX_QUEUE_TIME then Aged(q[..|q| - 1], now) else Aged(q[..|q| - 1], now) + [p]
  }

  lemma MatchingOneMore(q: seq<Buffered>, p: Buffered, d: Addr)
    ensures Matching(q + [p], d) == if p.dest == d then Matching(q, d) + [p] else Matching(q, d)
    ensures Others(q + [p], d) == if p.dest == d then Others(q, d) else Others(q, d) + [p]
  {
    assert (q + [p])[..|q|] == q;
  }

  lemma AgedOneMore(q: seq<Buffered>, p: Buffered, now: Time)
    ensures Aged(q + [p], now) == if now - p.at <= MAX_QUEUE_TIME then Aged(q, now) else Aged(q, now) + [p]
    ensures Young(q + [p], now) == if now - p.at <= MAX_QUEUE_TIME then Young(q, now) + [p] else Young(q, now)
  {
    assert (q + [p])[..|q|] == q;
  }

  function Verdicts(kernel: Kernel, pkts: seq<Buffered>, accept: bool): seq<Event> {
    seq(|pkts|, i requires 0 <= i < |pkts| =>
      Verdict(pkts[i].id, pkts[i].dest, accept, pkts[i].dest in kernel))
  }

  function Judge(s: State, pkts: seq<Buffered>, accept: bool): State {
    s.(log := s.log + Verdicts(s.kernel, pkts, accept))
  }

  /** packet_queue_add: a full buffer drops its oldest packet first. */
  function Enqueue(s: State, id: U32, d: Addr, now: Time): State {
    var full := |s.queue| >= MAX_QUEUE_LENGTH;
    var s1 := if full then Judge(s, s.queue[..1], false) else s;
    var rest := if full then s.queue[1..] else s.queue;
    s1.(queue := rest + [Buffered(id, d, now)])
  }

  /** packet_queue_garbage_collect. */
  function Collect(s: State, now: Time): State {
    Judge(s, Aged(s.queue, now), false).(queue := Young(s.queue, now))
  }

  /** packet_queue_set_verdict with PQ_DROP. */
  function DropFor(s: State, d: Addr): State {
    Judge(s, Matching(s.queue, d), false).(queue := Others(s.queue, d))
  }

  /** rt_table_update_timeout on the entry for `d`, if there is one. */
  function Touch(routes: map<Addr, Route>, d: Addr, lifetime: nat, now: Time): map<Addr, Route> {
    if d in routes then routes[d := Extend(routes[d], lifetime, now)] else routes
  }

  /** The lifetimes that traffic to `d` extends: its own, then that of its next hop. */
  function TouchPath(cfg: Config, routes: map<Addr, Route>, d: Addr, now: Time): map<Addr, Route>
  {
    if d in routes && routes[d].valid then
      var routes1 := Touch(routes, d, cfg.activeRouteTimeout, now);
      var nh := routes1[d].nextHop;
      if nh in routes1 && routes1[nh].valid && nh != d then
        Touch(routes1, nh, cfg.activeRouteTimeout, now)
      else
        routes1
    else
      routes
  }

  /** packet_queue_set_verdict with PQ_SEND or PQ_ENC_SEND: without an entry for `d`
      nothing happens at all. */
  function SendFor(cfg: Config, s: State, d: Addr, now: Time): State {
    if d !in s.routes then s else
    Judge(s, Matching(s.queue, d), true)
      .(queue := Others(s.queue, d), routes := TouchPath(cfg, s.routes, d, now))
  }

  /** The end of rt_table_insert and rt_table_update: a VALID route to a destination that
      was being sought ends the search and sends what was buffered for it. */
  function Release(cfg: Config, s: State, d: Addr, now: Time): State {
    if d in s.seeking then SendFor(cfg, s.(seeking := s.seeking - {d}), d, now) else s
  }

  // ----- Insertion, update, deletion

  function NewRoute(cfg: Config, c: Change, valid: bool, now: Time): Route {
    var handler := if valid then RouteExpire else RestHandler(c.flags);
    var life := if valid then c.lifetime else RestTime(cfg, c.flags);
    var r := Route(c.next, c.hops, c.seqno, c.flags, valid, Timer(handler, false, 0), false, []);
    if life != 0 then Arm(r, now + life) else r
  }

  /** rt_table_insert: an entry that already exists is left alone. */
  function Insert(cfg: Config, s: State, d: Addr, c: Change, valid: bool, now: Time): State {
    if d in s.routes then s else
    var s1 := Put(s, d, NewRoute(cfg, c, valid, now));
    if valid then
      Release(cfg, s1.(active := s1.active + 1, kernel := AddRoute(s1.kernel, d, c.next, c.hops)), d, now)
    else
      s1
  }

  /** The flags that rt_table_update stores: reviving an entry ends its repair. */
  function NewFlags(r: Route, c: Change): Flags {
    if !r.valid && r.flags.repair then c.flags.(repair := false) else c.flags
  }

  /** First part of rt_table_update: count the entry and tell the kernel. */
  function Announce(s: State, d: Addr, c: Change): State
    requires d in s.routes
  {
    var r := s.routes[d];
    if !r.valid then
      s.(active := s.active + 1, kernel := AddRoute(s.kernel, d, c.next, c.hops))
    else if r.nextHop != 0 && r.nextHop != c.next then
      s.(kernel := AddRoute(s.kernel, d, c.next, c.hops))
    else
      s
  }

  /** The update moves a direct neighbour further away. */
  predicate Demotes(r: Route, c: Change) {
    c.hops > 1 && r.hops == 1
  }

  /** Second part: demoting a neighbour breaks the link to it; then the new values go in. */
  ghost function Rewrite(cfg: Config, s: State, d: Addr, c: Change, now: Time): (s': State)
    requires d in s.routes
    ensures s'.routes.Keys == s.routes.Keys
  {
    hide LinkBreak;
    var r := s.routes[d];
    var s1 := Announce(s, d, c);
    var s2 := if Demotes(r, c) then LinkBreak(cfg, Put(s1, d, r.(hello := false)), d, now) else s1;
    Put(s2, d, s2.routes[d].(flags := NewFlags(r, c), seqno := c.seqno, nextHop := c.next, hops := c.hops))
  }

  /** Last part: the expiry timer, the VALID mark and the buffered packets. */
  function Revive(cfg: Config, s: State, d: Addr, lifetime: nat, now: Time): (s': State)
    requires d in s.routes
    ensures s'.routes.Keys == s.routes.Keys
  {
    var r0 := s.routes[d];
    var r1 := r0.(timer := r0.timer.(handler := RouteExpire));
    var r2 := if r1.flags.inetDest then r1 else Extend(r1, lifetime, now);
    Release(cfg, Put(s, d, r2.(valid := true)), d, now)
  }

  /** rt_table_update on an entry that does not become a gateway. */
  ghost function UpdatePlain(cfg: Config, s: State, d: Addr, c: Change, now: Time): (s': State)
    requires d in s.routes
    ensures s'.routes.Keys == s.routes.Keys
  {
    Revive(cfg, Rewrite(cfg, s, d, c, now), d, c.lifetime, now)
  }

  predicate InetActive(routes: map<Addr, Route>, x: Addr) {
    x in routes && routes[x].valid && routes[x].flags.inetDest
  }

  /** The arguments with which the Internet destination `x` is moved to the gateway `gw`. */
  function Onto(routes: map<Addr, Route>, gw: Addr, x: Addr, life: nat): Change
    requires gw in routes && x in routes
  {
    Change(gw, routes[gw].hops, 0, life, routes[x].flags)
  }

  /** The loop of rt_table_update_inet_rt over the entries of `order`, as long as none that it
      updates is a gateway too: every VALID Internet destination is moved to `gw`. */
  ghost function UpdateInet(cfg: Config, s: State, gw: Addr, life: nat, order: seq<Addr>, now: Time): (s': State)
    requires gw in s.routes
    ensures s'.routes.Keys == s.routes.Keys
    decreases |order|
  {
    if order == [] then s else
    var s1 := UpdateInet(cfg, s, gw, life, order[..|order| - 1], now);
    var x := order[|order| - 1];
    if InetActive(s1.routes, x) then UpdatePlain(cfg, s1, x, Onto(s1.routes, gw, x, life), now) else s1
  }

  /** The number of updates in that loop. */
  ghost function InetUpdates(cfg: Config, s: State, gw: Addr, life: nat, order: seq<Addr>, now: Time): nat
    requires gw in s.routes
    decreases |order|
  {
    if order == [] then 0 else
    InetUpdates(cfg, s, gw, life, order[..|order| - 1], now) +
    (if InetActive(UpdateInet(cfg, s, gw, life, order[..|order| - 1], now).routes, order[|order| - 1]) then 1 else 0)
  }

  /** A VALID entry that is Internet destination and gateway at once. */
  predicate DualAt(routes: map<Addr, Route>, x: Addr) {
    InetActive(routes, x) && routes[x].flags.gateway
  }

  /** Where the loop meets the first such entry; the length of `order` if it meets none. */
  ghost function FirstDual(cfg: Config, s: State, gw: Addr, life: nat, order: seq<Addr>, now: Time): (k: nat)
    requires gw in s.routes
    ensures k <= |order|
    ensures k < |order| ==> DualAt(UpdateInet(cfg, s, gw, life, order[..k], now).routes, order[k])
    decreases |order|
  {
    if order == [] then 0 else
    var n := |order| - 1;
    var k := FirstDual(cfg, s, gw, life, order[..n], now);
    assert order[..n][..k] == order[..k];
    if k < n || DualAt(UpdateInet(cfg, s, gw, life, order[..n], now).routes, order[n]) then k else |order|
  }

  /** rt_table_update_inet_rt, whenever it comes back.  The update of an entry `x` that is a
      gateway too runs the whole loop on behalf of `x` before it is done; then the loop for
      `gw` goes on behind `x`. */
  ghost function MoveAll(cfg: Config, s: State, gw: Addr, life: nat, order: seq<Addr>, now: Time): (s': State)
    requires gw in s.routes
    ensures s'.routes.Keys == s.routes.Keys
  {
    var k := FirstDual(cfg, s, gw, life, order, now);
    if k == |order| then UpdateInet(cfg, s, gw, life, order, now) else
    var s1 := UpdateInet(cfg, s, gw, life, order[..k], now);
    UpdateInet(cfg, MoveDual(cfg, s1, gw, life, order[k], order, now), gw, life, order[k + 1..], now)
  }

  /** The update of `x` in that loop. */
  ghost function MoveDual(cfg: Config, s: State, gw: Addr, life: nat, x: Addr, order: seq<Addr>, now: Time): (s': State)
    requires gw in s.routes && x in s.routes
    ensures s'.routes.Keys == s.routes.Keys
  {
    var s1 := Rewrite(cfg, s, x, Onto(s.routes, gw, x, life), now);
    Revive(cfg, UpdateInet(cfg, s1, x, life, order, now), x, life, now)
  }

  /** The number that rt_table_update_inet_rt returns. */
  ghost function MoveCount(cfg: Config, s: State, gw: Addr, life: nat, order: seq<Addr>, now: Time): nat
    requires gw in s.routes
  {
    var k := FirstDual(cfg, s, gw, life, order, now);
    if k == |order| then InetUpdates(cfg, s, gw, life, order, now) else
    var s1 := UpdateInet(cfg, s, gw, life, order[..k], now);
    InetUpdates(cfg, s, gw, life, order[..k], now) + 1 +
    InetUpdates(cfg, MoveDual(cfg, s1, gw, life, order[k], order, now), gw, life, order[k + 1..], now)
  }

  /** rt_table_update, whenever it comes back.  `order` is the order in which the table is
      traversed. */
  ghost function Update(cfg: Config, s: State, d: Addr, c: Change, order: seq<Addr>, now: Time): State {
    if d !in s.routes then s else
    var s1 := Rewrite(cfg, s, d, c, now);
    var s2 := if NewFlags(s.routes[d], c).gateway then MoveAll(cfg, s1, d, c.lifetime, order, now) else s1;
    Revive(cfg, s2, d, c.lifetime, now)
  }

  /** rt_table_delete. */
  function Delete(s: State, d: Addr): State {
    if d !in s.routes then s else
    var s1 := s.(routes := s.routes - {d});
    if s.routes[d].valid then
      s1.(active := s.active - 1, kernel := DropRoutes(s.kernel, s.routes, {d}))
    else
      s1
  }

  /** The state after rt_table_delete on every entry of `gone`. */
  function Removed(s: State, gone: set<Addr>): State
    requires gone <= s.routes.Keys
  {
    s.(routes := s.routes - gone,
       active := s.active - |ValidSet(s.routes) * gone|,
       kernel := DropRoutes(s.kernel, s.routes, ValidSet(s.routes) * gone))
  }

  // ----- Timers

  /** local_repair_timeout, without the RERR it sends. */
  function RepairTimeout(cfg: Config, s: State, d: Addr, now: Time): State
    requires d in s.routes
  {
    var r := s.routes[d];
    var r1 := Forget(r.(flags := r.flags.(repair := false)));
    Put(s, d, r1.(timer := Timer(RouteDelete, true, now + cfg.deletePeriod)))
      .(kernel := DropRoutes(s.kernel, s.routes, {d}))
  }

  /** The route timer of `d` expires: it is taken off the timer queue and its handler runs. */
  ghost function Expire(cfg: Config, s: State, d: Addr, now: Time): State {
    if d !in s.routes then s else
    var r := s.routes[d];
    var s1 := Put(s, d, r.(timer := r.timer.(used := false)));
    match r.timer.handler
    case RouteExpire =>
      if r.hops == 1 then
        LinkBreak(cfg, s1, d, now)
      else
        var s2 := Invalidate(cfg, s1, d, now);
        Put(s2, d, Forget(s2.routes[d]))
    case LocalRepair => RepairTimeout(cfg, s1, d, now)
    case RouteDelete => Delete(s1, d)
  }

  /** route_discovery_timeout when the retries are used up. */
  function SeekFailed(cfg: Config, s: State, d: Addr, now: Time): State {
    if d !in s.seeking then s else
    var s1 := DropFor(s, d).(seeking := s.seeking - {d});
    if d in s1.routes && s1.routes[d].flags.repair then RepairTimeout(cfg, s1, d, now) else s1
  }

  /** hello_timeout: with local repair on, an entry close enough is first marked for repair;
      neighbor_link_break then does nothing to an entry that is no direct neighbour. */
  ghost function HelloTimeout(cfg: Config, s: State, d: Addr, localRepair: bool, now: Time): State {
    if d !in s.routes then s else
    var s1 := Put(s, d, s.routes[d].(hello := false));
    var r := s1.routes[d];
    if !r.valid || r.flags.unidir then s1 else
    var mark := localRepair && r.hops <= MAX_REPAIR_TTL;
    LinkBreak(cfg, if mark then Put(s1, d, r.(flags := r.flags.(repair := true))) else s1, d, now)
  }

  // ----- Data packets

  /** The forward half of rt_table_update_route_timeouts. */
  function RefreshForward(cfg: Config, routes: map<Addr, Route>, d: Addr, now: Time): map<Addr, Route> {
    if d in routes && routes[d].valid then
      var r := routes[d];
      var routes1 :=
        if cfg.llfeedback || r.flags.inetDest || r.hops != 1 || r.hello
        then Touch(routes, d, cfg.activeRouteTimeout, now) else routes;
      RefreshNextHop(cfg, routes1, d, now)
    else
      routes
  }

  /** The reverse half of rt_table_update_route_timeouts. */
  function RefreshReverse(cfg: Config, routes: map<Addr, Route>, d: Addr, now: Time): map<Addr, Route> {
    if d in routes && routes[d].valid then
      var r := routes[d];
      var routes1 :=
        if cfg.llfeedback || r.hops != 1 || r.hello
        then Touch(routes, d, cfg.activeRouteTimeout, now) else routes;
      RefreshNextHop(cfg, routes1, d, now)
    else
      routes
  }

  function RefreshNextHop(cfg: Config, routes: map<Addr, Route>, d: Addr, now: Time): map<Addr, Route>
    requires d in routes
  {
    var nh := routes[d].nextHop;
    if nh in routes && routes[nh].valid && nh != d && (cfg.llfeedback || routes[d].hello) then
      Touch(routes, nh, cfg.activeRouteTimeout, now)
    else
      routes
  }

  /** Hold an entry that is waiting for a reply for at least DISCOVERY_HOLD. */
  function Hold(routes: map<Addr, Route>, d: Addr, now: Time): map<Addr, Route> {
    if d in routes && routes[d].timer.timeout - now < DISCOVERY_HOLD
    then Touch(routes, d, DISCOVERY_HOLD, now) else routes
  }

  /** rreq_route_discovery, without the RREQ it sends. */
  function Discover(s: State, d: Addr, now: Time): State {
    if d in s.seeking then s else
    s.(routes := Hold(s.routes, d, now), seeking := s.seeking + {d})
  }

  /** rreq_local_repair, without the RREQ it sends. */
  function Repair(s: State, d: Addr, now: Time): State {
    if d in s.seeking || d !in s.routes || !s.routes[d].flags.repair then s else
    var r := s.routes[d];
    var s1 := Put(s, d, r.(timer := r.timer.(handler := RouteExpire)));
    s1.(routes := Hold(s1.routes, d, now), seeking := s1.seeking + {d})
  }

  /** A packet from NFQUEUE.  `bypass` says that one of the header tests let it through
      unexamined, `forward` that it came from the FORWARD hook. */
  datatype Packet = Packet(id: U32, src: Addr, dest: Addr, forward: bool, bypass: bool)

  /** The route cannot carry the packet: missing, INVALID or a one-way link. */
  predicate Unusable(routes: map<Addr, Route>, d: Addr) {
    d !in routes || !routes[d].valid || (routes[d].hops == 1 && routes[d].flags.unidir)
  }

  function Answer(s: State, p: Packet, accept: bool): State {
    s.(log := s.log + [Verdict(p.id, p.dest, accept, p.dest in s.kernel)])
  }

  /** nfqueue_packet_cb and packet_input_handle_packet. */
  function Receive(cfg: Config, s: State, p: Packet, now: Time): State {
    var s0 := s.(log := s.log + [Arrived(p.id, p.dest, p.bypass)]);
    if p.bypass then Answer(s0, p, true) else
    var s1 := s0.(routes := RefreshReverse(cfg, RefreshForward(cfg, s0.routes, p.dest, now), p.src, now));
    if !Unusable(s1.routes, p.dest) then Answer(s1, p, true) else
    var repairing := p.dest in s1.routes && s1.routes[p.dest].flags.repair;
    if p.forward && !repairing then
      Answer(s1.(routes := Touch(s1.routes, p.dest, cfg.deletePeriod, now)), p, false)
    else
      var s2 := Enqueue(s1, p.id, p.dest, now);
      if repairing then Repair(s2, p.dest, now) else Discover(s2, p.dest, now)
  }

  // ----- Runs

  datatype Step =
    | Receives(p: Packet)
    | Inserts(d: Addr, c: Change, valid: bool)
    | Updates(d: Addr, c: Change, order: seq<Addr>)
    | Invalidates(d: Addr)
    | Deletes(d: Addr)
    | Expires(d: Addr)
    | LinkBreaks(d: Addr)
    | HelloFails(d: Addr, localRepair: bool)
    | SeekFails(d: Addr)
    | HelloStarts(d: Addr)
    | AddsPrecursor(d: Addr, neighbor: Addr)
    | Ticks

  /** hello_update_timeout. */
  function StartHello(s: State, d: Addr): State {
    if d in s.routes then Put(s, d, s.routes[d].(hello := true)) else s
  }

  /** precursor_add. */
  function AddPrecursor(s: State, d: Addr, n: Addr): State {
    if d !in s.routes || n in s.routes[d].precursors then s else
    Put(s, d, s.routes[d].(precursors := [n] + s.routes[d].precursors))
  }

  ghost function Next(cfg: Config, s: State, now: Time, step: Step): State {
    match step
    case Receives(p) => Receive(cfg, s, p, now)
    case Inserts(d, c, valid) => Insert(cfg, s, d, c, valid, now)
    case Updates(d, c, order) => Update(cfg, s, d, c, order, now)
    case Invalidates(d) => Invalidate(cfg, s, d, now)
    case Deletes(d) => Delete(s, d)
    case Expires(d) => Expire(cfg, s, d, now)
    case LinkBreaks(d) => LinkBreak(cfg, s, d, now)
    case HelloFails(d, localRepair) => HelloTimeout(cfg, s, d, localRepair, now)
    case SeekFails(d) => SeekFailed(cfg, s, d, now)
    case HelloStarts(d) => StartHello(s, d)
    case AddsPrecursor(d, n) => AddPrecursor(s, d, n)
    case Ticks => Collect(s, now)
  }

  datatype Timed = Timed(now: Time, step: Step)

  ghost function Run(cfg: Config, steps: seq<Timed>): State {
    if steps == [] then Initial else
    var last := steps[|steps| - 1];
    Next(cfg, Run(cfg, steps[..|steps| - 1]), last.now, last.step)
  }

  lemma RunOneMore(cfg: Config, steps: seq<Timed>, t: Timed)
    ensures Run(cfg, steps + [t]) == Next(cfg, Run(cfg, steps), t.now, t.step)
  {
    hide Next;
    assert (steps + [t])[..|steps|] == steps;
  }

  /** packet_queue_destroy. */
  function Shutdown(s: State): State {
    Judge(s, s.queue, false).(queue := [])
  }
}
