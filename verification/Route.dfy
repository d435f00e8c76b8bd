/** One routing-table entry and what happens to it: arming its timer, extending its
    lifetime, falling from VALID to INVALID. */
module Route {
  import opened SeqNo
  import opened Basics

  /** Wall-clock time in whole milliseconds. */
  type Time = int

  /** The routing flags RT_UNIDIR, RT_REPAIR, RT_INV_SEQNO, RT_INET_DEST and RT_GATEWAY. */
  datatype Flags = Flags(unidir: bool, repair: bool, invSeqno: bool, inetDest: bool, gateway: bool)

  /** What the route timer of an entry runs when it expires. */
  datatype Handler = RouteExpire | LocalRepair | RouteDelete

  datatype Timer = Timer(handler: Handler, used: bool, timeout: Time)

  /** The contents of an entry; its destination is the key under which it is stored.
      `hello` says whether the HELLO timer is running. */
  datatype Route = Route(
    nextHop: Addr,
    hops: nat,
    seqno: U32,
    flags: Flags,
    valid: bool,
    timer: Timer,
    hello: bool,
    precursors: seq<Addr>)

  /** The run-time settings: ACTIVE_ROUTE_TIMEOUT, DELETE_PERIOD and link-layer feedback. */
  datatype Config = Config(activeRouteTimeout: nat, deletePeriod: nat, llfeedback: bool)

  /** 3 * NET_DIAMETER / 10. */
  const MAX_REPAIR_TTL: nat := 10

  /** 2 * NET_TRAVERSAL_TIME, that is 2 * 2 * 40 * 35. */
  const DISCOVERY_HOLD: nat := 5600

  /** timer_set_timeout. */
  function Arm(r: Route, at: Time): Route {
    r.(timer := r.timer.(used := true, timeout := at))
  }

  /** rt_table_update_timeout: a VALID entry keeps the later of its two expiry times. */
  function Extend(r: Route, lifetime: nat, now: Time): Route {
    if r.valid && r.timer.timeout >= now + lifetime then r else Arm(r, now + lifetime)
  }

  /** The handler and delay that an entry gets while it is INVALID. */
  function RestHandler(flags: Flags): Handler {
    if flags.repair then LocalRepair else RouteDelete
  }

  function RestTime(cfg: Config, flags: Flags): nat {
    if flags.repair then cfg.activeRouteTimeout else cfg.deletePeriod
  }

  /** First half of rt_table_invalidate: timers off, INVALID, one sequence number on. */
  function Strike(r: Route): Route {
    r.(valid := false,
       seqno := Incr(r.seqno),
       hello := false,
       timer := r.timer.(used := false))
  }

  /** Second half: the timer that ends the entry's time as INVALID. */
  function Rest(cfg: Config, r: Route, now: Time): Route {
    r.(timer := Timer(RestHandler(r.flags), true, now + RestTime(cfg, r.flags)))
  }

  /** What rt_table_invalidate makes of a VALID entry. */
  function Fall(cfg: Config, r: Route, now: Time): Route {
    Rest(cfg, Strike(r), now)
  }

  /** precursor_list_destroy. */
  function Forget(r: Route): Route {
    r.(precursors := [])
  }
}
