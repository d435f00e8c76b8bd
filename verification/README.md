# A Dafny model of the AODV-UU routing daemon

AODV-UU is a routing daemon for ad-hoc networks (RFC 3561). This project models the parts of it
that keep state, and proves what they promise over whole runs:

- the **daemon**: a 64-bucket hash table of routes, each with a timer, a sequence number and a
  copy in the kernel's routing table, and a bounded buffer of packets that wait for a route;
- the **rate limiter** for RREQ and RERR messages;
- the **kernel module** of the older design: a packet queue, a list of routes sorted by expiry,
  and the netlink messages that act on both;
- the **packet allocator** of the ns-2 simulator.

`dafny verify dfyconfig.toml` checks everything.

## How it is laid out

| files | what they hold |
|---|---|
| SeqNo, Basics, Route, DaemonSpec | 32-bit sequence numbers, addresses, one route entry, and every daemon operation as a function on values |
| Daemon | the daemon's own data structures, updated in place; every method is proved to do what the function says |
| GatewayChains, LinkFailure, Takedown, UpdateParts, Counting | how operations spread through the table: cascades through gateways, link breaks, the parts of an update |
| GatewayMoves, GatewayOwn, GatewayRecursion, GatewayCount | the update of a gateway, which updates all Internet destinations and may nest in itself |
| Packets, Outcomes | what each operation leaves of the table and the buffer, field by field |
| Traffic, Timers, Resting, ActiveCount, Lifetimes | theorems about every run of the daemon |
| Mirror, GatewayMirror, MirrorRuns, Coverage | the kernel's routing table against the daemon's |
| Acceptance | exactly in which runs a packet is accepted without a route |
| RateLimiter | the sliding windows of `aodv_socket_send` |
| KernelQueue, ExpireList, KernelModule | the kernel module |
| PacketPool | the simulator's allocator |

A run of the daemon is a sequence of timed steps: packets, insertions, updates, invalidations,
deletions, expiring timers, link breaks, failed searches, sweeps of the buffer. Each step takes
the clock as an argument. The gateway code (`CONFIG_GATEWAY`) and the messages to the kernel
(`#ifndef NS_PORT`) are both in, as in a daemon built with `CONFIG_GATEWAY` (Makefile:60-62). The
kernel's routing table is keyed by destination and metric, which is the distance, and a message
to delete a route matches its metric and next hop.

## What turned out not to hold

Each of these comes with a case in which it fails and with the exact condition under which it
does hold.

- **An update of a gateway may never come back.** It updates every VALID Internet destination, and
  one of these that is a gateway too starts the loop again, unless it has just gone down
  (`GatewayRecursion.ReturnsIff`, `GatewayRecursion.EndlessUpdate`).
- **The counter of VALID routes falls behind.** `rt_table_update` counts an entry only if it was
  INVALID at the start. When it moves a VALID one-hop neighbour further away, the link break
  inside it takes the entry down and it is marked VALID again uncounted
  (`ActiveCount.RunSlack`, `ActiveCount.GatewaySlackIff`, `MirrorRuns.DemotionRun`).
- **A VALID entry may come to expire earlier**: the same kind of update brings it back with a
  lifetime of its own (`Lifetimes.StepLives`, `Lifetimes.ShorterRun`).
- **The kernel's routes can differ from the VALID entries**: the route of such a neighbour is lost if
  its next hop stays; a change from next hop 0.0.0.0 is not announced; and a new distance leaves
  the route with the old metric behind (`MirrorRuns.StepMirror`, `MirrorRuns.DemotionRun`,
  `MirrorRuns.NoHopRun`, `MirrorRuns.NearerRun`). The kernel may be left without any route to a
  VALID entry (`Coverage.StepCovers`).
- **A packet can be accepted although the kernel has no route for it**: at once over such an entry,
  or from the buffer when an update severs the entry that packets wait for (`Acceptance.RunAccepts`,
  `Acceptance.StepAccepts`, `Acceptance.UnsafeRun`).
- **An INVALID entry is not always on a timer of its own.** A packet that starts its repair hands
  the timer to the expiry handler (`Timers.StepArmed`, `Timers.RepairRun`). And a search that
  fails on an entry that is VALID but flagged for repair puts the delete timer on it
  (`Timers.StepTimed`, `Timers.OrphanRun`).
- **The comparison of sequence numbers** in the message handlers is not that of section 6.1 of
  RFC 3561 (`SeqNo.ComparisonsAgree`, `SeqNo.ComparisonsDisagree`).
- **The length of the expire list drifts**: refused additions and updates at the limit are
  counted, for ever (`ExpireList.RunSound`, `ExpireList.LimitRun`, `ExpireList.StarvingRun`).
- **A known route in the kernel module is never refreshed** by an add-route message
  (`KernelModule.AddRouteNeverRefreshes`).
- **A reference taken on a freed packet** survives its reallocation
  (`PacketPool.StepTidy`, `PacketPool.CopyOfFreedPacket`).

The files under `src/protocol` are not UTF-8 text. Rows about them cite the place in another file
that calls them or installs them as a handler, and name the modelled lines in the third column.

## Model

| member | source | states |
|---|---|---|
| SeqNo.AdvanceClosedForm | src/routing/routing_table.h:40 | After any number of increments an unknown number is still 0, a known one never is, and it stands where the cycle without 0 puts it. |
| SeqNo.NewerWindow | src/routing/routing_table.h:40 | Over one whole cycle, exactly how many increments are still newer than the start under the signed comparison of section 6.1 of RFC 3561. |
| SeqNo.AdvanceIsNewer | src/routing/routing_table.h:40 | Up to 2^31 - 2 increments give a newer number, across the wrap that skips 0, and the start is not newer than it. |
| SeqNo.ComparisonsAgree | src/routing/routing_table.h:40 | The comparison of two casts in the message handlers (src/protocol/aodv_rreq.c:253-256) equals that of the RFC if and only if the signed difference fits 32 bits. |
| SeqNo.CodeSeesAdvance | src/routing/routing_table.h:40 | Up to 2^31 - 2 increments look newer to the handlers (src/protocol/aodv_rrep.c:319-323) if and only if they did not cross the sign boundary. |
| SeqNo.ComparisonsDisagree | src/routing/routing_table.h:40 | One increment over the sign boundary is newer for the RFC and not for the handlers. |
| Daemon.Daemon.Find | src/routing/routing_table.c:346-371 | The lookup with its early exit returns the entry of the map, and nothing if and only if the map has none. |
| Daemon.Daemon.FindGateway | src/routing/routing_table.c:373-390 | The result is a VALID gateway with the fewest hops, and nothing if and only if there is no VALID gateway. |
| Daemon.Daemon.Insert | src/routing/routing_table.c:86-191 | The bucket is searched, an entry is put at its head and counted; table, kernel, buffer and search list end as the map-level insertion says. |
| Daemon.Daemon.AddEntry | src/routing/routing_table.c:143-150 | The entry goes to the head of its own bucket, which stays a hash table, and is counted. |
| UpdateParts.InsertEffect | src/routing/routing_table.c:119-180 | A known destination changes nothing; otherwise exactly one entry is added, with the given values and, if VALID, at least the given lifetime; other entries keep their routes and at most live longer. |
| Outcomes.InsertOutcome | src/routing/routing_table.c:152-180 | The new entry in full: an INVALID one waits for DELETE_PERIOD, or for ACTIVE_ROUTE_TIMEOUT if flagged for repair, a VALID one for its lifetime; a search for it ends and renews it and its next hop. |
| Daemon.Daemon.Delete | src/routing/routing_table.c:526-553 | One entry less in its bucket, in both counters and in the kernel; every other bucket is untouched. |
| Outcomes.DeleteOutcome | src/routing/routing_table.c:526-553 | The entry is gone, VALID or not, and every other entry is as it was. |
| Daemon.Daemon.RemoveEntry | src/routing/routing_table.c:533-549 | The entry, and nothing else, leaves its bucket and the count of entries. |
| Daemon.Daemon.DestroyTable | src/routing/routing_table.c:63-75 | All buckets are empty, the entry counter is 0, and every VALID entry was subtracted and taken out of the kernel. |
| Daemon.Daemon.Invalidate | src/routing/routing_table.c:418-524 | The recursion over the table while it is being traversed ends, also on cycles of gateways, and takes down exactly the cascade of the entry. |
| Daemon.Daemon.InvalidateFeeders | src/routing/routing_table.c:471-503 | The loop that invalidates while it is itself inside an invalidation ends with every entry that used the gateway in the set taken down. |
| Daemon.Daemon.StrikeEntry | src/routing/routing_table.c:439-459 | The entry alone: one less VALID, its own kernel route gone, its sequence number raised. |
| GatewayChains.InvalidateExact | src/routing/routing_table.c:439-503 | Exactly the VALID entries reachable through chains of gateways go down, each sequence number rises once, each is armed to be deleted after DELETE_PERIOD or, flagged for repair, to end its repair after ACTIVE_ROUTE_TIMEOUT, all but the entry itself lose their precursors, the counter drops by their number, and the rest is unchanged. |
| GatewayChains.NestedCascade | src/routing/routing_table.c:471-503 | A nested invalidation takes only what belongs to the outer cascade, nothing twice, and leaves nothing behind it. |
| GatewayChains.InvalidateTwice | src/routing/routing_table.c:427-432 | Invalidating the same entry again, or any entry that went down with it, at any later time, changes nothing more. |
| Daemon.Daemon.LinkBreak | src/routing/routing_table.c:228-237 | neighbor_link_break (src/protocol/aodv_neighbor.c:73-178): the loop over the dependents has the effect of one collapse of all their cascades, whatever the order of the table. |
| Daemon.Daemon.BreakDependents | src/routing/routing_table.c:233-236 | The loop itself (src/protocol/aodv_neighbor.c:116-178): every dependent is visited, marked or not, and taken down once. |
| LinkFailure.BreakRound | src/routing/routing_table.c:233-236 | Visiting one more dependent (src/protocol/aodv_neighbor.c:116-178), marked for repair or not, adds exactly its own cascade. |
| LinkFailure.CascadesAddUp | src/routing/routing_table.c:471-503 | With the cascades of some entries down, the cascade of a further one is exactly what is missing from the cascades of all. |
| Takedown.LinkBreakTakesDown | src/routing/routing_table.c:233-236 | A link break (src/protocol/aodv_neighbor.c:95-178) only takes VALID entries down, and after the break of a one-hop neighbour neither it nor anything that uses it as next hop is VALID. |
| Outcomes.LinkBreakExact | src/routing/routing_table.c:233-236 | neighbor_link_break (src/protocol/aodv_neighbor.c:73-178) for every entry: it goes down if and only if it is the VALID neighbour, uses it, or depends through gateways on one of these; it is marked for repair if and only if the neighbour is, it uses the neighbour and is at most 10 hops away; and which of them keep their precursors. |
| Takedown.BreakReason | src/routing/routing_table.c:471-503 | An entry that goes down in a link break without using the neighbour goes down because its next hop does. |
| Daemon.Daemon.Update | src/routing/routing_table.c:193-269 | Exactly whenever it comes back at all, the whole update, with its announcement to the kernel, its link break, its gateway loop, the updates nested in that, and the release of buffered packets, equals the map-level update. |
| Daemon.Daemon.UpdateNested | src/routing/routing_table.c:193-269 | At any depth of nesting, the update does what the recursion on values says. |
| Daemon.Daemon.AnnounceRoute | src/routing/routing_table.c:201-226 | Counting and telling the kernel, with the repair flag cleared on a revived entry. |
| Daemon.Daemon.RewriteEntry | src/routing/routing_table.c:201-242 | Up to the new values of the entry, including the link break of a demoted neighbour. |
| Daemon.Daemon.ReviveEntry | src/routing/routing_table.c:249-267 | The rest: expiry handler, lifetime, VALID, and the release of what waited. |
| Daemon.Daemon.ReleaseFor | src/routing/routing_table.c:257-267 | Only if the destination was sought, its packets are sent, and the search ends. |
| Daemon.Daemon.UpdateInetRt | src/routing/routing_table.c:392-415 | At any depth the loop does what the recursion on values says; it returns at least the number of Internet destinations that are VALID afterwards, and exactly that unless it takes the gateway down. |
| GatewayMoves.GatewayUpdate | src/routing/routing_table.c:244-257 | After the update of a gateway it is VALID with the new values, and every other VALID Internet destination goes through it at its distance, or through a second gateway met in the loop if it comes before that in the table. |
| GatewayMoves.MoveLands | src/routing/routing_table.c:401-412 | The same for the loop alone; no Internet destination has become VALID in it, and no entry has changed its kind. |
| GatewayMoves.MoveSpares | src/routing/routing_table.c:401-412 | The loop never updates the gateway for which it runs: that may go down or live longer, no more. |
| GatewayRecursion.ReturnsIff | src/routing/routing_table.c:244-247 | The mutual recursion of the two update functions, written down with a bound on its depth, comes back within some depth if and only if the loop updates no entry that is Internet destination and gateway, or the first such entry is moved away from one hop and its own loop meets no other; then depth three is enough. |
| GatewayRecursion.DoneIsUpdate | src/routing/routing_table.c:193-269 | Whatever the depth, an update that has come back has done what the map-level update says. |
| GatewayRecursion.DoneIsMove | src/routing/routing_table.c:392-415 | The same for the loop, with the number it returns. |
| GatewayRecursion.StuckUpdate | src/routing/routing_table.c:244-247 | An entry that is both, and that neither moves further away nor comes behind one that does, exceeds every depth. |
| GatewayRecursion.NeverReturns | src/routing/routing_table.c:392-415 | So does the loop in every case that the condition excludes, also when two such entries are both moved away from one hop. |
| GatewayRecursion.EndlessUpdate | src/routing/routing_table.c:244-247 | A table of two entries on which the update of the first exceeds every depth. |
| GatewayMoves.LoneDualReturns | src/routing/routing_table.c:228-247 | With a single such entry, one hop away, and a gateway further away the loop comes back. |
| GatewayMoves.QuietReturnsIff | src/routing/routing_table.c:401-412 | In a table where nothing has to move further away, the loop comes back if and only if no VALID Internet destination is a gateway. |
| GatewayCount.CountsWhatIsLeft | src/routing/routing_table.c:407-411 | The number returned is never below that of the Internet destinations VALID afterwards, and equals it unless the gateway goes down, with or without a second gateway. |
| GatewayCount.MoveZero | src/routing/routing_table.c:405-409 | Every Internet destination that is VALID after the loop has sequence number 0, moved once or twice. |
| GatewayOwn.MoveAlone | src/routing/routing_table.c:392-415 | The loop never updates the gateway it runs for: the gateway keeps its next hop, distance and kernel routes, except that if it goes down, perhaps marked for repair, its own route goes and it rests from now on. |
| GatewayMoves.InetQuiet | src/routing/routing_table.c:401-412 | If no one-hop destination has to move away, no entry goes down and the counter stays in step. |
| Daemon.FlattenMeetsOnce | src/routing/routing_table.c:401-404 | The walk over the buckets meets every entry of the hash table exactly once. |
| UpdateParts.PlainOthers | src/routing/routing_table.c:228-257 | An update stores its values and marks the entry VALID; other entries go down only if a neighbour is demoted. |
| Outcomes.UpdateOutcome | src/routing/routing_table.c:200-242 | The entry in full but for its timer, with the mark of an ended repair cleared; entries that use it go down if and only if it moves from one hop to more. |
| Counting.UpdatePlainSlack | src/routing/routing_table.c:201-237 | An update leaves the counter one further behind if and only if it demotes a VALID neighbour. |
| ActiveCount.GatewaySlackIff | src/routing/routing_table.c:201-247 | The update of a gateway leaves the counter alone if and only if a VALID gateway is not demoted and no one-hop Internet destination has to move away. |
| ActiveCount.StepSlack | src/routing/routing_table.c:445-446 | Only an update lets the counter fall behind, by exactly the VALID entries that it takes down and brings back; no step lets it run ahead. |
| ActiveCount.RunSlack | src/routing/routing_table.c:206 | In every run the counter is behind the number of VALID entries by exactly the entries taken down and brought back inside updates. |
| Daemon.Daemon.UpdateTimeout | src/routing/routing_table.c:271-291 | A VALID entry keeps the later of its two expiry times, an INVALID one takes the new one. |
| Daemon.Daemon.UpdateRouteTimeouts | src/routing/routing_table.c:294-344 | Forward route, its next hop, reverse route and its next hop are renewed under the conditions of the source. |
| Lifetimes.LifeNeverShortens | src/routing/routing_table.c:249-253 | Over any stretch of any run in which an entry stays VALID and no step shortens its life in the exact sense of StepLives, its expiry only moves later. |
| Lifetimes.StepLives | src/routing/routing_table.c:271-291 | An entry that is VALID before and after a step expires no earlier if and only if the step is not an update that takes it down and brings it back with less time than it had left, nor a failed search on it while it is flagged for repair and has more than DELETE_PERIOD left. |
| Lifetimes.UpdateLives | src/routing/routing_table.c:228-257 | The same for updates, of gateways too: for the entry itself, and for the one-hop Internet destinations that have to move away. |
| Lifetimes.GatewayOwnTimer | src/routing/routing_table.c:244-253 | When the updated gateway expires: no earlier than before if it came through the loop VALID; otherwise from the moment it fell, with its old flags if it was demoted, with its new ones, perhaps marked for repair, if the loop took it down. |
| Lifetimes.PlainTimer | src/routing/routing_table.c:249-253 | When an entry expires after an update, exactly: demoted or not, Internet destination or not, sought or not. |
| Lifetimes.ShorterRun | src/routing/routing_table.c:228-253 | Two steps after which a VALID entry expires at 1001 instead of 9000. |
| Packets.RefreshExact | src/routing/routing_table.c:304-344 | For every setting: the VALID forward route is renewed unless it is a silent neighbour and no Internet destination, the VALID reverse route unless it is a silent neighbour, a VALID next hop of either if link-layer feedback is on or that route is heard; no other entry changes. |
| Packets.PacketRenews | src/routing/routing_table.c:304-334 | So for a packet as a whole: these entries, and no others, are good for ACTIVE_ROUTE_TIMEOUT afterwards (section 6.2 of RFC 3561). |
| Packets.DestinationHeld | src/network/packet_input.c:84-104 | The entry of a destination that cannot carry the packet: kept for DELETE_PERIOD after a refusal, held for 5.6 seconds by a new search, handed to the expiry handler by a repair. |
| Daemon.Daemon.TimerExpired | src/routing/routing_table.c:505-521 | The expiring timer of an entry runs the handler it was given (src/protocol/aodv_timeout.c:126-222): expiry, end of repair, or deletion. |
| Outcomes.ExpireOutcome | src/routing/routing_table.c:505-521 | The handlers (src/protocol/aodv_timeout.c:126-222) for every entry: an expired neighbour takes down what a broken link does, any other entry its own cascade, the end of a repair clears the flag and starts DELETE_PERIOD, a deletion removes the entry alone. |
| Daemon.Daemon.RepairTimedOut | src/routing/routing_table.c:505-512 | local_repair_timeout (src/protocol/aodv_timeout.c:126-181): the repair flag and the precursors go, the kernel route too, and the delete timer is armed. |
| Daemon.Daemon.HelloTimedOut | src/routing/routing_table.c:134 | hello_timeout (src/protocol/aodv_timeout.c:226-258): a lost neighbour is marked for repair if close enough, and its link breaks. |
| Outcomes.HelloOutcome | src/routing/routing_table.c:134 | hello_timeout (src/protocol/aodv_timeout.c:226-258) with local repair on or off: a VALID neighbour over a two-way link goes down with all that use it, flagged for repair if it was or local repair is on; a VALID entry further away stays up; otherwise only the HELLO timer stops. |
| Daemon.Daemon.SeekTimedOut | src/network/packet_queue.c:77-78 | The end of a search (src/protocol/aodv_timeout.c:103-123) drops what waits for the destination and ends a repair. |
| Outcomes.SeekOutcome | src/network/packet_queue.c:77-78 | After a failed search (src/protocol/aodv_timeout.c:103-123) exactly the packets for the destination have been refused, in order of arrival, the others wait, and a repair is given up. |
| Daemon.Daemon.RouteDiscovery | src/network/packet_input.c:101 | rreq_route_discovery (src/protocol/aodv_rreq.c:420-477): a search starts unless one runs, and an existing entry is held for it. |
| Daemon.Daemon.RepairRoute | src/network/packet_input.c:98-99 | rreq_local_repair (src/protocol/aodv_rreq.c:480-540): the same, and the timer of the entry gets the expiry handler. |
| Daemon.Daemon.HelloReceived | src/routing/routing_table.c:134 | A received HELLO (src/protocol/aodv_hello.c:293-298) arms the HELLO timer of the entry and changes nothing else. |
| Outcomes.HeardIsRenewed | src/routing/routing_table.c:306-334 | A VALID neighbour that has just been heard (src/protocol/aodv_hello.c:293-298) is renewed by packets to it and from it, and so is its next hop. |
| Daemon.Daemon.PrecursorAdd | src/routing/routing_table.c:559-592 | A precursor is added at the head unless it is there; nothing else changes. |
| Outcomes.PrecursorAdded | src/routing/routing_table.c:559-592 | The neighbour is a precursor, all that were are still, none is there twice if none was, and adding it again changes nothing. |
| Resting.StepRests | src/routing/routing_table.c:505-521 | Whatever step takes a VALID entry down leaves its timer armed: to delete it after DELETE_PERIOD or, if it is flagged for repair, to give up after ACTIVE_ROUTE_TIMEOUT. |
| Resting.RestsForDeletePeriod | src/routing/routing_table.c:515-521 | In every run with a clock that does not go back and timers that do not go off early, an entry that went down without the repair flag stays in the table for DELETE_PERIOD unless it is updated or deleted by name. |
| Timers.StepArmed | src/routing/routing_table.c:505-521 | If every INVALID entry has its own timer armed, with the repair handler if flagged for repair, a step keeps that if and only if it is no packet that starts the repair of an INVALID entry and no such failed search. |
| Timers.RunArmed | src/routing/routing_table.c:150-180 | In every run without such packets and searches every timer is armed as it should be. |
| Timers.RepairRun | src/network/packet_input.c:98-99 | Four steps after which an INVALID entry flagged for repair is on the expiry handler (src/protocol/aodv_rreq.c:517-518). |
| Timers.StepTimed | src/routing/routing_table.c:505-521 | If every VALID entry is on the expiry handler, and every INVALID one armed to be deleted or to end its repair, or being sought, a step keeps that if and only if it is not a failed search on a VALID entry flagged for repair. |
| Timers.RunTimed | src/routing/routing_table.c:130-180 | The same holds in every run without such a search. |
| Timers.RunLoose | src/routing/routing_table.c:250 | In every run whatsoever no VALID entry is on the repair handler. |
| Timers.OrphanRun | src/routing/routing_table.c:505-521 | Seven steps that the program takes (src/protocol/aodv_hello.c:185-189, 265-280, src/protocol/aodv_timeout.c:112-122, 242-256), after which an entry is VALID, its route out of the kernel, and waiting to be deleted. |
| Mirror.PlainMirror | src/routing/routing_table.c:201-237 | An update keeps the kernel's routes, with their metrics, equal to those of the VALID entries if and only if it does not spoil the route in one of the named ways. |
| GatewayMirror.GatewayMirrorIff | src/routing/routing_table.c:244-257 | So does the update of a gateway if and only if it does not spoil its own route, the loop does not take the gateway down, and each Internet destination that comes out VALID was told to the kernel, counting both moves of those that a second gateway moved twice. |
| MirrorRuns.RepairTimeoutMirror | src/routing/routing_table.c:505-512 | The end of a repair (src/protocol/aodv_timeout.c:126-181) keeps it if and only if the entry is INVALID. |
| MirrorRuns.StepMirror | src/routing/routing_table.c:152-190 | The same if and only if for every kind of step. |
| MirrorRuns.RunMirror | src/network/nl.c:251-279 | In every run of such steps the kernel has exactly the routes of the VALID entries, each with its next hop and its distance as metric. |
| MirrorRuns.DemotionRun | src/routing/routing_table.c:228-237 | Two steps after which a VALID entry has no kernel route and the counter is one behind. |
| MirrorRuns.NoHopRun | src/routing/routing_table.c:216-226 | Two steps after which the kernel still has next hop 0.0.0.0 for a VALID entry that has another. |
| MirrorRuns.NearerRun | src/network/nl.c:274-279 | Three steps, with a new distance over the same next hop, after which the kernel has a route for an INVALID entry. |
| Coverage.PlainCovers | src/routing/routing_table.c:201-237 | An update leaves the kernel some route to every VALID entry if and only if it does not sever its own. |
| Coverage.SeversOnly | src/routing/routing_table.c:216-237 | Severed is only a VALID neighbour that is moved away with its next hop unchanged, or from next hop 0.0.0.0, and has no older route. |
| Coverage.GatewayRoutes | src/routing/routing_table.c:244-257 | The kernel has a route to a gateway that is made VALID again if and only if its update did not sever it and the loop did not take it down when it had only its own route. |
| Coverage.GatewayCovers | src/routing/routing_table.c:244-257 | The update of a gateway leaves a route to every VALID entry if and only if the gateway keeps one in that sense and each Internet destination that comes out VALID was not severed; one that was moved twice gets a second chance if the second move was announced. |
| Coverage.StepCovers | src/routing/routing_table.c:152-190 | The exact condition for every kind of step. |
| Acceptance.PlainJudges | src/routing/routing_table.c:201-266 | An update accepts nothing without a route if and only if no packet waits for its entry or it does not sever the entry. |
| Acceptance.PassAccepts | src/routing/routing_table.c:401-412 | A loop that meets no second gateway does so if and only if that holds, with the routes and the buffer as they were before the loop, for each Internet destination that is VALID at its turn. |
| Acceptance.GatewayAccepts | src/routing/routing_table.c:244-266 | At the end of its own update a gateway accepts nothing without a route if and only if nobody waited for it before, or it was neither severed nor taken down by the loop with its only route. |
| Acceptance.SecondAccepts | src/routing/routing_table.c:244-266 | The same for a second gateway inside the loop, which only its own move can sever. |
| Acceptance.ReceiveJudges | src/network/packet_input.c:68-106 | A packet that comes in is not accepted without a route if and only if the header tests let it through, its entry cannot carry it, or the kernel has a route. |
| Acceptance.StepAccepts | src/routing/routing_table.c:152-190 | The exact condition for every kind of step; only packets that come in and updates can violate it. |
| Acceptance.RunAccepts | src/network/packet_queue.c:94-105 | In any run, whether or not the routes agree, no packet was accepted without a kernel route, at once or from the buffer, unless the header tests let it through, if and only if every step met its condition. |
| Acceptance.RunSafe | src/network/packet_input.c:84-106 | So it is in every run in which no VALID entry is severed; then the kernel has a route to every VALID entry. |
| Acceptance.UnsafeRun | src/network/packet_queue.c:94-105 | Three steps after which a buffered packet is accepted although the kernel has no route for it. |
| Daemon.Daemon.HandlePacket | src/network/packet_input.c:44-107 | Every path of a packet: let through, accepted, refused with an error message, or buffered with a search or a repair. |
| Packets.PacketOutcome | src/network/packet_input.c:84-106 | A packet is accepted at once if and only if its destination is VALID and no one-way neighbour, refused at once if and only if it is forwarded, not accepted and its destination is not under repair, and otherwise is last in the buffer with its destination being sought; a full buffer first refuses its oldest packet. |
| Packets.BypassOutcome | src/network/packet_input.c:69-74 | A packet that the header tests let through is accepted and changes nothing. |
| Daemon.Daemon.AddPacket | src/network/packet_queue.c:37-66 | A full buffer drops its oldest packet; the new one goes to the end. |
| Daemon.Daemon.SetVerdict | src/network/packet_queue.c:68-129 | The packets for the destination get the verdict in order; without an entry nothing happens and the answer is -1; the gateway fallback is dead code. |
| Daemon.Daemon.JudgeMatching | src/network/packet_queue.c:94-105 | The loop that detaches while it iterates splits the buffer and counts what it took. |
| Daemon.Daemon.GarbageCollect | src/network/packet_queue.c:131-157 | Packets over age are dropped, the others stay, and the answer is the number dropped. |
| Traffic.CollectOutcome | src/network/packet_queue.c:131-157 | Exactly the packets that have waited for more than ten seconds are refused, in order, and the others go on waiting. |
| Daemon.Daemon.DestroyQueue | src/network/packet_queue.c:22-35 | Every buffered packet is dropped and the buffer is empty. |
| Traffic.ShutdownRefuses | src/network/packet_queue.c:22-35 | Every packet that still waits is refused, in order. |
| Traffic.PartitionIsStable | src/network/packet_queue.c:94-105 | The packets taken and the packets kept, woven together as they stood, are the whole buffer: nothing lost, both in order. |
| Traffic.PartitionDests | src/network/packet_queue.c:97-98 | What was taken is for the destination, what was kept is for others. |
| Traffic.AgedIsPrefix | src/network/packet_queue.c:139-150 | On a buffer in order of arrival, what is over age is exactly a prefix. |
| Traffic.StepCarries | src/network/nfqueue.c:145-151 | No step loses or doubles a packet, breaks the order, or overfills the buffer. |
| Traffic.RunBalances | src/network/packet_input.c:44-107 | In every run, arrivals of a packet id equal its verdicts plus its places in the buffer. |
| Traffic.EachPacketOnce | src/network/nfqueue.c:145-151 | An id that arrived once either waits without a verdict or has had exactly one; after shutdown it has had exactly one. |
| Traffic.RunOrderly | src/network/packet_queue.c:37-62 | In every run with a clock that does not go back, the buffer holds at most 512 packets, in order of arrival, none over age at the last sweep. |
| Traffic.WaitIsBounded | src/network/packet_queue.h:9-11 | With sweeps at most 1000 + delta ms apart no packet waits longer than 11000 + delta ms. |
| RateLimiter.AnyWindowSpansASecond | src/network/aodv_socket.c:457-503 | Over any history, as many consecutive transmissions as the limit span at least one second. |
| RateLimiter.FewPerSecond | src/network/aodv_socket.c:457-503 | So no window shorter than a second holds that many (sections 6.3 and 6.11 of RFC 3561). |
| RateLimiter.NinePerSecond | src/network/aodv_socket.c:457-503 | With the limits as defined, at most nine RREQs and nine RERRs leave in any second. |
| RateLimiter.RefusedIff | src/network/aodv_socket.c:463-470 | An attempt is refused if and only if limit - 1 transmissions of its kind fell into the second before it. |
| RateLimiter.SentInOrder | src/network/aodv_socket.c:472-480 | Transmissions are attempts, in order of time. |
| RateLimiter.KindsAreIndependent | src/network/aodv_socket.c:461-501 | RREQ and RERR do not influence each other. |
| RateLimiter.Limiter.Send | src/network/aodv_socket.c:457-503 | The two small arrays, shifted in place, decide as the whole history would. |
| RateLimiter.Check | src/network/aodv_socket.c:463-480 | One array holds the last limit - 1 times before and after, and the decision is that of the history. |
| RateLimiter.ShiftIn | src/network/aodv_socket.c:472-476 | The array loses its oldest time and gains the new one, in place. |
| KernelQueue.Queue.Enqueue | kernel/kaodv-queue.c:71-82 | A packet is refused if and only if the queue is full. |
| KernelQueue.Queue.FindDequeue | kernel/kaodv-queue.c:88-141 | The oldest packet for the destination leaves the queue; the counter stays the length. |
| KernelQueue.Queue.Find | kernel/kaodv-queue.c:194-206 | A packet is found if and only if one is queued. |
| KernelQueue.Queue.FindEntry | kernel/kaodv-queue.c:88-100 | The oldest entry for the destination, or the oldest of all without one. |
| KernelQueue.Queue.Flush | kernel/kaodv-queue.c:117-125 | The queue is empty and its counter 0. |
| KernelQueue.TakeOldest | kernel/kaodv-queue.c:102-115 | Taking the oldest packet for a destination leaves the order of every other destination as it was. |
| KernelQueue.SplitsQueue | kernel/kaodv-queue.c:208-230 | A queue falls into the packets for a destination and the rest, both in order. |
| KernelQueue.RunConsistent | kernel/kaodv-queue.c:132-141 | For every interleaving of arrivals with a verdict loop that drops the lock, per destination the disposed, the one in hand and the queued are the accepted, in order of arrival; the counter is the length and within the limit. |
| KernelQueue.StepConsistent | kernel/kaodv-queue.c:71-82 | Every step of the interleaving keeps that invariant. |
| KernelQueue.LoopEndsEmpty | kernel/kaodv-queue.c:215-230 | When the loop ends nothing for its destination is queued, and all of it was disposed of in order. |
| ExpireList.ExplList.Link | kernel/kaodv-expl.c:113-135 | The entry goes before the first that expires later, unless the list is full. |
| ExpireList.ExplList.AddEntry | kernel/kaodv-expl.c:220-269 | A known destination is left alone, a refused entry is counted all the same, and the status says which. |
| ExpireList.ExplList.Get | kernel/kaodv-expl.c:201-218 | The entry of the destination, or nothing if and only if it has none. |
| ExpireList.ExplList.DelEntry | kernel/kaodv-expl.c:150-199 | One entry less if there was one, and the answer says so. |
| ExpireList.ExplList.FlushAll | kernel/kaodv-expl.c:394-406 | The list is emptied, and the counter lowered by its length only. |
| ExpireList.ExplList.UpdateEntry | kernel/kaodv-expl.c:359-392 | The entry is taken out and put back in order, or lost at the limit. |
| ExpireList.ExplList.ExpireDue | kernel/kaodv-expl.c:74-98 | Entries leave from the front up to the first that is not due, and are reported in order. |
| ExpireList.InsertedAt | kernel/kaodv-expl.c:123-130 | The place of insertion: everything before expires no later, the one after it later. |
| ExpireList.TimeoutExact | kernel/kaodv-expl.c:81-86 | On a sorted list the early break takes off exactly what is due. |
| ExpireList.StepDrift | kernel/kaodv-expl.c:244-247 | Every operation keeps the list sorted, without duplicates and within 1024; the counter moves away from the length exactly when the limit is met. |
| ExpireList.RunSound | kernel/kaodv-expl.c:381-383 | In every run the counter is the length plus the number of times the limit was met. |
| ExpireList.StepLookup | kernel/kaodv-expl.c:74-199 | The sorted list is a map from destinations to entries: what is found for each destination after every kind of step, with the limit and the timeout. |
| ExpireList.Starves | kernel/kaodv-expl.c:116-119 | After 1024 such times an empty list stays empty for ever. |
| ExpireList.LimitRun | kernel/kaodv-expl.c:244-247 | A run that meets the limit once: 1024 entries, counter 1025. |
| ExpireList.StarvingRun | kernel/kaodv-expl.c:101-119 | A run after which the list is empty whatever follows. |
| KernelModule.Module.SetVerdictDrop | kernel/kaodv-queue.c:213-230 | All packets for the destination are freed in order and the first sender is told. |
| KernelModule.Module.SetVerdictSend | kernel/kaodv-queue.c:231-264 | All packets for the destination leave over its route, encapsulated if it says so; without a route they are freed. |
| KernelModule.Module.SendOne | kernel/kaodv-queue.c:236-258 | One packet is sent plain or encapsulated, or freed, by the route found for it at that moment. |
| KernelModule.Module.ReceivePeer | kernel/kaodv-netlink.c:173-231 | Each message does to routes, queue and settings what the function says, with its status; the branch that would refresh a known route is never taken. |
| KernelModule.Module.ReceiveSkb | kernel/kaodv-netlink.c:301-312 | The first sender becomes the owner, also with a message that is too short; others are turned away with -EBUSY and without effect. |
| KernelModule.Module.Release | kernel/kaodv-netlink.c:239-247 | When the owner leaves, routes and queue are emptied. |
| KernelModule.MessageClearsQueue | kernel/kaodv-netlink.c:184-216 | After a message about a destination nothing waits for it, and all others wait in the same order. |
| KernelModule.MessageRoutes | kernel/kaodv-netlink.c:184-231 | Which route is used for each destination after each message: a deletion takes away the one to its destination and no other, an addition brings one in if there is none and there is room, all other messages leave the list as it is. |
| KernelModule.MessageFrees | kernel/kaodv-netlink.c:201-216 | Messages that a route is gone or was not found free the waiting packets in order and tell the sender of the first, once. |
| KernelModule.EncapsulatedDeliveries | kernel/kaodv-queue.c:241-252 | Over a route with encapsulation exactly the packets that can be wrapped leave, wrapped for the gateway, and the others are freed. |
| KernelModule.StatusTellsRoute | kernel/kaodv-netlink.c:184-199 | The status of an addition is 1 if and only if the list grew, 0 if and only if the route was known, and negative if and only if there is none afterwards. |
| KernelModule.DeadlineInTicks | kernel/kaodv-expl.c:240 | A new route expires after its time in milliseconds, rounded down to whole ticks. |
| KernelModule.OwnerAlone | kernel/kaodv-netlink.c:301-312 | Nobody but the owner changes anything, the first sender becomes the owner, and when it leaves the routes are gone and the waiting packets freed. |
| KernelModule.AddedRoute | kernel/kaodv-netlink.c:190-199 | The route in use after an add-route message: the old one if there was one, else the new one unless the list was full. |
| KernelModule.AddRouteDelivers | kernel/kaodv-netlink.c:190-199 | Without encapsulation all waiting packets leave in order of arrival, unless the route is new and the list is full. |
| KernelModule.AddRouteNeverRefreshes | kernel/kaodv-netlink.c:190-198 | The list is left as it was if and only if the destination was known. |
| KernelModule.RunInvariant | kernel/kaodv-netlink.c:239-245 | In every run the list is sound, the queue within its limit, and there are no routes while nobody owns the module. |
| KernelModule.RunConserves | kernel/kaodv-queue.c:208-266 | In every run each packet that was let in is waiting, delivered or freed, exactly once. |
| PacketPool.ReturnsOnLastFree | sim/ns-2.32/common/packet.h:602-624 | A packet with k extra references goes to the free list on exactly its (k + 1)-th free, and further frees change nothing. |
| PacketPool.StepTidy | sim/ns-2.32/common/packet.h:553-624 | If the free list is in order and nothing refers to a packet on it, a step keeps that if and only if it neither gives data to nor takes a reference on a packet that is not in use. |
| PacketPool.StepData | sim/ns-2.32/common/packet.h:553-624 | A packet keeps its data until it is given other data or freed for the last time; a new one has none. |
| PacketPool.StepStructured | sim/ns-2.32/common/packet.h:553-624 | The free list itself, without duplicates and exactly the packets not in use, is kept if and only if no data is given to one of them: references do not matter. |
| PacketPool.RunStructured | sim/ns-2.32/common/packet.h:553-577 | So it holds in every run that gives data to packets in use only, whatever references are taken. |
| PacketPool.RunTidy | sim/ns-2.32/common/packet.h:553-577 | In every run that takes references on packets in use only, a packet is in use exactly as long as somebody holds it, with one count per further holder. |
| PacketPool.CopyOfFreedPacket | sim/ns-2.32/common/packet.h:371 | A reference taken on a freed packet is still counted after its reallocation. |
| PacketPool.Allocator.AllocPacket | sim/ns-2.32/common/packet.h:553-577 | The head of the linked list is handed out, or a new packet; both assertions of the source hold. |
| PacketPool.Allocator.FreePacket | sim/ns-2.32/common/packet.h:602-624 | The links stay a list without cycles; the packet is put at its head, or its count falls, or nothing happens. |
| PacketPool.Allocator.RefCopyPacket | sim/ns-2.32/common/packet.h:371 | The same packet, with one more reference, and nothing else changed. |
| PacketPool.Allocator.CopyPacket | sim/ns-2.32/common/packet.h:626-636 | The copy has the same data, is in use, and no other packet changes; it is another packet unless the one to be copied is the next to be handed out. |

## Left out

- Timers.StepArmed: takes ACTIVE_ROUTE_TIMEOUT and DELETE_PERIOD to be positive, as they are defined.
- PacketPool.RunTidy: runs that take references on freed packets are left to `PacketPool.RunStructured`, because the count of holders fails in them.
- Updates that never come back: the functions on values give a state for them all the same, so the theorems about runs also cover runs that would go on from there.
- The tests of packet headers (local address, broadcast, direct subnet, AODV control): a packet carries their outcome as a flag.
- Processing of RREQ, RREP, RERR and HELLO messages, their formats, and the RERR and RREQ messages that the modelled operations send.
- Loop freedom of the network as a whole.
- Sockets, netlink encoding, byte order, and a packet interface that is closed while packets wait.
- Interface index and scope of kernel routes, and messages with metric 0.
- The timer queue itself: a timer is its handler, whether it is armed, and when it expires; any armed timer may expire at any step.
- HELLO counters, acknowledgement timers, the removal of single precursors, the wait after a reboot, and retries of a search before it fails.
- The 32-bit wrap of counters and of the kernel clock; times are whole numbers, milliseconds in the daemon and microseconds in the rate limiter.
- Header bits of simulator packets.
- Interleavings of several verdict loops, and of verdict loops with flushes, in the kernel queue.
- Memory that runs out, proc files, module loading, the graphical interface, and the simulator's trace and priority queue code.
