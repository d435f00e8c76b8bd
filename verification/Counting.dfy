/** The num_active counter against the true number of VALID entries.

    rt_table_update counts an entry when it was INVALID at the start.  If it was VALID but a
    link break inside the same update took it down, it is marked VALID again without being
    counted, and the counter stays one behind from then on. */
module Counting {
  import opened Basics
  import opened Route
  import opened DaemonSpec
  import opened Takedown
  import opened UpdateParts

  /** How far the counter is behind. */
  ghost function Slack(s: State): int {
    |ValidSet(s.routes)| - s.active
  }

  lemma ValidSetPut(routes: map<Addr, Route>, d: Addr, r: Route)
    ensures ValidSet(routes[d := r]) == if r.valid then ValidSet(routes) + {d} else ValidSet(routes) - {d}
  {
  }

  lemma TakedownKeepsSlack(cfg: Config, s: State, s': State, now: Time)
    requires TakesDown(cfg, s, s', now)
    ensures Slack(s') == Slack(s)
  {
    var gone := ValidSet(s.routes) - ValidSet(s'.routes);
    assert ValidSet(s.routes) == ValidSet(s'.routes) + gone;
  }

  lemma ProlongsKeepsValid(routes: map<Addr, Route>, routes': map<Addr, Route>)
    requires Prolongs(routes, routes')
    ensures ValidSet(routes') == ValidSet(routes)
  {
    forall x | x in routes ensures routes'[x].valid == routes[x].valid {
      assert Prolonged(routes[x], routes'[x]);
    }
  }

  lemma RewriteSlack(cfg: Config, s: State, d: Addr, c: Change, now: Time)
    requires d in s.routes
    ensures Slack(Rewrite(cfg, s, d, c, now)) == Slack(s) - (if s.routes[d].valid then 0 else 1)
  {
    hide Rewrite, TakesDown, ValidSet;
    var s1, s2 := RewriteShape(cfg, s, d, c, now);
    ValidSetPut(s.routes, d, s1.routes[d]);
    TakedownKeepsSlack(cfg, s1, s2, now);
    var r2 := s2.routes[d];
    ValidSetPut(s2.routes, d, r2.(flags := NewFlags(s.routes[d], c), seqno := c.seqno, nextHop := c.next, hops := c.hops));
    ValidMember(s.routes, d);
    ValidMember(s2.routes, d);
  }

  lemma ValidMember(routes: map<Addr, Route>, d: Addr)
    ensures d in ValidSet(routes) <==> d in routes && routes[d].valid
    ensures d in ValidSet(routes) ==> ValidSet(routes) + {d} == ValidSet(routes)
    ensures d !in ValidSet(routes) ==> ValidSet(routes) - {d} == ValidSet(routes)
  {
  }

  lemma ReviveSlack(cfg: Config, s: State, d: Addr, lifetime: nat, now: Time)
    requires d in s.routes
    ensures Slack(Revive(cfg, s, d, lifetime, now)) == Slack(s) + (if s.routes[d].valid then 0 else 1)
  {
    hide Revive, ValidSet, Prolongs;
    ReviveShape(cfg, s, d, lifetime, now);
    var r := Revived(s.routes[d], lifetime, now);
    ProlongsKeepsValid(s.routes[d := r], Revive(cfg, s, d, lifetime, now).routes);
    ValidSetPut(s.routes, d, r);
    ValidMember(s.routes, d);
  }

  /** Exactly when a plain update leaves the counter behind by one more: it demotes an entry
      that was VALID. */
  lemma UpdatePlainSlack(cfg: Config, s: State, d: Addr, c: Change, now: Time)
    requires d in s.routes
    ensures Slack(UpdatePlain(cfg, s, d, c, now)) ==
            Slack(s) + (if s.routes[d].valid && Demotes(s.routes[d], c) then 1 else 0)
  {
    hide Rewrite, Revive;
    RewriteSlack(cfg, s, d, c, now);
    RewriteRoot(cfg, s, d, c, now);
    ReviveSlack(cfg, Rewrite(cfg, s, d, c, now), d, c.lifetime, now);
  }

  /** No VALID Internet destination would be demoted by a move to a gateway `hops` away. */
  predicate Quiet(routes: map<Addr, Route>, hops: nat) {
    hops > 1 ==> forall x :: x in routes && routes[x].valid && routes[x].flags.inetDest ==> routes[x].hops != 1
  }

  /** The demotions in one pass over the Internet destinations. */
  ghost function InetDemotions(cfg: Config, s: State, gw: Addr, life: nat, order: seq<Addr>, now: Time): nat
    requires gw in s.routes
    decreases |order|
  {
    if order == [] then 0 else
    var n := |order| - 1;
    var s1 := UpdateInet(cfg, s, gw, life, order[..n], now);
    InetDemotions(cfg, s, gw, life, order[..n], now) +
    (if InetActive(s1.routes, order[n]) && Demotes(s1.routes[order[n]], Onto(s1.routes, gw, order[n], life)) then 1 else 0)
  }

  /** Each of them leaves the counter one further behind. */
  lemma {:induction false} UpdateInetSlack(cfg: Config, s: State, gw: Addr, life: nat, order: seq<Addr>, now: Time)
    requires gw in s.routes
    ensures Slack(UpdateInet(cfg, s, gw, life, order, now)) == Slack(s) + InetDemotions(cfg, s, gw, life, order, now)
    decreases |order|
  {
    if order != [] {
      hide UpdatePlain, Slack;
      var x := order[|order| - 1];
      UpdateInetSlack(cfg, s, gw, life, order[..|order| - 1], now);
      var s1 := UpdateInet(cfg, s, gw, life, order[..|order| - 1], now);
      if InetActive(s1.routes, x) {
        UpdatePlainSlack(cfg, s1, x, Onto(s1.routes, gw, x, life), now);
      }
    }
  }
}
