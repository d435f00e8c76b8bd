/** The rate limiter of aodv_socket_send: at most RREQ_RATELIMIT - 1 RREQs, and as many RERRs,
    leave in any second.  It keeps only the times of the last RREQ_RATELIMIT - 1 transmissions;
    the proofs are about the whole history. */
module RateLimiter {

  /** Wall-clock time in microseconds, as gettimeofday gives it. */
  type Micros = int

  const RREQ_RATELIMIT: nat := 10
  const RERR_RATELIMIT: nat := 10
  const SECOND: int := 1_000_000

  /** timeval_diff: milliseconds, the division truncating towards zero. */
  function TimevalDiff(t1: Micros, t2: Micros): int {
    if t1 >= t2 then (t1 - t2) / 1000 else -((t2 - t1) / 1000)
  }

  datatype Message = Rreq | Rrep | Rerr | RrepAck

  /** One call of aodv_socket_send with rate limiting on. */
  datatype Attempt = Attempt(msg: Message, at: Micros)

  // ----- The decision as a function of the whole history

  /** `sent` holds the times of all earlier transmissions of this kind, oldest first. */
  predicate Admits(sent: seq<Micros>, limit: nat, now: Micros)
    requires limit > 1
  {
    |sent| < limit - 1 || TimevalDiff(now, sent[|sent| - (limit - 1)]) >= 1000
  }

  function Extended(sent: seq<Micros>, limit: nat, now: Micros): seq<Micros>
    requires limit > 1
  {
    if Admits(sent, limit, now) then sent + [now] else sent
  }

  /** When messages of kind `msg` left, given all attempts of all kinds. */
  function Sent(attempts: seq<Attempt>, msg: Message, limit: nat): seq<Micros>
    requires limit > 1
  {
    if attempts == [] then [] else
    var a := attempts[|attempts| - 1];
    var before := Sent(attempts[..|attempts| - 1], msg, limit);
    if a.msg == msg then Extended(before, limit, a.at) else before
  }

  ghost predicate Clocked(attempts: seq<Attempt>) {
    forall i, j :: 0 <= i < j < |attempts| ==> attempts[i].at <= attempts[j].at
  }

  /** Times in order, none after `end`. */
  ghost predicate InOrder(sent: seq<Micros>, end: Micros) {
    && (forall i, j :: 0 <= i < j < |sent| ==> sent[i] <= sent[j])
    && (forall i :: 0 <= i < |sent| ==> sent[i] <= end)
  }

  /** Transmissions are attempts: in order of time, and none later than the last attempt. */
  lemma {:induction false} SentInOrder(attempts: seq<Attempt>, msg: Message, limit: nat, end: Micros)
    requires limit > 1 && Clocked(attempts) && forall i :: 0 <= i < |attempts| ==> attempts[i].at <= end
    ensures InOrder(Sent(attempts, msg, limit), end)
  {
    if attempts != [] {
      var n := |attempts| - 1;
      SentInOrder(attempts[..n], msg, limit, attempts[n].at);
    }
  }

  /** Soundness: over any history, `limit` consecutive transmissions span at least a second. */
  lemma {:induction false} AnyWindowSpansASecond(attempts: seq<Attempt>, msg: Message, limit: nat, i: nat)
    requires limit > 1 && i + limit - 1 < |Sent(attempts, msg, limit)|
    ensures var sent := Sent(attempts, msg, limit);
            sent[i + limit - 1] - sent[i] >= SECOND
  {
    var init := attempts[..|attempts| - 1];
    var before := Sent(init, msg, limit);
    if i + limit - 1 < |before| {
      AnyWindowSpansASecond(init, msg, limit, i);
    }
  }

  /** Hence no window shorter than a second holds `limit` transmissions. */
  lemma FewPerSecond(attempts: seq<Attempt>, msg: Message, limit: nat, from: Micros, i: nat, j: nat)
    requires limit > 1 && Clocked(attempts) && i <= j <= |Sent(attempts, msg, limit)|
    requires forall k :: i <= k < j ==> from <= Sent(attempts, msg, limit)[k] < from + SECOND
    ensures j - i < limit
  {
    if j - i >= limit {
      AnyWindowSpansASecond(attempts, msg, limit, i);
    }
  }

  /** Completeness: an attempt is refused exactly when `limit` - 1 transmissions of its kind
      fell into the second before it. */
  lemma RefusedIff(attempts: seq<Attempt>, msg: Message, limit: nat, now: Micros)
    requires limit > 1 && Clocked(attempts + [Attempt(msg, now)])
    ensures var sent := Sent(attempts, msg, limit);
            !Admits(sent, limit, now) <==>
              |sent| >= limit - 1 && forall k :: |sent| - (limit - 1) <= k < |sent| ==> now - SECOND < sent[k] <= now
  {
    var all := attempts + [Attempt(msg, now)];
    assert forall i :: 0 <= i < |attempts| ==> all[i] == attempts[i] && all[i].at <= all[|attempts|].at;
    SentInOrder(attempts, msg, limit, now);
  }

  /** So at most nine RREQs, and nine RERRs, leave in any second. */
  lemma NinePerSecond(attempts: seq<Attempt>, from: Micros, i: nat, j: nat, rreq: bool)
    requires Clocked(attempts)
    requires var sent := if rreq then Sent(attempts, Rreq, RREQ_RATELIMIT) else Sent(attempts, Rerr, RERR_RATELIMIT);
             i <= j <= |sent| && forall k :: i <= k < j ==> from <= sent[k] < from + 1_000_000
    ensures j - i <= 9
  {
    hide Sent;
    if rreq {
      FewPerSecond(attempts, Rreq, RREQ_RATELIMIT, from, i, j);
    } else {
      FewPerSecond(attempts, Rerr, RERR_RATELIMIT, from, i, j);
    }
  }

  /** Each kind is limited by itself: attempts of other kinds make no difference. */
  lemma {:induction false} KindsAreIndependent(attempts: seq<Attempt>, msg: Message, limit: nat)
    requires limit > 1
    ensures Sent(attempts, msg, limit) == Sent(OfKind(attempts, msg), msg, limit)
  {
    if attempts != [] {
      var init, a := attempts[..|attempts| - 1], attempts[|attempts| - 1];
      KindsAreIndependent(init, msg, limit);
      var kind := OfKind(init, msg);
      assert (kind + [a])[..|kind|] == kind;
    }
  }

  function OfKind(attempts: seq<Attempt>, msg: Message): seq<Attempt> {
    if attempts == [] then [] else
    var init, a := attempts[..|attempts| - 1], attempts[|attempts| - 1];
    if a.msg == msg then OfKind(init, msg) + [a] else OfKind(init, msg)
  }

  // ----- The arrays that the daemon keeps

  /** The last `n` elements. */
  function Last(s: seq<Micros>, n: nat): seq<Micros> {
    if |s| <= n then s else s[|s| - n..]
  }

  /** memmove one place down, then memcpy into the last place. */
  method ShiftIn(a: array<Micros>, now: Micros)
    requires a.Length > 0
    modifies a
    ensures a[..] == old(a[..])[1..] + [now]
  {
    forall i | 0 <= i < a.Length - 1 {
      a[i] := a[i + 1];
    }
    a[a.Length - 1] := now;
  }

  class Limiter {
    const rreqRatel: array<Micros>
    const rerrRatel: array<Micros>
    var numRreq: nat
    var numRerr: nat

    /** Every attempt made so far. */
    ghost var attempts: seq<Attempt>

    ghost predicate Valid()
      reads this, rreqRatel, rerrRatel
    {
      && rreqRatel.Length == RREQ_RATELIMIT - 1 && rerrRatel.Length == RERR_RATELIMIT - 1
      && rreqRatel != rerrRatel
      && numRreq <= rreqRatel.Length && numRerr <= rerrRatel.Length
      && rreqRatel[..numRreq] == Last(Sent(attempts, Rreq, RREQ_RATELIMIT), RREQ_RATELIMIT - 1)
      && rerrRatel[..numRerr] == Last(Sent(attempts, Rerr, RERR_RATELIMIT), RERR_RATELIMIT - 1)
    }

    constructor ()
      ensures Valid() && attempts == [] && fresh(rreqRatel) && fresh(rerrRatel)
    {
      rreqRatel := new Micros[RREQ_RATELIMIT - 1];
      rerrRatel := new Micros[RERR_RATELIMIT - 1];
      numRreq, numRerr, attempts := 0, 0, [];
    }

    /** The part of aodv_socket_send that decides whether a message leaves. */
    method Send(msg: Message, now: Micros) returns (sent: bool)
      requires Valid()
      modifies this, rreqRatel, rerrRatel
      ensures Valid() && attempts == old(attempts) + [Attempt(msg, now)]
      ensures msg == Rreq ==> sent == Admits(Sent(old(attempts), Rreq, RREQ_RATELIMIT), RREQ_RATELIMIT, now)
      ensures msg == Rerr ==> sent == Admits(Sent(old(attempts), Rerr, RERR_RATELIMIT), RERR_RATELIMIT, now)
      ensures msg != Rreq && msg != Rerr ==> sent
    {
      hide Sent, Extended, Admits, Last;
      sent := true;
      SentOneMore(attempts, msg, now, Rreq, RREQ_RATELIMIT);
      SentOneMore(attempts, msg, now, Rerr, RERR_RATELIMIT);
      ghost var rreqs, rerrs := Sent(attempts, Rreq, RREQ_RATELIMIT), Sent(attempts, Rerr, RERR_RATELIMIT);
      attempts := attempts + [Attempt(msg, now)];
      match msg
      case Rreq =>
        sent, numRreq := Check(rreqRatel, numRreq, now, rreqs);
      case Rerr =>
        sent, numRerr := Check(rerrRatel, numRerr, now, rerrs);
      case _ =>
    }
  }

  lemma SentOneMore(attempts: seq<Attempt>, msg: Message, now: Micros, kind: Message, limit: nat)
    requires limit > 1
    ensures var before := Sent(attempts, kind, limit);
            Sent(attempts + [Attempt(msg, now)], kind, limit) == if msg == kind then Extended(before, limit, now) else before
  {
    assert (attempts + [Attempt(msg, now)])[..|attempts|] == attempts;
  }

  /** The case of one kind of message: `ratel[..num]` are the last times of `history`. */
  method Check(ratel: array<Micros>, num: nat, now: Micros, ghost history: seq<Micros>) returns (sent: bool, num': nat)
    requires 0 < ratel.Length && num <= ratel.Length && ratel[..num] == Last(history, ratel.Length)
    modifies ratel
    ensures sent == Admits(history, ratel.Length + 1, now)
    ensures num' <= ratel.Length && ratel[..num'] == Last(Extended(history, ratel.Length + 1, now), ratel.Length)
  {
    num' := num;
    if num == ratel.Length {
      if TimevalDiff(now, ratel[0]) < 1000 {
        sent := false;
      } else {
        sent := true;
        ShiftIn(ratel, now);
      }
    } else {
      sent := true;
      ratel[num] := now;
      num' := num + 1;
    }
  }
}
