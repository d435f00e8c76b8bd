/** Destination sequence numbers: 32-bit values where 0 means "unknown".

    `Newer` is the signed 32-bit comparison of section 6.1 of RFC 3561.  `CodeNewer` is the
    comparison that the RREQ and RREP processing performs, which casts both operands and
    compares them; the two differ, and `ComparisonsAgree` says exactly when. */
module SeqNo {

  const WRAP: int := 0x1_0000_0000
  const HALF: int := 0x8000_0000

  type U32 = x: int | 0 <= x < 0x1_0000_0000

  /** One increment: unknown stays unknown, and the wrap skips 0. */
  function Incr(s: U32): U32 {
    if s == 0 then 0 else if s == 0xFFFF_FFFF then 1 else s + 1
  }

  /** The number after `k` increments. */
  function Advance(s: U32, k: nat): U32 {
    if k == 0 then s else Incr(Advance(s, k - 1))
  }

  /** The value of a 32-bit word read as a signed integer. */
  function Signed(x: U32): int {
    if x < HALF then x else x - WRAP
  }

  /** Section 6.1 of RFC 3561: subtract in signed 32-bit arithmetic and look at the sign. */
  predicate Newer(a: U32, b: U32) {
    Signed((a - b) % WRAP) > 0
  }

  /** The comparison written in the message handlers: both sides cast, then compared. */
  predicate CodeNewer(a: U32, b: U32) {
    Signed(a) > Signed(b)
  }

  /** Increments walk the cycle 1, 2, ..., 0xFFFFFFFF; an unknown number never moves. */
  lemma {:induction false} AdvanceClosedForm(s: U32, k: nat)
    ensures s == 0 ==> Advance(s, k) == 0
    ensures s != 0 ==> Advance(s, k) != 0
    ensures s != 0 ==> Advance(s, k) == 1 + (s - 1 + k) % (WRAP - 1)
  {
    if k > 0 {
      AdvanceClosedForm(s, k - 1);
    }
  }

  /** Exactly how far increments stay newer than where they started, over one whole cycle:
      skipping 0 costs one step of the window when the walk has wrapped. */
  lemma NewerWindow(s: U32, k: nat)
    requires s != 0 && 1 <= k < WRAP - 1
    ensures Newer(Advance(s, k), s) <==> k + (if s + k >= WRAP then 1 else 0) < HALF
  {
    AdvanceClosedForm(s, k);
  }

  /** Any number of increments up to 2^31 - 2 gives a newer number, wrapped or not. */
  lemma AdvanceIsNewer(s: U32, k: nat)
    requires s != 0 && 1 <= k <= HALF - 2
    ensures Newer(Advance(s, k), s) && !Newer(s, Advance(s, k))
  {
    AdvanceClosedForm(s, k);
    NewerWindow(s, k);
  }

  /** The handlers' comparison is the RFC's exactly when the difference of the signed
      values does not overflow 32 bits. */
  lemma ComparisonsAgree(a: U32, b: U32)
    ensures (CodeNewer(a, b) <==> Newer(a, b)) <==> -HALF <= Signed(a) - Signed(b) < HALF
  {
    var d := Signed(a) - Signed(b);
    assert (a - b) % WRAP == d % WRAP;
  }

  /** The first numbers on which they disagree: one increment over the sign boundary. */
  lemma ComparisonsDisagree()
    ensures Incr(0x7FFF_FFFF) == 0x8000_0000
    ensures Newer(0x8000_0000, 0x7FFF_FFFF) && !CodeNewer(0x8000_0000, 0x7FFF_FFFF)
  {
  }

  /** Within the window of `AdvanceIsNewer`, the handlers see an advanced number as newer
      exactly when the increments did not step from 0x7FFFFFFF to 0x80000000. */
  lemma CodeSeesAdvance(s: U32, k: nat)
    requires s != 0 && 1 <= k <= HALF - 2
    ensures CodeNewer(Advance(s, k), s) <==> !(s < HALF <= s + k)
  {
    AdvanceClosedForm(s, k);
  }
}
