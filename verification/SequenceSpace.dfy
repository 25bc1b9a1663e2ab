/** TCP sequence space (RFC 9293, section 3.4) and its 64-bit extension. */
module SequenceSpace {
  // 32-bit sequence space, and the start of the internal 64-bit epoch.
  const TURN: nat := 0x1_0000_0000
  const HALF_TURN: nat := 0x8000_0000
  const INITIAL_SEQ_EPOCH: nat := TURN

  type Seq32 = x: nat | x < TURN

  /** Extends a wire sequence number to the absolute position nearest `reference`,
      saturating at zero as the program does. */
  function ExtendSeq(wire: Seq32, reference: nat): nat {
    var delta := (wire + TURN - reference % TURN) % TURN;
    if delta < HALF_TURN then reference + delta
    else if reference >= TURN - delta then reference - (TURN - delta)
    else 0
  }

  /** The window in which extension is unambiguous. */
  predicate InWindow(t: nat, reference: nat) {
    t < reference + HALF_TURN && reference <= t + HALF_TURN
  }

  /** From the first epoch on, extension never saturates and yields the one
      position of the window that is congruent to the wire number. */
  lemma ExtendSeqExact(wire: Seq32, reference: nat)
    requires reference >= INITIAL_SEQ_EPOCH
    ensures ExtendSeq(wire, reference) % TURN == wire
    ensures InWindow(ExtendSeq(wire, reference), reference)
    ensures forall t: nat | InWindow(t, reference) && t % TURN == wire :: t == ExtendSeq(wire, reference)
  {
    var q, r := reference / TURN, reference % TURN;
    assert reference == q * TURN + r;
    var e := ExtendSeq(wire, reference);
    assert e == q * TURN + wire || e == (q + 1) * TURN + wire || e == (q - 1) * TURN + wire;
    forall t: nat | InWindow(t, reference) && t % TURN == wire
      ensures t == e
    {
      assert t == t / TURN * TURN + wire;
    }
  }
}
