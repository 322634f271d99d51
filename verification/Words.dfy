/** Fixed-width words of the C sources, and the wrapping clock arithmetic they share. */
module Words {
  const TWO_31 := 0x8000_0000
  const TWO_32 := 0x1_0000_0000

  type byte = x: int | 0 <= x < 256
  type uint32 = x: int | 0 <= x < TWO_32

  /** What a 32-bit counter shows when the true time is t. */
  function Low32(t: int): (r: uint32) {
    t % TWO_32
  }

  /** A 32-bit word read as int32_t. */
  function Signed32(x: uint32): int {
    if x < TWO_31 then x else x - TWO_32
  }

  /** (int32_t)(a - b) on two 32-bit counter readings. */
  function Diff32(a: int, b: int): int {
    Signed32(Low32(a - b))
  }

  /** The guard every timeout of the sources uses: (int32_t)(now - deadline) >= 0. */
  predicate Expired(now: int, deadline: int) {
    Diff32(now, deadline) >= 0
  }

  /** The difference is the same whether taken on true times or on the readings. */
  lemma Diff32OfReadings(a: int, b: int)
    ensures Diff32(Low32(a), Low32(b)) == Diff32(a, b)
  {}

  /** A deadline computed on the reading is the reading of the true deadline. */
  lemma Low32Sum(t: int, n: int)
    ensures Low32(Low32(t) + n) == Low32(t + n)
  {}

  /** A small true distance is measured exactly. */
  lemma Diff32Exact(a: int, b: int)
    requires -TWO_31 <= a - b < TWO_31
    ensures Diff32(a, b) == a - b
  {}

  /** Whatever the counter measures, at least that much true time has passed. */
  lemma Diff32NeverOverstates(now: int, last: int)
    requires last <= now
    ensures Diff32(now, last) <= now - last
  {}

  /** A timeout armed at `armed` for n ticks is reported expired before its time. */
  predicate FiresEarly(armed: nat, n: nat, now: int) {
    armed <= now < armed + n && Expired(now, armed + n)
  }

  /** A timeout never fires early exactly when it fits half the counter: a longer one is
      seen as already expired the moment it is armed. */
  lemma NeverEarlyIff(armed: nat, n: nat)
    requires n < TWO_32
    ensures (forall now :: !FiresEarly(armed, n, now)) <==> n <= TWO_31
  {
    if n > TWO_31 {
      assert FiresEarly(armed, n, armed);
    }
  }

  /** A byte's number fits a bit-vector byte and comes back. */
  lemma ThereAndBack(n: nat)
    requires n < 256
    ensures (n as bv8) as nat == n
  {
    if n < 16 {} else if n < 32 {} else if n < 64 {} else if n < 128 {} else {}
  }
}
