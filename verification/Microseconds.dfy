/** Timestamps as the ledger stores them: whole microseconds since the epoch. */
module Microseconds {
  import opened Wrappers

  const PER_DAY: int := 86_400_000_000
  const PER_SECOND: int := 1_000_000

  /** A difference from the epoch in its normal form; only the days may be negative. */
  datatype Delta = Delta(days: int, seconds: int, micros: int)

  predicate Normal(d: Delta) {
    0 <= d.seconds < 86_400 && 0 <= d.micros < PER_SECOND
  }

  /** Refuses an instant before the epoch. */
  function Encode(d: Delta): Option<nat> {
    var us := d.days * PER_DAY + d.seconds * PER_SECOND + d.micros;
    if us < 0 then None else Some(us)
  }

  function Decode(us: nat): Delta {
    Delta(us / PER_DAY, us % PER_DAY / PER_SECOND, us % PER_SECOND)
  }

  predicate Before(d: Delta, e: Delta) {
    d.days < e.days || (d.days == e.days && (d.seconds < e.seconds || (d.seconds == e.seconds && d.micros < e.micros)))
  }

  /** Stored and read back an instant is the same, every stored number is some instant, and the
      stored order is the order of time. */
  lemma RoundTrips(d: Delta, e: Delta, us: nat)
    requires Normal(d) && Normal(e)
    ensures Encode(d).Some? <==> d.days >= 0
    ensures Encode(d).Some? ==> Decode(Encode(d).value) == d
    ensures Normal(Decode(us)) && Encode(Decode(us)) == Some(us)
    ensures Encode(d).Some? && Encode(e).Some? ==> (Encode(d).value < Encode(e).value <==> Before(d, e))
  {
    if d.days >= 0 {
      var rest := d.seconds * PER_SECOND + d.micros;
      var n := d.days * PER_DAY + rest;
      assert n / PER_DAY == d.days && n % PER_DAY == rest;
      assert n % PER_SECOND == d.micros by {
        assert n == (d.days * 86_400 + d.seconds) * PER_SECOND + d.micros;
      }
    }
    assert us % PER_SECOND == us % PER_DAY % PER_SECOND by {
      assert us == us / PER_DAY * 86_400 * PER_SECOND + us % PER_DAY;
    }
  }
}
