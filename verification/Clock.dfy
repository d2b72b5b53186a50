/** The folded millisecond clock of the timers: gettimeofday reduced to a period of ten thousand
    seconds, and the expiry times computed from it. */
module Clock {

  /** A reading of gettimeofday. */
  datatype Time = Time(sec: nat, usec: nat)

  predicate WellFormed(t: Time) {
    t.usec < 1_000_000
  }

  const PERIOD: int := 10_000_000
  const INT_MIN: int := -0x8000_0000
  const INT_MAX: int := 0x7fff_ffff

  /** Real time, in whole milliseconds. */
  function Millis(t: Time): nat {
    t.sec * 1000 + t.usec / 1000
  }

  /** What the program computes from a reading. */
  function Folded(t: Time): nat {
    (t.sec % 10000) * 1000 + t.usec / 1000
  }

  /** Conversion of a signed 64-bit value to size_t. */
  function SizeT(x: int): nat {
    x % 0x1_0000_0000_0000_0000
  }

  /** expiredTime_ of a timer set at t for the given (int) number of milliseconds. */
  function Expiry(t: Time, timeout: int): nat {
    SizeT(Folded(t) + timeout)
  }

  /** The verdict of isValid. */
  predicate StillValid(now: Time, expiredTime: nat) {
    Folded(now) < expiredTime
  }

  /** Which ten-thousand-second period a reading falls into. */
  function Epoch(t: Time): nat {
    Millis(t) / PERIOD
  }

  lemma FoldIsModulo(t: Time)
    requires WellFormed(t)
    ensures Folded(t) == Millis(t) % PERIOD
    ensures Epoch(t) == t.sec / 10000
    ensures Millis(t) == Epoch(t) * PERIOD + Folded(t)
  {}

  /** For any timeout, what the verdict means in real time: the deadline moves by one period with every
      period that begins between setting the timer and looking at it. A timeout so negative that the
      sum is below zero wraps round and never expires. */
  lemma VerdictExactly(t0: Time, timeout: int, now: Time)
    requires WellFormed(t0) && WellFormed(now) && INT_MIN <= timeout <= INT_MAX
    ensures Folded(t0) + timeout >= 0 ==>
              (StillValid(now, Expiry(t0, timeout)) <==>
               Millis(now) < Millis(t0) + timeout + (Epoch(now) - Epoch(t0)) * PERIOD)
    ensures Folded(t0) + timeout < 0 ==> StillValid(now, Expiry(t0, timeout))
  {
    FoldIsModulo(t0);
    FoldIsModulo(now);
  }

  /** In real time: the verdict is wrong exactly in the window that begins with the real deadline and
      lasts for as many periods as have begun since the timer was set. There the timer is late; it is
      never early, and within one period it is always right. */
  lemma AgreesWithRealTimeExactly(t0: Time, timeout: int, now: Time)
    requires WellFormed(t0) && WellFormed(now) && 0 <= timeout <= INT_MAX && Millis(t0) <= Millis(now)
    ensures (StillValid(now, Expiry(t0, timeout)) <==> Millis(now) < Millis(t0) + timeout)
            <==> !(Millis(t0) + timeout <= Millis(now)
                   < Millis(t0) + timeout + (Epoch(now) - Epoch(t0)) * PERIOD)
    ensures Epoch(now) == Epoch(t0) ==>
              (StillValid(now, Expiry(t0, timeout)) <==> Millis(now) < Millis(t0) + timeout)
  {
    VerdictExactly(t0, timeout, now);
    FoldIsModulo(t0);
    FoldIsModulo(now);
    assert Epoch(now) >= Epoch(t0);
  }

  /** A timer never expires by itself exactly when its expiry falls outside one period: it was set too
      close to the end of the period for its timeout, or its timeout is too negative. */
  lemma NeverExpiresExactly(t0: Time, timeout: int)
    requires WellFormed(t0) && INT_MIN <= timeout <= INT_MAX
    ensures (forall now: Time ::
               WellFormed(now) && Millis(t0) <= Millis(now) ==> StillValid(now, Expiry(t0, timeout)))
            <==> (Folded(t0) + timeout >= PERIOD || Folded(t0) + timeout < 0)
  {
    if 0 <= Folded(t0) + timeout < PERIOD {
      var last := Time(t0.sec / 10000 * 10000 + 9999, 999_999);
      assert last.sec % 10000 == 9999 && last.sec >= t0.sec;
      assert t0.usec / 1000 <= 999;
      assert Folded(last) == PERIOD - 1 && Millis(t0) <= Millis(last);
      assert !StillValid(last, Expiry(t0, timeout));
    } else {
      forall now: Time | WellFormed(now) && Millis(t0) <= Millis(now)
        ensures StillValid(now, Expiry(t0, timeout))
      {
        VerdictExactly(t0, timeout, now);
        FoldIsModulo(now);
      }
    }
  }

  /** A keep-alive connection (300000 ms) set up in the last five minutes of a period keeps its timer
      for ever. */
  lemma KeepAliveLeak(t0: Time, now: Time)
    requires WellFormed(t0) && WellFormed(now) && Folded(t0) >= 9_700_000
    ensures StillValid(now, Expiry(t0, 300_000))
  {}
}
