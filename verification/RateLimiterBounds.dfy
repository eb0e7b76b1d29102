/** What the limiters guarantee over arbitrary intervals of time, with sweeps, disconnects and
    other sockets interleaved: never more than (k+1)*limit - 1 admissions in k windows, a bound
    that some run attains, and no refusal unless the socket's current window is full. */
module RateLimiterBounds {
  import opened Common
  import opened RateLimiter

  function Min(a: nat, b: nat): nat { if a < b then a else b }

  /** Admissions left in the socket's current window. */
  function Budget(p: Policy, m: Table, s: SocketId): nat {
    if s in m && m[s].count < p.limit then p.limit - m[s].count else 0
  }

  lemma {:induction false} NothingAdmittedWithoutEvents(p: Policy, m: Table, ops: seq<Op>, s: SocketId, lo: int,
      hi: int)
    requires NoEventsOf(ops, s)
    ensures Admitted(p, m, ops, s, lo, hi) == 0
    decreases |ops|
  {
    if ops != [] { NothingAdmittedWithoutEvents(p, After(p, m, ops[0]), ops[1..], s, lo, hi); }
  }

  lemma {:induction false} NothingAdmittedAfterInterval(p: Policy, m: Table, ops: seq<Op>, s: SocketId, lo: int,
      hi: int, t: int)
    requires ClockFrom(ops, t) && hi <= t
    ensures Admitted(p, m, ops, s, lo, hi) == 0
    decreases |ops|
  {
    if ops != [] {
      NothingAdmittedAfterInterval(p, After(p, m, ops[0]), ops[1..], s, lo, hi, if ops[0].Forget? then t
          else ops[0].now);
    }
  }

  /** From a point inside the interval: what is left of the current window, plus `limit` for each of
      the j windows that can still open at or after a. */
  lemma {:induction false} AdmittedFromInside(p: Policy, m: Table, ops: seq<Op>, s: SocketId, lo: int, hi: int, a: int,
      j: nat, t: int)
    requires ClockFrom(ops, t) && NoReuse(ops, s)
    requires hi <= a + j * p.window
    requires a <= t || (s in m && a <= m[s].windowStart + p.window)
    ensures Admitted(p, m, ops, s, lo, hi) <= Budget(p, m, s) + j * p.limit
    decreases |ops|
  {
    if ops == [] {
    } else if ops[0] == Forget(s) {
      NothingAdmittedWithoutEvents(p, After(p, m, ops[0]), ops[1..], s, lo, hi);
    } else if ops[0].Event? && ops[0].s == s && !(s in m && ops[0].now - m[s].windowStart < p.window) {
      var x := ops[0].now;
      if hi <= x {
        NothingAdmittedAfterInterval(p, After(p, m, ops[0]), ops[1..], s, lo, hi, x);
      } else {
        assert j >= 1;
        assert j * p.window == (j - 1) * p.window + p.window;
        AdmittedFromInside(p, After(p, m, ops[0]), ops[1..], s, lo, hi, x + p.window, j - 1, x);
        assert j * p.limit == (j - 1) * p.limit + p.limit;
      }
    } else {
      AdmittedFromInside(p, After(p, m, ops[0]), ops[1..], s, lo, hi, a, j, if ops[0].Forget? then t else ops[0].now);
    }
  }

  lemma {:induction false} WindowBoundFrom(p: Policy, m: Table, ops: seq<Op>, s: SocketId, lo: int, k: nat, t: int)
    requires k >= 1
    requires ClockFrom(ops, t) && NoReuse(ops, s)
    requires s in m ==> m[s].count >= 1
    ensures Admitted(p, m, ops, s, lo, lo + k * p.window) <= (k + 1) * p.limit - 1
    decreases |ops|
  {
    var hi := lo + k * p.window;
    assert (k + 1) * p.limit == k * p.limit + p.limit;
    assert k * p.limit >= 0 by { MulNonNeg(k, p.limit); }
    if ops == [] {
    } else if ops[0].Forget? || ops[0].now < lo {
      if ops[0] == Forget(s) {
        NothingAdmittedWithoutEvents(p, After(p, m, ops[0]), ops[1..], s, lo, hi);
      } else {
        WindowBoundFrom(p, After(p, m, ops[0]), ops[1..], s, lo, k, if ops[0].Forget? then t else ops[0].now);
      }
    } else {
      AdmittedFromInside(p, m, ops, s, lo, hi, lo, k, ops[0].now);
    }
  }

  lemma MulNonNeg(a: nat, b: nat)
    ensures a * b >= 0
  {
  }

  /** Any half-open interval of k >= 1 windows contains at most (k+1)*limit - 1 admitted events of a socket. */
  lemma WindowBound(p: Policy, ops: seq<Op>, s: SocketId, lo: int, k: nat, t: int)
    requires k >= 1
    requires ClockFrom(ops, t) && NoReuse(ops, s)
    ensures Admitted(p, map[], ops, s, lo, lo + k * p.window) <= (k + 1) * p.limit - 1
  {
    WindowBoundFrom(p, map[], ops, s, lo, k, t);
  }

  /** In any k seconds fewer than 120 * (k+1) strokes of a socket get through, and in any k times five seconds fewer
      than 5 * (k+1) clears. */
  lemma StrokesAndClears(ops: seq<Op>, s: SocketId, lo: int, k: nat, t: int)
    requires k >= 1
    requires ClockFrom(ops, t) && NoReuse(ops, s)
    ensures Admitted(STROKE, map[], ops, s, lo, lo + 1_000 * k) < 120 * (k + 1)
    ensures Admitted(CLEAR, map[], ops, s, lo, lo + 5_000 * k) < 5 * (k + 1)
  {
    WindowBound(STROKE, ops, s, lo, k, t);
    WindowBound(CLEAR, ops, s, lo, k, t);
  }

  /** And none is refused that is among the first 120 of its second, or the first five of its five seconds. */
  lemma QuietStrokesAndClears(ops: seq<Op>, s: SocketId, t: int, x: int)
    requires ClockFrom(ops, t) && NoReuse(ops, s) && EndOfClock(ops, t) <= x
    ensures Offered(ops, s, x - 999, x + 1) < 120 ==> !Limited(STROKE, Final(STROKE, map[], ops), s, x)
    ensures Offered(ops, s, x - 4_999, x + 1) < 5 ==> !Limited(CLEAR, Final(CLEAR, map[], ops), s, x)
  {
    if Offered(ops, s, x - 999, x + 1) < 120 {
      QuietSocketIsAdmitted(STROKE, ops, s, t, x);
    }
    if Offered(ops, s, x - 4_999, x + 1) < 5 {
      QuietSocketIsAdmitted(CLEAR, ops, s, t, x);
    }
  }

  // ---------------------------------------------------------------------------
  // Refusals
  // ---------------------------------------------------------------------------

  /** The entry's counter is exactly the number of admissions since its window opened, up to the limit. */
  lemma {:induction false} CounterCountsWindow(p: Policy, m: Table, ops: seq<Op>, s: SocketId, t: int, hi: int)
    requires ClockFrom(ops, t) && NoReuse(ops, s)
    requires EndOfClock(ops, t) < hi
    requires s in m ==> m[s].windowStart <= t
    requires s in Final(p, m, ops)
    ensures var e := Final(p, m, ops)[s];
            (s in m && m[s].windowStart == e.windowStart && e.count >= m[s].count &&
             Admitted(p, m, ops, s, e.windowStart, hi) == Min(e.count, p.limit) - Min(m[s].count, p.limit))
            || ((s in m ==> m[s].windowStart + p.window <= e.windowStart) && (s !in m ==> t <= e.windowStart) &&
                Admitted(p, m, ops, s, e.windowStart, hi) == Min(e.count, p.limit))
    decreases |ops|
  {
    if ops != [] {
      var m' := After(p, m, ops[0]);
      var t' := if ops[0].Forget? then t else ops[0].now;
      EndOfClockBounds(ops[1..], t');
      if ops[0] == Forget(s) {
        AbsentWithoutEvents(p, m', ops[1..], s);
      } else {
        CounterCountsWindow(p, m', ops[1..], s, t', hi);
      }
    }
  }

  lemma {:induction false} EndOfClockBounds(ops: seq<Op>, t: int)
    requires ClockFrom(ops, t)
    ensures EndOfClock(ops, t) >= t
  {
    if ops != [] { EndOfClockBounds(ops[1..], if ops[0].Forget? then t else ops[0].now); }
  }

  lemma {:induction false} AbsentWithoutEvents(p: Policy, m: Table, ops: seq<Op>, s: SocketId)
    requires NoEventsOf(ops, s) && s !in m
    ensures s !in Final(p, m, ops)
    decreases |ops|
  {
    if ops != [] { AbsentWithoutEvents(p, After(p, m, ops[0]), ops[1..], s); }
  }

  lemma {:induction false} AdmittedMonotone(p: Policy, m: Table, ops: seq<Op>, s: SocketId, lo: int, lo': int, hi: int)
    requires lo <= lo'
    ensures Admitted(p, m, ops, s, lo', hi) <= Admitted(p, m, ops, s, lo, hi) <= Offered(ops, s, lo, hi)
    decreases |ops|
  {
    if ops != [] { AdmittedMonotone(p, After(p, m, ops[0]), ops[1..], s, lo, lo', hi); }
  }

  /** An event is refused exactly when its socket's window is still open and already holds `limit` admissions. */
  lemma RefusedIffWindowFull(p: Policy, ops: seq<Op>, s: SocketId, t: int, x: int)
    requires ClockFrom(ops, t) && NoReuse(ops, s) && EndOfClock(ops, t) <= x
    ensures var m := Final(p, map[], ops);
            Limited(p, m, s, x) <==>
            s in m && x - m[s].windowStart < p.window
            && Admitted(p, map[], ops, s, m[s].windowStart, x + 1) == p.limit
  {
    if s in Final(p, map[], ops) {
      CounterCountsWindow(p, map[], ops, s, t, x + 1);
    }
  }

  /** A socket that offered fewer than `limit` events during the last window is never refused. */
  lemma QuietSocketIsAdmitted(p: Policy, ops: seq<Op>, s: SocketId, t: int, x: int)
    requires ClockFrom(ops, t) && NoReuse(ops, s) && EndOfClock(ops, t) <= x
    requires Offered(ops, s, x - p.window + 1, x + 1) < p.limit
    ensures !Limited(p, Final(p, map[], ops), s, x)
  {
    RefusedIffWindowFull(p, ops, s, t, x);
    var m := Final(p, map[], ops);
    if Limited(p, m, s, x) {
      AdmittedMonotone(p, map[], ops, s, x - p.window + 1, m[s].windowStart, x + 1);
    }
  }

  // ---------------------------------------------------------------------------
  // The bound is attained
  // ---------------------------------------------------------------------------

  function Burst(s: SocketId, x: int, n: nat): seq<Op> {
    if n == 0 then [] else [Event(s, x)] + Burst(s, x, n - 1)
  }

  /** Bursts of `limit` events, one window apart. */
  function Bursts(p: Policy, s: SocketId, x: int, k: nat): seq<Op>
    decreases k
  {
    if k == 0 then [] else Burst(s, x, p.limit) + Bursts(p, s, x + p.window, k - 1)
  }

  lemma {:induction false} BurstKeepsClock(s: SocketId, x: int, n: nat, rest: seq<Op>)
    requires ClockFrom(rest, x) && NoReuse(rest, s)
    ensures ClockFrom(Burst(s, x, n) + rest, x) && NoReuse(Burst(s, x, n) + rest, s)
  {
    if n == 0 {
      assert [] + rest == rest;
    } else {
      var tail := Burst(s, x, n - 1) + rest;
      assert Burst(s, x, n) + rest == [Event(s, x)] + tail;
      assert ([Event(s, x)] + tail)[1..] == tail;
      BurstKeepsClock(s, x, n - 1, rest);
    }
  }

  /** A burst that fits the open window is admitted in full. */
  lemma {:induction false} BurstAdmitted(p: Policy, m: Table, s: SocketId, e: Entry, x: int, n: nat, rest: seq<Op>,
      lo: int, hi: int)
    requires 0 <= x - e.windowStart < p.window && e.count + n <= p.limit
    requires lo <= x < hi
    ensures Admitted(p, m[s := e], Burst(s, x, n) + rest, s, lo, hi)
         == n + Admitted(p, m[s := Entry(e.count + n, e.windowStart)], rest, s, lo, hi)
    decreases n
  {
    if n == 0 {
      assert [] + rest == rest;
    } else {
      var tail := Burst(s, x, n - 1) + rest;
      var e1 := Entry(e.count + 1, e.windowStart);
      assert Burst(s, x, n) + rest == [Event(s, x)] + tail;
      AdmittedStep(p, m[s := e], Event(s, x), tail, s, lo, hi);
      assert m[s := e][s := e1] == m[s := e1];
      BurstAdmitted(p, m, s, e1, x, n - 1, rest, lo, hi);
    }
  }

  /** One unfolding of Admitted for an event of s inside the interval that is let through. */
  lemma AdmittedStep(p: Policy, m: Table, op: Op, tail: seq<Op>, s: SocketId, lo: int, hi: int)
    requires op.Event? && op.s == s && lo <= op.now < hi && !Limited(p, m, s, op.now)
    ensures Admitted(p, m, [op] + tail, s, lo, hi) == 1 + Admitted(p, After(p, m, op), tail, s, lo, hi)
  {
    assert ([op] + tail)[1..] == tail;
  }

  lemma {:induction false} BurstsKeepClock(p: Policy, s: SocketId, x: int, k: nat)
    ensures ClockFrom(Bursts(p, s, x, k), x) && NoReuse(Bursts(p, s, x, k), s)
    decreases k
  {
    if k != 0 {
      var rest := Bursts(p, s, x + p.window, k - 1);
      BurstsKeepClock(p, s, x + p.window, k - 1);
      ClockWeaken(rest, x + p.window, x);
      BurstKeepsClock(s, x, p.limit, rest);
    }
  }

  /** A burst that opens a new window is admitted in full. */
  lemma FirstBurstAdmitted(p: Policy, m: Table, s: SocketId, x: int, rest: seq<Op>, lo: int, hi: int)
    requires s in m && x - m[s].windowStart >= p.window && lo <= x < hi
    ensures Admitted(p, m, Burst(s, x, p.limit) + rest, s, lo, hi)
         == p.limit + Admitted(p, m[s := Entry(p.limit, x)], rest, s, lo, hi)
  {
    var tail := Burst(s, x, p.limit - 1) + rest;
    assert Burst(s, x, p.limit) + rest == [Event(s, x)] + tail;
    AdmittedStep(p, m, Event(s, x), tail, s, lo, hi);
    BurstAdmitted(p, m, s, Entry(1, x), x, p.limit - 1, rest, lo, hi);
  }

  lemma {:induction false} BurstsAdmitted(p: Policy, m: Table, s: SocketId, x: int, k: nat, lo: int, hi: int)
    requires s in m && x - m[s].windowStart >= p.window
    requires lo <= x && x + k * p.window < hi + p.window
    ensures Admitted(p, m, Bursts(p, s, x, k), s, lo, hi) == k * p.limit
    decreases k
  {
    if k != 0 {
      assert k * p.window == (k - 1) * p.window + p.window;
      assert k * p.limit == (k - 1) * p.limit + p.limit;
      assert x < hi by { MulNonNeg(k - 1, p.window); }
      FirstBurstAdmitted(p, m, s, x, Bursts(p, s, x + p.window, k - 1), lo, hi);
      BurstsAdmitted(p, m[s := Entry(p.limit, x)], s, x + p.window, k - 1, lo, hi);
    }
  }

  lemma ClockWeaken(ops: seq<Op>, t: int, t': int)
    requires ClockFrom(ops, t) && t' <= t
    ensures ClockFrom(ops, t')
  {
  }

  /** For every k, s and lo some run admits exactly (k+1)*limit - 1 events in [lo, lo + k*window). */
  lemma BoundIsAttained(p: Policy, s: SocketId, lo: int, k: nat) returns (ops: seq<Op>)
    requires k >= 1 && p.window >= 2
    ensures ClockFrom(ops, lo - 1) && NoReuse(ops, s)
    ensures Admitted(p, map[], ops, s, lo, lo + k * p.window) == (k + 1) * p.limit - 1
  {
    var hi := lo + k * p.window;
    var x := lo - 1 + p.window;
    var rest := Bursts(p, s, x, k);
    var first := Event(s, lo - 1);
    var m1: Table := map[s := Entry(1, lo - 1)];
    var m2: Table := map[s := Entry(p.limit, lo - 1)];
    ops := [first] + (Burst(s, lo, p.limit - 1) + rest);
    assert ops[0] == first && ops[1..] == Burst(s, lo, p.limit - 1) + rest;
    BurstsAdmitted(p, m2, s, x, k, lo, hi);
    BurstsKeepClock(p, s, x, k);
    ClockWeaken(rest, x, lo);
    assert lo < hi by { assert k * p.window == (k - 1) * p.window + p.window; MulNonNeg(k - 1, p.window); }
    BurstKeepsClock(s, lo, p.limit - 1, rest);
    BurstAdmitted(p, map[], s, Entry(1, lo - 1), lo, p.limit - 1, rest, lo, hi);
    assert After(p, map[], first) == m1;
    assert (k + 1) * p.limit == k * p.limit + p.limit;
  }
}
