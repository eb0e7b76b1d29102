/** The fixed-window limiters of the draw gateway: one entry per socket, reset by the first event
    after the window, and the background sweep that drops stale entries. The stroke and the clear
    limiter differ only in their two constants, so both are instances of one class. */
module RateLimiter {

  import opened Common

  datatype Entry = Entry(count: nat, windowStart: int)

  datatype PolicyBase = Policy(limit: nat, window: nat)

  /** A limit and a window length in milliseconds; neither is zero. */
  type Policy = p: PolicyBase | p.limit >= 1 && p.window >= 1 witness Policy(5, 5_000)

  const STROKE: Policy := Policy(120, 1_000)
  const CLEAR: Policy := Policy(5, 5_000)

  type Table = map<SocketId, Entry>

  // ---------------------------------------------------------------------------
  // Specification of the three operations, on values
  // ---------------------------------------------------------------------------

  /** The entry an event leaves behind for its socket. */
  function EntryAfter(p: Policy, m: Table, s: SocketId, now: int): Entry {
    var e := if s in m then m[s] else Entry(0, now);
    if now - e.windowStart >= p.window then Entry(1, now) else e.(count := e.count + 1)
  }

  predicate Limited(p: Policy, m: Table, s: SocketId, now: int) {
    EntryAfter(p, m, s, now).count > p.limit
  }

  predicate Stale(p: Policy, e: Entry, now: int) {
    now - e.windowStart > p.window * 2
  }

  function Swept(p: Policy, m: Table, now: int): Table {
    map s | s in m && !Stale(p, m[s], now) :: m[s]
  }

  // ---------------------------------------------------------------------------
  // The limiter as the gateway keeps it
  // ---------------------------------------------------------------------------

  class Limiter {
    const policy: Policy
    var entries: Table

    constructor (policy: Policy)
      ensures this.policy == policy && entries == map[]
    {
      this.policy := policy;
      entries := map[];
    }

    method IsRateLimited(s: SocketId, now: int) returns (limited: bool)
      modifies this
      ensures limited == Limited(policy, old(entries), s, now)
      ensures entries == old(entries)[s := EntryAfter(policy, old(entries), s, now)]
    {
      var entry := if s in entries then entries[s] else Entry(0, now);
      if now - entry.windowStart >= policy.window {
        entry := Entry(1, now);
        entries := entries[s := entry];
        return false;
      }
      entry := entry.(count := entry.count + 1);
      entries := entries[s := entry];
      return entry.count > policy.limit;
    }

    /** One pass of the periodic cleanup: visits every entry, deletes the stale ones. */
    method Sweep(now: int) returns (cleaned: nat)
      modifies this
      ensures entries == Swept(policy, old(entries), now)
      ensures forall s :: s in entries <==> s in old(entries) && now - old(entries)[s].windowStart <= 2 * policy.window
      ensures forall s :: s in entries ==> entries[s] == old(entries)[s]
      ensures cleaned == |old(entries)| - |entries|
    {
      var pending := entries.Keys;
      cleaned := 0;
      while pending != {}
        invariant pending <= entries.Keys <= old(entries).Keys
        invariant forall s :: s in old(entries) && s !in pending ==>
                                (s in entries <==> !Stale(policy, old(entries)[s], now))
        invariant forall s :: s in entries ==> entries[s] == old(entries)[s]
        invariant cleaned + |entries| == |old(entries)|
        decreases pending
      {
        var s :| s in pending;
        pending := pending - {s};
        if Stale(policy, entries[s], now) {
          assert (entries - {s}).Keys == entries.Keys - {s};
          entries := entries - {s};
          cleaned := cleaned + 1;
        }
      }
    }

    /** What a disconnect does to the limiter. */
    method Forget(s: SocketId)
      modifies this
      ensures entries == old(entries) - {s}
    {
      entries := entries - {s};
    }
  }

  // ---------------------------------------------------------------------------
  // Runs
  // ---------------------------------------------------------------------------

  datatype Op = Event(s: SocketId, now: int) | Sweep(now: int) | Forget(s: SocketId)

  function After(p: Policy, m: Table, op: Op): Table {
    match op
    case Event(s, now) => m[s := EntryAfter(p, m, s, now)]
    case Sweep(now) => Swept(p, m, now)
    case Forget(s) => m - {s}
  }

  function Final(p: Policy, m: Table, ops: seq<Op>): Table
    decreases |ops|
  {
    if ops == [] then m else Final(p, After(p, m, ops[0]), ops[1..])
  }

  /** The clock never runs backwards, starting from t. */
  ghost predicate ClockFrom(ops: seq<Op>, t: int) {
    ops == [] ||
    (if ops[0].Forget? then ClockFrom(ops[1..], t) else ops[0].now >= t && ClockFrom(ops[1..], ops[0].now))
  }

  function EndOfClock(ops: seq<Op>, t: int): int {
    if ops == [] then t else EndOfClock(ops[1..], if ops[0].Forget? then t else ops[0].now)
  }

  /** What a client can observe of the limiter: for each event the decision and the entry left behind. */
  datatype Observation = Observation(s: SocketId, entry: Entry, limited: bool)

  function Observe(p: Policy, m: Table, ops: seq<Op>): seq<Observation>
    decreases |ops|
  {
    if ops == [] then []
    else
      var rest := Observe(p, After(p, m, ops[0]), ops[1..]);
      match ops[0]
      case Event(s, now) => [Observation(s, EntryAfter(p, m, s, now), Limited(p, m, s, now))] + rest
      case _ => rest
  }

  function WithoutSweeps(ops: seq<Op>): seq<Op> {
    if ops == [] then []
    else if ops[0].Sweep? then WithoutSweeps(ops[1..])
    else [ops[0]] + WithoutSweeps(ops[1..])
  }

  // ---------------------------------------------------------------------------
  // The sweep is unobservable
  // ---------------------------------------------------------------------------

  /** The swept table agrees with the unswept one except for entries that are already stale. */
  ghost predicate SameButStale(p: Policy, swept: Table, full: Table, t: int) {
    forall s :: (s in swept ==> s in full && full[s] == swept[s])
             && (s in full && s !in swept ==> Stale(p, full[s], t))
  }

  lemma {:induction false} SweepUnobservableFrom(p: Policy, swept: Table, full: Table, ops: seq<Op>, t: int)
    requires SameButStale(p, swept, full, t)
    requires ClockFrom(ops, t)
    ensures Observe(p, swept, ops) == Observe(p, full, WithoutSweeps(ops))
    decreases |ops|
  {
    if ops != [] {
      var op := ops[0];
      var t' := if op.Forget? then t else op.now;
      if op.Sweep? {
        SweepUnobservableFrom(p, After(p, swept, op), full, ops[1..], t');
      } else {
        assert WithoutSweeps(ops)[0] == op && WithoutSweeps(ops)[1..] == WithoutSweeps(ops[1..]);
        SweepUnobservableFrom(p, After(p, swept, op), After(p, full, op), ops[1..], t');
      }
    }
  }

  /** For every interleaving, dropping all sweeps changes no decision and no entry left by an event. */
  lemma SweepUnobservable(p: Policy, ops: seq<Op>, t: int)
    requires ClockFrom(ops, t)
    ensures Observe(p, map[], ops) == Observe(p, map[], WithoutSweeps(ops))
  {
    SweepUnobservableFrom(p, map[], map[], ops, t);
  }

  // ---------------------------------------------------------------------------
  // Counting over half-open intervals
  // ---------------------------------------------------------------------------

  /** Events of socket s admitted at a time in [lo, hi). */
  function Admitted(p: Policy, m: Table, ops: seq<Op>, s: SocketId, lo: int, hi: int): nat
    decreases |ops|
  {
    if ops == [] then 0
    else
      var rest := Admitted(p, After(p, m, ops[0]), ops[1..], s, lo, hi);
      if ops[0].Event? && ops[0].s == s && lo <= ops[0].now < hi && !Limited(p, m, s, ops[0].now)
      then rest + 1 else rest
  }

  /** Events of socket s, admitted or not, at a time in [lo, hi). */
  function Offered(ops: seq<Op>, s: SocketId, lo: int, hi: int): nat {
    if ops == [] then 0
    else
      var rest := Offered(ops[1..], s, lo, hi);
      if ops[0].Event? && ops[0].s == s && lo <= ops[0].now < hi then rest + 1 else rest
  }

  ghost predicate NoEventsOf(ops: seq<Op>, s: SocketId) {
    ops == [] || (!(ops[0].Event? && ops[0].s == s) && NoEventsOf(ops[1..], s))
  }

  /** Socket ids are fresh: once s is forgotten it sends nothing more. */
  ghost predicate NoReuse(ops: seq<Op>, s: SocketId) {
    ops == [] || (if ops[0] == Forget(s) then NoEventsOf(ops[1..], s) else NoReuse(ops[1..], s))
  }
}
