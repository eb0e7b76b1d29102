/** The number a retention sweep reports against what it removed, for every run of the backup machine. */
module BackupCounts {
  import opened Ordering
  import opened BackupModel
  import opened BackupSafety
  import opened BackupTheorems

  predicate Removed(y: System, d: Removal) {
    d in y.deletions && !y.deletions[d].progress.MetaPending? && y.deletions[d].progress.removed
  }

  predicate Counted(y: System, d: Removal) {
    d in y.deletions && (y.deletions[d].progress.FilePending? || y.deletions[d].progress.Fulfilled?)
  }

  /** Each record that is gone was taken out by exactly one deletion. */
  ghost predicate LedgerKept(y: System) {
    && (forall d :: Removed(y, d) ==> d.record !in y.mongo.records && d.record in y.mongo.usedRecords)
    && (forall c, d :: Removed(y, c) && Removed(y, d) && c.record == d.record ==> c == d)
    && (forall d :: d in y.deletions && d.record !in y.mongo.records ==> TakenOut(y, d.record))
  }

  ghost predicate TakenOut(y: System, r: RecordId) {
    exists c :: Removed(y, c) && c.record == r
  }

  function CountedBy(y: System, s: SweepId): set<Removal> {
    set d | d in y.deletions && d.sweep == s && Counted(y, d)
  }

  function RemovalsBy(y: System, s: SweepId): set<Removal> {
    set d | d in y.deletions && d.sweep == s && Removed(y, d)
  }

  /** What a sweep's caller is told, and what it did. */
  function CountOf(y: System, s: SweepId): nat {
    |CountedBy(y, s)|
  }

  function RemovedBy(y: System, s: SweepId): nat {
    |RemovalsBy(y, s)|
  }

  // ---------------------------------------------------------------------------
  // The calls of a run
  // ---------------------------------------------------------------------------

  /** A sweep's record deletions by how they end: acknowledged, taking their record out, finding it gone although
      acknowledged, and taking it out although failing. */
  datatype Tally = Tally(acknowledged: nat, taken: nat, gone: nat, late: nat)

  function One(b: bool): nat {
    if b then 1 else 0
  }

  function TallyOne(y: System, e: Event, s: SweepId): Tally {
    if !(e.DeleteMeta? && e.d.sweep == s) then Tally(0, 0, 0, 0)
    else
      var there := e.d.record in y.mongo.records;
      Tally(One(e.outcome == Succeeds), One(there && e.outcome != FailsBefore),
            One(!there && e.outcome == Succeeds), One(there && e.outcome == FailsAfter))
  }

  function Sum(a: Tally, b: Tally): Tally {
    Tally(a.acknowledged + b.acknowledged, a.taken + b.taken, a.gone + b.gone, a.late + b.late)
  }

  ghost function TallyOf(k: Tools, y: System, es: seq<Event>, s: SweepId): Tally
    requires PossibleRun(k, y, es)
    decreases |es|
  {
    if es == [] then Tally(0, 0, 0, 0) else Sum(TallyOne(y, es[0], s), TallyOf(k, Step(k, y, es[0]), es[1..], s))
  }

  lemma DeleteMetaSettles(y: System, d: Removal, outcome: Outcome, s: SweepId)
    requires d in y.deletions && y.deletions[d].progress.MetaPending?
    ensures d !in CountedBy(y, s) && d !in RemovalsBy(y, s)
    ensures var y' := AfterDeleteMeta(y, d, outcome);
            && CountedBy(y', s) == CountedBy(y, s) + (if d.sweep == s && outcome == Succeeds then {d} else {})
            && RemovalsBy(y', s) == RemovalsBy(y, s) +
                 (if d.sweep == s && outcome != FailsBefore && d.record in y.mongo.records then {d} else {})
  {
    var y' := AfterDeleteMeta(y, d, outcome);
    forall c | c != d
      ensures c in CountedBy(y', s) <==> c in CountedBy(y, s)
      ensures c in RemovalsBy(y', s) <==> c in RemovalsBy(y, s)
    {
    }
  }

  lemma SweepSettlesNothing(y: System, s: SweepId, keep: int, listing: seq<RecordId>, t: SweepId)
    requires NewestFirst(listing, PeriodicTimes(y.mongo)) && forall d :: d in y.deletions ==> d.sweep != s
    ensures var y' := AfterSweep(y, s, keep, listing);
            CountedBy(y', t) == CountedBy(y, t) && RemovalsBy(y', t) == RemovalsBy(y, t)
  {
    var y' := AfterSweep(y, s, keep, listing);
    SweepStarts(y, s, keep, listing);
    forall d
      ensures d in CountedBy(y', t) <==> d in CountedBy(y, t)
      ensures d in RemovalsBy(y', t) <==> d in RemovalsBy(y, t)
    {
      if d in y'.deletions && d !in y.deletions {
        assert y'.deletions[d].progress == MetaPending;
      }
    }
  }

  lemma DeleteFileSettlesNothing(y: System, d: Removal, outcome: Outcome, s: SweepId)
    requires d in y.deletions && y.deletions[d].progress.FilePending?
    ensures var y' := AfterDeleteFile(y, d, outcome);
            CountedBy(y', s) == CountedBy(y, s) && RemovalsBy(y', s) == RemovalsBy(y, s)
  {
  }

  lemma OthersSettleNothing(k: Tools, y: System, e: Event, s: SweepId)
    requires Possible(k, y, e) && !e.DeleteMeta?
    ensures CountedBy(Step(k, y, e), s) == CountedBy(y, s) && RemovalsBy(Step(k, y, e), s) == RemovalsBy(y, s)
  {
    if e.Sweep? {
      SweepSettlesNothing(y, e.s, e.keep, e.listing, s);
    } else if e.DeleteFile? {
      DeleteFileSettlesNothing(y, e.d, e.outcome, s);
    } else {
      OthersKeepDeletions(k, y, e);
    }
  }

  lemma OthersKeepDeletions(k: Tools, y: System, e: Event)
    requires Possible(k, y, e) && !e.DeleteMeta? && !e.DeleteFile? && !e.Sweep?
    ensures Step(k, y, e).deletions == y.deletions
  {
  }

  lemma {:induction false} SetsFollowTally(k: Tools, y: System, es: seq<Event>, s: SweepId)
    requires PossibleRun(k, y, es)
    ensures CountOf(Run(k, y, es), s) == CountOf(y, s) + TallyOf(k, y, es, s).acknowledged
    ensures RemovedBy(Run(k, y, es), s) == RemovedBy(y, s) + TallyOf(k, y, es, s).taken
    ensures var t := TallyOf(k, y, es, s); t.taken + t.gone == t.acknowledged + t.late
    decreases |es|
  {
    if es != [] {
      var e := es[0];
      if e.DeleteMeta? {
        DeleteMetaSettles(y, e.d, e.outcome, s);
      } else {
        OthersSettleNothing(k, y, e, s);
      }
      SetsFollowTally(k, Step(k, y, e), es[1..], s);
    }
  }

  /** Over every run, however the deletions of any number of sweeps interleave: a sweep counts its acknowledged
      deletions and has removed the records its deletions took out. The two numbers are equal if and only if as many
      of its deletions found their record gone and succeeded as took theirs out and failed. */
  lemma CountIsExactIff(k: Tools, y0: System, es: seq<Event>, s: SweepId)
    requires Start(y0) && PossibleRun(k, y0, es)
    ensures var y, t := Run(k, y0, es), TallyOf(k, y0, es, s);
            && CountOf(y, s) == t.acknowledged && RemovedBy(y, s) == t.taken
            && RemovedBy(y, s) + t.gone == CountOf(y, s) + t.late
            && (CountOf(y, s) == RemovedBy(y, s) <==> t.gone == t.late)
  {
    SetsFollowTally(k, y0, es, s);
    assert CountedBy(y0, s) == {} && RemovalsBy(y0, s) == {};
  }

  // ---------------------------------------------------------------------------
  // A sweep with its records to itself
  // ---------------------------------------------------------------------------

  lemma DeleteMetaKeepsLedger(y: System, d: Removal, outcome: Outcome)
    requires LedgerKept(y) && DeletionsAimed(y) && d in y.deletions && y.deletions[d].progress.MetaPending?
    ensures LedgerKept(AfterDeleteMeta(y, d, outcome))
  {
    var y' := AfterDeleteMeta(y, d, outcome);
    forall c | Removed(y, c) ensures Removed(y', c) {
    }
    forall c | Removed(y', c) ensures Removed(y, c) ||
        (c == d && d.record in y.mongo.records && d.record !in y'.mongo.records) {
    }
    forall c | c in y'.deletions && c.record !in y'.mongo.records ensures TakenOut(y', c.record) {
      if c.record in y.mongo.records {
        assert Removed(y', d) && d.record == c.record;
      } else {
        assert TakenOut(y, c.record);
        var b :| Removed(y, b) && b.record == c.record;
        assert Removed(y', b);
      }
    }
  }

  lemma LedgerFollows(y: System, y': System)
    requires LedgerKept(y) && y.mongo.usedRecords <= y'.mongo.usedRecords
    requires forall r :: r in y.mongo.usedRecords ==> (r in y'.mongo.records <==> r in y.mongo.records)
    requires forall d :: d in y.deletions ==> d in y'.deletions
    requires forall d :: Removed(y', d) <==> Removed(y, d)
    requires forall d :: d in y'.deletions && d !in y.deletions ==> d.record in y'.mongo.records
    requires forall d :: d in y.deletions ==> d.record in y.mongo.usedRecords
    ensures LedgerKept(y')
  {
    forall c | c in y'.deletions && c.record !in y'.mongo.records ensures TakenOut(y', c.record) {
      assert TakenOut(y, c.record);
      var b :| Removed(y, b) && b.record == c.record;
      assert Removed(y', b);
    }
  }

  lemma StepKeepsLedger(k: Tools, y: System, e: Event)
    requires Inv(k, y) && LedgerKept(y) && Possible(k, y, e)
    ensures LedgerKept(Step(k, y, e))
  {
    var y' := Step(k, y, e);
    if e.DeleteMeta? {
      DeleteMetaKeepsLedger(y, e.d, e.outcome);
    } else if e.Sweep? {
      SweepStarts(y, e.s, e.keep, e.listing);
      LedgerFollows(y, y');
    } else {
      OthersLeaveLedger(k, y, e);
      LedgerFollows(y, y');
    }
  }

  lemma OthersLeaveLedger(k: Tools, y: System, e: Event)
    requires Possible(k, y, e) && !e.DeleteMeta? && !e.Sweep? && FilesOwned(y)
    ensures var y' := Step(k, y, e);
            && y.mongo.usedRecords <= y'.mongo.usedRecords
            && (forall r :: r in y.mongo.usedRecords ==> (r in y'.mongo.records <==> r in y.mongo.records))
            && y'.deletions.Keys == y.deletions.Keys
            && (forall d :: Removed(y', d) <==> Removed(y, d))
  {
    if TouchesStore(e) {
      match e
      case Upload(j, f, outcome) =>
      case Insert(j, r, now, outcome) =>
      case DeleteFile(d, outcome) =>
        assert Step(k, y, e).deletions == y.deletions[d := Step(k, y, e).deletions[d]];
    } else {
      StepFrame(k, y, e);
    }
  }

  lemma {:induction false} RunKeepsLedger(k: Tools, y: System, es: seq<Event>)
    requires Inv(k, y) && LedgerKept(y) && PossibleRun(k, y, es)
    ensures Inv(k, Run(k, y, es)) && LedgerKept(Run(k, y, es))
    decreases |es|
  {
    if es != [] {
      StepKeeps(k, y, es[0]);
      StepKeepsLedger(k, y, es[0]);
      RunKeepsLedger(k, Step(k, y, es[0]), es[1..]);
    }
  }

  /** No other sweep chose one of its records. */
  ghost predicate Alone(y: System, s: SweepId) {
    forall c, d :: c in y.deletions && d in y.deletions && c.sweep == s && d.sweep != s ==> c.record != d.record
  }

  lemma DeletionsPersist(k: Tools, y: System, e: Event)
    requires Possible(k, y, e)
    ensures y.deletions.Keys <= Step(k, y, e).deletions.Keys
  {
  }

  lemma {:induction false} RunWasAlone(k: Tools, y: System, es: seq<Event>, s: SweepId)
    requires PossibleRun(k, y, es) && Alone(Run(k, y, es), s)
    ensures Alone(y, s)
    decreases |es|
  {
    if es != [] {
      RunWasAlone(k, Step(k, y, es[0]), es[1..], s);
      DeletionsPersist(k, y, es[0]);
    }
  }

  /** A deletion of a sweep that is alone finds its record. */
  lemma AloneFindsRecord(y: System, d: Removal)
    requires LedgerKept(y) && Alone(y, d.sweep) && d in y.deletions && y.deletions[d].progress.MetaPending?
    ensures d.record in y.mongo.records
  {
    forall c | Removed(y, c) ensures c.record != d.record {
      assert c != d;
    }
    assert !TakenOut(y, d.record);
  }

  predicate FailsLate(e: Event, s: SweepId) {
    e.DeleteMeta? && e.d.sweep == s && e.outcome == FailsAfter
  }

  lemma AloneTallyOne(k: Tools, y: System, e: Event, s: SweepId)
    requires LedgerKept(y) && Alone(y, s) && Possible(k, y, e)
    ensures TallyOne(y, e, s).gone == 0 && (TallyOne(y, e, s).late == 0 <==> !FailsLate(e, s))
  {
    if e.DeleteMeta? && e.d.sweep == s {
      AloneFindsRecord(y, e.d);
    }
  }

  predicate NoneFailsLate(es: seq<Event>, s: SweepId) {
    forall i :: 0 <= i < |es| ==> !FailsLate(es[i], s)
  }

  lemma NoneFailsLateSplits(es: seq<Event>, s: SweepId)
    requires es != []
    ensures NoneFailsLate(es, s) <==> !FailsLate(es[0], s) && NoneFailsLate(es[1..], s)
  {
    assert forall i :: 0 <= i < |es[1..]| ==> es[1..][i] == es[i + 1];
    assert forall i :: 0 < i < |es| ==> es[i] == es[1..][i - 1];
  }

  lemma {:induction false} AloneTally(k: Tools, y: System, es: seq<Event>, s: SweepId)
    requires Inv(k, y) && LedgerKept(y) && PossibleRun(k, y, es) && Alone(Run(k, y, es), s)
    ensures TallyOf(k, y, es, s).gone == 0
    ensures TallyOf(k, y, es, s).late == 0 <==> NoneFailsLate(es, s)
    decreases |es|
  {
    if es != [] {
      RunWasAlone(k, y, es, s);
      AloneTallyOne(k, y, es[0], s);
      StepKeeps(k, y, es[0]);
      StepKeepsLedger(k, y, es[0]);
      AloneTally(k, Step(k, y, es[0]), es[1..], s);
      NoneFailsLateSplits(es, s);
    }
  }

  /** When no other sweep chose one of its records, the count is exact if and only if none of the sweep's deletions
      failed after its effect. */
  lemma AloneCountIsExactIff(k: Tools, y0: System, es: seq<Event>, s: SweepId)
    requires Start(y0) && PossibleRun(k, y0, es) && Alone(Run(k, y0, es), s)
    ensures var y := Run(k, y0, es);
            CountOf(y, s) == RemovedBy(y, s) <==> NoneFailsLate(es, s)
  {
    StartHolds(k, y0);
    CountIsExactIff(k, y0, es, s);
    AloneTally(k, y0, es, s);
  }
}
