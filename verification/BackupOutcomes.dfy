/** What the backup machine can do: a failed dump can leave a restorable record of half a database, a write can be
    lost between dump and replacement, a sweep can count too few, and from every pre-restore record a restore can
    succeed. */
module BackupOutcomes {
  import opened Common
  import opened Ordering
  import opened BackupModel
  import opened BackupSafety
  import opened BackupTheorems
  import opened BackupCounts
  import opened BackupRuns

  /** No call fails, and the dump process ends last. */
  function Smooth(ok: bool): BackupPlan {
    BackupPlan(true, 0, Succeeds, Succeeds, true, ok, 3)
  }

  /** Upload, insert and read back, and how the dump process ends. */
  function Saving(j: JobId, f: FileId, r: RecordId, now: int, ok: bool): seq<Event> {
    BackupSteps(j, f, r, now, Smooth(ok), ok)
  }

  /** Whatever the dump wrote is saved under a record that passes its own check. */
  lemma SavingStores(k: Tools, y: System, j: JobId, f: FileId, r: RecordId, now: int, ok: bool)
    requires AtStage(y, j, Uploading) && y.jobs[j].exit == Running && f !in y.mongo.usedFiles &&
        r !in y.mongo.usedRecords
    requires ok ==> y.jobs[j].content == k.dump(y.jobs[j].source)
    ensures PossibleRun(k, y, Saving(j, f, r, now, ok))
    ensures var y' := Run(k, y, Saving(j, f, r, now, ok));
            && Holds(k, y'.mongo, r, y.jobs[j].kind, y.jobs[j].content)
            && y' == y.(mongo := y'.mongo, jobs := y'.jobs)
            && j in y'.jobs && y'.jobs[j].stage == Stored(r) && (ok ==> y'.jobs[j].exit == ExitedOk)
            && y'.mongo.records == y.mongo.records[r := y'.mongo.records[r]]
            && y'.mongo.files == y.mongo.files[f := y.jobs[j].content]
  {
    SavingRuns(k, y, j, f, r, now, Smooth(ok), ok);
  }

  /** mysqldump fails after `cut` bytes. The backup call fails, but the record stays: it is a periodic backup that
      passes its own check, and it holds the whole dump only if nothing was cut off. */
  lemma FailedDumpLeavesValidRecord(k: Tools, y: System, j: JobId, f: FileId, r: RecordId, now: int, cut: nat)
    requires j !in y.jobs && f !in y.mongo.usedFiles && r !in y.mongo.usedRecords && cut <= |k.dump(y.db)|
    ensures PossibleRun(k, y, [StartBackup(j, cut)] + Saving(j, f, r, now, false))
    ensures var y' := Run(k, y, [StartBackup(j, cut)] + Saving(j, f, r, now, false));
            && r in y'.mongo.records && IsPeriodic(y'.mongo.records[r]) && Validates(k, y'.mongo, y'.mongo.records[r])
            && (y'.mongo.files[y'.mongo.records[r].file] == k.dump(y.db) <==> cut == |k.dump(y.db)|)
  {
    var y1 := Step(k, y, StartBackup(j, cut));
    SavingStores(k, y1, j, f, r, now, false);
    RunStep(k, y, StartBackup(j, cut), Saving(j, f, r, now, false));
  }

  // ---------------------------------------------------------------------------
  // Dump, save, open
  // ---------------------------------------------------------------------------

  /** A restore of a full record from its beginning to the moment before its first change; `saving` falls between dump
      and storing, `later` between the opening of the download and the listing of the tables. */
  function UpToListing(w: WorkerId, from: RecordId, ids: Fresh, cut: nat, now: int, saving: seq<Event>,
      later: seq<Event>)
      : seq<Event> {
    [Begin(w, from)] + ([StartPreRestore(w, ids.job, cut)] + (saving + AfterDump(w, ids, now, later)))
  }

  function AfterDump(w: WorkerId, ids: Fresh, now: int, later: seq<Event>): seq<Event> {
    (Saving(ids.job, ids.file, ids.record, now, true) + [PreRestoreDone(w)])
    + ([Open(w)] + (later + ([ListTables(w)] + [])))
  }

  /** Ids for what an operation creates. */
  datatype Fresh = Fresh(job: JobId, file: FileId, record: RecordId)

  predicate Unused(y: System, ids: Fresh) {
    ids.job !in y.jobs && ids.file !in y.mongo.usedFiles && ids.record !in y.mongo.usedRecords
  }

  /** After the dump, w waits for the backup; the rest is as it was. */
  lemma DumpStarts(k: Tools, y: System, w: WorkerId, from: RecordId, ids: Fresh) returns (y2: System)
    requires w !in y.restores && from in y.mongo.records && y.mongo.records[from].file in y.mongo.files &&
        Unused(y, ids)
    ensures Possible(k, y, Begin(w, from))
    ensures Possible(k, Step(k, y, Begin(w, from)), StartPreRestore(w, ids.job, |k.dump(y.db)|))
    ensures y2 == Step(k, Step(k, y, Begin(w, from)), StartPreRestore(w, ids.job, |k.dump(y.db)|))
    ensures y2.db == y.db && y2.mongo == y.mongo && y2.replaced == y.replaced
    ensures y2.restores == y.restores[w := Dumping(from, y.mongo.records[from], y.db, ids.job)]
    ensures ids.job in y2.jobs && y2.jobs[ids.job] == Job(PreRestore, y.db, k.dump(y.db), Uploading, Running)
  {
    var y1 := Step(k, y, Begin(w, from));
    y2 := Step(k, y1, StartPreRestore(w, ids.job, |k.dump(y.db)|));
    assert y2.jobs[ids.job].content == k.dump(y.db);
    assert y.restores[w := y1.restores[w]][w := y2.restores[w]] == y.restores[w := y2.restores[w]];
  }

  /** The backup is saved whatever the application writes meanwhile. */
  lemma SaveCompletes(k: Tools, y: System, w: WorkerId, ids: Fresh, now: int)
    requires w in y.restores && y.restores[w].Dumping? && y.restores[w].job == ids.job
    requires AtStage(y, ids.job, Uploading) && y.jobs[ids.job].exit == Running
    requires y.jobs[ids.job].content == k.dump(y.jobs[ids.job].source)
    requires ids.file !in y.mongo.usedFiles && ids.record !in y.mongo.usedRecords
    ensures PossibleRun(k, y, Saving(ids.job, ids.file, ids.record, now, true) + [PreRestoreDone(w)])
    ensures var x, y' := y.restores[w], Run(k, y,
        Saving(ids.job, ids.file, ids.record, now, true) + [PreRestoreDone(w)]);
            && Holds(k, y'.mongo, ids.record, y.jobs[ids.job].kind, y.jobs[ids.job].content)
            && y'.db == y.db && y'.replaced == y.replaced
            && y'.restores == y.restores[w := Opening(x.selected, x.record, x.snapshot, ids.record)]
            && y'.mongo.records == y.mongo.records[ids.record := y'.mongo.records[ids.record]]
            && y'.mongo.files == y.mongo.files[ids.file := y.jobs[ids.job].content]
  {
    var saving := Saving(ids.job, ids.file, ids.record, now, true);
    SavingStores(k, y, ids.job, ids.file, ids.record, now, true);
    var y1 := Run(k, y, saving);
    RunStep(k, y1, PreRestoreDone(w), []);
    assert [PreRestoreDone(w)] + [] == [PreRestoreDone(w)];
    RunOn(k, y, saving, [PreRestoreDone(w)]);
  }

  /** Nothing, or one write of the application. */
  predicate AtMostOneWrite(es: seq<Event>) {
    es == [] || (|es| == 1 && es[0].AppWrite?)
  }

  lemma OneWriteRuns(k: Tools, y: System, es: seq<Event>)
    requires AtMostOneWrite(es)
    ensures PossibleRun(k, y, es) && Run(k, y, es) == y.(db := if es == [] then y.db else es[0].db)
  {
    if es != [] {
      RunStep(k, y, es[0], []);
      assert es == [es[0]] + [];
    }
  }

  /** w stands right before its first change. */
  ghost predicate AboutToDrop(k: Tools, z: System, w: WorkerId, snapshot: Database, pre: RecordId) {
    && w in z.restores && z.restores[w].Clearing? && z.restores[w].entry.None? && z.restores[w].tables == z.db.Keys
    && z.restores[w].snapshot == snapshot && z.restores[w].pre == pre && Kept(k, z.mongo, pre, snapshot)
  }

  lemma OpenedReachesListing(k: Tools, y: System, w: WorkerId, later: seq<Event>)
    requires w in y.restores && y.restores[w].Opening? && y.restores[w].record.scope == Full && AtMostOneWrite(later)
    requires Kept(k, y.mongo, y.restores[w].pre, y.restores[w].snapshot)
    ensures PossibleRun(k, y, [Open(w)] + (later + ([ListTables(w)] + [])))
    ensures var z := Run(k, y, [Open(w)] + (later + ([ListTables(w)] + [])));
            && AboutToDrop(k, z, w, y.restores[w].snapshot, y.restores[w].pre) && z.replaced == y.replaced
            && z.db == if later == [] then y.db else later[0].db
  {
    var y1 := Step(k, y, Open(w));
    OneWriteRuns(k, y1, later);
    var y2 := Run(k, y1, later);
    RunStep(k, y2, ListTables(w), []);
    RunOn(k, y1, later, [ListTables(w)] + []);
    RunStep(k, y, Open(w), later + ([ListTables(w)] + []));
  }

  lemma SavedReachesListing(k: Tools, y: System, w: WorkerId, ids: Fresh, now: int, later: seq<Event>)
    requires w in y.restores && y.restores[w].Dumping? && y.restores[w].job == ids.job &&
        y.restores[w].record.scope == Full
    requires ids.job in y.jobs && ids.file !in y.mongo.usedFiles && ids.record !in y.mongo.usedRecords
    requires var snapshot := y.restores[w].snapshot;
             y.jobs[ids.job] == Job(PreRestore, snapshot, k.dump(snapshot), Uploading, Running)
    requires AtMostOneWrite(later)
    ensures PossibleRun(k, y, AfterDump(w, ids, now, later))
    ensures var z := Run(k, y, AfterDump(w, ids, now, later));
            && AboutToDrop(k, z, w, y.restores[w].snapshot, ids.record) && z.replaced == y.replaced
            && z.db == if later == [] then y.db else later[0].db
  {
    var saving := Saving(ids.job, ids.file, ids.record, now, true) + [PreRestoreDone(w)];
    SaveCompletes(k, y, w, ids, now);
    OpenedReachesListing(k, Run(k, y, saving), w, later);
    RunOn(k, y, saving, [Open(w)] + (later + ([ListTables(w)] + [])));
  }

  lemma ReachesListing(k: Tools, y: System, w: WorkerId, from: RecordId, ids: Fresh, now: int, saving: seq<Event>,
                       later: seq<Event>)
    requires w !in y.restores && Unused(y, ids) && AtMostOneWrite(saving) && AtMostOneWrite(later)
    requires from in y.mongo.records && y.mongo.records[from].file in y.mongo.files &&
        y.mongo.records[from].scope == Full
    ensures var es := UpToListing(w, from, ids, |k.dump(y.db)|, now, saving, later);
            && PossibleRun(k, y, es)
            && AboutToDrop(k, Run(k, y, es), w, y.db, ids.record) && Run(k, y, es).replaced == y.replaced
            && Run(k, y, es).db == if later != [] then later[0].db else if saving != [] then saving[0].db else y.db
  {
    var cut, rest := |k.dump(y.db)|, AfterDump(w, ids, now, later);
    var y2 := DumpStarts(k, y, w, from, ids);
    OneWriteRuns(k, y2, saving);
    SavedReachesListing(k, Run(k, y2, saving), w, ids, now, later);
    RunOn(k, y2, saving, rest);
    RunStep(k, Step(k, y, Begin(w, from)), StartPreRestore(w, ids.job, cut), saving + rest);
    RunStep(k, y, Begin(w, from), [StartPreRestore(w, ids.job, cut)] + (saving + rest));
  }

  /** The first drop replaces a database that the pre-restore record does not hold. */
  ghost predicate Loses(k: Tools, z: System, w: WorkerId, table: string, db: Database) {
    && FirstChange(k, z, Drop(w, table), w)
    && var z' := Step(k, z, Drop(w, table));
       && z'.replaced != [] && z'.replaced[|z'.replaced| - 1].held == db
       && !Kept(k, z'.mongo, z'.replaced[|z'.replaced| - 1].pre, db)
  }

  lemma UnsavedIsLost(k: Tools, z: System, w: WorkerId, snapshot: Database, pre: RecordId, table: string)
    requires Faithful(k) && AboutToDrop(k, z, w, snapshot, pre) && z.db != snapshot && table in z.db
    ensures Loses(k, z, w, table, z.db)
  {
    var z' := Step(k, z, Drop(w, table));
    assert table !in z'.db && z'.db != z.db;
    assert z'.replaced == z.replaced + [Replacement(z.db, snapshot, pre)];
    if k.dump(z.db) == k.dump(snapshot) {
      DumpIsInjective(k, z.db, snapshot);
    }
  }

  /** The application writes between the dump and the storing of it. */
  lemma LateWriteIsLost(k: Tools, y: System, w: WorkerId, from: RecordId, ids: Fresh, now: int, db: Database,
      table: string)
    requires Faithful(k) && w !in y.restores && Unused(y, ids) && db != y.db && table in db
    requires from in y.mongo.records && y.mongo.records[from].file in y.mongo.files &&
        y.mongo.records[from].scope == Full
    ensures var es := UpToListing(w, from, ids, |k.dump(y.db)|, now, [AppWrite(db)], []);
            PossibleRun(k, y, es) && Loses(k, Run(k, y, es), w, table, db)
  {
    ReachesListing(k, y, w, from, ids, now, [AppWrite(db)], []);
    UnsavedIsLost(k, Run(k, y, UpToListing(w, from, ids, |k.dump(y.db)|, now, [AppWrite(db)], [])), w, y.db,
        ids.record, table);
  }

  /** The application writes when the download is already open: there is no safe moment before the first change. */
  lemma WriteAfterOpenIsLost(k: Tools, y: System, w: WorkerId, from: RecordId, ids: Fresh, now: int, db: Database,
      table: string)
    requires Faithful(k) && w !in y.restores && Unused(y, ids) && db != y.db && table in db
    requires from in y.mongo.records && y.mongo.records[from].file in y.mongo.files &&
        y.mongo.records[from].scope == Full
    ensures var es := UpToListing(w, from, ids, |k.dump(y.db)|, now, [], [AppWrite(db)]);
            PossibleRun(k, y, es) && Loses(k, Run(k, y, es), w, table, db)
  {
    ReachesListing(k, y, w, from, ids, now, [], [AppWrite(db)]);
    UnsavedIsLost(k, Run(k, y, UpToListing(w, from, ids, |k.dump(y.db)|, now, [], [AppWrite(db)])), w, y.db,
        ids.record, table);
  }

  // ---------------------------------------------------------------------------
  // A complete restore
  // ---------------------------------------------------------------------------

  /** Dropping the listed tables one by one. */
  lemma {:induction false} ListedTablesCanBeDropped(k: Tools, y: System, w: WorkerId, tables: set<string>)
      returns (es: seq<Event>)
    requires w in y.restores && y.restores[w].Clearing? && y.restores[w].tables == tables && y.db.Keys == tables
    ensures PossibleRun(k, y, es)
    ensures var z := Run(k, y, es);
            && z.db == map[] && z.mongo == y.mongo
            && w in z.restores && z.restores[w].Clearing? && z.restores[w].tables == {}
            && z.restores[w].record == y.restores[w].record
    decreases |tables|
  {
    if t :| t in tables {
      var y1 := Step(k, y, Drop(w, t));
      assert y1.db.Keys == tables - {t};
      var rest := ListedTablesCanBeDropped(k, y1, w, tables - {t});
      RunStep(k, y, Drop(w, t), rest);
      es := [Drop(w, t)] + rest;
    } else {
      es := [];
      assert y.db == map[];
    }
  }

  lemma ListedRestoreCanFinish(k: Tools, y: System, w: WorkerId) returns (es: seq<Event>)
    requires w in y.restores && y.restores[w].Clearing? && y.restores[w].tables == y.db.Keys
    requires Validates(k, y.mongo, y.restores[w].record)
    ensures PossibleRun(k, y, es)
    ensures Run(k, y, es).db == k.load(map[], y.mongo.files[y.restores[w].record.file]) && w !in Run(k, y, es).restores
  {
    var drops := ListedTablesCanBeDropped(k, y, w, y.db.Keys);
    var y1 := Run(k, y, drops);
    var y2 := Step(k, y1, Cleared(w));
    RunStep(k, y2, LoadSucceeds(w), []);
    RunStep(k, y1, Cleared(w), [LoadSucceeds(w)] + []);
    RunOn(k, y, drops, [Cleared(w)] + ([LoadSucceeds(w)] + []));
    es := drops + ([Cleared(w)] + ([LoadSucceeds(w)] + []));
  }

  /** From a stored pre-restore backup to the end of the restore. */
  lemma OpenedRestoreCanFinish(k: Tools, y: System, w: WorkerId) returns (es: seq<Event>)
    requires w in y.restores && y.restores[w].Opening? && y.restores[w].record.scope == Full
    requires Validates(k, y.mongo, y.restores[w].record)
    ensures PossibleRun(k, y, es)
    ensures Run(k, y, es).db == k.load(map[], y.mongo.files[y.restores[w].record.file]) && w !in Run(k, y, es).restores
  {
    var y1 := Step(k, y, Open(w));
    var y2 := Step(k, y1, ListTables(w));
    var rest := ListedRestoreCanFinish(k, y2, w);
    RunStep(k, y1, ListTables(w), rest);
    RunStep(k, y, Open(w), [ListTables(w)] + rest);
    es := [Open(w)] + ([ListTables(w)] + rest);
  }

  /** Whatever has failed before and whatever other processes are at, a process without a restore can restore from the
      record of any earlier one, and that does bring the database back. */
  lemma ReplacedDatabaseCanBeBroughtBack(k: Tools, y: System, i: nat, w: WorkerId, ids: Fresh, now: int)
      returns (es: seq<Event>)
    requires Reachable(k, y) && Faithful(k) && w !in y.restores && i < |y.replaced| && Unused(y, ids)
    ensures PossibleRun(k, y, es)
    ensures Run(k, y, es).db == y.replaced[i].snapshot && w !in Run(k, y, es).restores
  {
    EveryReplacedDatabaseIsKept(k, y, i);
    ReachableHolds(k, y);
    var pre, snapshot := y.replaced[i].pre, y.replaced[i].snapshot;
    var y2 := DumpStarts(k, y, w, pre, ids);
    var rest := SavedRestoreCanFinish(k, y2, w, ids, now, pre, snapshot);
    var cut := |k.dump(y.db)|;
    RunStep(k, Step(k, y, Begin(w, pre)), StartPreRestore(w, ids.job, cut), rest);
    RunStep(k, y, Begin(w, pre), [StartPreRestore(w, ids.job, cut)] + rest);
    es := [Begin(w, pre)] + ([StartPreRestore(w, ids.job, cut)] + rest);
  }

  lemma SavedRestoreCanFinish(k: Tools, y: System, w: WorkerId, ids: Fresh, now: int, pre: RecordId, snapshot: Database)
      returns (es: seq<Event>)
    requires Faithful(k) && Kept(k, y.mongo, pre, snapshot) && y.mongo.records[pre].file in y.mongo.usedFiles
    requires w in y.restores && y.restores[w] == Dumping(pre, y.mongo.records[pre], y.db, ids.job)
    requires ids.job in y.jobs && y.jobs[ids.job] == Job(PreRestore, y.db, k.dump(y.db), Uploading, Running)
    requires ids.file !in y.mongo.usedFiles && ids.record !in y.mongo.usedRecords
    ensures PossibleRun(k, y, es) && Run(k, y, es).db == snapshot && w !in Run(k, y, es).restores
  {
    SaveCompletes(k, y, w, ids, now);
    var saving := Saving(ids.job, ids.file, ids.record, now, true) + [PreRestoreDone(w)];
    var y' := Run(k, y, saving);
    assert y'.mongo.files[y.mongo.records[pre].file] == k.dump(snapshot);
    var rest := OpenedRestoreCanFinish(k, y', w);
    assert map[] + snapshot == snapshot;
    RunOn(k, y, saving, rest);
    es := saving + rest;
  }

  // ---------------------------------------------------------------------------
  // Sweeps that miscount
  // ---------------------------------------------------------------------------

  /** The record goes, the call fails all the same: one removed, none counted. */
  lemma LateFailureIsUncounted(k: Tools, y: System, s: SweepId, keep: int, listing: seq<RecordId>, r: RecordId)
    requires Possible(k, y, Sweep(s, keep, listing)) && r in Surplus(listing, keep)
    ensures var es := [Sweep(s, keep, listing)] + ([DeleteMeta(Removal(s, r), FailsAfter)] + []);
            && PossibleRun(k, y, es)
            && var z := Run(k, y, es);
               && r in y.mongo.records && r !in z.mongo.records
               && RemovedBy(z, s) == 1 && CountOf(z, s) == 0
  {
    var d := Removal(s, r);
    var y1 := Step(k, y, Sweep(s, keep, listing));
    SweptFromScratch(y, s, keep, listing, r);
    RunStep(k, y1, DeleteMeta(d, FailsAfter), []);
    RunStep(k, y, Sweep(s, keep, listing), [DeleteMeta(d, FailsAfter)] + []);
    OneLateFailure(y1, d);
  }

  lemma OneLateFailure(y: System, d: Removal)
    requires d in y.deletions && d.record in y.mongo.records
    requires forall c :: c in y.deletions && c.sweep == d.sweep ==> y.deletions[c].progress == MetaPending
    ensures var z := AfterDeleteMeta(y, d, FailsAfter);
            d.record !in z.mongo.records && RemovedBy(z, d.sweep) == 1 && CountOf(z, d.sweep) == 0
  {
    var z := AfterDeleteMeta(y, d, FailsAfter);
    UntouchedAreUncounted(y, z, d.sweep, d);
  }

  lemma SweptFromScratch(y: System, s: SweepId, keep: int, listing: seq<RecordId>, r: RecordId)
    requires NewestFirst(listing, PeriodicTimes(y.mongo)) && forall d :: d in y.deletions ==> d.sweep != s
    requires r in Surplus(listing, keep)
    ensures var y1 := AfterSweep(y, s, keep, listing);
            && y1.mongo == y.mongo && r in y.mongo.records && Removal(s, r) in y1.deletions
            && forall c :: c in y1.deletions && c.sweep == s ==> y1.deletions[c].progress == MetaPending
  {
    SweepStarts(y, s, keep, listing);
    assert Removal(s, r) in AfterSweep(y, s, keep, listing).deletions && Removal(s, r) !in y.deletions;
  }

  lemma UntouchedAreUncounted(y1: System, z: System, s: SweepId, d: Removal)
    requires forall c :: c in y1.deletions && c.sweep == s ==> y1.deletions[c].progress == MetaPending
    requires d in y1.deletions && d.sweep == s &&
        z.deletions == y1.deletions[d := y1.deletions[d].(progress := Rejected(true))]
    ensures RemovedBy(z, s) == 1 && CountOf(z, s) == 0
  {
    assert RemovalsBy(z, s) == {d} && CountedBy(z, s) == {};
  }

  /** Two processes sweep at the same time and choose the same record: the second one counts what the first has
      removed. */
  lemma OvertakenIsCounted(k: Tools, y: System, s: SweepId, t: SweepId, keep: int, listing: seq<RecordId>, r: RecordId)
    requires s != t && Possible(k, y, Sweep(s, keep, listing)) && Possible(k, y, Sweep(t, keep, listing))
    requires r in Surplus(listing, keep)
    ensures var es := [Sweep(s, keep, listing)] + ([Sweep(t, keep, listing)]
                      + ([DeleteMeta(Removal(s, r), Succeeds)] + ([DeleteMeta(Removal(t, r), Succeeds)] + [])));
            && PossibleRun(k, y, es)
            && var z := Run(k, y, es);
               && RemovedBy(z, s) == 1 && CountOf(z, s) == 1
               && RemovedBy(z, t) == 0 && CountOf(z, t) == 1
  {
    var y1 := AfterSweep(y, s, keep, listing);
    var y2 := AfterSweep(y1, t, keep, listing);
    var c, d := Removal(s, r), Removal(t, r);
    TwoSweepsStart(y, s, t, keep, listing, r);
    BothAcknowledged(k, y2, c, d);
    var rest := [DeleteMeta(c, Succeeds)] + ([DeleteMeta(d, Succeeds)] + []);
    assert Step(k, y1, Sweep(t, keep, listing)) == y2;
    RunStep(k, y1, Sweep(t, keep, listing), rest);
    RunStep(k, y, Sweep(s, keep, listing), [Sweep(t, keep, listing)] + rest);
    SecondIsOvertaken(y2, c, d);
  }

  lemma BothAcknowledged(k: Tools, y: System, c: Removal, d: Removal)
    requires c != d && c in y.deletions && d in y.deletions
    requires y.deletions[c].progress == MetaPending && y.deletions[d].progress == MetaPending
    ensures var es := [DeleteMeta(c, Succeeds)] + ([DeleteMeta(d, Succeeds)] + []);
            PossibleRun(k, y, es) && Run(k, y, es) == AfterDeleteMeta(AfterDeleteMeta(y, c, Succeeds), d, Succeeds)
  {
    var y1 := AfterDeleteMeta(y, c, Succeeds);
    assert d in y1.deletions && y1.deletions[d] == y.deletions[d];
    RunStep(k, y1, DeleteMeta(d, Succeeds), []);
    RunStep(k, y, DeleteMeta(c, Succeeds), [DeleteMeta(d, Succeeds)] + []);
  }

  lemma TwoSweepsStart(y: System, s: SweepId, t: SweepId, keep: int, listing: seq<RecordId>, r: RecordId)
    requires s != t && NewestFirst(listing, PeriodicTimes(y.mongo)) && r in Surplus(listing, keep)
    requires forall d :: d in y.deletions ==> d.sweep != s && d.sweep != t
    ensures var y1 := AfterSweep(y, s, keep, listing);
            var y2 := AfterSweep(y1, t, keep, listing);
            && y1.mongo == y.mongo && y2.mongo == y.mongo && r in y.mongo.records
            && (forall d :: d in y1.deletions ==> d.sweep != t)
            && Removal(s, r) in y2.deletions && Removal(t, r) in y2.deletions
            && forall d :: d in y2.deletions && (d.sweep == s || d.sweep == t) ==>
                y2.deletions[d].progress == MetaPending
  {
    SweptFromScratch(y, s, keep, listing, r);
    SweepStarts(y, s, keep, listing);
    var y1 := AfterSweep(y, s, keep, listing);
    SweptFromScratch(y1, t, keep, listing, r);
    SweepStarts(y1, t, keep, listing);
  }

  lemma SecondIsOvertaken(y: System, c: Removal, d: Removal)
    requires c in y.deletions && d in y.deletions && c.sweep != d.sweep && c.record == d.record &&
        d.record in y.mongo.records
    requires forall e :: e in y.deletions && (e.sweep == c.sweep || e.sweep == d.sweep) ==>
               y.deletions[e].progress == MetaPending
    ensures var z := AfterDeleteMeta(AfterDeleteMeta(y, c, Succeeds), d, Succeeds);
            && RemovedBy(z, c.sweep) == 1 && CountOf(z, c.sweep) == 1
            && RemovedBy(z, d.sweep) == 0 && CountOf(z, d.sweep) == 1
  {
    var y' := AfterDeleteMeta(y, c, Succeeds);
    var z := AfterDeleteMeta(y', d, Succeeds);
    assert RemovalsBy(y, c.sweep) == {} && CountedBy(y, c.sweep) == {};
    assert RemovalsBy(y, d.sweep) == {} && CountedBy(y, d.sweep) == {};
    DeleteMetaSettles(y, c, Succeeds, c.sweep);
    DeleteMetaSettles(y, c, Succeeds, d.sweep);
    DeleteMetaSettles(y', d, Succeeds, c.sweep);
    DeleteMetaSettles(y', d, Succeeds, d.sweep);
    assert RemovalsBy(z, c.sweep) == {c} && CountedBy(z, c.sweep) == {c};
    assert RemovalsBy(z, d.sweep) == {} && CountedBy(z, d.sweep) == {d};
  }
}
