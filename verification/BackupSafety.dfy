/** What every step of the backup machine keeps. */
module BackupSafety {
  import opened Common
  import opened Ordering
  import opened BackupModel

  predicate UploadedAs(y: System, j: JobId, f: FileId) {
    j in y.jobs && y.jobs[j].stage == Uploaded(f)
  }

  predicate RecordedAs(y: System, j: JobId, r: RecordId) {
    j in y.jobs && (y.jobs[j].stage == Inserted(r) || y.jobs[j].stage == Stored(r))
  }

  /** Every record has its file to itself, and so has every upload that waits for its record. */
  ghost predicate FilesOwned(y: System) {
    && y.mongo.records.Keys <= y.mongo.usedRecords && y.mongo.files.Keys <= y.mongo.usedFiles
    && (forall r :: r in y.mongo.records ==> y.mongo.records[r].file in y.mongo.files)
    && (forall q, r ::
        q in y.mongo.records && r in y.mongo.records && y.mongo.records[q].file == y.mongo.records[r].file ==> q == r)
    && (forall j, f :: UploadedAs(y, j, f) ==> f in y.mongo.files && y.mongo.files[f] == y.jobs[j].content)
    && (forall j, f, r :: UploadedAs(y, j, f) && r in y.mongo.records ==> y.mongo.records[r].file != f)
    && (forall i, j, f :: UploadedAs(y, i, f) && UploadedAs(y, j, f) ==> i == j)
  }

  /** A deletion targets a periodic record and the file of that record only, and takes the file last. */
  ghost predicate DeletionsAimed(y: System) {
    && (forall d :: d in y.deletions ==> d.record in y.mongo.usedRecords && y.deletions[d].file in y.mongo.usedFiles)
    && (forall d :: d in y.deletions && d.record in y.mongo.records ==>
          IsPeriodic(y.mongo.records[d.record]) &&
              (y.deletions[d].progress.MetaPending? || y.deletions[d].progress.Rejected?))
    && (forall d, r :: d in y.deletions && r in y.mongo.records ==>
        (y.mongo.records[r].file == y.deletions[d].file <==> r == d.record))
    && (forall d, j, f :: d in y.deletions && UploadedAs(y, j, f) ==> y.deletions[d].file != f)
  }

  /** The record holds this content and would pass the check on download. */
  ghost predicate Holds(k: Tools, m: Mongo, r: RecordId, kind: Kind, content: Bytes) {
    && r in m.records && m.records[r].kind == kind && m.records[r].scope == Full
    && Validates(k, m, m.records[r]) && m.files[m.records[r].file] == content
  }

  ghost predicate JobsRecorded(k: Tools, y: System) {
    && (forall j, r :: RecordedAs(y, j, r) ==>
          r in y.mongo.usedRecords && (r in y.mongo.records || y.jobs[j].kind == PreRestore ==>
              Holds(k, y.mongo, r, y.jobs[j].kind, y.jobs[j].content)))
    && (forall j :: j in y.jobs && y.jobs[j].exit == ExitedOk ==> y.jobs[j].content == k.dump(y.jobs[j].source))
  }

  /** A stored pre-restore record holds the dump of d. */
  ghost predicate Kept(k: Tools, m: Mongo, r: RecordId, d: Database) {
    Holds(k, m, r, PreRestore, k.dump(d))
  }

  ghost predicate RestoreFollows(k: Tools, y: System, x: Restore) {
    && x.selected in y.mongo.usedRecords
    && (x.selected in y.mongo.records ==> y.mongo.records[x.selected] == x.record)
    && match x
       case Testing(_, _) => true
       case Dumping(_, _, snapshot, job) => job in y.jobs && y.jobs[job].kind == PreRestore &&
           y.jobs[job].source == snapshot
       case Opening(_, _, snapshot, pre) => Kept(k, y.mongo, pre, snapshot)
       case Listing(_, record, snapshot, pre) => Kept(k, y.mongo, pre, snapshot) && record.scope == Full
       case Clearing(_, record, snapshot, pre, _, _) =>
         Kept(k, y.mongo, pre, snapshot) && EntryFits(y.replaced, x) && record.scope == Full
       case Loading(_, _, snapshot, pre, _) => Kept(k, y.mongo, pre, snapshot) && EntryFits(y.replaced, x)
  }

  predicate EntryFits(replaced: seq<Replacement>, x: Restore)
    requires MayAlter(x)
  {
    x.entry.Some? ==>
      x.entry.value < |replaced| && replaced[x.entry.value].snapshot == x.snapshot &&
          replaced[x.entry.value].pre == x.pre
  }

  ghost predicate RestoresFollow(k: Tools, y: System) {
    forall w :: w in y.restores ==> RestoreFollows(k, y, y.restores[w])
  }

  ghost predicate ReplacedKept(k: Tools, y: System) {
    forall i :: 0 <= i < |y.replaced| ==> Kept(k, y.mongo, y.replaced[i].pre, y.replaced[i].snapshot)
  }

  ghost predicate Inv(k: Tools, y: System) {
    && FilesOwned(y)
    && DeletionsAimed(y)
    && JobsRecorded(k, y)
    && RestoresFollow(k, y)
    && ReplacedKept(k, y)
  }

  // ---------------------------------------------------------------------------
  // The store
  // ---------------------------------------------------------------------------

  /** From m to n no record is altered or reused, and only periodic ones may go, with their files. */
  ghost predicate OnlyPeriodicGo(m: Mongo, n: Mongo) {
    && m.usedRecords <= n.usedRecords && m.usedFiles <= n.usedFiles
    && (forall r :: r in n.records && r in m.usedRecords ==> r in m.records && n.records[r] == m.records[r])
    && (forall r :: r in m.records && (r in n.records || !IsPeriodic(m.records[r])) ==>
          && r in n.records && n.records[r] == m.records[r]
          && (m.records[r].file in m.files ==>
              m.records[r].file in n.files && n.files[m.records[r].file] == m.files[m.records[r].file]))
  }

  lemma UploadOwnsFile(y: System, j: JobId, f: FileId, outcome: Outcome)
    requires FilesOwned(y) && AtStage(y, j, Uploading) && f !in y.mongo.usedFiles
    ensures FilesOwned(AfterUpload(y, j, f, outcome)) && OnlyPeriodicGo(y.mongo, AfterUpload(y, j, f, outcome).mongo)
  {
    var y' := AfterUpload(y, j, f, outcome);
    forall i, g | UploadedAs(y', i, g) ensures UploadedAs(y, i, g) || (i == j && g == f && f in y'.mongo.files) {
    }
  }

  lemma UploadKeeps(y: System, j: JobId, f: FileId, outcome: Outcome)
    requires FilesOwned(y) && DeletionsAimed(y) && AtStage(y, j, Uploading) && f !in y.mongo.usedFiles
    ensures OnlyPeriodicGo(y.mongo, AfterUpload(y, j, f, outcome).mongo)
    ensures FilesOwned(AfterUpload(y, j, f, outcome)) && DeletionsAimed(AfterUpload(y, j, f, outcome))
  {
    var y' := AfterUpload(y, j, f, outcome);
    UploadOwnsFile(y, j, f, outcome);
    forall i, g | UploadedAs(y', i, g) ensures UploadedAs(y, i, g) || g == f {
    }
  }

  /** Of the uploads only the inserted one's file changes hands. */
  lemma InsertTakesFile(k: Tools, y: System, j: JobId, r: RecordId, now: int, outcome: Outcome)
    requires FilesOwned(y) && j in y.jobs && y.jobs[j].stage.Uploaded? && r !in y.mongo.usedRecords
    ensures forall i, g :: UploadedAs(AfterInsert(k, y, j, r, now, outcome), i, g) ==>
              UploadedAs(y, i, g) && i != j && g != y.jobs[j].stage.file
    ensures forall q :: q in y.mongo.records ==> q != r && y.mongo.records[q].file != y.jobs[j].stage.file
    ensures y.jobs[j].stage.file in y.mongo.files
  {
    var y' := AfterInsert(k, y, j, r, now, outcome);
    assert UploadedAs(y, j, y.jobs[j].stage.file);
    forall i, g | UploadedAs(y', i, g) ensures UploadedAs(y, i, g) && i != j {
    }
  }

  lemma InsertOwnsFile(k: Tools, y: System, j: JobId, r: RecordId, now: int, outcome: Outcome)
    requires FilesOwned(y) && j in y.jobs && y.jobs[j].stage.Uploaded? && r !in y.mongo.usedRecords
    ensures FilesOwned(AfterInsert(k, y, j, r, now, outcome)) &&
        OnlyPeriodicGo(y.mongo, AfterInsert(k, y, j, r, now, outcome).mongo)
  {
    InsertTakesFile(k, y, j, r, now, outcome);
    var y' := AfterInsert(k, y, j, r, now, outcome);
    assert y'.mongo.files == y.mongo.files;
    forall i, c, g | UploadedAs(y', i, g) && UploadedAs(y', c, g) ensures i == c {
      assert UploadedAs(y, i, g) && UploadedAs(y, c, g);
    }
  }

  lemma InsertKeeps(k: Tools, y: System, j: JobId, r: RecordId, now: int, outcome: Outcome)
    requires FilesOwned(y) && DeletionsAimed(y) && j in y.jobs && y.jobs[j].stage.Uploaded? && r !in y.mongo.usedRecords
    ensures OnlyPeriodicGo(y.mongo, AfterInsert(k, y, j, r, now, outcome).mongo)
    ensures FilesOwned(AfterInsert(k, y, j, r, now, outcome)) && DeletionsAimed(AfterInsert(k, y, j, r, now, outcome))
  {
    InsertOwnsFile(k, y, j, r, now, outcome);
    InsertTakesFile(k, y, j, r, now, outcome);
    assert UploadedAs(y, j, y.jobs[j].stage.file);
  }

  lemma RecordsWithout(y: System, y': System, r: RecordId)
    requires FilesOwned(y) && y'.jobs == y.jobs
    requires y'.mongo == y.mongo || y'.mongo == y.mongo.(records := y.mongo.records - {r})
    ensures FilesOwned(y')
    ensures r in y.mongo.records ==> IsPeriodic(y.mongo.records[r]) ==> OnlyPeriodicGo(y.mongo, y'.mongo)
  {
    forall i, g | UploadedAs(y', i, g) ensures UploadedAs(y, i, g) {
    }
  }

  lemma DeleteMetaKeeps(y: System, d: Removal, outcome: Outcome)
    requires FilesOwned(y) && DeletionsAimed(y) && d in y.deletions && y.deletions[d].progress.MetaPending?
    ensures OnlyPeriodicGo(y.mongo, AfterDeleteMeta(y, d, outcome).mongo)
    ensures FilesOwned(AfterDeleteMeta(y, d, outcome)) && DeletionsAimed(AfterDeleteMeta(y, d, outcome))
  {
    var y' := AfterDeleteMeta(y, d, outcome);
    RecordsWithout(y, y', d.record);
    forall i, g | UploadedAs(y', i, g) ensures UploadedAs(y, i, g) {
    }
    forall c | c in y'.deletions ensures c in y.deletions && y'.deletions[c].file == y.deletions[c].file {
    }
    assert DeletionsAimed(y');
  }

  /** The file that goes is nobody's. */
  lemma DoomedFileIsUnowned(y: System, d: Removal)
    requires FilesOwned(y) && DeletionsAimed(y) && d in y.deletions && y.deletions[d].progress.FilePending?
    ensures forall r :: r in y.mongo.records ==> y.mongo.records[r].file != y.deletions[d].file
    ensures forall j, f :: UploadedAs(y, j, f) ==> f != y.deletions[d].file
  {
    assert d.record !in y.mongo.records;
  }

  lemma DeleteFileKeeps(y: System, d: Removal, outcome: Outcome)
    requires FilesOwned(y) && DeletionsAimed(y) && d in y.deletions && y.deletions[d].progress.FilePending?
    ensures OnlyPeriodicGo(y.mongo, AfterDeleteFile(y, d, outcome).mongo)
    ensures FilesOwned(AfterDeleteFile(y, d, outcome)) && DeletionsAimed(AfterDeleteFile(y, d, outcome))
  {
    var y' := AfterDeleteFile(y, d, outcome);
    DoomedFileIsUnowned(y, d);
    FilesWithout(y, y', y.deletions[d].file);
    forall i, g | UploadedAs(y', i, g) ensures UploadedAs(y, i, g) {
    }
    forall c | c in y'.deletions ensures c in y.deletions && y'.deletions[c].file == y.deletions[c].file {
    }
    assert DeletionsAimed(y');
  }

  lemma FilesWithout(y: System, y': System, file: FileId)
    requires FilesOwned(y) && y'.jobs == y.jobs
    requires y'.mongo == y.mongo || y'.mongo == y.mongo.(files := y.mongo.files - {file})
    requires forall r :: r in y.mongo.records ==> y.mongo.records[r].file != file
    requires forall j, f :: UploadedAs(y, j, f) ==> f != file
    ensures FilesOwned(y') && OnlyPeriodicGo(y.mongo, y'.mongo)
  {
    forall i, g | UploadedAs(y', i, g) ensures g in y'.mongo.files && y'.mongo.files[g] == y'.jobs[i].content {
      assert UploadedAs(y, i, g);
    }
    forall i, j, g | UploadedAs(y', i, g) && UploadedAs(y', j, g) ensures i == j {
      assert UploadedAs(y, i, g) && UploadedAs(y, j, g);
    }
    forall j, g, r | UploadedAs(y', j, g) && r in y'.mongo.records ensures y'.mongo.records[r].file != g {
      assert UploadedAs(y, j, g);
    }
  }

  /** The store's invariants look at nothing but the store, the deletions and the finished uploads. */
  lemma UntouchedStoreKeeps(y: System, y': System)
    requires FilesOwned(y) && y'.mongo == y.mongo
    requires forall j, f :: UploadedAs(y', j, f) ==> UploadedAs(y, j, f) && y'.jobs[j].content == y.jobs[j].content
    ensures FilesOwned(y')
    ensures DeletionsAimed(y) && y'.deletions == y.deletions ==> DeletionsAimed(y')
  {
    forall j, f | UploadedAs(y', j, f) ensures f in y.mongo.files && y.mongo.files[f] == y'.jobs[j].content {
      assert UploadedAs(y, j, f);
    }
    forall i, j, f | UploadedAs(y', i, f) && UploadedAs(y', j, f) ensures i == j {
      assert UploadedAs(y, i, f) && UploadedAs(y, j, f);
    }
  }

  lemma SweepKeeps(y: System, s: SweepId, keep: int, listing: seq<RecordId>)
    requires FilesOwned(y) && DeletionsAimed(y)
    requires NewestFirst(listing, PeriodicTimes(y.mongo)) && forall d :: d in y.deletions ==> d.sweep != s
    ensures FilesOwned(AfterSweep(y, s, keep, listing)) && DeletionsAimed(AfterSweep(y, s, keep, listing))
  {
    var y' := AfterSweep(y, s, keep, listing);
    UntouchedStoreKeeps(y, y');
    SweepStarts(y, s, keep, listing);
    NewDeletionsAim(y, y');
  }

  /** A sweep adds a deletion for each record of the listing past the first `keep`. */
  lemma SweepStarts(y: System, s: SweepId, keep: int, listing: seq<RecordId>)
    requires NewestFirst(listing, PeriodicTimes(y.mongo)) && forall d :: d in y.deletions ==> d.sweep != s
    ensures var y' := AfterSweep(y, s, keep, listing);
            && (forall d :: d in y.deletions ==> d in y'.deletions && y'.deletions[d] == y.deletions[d])
            && (forall d :: d in y'.deletions && d !in y.deletions ==>
                  && d.sweep == s && d.record in y.mongo.records && IsPeriodic(y.mongo.records[d.record])
                  && y'.deletions[d] == Deletion(y.mongo.records[d.record].file, MetaPending))
            && (forall d: Removal :: d.sweep == s ==> (d in y'.deletions <==> d.record in Surplus(listing, keep)))
  {
    assert forall r :: r in Surplus(listing, keep) ==> r in listing;
  }

  lemma NewDeletionsAim(y: System, y': System)
    requires FilesOwned(y) && DeletionsAimed(y) && y'.mongo == y.mongo && y'.jobs == y.jobs
    requires forall d :: d in y.deletions ==> d in y'.deletions && y'.deletions[d] == y.deletions[d]
    requires forall d :: d in y'.deletions && d !in y.deletions ==>
               && d.record in y.mongo.records && IsPeriodic(y.mongo.records[d.record])
               && y'.deletions[d] == Deletion(y.mongo.records[d.record].file, MetaPending)
    ensures DeletionsAimed(y')
  {
    forall d, j, f | d in y'.deletions && UploadedAs(y', j, f) ensures y'.deletions[d].file != f {
      assert UploadedAs(y, j, f);
    }
  }

  // ---------------------------------------------------------------------------
  // Every step
  // ---------------------------------------------------------------------------

  predicate TouchesStore(e: Event) {
    e.Upload? || e.Insert? || e.Sweep? || e.DeleteMeta? || e.DeleteFile?
  }

  /** What a step leaves alone. */
  lemma StepFrame(k: Tools, y: System, e: Event)
    requires Possible(k, y, e) && !TouchesStore(e)
    ensures Step(k, y, e).mongo == y.mongo && Step(k, y, e).deletions == y.deletions
    ensures forall j, f :: UploadedAs(Step(k, y, e), j, f) ==>
              UploadedAs(y, j, f) && Step(k, y, e).jobs[j].content == y.jobs[j].content
  {
  }

  /** The process whose restore the step moves, if it does. */
  function Mover(e: Event): Option<WorkerId> {
    match e
    case Begin(w, _) => Some(w)
    case StartPreRestore(w, _, _) => Some(w)
    case PreRestoreDone(w) => Some(w)
    case Open(w) => Some(w)
    case ListTables(w) => Some(w)
    case Drop(w, _) => Some(w)
    case Cleared(w) => Some(w)
    case LoadSucceeds(w) => Some(w)
    case LoadFails(w, _) => Some(w)
    case Abandon(w) => Some(w)
    case _ => None
  }

  lemma OthersStay(k: Tools, y: System, e: Event)
    requires Possible(k, y, e)
    ensures forall w :: Mover(e) != Some(w) ==> Get(Step(k, y, e).restores, w) == Get(y.restores, w)
    ensures |y.replaced| <= |Step(k, y, e).replaced|
    ensures forall i :: 0 <= i < |y.replaced| ==> Step(k, y, e).replaced[i] == y.replaced[i]
  {
  }

  predicate SameBackup(a: Job, b: Job) {
    a.kind == b.kind && a.source == b.source && a.content == b.content
  }

  lemma JobsStay(k: Tools, y: System, e: Event)
    requires Possible(k, y, e)
    requires !(e.Upload? || e.Insert? || e.Reload? || e.Exit? || e.StartBackup? || e.StartPreRestore?)
    ensures Step(k, y, e).jobs == y.jobs
  {
  }

  /** A job keeps what it is about, and only an insert gives it a new record. */
  lemma JobsAdvance(k: Tools, y: System, e: Event)
    requires Possible(k, y, e)
    ensures forall j :: j in y.jobs ==> j in Step(k, y, e).jobs && SameBackup(y.jobs[j], Step(k, y, e).jobs[j])
  {
    var y' := Step(k, y, e);
    if e.Upload? || e.Insert? || e.Reload? || e.Exit? {
      assert y'.jobs == y.jobs[e.j := y'.jobs[e.j]];
    } else if e.StartBackup? || e.StartPreRestore? {
      assert y'.jobs == y.jobs[e.j := y'.jobs[e.j]] && e.j !in y.jobs;
    } else {
      JobsStay(k, y, e);
    }
  }

  lemma OnlyInsertsRecord(k: Tools, y: System, e: Event)
    requires Possible(k, y, e)
    ensures forall j, r :: RecordedAs(Step(k, y, e), j, r) ==>
        RecordedAs(y, j, r) || (e.Insert? && e.j == j && e.r == r && e.outcome == Succeeds)
  {
  }

  lemma OnlyCompleteDumpsExitOk(k: Tools, y: System, e: Event)
    requires Possible(k, y, e)
    ensures forall j :: j in Step(k, y, e).jobs && Step(k, y, e).jobs[j].exit == ExitedOk ==>
              j in y.jobs && (y.jobs[j].exit == ExitedOk || y.jobs[j].content == k.dump(y.jobs[j].source))
  {
    var y' := Step(k, y, e);
    if e.Upload? || e.Insert? || e.Reload? || e.Exit? {
      assert y'.jobs == y.jobs[e.j := y'.jobs[e.j]];
    } else if e.StartBackup? || e.StartPreRestore? {
      assert y'.jobs == y.jobs[e.j := y'.jobs[e.j]] && e.j !in y.jobs;
    } else {
      JobsStay(k, y, e);
    }
  }

  lemma StepKeepsStore(k: Tools, y: System, e: Event)
    requires Inv(k, y) && Possible(k, y, e)
    ensures OnlyPeriodicGo(y.mongo, Step(k, y, e).mongo)
    ensures FilesOwned(Step(k, y, e)) && DeletionsAimed(Step(k, y, e))
  {
    if TouchesStore(e) {
      StoreStepKeeps(k, y, e);
    } else {
      StepFrame(k, y, e);
      UntouchedStoreKeeps(y, Step(k, y, e));
    }
  }

  lemma StoreStepKeeps(k: Tools, y: System, e: Event)
    requires Inv(k, y) && Possible(k, y, e) && TouchesStore(e)
    ensures OnlyPeriodicGo(y.mongo, Step(k, y, e).mongo)
    ensures FilesOwned(Step(k, y, e)) && DeletionsAimed(Step(k, y, e))
  {
    match e
    case Upload(j, f, outcome) => UploadKeeps(y, j, f, outcome);
    case Insert(j, r, now, outcome) => InsertKeeps(k, y, j, r, now, outcome);
    case Sweep(s, keep, listing) => SweepKeeps(y, s, keep, listing);
    case DeleteMeta(d, outcome) => DeleteMetaKeeps(y, d, outcome);
    case DeleteFile(d, outcome) => DeleteFileKeeps(y, d, outcome);
  }

  lemma HoldsStays(k: Tools, m: Mongo, n: Mongo, r: RecordId, kind: Kind, content: Bytes)
    requires OnlyPeriodicGo(m, n) && Holds(k, m, r, kind, content)
    requires kind != PeriodicFull || r in n.records
    ensures Holds(k, n, r, kind, content)
  {
  }

  lemma InsertedIsHeld(k: Tools, y: System, e: Event)
    requires Inv(k, y) && Possible(k, y, e) && e.Insert? && e.outcome == Succeeds
    ensures Holds(k, Step(k, y, e).mongo, e.r, y.jobs[e.j].kind, y.jobs[e.j].content)
  {
    assert UploadedAs(y, e.j, y.jobs[e.j].stage.file);
  }

  lemma StepKeepsJobs(k: Tools, y: System, e: Event)
    requires Inv(k, y) && Possible(k, y, e)
    ensures JobsRecorded(k, Step(k, y, e))
  {
    var y' := Step(k, y, e);
    StepKeepsStore(k, y, e);
    JobsAdvance(k, y, e);
    OnlyInsertsRecord(k, y, e);
    OnlyCompleteDumpsExitOk(k, y, e);
    JobsStayRecorded(k, y, y', e);
  }

  lemma JobsStayRecorded(k: Tools, y: System, y': System, e: Event)
    requires Inv(k, y) && Possible(k, y, e) && y' == Step(k, y, e) && OnlyPeriodicGo(y.mongo, y'.mongo)
    requires forall j :: j in y.jobs ==> j in y'.jobs && SameBackup(y.jobs[j], y'.jobs[j])
    requires forall j, r :: RecordedAs(y', j, r) ==>
        RecordedAs(y, j, r) || (e.Insert? && e.j == j && e.r == r && e.outcome == Succeeds)
    requires forall j :: j in y'.jobs && y'.jobs[j].exit == ExitedOk ==>
               j in y.jobs && (y.jobs[j].exit == ExitedOk || y.jobs[j].content == k.dump(y.jobs[j].source))
    ensures JobsRecorded(k, y')
  {
    forall j, r | RecordedAs(y', j, r)
      ensures r in y'.mongo.usedRecords
              && (r in y'.mongo.records || y'.jobs[j].kind == PreRestore ==>
                  Holds(k, y'.mongo, r, y'.jobs[j].kind, y'.jobs[j].content))
    {
      if RecordedAs(y, j, r) {
        if r in y'.mongo.records || y.jobs[j].kind == PreRestore {
          HoldsStays(k, y.mongo, y'.mongo, r, y.jobs[j].kind, y.jobs[j].content);
        }
      } else {
        InsertedIsHeld(k, y, e);
      }
    }
  }

  /** Only a restore's first change adds to the log. */
  lemma OnlyChangesAreLogged(k: Tools, y: System, e: Event)
    requires Possible(k, y, e) && Step(k, y, e).replaced != y.replaced
    ensures Mover(e).Some? && Mover(e).value in y.restores && MayAlter(y.restores[Mover(e).value])
    ensures var x := y.restores[Mover(e).value];
            && x.entry.None? && Step(k, y, e).db != y.db
            && Step(k, y, e).replaced == y.replaced + [Replacement(y.db, x.snapshot, x.pre)]
  {
  }

  lemma StepKeepsReplaced(k: Tools, y: System, e: Event)
    requires Inv(k, y) && Possible(k, y, e)
    ensures ReplacedKept(k, Step(k, y, e))
  {
    var y' := Step(k, y, e);
    StepKeepsStore(k, y, e);
    if y'.replaced != y.replaced {
      OnlyChangesAreLogged(k, y, e);
      var x := y.restores[Mover(e).value];
      assert RestoreFollows(k, y, x);
      HoldsStays(k, y.mongo, y'.mongo, x.pre, PreRestore, k.dump(x.snapshot));
    }
    forall i | 0 <= i < |y.replaced| ensures Kept(k, y'.mongo, y.replaced[i].pre, y.replaced[i].snapshot) {
      HoldsStays(k, y.mongo, y'.mongo, y.replaced[i].pre, PreRestore, k.dump(y.replaced[i].snapshot));
    }
  }

  /** A restore that does not move itself still follows. */
  lemma StillFollows(k: Tools, y: System, y': System, x: Restore)
    requires RestoreFollows(k, y, x) && OnlyPeriodicGo(y.mongo, y'.mongo) && |y.replaced| <= |y'.replaced|
    requires forall i :: 0 <= i < |y.replaced| ==> y'.replaced[i] == y.replaced[i]
    requires forall j :: j in y.jobs ==> j in y'.jobs && SameBackup(y.jobs[j], y'.jobs[j])
    ensures RestoreFollows(k, y', x)
  {
    if x.Opening? || x.Listing? || x.Clearing? || x.Loading? {
      HoldsStays(k, y.mongo, y'.mongo, x.pre, PreRestore, k.dump(x.snapshot));
    }
  }

  lemma MovedFollows(k: Tools, y: System, e: Event, w: WorkerId)
    requires Inv(k, y) && Possible(k, y, e) && Mover(e) == Some(w) && w in Step(k, y, e).restores
    ensures RestoreFollows(k, Step(k, y, e), Step(k, y, e).restores[w])
  {
    if w in y.restores {
      assert RestoreFollows(k, y, y.restores[w]);
    }
    if e.PreRestoreDone? {
      var x := y.restores[w];
      assert RecordedAs(y, x.job, y.jobs[x.job].stage.record);
    }
  }

  lemma StepKeepsRestores(k: Tools, y: System, e: Event)
    requires Inv(k, y) && Possible(k, y, e)
    ensures RestoresFollow(k, Step(k, y, e))
  {
    var y' := Step(k, y, e);
    StepKeepsStore(k, y, e);
    JobsAdvance(k, y, e);
    OthersStay(k, y, e);
    forall w | w in y'.restores ensures RestoreFollows(k, y', y'.restores[w]) {
      if Mover(e) == Some(w) {
        MovedFollows(k, y, e, w);
      } else {
        assert Get(y'.restores, w) == Get(y.restores, w);
        StillFollows(k, y, y', y.restores[w]);
      }
    }
  }

  lemma StepKeeps(k: Tools, y: System, e: Event)
    requires Inv(k, y) && Possible(k, y, e)
    ensures Inv(k, Step(k, y, e))
  {
    StepKeepsStore(k, y, e);
    StepKeepsJobs(k, y, e);
    StepKeepsReplaced(k, y, e);
    StepKeepsRestores(k, y, e);
  }

  lemma {:induction false} RunKeeps(k: Tools, y: System, es: seq<Event>)
    requires Inv(k, y) && PossibleRun(k, y, es)
    ensures Inv(k, Run(k, y, es))
    decreases |es|
  {
    if es != [] {
      StepKeeps(k, y, es[0]);
      RunKeeps(k, Step(k, y, es[0]), es[1..]);
    }
  }
}
