/** The calls of a backup and of a retention sweep, made one after another, as runs of the backup machine. */
module BackupRuns {
  import opened Ordering
  import opened BackupModel
  import opened BackupSafety
  import opened BackupTheorems
  import opened BackupStore

  /** How the calls of a backup end: mysqldump writes `cut` bytes at most, and its process ends after `exitAt` of the
      storing calls. */
  datatype BackupPlan = BackupPlan(starts: bool, cut: nat, uploads: Outcome, inserts: Outcome, reloads: bool,
      exits: bool, exitAt: nat)

  // ---------------------------------------------------------------------------
  // A backup as steps
  // ---------------------------------------------------------------------------

  /** The storing calls, up to the first that fails. */
  function Storing(j: JobId, f: FileId, r: RecordId, now: int, p: BackupPlan): seq<Event> {
    [Upload(j, f, p.uploads)]
    + (if p.uploads != Succeeds then []
       else [Insert(j, r, now, p.inserts)] + (if p.inserts != Succeeds then [] else [Reload(j, p.reloads)] + []))
  }

  function WithExit(es: seq<Event>, at: nat, exit: Event): seq<Event> {
    var n := if at <= |es| then at else |es|;
    es[..n] + ([exit] + es[n..])
  }

  /** The steps a backup's calls amount to, once its dump has started. */
  function BackupSteps(j: JobId, f: FileId, r: RecordId, now: int, p: BackupPlan, exits: bool): seq<Event> {
    WithExit(Storing(j, f, r, now, p), p.exitAt, Exit(j, exits))
  }

  predicate StoresFor(e: Event, j: JobId) {
    (e.Upload? || e.Insert? || e.Reload?) && e.j == j
  }

  lemma UploadCommutes(y: System, j: JobId, f: FileId, outcome: Outcome, ok: bool)
    requires j in y.jobs
    ensures AfterExit(AfterUpload(y, j, f, outcome), j, ok) == AfterUpload(AfterExit(y, j, ok), j, f, outcome)
  {
    var a, b := AfterExit(AfterUpload(y, j, f, outcome), j, ok), AfterUpload(AfterExit(y, j, ok), j, f, outcome);
    assert a.jobs[j] == b.jobs[j] && a.jobs == y.jobs[j := a.jobs[j]] && b.jobs == y.jobs[j := b.jobs[j]];
  }

  lemma InsertCommutes(k: Tools, y: System, j: JobId, r: RecordId, now: int, outcome: Outcome, ok: bool)
    requires j in y.jobs && y.jobs[j].stage.Uploaded?
    ensures AfterExit(AfterInsert(k, y, j, r, now, outcome), j, ok) ==
        AfterInsert(k, AfterExit(y, j, ok), j, r, now, outcome)
  {
    var a, b := AfterExit(AfterInsert(k, y, j, r, now, outcome), j, ok),
        AfterInsert(k, AfterExit(y, j, ok), j, r, now, outcome);
    assert a.jobs[j] == b.jobs[j] && a.jobs == y.jobs[j := a.jobs[j]] && b.jobs == y.jobs[j := b.jobs[j]];
  }

  lemma StageCommutes(y: System, j: JobId, stage: Stage, ok: bool)
    requires j in y.jobs
    ensures AfterExit(AtNewStage(y, j, stage), j, ok) == AtNewStage(AfterExit(y, j, ok), j, stage)
  {
    var a, b := AfterExit(AtNewStage(y, j, stage), j, ok), AtNewStage(AfterExit(y, j, ok), j, stage);
    assert a.jobs[j] == b.jobs[j] && a.jobs == y.jobs[j := a.jobs[j]] && b.jobs == y.jobs[j := b.jobs[j]];
  }

  lemma ExitCommutes(k: Tools, y: System, e: Event, j: JobId, ok: bool)
    requires StoresFor(e, j) && Possible(k, y, e) && Possible(k, y, Exit(j, ok))
    ensures Possible(k, Step(k, y, e), Exit(j, ok)) && Possible(k, AfterExit(y, j, ok), e)
    ensures AfterExit(Step(k, y, e), j, ok) == Step(k, AfterExit(y, j, ok), e)
  {
    match e
    case Upload(_, f, outcome) => UploadCommutes(y, j, f, outcome, ok);
    case Insert(_, r, now, outcome) => InsertCommutes(k, y, j, r, now, outcome, ok);
    case Reload(_, found) => StageCommutes(y, j, if found then Stored(y.jobs[j].stage.record) else Broken, ok);
  }

  lemma {:induction false} ExitFirst(k: Tools, y: System, es: seq<Event>, j: JobId, ok: bool)
    requires PossibleRun(k, y, es) && Possible(k, y, Exit(j, ok)) && forall i :: 0 <= i < |es| ==> StoresFor(es[i], j)
    ensures PossibleRun(k, Step(k, y, Exit(j, ok)), es) && Possible(k, Run(k, y, es), Exit(j, ok))
    ensures Run(k, Step(k, y, Exit(j, ok)), es) == Step(k, Run(k, y, es), Exit(j, ok))
    decreases |es|
  {
    if es != [] {
      assert StoresFor(es[0], j);
      ExitCommutes(k, y, es[0], j, ok);
      ExitFirst(k, Step(k, y, es[0]), es[1..], j, ok);
    }
  }

  lemma WithExitLater(es: seq<Event>, at: nat, exit: Event)
    requires at > 0 && es != []
    ensures WithExit(es, at, exit) == [es[0]] + WithExit(es[1..], at - 1, exit)
  {
    var n := if at <= |es| then at else |es|;
    assert es[..n] == [es[0]] + es[1..][..n - 1] && es[n..] == es[1..][n - 1..];
  }

  /** The dump process may end between any two storing calls; it makes no difference to where they lead. */
  lemma {:induction false} ExitAnywhere(k: Tools, y: System, es: seq<Event>, at: nat, j: JobId, ok: bool)
    requires PossibleRun(k, y, es) && Possible(k, y, Exit(j, ok)) && forall i :: 0 <= i < |es| ==> StoresFor(es[i], j)
    ensures PossibleRun(k, y, WithExit(es, at, Exit(j, ok))) && Possible(k, Run(k, y, es), Exit(j, ok))
    ensures Run(k, y, WithExit(es, at, Exit(j, ok))) == Step(k, Run(k, y, es), Exit(j, ok))
    decreases |es|
  {
    if at == 0 || es == [] {
      ExitFirst(k, y, es, j, ok);
      RunStep(k, y, Exit(j, ok), es);
      assert WithExit(es, at, Exit(j, ok)) == [Exit(j, ok)] + es;
    } else {
      assert StoresFor(es[0], j);
      ExitCommutes(k, y, es[0], j, ok);
      ExitAnywhere(k, Step(k, y, es[0]), es[1..], at - 1, j, ok);
      RunStep(k, y, es[0], WithExit(es[1..], at - 1, Exit(j, ok)));
      WithExitLater(es, at, Exit(j, ok));
    }
  }

  lemma StoringRuns(k: Tools, y: System, j: JobId, f: FileId, r: RecordId, now: int, p: BackupPlan)
    requires AtStage(y, j, Uploading) && f !in y.mongo.usedFiles && r !in y.mongo.usedRecords
    ensures PossibleRun(k, y, Storing(j, f, r, now, p))
    ensures var y' := Run(k, y, Storing(j, f, r, now, p));
            && y'.mongo == Saved(k, y.mongo, y.jobs[j].kind, y.jobs[j].content, f, r, now, p.uploads, p.inserts)
            && y' == y.(mongo := y'.mongo, jobs := y'.jobs)
            && j in y'.jobs && SameBackup(y.jobs[j], y'.jobs[j]) && y'.jobs[j].exit == y.jobs[j].exit
            && (p.uploads == Succeeds && p.inserts == Succeeds && p.reloads ==> y'.jobs[j].stage == Stored(r))
  {
    var y1 := Step(k, y, Upload(j, f, p.uploads));
    if p.uploads != Succeeds {
      RunStep(k, y, Upload(j, f, p.uploads), []);
    } else {
      InsertingRuns(k, y1, j, r, now, p);
      var rest := [Insert(j, r, now, p.inserts)] + (if p.inserts != Succeeds then [] else [Reload(j, p.reloads)] + []);
      RunStep(k, y, Upload(j, f, p.uploads), rest);
      assert Storing(j, f, r, now, p) == [Upload(j, f, p.uploads)] + rest;
    }
  }

  lemma InsertingRuns(k: Tools, y: System, j: JobId, r: RecordId, now: int, p: BackupPlan)
    requires j in y.jobs && y.jobs[j].stage.Uploaded? && r !in y.mongo.usedRecords
    ensures var es := [Insert(j, r, now, p.inserts)] + (if p.inserts != Succeeds then []
        else [Reload(j, p.reloads)] + []);
            && PossibleRun(k, y, es)
            && var y' := Run(k, y, es);
               && y'.mongo == AfterInsert(k, y, j, r, now, p.inserts).mongo
               && y' == y.(mongo := y'.mongo, jobs := y'.jobs)
               && j in y'.jobs && SameBackup(y.jobs[j], y'.jobs[j]) && y'.jobs[j].exit == y.jobs[j].exit
               && (p.inserts == Succeeds && p.reloads ==> y'.jobs[j].stage == Stored(r))
  {
    var y1 := Step(k, y, Insert(j, r, now, p.inserts));
    if p.inserts != Succeeds {
      RunStep(k, y, Insert(j, r, now, p.inserts), []);
    } else {
      RunStep(k, y1, Reload(j, p.reloads), []);
      RunStep(k, y, Insert(j, r, now, p.inserts), [Reload(j, p.reloads)] + []);
    }
  }

  lemma SavingRuns(k: Tools, y: System, j: JobId, f: FileId, r: RecordId, now: int, p: BackupPlan, exits: bool)
    requires AtStage(y, j, Uploading) && y.jobs[j].exit == Running && f !in y.mongo.usedFiles &&
        r !in y.mongo.usedRecords
    requires exits ==> y.jobs[j].content == k.dump(y.jobs[j].source)
    ensures PossibleRun(k, y, BackupSteps(j, f, r, now, p, exits))
    ensures var y' := Run(k, y, BackupSteps(j, f, r, now, p, exits));
            && y'.mongo == Saved(k, y.mongo, y.jobs[j].kind, y.jobs[j].content, f, r, now, p.uploads, p.inserts)
            && y' == y.(mongo := y'.mongo, jobs := y'.jobs)
            && j in y'.jobs && (exits ==> y'.jobs[j].exit == ExitedOk)
            && (p.uploads == Succeeds && p.inserts == Succeeds && p.reloads ==> y'.jobs[j].stage == Stored(r))
  {
    StoringRuns(k, y, j, f, r, now, p);
    ExitAnywhere(k, y, Storing(j, f, r, now, p), p.exitAt, j, exits);
  }

  // ---------------------------------------------------------------------------
  // A sweep as steps
  // ---------------------------------------------------------------------------

  function DeletionSteps(d: Removal, fate: Fate): seq<Event> {
    [DeleteMeta(d, fate.meta)] + if fate.meta == Succeeds then [DeleteFile(d, fate.file)] else []
  }

  /** Where the two calls lead. */
  function Deleted(y: System, d: Removal, fate: Fate): System
    requires d in y.deletions && y.deletions[d].progress == MetaPending
  {
    var y1 := AfterDeleteMeta(y, d, fate.meta);
    if fate.meta == Succeeds then AfterDeleteFile(y1, d, fate.file) else y1
  }

  lemma DeletionRuns(k: Tools, y: System, d: Removal, fate: Fate)
    requires d in y.deletions && y.deletions[d].progress == MetaPending
    requires d.record in y.mongo.records && y.mongo.records[d.record].file == y.deletions[d].file
    ensures PossibleRun(k, y, DeletionSteps(d, fate))
    ensures var y' := Run(k, y, DeletionSteps(d, fate));
            && SweptOne(y.mongo, d.record, fate, y'.mongo)
            && d in y'.deletions
            && y' == y.(mongo := y'.mongo, deletions := y.deletions[d := y'.deletions[d]])
  {
    var y1 := Step(k, y, DeleteMeta(d, fate.meta));
    if fate.meta == Succeeds {
      RunStep(k, y1, DeleteFile(d, fate.file), []);
      assert [DeleteFile(d, fate.file)] + [] == [DeleteFile(d, fate.file)];
      RunStep(k, y, DeleteMeta(d, fate.meta), [DeleteFile(d, fate.file)]);
    } else {
      RunStep(k, y, DeleteMeta(d, fate.meta), []);
    }
    assert Run(k, y, DeletionSteps(d, fate)) == Deleted(y, d, fate);
    DeletedIsSwept(y, d, fate);
  }

  lemma DeletedIsSwept(y: System, d: Removal, fate: Fate)
    requires d in y.deletions && y.deletions[d].progress == MetaPending
    requires d.record in y.mongo.records && y.mongo.records[d.record].file == y.deletions[d].file
    ensures var y' := Deleted(y, d, fate);
            && SweptOne(y.mongo, d.record, fate, y'.mongo)
            && d in y'.deletions
            && y' == y.(mongo := y'.mongo, deletions := y.deletions[d := y'.deletions[d]])
  {
    MetaDeletion(y, d, fate.meta);
    var y1 := AfterDeleteMeta(y, d, fate.meta);
    MinusNothing(y.mongo.files);
    RemovalShrinks(y.mongo.records, d.record);
    if fate.meta == Succeeds {
      FileDeletion(y1, d, fate.file);
    }
  }

  lemma MetaDeletion(y: System, d: Removal, outcome: Outcome)
    requires d in y.deletions && y.deletions[d].progress == MetaPending && d.record in y.mongo.records
    ensures var y' := AfterDeleteMeta(y, d, outcome);
            && y'.mongo == y.mongo.(records := y.mongo.records - if outcome != FailsBefore then {d.record} else {})
            && y' == y.(mongo := y'.mongo,
                deletions := y.deletions[d := y.deletions[d].(progress := y'.deletions[d].progress)])
            && (outcome == Succeeds ==> y'.deletions[d].progress.FilePending?)
  {
    MinusNothing(y.mongo.records);
  }

  lemma FileDeletion(y: System, d: Removal, outcome: Outcome)
    requires d in y.deletions && y.deletions[d].progress.FilePending?
    ensures var y' := AfterDeleteFile(y, d, outcome);
            && y'.mongo == y.mongo.(files := y.mongo.files - if outcome != FailsBefore then {y.deletions[d].file}
                else {})
            && y' == y.(mongo := y'.mongo, deletions := y.deletions[d := y'.deletions[d]])
  {
    MinusNothing(y.mongo.files);
  }

  /** These deletions are due, and their records are as they were chosen. */
  ghost predicate Due(y: System, s: SweepId, surplus: seq<RecordId>) {
    && (forall i, j :: 0 <= i < j < |surplus| ==> surplus[i] != surplus[j])
    && (forall i :: 0 <= i < |surplus| ==> DueOne(y, s, surplus[i]))
  }

  predicate DueOne(y: System, s: SweepId, r: RecordId) {
    && Removal(s, r) in y.deletions && r in y.mongo.records
    && y.deletions[Removal(s, r)] == Deletion(y.mongo.records[r].file, MetaPending)
  }

  /** Only the store and the deletions of these records by this sweep are touched. */
  ghost predicate OnlyDeletes(y: System, y': System, s: SweepId, surplus: seq<RecordId>) {
    && y' == y.(mongo := y'.mongo, deletions := y'.deletions)
    && forall d :: d in y.deletions && (d.sweep != s || d.record !in surplus) ==>
        d in y'.deletions && y'.deletions[d] == y.deletions[d]
  }

  lemma StillDue(y: System, s: SweepId, surplus: seq<RecordId>, fates: map<RecordId, Fate>, y': System, before: nat)
    requires surplus != [] && Due(y, s, surplus)
    requires OnlyDeletes(y, y', s, surplus[..|surplus| - 1])
    requires Swept(y.mongo, Members(surplus[..|surplus| - 1]), fates, y'.mongo, before)
    ensures DueOne(y', s, surplus[|surplus| - 1])
    ensures surplus[|surplus| - 1] in y.mongo.records
  {
    var n := |surplus| - 1;
    assert DueOne(y, s, surplus[n]) && surplus[n] !in surplus[..n];
    OneMoreLeft(y.mongo, surplus, n, fates, y'.mongo, before);
  }

  lemma DeletesOneMore(y: System, y': System, y'': System, s: SweepId, surplus: seq<RecordId>, progress: Deletion)
    requires surplus != [] && OnlyDeletes(y, y', s, surplus[..|surplus| - 1])
    requires y'' == y'.(mongo := y''.mongo, deletions := y'.deletions[Removal(s, surplus[|surplus| - 1]) := progress])
    ensures OnlyDeletes(y, y'', s, surplus)
  {
    assert forall r :: r in surplus[..|surplus| - 1] ==> r in surplus;
  }

  lemma LastDeletionRuns(k: Tools, y: System, s: SweepId, surplus: seq<RecordId>, fates: map<RecordId, Fate>,
      y': System, before: nat)
    requires surplus != [] && Due(y, s, surplus)
    requires OnlyDeletes(y, y', s, surplus[..|surplus| - 1])
    requires Swept(y.mongo, Members(surplus[..|surplus| - 1]), fates, y'.mongo, before)
    ensures var r := surplus[|surplus| - 1];
            var fate, d := FateOf(fates, r), Removal(s, r);
            && PossibleRun(k, y', DeletionSteps(d, fate))
            && OnlyDeletes(y, Run(k, y', DeletionSteps(d, fate)), s, surplus)
            && Swept(y.mongo, Members(surplus), fates, Run(k, y', DeletionSteps(d, fate)).mongo,
                if fate.meta == Succeeds then before + 1 else before)
  {
    var n := |surplus| - 1;
    var d, fate := Removal(s, surplus[n]), FateOf(fates, surplus[n]);
    StillDue(y, s, surplus, fates, y', before);
    DeletionRuns(k, y', d, fate);
    var y'' := Run(k, y', DeletionSteps(d, fate));
    DeletesOneMore(y, y', y'', s, surplus, y''.deletions[d]);
    OneMoreSwept(y.mongo, surplus, n, fates, y'.mongo, before, y''.mongo, fate.meta == Succeeds);
    assert surplus[..n + 1] == surplus;
  }

  lemma {:induction false} DeletionsRun(k: Tools, y: System, s: SweepId, surplus: seq<RecordId>,
      fates: map<RecordId, Fate>)
      returns (es: seq<Event>, count: nat)
    requires Due(y, s, surplus)
    ensures PossibleRun(k, y, es)
    ensures OnlyDeletes(y, Run(k, y, es), s, surplus)
    ensures Swept(y.mongo, Members(surplus), fates, Run(k, y, es).mongo, count)
    decreases |surplus|
  {
    if surplus == [] {
      es, count := [], 0;
      NothingSwept(y.mongo, fates);
      assert Members(surplus) == {};
    } else {
      var n := |surplus| - 1;
      var first, before := DeletionsRun(k, y, s, surplus[..n], fates);
      LastDeletionRuns(k, y, s, surplus, fates, Run(k, y, first), before);
      var last := DeletionSteps(Removal(s, surplus[n]), FateOf(fates, surplus[n]));
      RunOn(k, y, first, last);
      es, count := first + last, if FateOf(fates, surplus[n]).meta == Succeeds then before + 1 else before;
    }
  }

  lemma SweepRuns(k: Tools, y: System, s: SweepId, keep: int, listing: seq<RecordId>, fates: map<RecordId, Fate>)
      returns (es: seq<Event>)
    requires NewestFirst(listing, PeriodicTimes(y.mongo)) && forall d :: d in y.deletions ==> d.sweep != s
    ensures PossibleRun(k, y, es)
    ensures exists count :: Swept(y.mongo, Members(Surplus(listing, keep)), fates, Run(k, y, es).mongo, count)
    ensures Run(k, y, es) == y.(mongo := Run(k, y, es).mongo, deletions := Run(k, y, es).deletions)
  {
    var surplus := Surplus(listing, keep);
    var y' := Step(k, y, Sweep(s, keep, listing));
    SweepStarts(y, s, keep, listing);
    SurplusIsListed(listing, keep);
    forall i | 0 <= i < |surplus| ensures DueOne(y', s, surplus[i]) {
      assert Removal(s, surplus[i]) in y'.deletions;
      assert Removal(s, surplus[i]) !in y.deletions;
    }
    var rest, count := DeletionsRun(k, y', s, surplus, fates);
    RunStep(k, y, Sweep(s, keep, listing), rest);
    es := [Sweep(s, keep, listing)] + rest;
  }
}
