/** Backups of the database in MongoDB and restores from them, as a machine whose steps are single calls. Any
    call may fail, before or after its effect. Backups, retention sweeps and the restores of any number of processes
    run side by side, the parallel parts of each in any order, and the application writes at any time. */
module BackupModel {
  import opened Common
  import opened Ordering

  type Bytes = seq<bv8>
  type RecordId = string
  type FileId = string
  type JobId = string
  type SweepId = string

  /** Tables and their contents. */
  type Database = map<string, string>

  /** mysqldump, mysql, and SHA-256 as uninterpreted functions. */
  datatype Tools = Tools(dump: Database -> Bytes, load: (Database, Bytes) -> Database, sha: Bytes -> string)

  /** Loading a full dump recreates the dumped tables with their contents and leaves other tables alone. */
  ghost predicate Faithful(k: Tools) {
    forall d, e :: k.load(d, k.dump(e)) == d + e
  }

  // ---------------------------------------------------------------------------
  // The backup store
  // ---------------------------------------------------------------------------

  datatype Kind = PeriodicFull | RollingData | PreRestore
  datatype Scope = Full | DataOnly

  datatype Record = Record(kind: Kind, scope: Scope, file: FileId, checksum: string, size: nat, created: int)

  /** Records and files, and every id ever given out. */
  datatype Mongo = Mongo(records: map<RecordId, Record>, files: map<FileId, Bytes>, usedRecords: set<RecordId>,
      usedFiles: set<FileId>)

  predicate IsPeriodic(r: Record) {
    r.kind == PeriodicFull && r.scope == Full
  }

  function PeriodicTimes(m: Mongo): map<RecordId, int> {
    map r | r in m.records && IsPeriodic(m.records[r]) :: m.records[r].created
  }

  /** A file that passes the check made while it is downloaded. */
  predicate Validates(k: Tools, m: Mongo, r: Record) {
    r.file in m.files && k.sha(m.files[r.file]) == r.checksum && |m.files[r.file]| == r.size
  }

  /** How a call ends: a failing one may have had its effect or not. */
  datatype Outcome = Succeeds | FailsAfter | FailsBefore

  // ---------------------------------------------------------------------------
  // Backups under way
  // ---------------------------------------------------------------------------

  datatype Stage = Uploading | Uploaded(file: FileId) | Inserted(record: RecordId) | Stored(record: RecordId) | Broken
  datatype Exit = Running | ExitedOk | ExitedWithError

  /** `content` is what mysqldump wrote of `source`: all of it, or the part before it failed. */
  datatype Job = Job(kind: Kind, source: Database, content: Bytes, stage: Stage, exit: Exit)

  // ---------------------------------------------------------------------------
  // Retention sweeps under way
  // ---------------------------------------------------------------------------

  datatype Removal = Removal(sweep: SweepId, record: RecordId)

  /** `removed` says whether this deletion is the one that took the record out. */
  datatype Progress = MetaPending | FilePending(removed: bool) | Fulfilled(removed: bool) | Rejected(removed: bool)

  datatype Deletion = Deletion(file: FileId, progress: Progress)

  // ---------------------------------------------------------------------------
  // The restores under way
  // ---------------------------------------------------------------------------

  /** `entry` is the restore's place in the log of replacements, once it has altered the database. */
  datatype Restore =
    | Testing(selected: RecordId, record: Record)
    | Dumping(selected: RecordId, record: Record, snapshot: Database, job: JobId)
    | Opening(selected: RecordId, record: Record, snapshot: Database, pre: RecordId)
    | Listing(selected: RecordId, record: Record, snapshot: Database, pre: RecordId)
    | Clearing(selected: RecordId, record: Record, snapshot: Database, pre: RecordId, entry: Option<nat>,
        tables: set<string>)
    | Loading(selected: RecordId, record: Record, snapshot: Database, pre: RecordId, entry: Option<nat>)

  /** Right before its first change by a restore the database held `held`; the pre-restore backup was of `snapshot`. */
  datatype Replacement = Replacement(held: Database, snapshot: Database, pre: RecordId)

  /** At most one restore in a process, whose flag sees to that: see BackupServices. */
  datatype System = System(
    db: Database,
    mongo: Mongo,
    jobs: map<JobId, Job>,
    deletions: map<Removal, Deletion>,
    restores: map<WorkerId, Restore>,
    replaced: seq<Replacement>)

  datatype Event =
    | AppWrite(db: Database)
    | StartBackup(j: JobId, cut: nat)
    | Upload(j: JobId, f: FileId, outcome: Outcome)
    | Insert(j: JobId, r: RecordId, now: int, outcome: Outcome)
    | Reload(j: JobId, ok: bool)
    | Exit(j: JobId, ok: bool)
    | Sweep(s: SweepId, keep: int, listing: seq<RecordId>)
    | DeleteMeta(d: Removal, outcome: Outcome)
    | DeleteFile(d: Removal, outcome: Outcome)
    | Begin(w: WorkerId, r: RecordId)
    | StartPreRestore(w: WorkerId, j: JobId, cut: nat)
    | PreRestoreDone(w: WorkerId)
    | Open(w: WorkerId)
    | ListTables(w: WorkerId)
    | Drop(w: WorkerId, table: string)
    | Cleared(w: WorkerId)
    | LoadSucceeds(w: WorkerId)
    | LoadFails(w: WorkerId, db: Database)
    | Abandon(w: WorkerId)

  predicate AtStage(y: System, j: JobId, stage: Stage) {
    j in y.jobs && y.jobs[j].stage == stage
  }

  /** The records of a listing past the first `keep`; a negative `keep` counts as zero. */
  function Surplus(listing: seq<RecordId>, keep: int): seq<RecordId> {
    var n := if keep < 0 then 0 else keep;
    if n <= |listing| then listing[n..] else []
  }

  ghost predicate Possible(k: Tools, y: System, e: Event) {
    match e
    case AppWrite(db) => true
    case StartBackup(j, cut) => j !in y.jobs && cut <= |k.dump(y.db)|
    case Upload(j, f, outcome) => AtStage(y, j, Uploading) && f !in y.mongo.usedFiles
    case Insert(j, r, now, outcome) => j in y.jobs && y.jobs[j].stage.Uploaded? && r !in y.mongo.usedRecords
    case Reload(j, ok) =>
      j in y.jobs && y.jobs[j].stage.Inserted? && (ok ==> y.jobs[j].stage.record in y.mongo.records)
    case Exit(j, ok) =>
      j in y.jobs && y.jobs[j].exit == Running && (ok ==> y.jobs[j].content == k.dump(y.jobs[j].source))
    case Sweep(s, keep, listing) =>
      && NewestFirst(listing, PeriodicTimes(y.mongo))
      && forall d :: d in y.deletions ==> d.sweep != s
    case DeleteMeta(d, outcome) => d in y.deletions && y.deletions[d].progress.MetaPending?
    case DeleteFile(d, outcome) => d in y.deletions && y.deletions[d].progress.FilePending?
    case Begin(w, r) => w !in y.restores && r in y.mongo.records
    case StartPreRestore(w, j, cut) =>
      && w in y.restores && y.restores[w].Testing? && y.restores[w].record.file in y.mongo.files
      && j !in y.jobs && cut <= |k.dump(y.db)|
    case PreRestoreDone(w) =>
      && w in y.restores && y.restores[w].Dumping? && y.restores[w].job in y.jobs
      && y.jobs[y.restores[w].job].stage.Stored? && y.jobs[y.restores[w].job].exit == ExitedOk
    case Open(w) => w in y.restores && y.restores[w].Opening?
    case ListTables(w) => w in y.restores && y.restores[w].Listing?
    case Drop(w, table) => w in y.restores && y.restores[w].Clearing? && table in y.restores[w].tables
    case Cleared(w) => w in y.restores && y.restores[w].Clearing? && y.restores[w].tables == {}
    case LoadSucceeds(w) => w in y.restores && y.restores[w].Loading? && Validates(k, y.mongo, y.restores[w].record)
    case LoadFails(w, db) => w in y.restores && y.restores[w].Loading?
    case Abandon(w) => w in y.restores
  }

  function AtNewStage(y: System, j: JobId, stage: Stage): System
    requires j in y.jobs
  {
    y.(jobs := y.jobs[j := y.jobs[j].(stage := stage)])
  }

  function AfterUpload(y: System, j: JobId, f: FileId, outcome: Outcome): System
    requires j in y.jobs
  {
    var y' := AtNewStage(y, j, if outcome == Succeeds then Uploaded(f) else Broken);
    if outcome == FailsBefore then y'
    else y'.(mongo := y.mongo.(files := y.mongo.files[f := y.jobs[j].content], usedFiles := y.mongo.usedFiles + {f}))
  }

  function RecordOf(k: Tools, job: Job, now: int): Record
    requires job.stage.Uploaded?
  {
    Record(job.kind, Full, job.stage.file, k.sha(job.content), |job.content|, now)
  }

  function AfterInsert(k: Tools, y: System, j: JobId, r: RecordId, now: int, outcome: Outcome): System
    requires j in y.jobs && y.jobs[j].stage.Uploaded?
  {
    var y' := AtNewStage(y, j, if outcome == Succeeds then Inserted(r) else Broken);
    if outcome == FailsBefore then y'
    else
      y'.(mongo := y.mongo.(records := y.mongo.records[r := RecordOf(k, y.jobs[j], now)],
          usedRecords := y.mongo.usedRecords + {r}))
  }

  function AfterExit(y: System, j: JobId, ok: bool): System
    requires j in y.jobs
  {
    y.(jobs := y.jobs[j := y.jobs[j].(exit := if ok then ExitedOk else ExitedWithError)])
  }

  function AfterDeleteMeta(y: System, d: Removal, outcome: Outcome): System
    requires d in y.deletions
  {
    var removed := outcome != FailsBefore && d.record in y.mongo.records;
    var progress := if outcome == Succeeds then FilePending(removed) else Rejected(removed);
    var mongo := if removed then y.mongo.(records := y.mongo.records - {d.record}) else y.mongo;
    y.(mongo := mongo, deletions := y.deletions[d := y.deletions[d].(progress := progress)])
  }

  /** A failing file deletion is only logged. */
  function AfterDeleteFile(y: System, d: Removal, outcome: Outcome): System
    requires d in y.deletions && y.deletions[d].progress.FilePending?
  {
    var removed := y.deletions[d].progress.removed;
    var mongo := if outcome == FailsBefore then y.mongo else y.mongo.(files := y.mongo.files - {y.deletions[d].file});
    y.(mongo := mongo, deletions := y.deletions[d := y.deletions[d].(progress := Fulfilled(removed))])
  }

  function AfterSweep(y: System, s: SweepId, keep: int, listing: seq<RecordId>): System
    requires forall r :: r in listing ==> r in y.mongo.records
  {
    y.(deletions := y.deletions + map r | r in Surplus(listing, keep) ::
        Removal(s, r) := Deletion(y.mongo.records[r].file, MetaPending))
  }

  function WithRestore(y: System, w: WorkerId, x: Restore): System {
    y.(restores := y.restores[w := x])
  }

  function WithoutRestore(y: System, w: WorkerId): System {
    y.(restores := y.restores - {w})
  }

  predicate MayAlter(x: Restore) {
    x.Clearing? || x.Loading?
  }

  /** The log after x has put `db` in place of what there was, and x's place in it. */
  function Logged(y: System, x: Restore, db: Database): seq<Replacement>
    requires MayAlter(x)
  {
    if x.entry.None? && db != y.db then y.replaced + [Replacement(y.db, x.snapshot, x.pre)] else y.replaced
  }

  function EntryAfter(y: System, x: Restore, db: Database): Option<nat>
    requires MayAlter(x)
  {
    if x.entry.None? && db != y.db then Some(|y.replaced|) else x.entry
  }

  function AfterDrop(y: System, w: WorkerId, table: string): System
    requires w in y.restores && y.restores[w].Clearing?
  {
    var x, db := y.restores[w], y.db - {table};
    WithRestore(y, w, x.(tables := x.tables - {table}, entry := EntryAfter(y, x, db))).(db := db,
        replaced := Logged(y, x, db))
  }

  function AfterLoad(y: System, w: WorkerId, db: Database): System
    requires w in y.restores && y.restores[w].Loading?
  {
    WithoutRestore(y, w).(db := db, replaced := Logged(y, y.restores[w], db))
  }

  ghost function Step(k: Tools, y: System, e: Event): System
    requires Possible(k, y, e)
  {
    match e
    case AppWrite(db) => y.(db := db)
    case StartBackup(j, cut) =>
      y.(jobs := y.jobs[j := Job(PeriodicFull, y.db, k.dump(y.db)[..cut], Uploading, Running)])
    case Upload(j, f, outcome) => AfterUpload(y, j, f, outcome)
    case Insert(j, r, now, outcome) => AfterInsert(k, y, j, r, now, outcome)
    case Reload(j, ok) => AtNewStage(y, j, if ok then Stored(y.jobs[j].stage.record) else Broken)
    case Exit(j, ok) => AfterExit(y, j, ok)
    case Sweep(s, keep, listing) => AfterSweep(y, s, keep, listing)
    case DeleteMeta(d, outcome) => AfterDeleteMeta(y, d, outcome)
    case DeleteFile(d, outcome) => AfterDeleteFile(y, d, outcome)
    case Begin(w, r) => WithRestore(y, w, Testing(r, y.mongo.records[r]))
    case StartPreRestore(w, j, cut) =>
      var x := y.restores[w];
      WithRestore(y, w, Dumping(x.selected, x.record, y.db, j))
        .(jobs := y.jobs[j := Job(PreRestore, y.db, k.dump(y.db)[..cut], Uploading, Running)])
    case PreRestoreDone(w) =>
      var x := y.restores[w];
      WithRestore(y, w, Opening(x.selected, x.record, x.snapshot, y.jobs[x.job].stage.record))
    case Open(w) =>
      var x := y.restores[w];
      WithRestore(y, w, if x.record.scope == Full then Listing(x.selected, x.record, x.snapshot, x.pre)
                        else Loading(x.selected, x.record, x.snapshot, x.pre, None))
    case ListTables(w) =>
      var x := y.restores[w];
      WithRestore(y, w, Clearing(x.selected, x.record, x.snapshot, x.pre, None, y.db.Keys))
    case Drop(w, table) => AfterDrop(y, w, table)
    case Cleared(w) =>
      var x := y.restores[w];
      WithRestore(y, w, Loading(x.selected, x.record, x.snapshot, x.pre, x.entry))
    case LoadSucceeds(w) => AfterLoad(y, w, k.load(y.db, y.mongo.files[y.restores[w].record.file]))
    case LoadFails(w, db) => AfterLoad(y, w, db)
    case Abandon(w) => WithoutRestore(y, w)
  }

  ghost predicate PossibleRun(k: Tools, y: System, es: seq<Event>)
    decreases |es|
  {
    es == [] || (Possible(k, y, es[0]) && PossibleRun(k, Step(k, y, es[0]), es[1..]))
  }

  ghost function Run(k: Tools, y: System, es: seq<Event>): System
    requires PossibleRun(k, y, es)
    decreases |es|
  {
    if es == [] then y else Run(k, Step(k, y, es[0]), es[1..])
  }

  /** Nothing under way; the store holds what earlier processes left, one file to a record. */
  ghost predicate Start(y: System) {
    && y.jobs == map[] && y.deletions == map[] && y.restores == map[] && y.replaced == []
    && y.mongo.records.Keys <= y.mongo.usedRecords && y.mongo.files.Keys <= y.mongo.usedFiles
    && (forall r :: r in y.mongo.records ==> y.mongo.records[r].file in y.mongo.files)
    && (forall q, r ::
        q in y.mongo.records && r in y.mongo.records && y.mongo.records[q].file == y.mongo.records[r].file ==> q == r)
  }
}
