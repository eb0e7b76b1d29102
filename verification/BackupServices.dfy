/** The backup service: exclusive operations over the repository and the database. Every method is shown to be a
    run of the backup machine, however its calls end. */
module BackupServices {
  import opened Common
  import opened Ordering
  import opened BackupModel
  import opened BackupSafety
  import opened BackupTheorems
  import opened BackupOutcomes
  import opened BackupStore
  import opened BackupRuns
  import opened BackupLaws

  datatype Target = ById(id: RecordId) | LatestPeriodic | LatestRolling

  datatype Result = Busy | NotFound | Failed | Restored(from: RecordId, pre: RecordId)

  /** How the calls of a restore end: a failed load leaves `partial` in the database. */
  datatype RestorePlan = RestorePlan(opens: bool, backup: BackupPlan, reopens: bool, failsAtDrop: Option<nat>,
      loads: bool, partial: Database)

  /** The record asked for, the newest periodic one, or a rolling one; none if there is no such record. */
  ghost predicate Resolves(m: Mongo, target: Target, r: Option<RecordId>) {
    && (r.Some? ==> r.value in m.records)
    && match target
       case ById(id) => r == if id in m.records then Some(id) else None
       case LatestPeriodic =>
         if r.None? then PeriodicTimes(m) == map[]
         else r.value in PeriodicTimes(m) && forall q :: q in PeriodicTimes(m) ==>
             m.records[q].created <= m.records[r.value].created
       case LatestRolling =>
         if r.None? then forall q :: q in m.records ==> m.records[q].kind != RollingData
         else m.records[r.value].kind == RollingData
  }

  /** No call of the backup fails, and mysqldump writes everything. */
  predicate BackupWorks(k: Tools, db: Database, p: BackupPlan) {
    p.starts && p.uploads == Succeeds && p.inserts == Succeeds && p.reloads && p.exits && p.cut >= |k.dump(db)|
  }

  /** No call from the download on fails, and the dump passes its check. */
  predicate LoadWorks(k: Tools, m: Mongo, db: Database, record: Record, p: RestorePlan) {
    && p.reopens && p.loads && Validates(k, m, record)
    && (record.scope == Full && p.failsAtDrop.Some? ==> p.failsAtDrop.value >= |db|)
  }

  predicate RestoreWorks(k: Tools, m: Mongo, db: Database, record: Record, p: RestorePlan) {
    p.opens && BackupWorks(k, db, p.backup) && LoadWorks(k, m, db, record, p)
  }

  /** How mysqldump's output happens to be cut. */
  const PIPE: nat := 65536

  /** The tools' checksum is the streaming hash. */
  ghost predicate HashOf(k: Tools, h: Hash) {
    Streams(h) && forall b :: k.sha(b) == Sha(h, b)
  }

  lemma RunsOn(k: Tools, y: System, es: seq<Event>, y1: System, fs: seq<Event>, y2: System)
    requires RunsTo(k, y, es, y1) && RunsTo(k, y1, fs, y2)
    ensures RunsTo(k, y, es + fs, y2)
  {
    RunOn(k, y, es, fs);
  }

  lemma OneStep(k: Tools, y: System, e: Event)
    requires Possible(k, y, e)
    ensures RunsTo(k, y, [e], Step(k, y, e))
  {
    RunStep(k, y, e, []);
  }

  /** y with its process's restore, if any, replaced by x. */
  function Moved(y: System, w: WorkerId, x: Option<Restore>): map<WorkerId, Restore> {
    match x
    case None => y.restores - {w}
    case Some(restore) => y.restores[w := restore]
  }

  lemma MovedTwice(y: System, w: WorkerId, x: Option<Restore>, x': Option<Restore>)
    ensures Moved(y.(restores := Moved(y, w, x)), w, x') == Moved(y, w, x')
  {
  }

  lemma NeverMoved(y: System, w: WorkerId)
    requires w !in y.restores
    ensures Moved(y, w, None) == y.restores
  {
  }

  /** The log once w's restore has put `db` in place of what y holds. */
  function Replaced(y: System, w: WorkerId, db: Database): seq<Replacement>
    requires w in y.restores && (y.restores[w].Opening? || y.restores[w].Listing? || MayAlter(y.restores[w]))
  {
    if db != y.db then y.replaced + [Replacement(y.db, y.restores[w].snapshot, y.restores[w].pre)] else y.replaced
  }

  /** w has listed the tables of y and these are left. */
  ghost predicate DropsLeft(y: System, w: WorkerId, tables: set<string>, y': System)
    requires w in y.restores && y.restores[w].Listing?
  {
    && y'.db.Keys == tables
    && y' == y.(db := y'.db, replaced := Replaced(y, w, y'.db),
        restores := Moved(y, w, Some(ClearingAfter(y, w, y'.db, tables))))
  }

  /** Clearing and loading together make one entry, of what there was before, if they change anything at all. */
  lemma LoggedOnce(y: System, w: WorkerId, db: Database, y': System, db': Database)
    requires w in y.restores && (y.restores[w].Listing? || MayAlter(y.restores[w]))
    requires y'.db == db && y'.replaced == Replaced(y, w, db)
    requires w in y'.restores && y'.restores[w] == LoadingAfter(y, w, db)
    ensures var x, replaced := y.restores[w], Logged(y', y'.restores[w], db');
            (db' == y.db && replaced == y.replaced) || replaced == y.replaced + [Replacement(y.db, x.snapshot, x.pre)]
  {
  }

  function EntryOf(y: System, db: Database): Option<nat> {
    if db != y.db then Some(|y.replaced|) else None
  }

  function ClearingAfter(y: System, w: WorkerId, db: Database, tables: set<string>): Restore
    requires w in y.restores && y.restores[w].Listing?
  {
    var x := y.restores[w];
    Clearing(x.selected, x.record, x.snapshot, x.pre, EntryOf(y, db), tables)
  }

  function LoadingAfter(y: System, w: WorkerId, db: Database): Restore
    requires w in y.restores && (y.restores[w].Opening? || y.restores[w].Listing? || MayAlter(y.restores[w]))
  {
    var x := y.restores[w];
    Loading(x.selected, x.record, x.snapshot, x.pre, EntryOf(y, db))
  }

  function DumpingAfter(x: Restore, db: Database, job: JobId): Restore {
    Dumping(x.selected, x.record, db, job)
  }

  function OpeningAfter(x: Restore, db: Database, pre: RecordId): Restore {
    Opening(x.selected, x.record, db, pre)
  }

  /** The service of process `self`. */
  class BackupService {
    const self: WorkerId
    const store: Repository
    var operationActive: bool
    var db: Database
    ghost var sys: System

    /** A restore of this process is under way only while the flag is up. */
    ghost predicate Valid()
      reads this, store
    {
      sys.mongo == store.View() && sys.db == db && (self in sys.restores ==> operationActive)
    }

    constructor (self: WorkerId, store: Repository, db: Database)
      ensures this.self == self && this.store == store && Valid() && !operationActive
      ensures sys == System(db, store.View(), map[], map[], map[], [])
    {
      this.self, this.store, this.db, operationActive := self, store, db, false;
      sys := System(db, store.View(), map[], map[], map[], []);
    }

    ghost method Take(k: Tools, e: Event) returns (es: seq<Event>)
      requires Possible(k, sys, e)
      modifies this`sys
      ensures sys == Step(k, old(sys), e) && RunsTo(k, old(sys), es, sys)
    {
      es := [e];
      OneStep(k, sys, e);
      sys := Step(k, sys, e);
    }

    ghost method TakeAfter(k: Tools, y: System, es: seq<Event>, e: Event) returns (fs: seq<Event>)
      requires RunsTo(k, y, es, sys) && Possible(k, sys, e)
      modifies this`sys
      ensures sys == Step(k, old(sys), e) && RunsTo(k, y, fs, sys)
    {
      fs := Take(k, e);
      RunsOn(k, y, es, old(sys), fs, sys);
      fs := es + fs;
    }

    method ResolveRestoreTarget(target: Target) returns (r: Option<RecordId>)
      ensures Resolves(store.View(), target, r)
    {
      match target {
        case ById(id) => r := if id in store.records then Some(id) else None;
        case LatestRolling =>
          if q :| q in store.records && store.records[q].kind == RollingData {
            r := Some(q);
          } else {
            r := None;
          }
        case LatestPeriodic =>
          var times := map q | q in store.records && IsPeriodic(store.records[q]) :: store.records[q].created;
          var listing := Query(times);
          assert forall q :: q in times ==> q in listing;
          if listing == [] {
            r := None;
          } else {
            assert listing[0] in listing;
            r := Some(listing[0]);
          }
      }
    }

    /** A dump streamed into the store. The call succeeds only if both the storing and the dump process do. */
    method RunBackup(h: Hash, k: Tools, preRestore: bool, now: int, ids: Fresh, p: BackupPlan)
        returns (ok: bool, ghost es: seq<Event>)
      requires Valid() && HashOf(k, h) && Unused(sys, ids)
      requires sys.mongo.files.Keys <= sys.mongo.usedFiles && sys.mongo.records.Keys <= sys.mongo.usedRecords
      requires preRestore ==>
          self in sys.restores && sys.restores[self].Testing? && sys.restores[self].record.file in sys.mongo.files
      modifies this`sys, store
      ensures Valid() && RunsTo(k, old(sys), es, sys) && sys.replaced == old(sys).replaced
      ensures sys.deletions == old(sys).deletions
      ensures forall f :: f in old(sys).mongo.files ==> f in store.files && store.files[f] == old(sys).mongo.files[f]
      ensures forall r :: r in old(sys).mongo.records ==>
          r in store.records && store.records[r] == old(sys).mongo.records[r]
      ensures ok <==> BackupWorks(k, db, p)
      ensures ok ==> Holds(k, store.View(), ids.record, if preRestore then PreRestore else PeriodicFull, k.dump(db))
      ensures ok ==>
          store.records[ids.record].created == now && store.records[ids.record].file == ids.file &&
          store.View().records.Keys == old(sys).mongo.records.Keys + {ids.record}
      ensures !preRestore ==> sys.restores == old(sys.restores)
      ensures preRestore ==>
          sys.restores == Moved(old(sys), self, if ok then Some(OpeningAfter(old(sys.restores)[self], db, ids.record))
          else None)
    {
      var whole := k.dump(db);
      var cut := if p.cut <= |whole| then p.cut else |whole|;
      var exits := p.exits && cut == |whole|;
      if !p.starts {
        ok, es := false, [];
        if preRestore {
          es := Take(k, Abandon(self));
        }
        return;
      }
      assert whole[..|whole|] == whole;
      es := StartDump(k, preRestore, ids, cut);
      ghost var y, more := sys, [];
      ok, more := StoreDump(h, k, if preRestore then PreRestore else PeriodicFull, whole[..cut], now, ids, p, exits);
      RunsOn(k, old(sys), es, y, more, sys);
      es := es + more;
      if preRestore {
        es := EndPreRestore(k, old(sys), es, ids, ok);
      }
    }

    ghost method StartDump(k: Tools, preRestore: bool, ids: Fresh, cut: nat) returns (es: seq<Event>)
      requires Valid() && Unused(sys, ids) && cut <= |k.dump(db)|
      requires preRestore ==>
          self in sys.restores && sys.restores[self].Testing? && sys.restores[self].record.file in sys.mongo.files
      modifies this`sys
      ensures Valid() && RunsTo(k, old(sys), es, sys)
      ensures sys == old(sys).(restores := sys.restores, jobs := sys.jobs)
      ensures ids.job in sys.jobs
      ensures var kind := if preRestore then PreRestore else PeriodicFull;
              sys.jobs[ids.job] == Job(kind, db, k.dump(db)[..cut], Uploading, Running)
      ensures sys.restores == if preRestore then Moved(old(sys), self,
          Some(DumpingAfter(old(sys.restores)[self], db, ids.job)))
                              else old(sys.restores)
    {
      if preRestore {
        es := Take(k, StartPreRestore(self, ids.job, cut));
      } else {
        es := Take(k, StartBackup(ids.job, cut));
      }
    }

    ghost method EndPreRestore(k: Tools, y: System, es: seq<Event>, ids: Fresh, ok: bool) returns (fs: seq<Event>)
      requires Valid() && RunsTo(k, y, es, sys) && self in y.restores && y.restores[self].Testing?
      requires sys.restores == Moved(y, self, Some(DumpingAfter(y.restores[self], db, ids.job)))
      requires ok ==>
          ids.job in sys.jobs && sys.jobs[ids.job].stage == Stored(ids.record) && sys.jobs[ids.job].exit == ExitedOk
      modifies this`sys
      ensures Valid() && RunsTo(k, y, fs, sys) && sys == old(sys).(restores := sys.restores)
      ensures sys.restores == Moved(y, self, if ok then Some(OpeningAfter(y.restores[self], db, ids.record)) else None)
    {
      var x := y.restores[self];
      MovedTwice(y, self, Some(DumpingAfter(x, db, ids.job)), if ok then Some(OpeningAfter(x, db, ids.record))
          else None);
      if ok {
        fs := TakeAfter(k, y, es, PreRestoreDone(self));
      } else {
        fs := TakeAfter(k, y, es, Abandon(self));
      }
    }

    /** The dump process is running and ends as `exits` says. */
    method StoreDump(h: Hash, k: Tools, kind: Kind, content: Bytes, now: int, ids: Fresh, p: BackupPlan, exits: bool)
        returns (ok: bool, ghost es: seq<Event>)
      requires Valid() && HashOf(k, h) && AtStage(sys, ids.job, Uploading)
      requires ids.file !in sys.mongo.usedFiles && ids.record !in sys.mongo.usedRecords
      requires sys.mongo.files.Keys <= sys.mongo.usedFiles && sys.mongo.records.Keys <= sys.mongo.usedRecords
      requires var job := sys.jobs[ids.job];
               job.exit == Running && job.kind == kind && job.content == content &&
               (exits ==> content == k.dump(job.source))
      modifies this`sys, store
      ensures Valid() && RunsTo(k, old(sys), es, sys) && sys == old(sys).(mongo := sys.mongo, jobs := sys.jobs)
      ensures forall f :: f in old(sys).mongo.files ==> f in store.files && store.files[f] == old(sys).mongo.files[f]
      ensures forall r :: r in old(sys).mongo.records ==>
          r in store.records && store.records[r] == old(sys).mongo.records[r]
      ensures ok <==> exits && p.uploads == Succeeds && p.inserts == Succeeds && p.reloads
      ensures ok ==> Holds(k, store.View(), ids.record, kind, content)
      ensures ok ==>
          store.records[ids.record].created == now && store.records[ids.record].file == ids.file &&
          store.View().records.Keys == old(sys).mongo.records.Keys + {ids.record}
      ensures ok ==>
          ids.job in sys.jobs && sys.jobs[ids.job].stage == Stored(ids.record) && sys.jobs[ids.job].exit == ExitedOk
    {
      ghost var y := sys;
      SavingRuns(k, y, ids.job, ids.file, ids.record, now, p, exits);
      es := BackupSteps(ids.job, ids.file, ids.record, now, p, exits);
      ok := store.StoreBackup(h, k, kind, Chunks(content, PIPE), ids.file, ids.record, now, p.uploads, p.inserts,
          p.reloads);
      sys := Run(k, y, es);
      ok := ok && exits;
    }

    ghost method StartClearing(k: Tools) returns (es: seq<Event>)
      requires Valid() && self in sys.restores && sys.restores[self].Listing?
      modifies this`sys
      ensures Valid() && RunsTo(k, old(sys), es, sys) && DropsLeft(old(sys), self, db.Keys, sys)
    {
      es := Take(k, ListTables(self));
    }

    method DropTable(k: Tools, ghost y: System, ghost es: seq<Event>, ghost tables: set<string>, table: string)
        returns (ghost fs: seq<Event>)
      requires Valid() && RunsTo(k, y, es, sys) && self in y.restores && y.restores[self].Listing?
      requires DropsLeft(y, self, tables, sys) && table in tables && tables <= y.db.Keys
      modifies this`sys, this`db
      ensures Valid() && RunsTo(k, y, fs, sys) && DropsLeft(y, self, tables - {table}, sys)
      ensures db == old(db) - {table}
    {
      db := db - {table};
      ghost var x := sys.restores[self];
      assert table !in db && db.Keys == tables - {table} && db != sys.db && db != y.db;
      MovedTwice(y, self, Some(x), Some(ClearingAfter(y, self, db, tables - {table})));
      fs := TakeAfter(k, y, es, Drop(self, table));
    }

    ghost method EndClearing(k: Tools, y: System, es: seq<Event>, tables: set<string>, ok: bool)
        returns (fs: seq<Event>)
      requires Valid() && RunsTo(k, y, es, sys) && self in y.restores && y.restores[self].Listing?
      requires DropsLeft(y, self, tables, sys) && (ok ==> tables == {})
      modifies this`sys
      ensures Valid() && RunsTo(k, y, fs, sys) && sys == old(sys).(restores := sys.restores)
      ensures sys.restores == Moved(y, self, if ok then Some(LoadingAfter(y, self, db)) else None)
    {
      MovedTwice(y, self, Some(sys.restores[self]), if ok then Some(LoadingAfter(y, self, db)) else None);
      if ok {
        fs := TakeAfter(k, y, es, Cleared(self));
      } else {
        fs := TakeAfter(k, y, es, Abandon(self));
      }
    }

    /** Lists the tables and drops them one by one. */
    method ClearSchema(k: Tools, failsAtDrop: Option<nat>) returns (ok: bool, ghost es: seq<Event>)
      requires Valid() && self in sys.restores && sys.restores[self].Listing?
      modifies this`sys, this`db
      ensures Valid() && RunsTo(k, old(sys), es, sys)
      ensures sys == old(sys).(db := db, restores := sys.restores, replaced := Replaced(old(sys), self, db))
      ensures ok <==> failsAtDrop.None? || failsAtDrop.value >= |old(db)|
      ensures ok ==> db == map[]
      ensures sys.restores == Moved(old(sys), self, if ok then Some(LoadingAfter(old(sys), self, db)) else None)
    {
      var tables := db.Keys;
      var dropped := 0;
      es := StartClearing(k);
      while tables != {}
        invariant Valid() && RunsTo(k, old(sys), es, sys) && DropsLeft(old(sys), self, tables, sys)
        invariant db.Keys == tables <= old(db).Keys && |tables| + dropped == |old(db).Keys|
        invariant failsAtDrop.Some? ==> dropped <= failsAtDrop.value
        decreases |tables|
      {
        if failsAtDrop == Some(dropped) {
          es := EndClearing(k, old(sys), es, tables, false);
          ok := false;
          return;
        }
        var table :| table in tables;
        es := DropTable(k, old(sys), es, tables, table);
        tables := tables - {table};
        dropped := dropped + 1;
      }
      es := EndClearing(k, old(sys), es, tables, true);
      ok := true;
    }

    /** Streams the dump into mysql, checking it on the way: a dump that fails the check has gone in by then. */
    method LoadDump(h: Hash, k: Tools, chunk: nat, record: Record, loads: bool, partial: Database)
        returns (ok: bool, ghost es: seq<Event>)
      requires Valid() && HashOf(k, h) && chunk > 0
      requires self in sys.restores && sys.restores[self].Loading? && sys.restores[self].record == record
      modifies this`sys, this`db
      ensures Valid() && RunsTo(k, old(sys), es, sys)
      ensures var x := old(sys.restores)[self];
              sys == old(sys).(db := db, restores := Moved(old(sys), self, None), replaced := Logged(old(sys), x, db))
      ensures ok <==> loads && Validates(k, old(sys).mongo, record)
      ensures db == if ok then k.load(old(db), store.files[record.file]) else partial
    {
      var passed;
      ok, passed := Download(h, k, chunk, record);
      ok := ok && loads;
      db := if ok then k.load(db, passed) else partial;
      es := EndLoading(k, if ok then LoadSucceeds(self) else LoadFails(self, partial));
    }

    /** What goes through, and whether the check at its end accepts it. */
    method Download(h: Hash, ghost k: Tools, chunk: nat, record: Record) returns (ok: bool, passed: Bytes)
      requires HashOf(k, h) && chunk > 0
      ensures ok <==> Validates(k, store.View(), record)
      ensures record.file in store.files ==> passed == store.files[record.file]
    {
      ok, passed := false, [];
      if record.file in store.files {
        ok, passed := PassValidated(h, Chunks(store.files[record.file], chunk), record.checksum, record.size);
      }
    }

    ghost method EndLoading(k: Tools, e: Event) returns (es: seq<Event>)
      requires self in sys.restores && sys.restores[self].Loading? && Possible(k, sys, e)
      requires (e == LoadSucceeds(self) || (e.LoadFails? && e.w == self))
      modifies this`sys
      ensures RunsTo(k, old(sys), es, sys)
      ensures var x := old(sys.restores)[self];
              sys == old(sys).(db := sys.db, restores := Moved(old(sys), self, None),
                  replaced := Logged(old(sys), x, sys.db))
      ensures sys.db == if e.LoadFails? then e.db
          else k.load(old(sys.db), old(sys).mongo.files[old(sys.restores)[self].record.file])
    {
      es := Take(k, e);
    }

    /** Everything after the pre-restore backup. */
    method ReplaceDatabase(h: Hash, k: Tools, record: Record, chunk: nat, p: RestorePlan)
        returns (ok: bool, ghost es: seq<Event>)
      requires Valid() && HashOf(k, h) && chunk > 0
      requires self in sys.restores && sys.restores[self].Opening? && sys.restores[self].record == record
      modifies this`sys, this`db
      ensures Valid() && RunsTo(k, old(sys), es, sys)
      ensures sys == old(sys).(db := db, restores := Moved(old(sys), self, None), replaced := sys.replaced)
      ensures var x := old(sys.restores)[self];
              (db == old(db) && sys.replaced == old(sys).replaced)
              || sys.replaced == old(sys).replaced + [Replacement(old(db), x.snapshot, x.pre)]
      ensures ok <==> LoadWorks(k, old(sys).mongo, old(db), record, p)
      ensures ok ==> db == k.load(if record.scope == Full then map[] else old(db), store.files[record.file])
    {
      es := StartReplacing(k, p.reopens);
      if !p.reopens {
        return false, es;
      }
      ghost var y, more := sys, [];
      ok, more := ClearAndLoad(h, k, record, chunk, p);
      RunsOn(k, old(sys), es, y, more, sys);
      es := es + more;
      MovedTwice(old(sys), self, Some(y.restores[self]), None);
    }

    method ClearAndLoad(h: Hash, k: Tools, record: Record, chunk: nat, p: RestorePlan)
        returns (ok: bool, ghost es: seq<Event>)
      requires Valid() && HashOf(k, h) && chunk > 0
      requires self in sys.restores && sys.restores[self].record == record
      requires var x := sys.restores[self]; if record.scope == Full then x.Listing? else x.Loading? && x.entry.None?
      modifies this`sys, this`db
      ensures Valid() && RunsTo(k, old(sys), es, sys)
      ensures sys == old(sys).(db := db, restores := Moved(old(sys), self, None), replaced := sys.replaced)
      ensures var x := old(sys.restores)[self];
              (db == old(db) && sys.replaced == old(sys).replaced)
              || sys.replaced == old(sys).replaced + [Replacement(old(db), x.snapshot, x.pre)]
      ensures ok <==> p.loads && Validates(k, old(sys).mongo, record)
                      && (record.scope == Full && p.failsAtDrop.Some? ==> p.failsAtDrop.value >= |old(db)|)
      ensures ok ==> db == k.load(if record.scope == Full then map[] else old(db), store.files[record.file])
    {
      ok, es := ClearFirst(k, record.scope, p.failsAtDrop);
      if !ok {
        return false, es;
      }
      ghost var y, more := sys, [];
      ok, more := LoadDump(h, k, chunk, record, p.loads, p.partial);
      RunsOn(k, old(sys), es, y, more, sys);
      es := es + more;
      LoggedOnce(old(sys), self, y.db, y, db);
      MovedTwice(old(sys), self, Some(y.restores[self]), None);
    }

    /** A full backup goes into an empty schema. */
    method ClearFirst(k: Tools, scope: Scope, failsAtDrop: Option<nat>) returns (ok: bool, ghost es: seq<Event>)
      requires Valid() && self in sys.restores
      requires var x := sys.restores[self]; if scope == Full then x.Listing? else x.Loading? && x.entry.None?
      modifies this`sys, this`db
      ensures Valid() && RunsTo(k, old(sys), es, sys)
      ensures sys == old(sys).(db := db, restores := sys.restores, replaced := Replaced(old(sys), self, db))
      ensures ok <==> (scope == Full && failsAtDrop.Some? ==> failsAtDrop.value >= |old(db)|)
      ensures ok ==> db == if scope == Full then map[] else old(db)
      ensures sys.restores == Moved(old(sys), self, if ok then Some(LoadingAfter(old(sys), self, db)) else None)
    {
      if scope == Full {
        ok, es := ClearSchema(k, failsAtDrop);
      } else {
        ok, es := true, [];
      }
    }

    ghost method StartReplacing(k: Tools, reopens: bool) returns (es: seq<Event>)
      requires self in sys.restores && sys.restores[self].Opening?
      modifies this`sys
      ensures RunsTo(k, old(sys), es, sys)
      ensures var x := old(sys.restores)[self];
              sys == old(sys).(restores := Moved(old(sys), self,
                       if !reopens then None
                       else if x.record.scope == Full then Some(Listing(x.selected, x.record, x.snapshot, x.pre))
                       else Some(Loading(x.selected, x.record, x.snapshot, x.pre, None))))
    {
      if reopens {
        es := Take(k, Open(self));
      } else {
        es := Take(k, Abandon(self));
      }
    }

    ghost method StartRestore(k: Tools, selected: RecordId) returns (es: seq<Event>)
      requires self !in sys.restores && operationActive && selected in sys.mongo.records
      modifies this`sys
      ensures RunsTo(k, old(sys), es, sys)
      ensures sys == old(sys).(restores := Moved(old(sys), self,
          Some(Testing(selected, old(sys).mongo.records[selected]))))
    {
      es := Take(k, Begin(self, selected));
    }

    ghost method GiveUp(k: Tools, y: System, es: seq<Event>) returns (fs: seq<Event>)
      requires RunsTo(k, y, es, sys) && self in sys.restores && self !in y.restores
      requires sys.restores == Moved(y, self, Some(sys.restores[self]))
      modifies this`sys
      ensures RunsTo(k, y, fs, sys) && sys == old(sys).(restores := y.restores)
    {
      MovedTwice(y, self, Some(sys.restores[self]), None);
      NeverMoved(y, self);
      fs := TakeAfter(k, y, es, Abandon(self));
    }

    /** Tests that the record's file opens and backs the database up. */
    method PrepareRestore(h: Hash, k: Tools, selected: RecordId, now: int, ids: Fresh, p: RestorePlan)
        returns (ok: bool, ghost es: seq<Event>)
      requires Valid() && HashOf(k, h) && Unused(sys, ids) && self !in sys.restores && operationActive
      requires selected in store.records && FilesOwned(sys)
      modifies this`sys, store
      ensures Valid() && RunsTo(k, old(sys), es, sys) && sys.replaced == old(sys).replaced
      ensures forall f :: f in old(sys).mongo.files ==> f in store.files && store.files[f] == old(sys).mongo.files[f]
      ensures ok <==>
          old(sys).mongo.records[selected].file in old(sys).mongo.files && p.opens && BackupWorks(k, db, p.backup)
      ensures sys.restores == if ok then Moved(old(sys), self,
          Some(Opening(selected, old(sys).mongo.records[selected], db, ids.record)))
                              else old(sys.restores)
    {
      var record := store.records[selected];
      es := StartRestore(k, selected);
      if record.file !in store.files || !p.opens {
        es := GiveUp(k, old(sys), es);
        return false, es;
      }
      ghost var y, more := sys, [];
      ok, more := RunBackup(h, k, true, now, ids, p.backup);
      RunsOn(k, old(sys), es, y, more, sys);
      es := es + more;
      MovedTwice(old(sys), self, Some(y.restores[self]),
          if ok then Some(OpeningAfter(y.restores[self], db, ids.record)) else None);
      NeverMoved(old(sys), self);
    }

    /** The restore of a given record, up to its first failing call. */
    method RestoreRecord(h: Hash, k: Tools, selected: RecordId, now: int, ids: Fresh, chunk: nat, p: RestorePlan)
        returns (ok: bool, ghost es: seq<Event>)
      requires Valid() && HashOf(k, h) && Unused(sys, ids) && chunk > 0 && self !in sys.restores && operationActive
      requires selected in store.records && FilesOwned(sys)
      modifies this`sys, this`db, store
      ensures Valid() && RunsTo(k, old(sys), es, sys) && sys.restores == old(sys.restores)
      ensures ok <==> RestoreWorks(k, old(sys).mongo, old(db), old(sys).mongo.records[selected], p)
      ensures ok ==> Brought(k, old(sys), selected, sys)
      ensures Spared(old(sys), ids.record, sys)
    {
      var record := store.records[selected];
      ok, es := PrepareRestore(h, k, selected, now, ids, p);
      if !ok {
        return false, es;
      }
      ghost var y, more := sys, [];
      assert Validates(k, y.mongo, record) <==> Validates(k, old(sys).mongo, record);
      ok, more := ReplaceDatabase(h, k, record, chunk, p);
      RunsOn(k, old(sys), es, y, more, sys);
      es := es + more;
      MovedTwice(old(sys), self, Some(y.restores[self]), None);
      NeverMoved(old(sys), self);
    }

    method RestoreExclusively(h: Hash, k: Tools, target: Target, now: int, ids: Fresh, chunk: nat, p: RestorePlan)
        returns (result: Result, ghost es: seq<Event>)
      requires Valid() && HashOf(k, h) && Unused(sys, ids) && chunk > 0
      requires self !in sys.restores && operationActive && FilesOwned(sys)
      modifies this`sys, this`db, store
      ensures Valid() && RunsTo(k, old(sys), es, sys) && sys.restores == old(sys.restores)
      ensures !result.Busy?
      ensures result.NotFound? ==> sys == old(sys)
      ensures EndsAs(k, old(sys), target, p, ids.record, result)
      ensures result.Restored? ==> Brought(k, old(sys), result.from, sys)
      ensures Spared(old(sys), ids.record, sys)
    {
      var selected := ResolveRestoreTarget(target);
      if selected.None? {
        return NotFound, [];
      }
      var ok;
      ok, es := RestoreRecord(h, k, selected.value, now, ids, chunk, p);
      result := if ok then Restored(selected.value, ids.record) else Failed;
    }

    /** Refused while another operation of the process runs, a restore under way among them; the flag is down again
        however this one ends. */
    method RestoreFromBackup(h: Hash, k: Tools, target: Target, now: int, ids: Fresh, chunk: nat, p: RestorePlan)
        returns (result: Result, ghost es: seq<Event>)
      requires Valid() && HashOf(k, h) && Unused(sys, ids) && chunk > 0 && Inv(k, sys)
      modifies this, store
      ensures Valid() && operationActive == old(operationActive)
      ensures RunsTo(k, old(sys), es, sys) && sys.restores == old(sys.restores) && Inv(k, sys)
      ensures result.Busy? <==> old(operationActive)
      ensures old(self in sys.restores) ==> result.Busy?
      ensures result.Busy? ==> es == [] && sys == old(sys)
      ensures result.Busy? || result.NotFound? ==> db == old(db)
      ensures !result.Busy? ==> EndsAs(k, old(sys), target, p, ids.record, result)
      ensures result.Restored? ==> Brought(k, old(sys), result.from, sys)
      ensures db == old(db) || Kept(k, store.View(), ids.record, old(db))
    {
      if operationActive {
        return Busy, [];
      }
      operationActive := true;
      result, es := RestoreExclusively(h, k, target, now, ids, chunk, p);
      RunKeeps(k, old(sys), es);
      operationActive := false;
    }

    /** The sweep after a backup, as a run of the machine; `m` is the store before that backup. */
    method ApplyRetention(ghost k: Tools, ghost m: Mongo, ghost now: int, ghost ids: Fresh, ghost s: SweepId, keep: int,
        fates: map<RecordId, Fate>)
        returns (ghost es: seq<Event>)
      requires Valid() && Inv(k, sys) && forall d :: d in sys.deletions ==> d.sweep != s
      requires AddsPeriodic(m, ids, now, sys.mongo) && Holds(k, sys.mongo, ids.record, PeriodicFull, k.dump(db))
      modifies this`sys, store
      ensures Valid() && RunsTo(k, old(sys), es, sys) && sys.restores == old(sys.restores)
      ensures Pruned(k, m, now, ids, keep, fates, k.dump(db), store.View())
    {
      ghost var y := sys;
      var count, listing := store.DeleteOldPeriodicBackups(keep, fates);
      es := FollowSweep(k, s, keep, listing, fates, count);
      SweepPrunes(k, y, m, now, ids, s, keep, listing, fates, store.View(), count);
    }

    ghost method FollowSweep(k: Tools, s: SweepId, keep: int, listing: seq<RecordId>, fates: map<RecordId, Fate>,
        count: nat)
        returns (es: seq<Event>)
      requires sys.db == db && (self in sys.restores ==> operationActive) && forall d :: d in sys.deletions ==>
          d.sweep != s
      requires NewestFirst(listing, PeriodicTimes(sys.mongo))
      requires Swept(sys.mongo, Members(Surplus(listing, keep)), fates, store.View(), count)
      modifies this`sys
      ensures Valid() && RunsTo(k, old(sys), es, sys) && sys.restores == old(sys.restores)
    {
      ghost var y;
      es, y := SweepReaches(k, sys, s, keep, listing, fates, store.View(), count);
      sys := y;
    }

    /** A backup, and only after it has succeeded the retention sweep; `lists` says whether the sweep's query works. */
    method RunPeriodicBackup(h: Hash, k: Tools, now: int, ids: Fresh, p: BackupPlan, s: SweepId, keep: int,
        lists: bool, fates: map<RecordId, Fate>)
        returns (ok: bool, ghost es: seq<Event>)
      requires Valid() && HashOf(k, h) && Unused(sys, ids) && Inv(k, sys) && forall d :: d in sys.deletions ==>
          d.sweep != s
      modifies this, store
      ensures Valid() && operationActive == old(operationActive)
      ensures RunsTo(k, old(sys), es, sys) && Inv(k, sys)
      ensures ok <==> !old(operationActive) && BackupWorks(k, db, p) && lists
      ensures old(operationActive) ==> es == []
      ensures db == old(db)
      ensures !ok ==> forall r :: r in old(store.records) ==> r in store.records
      ensures ok ==> SparedWhenNewest(k, old(sys).mongo, now, ids, keep, store.View(), k.dump(db))
      ensures ok ==> NewestKept(PeriodicTimes(old(sys).mongo)[ids.record := now], keep, fates, store.View())
      ensures OthersKept(old(sys).mongo, store.View())
      ensures ok ==> FilesFollowRecords(old(sys).mongo, ids, fates, store.View())
    {
      if operationActive {
        return false, [];
      }
      operationActive := true;
      ok, es := RunBackup(h, k, false, now, ids, p);
      RunKeeps(k, old(sys), es);
      NothingGone(old(sys).mongo, sys.mongo);
      if ok && lists {
        BackupAdds(k, old(sys), ids, now, sys);
        ghost var y := sys;
        ghost var more := ApplyRetention(k, old(sys).mongo, now, ids, s, keep, fates);
        RunsOn(k, old(sys), es, y, more, sys);
        es := es + more;
        RunKeeps(k, old(sys), es);
      }
      ok := ok && lists;
      operationActive := false;
    }
  }

  /** Of the files of m, and of the one added since, exactly those are gone whose record went by an acknowledged call
      and whose own deletion took effect. */
  ghost predicate FilesFollowRecords(m: Mongo, ids: Fresh, fates: map<RecordId, Fate>, m': Mongo) {
    && FilesFollow(m, fates, m')
    && (ids.file !in m'.files <==> ids.record !in m'.records && FateOf(fates, ids.record).meta == Succeeds
                                   && FateOf(fates, ids.record).file != FailsBefore)
  }

  /** m' is m with one more periodic record and its file. */
  ghost predicate AddsPeriodic(m: Mongo, ids: Fresh, now: int, m': Mongo) {
    && ids.record !in m.records && ids.file !in m.files && m'.records.Keys == m.records.Keys + {ids.record}
    && m'.records[ids.record].created == now && m'.records[ids.record].file == ids.file && ids.file in m'.files
    && IsPeriodic(m'.records[ids.record])
    && (forall r :: r in m.records ==> m'.records[r] == m.records[r] && m.records[r].file != ids.file)
    && (forall f :: f in m.files ==> f in m'.files && m'.files[f] == m.files[f])
  }

  /** The sweep is a run to a system with the store m'. */
  ghost predicate SweepsTo(k: Tools, y: System, es: seq<Event>, m': Mongo, y': System) {
    RunsTo(k, y, es, y') && y' == y.(mongo := m', deletions := y'.deletions)
  }

  lemma SparedIfNewest(k: Tools, y: System, m: Mongo, now: int, ids: Fresh, keep: int, listing: seq<RecordId>,
      fates: map<RecordId, Fate>, m': Mongo, count: nat, es: seq<Event>, y': System)
    requires Inv(k, y) && SweepsTo(k, y, es, m', y') && AddsPeriodic(m, ids, now, y.mongo)
    requires Holds(k, y.mongo, ids.record, PeriodicFull, k.dump(y.db)) && NewestFirst(listing, PeriodicTimes(y.mongo))
    requires Swept(y.mongo, Members(Surplus(listing, keep)), fates, m', count)
    ensures SparedWhenNewest(k, m, now, ids, keep, m', k.dump(y.db))
  {
    if keep >= 1 && LaterThanAll(now, PeriodicTimes(m)) {
      NewestIsSpared(m, y.mongo, ids, now, listing, keep);
      SparedIsHeld(k, y, es, ids.record, k.dump(y.db), Surplus(listing, keep), fates);
    }
  }

  /** The new backup outlives the sweep if the retention keeps any and it is newer than all others. */
  ghost predicate SparedWhenNewest(k: Tools, m: Mongo, now: int, ids: Fresh, keep: int, m': Mongo, content: Bytes) {
    keep >= 1 && LaterThanAll(now, PeriodicTimes(m)) ==> Holds(k, m', ids.record, PeriodicFull, content)
  }

  /** Everything a sweep after a backup of `content` comes to. */
  ghost predicate Pruned(k: Tools, m: Mongo, now: int, ids: Fresh, keep: int, fates: map<RecordId, Fate>,
      content: Bytes, m': Mongo) {
    && SparedWhenNewest(k, m, now, ids, keep, m', content)
    && NewestKept(PeriodicTimes(m)[ids.record := now], keep, fates, m')
    && OthersKept(m, m') && FilesFollowRecords(m, ids, fates, m')
  }

  lemma SweepPrunes(k: Tools, y: System, m: Mongo, now: int, ids: Fresh, s: SweepId, keep: int,
      listing: seq<RecordId>, fates: map<RecordId, Fate>, m': Mongo, count: nat)
    requires Inv(k, y) && forall d :: d in y.deletions ==> d.sweep != s
    requires AddsPeriodic(m, ids, now, y.mongo) && Holds(k, y.mongo, ids.record, PeriodicFull, k.dump(y.db))
    requires NewestFirst(listing, PeriodicTimes(y.mongo))
    requires Swept(y.mongo, Members(Surplus(listing, keep)), fates, m', count)
    ensures Pruned(k, m, now, ids, keep, fates, k.dump(y.db), m')
  {
    var es, y' := SweepReaches(k, y, s, keep, listing, fates, m', count);
    SparedIfNewest(k, y, m, now, ids, keep, listing, fates, m', count, es, y');
    SweepApplies(m, y.mongo, ids, now, listing, keep, fates, m', count);
  }

  lemma SweepApplies(m: Mongo, m1: Mongo, ids: Fresh, now: int, listing: seq<RecordId>, keep: int,
      fates: map<RecordId, Fate>, m': Mongo, count: nat)
    requires AddsPeriodic(m, ids, now, m1) && NewestFirst(listing, PeriodicTimes(m1))
    requires Swept(m1, Members(Surplus(listing, keep)), fates, m', count)
    ensures NewestKept(PeriodicTimes(m)[ids.record := now], keep, fates, m')
    ensures OthersKept(m, m') && FilesFollowRecords(m, ids, fates, m')
  {
    SweepComesTo(m1, listing, keep, fates, m', count);
    RetentionApplies(m, m1, ids, now, keep, fates, m');
  }

  lemma SweepReaches(k: Tools, y: System, s: SweepId, keep: int, listing: seq<RecordId>, fates: map<RecordId, Fate>,
      m': Mongo, count: nat) returns (es: seq<Event>, y': System)
    requires NewestFirst(listing, PeriodicTimes(y.mongo)) && forall d :: d in y.deletions ==> d.sweep != s
    requires Swept(y.mongo, Members(Surplus(listing, keep)), fates, m', count)
    ensures SweepsTo(k, y, es, m', y')
  {
    es := SweepRuns(k, y, s, keep, listing, fates);
    y' := Run(k, y, es);
    SweptAlike(y.mongo, Members(Surplus(listing, keep)), fates, y'.mongo, m', count);
  }

  lemma RetentionApplies(m: Mongo, m1: Mongo, ids: Fresh, now: int, keep: int, fates: map<RecordId, Fate>, m': Mongo)
    requires AddsPeriodic(m, ids, now, m1)
    requires NewestKept(PeriodicTimes(m1), keep, fates, m') && OthersKept(m1, m') && FilesFollow(m1, fates, m')
    ensures NewestKept(PeriodicTimes(m)[ids.record := now], keep, fates, m')
    ensures OthersKept(m, m') && FilesFollowRecords(m, ids, fates, m')
  {
    TimesWithNew(m, m1, ids, now);
    OthersStillKept(m, m1, ids, now, m');
    FilesStillFollow(m, m1, ids, now, fates, m');
  }

  lemma TimesWithNew(m: Mongo, m1: Mongo, ids: Fresh, now: int)
    requires AddsPeriodic(m, ids, now, m1)
    ensures PeriodicTimes(m1) == PeriodicTimes(m)[ids.record := now]
  {
  }

  lemma OthersStillKept(m: Mongo, m1: Mongo, ids: Fresh, now: int, m': Mongo)
    requires AddsPeriodic(m, ids, now, m1) && OthersKept(m1, m')
    ensures OthersKept(m, m')
  {
  }

  lemma BackupAdds(k: Tools, y: System, ids: Fresh, now: int, y': System)
    requires FilesOwned(y) && Unused(y, ids)
    requires forall f :: f in y.mongo.files ==> f in y'.mongo.files && y'.mongo.files[f] == y.mongo.files[f]
    requires forall r :: r in y.mongo.records ==> r in y'.mongo.records && y'.mongo.records[r] == y.mongo.records[r]
    requires y'.mongo.records.Keys == y.mongo.records.Keys + {ids.record}
    requires var r := y'.mongo.records[ids.record]; IsPeriodic(r) && r.created == now && r.file == ids.file
    requires ids.file in y'.mongo.files
    ensures AddsPeriodic(y.mongo, ids, now, y'.mongo)
  {
  }

  lemma NothingGone(m: Mongo, m': Mongo)
    requires forall r :: r in m.records ==> r in m'.records && m'.records[r] == m.records[r]
    ensures OthersKept(m, m')
  {
  }

  lemma FilesStillFollow(m: Mongo, m1: Mongo, ids: Fresh, now: int, fates: map<RecordId, Fate>, m': Mongo)
    requires AddsPeriodic(m, ids, now, m1) && FilesFollow(m1, fates, m')
    ensures FilesFollowRecords(m, ids, fates, m')
  {
    forall f | f in m.files ensures FileGoes(m, fates, m', f) <==> FileGoes(m1, fates, m', f) {
      SameFileGoes(m, m1, ids, now, fates, m', f);
    }
  }

  lemma SameFileGoes(m: Mongo, m1: Mongo, ids: Fresh, now: int, fates: map<RecordId, Fate>, m': Mongo, f: FileId)
    requires AddsPeriodic(m, ids, now, m1) && f in m.files
    ensures FileGoes(m, fates, m', f) <==> FileGoes(m1, fates, m', f)
  {
  }

  ghost predicate LaterThanAll(now: int, at: map<RecordId, int>) {
    forall r :: r in at ==> at[r] < now
  }

  /** With `keep >= 1` a sweep leaves a record that is newer than all others. */
  lemma NewestIsSpared(m: Mongo, m': Mongo, ids: Fresh, now: int, listing: seq<RecordId>, keep: int)
    requires AddsPeriodic(m, ids, now, m') && keep >= 1
    requires LaterThanAll(now, PeriodicTimes(m)) && NewestFirst(listing, PeriodicTimes(m'))
    ensures ids.record !in Surplus(listing, keep)
  {
    var at, r := PeriodicTimes(m'), ids.record;
    TimesWithNew(m, m', ids, now);
    forall i | keep <= i < |listing| ensures listing[i] != r {
      assert listing[0] in listing && listing[i] in listing;
      assert listing[0] != r ==> at[listing[0]] < now;
    }
  }

  lemma SparedIsHeld(k: Tools, y: System, es: seq<Event>, r: RecordId, content: Bytes, surplus: seq<RecordId>,
      fates: map<RecordId, Fate>)
    requires Inv(k, y) && PossibleRun(k, y, es) && Holds(k, y.mongo, r, PeriodicFull, content) && r !in surplus
    requires exists c :: Swept(y.mongo, Members(surplus), fates, Run(k, y, es).mongo, c)
    ensures Holds(k, Run(k, y, es).mongo, r, PeriodicFull, content)
  {
    OnlyPeriodicGoEver(k, y, es);
    assert r !in GoneRecords(Members(surplus), fates);
    HoldsStays(k, y.mongo, Run(k, y, es).mongo, r, PeriodicFull, content);
  }

  lemma SweptAlike(m: Mongo, done: set<RecordId>, fates: map<RecordId, Fate>, m': Mongo, m'': Mongo, count: nat)
    requires (exists c :: Swept(m, done, fates, m', c)) && Swept(m, done, fates, m'', count)
    ensures m' == m''
  {
  }

  /** Nothing to restore, or the restore ends as its calls allow. */
  ghost predicate EndsAs(k: Tools, y: System, target: Target, p: RestorePlan, pre: RecordId, result: Result) {
    match result
    case NotFound => Resolves(y.mongo, target, None)
    case Restored(from, stored) =>
      stored == pre && Resolves(y.mongo, target, Some(from)) && RestoreWorks(k, y.mongo, y.db, y.mongo.records[from], p)
    case Failed => exists r ::
        Resolves(y.mongo, target, Some(r)) && !RestoreWorks(k, y.mongo, y.db, y.mongo.records[r], p)
    case Busy => false
  }

  /** The selected dump is what the database now holds. */
  ghost predicate Brought(k: Tools, y: System, from: RecordId, y': System) {
    && from in y.mongo.records && Validates(k, y.mongo, y.mongo.records[from])
    && (var record := y.mongo.records[from];
       y'.db == k.load(if record.scope == Full then map[] else y.db, y.mongo.files[record.file]))
  }

  /** Either the database is as it was, or the restore had saved it under this record first. */
  ghost predicate Spared(y: System, pre: RecordId, y': System) {
    y'.db == y.db || (y'.replaced != [] && y'.replaced[|y'.replaced| - 1] == Replacement(y.db, y.db, pre))
  }
}
