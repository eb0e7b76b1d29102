/** Crash safety of restores, and what retention may remove, for every run of the backup machine. */
module BackupTheorems {
  import opened Common
  import opened Ordering
  import opened BackupModel
  import opened BackupSafety

  lemma StartHolds(k: Tools, y: System)
    requires Start(y)
    ensures Inv(k, y)
  {
  }

  ghost predicate Reachable(k: Tools, y: System) {
    exists y0, es :: Start(y0) && RunsTo(k, y0, es, y)
  }

  ghost predicate RunsTo(k: Tools, y: System, es: seq<Event>, y': System) {
    PossibleRun(k, y, es) && Run(k, y, es) == y'
  }

  lemma RunStep(k: Tools, y: System, e: Event, es: seq<Event>)
    requires Possible(k, y, e) && PossibleRun(k, Step(k, y, e), es)
    ensures PossibleRun(k, y, [e] + es) && Run(k, y, [e] + es) == Run(k, Step(k, y, e), es)
  {
    assert ([e] + es)[1..] == es;
  }

  lemma {:induction false} RunOn(k: Tools, y: System, es: seq<Event>, fs: seq<Event>)
    requires PossibleRun(k, y, es) && PossibleRun(k, Run(k, y, es), fs)
    ensures PossibleRun(k, y, es + fs) && Run(k, y, es + fs) == Run(k, Run(k, y, es), fs)
    decreases |es|
  {
    if es == [] {
      assert es + fs == fs;
    } else {
      RunOn(k, Step(k, y, es[0]), es[1..], fs);
      assert es + fs == [es[0]] + (es[1..] + fs);
      RunStep(k, y, es[0], es[1..] + fs);
    }
  }

  lemma ReachableHolds(k: Tools, y: System)
    requires Reachable(k, y)
    ensures Inv(k, y)
  {
    var y0, es :| Start(y0) && RunsTo(k, y0, es, y);
    StartHolds(k, y0);
    RunKeeps(k, y0, es);
  }

  // ---------------------------------------------------------------------------
  // Restores
  // ---------------------------------------------------------------------------

  /** What the step writes to the database, if it does. */
  ghost function Wrote(k: Tools, y: System, e: Event): Option<Database>
    requires Possible(k, y, e)
  {
    match e
    case AppWrite(db) => Some(db)
    case Drop(w, table) => Some(y.db - {table})
    case LoadSucceeds(w) => Some(k.load(y.db, y.mongo.files[y.restores[w].record.file]))
    case LoadFails(w, db) => Some(db)
    case _ => None
  }

  lemma OnlyWritesChange(k: Tools, y: System, e: Event)
    requires Possible(k, y, e)
    ensures Step(k, y, e).db == match Wrote(k, y, e) case None => y.db case Some(db) => db
  {
  }

  /** At every point of every run, any number of processes, whatever failed before: a step alters the database only if
      it is an application write, or a stored pre-restore record holds the dump that the restore taking the step made
      beforehand. The step leaves that record in place and has its restore's replacement in the log. */
  lemma AlteredOnlyOnceSaved(k: Tools, y: System, e: Event)
    requires Reachable(k, y) && Possible(k, y, e) && Step(k, y, e).db != y.db && !e.AppWrite?
    ensures Mover(e).Some? && Mover(e).value in y.restores && MayAlter(y.restores[Mover(e).value])
    ensures var x, y' := y.restores[Mover(e).value], Step(k, y, e);
            && Kept(k, y.mongo, x.pre, x.snapshot) && Kept(k, y'.mongo, x.pre, x.snapshot)
            && var i := if x.entry.Some? then x.entry.value else |y.replaced|;
               && i < |y'.replaced| && y'.replaced[i].snapshot == x.snapshot && y'.replaced[i].pre == x.pre
               && (x.entry.None? ==> y'.replaced[i].held == y.db)
  {
    ReachableHolds(k, y);
    OnlyWritesChange(k, y, e);
    assert e.Drop? || e.LoadSucceeds? || e.LoadFails?;
    var x := y.restores[e.w];
    assert RestoreFollows(k, y, x);
    StepKeepsStore(k, y, e);
    HoldsStays(k, y.mongo, Step(k, y, e).mongo, x.pre, PreRestore, k.dump(x.snapshot));
  }

  /** The record outlives everything that follows: later backups, sweeps and restores, complete or not. */
  lemma EveryReplacedDatabaseIsKept(k: Tools, y: System, i: nat)
    requires Reachable(k, y) && i < |y.replaced|
    ensures Kept(k, y.mongo, y.replaced[i].pre, y.replaced[i].snapshot)
  {
    ReachableHolds(k, y);
  }

  /** Restoring part of the data never clears the schema. */
  lemma DataOnlyNeverClears(k: Tools, y: System, w: WorkerId, table: string)
    requires Reachable(k, y) && w in y.restores && y.restores[w].record.scope == DataOnly
    ensures !Possible(k, y, Drop(w, table))
  {
    ReachableHolds(k, y);
    assert RestoreFollows(k, y, y.restores[w]);
  }

  // ---------------------------------------------------------------------------
  // What the pre-restore record is worth
  // ---------------------------------------------------------------------------

  /** What the last write since w's pre-restore dump left in the database; `last` is what it was before the run. */
  ghost function LastWrite(k: Tools, y: System, es: seq<Event>, w: WorkerId, last: Option<Database>): Option<Database>
    requires PossibleRun(k, y, es)
    decreases |es|
  {
    if es == [] then last
    else LastWrite(k, Step(k, y, es[0]), es[1..], w, WriteAfter(k, y, es[0], w, last))
  }

  ghost function WriteAfter(k: Tools, y: System, e: Event, w: WorkerId, last: Option<Database>): Option<Database>
    requires Possible(k, y, e)
  {
    if e.StartPreRestore? && e.w == w then None
    else if Wrote(k, y, e).Some? then Wrote(k, y, e)
    else last
  }

  /** x has made its dump and not altered the database yet. */
  predicate Waits(x: Restore) {
    x.Dumping? || x.Opening? || x.Listing? || (MayAlter(x) && x.entry.None?)
  }

  /** While w waits, the database is what the last write left, or else what was dumped. */
  ghost predicate Tracks(y: System, w: WorkerId, last: Option<Database>) {
    w in y.restores && Waits(y.restores[w]) ==>
      y.db == match last case None => y.restores[w].snapshot case Some(db) => db
  }

  /** A waiting restore was waiting before, for the same dump, unless it has just made it. */
  lemma WaitsSince(k: Tools, y: System, e: Event, w: WorkerId)
    requires Possible(k, y, e) && w in Step(k, y, e).restores && Waits(Step(k, y, e).restores[w])
    ensures if e.StartPreRestore? && e.w == w then Step(k, y, e).restores[w].snapshot == Step(k, y, e).db
            else && w in y.restores && Waits(y.restores[w])
                 && y.restores[w].snapshot == Step(k, y, e).restores[w].snapshot
                 && (Mover(e) == Some(w) ==> Step(k, y, e).db == y.db)
  {
    OthersStay(k, y, e);
    if Mover(e) != Some(w) {
      assert Get(Step(k, y, e).restores, w) == Get(y.restores, w);
    }
  }

  lemma StepTracks(k: Tools, y: System, e: Event, w: WorkerId, last: Option<Database>)
    requires Possible(k, y, e) && Tracks(y, w, last)
    ensures Tracks(Step(k, y, e), w, WriteAfter(k, y, e, w, last))
  {
    var y' := Step(k, y, e);
    OnlyWritesChange(k, y, e);
    if w in y'.restores && Waits(y'.restores[w]) {
      WaitsSince(k, y, e, w);
    }
  }

  lemma {:induction false} RunTracks(k: Tools, y: System, es: seq<Event>, w: WorkerId, last: Option<Database>)
    requires PossibleRun(k, y, es) && Tracks(y, w, last)
    ensures Tracks(Run(k, y, es), w, LastWrite(k, y, es, w, last))
    decreases |es|
  {
    if es != [] {
      StepTracks(k, y, es[0], w, last);
      RunTracks(k, Step(k, y, es[0]), es[1..], w, WriteAfter(k, y, es[0], w, last));
    }
  }

  lemma {:induction false} RunExtendsReplaced(k: Tools, y: System, es: seq<Event>)
    requires PossibleRun(k, y, es)
    ensures |y.replaced| <= |Run(k, y, es).replaced|
    ensures forall i :: 0 <= i < |y.replaced| ==> Run(k, y, es).replaced[i] == y.replaced[i]
    decreases |es|
  {
    if es != [] {
      OthersStay(k, y, es[0]);
      RunExtendsReplaced(k, Step(k, y, es[0]), es[1..]);
    }
  }

  /** A dump tells databases apart. */
  lemma DumpIsInjective(k: Tools, d: Database, e: Database)
    requires Faithful(k) && k.dump(d) == k.dump(e)
    ensures d == e
  {
    assert k.load(map[], k.dump(d)) == map[] + d && k.load(map[], k.dump(e)) == map[] + e;
    assert map[] + d == d && map[] + e == e;
  }

  /** The step is the first by which w's restore alters the database. */
  ghost predicate FirstChange(k: Tools, y: System, e: Event, w: WorkerId) {
    && Possible(k, y, e) && Mover(e) == Some(w) && Step(k, y, e).db != y.db
    && w in y.restores && MayAlter(y.restores[w]) && y.restores[w].entry.None?
  }

  /** For every run up to the step by which a restore first alters the database, and every run after it: the pre-restore
      record keeps what the restore replaced if and only if the last write between its dump and that step, if there was
      one, left the dumped contents. */
  lemma ReplacedIsKeptIff(k: Tools, y0: System, es: seq<Event>, e: Event, w: WorkerId, fs: seq<Event>)
    requires Start(y0) && Faithful(k) && PossibleRun(k, y0, es)
    requires FirstChange(k, Run(k, y0, es), e, w) && PossibleRun(k, Step(k, Run(k, y0, es), e), fs)
    ensures var y, last := Run(k, y0, es), LastWrite(k, y0, es, w, None);
            var z := Run(k, Step(k, y, e), fs);
            && |y.replaced| < |z.replaced|
            && var entry := z.replaced[|y.replaced|];
               && entry == Replacement(y.db, y.restores[w].snapshot, y.restores[w].pre)
               && (Kept(k, z.mongo, entry.pre, entry.held) <==> last.None? || last == Some(entry.snapshot))
  {
    var y := Run(k, y0, es);
    var y1 := Step(k, y, e);
    OnlyWritesChange(k, y, e);
    assert y1.replaced == y.replaced + [Replacement(y.db, y.restores[w].snapshot, y.restores[w].pre)];
    StartHolds(k, y0);
    RunKeeps(k, y0, es);
    StepKeeps(k, y, e);
    RunKeeps(k, y1, fs);
    RunTracks(k, y0, es, w, None);
    RunExtendsReplaced(k, y1, fs);
    EntryKeptIff(k, Run(k, y1, fs), |y.replaced|);
  }

  lemma EntryKeptIff(k: Tools, z: System, i: nat)
    requires Inv(k, z) && Faithful(k) && i < |z.replaced|
    ensures Kept(k, z.mongo, z.replaced[i].pre, z.replaced[i].held) <==> z.replaced[i].held == z.replaced[i].snapshot
  {
    var entry := z.replaced[i];
    assert Kept(k, z.mongo, entry.pre, entry.snapshot);
    if Kept(k, z.mongo, entry.pre, entry.held) {
      DumpIsInjective(k, entry.held, entry.snapshot);
    }
  }

  // ---------------------------------------------------------------------------
  // Table by table
  // ---------------------------------------------------------------------------

  /** What the last write by anybody else since w's pre-restore dump left of one table. */
  ghost function LastTableWrite(k: Tools, y: System, es: seq<Event>, w: WorkerId, table: string,
      last: Option<Option<string>>)
      : Option<Option<string>>
    requires PossibleRun(k, y, es)
    decreases |es|
  {
    if es == [] then last
    else LastTableWrite(k, Step(k, y, es[0]), es[1..], w, table, TableWriteAfter(k, y, es[0], w, table, last))
  }

  ghost function TableWriteAfter(k: Tools, y: System, e: Event, w: WorkerId, table: string,
      last: Option<Option<string>>)
      : Option<Option<string>>
    requires Possible(k, y, e)
  {
    if e.StartPreRestore? && e.w == w then None
    else if Wrote(k, y, e).Some? && Mover(e) != Some(w) then Some(Get(Wrote(k, y, e).value, table))
    else last
  }

  /** w has made its dump and this table is not dropped yet. */
  predicate StillThere(x: Restore, table: string) {
    x.Dumping? || x.Opening? || x.Listing? || (x.Clearing? && table in x.tables)
  }

  ghost predicate TracksTable(y: System, w: WorkerId, table: string, last: Option<Option<string>>) {
    w in y.restores && StillThere(y.restores[w], table) ==>
      Get(y.db, table) == match last case None => Get(y.restores[w].snapshot, table) case Some(contents) => contents
  }

  lemma StillThereSince(k: Tools, y: System, e: Event, w: WorkerId, table: string)
    requires Possible(k, y, e) && w in Step(k, y, e).restores && StillThere(Step(k, y, e).restores[w], table)
    ensures if e.StartPreRestore? && e.w == w then Step(k, y, e).restores[w].snapshot == Step(k, y, e).db
            else && w in y.restores && StillThere(y.restores[w], table)
                 && y.restores[w].snapshot == Step(k, y, e).restores[w].snapshot
                 && (Mover(e) == Some(w) ==> Get(Step(k, y, e).db, table) == Get(y.db, table))
  {
    OthersStay(k, y, e);
    if Mover(e) != Some(w) {
      assert Get(Step(k, y, e).restores, w) == Get(y.restores, w);
    }
  }

  lemma StepTracksTable(k: Tools, y: System, e: Event, w: WorkerId, table: string, last: Option<Option<string>>)
    requires Possible(k, y, e) && TracksTable(y, w, table, last)
    ensures TracksTable(Step(k, y, e), w, table, TableWriteAfter(k, y, e, w, table, last))
  {
    var y' := Step(k, y, e);
    OnlyWritesChange(k, y, e);
    if w in y'.restores && StillThere(y'.restores[w], table) {
      StillThereSince(k, y, e, w, table);
    }
  }

  lemma {:induction false} RunTracksTable(k: Tools, y: System, es: seq<Event>, w: WorkerId, table: string,
                                          last: Option<Option<string>>)
    requires PossibleRun(k, y, es) && TracksTable(y, w, table, last)
    ensures TracksTable(Run(k, y, es), w, table, LastTableWrite(k, y, es, w, table, last))
    decreases |es|
  {
    if es != [] {
      StepTracksTable(k, y, es[0], w, table, last);
      RunTracksTable(k, Step(k, y, es[0]), es[1..], w, table, TableWriteAfter(k, y, es[0], w, table, last));
    }
  }

  /** Whenever a restore drops a table, early or late in its clearing: a restore from its pre-restore record into an
      empty schema gives that table back as it was dropped if and only if the last write to the database by anybody
      else since the dump, if there was one, left the table as dumped. */
  lemma DroppedTableIsKeptIff(k: Tools, y0: System, es: seq<Event>, w: WorkerId, table: string)
    requires Start(y0) && Faithful(k) && PossibleRun(k, y0, es) && Possible(k, Run(k, y0, es), Drop(w, table))
    ensures var y, last := Run(k, y0, es), LastTableWrite(k, y0, es, w, table, None);
            var x := y.restores[w];
            && Kept(k, y.mongo, x.pre, x.snapshot)
            && var back := k.load(map[], y.mongo.files[y.mongo.records[x.pre].file]);
               Get(back, table) == Get(y.db, table) <==> last.None? || last == Some(Get(x.snapshot, table))
  {
    var y := Run(k, y0, es);
    StartHolds(k, y0);
    RunKeeps(k, y0, es);
    RunTracksTable(k, y0, es, w, table, None);
    var x := y.restores[w];
    assert RestoreFollows(k, y, x);
    assert map[] + x.snapshot == x.snapshot;
  }

  // ---------------------------------------------------------------------------
  // What a restore from it brings back
  // ---------------------------------------------------------------------------

  /** Somebody else wrote the database since w listed its tables. */
  ghost predicate Intruded(k: Tools, y: System, es: seq<Event>, w: WorkerId, intruded: bool)
    requires PossibleRun(k, y, es)
    decreases |es|
  {
    if es == [] then intruded
    else Intruded(k, Step(k, y, es[0]), es[1..], w, IntrudedBy(k, y, es[0], w, intruded))
  }

  ghost predicate IntrudedBy(k: Tools, y: System, e: Event, w: WorkerId, intruded: bool)
    requires Possible(k, y, e)
  {
    if e.ListTables? && e.w == w then false else intruded || (Wrote(k, y, e).Some? && Mover(e) != Some(w))
  }

  /** Otherwise exactly the tables still to be dropped are there. */
  ghost predicate ClearsAlone(y: System, w: WorkerId, intruded: bool) {
    w in y.restores && !intruded ==>
      && (y.restores[w].Clearing? ==> y.db.Keys == y.restores[w].tables)
      && (y.restores[w].Loading? && y.restores[w].record.scope == Full ==> y.db == map[])
  }

  lemma StepClearsAlone(k: Tools, y: System, e: Event, w: WorkerId, intruded: bool)
    requires Inv(k, y) && Possible(k, y, e) && ClearsAlone(y, w, intruded)
    ensures ClearsAlone(Step(k, y, e), w, IntrudedBy(k, y, e, w, intruded))
  {
    OnlyWritesChange(k, y, e);
    OthersStay(k, y, e);
    if Mover(e) != Some(w) {
      assert Get(Step(k, y, e).restores, w) == Get(y.restores, w);
    } else if w in y.restores {
      assert RestoreFollows(k, y, y.restores[w]);
      if e.Cleared? {
        assert y.db.Keys == {} ==> y.db == map[];
      }
    }
  }

  lemma {:induction false} RunClearsAlone(k: Tools, y: System, es: seq<Event>, w: WorkerId, intruded: bool)
    requires Inv(k, y) && PossibleRun(k, y, es) && ClearsAlone(y, w, intruded)
    ensures ClearsAlone(Run(k, y, es), w, Intruded(k, y, es, w, intruded))
    decreases |es|
  {
    if es != [] {
      StepKeeps(k, y, es[0]);
      StepClearsAlone(k, y, es[0], w, intruded);
      RunClearsAlone(k, Step(k, y, es[0]), es[1..], w, IntrudedBy(k, y, es[0], w, intruded));
    }
  }

  /** A later restore from the record that succeeds leaves the dumped contents, besides tables the dump does not have:
      exactly the contents if and only if there are none of those when it loads, as when nobody else has written since
      it listed the tables. */
  lemma SuccessfulRestoreBringsBack(k: Tools, y0: System, es: seq<Event>, w: WorkerId, i: nat)
    requires Start(y0) && Faithful(k) && PossibleRun(k, y0, es) && i < |Run(k, y0, es).replaced|
    requires Possible(k, Run(k, y0, es), LoadSucceeds(w))
    requires Run(k, y0, es).restores[w].selected == Run(k, y0, es).replaced[i].pre
    ensures var y := Run(k, y0, es);
            var y', snapshot := Step(k, y, LoadSucceeds(w)), y.replaced[i].snapshot;
            && (y'.db == snapshot <==> y.db.Keys <= snapshot.Keys)
            && (!Intruded(k, y0, es, w, true) ==> y'.db == snapshot)
  {
    StartHolds(k, y0);
    RunKeeps(k, y0, es);
    RunClearsAlone(k, y0, es, w, true);
    var y := Run(k, y0, es);
    assert Kept(k, y.mongo, y.replaced[i].pre, y.replaced[i].snapshot);
    assert RestoreFollows(k, y, y.restores[w]);
    LoadLeaves(k, y.db, y.replaced[i].snapshot);
  }

  lemma LoadLeaves(k: Tools, d: Database, snapshot: Database)
    requires Faithful(k)
    ensures k.load(d, k.dump(snapshot)) == snapshot <==> d.Keys <= snapshot.Keys
  {
    assert (d + snapshot).Keys == d.Keys + snapshot.Keys;
    if d.Keys <= snapshot.Keys {
      assert d + snapshot == snapshot;
    }
  }

  // ---------------------------------------------------------------------------
  // The store and retention
  // ---------------------------------------------------------------------------

  /** No record points to a missing file, nor to another record's. */
  lemma NoRecordDangles(k: Tools, y: System, q: RecordId, r: RecordId)
    requires Reachable(k, y) && q in y.mongo.records && r in y.mongo.records
    ensures y.mongo.records[r].file in y.mongo.files
    ensures y.mongo.records[q].file == y.mongo.records[r].file ==> q == r
  {
    ReachableHolds(k, y);
  }

  /** Over any run only periodic records go; every other record stays as it is, with its file. */
  lemma {:induction false} OnlyPeriodicGoEver(k: Tools, y: System, es: seq<Event>)
    requires Inv(k, y) && PossibleRun(k, y, es)
    ensures OnlyPeriodicGo(y.mongo, Run(k, y, es).mongo)
    decreases |es|
  {
    if es != [] {
      var y1 := Step(k, y, es[0]);
      StepKeeps(k, y, es[0]);
      StepKeepsStore(k, y, es[0]);
      OnlyPeriodicGoEver(k, y1, es[1..]);
      GoingComposes(y.mongo, y1.mongo, Run(k, y1, es[1..]).mongo);
    }
  }

  lemma GoingComposes(m: Mongo, n: Mongo, p: Mongo)
    requires OnlyPeriodicGo(m, n) && OnlyPeriodicGo(n, p) && m.records.Keys <= m.usedRecords
    ensures OnlyPeriodicGo(m, p)
  {
  }

  predicate Targeted(y: System, r: RecordId) {
    exists d :: d in y.deletions && d.record == r
  }

  /** Some moment of the run sees r as a periodic record with n newer ones. */
  ghost predicate OnceOutranked(k: Tools, y: System, es: seq<Event>, r: RecordId, n: int)
    requires PossibleRun(k, y, es)
    decreases |es|
  {
    || (r in PeriodicTimes(y.mongo) && |Newer(PeriodicTimes(y.mongo), r)| >= n)
    || (es != [] && OnceOutranked(k, Step(k, y, es[0]), es[1..], r, n))
  }

  /** Every sweep of the run keeps n, and no two periodic records it lists were made at the same time. */
  ghost predicate SweepsKeep(k: Tools, y: System, es: seq<Event>, n: int)
    requires PossibleRun(k, y, es)
    decreases |es|
  {
    es == []
    || ((es[0].Sweep? ==> es[0].keep >= n && DistinctTimes(PeriodicTimes(y.mongo)))
        && SweepsKeep(k, Step(k, y, es[0]), es[1..], n))
  }

  lemma InTailIff(listing: seq<RecordId>, n: nat, i: nat)
    requires i < |listing| && forall a, b :: 0 <= a < b < |listing| ==> listing[a] != listing[b]
    ensures n <= |listing| && listing[i] in listing[n..] <==> n <= i
  {
    if n <= i {
      assert listing[n..][i - n] == listing[i];
    } else if n <= |listing| {
      assert forall l :: 0 <= l < |listing[n..]| ==> listing[n..][l] == listing[n + l];
    }
  }

  /** The surplus of a listing is exactly the periodic records with `keep` newer ones. */
  lemma SurplusIsTheOutranked(m: Mongo, listing: seq<RecordId>, keep: int, r: RecordId)
    requires NewestFirst(listing, PeriodicTimes(m)) && DistinctTimes(PeriodicTimes(m))
    ensures r in Surplus(listing, keep) <==> r in PeriodicTimes(m) && |Newer(PeriodicTimes(m), r)| >= keep
  {
    var n := if keep < 0 then 0 else keep;
    if r in PeriodicTimes(m) {
      var i :| 0 <= i < |listing| && listing[i] == r;
      RankIsPosition(listing, PeriodicTimes(m), i);
      InTailIff(listing, n, i);
    } else if n <= |listing| {
      assert forall l :: 0 <= l < |listing[n..]| ==> listing[n..][l] in listing;
    }
  }

  lemma TargetedStep(k: Tools, y: System, e: Event, r: RecordId, n: int)
    requires Possible(k, y, e) && !Targeted(y, r)
    requires e.Sweep? ==> e.keep >= n && DistinctTimes(PeriodicTimes(y.mongo))
    ensures r in y.mongo.records ==> r in Step(k, y, e).mongo.records
    ensures Targeted(Step(k, y, e), r) ==> r in PeriodicTimes(y.mongo) && |Newer(PeriodicTimes(y.mongo), r)| >= n
  {
    if e.Sweep? {
      SweepStarts(y, e.s, e.keep, e.listing);
      SurplusIsTheOutranked(y.mongo, e.listing, e.keep, r);
    } else if !e.DeleteMeta? && !e.DeleteFile? {
      assert Step(k, y, e).deletions == y.deletions;
    }
  }

  /** Retention with `keep >= n` removes a record only if it once had n newer ones. */
  lemma {:induction false} OnlyTheOutrankedGo(k: Tools, y: System, es: seq<Event>, r: RecordId, n: int)
    requires PossibleRun(k, y, es) && SweepsKeep(k, y, es, n)
    requires r in y.mongo.records && !Targeted(y, r)
    requires r !in Run(k, y, es).mongo.records
    ensures OnceOutranked(k, y, es, r, n)
    decreases |es|
  {
    if es != [] {
      TargetedStep(k, y, es[0], r, n);
      if !Targeted(Step(k, y, es[0]), r) {
        OnlyTheOutrankedGo(k, Step(k, y, es[0]), es[1..], r, n);
      }
    }
  }
}
