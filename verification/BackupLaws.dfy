/** What a sweep comes to, told by the records and files it leaves. */
module BackupLaws {
  import opened Ordering
  import opened BackupModel
  import opened BackupTheorems
  import opened BackupStore

  /** Of the full periodic records, those with `keep` newer ones are gone, except where the call that deletes the record
      failed before its effect. */
  ghost predicate NewestKept(at: map<RecordId, int>, keep: int, fates: map<RecordId, Fate>, m': Mongo) {
    DistinctTimes(at) ==> forall r :: r in at ==>
      (r in m'.records <==> |Newer(at, r)| < keep || FateOf(fates, r).meta == FailsBefore)
  }

  /** All other records stay, and none is altered. */
  ghost predicate OthersKept(m: Mongo, m': Mongo) {
    && (forall r :: r in m.records && !IsPeriodic(m.records[r]) ==> r in m'.records)
    && (forall r :: r in m.records && r in m'.records ==> m'.records[r] == m.records[r])
  }

  /** A file is gone exactly if it was that of a gone record whose deletion was acknowledged and its own deletion took
      effect; none is altered. */
  ghost predicate FilesFollow(m: Mongo, fates: map<RecordId, Fate>, m': Mongo) {
    && (forall f :: f in m.files ==> (f in m'.files <==> !FileGoes(m, fates, m', f)))
    && (forall f :: f in m.files && f in m'.files ==> m'.files[f] == m.files[f])
  }

  /** No record and no file is new. */
  ghost predicate NothingAdded(m: Mongo, m': Mongo) {
    m'.records.Keys <= m.records.Keys && m'.files.Keys <= m.files.Keys
  }

  ghost predicate FileGoes(m: Mongo, fates: map<RecordId, Fate>, m': Mongo, f: FileId) {
    exists r :: r in m.records && r !in m'.records && m.records[r].file == f
                && FateOf(fates, r).meta == Succeeds && FateOf(fates, r).file != FailsBefore
  }

  /** The records that went with a call that said so. */
  function Acknowledged(m: Mongo, fates: map<RecordId, Fate>, m': Mongo): set<RecordId> {
    set r | r in m.records && r !in m'.records && FateOf(fates, r).meta == Succeeds
  }

  lemma NewestStay(m: Mongo, listing: seq<RecordId>, keep: int, fates: map<RecordId, Fate>, m': Mongo)
    requires NewestFirst(listing, PeriodicTimes(m))
    requires m'.records == m.records - GoneRecords(Members(Surplus(listing, keep)), fates)
    ensures NewestKept(PeriodicTimes(m), keep, fates, m')
  {
    var at := PeriodicTimes(m);
    if DistinctTimes(at) {
      forall r | r in at
        ensures r in m'.records <==> |Newer(at, r)| < keep || FateOf(fates, r).meta == FailsBefore
      {
        SurplusIsTheOutranked(m, listing, keep, r);
        GoneIff(Members(Surplus(listing, keep)), fates, r);
      }
    }
  }

  lemma SweepComesTo(m: Mongo, listing: seq<RecordId>, keep: int, fates: map<RecordId, Fate>, m': Mongo, count: nat)
    requires NewestFirst(listing, PeriodicTimes(m))
    requires Swept(m, Members(Surplus(listing, keep)), fates, m', count)
    ensures NewestKept(PeriodicTimes(m), keep, fates, m') && OthersKept(m, m') && FilesFollow(m, fates, m')
    ensures NothingAdded(m, m') && count == |Acknowledged(m, fates, m')|
  {
    var done := Members(Surplus(listing, keep));
    SurplusIsPeriodic(m, listing, keep);
    NewestStay(m, listing, keep, fates, m');
    OthersStay(m, done, fates, m');
    FilesGoAlong(m, done, fates, m');
    CountIsAcknowledged(m, done, fates, m', count);
  }

  lemma OthersStay(m: Mongo, done: set<RecordId>, fates: map<RecordId, Fate>, m': Mongo)
    requires done <= PeriodicTimes(m).Keys && m'.records == m.records - GoneRecords(done, fates)
    ensures OthersKept(m, m')
  {
    GoneAreDone(done, fates);
  }

  lemma FilesGoAlong(m: Mongo, done: set<RecordId>, fates: map<RecordId, Fate>, m': Mongo)
    requires done <= m.records.Keys && m'.records == m.records - GoneRecords(done, fates)
    requires m'.files == m.files - GoneFiles(m, done, fates)
    ensures FilesFollow(m, fates, m')
  {
    forall f ensures f in GoneFiles(m, done, fates) <==> FileGoes(m, fates, m', f) {
      if f in GoneFiles(m, done, fates) {
        GoneFileGoes(m, done, fates, m', f);
      } else if FileGoes(m, fates, m', f) {
        GoingFileIsGone(m, done, fates, m', f);
      }
    }
  }

  lemma SurplusIsPeriodic(m: Mongo, listing: seq<RecordId>, keep: int)
    requires NewestFirst(listing, PeriodicTimes(m))
    ensures Members(Surplus(listing, keep)) <= PeriodicTimes(m).Keys
  {
    assert forall r :: r in Surplus(listing, keep) ==> r in listing;
  }

  lemma GoneIff(done: set<RecordId>, fates: map<RecordId, Fate>, r: RecordId)
    ensures r in GoneRecords(done, fates) <==> r in done && FateOf(fates, r).meta != FailsBefore
  {
    if r in done && FateOf(fates, r).meta != FailsBefore {
      assert r in GoneRecord(r, FateOf(fates, r));
    }
  }

  lemma GoneFileGoes(m: Mongo, done: set<RecordId>, fates: map<RecordId, Fate>, m': Mongo, f: FileId)
    requires done <= m.records.Keys && m'.records == m.records - GoneRecords(done, fates)
    requires f in GoneFiles(m, done, fates)
    ensures FileGoes(m, fates, m', f)
  {
    var r :| r in done && f in GoneFile(m, r, FateOf(fates, r));
    GoneIff(done, fates, r);
  }

  lemma GoingFileIsGone(m: Mongo, done: set<RecordId>, fates: map<RecordId, Fate>, m': Mongo, f: FileId)
    requires done <= m.records.Keys && m'.records == m.records - GoneRecords(done, fates)
    requires FileGoes(m, fates, m', f)
    ensures f in GoneFiles(m, done, fates)
  {
    var r :| r in m.records && r !in m'.records && m.records[r].file == f
             && FateOf(fates, r).meta == Succeeds && FateOf(fates, r).file != FailsBefore;
    GoneIff(done, fates, r);
    assert f in GoneFile(m, r, FateOf(fates, r));
  }

  /** The number reported is that of the acknowledged removals. */
  lemma CountIsAcknowledged(m: Mongo, done: set<RecordId>, fates: map<RecordId, Fate>, m': Mongo, count: nat)
    requires done <= m.records.Keys && Swept(m, done, fates, m', count)
    ensures count == |Acknowledged(m, fates, m')|
  {
    var late, told := LateRecords(done, fates), Acknowledged(m, fates, m');
    GoneLateOrTold(m, done, fates, m');
    Parts(m.records.Keys, m'.records.Keys, late, told);
    Sizes(m.records);
    Sizes(m'.records);
  }

  lemma GoneLateOrTold(m: Mongo, done: set<RecordId>, fates: map<RecordId, Fate>, m': Mongo)
    requires done <= m.records.Keys && m'.records == m.records - GoneRecords(done, fates)
    ensures m.records.Keys == m'.records.Keys + LateRecords(done, fates) + Acknowledged(m, fates, m')
    ensures LateRecords(done, fates) !! Acknowledged(m, fates, m')
    ensures m'.records.Keys !! LateRecords(done, fates) + Acknowledged(m, fates, m')
  {
    forall r ensures r in GoneRecords(done, fates) <==> r in done && FateOf(fates, r).meta != FailsBefore {
      GoneIff(done, fates, r);
    }
    assert m'.records.Keys == m.records.Keys - GoneRecords(done, fates);
  }

  lemma Sizes<K, V>(m: map<K, V>)
    ensures |m| == |m.Keys|
  {
  }

  lemma Parts<T>(all: set<T>, a: set<T>, b: set<T>, c: set<T>)
    requires all == a + b + c && b !! c && a !! b + c
    ensures |all| == |a| + |b| + |c|
  {
    assert |a + (b + c)| == |a| + |b + c|;
    assert all == a + (b + c);
  }
}
