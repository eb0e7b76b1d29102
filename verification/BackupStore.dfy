/** The backup repository: streaming uploads and downloads, and the retention sweep. */
module BackupStore {
  import opened Ordering
  import opened BackupModel

  // ---------------------------------------------------------------------------
  // Streaming
  // ---------------------------------------------------------------------------

  /** A hash object: `update` feeds it bytes, `digest` reads it off. */
  datatype Hash = Hash(init: string, update: (string, Bytes) -> string, digest: string -> string)

  predicate FeedsAlike(h: Hash, s: string, a: Bytes, b: Bytes) {
    h.update(h.update(s, a), b) == h.update(s, a + b)
  }

  /** Feeding it two pieces is feeding it both at once. */
  ghost predicate Streams(h: Hash) {
    h.update(h.init, []) == h.init && forall s, a, b :: FeedsAlike(h, s, a, b)
  }

  function Sha(h: Hash, content: Bytes): string {
    h.digest(h.update(h.init, content))
  }

  function Concat(chunks: seq<Bytes>): Bytes {
    if chunks == [] then [] else chunks[0] + Concat(chunks[1..])
  }

  lemma {:induction false} ConcatSnoc(chunks: seq<Bytes>, chunk: Bytes)
    ensures Concat(chunks + [chunk]) == Concat(chunks) + chunk
  {
    if chunks != [] {
      assert (chunks + [chunk])[1..] == chunks[1..] + [chunk];
      ConcatSnoc(chunks[1..], chunk);
    }
  }

  /** A stream that delivers `content` in pieces of n bytes. */
  function Chunks(content: Bytes, n: nat): (chunks: seq<Bytes>)
    requires n > 0
    ensures Concat(chunks) == content
    decreases |content|
  {
    if content == [] then []
    else if |content| <= n then
      assert Concat([content]) == content + Concat([]);
      [content]
    else
      [content[..n]] + Chunks(content[n..], n)
  }

  /** Checksum and size taken chunk by chunk while the chunks go through: `passed` is what went through. */
  method Pass(h: Hash, chunks: seq<Bytes>) returns (checksum: string, size: nat, passed: Bytes)
    requires Streams(h)
    ensures passed == Concat(chunks) && size == |Concat(chunks)| && checksum == Sha(h, Concat(chunks))
  {
    var state := h.init;
    size, passed := 0, [];
    for i := 0 to |chunks|
      invariant passed == Concat(chunks[..i]) && size == |passed| && state == h.update(h.init, passed)
    {
      assert FeedsAlike(h, h.init, passed, chunks[i]);
      state := h.update(state, chunks[i]);
      size := size + |chunks[i]|;
      passed := passed + chunks[i];
      assert chunks[..i + 1] == chunks[..i] + [chunks[i]];
      ConcatSnoc(chunks[..i], chunks[i]);
    }
    assert chunks[..|chunks|] == chunks;
    checksum := h.digest(state);
  }

  /** The verdict falls at the end of the stream, when everything has already gone through. */
  method PassValidated(h: Hash, chunks: seq<Bytes>, expectedChecksum: string, expectedSize: nat)
      returns (ok: bool, passed: Bytes)
    requires Streams(h)
    ensures passed == Concat(chunks)
    ensures ok <==> Sha(h, Concat(chunks)) == expectedChecksum && |Concat(chunks)| == expectedSize
  {
    var checksum, size;
    checksum, size, passed := Pass(h, chunks);
    ok := checksum == expectedChecksum && size == expectedSize;
  }

  /** What an upload recorded, a download accepts, however the two were cut into chunks. */
  method UploadThenDownload(h: Hash, sent: seq<Bytes>, received: seq<Bytes>) returns (ok: bool)
    requires Streams(h) && Concat(sent) == Concat(received)
    ensures ok
  {
    var checksum, size, _ := Pass(h, sent);
    var passed;
    ok, passed := PassValidated(h, received, checksum, size);
  }

  // ---------------------------------------------------------------------------
  // The repository
  // ---------------------------------------------------------------------------

  /** The store after a backup of `content`, depending on how its calls end. */
  function Saved(k: Tools, m: Mongo, kind: Kind, content: Bytes, f: FileId, r: RecordId, now: int, uploads: Outcome,
      inserts: Outcome): Mongo {
    var uploaded := if uploads == FailsBefore then m
        else m.(files := m.files[f := content], usedFiles := m.usedFiles + {f});
    if uploads != Succeeds || inserts == FailsBefore then uploaded
    else uploaded.(records := m.records[r := Record(kind, Full, f, k.sha(content), |content|, now)],
        usedRecords := m.usedRecords + {r})
  }

  /** How the two calls of a deletion end: the record's, and then the file's. */
  datatype Fate = Fate(meta: Outcome, file: Outcome)

  function Members(ids: seq<RecordId>): set<RecordId> {
    set r | r in ids
  }

  function FateOf(fates: map<RecordId, Fate>, r: RecordId): Fate {
    if r in fates then fates[r] else Fate(Succeeds, Succeeds)
  }

  function GoneRecord(r: RecordId, fate: Fate): set<RecordId> {
    if fate.meta != FailsBefore then {r} else {}
  }

  /** A file goes only after its record's deletion was acknowledged. */
  function GoneFile(m: Mongo, r: RecordId, fate: Fate): set<FileId> {
    if r in m.records && fate.meta == Succeeds && fate.file != FailsBefore then {m.records[r].file} else {}
  }

  function GoneRecords(done: set<RecordId>, fates: map<RecordId, Fate>): set<RecordId> {
    set r, g | r in done && g in GoneRecord(r, FateOf(fates, r)) :: g
  }

  function GoneFiles(m: Mongo, done: set<RecordId>, fates: map<RecordId, Fate>): set<FileId> {
    set r, f | r in done && f in GoneFile(m, r, FateOf(fates, r)) :: f
  }

  function LateRecords(done: set<RecordId>, fates: map<RecordId, Fate>): set<RecordId> {
    set r | r in done && FateOf(fates, r).meta == FailsAfter
  }

  ghost predicate SweptOne(m: Mongo, r: RecordId, fate: Fate, m': Mongo) {
    && m' == m.(records := m.records - GoneRecord(r, fate), files := m.files - GoneFile(m, r, fate))
    && |m'.records| + (if fate.meta == FailsBefore then 0 else 1) == |m.records|
  }

  /** The store once these records' deletions are done, and the number reported. */
  ghost predicate Swept(m: Mongo, done: set<RecordId>, fates: map<RecordId, Fate>, m': Mongo, count: nat) {
    && m' == m.(records := m.records - GoneRecords(done, fates), files := m.files - GoneFiles(m, done, fates))
    && |m'.records| + count + |LateRecords(done, fates)| == |m.records|
  }

  /** The record deletions of `done` and the file deletions of `freed` are over. */
  ghost predicate Midway(m: Mongo, done: set<RecordId>, freed: set<RecordId>, fates: map<RecordId, Fate>, m': Mongo,
      count: nat) {
    && m' == m.(records := m.records - GoneRecords(done, fates), files := m.files - GoneFiles(m, freed, fates))
    && |m'.records| + count + |LateRecords(done, fates)| == |m.records|
  }

  /** What is settled and what is still to do. */
  ghost predicate Scheduled(surplus: set<RecordId>, metas: set<RecordId>, payloads: set<RecordId>,
                            done: set<RecordId>, freed: set<RecordId>, fates: map<RecordId, Fate>) {
    && freed <= done <= surplus && metas == surplus - done && payloads == done - freed
    && forall r :: r in payloads ==> FateOf(fates, r).meta == Succeeds
  }

  lemma RecordIsNext(surplus: set<RecordId>, metas: set<RecordId>, payloads: set<RecordId>,
                     done: set<RecordId>, freed: set<RecordId>, fates: map<RecordId, Fate>, r: RecordId)
    requires Scheduled(surplus, metas, payloads, done, freed, fates) && r in metas
    ensures r in surplus && r !in done && |metas - {r}| == |metas| - 1 && |payloads + {r}| == |payloads| + 1
    ensures if FateOf(fates, r).meta == Succeeds
        then Scheduled(surplus, metas - {r}, payloads + {r}, done + {r}, freed, fates)
            else Scheduled(surplus, metas - {r}, payloads, done + {r}, freed + {r}, fates)
  {
  }

  lemma PayloadIsNext(surplus: set<RecordId>, metas: set<RecordId>, payloads: set<RecordId>,
                      done: set<RecordId>, freed: set<RecordId>, fates: map<RecordId, Fate>, r: RecordId)
    requires Scheduled(surplus, metas, payloads, done, freed, fates) && r in payloads
    ensures r in surplus && FateOf(fates, r).meta == Succeeds && |payloads - {r}| == |payloads| - 1
    ensures Scheduled(surplus, metas, payloads - {r}, done, freed + {r}, fates)
  {
  }

  lemma NothingIsNext(surplus: set<RecordId>, done: set<RecordId>, freed: set<RecordId>, fates: map<RecordId, Fate>)
    requires Scheduled(surplus, {}, {}, done, freed, fates)
    ensures done == surplus && freed == surplus
  {
    assert surplus == done + (surplus - done) && done == freed + (done - freed);
  }

  class Repository {
    var records: map<RecordId, Record>
    var files: map<FileId, Bytes>
    ghost var usedRecords: set<RecordId>
    ghost var usedFiles: set<FileId>

    ghost function View(): Mongo
      reads this
    {
      Mongo(records, files, usedRecords, usedFiles)
    }

    constructor (m: Mongo)
      ensures View() == m
    {
      records, files, usedRecords, usedFiles := m.records, m.files, m.usedRecords, m.usedFiles;
    }

    method StoreBackup(h: Hash, ghost k: Tools, kind: Kind, chunks: seq<Bytes>, f: FileId, r: RecordId, now: int,
                       uploads: Outcome, inserts: Outcome, reloads: bool) returns (stored: bool)
      requires Streams(h) && forall b :: k.sha(b) == Sha(h, b)
      modifies this
      ensures View() == Saved(k, old(View()), kind, Concat(chunks), f, r, now, uploads, inserts)
      ensures stored <==> uploads == Succeeds && inserts == Succeeds && reloads
    {
      var checksum, size, content := Pass(h, chunks);
      if uploads != FailsBefore {
        files := files[f := content];
        usedFiles := usedFiles + {f};
      }
      if uploads != Succeeds {
        return false;
      }
      if inserts != FailsBefore {
        records := records[r := Record(kind, Full, f, checksum, size, now)];
        usedRecords := usedRecords + {r};
      }
      return inserts == Succeeds && reloads;
    }

    /** Deleting a record that is gone already is acknowledged like any other. */
    method DeleteRecord(r: RecordId, outcome: Outcome) returns (acknowledged: bool)
      modifies this`records
      ensures acknowledged <==> outcome == Succeeds
      ensures records == old(records) - if outcome == FailsBefore then {} else {r}
    {
      if outcome != FailsBefore {
        records := records - {r};
      } else {
        MinusNothing(records);
      }
      acknowledged := outcome == Succeeds;
    }

    /** When the file's own deletion fails, that is only logged. */
    method DeletePayload(f: FileId, outcome: Outcome)
      modifies this`files
      ensures files == old(files) - if outcome == FailsBefore then {} else {f}
    {
      if outcome != FailsBefore {
        files := files - {f};
      } else {
        MinusNothing(files);
      }
    }

    method SettleRecord(ghost m: Mongo, ghost done: set<RecordId>, ghost freed: set<RecordId>,
        fates: map<RecordId, Fate>,
                        r: RecordId, before: nat) returns (acknowledged: bool, count: nat)
      requires Midway(m, done, freed, fates, View(), before) && r in m.records && r !in done
      modifies this`records
      ensures acknowledged <==> FateOf(fates, r).meta == Succeeds
      ensures Midway(m, done + {r}, if acknowledged then freed else freed + {r}, fates, View(), count)
    {
      RecordSettled(m, done, freed, fates, View(), before, r);
      acknowledged := DeleteRecord(r, FateOf(fates, r).meta);
      count := if acknowledged then before + 1 else before;
      if !acknowledged {
        NoFileGoes(m, freed, fates, r);
      }
    }

    method SettlePayload(ghost m: Mongo, ghost done: set<RecordId>, ghost freed: set<RecordId>,
        fates: map<RecordId, Fate>,
                         r: RecordId, f: FileId, ghost count: nat)
      requires Midway(m, done, freed, fates, View(), count) && r in m.records && m.records[r].file == f
      requires FateOf(fates, r).meta == Succeeds
      modifies this`files
      ensures Midway(m, done, freed + {r}, fates, View(), count)
    {
      PayloadSettled(m, done, freed, fates, View(), count, r);
      DeletePayload(f, FateOf(fates, r).file);
    }

    /** All deletions at once: their calls come in any order that has each record's before its file's. */
    method DeleteAll(surplus: set<RecordId>, fates: map<RecordId, Fate>) returns (count: nat)
      requires surplus <= records.Keys
      modifies this
      ensures Swept(old(View()), surplus, fates, View(), count)
    {
      ghost var m := View();
      ghost var done, freed: set<RecordId> := {}, {};
      NothingSwept(m, fates);
      var fileOf := map r | r in surplus :: records[r].file;
      var metas, payloads: set<RecordId> := surplus, {};
      count := 0;
      while metas != {} || payloads != {}
        invariant Midway(m, done, freed, fates, View(), count)
        invariant surplus <= m.records.Keys && fileOf == map r | r in surplus :: m.records[r].file
        invariant Scheduled(surplus, metas, payloads, done, freed, fates)
        decreases |metas| + |metas| + |payloads|
      {
        if {
          case metas != {} =>
            var r :| r in metas;
            RecordIsNext(surplus, metas, payloads, done, freed, fates, r);
            var acknowledged;
            acknowledged, count := SettleRecord(m, done, freed, fates, r, count);
            metas, done := metas - {r}, done + {r};
            if acknowledged {
              payloads := payloads + {r};
            } else {
              freed := freed + {r};
            }
          case payloads != {} =>
            var r :| r in payloads;
            PayloadIsNext(surplus, metas, payloads, done, freed, fates, r);
            SettlePayload(m, done, freed, fates, r, fileOf[r], count);
            payloads, freed := payloads - {r}, freed + {r};
        }
      }
      NothingIsNext(surplus, done, freed, fates);
    }

    /** Nothing else at work on the store: the surplus goes as far as its calls allow, and the count misses
        exactly the records that went with a failing call. */
    method DeleteOldPeriodicBackups(keep: int, fates: map<RecordId, Fate>) returns (count: nat, listing: seq<RecordId>)
      modifies this
      ensures NewestFirst(listing, PeriodicTimes(old(View())))
      ensures Swept(old(View()), Members(Surplus(listing, keep)), fates, View(), count)
    {
      listing := Query(map r | r in records && IsPeriodic(records[r]) :: records[r].created);
      SurplusIsListed(listing, keep);
      if Surplus(listing, keep) == [] {
        count := 0;
        return;
      }
      count := DeleteAll(Members(Surplus(listing, keep)), fates);
    }
  }

  lemma MinusNothing<K, V>(m: map<K, V>)
    ensures m - {} == m
  {
  }

  lemma RecordSettled(m: Mongo, done: set<RecordId>, freed: set<RecordId>, fates: map<RecordId, Fate>, m': Mongo,
      count: nat, r: RecordId)
    requires Midway(m, done, freed, fates, m', count) && r in m.records && r !in done
    ensures r in m'.records
    ensures var outcome := FateOf(fates, r).meta;
            var m'' := m'.(records := m'.records - if outcome == FailsBefore then {} else {r});
            Midway(m, done + {r}, freed, fates, m'', if outcome == Succeeds then count + 1 else count)
  {
    OneMoreRecord(done, r, fates);
    OneMoreLate(done, r, fates);
    MinusTwice(m.records, GoneRecords(done, fates), GoneRecord(r, FateOf(fates, r)));
    GoneAreDone(done, fates);
    RemovalShrinks(m'.records, r);
    MinusNothing(m'.records);
  }

  lemma GoneAreDone(done: set<RecordId>, fates: map<RecordId, Fate>)
    ensures GoneRecords(done, fates) <= done
  {
  }

  lemma NoFileGoes(m: Mongo, freed: set<RecordId>, fates: map<RecordId, Fate>, r: RecordId)
    requires FateOf(fates, r).meta != Succeeds
    ensures GoneFiles(m, freed + {r}, fates) == GoneFiles(m, freed, fates)
  {
    OneMoreFile(m, freed, r, fates);
  }

  lemma PayloadSettled(m: Mongo, done: set<RecordId>, freed: set<RecordId>, fates: map<RecordId, Fate>, m': Mongo,
      count: nat, r: RecordId)
    requires Midway(m, done, freed, fates, m', count) && r in m.records && FateOf(fates, r).meta == Succeeds
    ensures var m'' := m'.(files := m'.files - if FateOf(fates, r).file == FailsBefore then {}
        else {m.records[r].file});
            Midway(m, done, freed + {r}, fates, m'', count)
  {
    OneMoreFile(m, freed, r, fates);
    MinusTwice(m.files, GoneFiles(m, freed, fates), GoneFile(m, r, FateOf(fates, r)));
    MinusNothing(m'.files);
  }

  lemma RemovalShrinks(records: map<RecordId, Record>, r: RecordId)
    requires r in records
    ensures |records - {r}| == |records| - 1
  {
    assert (records - {r}).Keys == records.Keys - {r};
    assert |(records - {r}).Keys| == |records.Keys| - 1;
  }

  lemma SurplusIsListed(listing: seq<RecordId>, keep: int)
    requires forall i, j :: 0 <= i < j < |listing| ==> listing[i] != listing[j]
    ensures var surplus := Surplus(listing, keep);
            && (forall i :: 0 <= i < |surplus| ==> surplus[i] in listing)
            && forall i, j :: 0 <= i < j < |surplus| ==> surplus[i] != surplus[j]
  {
    var surplus, n := Surplus(listing, keep), if keep < 0 then 0 else keep;
    assert forall i :: 0 <= i < |surplus| ==> surplus[i] == listing[n + i];
  }

  /** Deleting surplus[i] adds it to what is gone. */
  lemma OneMore(m: Mongo, surplus: seq<RecordId>, i: nat, fates: map<RecordId, Fate>)
    requires i < |surplus| && surplus[i] in m.records
    requires forall a, b :: 0 <= a < b < |surplus| ==> surplus[a] != surplus[b]
    ensures var r, done, next := surplus[i], Members(surplus[..i]), Members(surplus[..i + 1]);
            && r !in GoneRecords(done, fates)
            && GoneRecords(next, fates) == GoneRecords(done, fates) + GoneRecord(r, FateOf(fates, r))
            && GoneFiles(m, next, fates) == GoneFiles(m, done, fates) + GoneFile(m, r, FateOf(fates, r))
            && |LateRecords(next, fates)| == |LateRecords(done, fates)| + if FateOf(fates, r).meta == FailsAfter then 1
                else 0
  {
    var r, done, next := surplus[i], Members(surplus[..i]), Members(surplus[..i + 1]);
    assert surplus[..i + 1] == surplus[..i] + [r];
    assert next == done + {r};
    assert r !in done;
    OneMoreRecord(done, r, fates);
    OneMoreFile(m, done, r, fates);
    OneMoreLate(done, r, fates);
  }

  lemma MinusTwice<K, V>(m: map<K, V>, a: set<K>, b: set<K>)
    ensures m - a - b == m - (a + b)
  {
  }

  lemma NothingSwept(m: Mongo, fates: map<RecordId, Fate>)
    ensures Swept(m, {}, fates, m, 0)
  {
    assert GoneRecords({}, fates) == {} && GoneFiles(m, {}, fates) == {} && LateRecords({}, fates) == {};
    assert m.records - {} == m.records && m.files - {} == m.files;
  }

  lemma OneMoreLeft(m: Mongo, surplus: seq<RecordId>, i: nat, fates: map<RecordId, Fate>, m': Mongo, count: nat)
    requires i < |surplus| && surplus[i] in m.records && Swept(m, Members(surplus[..i]), fates, m', count)
    requires forall a, b :: 0 <= a < b < |surplus| ==> surplus[a] != surplus[b]
    ensures surplus[i] in m'.records && m'.records[surplus[i]] == m.records[surplus[i]]
  {
    OneMore(m, surplus, i, fates);
  }

  lemma OneMoreSwept(m: Mongo, surplus: seq<RecordId>, i: nat, fates: map<RecordId, Fate>, m': Mongo, count: nat,
      m'': Mongo, counted: bool)
    requires i < |surplus| && surplus[i] in m.records && Swept(m, Members(surplus[..i]), fates, m', count)
    requires forall a, b :: 0 <= a < b < |surplus| ==> surplus[a] != surplus[b]
    requires SweptOne(m', surplus[i], FateOf(fates, surplus[i]), m'')
    requires counted <==> FateOf(fates, surplus[i]).meta == Succeeds
    ensures Swept(m, Members(surplus[..i + 1]), fates, m'', if counted then count + 1 else count)
  {
    var r, fate, done, next := surplus[i], FateOf(fates, surplus[i]), Members(surplus[..i]), Members(surplus[..i + 1]);
    OneMore(m, surplus, i, fates);
    OneMoreLeft(m, surplus, i, fates, m', count);
    assert GoneFile(m', r, fate) == GoneFile(m, r, fate);
    MinusTwice(m.records, GoneRecords(done, fates), GoneRecord(r, fate));
    MinusTwice(m.files, GoneFiles(m, done, fates), GoneFile(m, r, fate));
  }

  lemma OneMoreRecord(done: set<RecordId>, r: RecordId, fates: map<RecordId, Fate>)
    ensures GoneRecords(done + {r}, fates) == GoneRecords(done, fates) + GoneRecord(r, FateOf(fates, r))
  {
    var now, before, one := GoneRecords(done + {r}, fates), GoneRecords(done, fates), GoneRecord(r, FateOf(fates, r));
    forall g | g in now ensures g in before + one {
      var q :| q in done + {r} && g in GoneRecord(q, FateOf(fates, q));
    }
    forall g | g in before + one ensures g in now {
      if g in before {
        var q :| q in done && g in GoneRecord(q, FateOf(fates, q));
        assert q in done + {r};
      } else {
        assert r in done + {r};
      }
    }
  }

  lemma OneMoreFile(m: Mongo, done: set<RecordId>, r: RecordId, fates: map<RecordId, Fate>)
    ensures GoneFiles(m, done + {r}, fates) == GoneFiles(m, done, fates) + GoneFile(m, r, FateOf(fates, r))
  {
    var now, before, one := GoneFiles(m, done + {r}, fates), GoneFiles(m, done, fates),
        GoneFile(m, r, FateOf(fates, r));
    forall f | f in now ensures f in before + one {
      var q :| q in done + {r} && f in GoneFile(m, q, FateOf(fates, q));
    }
    forall f | f in before + one ensures f in now {
      if f in before {
        var q :| q in done && f in GoneFile(m, q, FateOf(fates, q));
        assert q in done + {r};
      } else {
        assert r in done + {r};
      }
    }
  }

  lemma OneMoreLate(done: set<RecordId>, r: RecordId, fates: map<RecordId, Fate>)
    requires r !in done
    ensures |LateRecords(done + {r}, fates)| == |LateRecords(done, fates)| + if FateOf(fates, r).meta == FailsAfter
        then 1 else 0
  {
    assert LateRecords(done + {r}, fates) == LateRecords(done, fates) + if FateOf(fates, r).meta == FailsAfter then {r}
        else {};
  }
}
