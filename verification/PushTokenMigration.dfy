/** The migration that leaves one push-token row per user and provider. */
module PushTokenMigration {
  import opened PushTokens

  /** Order of ids, which are lower-case hexadecimal strings. */
  predicate Precedes(a: string, b: string) {
    b != [] && (a == [] || a[0] < b[0] || (a[0] == b[0] && Precedes(a[1..], b[1..])))
  }

  /** The join condition: `b` makes `a` go. */
  predicate Outlives(t: Table, a: RowId, b: RowId)
    requires a in t && b in t
  {
    && SameSlot(t, a, b)
    && (t[a].updated < t[b].updated || (t[a].updated == t[b].updated && Precedes(a, b)))
  }

  predicate SameSlot(t: Table, a: RowId, b: RowId)
    requires a in t && b in t
  {
    t[a].user == t[b].user && t[a].provider == t[b].provider
  }

  predicate HasOutliver(t: Table, a: RowId)
    requires a in t
  {
    exists b :: b in t && Outlives(t, a, b)
  }

  function Migrated(t: Table): Table {
    map r | r in t && !HasOutliver(t, r) :: t[r]
  }

  lemma {:induction false} PrecedesIsStrict(a: string)
    ensures !Precedes(a, a)
  {
    if a != [] {
      PrecedesIsStrict(a[1..]);
    }
  }

  lemma {:induction false} PrecedesIsTransitive(a: string, b: string, c: string)
    requires Precedes(a, b) && Precedes(b, c)
    ensures Precedes(a, c)
  {
    if a != [] && a[0] == b[0] && b[0] == c[0] {
      PrecedesIsTransitive(a[1..], b[1..], c[1..]);
    }
  }

  lemma {:induction false} PrecedesIsTotal(a: string, b: string)
    requires a != b
    ensures Precedes(a, b) || Precedes(b, a)
  {
    if a != [] && b != [] && a[0] == b[0] {
      assert a == [a[0]] + a[1..] && b == [b[0]] + b[1..];
      PrecedesIsTotal(a[1..], b[1..]);
    }
  }

  /** Of two ids one precedes the other if it ends before, or has the smaller character at, the first difference. */
  lemma {:induction false} PrecedesIsLexicographic(a: string, b: string)
    ensures Precedes(a, b) <==> exists n :: SmallerAt(a, b, n)
  {
    if b == [] {
    } else if a == [] || a[0] < b[0] {
      assert SmallerAt(a, b, 0);
    } else if a[0] == b[0] {
      PrecedesIsLexicographic(a[1..], b[1..]);
      assert a == [a[0]] + a[1..] && b == [b[0]] + b[1..];
      if n: nat :| SmallerAt(a[1..], b[1..], n) {
        assert a[..n + 1] == [a[0]] + a[1..][..n] && b[..n + 1] == [b[0]] + b[1..][..n];
        assert SmallerAt(a, b, n + 1);
      }
      if n: nat :| SmallerAt(a, b, n) {
        assert n > 0;
        assert a[..n][1..] == a[1..][..n - 1] && b[..n][1..] == b[1..][..n - 1];
        assert SmallerAt(a[1..], b[1..], n - 1);
      }
    } else {
      forall n: nat ensures !SmallerAt(a, b, n) {
        SameHead(a, b, n);
      }
    }
  }

  lemma SameHead(a: string, b: string, n: nat)
    requires 0 < |a| && 0 < |b|
    ensures 0 < n <= |a| && n <= |b| && a[..n] == b[..n] ==> a[0] == b[0]
  {
    if 0 < n <= |a| && n <= |b| {
      assert a[..n][0] == a[0] && b[..n][0] == b[0];
    }
  }

  predicate SmallerAt(a: string, b: string, n: nat) {
    n <= |a| && n < |b| && a[..n] == b[..n] && (n == |a| || a[n] < b[n])
  }

  lemma OutlivesIsTransitive(t: Table, a: RowId, b: RowId, c: RowId)
    requires a in t && b in t && c in t && Outlives(t, a, b) && Outlives(t, b, c)
    ensures Outlives(t, a, c)
  {
    if t[a].updated == t[b].updated && t[b].updated == t[c].updated {
      PrecedesIsTransitive(a, b, c);
    }
  }

  /** The row of its slot that is greatest by update time and id. */
  ghost predicate Greatest(t: Table, r: RowId) {
    r in t && forall a :: a in t && SameSlot(t, a, r) && a != r ==> Outlives(t, a, r)
  }

  lemma OutlivedIffNotGreatest(t: Table, r: RowId)
    requires r in t
    ensures HasOutliver(t, r) <==> !Greatest(t, r)
  {
    if Greatest(t, r) && HasOutliver(t, r) {
      var b :| b in t && Outlives(t, r, b);
      PrecedesIsStrict(r);
      assert b != r;
      OutlivesIsTransitive(t, r, b, r);
      assert false;
    }
    if !Greatest(t, r) {
      var a :| a in t && SameSlot(t, a, r) && a != r && !Outlives(t, a, r);
      PrecedesIsTotal(a, r);
      assert Outlives(t, r, a);
    }
  }

  lemma GreatestIsUnique(t: Table, a: RowId, b: RowId)
    requires Greatest(t, a) && Greatest(t, b) && SameSlot(t, a, b)
    ensures a == b
  {
    if a != b {
      PrecedesIsStrict(a);
      OutlivesIsTransitive(t, a, b, a);
    }
  }

  /** Following outlivers from any row ends at the greatest of its slot. */
  lemma {:induction false} GreatestExists(t: Table, r: RowId, seen: set<RowId>) returns (g: RowId)
    requires r in t && seen <= t.Keys
    requires forall a :: a in seen ==> Outlives(t, a, r)
    ensures Greatest(t, g) && SameSlot(t, r, g)
    decreases |t.Keys - seen|
  {
    OutlivedIffNotGreatest(t, r);
    if HasOutliver(t, r) {
      var b :| b in t && Outlives(t, r, b);
      forall a | a in seen ensures Outlives(t, a, b) {
        OutlivesIsTransitive(t, a, r, b);
      }
      PrecedesIsStrict(r);
      assert r !in seen;
      assert t.Keys - (seen + {r}) < t.Keys - seen;
      g := GreatestExists(t, b, seen + {r});
    } else {
      g := r;
    }
  }

  /** In terms of the columns: every other row of that user and provider was updated before, or at the same time under
      an id that comes first. */
  lemma GreatestMeans(t: Table, r: RowId)
    ensures Greatest(t, r) <==>
              r in t && forall a :: a in t && a != r && t[a].user == t[r].user && t[a].provider == t[r].provider ==>
                t[a].updated < t[r].updated || (t[a].updated == t[r].updated && Precedes(a, r))
  {
  }

  /** Of each slot's rows exactly the greatest stays, unchanged. */
  lemma ExactlyTheGreatestStays(t: Table, r: RowId)
    ensures r in Migrated(t) <==> Greatest(t, r)
    ensures r in Migrated(t) ==> Migrated(t)[r] == t[r]
    ensures r in t ==> exists g :: Greatest(t, g) && SameSlot(t, r, g)
  {
    if r in t {
      OutlivedIffNotGreatest(t, r);
      var g := GreatestExists(t, r, {});
    }
  }

  /** So the new unique index can be created, and every user keeps a token on every provider they had one on. */
  lemma MigrationMakesIndexHold(t: Table)
    requires OneRowPerToken(t)
    ensures Unique(Migrated(t))
    ensures forall x :: Occupied(t, x) <==> Occupied(Migrated(t), x)
  {
    var t' := Migrated(t);
    forall a, b | a in t' && b in t' && SameSlot(t', a, b) ensures a == b {
      ExactlyTheGreatestStays(t, a);
      ExactlyTheGreatestStays(t, b);
      GreatestIsUnique(t, a, b);
    }
    forall x | Occupied(t, x) ensures Occupied(t', x) {
      var r :| r in t && t[r].user == x.user && t[r].provider == x.provider;
      ExactlyTheGreatestStays(t, r);
      var g :| Greatest(t, g) && SameSlot(t, r, g);
      ExactlyTheGreatestStays(t, g);
    }
  }

  class Migration {
    var rows: Table

    constructor (rows: Table)
      ensures this.rows == rows
    {
      this.rows := rows;
    }

    /** Deletes joined rows one at a time, in any order, from the table as it then is. */
    method Up()
      modifies this
      ensures rows == Migrated(old(rows))
    {
      ghost var t := rows;
      var todo := rows.Keys;
      while todo != {}
        invariant Between(t, rows, todo)
        decreases |todo|
      {
        var a :| a in todo;
        if b :| b in rows && Outlives(rows, a, b) {
          JoinedRowGoes(t, rows, todo, a, b);
          rows := rows - {a};
        } else {
          UnjoinedRowStays(t, rows, todo, a);
        }
        todo := todo - {a};
      }
      assert rows.Keys == Migrated(t).Keys;
    }
  }

  /** What is gone was outlived, and what is done with and still there was not. */
  ghost predicate Between(t: Table, rows: Table, todo: set<RowId>) {
    && todo <= rows.Keys <= t.Keys
    && (forall r :: r in rows ==> rows[r] == t[r])
    && (forall r :: r in t && r !in rows ==> HasOutliver(t, r))
    && (forall r :: r in rows && r !in todo ==> !HasOutliver(t, r))
  }

  lemma JoinedRowGoes(t: Table, rows: Table, todo: set<RowId>, a: RowId, b: RowId)
    requires Between(t, rows, todo) && a in todo && b in rows && Outlives(rows, a, b)
    ensures Between(t, rows - {a}, todo - {a})
  {
    assert Outlives(t, a, b);
  }

  lemma UnjoinedRowStays(t: Table, rows: Table, todo: set<RowId>, a: RowId)
    requires Between(t, rows, todo) && a in todo && forall b :: b in rows ==> !Outlives(rows, a, b)
    ensures Between(t, rows, todo - {a})
  {
    StaysIfNotOutlived(t, rows, a);
  }

  /** A row outlived in the whole table is outlived by one that is never deleted. */
  lemma StaysIfNotOutlived(t: Table, rows: Table, a: RowId)
    requires a in rows && rows.Keys <= t.Keys && forall r :: r in rows ==> rows[r] == t[r]
    requires forall r :: r in t && r !in rows ==> HasOutliver(t, r)
    requires !HasOutliver(rows, a)
    ensures !HasOutliver(t, a)
  {
    if HasOutliver(t, a) {
      var g := GreatestExists(t, a, {});
      OutlivedIffNotGreatest(t, g);
      OutlivedIffNotGreatest(t, a);
      assert g in rows && a != g && Outlives(t, a, g);
      assert Outlives(rows, a, g);
      assert false;
    }
  }
}
