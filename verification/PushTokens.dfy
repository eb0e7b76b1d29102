/** The push-token table. Its two unique indexes make it an injective map from user and provider to token. */
module PushTokens {
  import opened Common

  type RowId = string

  datatype Row = Row(user: UserId, provider: string, token: string, platform: string, device: string, active: bool,
      updated: int)

  type Table = map<RowId, Row>

  predicate OneRowPerToken(t: Table) {
    forall a, b :: a in t && b in t && t[a].provider == t[b].provider && t[a].token == t[b].token ==> a == b
  }

  predicate OneRowPerUser(t: Table) {
    forall a, b :: a in t && b in t && t[a].provider == t[b].provider && t[a].user == t[b].user ==> a == b
  }

  predicate Unique(t: Table) {
    OneRowPerToken(t) && OneRowPerUser(t)
  }

  // ---------------------------------------------------------------------------
  // Who owns which token
  // ---------------------------------------------------------------------------

  /** A user on a provider. */
  datatype Slot = Slot(user: UserId, provider: string)

  type Owners = map<Slot, string>

  ghost predicate Represents(t: Table, m: Owners) {
    && (forall r :: r in t ==> Slot(t[r].user, t[r].provider) in m && m[Slot(t[r].user, t[r].provider)] == t[r].token)
    && (forall x :: x in m ==> Occupied(t, x))
  }

  ghost predicate Occupied(t: Table, x: Slot) {
    exists r :: r in t && t[r].user == x.user && t[r].provider == x.provider
  }

  ghost predicate Injective(m: Owners) {
    forall x, y :: x in m && y in m && x.provider == y.provider && m[x] == m[y] ==> x == y
  }

  /** A token has at most one owner: drop whoever holds it. */
  function Dropped(m: Owners, provider: string, token: string): Owners {
    map x | x in m && !(x.provider == provider && m[x] == token) :: m[x]
  }

  lemma RepresentedIsInjective(t: Table, m: Owners)
    requires Unique(t) && Represents(t, m)
    ensures Injective(m)
  {
    forall x, y | x in m && y in m && x.provider == y.provider && m[x] == m[y] ensures x == y {
      assert Occupied(t, x) && Occupied(t, y);
    }
  }

  lemma RepresentedOnce(t: Table, m: Owners, m': Owners)
    requires Represents(t, m) && Represents(t, m')
    ensures m == m'
  {
    assert forall x :: x in m ==> Occupied(t, x) && x in m' && m[x] == m'[x];
    assert forall x :: x in m' ==> Occupied(t, x) && x in m;
  }

  lemma AddingARowAddsItsSlot(t: Table, r: RowId, rest: Owners)
    requires OneRowPerUser(t) && r in t && Represents(t - {r}, rest)
    ensures Represents(t, rest[Slot(t[r].user, t[r].provider) := t[r].token])
  {
    forall x | x in rest ensures Occupied(t, x) {
      assert Occupied(t - {r}, x);
      var q :| q in t - {r} && (t - {r})[q].user == x.user && (t - {r})[q].provider == x.provider;
      assert q in t;
    }
    var slot := Slot(t[r].user, t[r].provider);
    forall q | q in t ensures var x := Slot(t[q].user, t[q].provider);
        x in rest[slot := t[r].token] && rest[slot := t[r].token][x] == t[q].token {
      if q != r {
        assert q in t - {r} && (t - {r})[q] == t[q];
      }
    }
    assert Occupied(t, slot);
  }

  /** Every table that satisfies the indexes represents exactly one map, and that map is injective. */
  lemma {:induction false} TableIsInjectiveMap(t: Table) returns (m: Owners)
    requires Unique(t)
    ensures Represents(t, m) && Injective(m)
    decreases |t|
  {
    if r :| r in t {
      var rest := TableIsInjectiveMap(t - {r});
      AddingARowAddsItsSlot(t, r, rest);
      m := rest[Slot(t[r].user, t[r].provider) := t[r].token];
      RepresentedIsInjective(t, m);
    } else {
      m := map[];
    }
  }

  // ---------------------------------------------------------------------------
  // The statements of each operation
  // ---------------------------------------------------------------------------

  ghost function ByToken(t: Table, provider: string, token: string): (r: Option<RowId>)
    ensures r.Some? ==> r.value in t && t[r.value].provider == provider && t[r.value].token == token
    ensures r.None? ==> forall i :: i in t ==> !(t[i].provider == provider && t[i].token == token)
  {
    if i :| i in t && t[i].provider == provider && t[i].token == token then Some(i) else None
  }

  ghost function ByUser(t: Table, user: UserId, provider: string): (r: Option<RowId>)
    ensures r.Some? ==> r.value in t && t[r.value].user == user && t[r.value].provider == provider
    ensures r.None? ==> forall i :: i in t ==> !(t[i].user == user && t[i].provider == provider)
  {
    if i :| i in t && t[i].user == user && t[i].provider == provider then Some(i) else None
  }

  /** The table between the delete and the save. */
  ghost function Cleared(t: Table, row: Row): Table {
    var held, own := ByToken(t, row.provider, row.token), ByUser(t, row.user, row.provider);
    if held.Some? && own.Some? && own != held then t - {own.value} else t
  }

  /** The row that is saved: the one holding the token, else the user's own, else a new one. */
  ghost function Target(t: Table, row: Row, unused: RowId): RowId {
    var held, own := ByToken(t, row.provider, row.token), ByUser(t, row.user, row.provider);
    if held.Some? then held.value else if own.Some? then own.value else unused
  }

  ghost function Registered(t: Table, row: Row, unused: RowId): Table {
    Cleared(t, row)[Target(t, row, unused) := row]
  }

  ghost function Deactivated(t: Table, user: UserId, provider: string, token: string): Table {
    var held := ByToken(t, provider, token);
    if held.Some? && t[held.value].user == user then t - {held.value} else t
  }

  predicate Carries(row: Row, provider: string, token: string) {
    row.provider == provider && row.token == token
  }

  class PushTokenTable {
    var rows: Table

    constructor ()
      ensures rows == map[]
    {
      rows := map[];
    }

    /** The database refuses a row that breaks a unique index. */
    method Save(id: RowId, row: Row) returns (ok: bool)
      modifies this
      ensures ok <==> Unique(old(rows)[id := row])
      ensures rows == if ok then old(rows)[id := row] else old(rows)
    {
      var next := rows[id := row];
      ok := Unique(next);
      if ok {
        rows := next;
      }
    }

    method Delete(id: RowId)
      modifies this
      ensures rows == old(rows) - {id}
    {
      rows := rows - {id};
    }

    /** The save is never refused. */
    method RegisterToken(user: UserId, provider: string, token: string, platform: string, device: string, now: int,
        unused: RowId)
        returns (ok: bool)
      requires Unique(rows) && unused !in rows
      modifies this
      ensures ok
      ensures Unique(rows)
      ensures rows == Registered(old(rows), Row(user, provider, token, platform, device, true, now), unused)
    {
      ghost var row := Row(user, provider, token, platform, device, true, now);
      RegistrationKeepsIndexes(rows, row, unused);
      if held :| held in rows && Carries(rows[held], provider, token) {
        if own :| own in rows && rows[own].user == user && rows[own].provider == provider {
          if own != held {
            Delete(own);
          }
        }
        ok := Save(held, rows[held].(user := user, platform := platform, device := device, active := true,
            updated := now));
      } else if own :| own in rows && rows[own].user == user && rows[own].provider == provider {
        ok := Save(own, rows[own].(token := token, platform := platform, device := device, active := true,
            updated := now));
      } else {
        ok := Save(unused, Row(user, provider, token, platform, device, true, now));
      }
    }

    method DeactivateToken(user: UserId, provider: string, token: string)
      requires Unique(rows)
      modifies this
      ensures rows == Deactivated(old(rows), user, provider, token)
    {
      if held :| held in rows && Carries(rows[held], provider, token) && rows[held].user == user {
        Delete(held);
      }
    }
  }

  /** Both indexes hold after the delete and after the save. */
  lemma RegistrationKeepsIndexes(t: Table, row: Row, unused: RowId)
    requires Unique(t) && unused !in t
    ensures Unique(Cleared(t, row))
    ensures Unique(Registered(t, row, unused))
  {
  }

  // ---------------------------------------------------------------------------
  // What the operations mean for the owners
  // ---------------------------------------------------------------------------

  /** Besides the saved row, the rows of the token and of the slot are gone and all others are as they were. */
  lemma OtherRowsAfterRegistration(t: Table, row: Row, unused: RowId)
    requires Unique(t) && unused !in t
    ensures var t', target := Registered(t, row, unused), Target(t, row, unused);
            && target in t' && t'[target] == row
            && forall r :: r != target ==>
                 && (r in t' <==>
                     r in t && !(t[r].provider == row.provider && (t[r].token == row.token || t[r].user == row.user)))
                 && (r in t' ==> t'[r] == t[r])
    ensures var target := Target(t, row, unused);
            target in t ==>
                t[target].provider == row.provider && (t[target].token == row.token || t[target].user == row.user)
  {
  }

  /** Registering drops any holder of the token and then sets the user's token. */
  lemma RegistrationMovesTheToken(t: Table, m: Owners, row: Row, unused: RowId)
    requires Unique(t) && Represents(t, m) && unused !in t
    ensures Represents(Registered(t, row, unused),
        Dropped(m, row.provider, row.token)[Slot(row.user, row.provider) := row.token])
  {
    OtherRowsAfterRegistration(t, row, unused);
    ReplacedRowRepresents(t, m, row, Target(t, row, unused), Registered(t, row, unused));
  }

  lemma ReplacedRowRepresents(t: Table, m: Owners, row: Row, target: RowId, t': Table)
    requires Represents(t, m) && target in t' && t'[target] == row
    requires forall r :: r != target ==>
               && (r in t' <==>
                   r in t && !(t[r].provider == row.provider && (t[r].token == row.token || t[r].user == row.user)))
               && (r in t' ==> t'[r] == t[r])
    requires target in t ==>
        t[target].provider == row.provider && (t[target].token == row.token || t[target].user == row.user)
    ensures Represents(t', Dropped(m, row.provider, row.token)[Slot(row.user, row.provider) := row.token])
  {
    var m' := Dropped(m, row.provider, row.token)[Slot(row.user, row.provider) := row.token];
    forall x | x in m' ensures Occupied(t', x) {
      if x == Slot(row.user, row.provider) {
        assert t'[target] == row;
      } else {
        assert Occupied(t, x);
        var r :| r in t && t[r].user == x.user && t[r].provider == x.provider;
        assert r in t' && t'[r] == t[r];
      }
    }
  }

  /** A crash after the delete costs the user the previous token and nobody anything else. */
  lemma BetweenDeleteAndSave(t: Table, m: Owners, row: Row)
    requires Unique(t) && Represents(t, m) && Cleared(t, row) != t
    ensures Represents(Cleared(t, row), m - {Slot(row.user, row.provider)})
  {
    var own := ByUser(t, row.user, row.provider).value;
    var t', m' := Cleared(t, row), m - {Slot(row.user, row.provider)};
    forall x | x in m' ensures Occupied(t', x) {
      assert Occupied(t, x);
      var r :| r in t && t[r].user == x.user && t[r].provider == x.provider;
      assert r in t';
    }
  }

  lemma DeletionFreesTheSlot(t: Table, m: Owners, r: RowId)
    requires Unique(t) && Represents(t, m) && r in t
    ensures Represents(t - {r}, m - {Slot(t[r].user, t[r].provider)})
    ensures m - {Slot(t[r].user, t[r].provider)} == Dropped(m, t[r].provider, t[r].token)
  {
    var t', x0 := t - {r}, Slot(t[r].user, t[r].provider);
    forall x | x in m - {x0} ensures Occupied(t', x) {
      assert Occupied(t, x);
      var q :| q in t && t[q].user == x.user && t[q].provider == x.provider;
      assert q in t';
    }
    RepresentedIsInjective(t, m);
  }

  /** Deactivation drops the token when it is the caller's, and otherwise does nothing. */
  lemma DeactivationDropsOwnToken(t: Table, m: Owners, user: UserId, provider: string, token: string)
    requires Unique(t) && Represents(t, m)
    ensures Unique(Deactivated(t, user, provider, token))
    ensures Represents(Deactivated(t, user, provider, token),
                       if Get(m, Slot(user, provider)) == Some(token) then m - {Slot(user, provider)} else m)
  {
    var held := ByToken(t, provider, token);
    if Slot(user, provider) in m {
      assert Occupied(t, Slot(user, provider));
    }
    if held.Some? && t[held.value].user == user {
      DeletionFreesTheSlot(t, m, held.value);
    }
  }

  // ---------------------------------------------------------------------------
  // Whole runs
  // ---------------------------------------------------------------------------

  datatype Event =
    | Register(row: Row, unused: RowId)
    | Deactivate(user: UserId, provider: string, token: string)
    | RemoveUser(user: UserId)
    | Invalidate(id: RowId)

  ghost function After(t: Table, e: Event): Table {
    match e
    case Register(row, unused) => Registered(t, row, unused)
    case Deactivate(user, provider, token) => Deactivated(t, user, provider, token)
    case RemoveUser(user) => map r | r in t && t[r].user != user :: t[r]
    case Invalidate(id) => t - {id}
  }

  /** The same on the map of owners. A send that fails as invalid costs whoever has the row by then the token on it. */
  function OwnersAfter(t: Table, m: Owners, e: Event): Owners {
    match e
    case Register(row, unused) => Dropped(m, row.provider, row.token)[Slot(row.user, row.provider) := row.token]
    case Deactivate(user, provider, token) =>
      if Get(m, Slot(user, provider)) == Some(token) then m - {Slot(user, provider)} else m
    case RemoveUser(user) => map x | x in m && x.user != user :: m[x]
    case Invalidate(id) => if id in t then m - {Slot(t[id].user, t[id].provider)} else m
  }

  ghost predicate PossibleRun(t: Table, es: seq<Event>)
    decreases |es|
  {
    es == [] || ((es[0].Register? ==> es[0].unused !in t) && PossibleRun(After(t, es[0]), es[1..]))
  }

  ghost function Run(t: Table, es: seq<Event>): Table
    decreases |es|
  {
    if es == [] then t else Run(After(t, es[0]), es[1..])
  }

  ghost function OwnersRun(t: Table, m: Owners, es: seq<Event>): Owners
    decreases |es|
  {
    if es == [] then m else OwnersRun(After(t, es[0]), OwnersAfter(t, m, es[0]), es[1..])
  }

  lemma RemovalRefines(t: Table, m: Owners, user: UserId)
    requires Unique(t) && Represents(t, m)
    ensures Unique(After(t, RemoveUser(user))) &&
        Represents(After(t, RemoveUser(user)), OwnersAfter(t, m, RemoveUser(user)))
  {
    var t', m' := After(t, RemoveUser(user)), OwnersAfter(t, m, RemoveUser(user));
    forall x | x in m' ensures Occupied(t', x) {
      assert Occupied(t, x);
      var r :| r in t && t[r].user == x.user && t[r].provider == x.provider;
      assert r in t';
    }
  }

  lemma InvalidationRefines(t: Table, m: Owners, id: RowId)
    requires Unique(t) && Represents(t, m)
    ensures Unique(After(t, Invalidate(id))) && Represents(After(t, Invalidate(id)), OwnersAfter(t, m, Invalidate(id)))
  {
    if id in t {
      DeletionFreesTheSlot(t, m, id);
    } else {
      assert t - {id} == t;
    }
  }

  /** The table refines the map: step for step it represents what the owners machine computes, both indexes hold
      throughout, and no token ever has two owners on a provider. */
  lemma {:induction false} TableRefinesOwners(t: Table, m: Owners, es: seq<Event>)
    requires Unique(t) && Represents(t, m) && PossibleRun(t, es)
    ensures Unique(Run(t, es)) && Represents(Run(t, es), OwnersRun(t, m, es)) && Injective(OwnersRun(t, m, es))
    decreases |es|
  {
    if es == [] {
      RepresentedIsInjective(t, m);
    } else {
      match es[0] {
        case Register(row, unused) =>
          RegistrationKeepsIndexes(t, row, unused);
          RegistrationMovesTheToken(t, m, row, unused);
        case Deactivate(user, provider, token) => DeactivationDropsOwnToken(t, m, user, provider, token);
        case RemoveUser(user) => RemovalRefines(t, m, user);
        case Invalidate(id) => InvalidationRefines(t, m, id);
      }
      TableRefinesOwners(After(t, es[0]), OwnersAfter(t, m, es[0]), es[1..]);
    }
  }

  // ---------------------------------------------------------------------------
  // Deleting an invalid token
  // ---------------------------------------------------------------------------

  /** A push is sent from a row read earlier; when the provider calls the token invalid, the row of that id is
      deleted, whatever it holds by now. That drops exactly the failed token if and only if the row still carries
      it or, when the row is gone, nobody holds it. */
  lemma InvalidationDropsFailedTokenIff(t: Table, m: Owners, id: RowId, read: Row)
    requires Unique(t) && Represents(t, m)
    ensures Represents(t - {id}, Dropped(m, read.provider, read.token))
            <==> if id in t then t[id].provider == read.provider && t[id].token == read.token
                 else ByToken(t, read.provider, read.token).None?
  {
    var after := Dropped(m, read.provider, read.token);
    if id in t {
      DeletionFreesTheSlot(t, m, id);
      var x := Slot(t[id].user, t[id].provider);
      if Represents(t - {id}, after) {
        RepresentedOnce(t - {id}, after, m - {x});
        assert x in m && x !in after;
      }
    } else {
      assert t - {id} == t;
      var held := ByToken(t, read.provider, read.token);
      if held.Some? {
        assert Slot(t[held.value].user, t[held.value].provider) !in after;
      } else {
        forall x | x in m ensures m[x] != read.token || x.provider != read.provider {
          assert Occupied(t, x);
        }
        assert after == m;
      }
    }
  }

  /** The row was re-pointed to a new token while the push was in flight: the valid token is lost. */
  lemma RepointedTokenIsLost(id: RowId, row: Row, token: string, unused: RowId)
    requires token != row.token && unused != id
    ensures var t := map[id := row];
            var t' := Registered(t, row.(token := token), unused);
            && Unique(t) && Represents(t', map[Slot(row.user, row.provider) := token])
            && Represents(t' - {id}, map[])
  {
    var t := map[id := row];
    var t' := Registered(t, row.(token := token), unused);
    assert ByToken(t, row.provider, token).None?;
    assert t.Keys == {id} && t[id] == row;
    assert ByUser(t, row.user, row.provider).Some? && ByUser(t, row.user, row.provider).value in t.Keys;
    assert t' == map[id := row.(token := token)];
    assert t'[id].user == row.user && t'[id].provider == row.provider;
    assert Occupied(t', Slot(row.user, row.provider));
  }
}
