/** Session versions: every login increments the user's version, tokens carry the version read from the
    row, and a token validates only while the row still has that version. The increment, the read, the
    signing and a whole-row save are separate steps that other requests may interleave with. */
module Sessions {
  import opened Common

  type HandlerId = string

  datatype Row = Row(activated: bool, activationToken: Option<string>, activationExpiry: Option<int>, banned: bool,
      version: nat)
  datatype Token = Token(sub: UserId, version: nat)

  type Rows = map<UserId, Row>

  /** The check of the JWT strategy. */
  predicate Validates(rows: Rows, t: Token) {
    t.sub in rows && rows[t.sub].activated && !rows[t.sub].banned && t.version == rows[t.sub].version
  }

  // ---------------------------------------------------------------------------
  // The service, one request at a time
  // ---------------------------------------------------------------------------

  datatype Confirmation = UnknownToken | AlreadyActivated | Expired | Confirmed(token: Token)

  class AuthService {
    var rows: Rows

    constructor (rows: Rows)
      ensures this.rows == rows
    {
      this.rows := rows;
    }

    method Validate(payload: Token) returns (ok: bool)
      ensures ok == Validates(rows, payload)
    {
      if payload.sub !in rows {
        return false;
      }
      var user := rows[payload.sub];
      if !user.activated || user.banned {
        return false;
      }
      return payload.version == user.version;
    }

    /** A login's token: every other token of the user, whatever its version, stops validating. */
    method IssueSingleSessionAccessToken(u: UserId) returns (token: Option<Token>)
      modifies this
      ensures token.Some? <==> u in old(rows)
      ensures token.None? ==> rows == old(rows)
      ensures token.Some? ==> token.value == Token(u, old(rows)[u].version + 1)
                              && rows == old(rows)[u := old(rows)[u].(version := old(rows)[u].version + 1)]
      ensures token.Some? && old(rows)[u].activated && !old(rows)[u].banned ==>
                forall t: Token :: t.sub == u ==> (Validates(rows, t) <==> t == token.value)
    {
      if u in rows {
        rows := rows[u := rows[u].(version := rows[u].version + 1)];
      }
      if u !in rows {
        return None;
      }
      var user := rows[u];
      return Some(Token(u, user.version));
    }

    /** Finds a row by its activation token, activates it, and signs a token with the version it had. */
    method ConfirmEmail(activationToken: string, now: int) returns (r: Confirmation)
      modifies this
      ensures r.UnknownToken? <==> forall u :: u in old(rows) ==> old(rows)[u].activationToken != Some(activationToken)
      ensures !r.Confirmed? ==> rows == old(rows)
      ensures r.Confirmed? ==>
                var u := r.token.sub;
                && u in old(rows) && old(rows)[u].activationToken == Some(activationToken) && !old(rows)[u].activated
                && (old(rows)[u].activationExpiry.Some? ==> now <= old(rows)[u].activationExpiry.value)
                && r.token == Token(u, old(rows)[u].version)
                && rows == old(rows)[u := Row(true, None, None, old(rows)[u].banned, old(rows)[u].version)]
      ensures r.AlreadyActivated? ==>
                exists u :: u in rows && rows[u].activationToken == Some(activationToken) && rows[u].activated
      ensures r.Expired? ==>
                exists u :: u in rows && rows[u].activationToken == Some(activationToken) && !rows[u].activated
                            && rows[u].activationExpiry.Some? && rows[u].activationExpiry.value < now
    {
      var matching := set u | u in rows && rows[u].activationToken == Some(activationToken);
      if matching == {} {
        forall u | u in rows ensures rows[u].activationToken != Some(activationToken)
        {
          assert u !in matching;
        }
        return UnknownToken;
      }
      var u :| u in matching;
      var user := rows[u];
      if user.activated {
        return AlreadyActivated;
      }
      if user.activationExpiry.Some? && user.activationExpiry.value < now {
        return Expired;
      }
      user := user.(activated := true, activationToken := None, activationExpiry := None);
      rows := rows[u := user];
      return Confirmed(Token(u, user.version));
    }
  }

  // ---------------------------------------------------------------------------
  // Interleaved steps
  // ---------------------------------------------------------------------------

  datatype Snapshot = Snapshot(sub: UserId, row: Row, readAt: nat)
  datatype Minted = Minted(token: Token, readAt: nat)

  /** `clock` counts steps; `seen`, `lastIncrement` and `minted` are history. */
  datatype State = State(
    rows: Rows,
    inFlight: map<HandlerId, Snapshot>,
    clock: nat,
    seen: set<UserId>,
    lastIncrement: map<UserId, nat>,
    minted: set<Minted>)

  datatype Step =
    | Register(u: UserId, row: Row)
    | Increment(u: UserId)
    | Read(h: HandlerId, u: UserId)
    | Sign(h: HandlerId)
    | SaveRow(h: HandlerId, changed: Row)
    | SetBanned(u: UserId, banned: bool)
    | Remove(u: UserId)

  /** User ids are fresh, only rows that exist can be read, and a save writes back the snapshot's
      version whatever else it changes. */
  predicate Possible(x: State, e: Step) {
    match e
    case Register(u, row) => u !in x.seen
    case Read(h, u) => u in x.rows
    case Sign(h) => h in x.inFlight
    case SaveRow(h, changed) => h in x.inFlight && changed.version == x.inFlight[h].row.version
    case _ => true
  }

  function After(x: State, e: Step): State
    requires Possible(x, e)
  {
    var y := x.(clock := x.clock + 1);
    match e
    case Register(u, row) => y.(rows := x.rows[u := row], seen := x.seen + {u})
    case Increment(u) =>
      if u !in x.rows then y
      else y.(rows := x.rows[u := x.rows[u].(version := x.rows[u].version + 1)],
          lastIncrement := x.lastIncrement[u := x.clock])
    case Read(h, u) => y.(inFlight := x.inFlight[h := Snapshot(u, x.rows[u], x.clock)])
    case Sign(h) =>
      var s := x.inFlight[h];
      y.(minted := x.minted + {Minted(Token(s.sub, s.row.version), s.readAt)})
    case SaveRow(h, changed) =>
      var s := x.inFlight[h];
      if s.sub in x.rows then y.(rows := x.rows[s.sub := changed]) else y
    case SetBanned(u, banned) => if u in x.rows then y.(rows := x.rows[u := x.rows[u].(banned := banned)]) else y
    case Remove(u) => y.(rows := x.rows - {u})
  }

  /** Some increment of u landed at or after time t. */
  predicate IncrementedSince(x: State, u: UserId, t: nat) {
    u in x.lastIncrement && x.lastIncrement[u] >= t
  }

  /** No save writes back a row that was read before an increment of the same user. */
  predicate Undisturbed(x: State, e: Step) {
    e.SaveRow? && e.h in x.inFlight ==> !IncrementedSince(x, x.inFlight[e.h].sub, x.inFlight[e.h].readAt)
  }

  ghost predicate CleanRun(x: State, es: seq<Step>)
    decreases |es|
  {
    es == [] || (Possible(x, es[0]) && Undisturbed(x, es[0]) && CleanRun(After(x, es[0]), es[1..]))
  }

  ghost function Run(x: State, es: seq<Step>): State
    requires CleanRun(x, es)
    decreases |es|
  {
    if es == [] then x else Run(After(x, es[0]), es[1..])
  }

  const START := State(map[], map[], 0, {}, map[], {})

  /** What a version read at time t says about the row now. */
  predicate Dated(x: State, u: UserId, version: nat, t: nat) {
    && u in x.seen && t < x.clock
    && (u in x.rows ==>
          if IncrementedSince(x, u, t) then version < x.rows[u].version else version == x.rows[u].version)
  }

  ghost predicate Inv(x: State) {
    && x.rows.Keys <= x.seen && x.lastIncrement.Keys <= x.seen
    && (forall u :: u in x.lastIncrement ==> x.lastIncrement[u] < x.clock)
    && (forall h :: h in x.inFlight ==> Dated(x, x.inFlight[h].sub, x.inFlight[h].row.version, x.inFlight[h].readAt))
    && (forall m :: m in x.minted ==> Dated(x, m.token.sub, m.token.version, m.readAt))
  }

  lemma DatedStays(x: State, e: Step, u: UserId, version: nat, t: nat)
    requires Inv(x) && Possible(x, e) && Undisturbed(x, e) && Dated(x, u, version, t)
    ensures Dated(After(x, e), u, version, t)
  {
    if e.SaveRow? {
      var s := x.inFlight[e.h];
      assert Dated(x, s.sub, s.row.version, s.readAt);
    }
  }

  lemma StepKeeps(x: State, e: Step)
    requires Inv(x) && Possible(x, e) && Undisturbed(x, e)
    ensures Inv(After(x, e))
  {
    var y := After(x, e);
    forall h | h in y.inFlight
      ensures Dated(y, y.inFlight[h].sub, y.inFlight[h].row.version, y.inFlight[h].readAt)
    {
      if h in x.inFlight && y.inFlight[h] == x.inFlight[h] {
        DatedStays(x, e, x.inFlight[h].sub, x.inFlight[h].row.version, x.inFlight[h].readAt);
      }
    }
    forall m | m in y.minted
      ensures Dated(y, m.token.sub, m.token.version, m.readAt)
    {
      if m in x.minted {
        DatedStays(x, e, m.token.sub, m.token.version, m.readAt);
      } else {
        var s := x.inFlight[e.h];
        DatedStays(x, e, s.sub, s.row.version, s.readAt);
      }
    }
  }

  lemma {:induction false} RunKeeps(x: State, es: seq<Step>)
    requires Inv(x) && CleanRun(x, es)
    ensures Inv(Run(x, es))
    decreases |es|
  {
    if es != [] {
      StepKeeps(x, es[0]);
      RunKeeps(After(x, es[0]), es[1..]);
    }
  }

  // ---------------------------------------------------------------------------
  // Guarantees
  // ---------------------------------------------------------------------------

  /** Once an increment has landed, no token signed from an earlier read validates, at that moment or
      at any later one. */
  lemma IncrementEndsEarlierTokens(es: seq<Step>, m: Minted)
    requires CleanRun(START, es) && m in Run(START, es).minted
    requires IncrementedSince(Run(START, es), m.token.sub, m.readAt)
    ensures !Validates(Run(START, es).rows, m.token)
  {
    RunKeeps(START, es);
  }

  /** Two tokens of one user that validate at the same moment were read with no increment between the
      reads, nor after them. */
  lemma ValidTogetherReadTogether(es: seq<Step>, m: Minted, n: Minted)
    requires CleanRun(START, es) && m in Run(START, es).minted && n in Run(START, es).minted
    requires m.token.sub == n.token.sub
    requires Validates(Run(START, es).rows, m.token) && Validates(Run(START, es).rows, n.token)
    ensures !IncrementedSince(Run(START, es), m.token.sub, m.readAt)
    ensures !IncrementedSince(Run(START, es), n.token.sub, n.readAt)
    ensures m.token == n.token
  {
    RunKeeps(START, es);
  }

  /** A token keeps validating until the next increment, as long as the account is in good standing. */
  lemma TokenLastsUntilIncrement(es: seq<Step>, m: Minted)
    requires CleanRun(START, es) && m in Run(START, es).minted
    ensures var x := Run(START, es);
            Validates(x.rows, m.token) <==>
              && m.token.sub in x.rows && x.rows[m.token.sub].activated && !x.rows[m.token.sub].banned
              && !IncrementedSince(x, m.token.sub, m.readAt)
  {
    RunKeeps(START, es);
  }

  /** A whole-row save leaves the version alone exactly when no increment landed since its row was read. */
  lemma SaveKeepsVersionIffUndisturbed(es: seq<Step>, h: HandlerId, changed: Row)
    requires CleanRun(START, es) && Possible(Run(START, es), SaveRow(h, changed))
    requires Run(START, es).inFlight[h].sub in Run(START, es).rows
    ensures var x := Run(START, es);
            var u := x.inFlight[h].sub;
            After(x, SaveRow(h, changed)).rows[u].version == x.rows[u].version <==> Undisturbed(x, SaveRow(h, changed))
  {
    RunKeeps(START, es);
    var x := Run(START, es);
    assert Dated(x, x.inFlight[h].sub, x.inFlight[h].row.version, x.inFlight[h].readAt);
  }

  /** A login, a profile update that has loaded the row, and a second login. */
  function TwoLogins(u: UserId, row: Row): seq<Step> {
    [Register(u, row), Increment(u), Read("login", u), Sign("login"), Read("profile", u), Increment(u)]
  }

  lemma CleanStep(x: State, e: Step, es: seq<Step>)
    requires Possible(x, e) && Undisturbed(x, e) && CleanRun(After(x, e), es)
    ensures CleanRun(x, [e] + es) && Run(x, [e] + es) == Run(After(x, e), es)
  {
    assert ([e] + es)[1..] == es;
  }

  lemma TwoLoginsRun(u: UserId, row: Row)
    requires row == Row(true, None, None, false, 0)
    ensures CleanRun(START, TwoLogins(u, row))
    ensures var x := Run(START, TwoLogins(u, row));
            && x.rows == map[u := row.(version := 2)]
            && x.minted == {Minted(Token(u, 1), 2)}
            && Get(x.inFlight, "profile") == Some(Snapshot(u, row.(version := 1), 4))
  {
    var x1 := After(START, Register(u, row));
    var x2 := After(x1, Increment(u));
    var x3 := After(x2, Read("login", u));
    var x4 := After(x3, Sign("login"));
    var x5 := After(x4, Read("profile", u));
    assert CleanRun(After(x5, Increment(u)), []);
    CleanStep(x5, Increment(u), []);
    CleanStep(x4, Read("profile", u), [Increment(u)] + []);
    CleanStep(x3, Sign("login"), [Read("profile", u)] + ([Increment(u)] + []));
    CleanStep(x2, Read("login", u), [Sign("login")] + ([Read("profile", u)] + ([Increment(u)] + [])));
    CleanStep(x1, Increment(u), [Read("login", u)] +
        ([Sign("login")] + ([Read("profile", u)] + ([Increment(u)] + []))));
    var tail := [Increment(u)] + ([Read("login", u)] +
        ([Sign("login")] + ([Read("profile", u)] + ([Increment(u)] + []))));
    CleanStep(START, Register(u, row), tail);
    assert TwoLogins(u, row) == [Register(u, row)] + tail;
  }

  /** Without that condition an ended session can come back. A login mints a token; a profile update loads the row;
      a second login ends the first session; the update then saves the row it loaded, and the first token is valid
      again. */
  lemma DisturbedSaveRevivesSession(u: UserId)
    ensures var row := Row(true, None, None, false, 0);
            var m, save := Minted(Token(u, 1), 2), SaveRow("profile", row.(version := 1));
            && CleanRun(START, TwoLogins(u, row))
            && var x := Run(START, TwoLogins(u, row));
               && m in x.minted && !Validates(x.rows, m.token)
               && Possible(x, save) && !Undisturbed(x, save) && Validates(After(x, save).rows, m.token)
  {
    var row := Row(true, None, None, false, 0);
    TwoLoginsRun(u, row);
    SaveKeepsVersionIffUndisturbed(TwoLogins(u, row), "profile", row.(version := 1));
  }
}
