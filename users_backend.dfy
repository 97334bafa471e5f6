/** `SystemUserBackend`: username/password authentication with the lockout
    state machine as a side effect, and `get_user`. */
module UsersBackend {
  import opened Common
  import opened UsersSchema
  import opened SystemUsers

  /** `User.objects.select_related('role').get(username=...)`: the stored user with
      that username, unique because usernames are. */
  ghost function FindByUsername(t: Tables, username: string): (r: Option<UserId>)
    requires t.UniqueUsernames()
    ensures r.Some? ==> r.value in t.users && t.users[r.value].username == username
    ensures r.Some? ==> forall u :: u in t.users && t.users[u].username == username ==> u == r.value
    ensures r.None? <==> forall u :: u in t.users ==> t.users[u].username != username
  {
    if exists u :: u in t.users && t.users[u].username == username then
      var u :| u in t.users && t.users[u].username == username; Some(u)
    else None
  }

  /** What one attempt does to the row of a user that was found. */
  datatype Verdict = Verdict(row: UserRow, authenticated: bool)

  /** One attempt on a found user: a blocked user is refused and left untouched,
      even with the right password; otherwise the password decides between
      `reset_failed_attempts` (accepted) and `increment_failed_attempts`
      (refused), each followed by the save hook. Only `bloqueado` is refused:
      an `inactivo` user with the right password is accepted. */
  function Attempt(row: UserRow, passwordOk: bool, now: Time, roleNombre: string): (v: Verdict)
    ensures row.estado == Bloqueado ==> v == Verdict(row, false)
    ensures row.estado != Bloqueado ==> v.authenticated == passwordOk
    ensures row.estado != Bloqueado && passwordOk ==>
              v.row.intentosFallidos == 0 && v.row.fechaUltimoAcceso == Some(now) && v.row.estado == row.estado
    ensures row.estado != Bloqueado && !passwordOk ==>
              && v.row.intentosFallidos == row.intentosFallidos + 1
              && v.row.estado == (if row.intentosFallidos + 1 >= 3 then Bloqueado else row.estado)
              && v.row.fechaUltimoAcceso == row.fechaUltimoAcceso
    ensures row.estado != Bloqueado ==> v.row.isStaff == v.row.isSuperuser == (roleNombre == ADMINISTRADOR)
    ensures v.row.username == row.username && v.row.password == row.password && v.row.role == row.role
    ensures v.row.cliente == row.cliente && v.row.fechaCreacion == row.fechaCreacion
    ensures v.row.isActive == row.isActive && v.row.fechaUltimoCambioPassword == row.fechaUltimoCambioPassword
  {
    if row.estado == Bloqueado then Verdict(row, false)
    else if passwordOk then Verdict(SavedRow(FailedAttemptsReset(row, now), false, now, roleNombre), true)
    else Verdict(SavedRow(FailedAttemptRecorded(row), false, now, roleNombre), false)
  }

  /** The database after an authentication call and the user it returned. */
  datatype Authentication = Authentication(tables: Tables, user: Option<UserId>)

  /** `SystemUserBackend.authenticate` on the tables: an unknown username returns
      None and changes nothing; a known one runs Attempt on that user's row and
      nothing else changes. */
  ghost function AuthenticateSpec(t: Tables, username: string, password: string,
                                  verify: (string, string) -> bool, now: Time): (a: Authentication)
    requires t.Valid()
    ensures a.tables.Valid()
    ensures FindByUsername(t, username).None? ==> a == Authentication(t, None)
    ensures a.user.Some? ==> && a.user == FindByUsername(t, username)
                             && t.users[a.user.value].estado != Bloqueado
                             && CheckPassword(t.users[a.user.value].password, password, verify)
    ensures a.tables.users.Keys == t.users.Keys
    ensures forall u :: u in t.users && Some(u) != FindByUsername(t, username) ==> a.tables.users[u] == t.users[u]
    ensures a.tables.roles == t.roles && a.tables.permissions == t.permissions
    ensures a.tables.grants == t.grants && a.tables.clients == t.clients
  {
    match FindByUsername(t, username)
    case None => Authentication(t, None)
    case Some(u) =>
      var row := t.users[u];
      var v := Attempt(row, CheckPassword(row.password, password, verify), now, t.roles[row.role].nombre);
      PersistStoredUser(t, u, v.row);
      Authentication(t.(users := t.users[u := v.row]), if v.authenticated then Some(u) else None)
  }

  /** `SystemUserBackend.authenticate`: look the user up, refuse a blocked one,
      then reset or count the failure through the instance methods. */
  method Authenticate(db: Database, username: string, password: string,
                      verify: (string, string) -> bool, now: Time)
    returns (user: SystemUser?)
    requires db.tables.Valid()
    modifies db
    ensures var a := AuthenticateSpec(old(db.tables), username, password, verify, now);
            && db.tables == a.tables
            && (user == null <==> a.user.None?)
            && (user != null ==> user.id == a.user.value && user.Row() == db.tables.users[user.id])
  {
    ghost var t := db.tables;
    if u :| u in db.tables.users && db.tables.users[u].username == username {
      assert FindByUsername(t, username) == Some(u);
      var instance := new SystemUser.Load(u, db.tables.users[u]);
      if instance.estado == Bloqueado {
        return null;
      }
      PersistStoredUser(t, u, SavedRow(FailedAttemptsReset(t.users[u], now), false, now, t.roles[t.users[u].role].nombre));
      PersistStoredUser(t, u, SavedRow(FailedAttemptRecorded(t.users[u]), false, now, t.roles[t.users[u].role].nombre));
      if CheckPassword(instance.password, password, verify) {
        var err := instance.ResetFailedAttempts(db, now);
        assert err.None?;
        return instance;
      } else {
        var err := instance.IncrementFailedAttempts(db, now);
        assert err.None?;
        return null;
      }
    }
    return null;
  }

  /** `SystemUserBackend.get_user`: the user with that key, joined with its role,
      or None. In a valid database the join hides nobody. */
  function GetUser(t: Tables, id: UserId): (r: Option<UserRow>)
    ensures r.Some? ==> id in t.users && r.value == t.users[id]
    ensures t.Valid() ==> (r.Some? <==> id in t.users)
  {
    if id in t.users && t.users[id].role in t.roles then Some(t.users[id]) else None
  }

  /** The lockout invariant: at most three failures are ever counted, and three
      mean blocked. */
  ghost predicate LockoutInvariant(row: UserRow) {
    0 <= row.intentosFallidos <= 3 && (row.intentosFallidos >= 3 ==> row.estado == Bloqueado)
  }

  /** Every authentication call keeps the lockout invariant of every user. */
  lemma AuthenticateKeepsLockoutInvariant(t: Tables, username: string, password: string,
                                          verify: (string, string) -> bool, now: Time)
    requires t.Valid()
    requires forall u :: u in t.users ==> LockoutInvariant(t.users[u])
    ensures var a := AuthenticateSpec(t, username, password, verify, now);
            forall u :: u in a.tables.users ==> LockoutInvariant(a.tables.users[u])
  {
  }

  /** A sequence of attempts against one user, each with its password verdict and
      its time. */
  datatype LoginAttempt = LoginAttempt(passwordOk: bool, at: Time)

  /** The user's row after the attempts, in order. */
  function Run(row: UserRow, attempts: seq<LoginAttempt>, roleNombre: string): UserRow
    decreases |attempts|
  {
    if attempts == [] then row
    else Run(Attempt(row, attempts[0].passwordOk, attempts[0].at, roleNombre).row, attempts[1..], roleNombre)
  }

  /** The password verdicts of the attempts. */
  function Verdicts(attempts: seq<LoginAttempt>): (oks: seq<bool>)
    ensures |oks| == |attempts| && forall i :: 0 <= i < |attempts| ==> oks[i] == attempts[i].passwordOk
  {
    seq(|attempts|, i requires 0 <= i < |attempts| => attempts[i].passwordOk)
  }

  /** `n` earlier failures. */
  function Failures(n: nat): (s: seq<bool>)
    ensures |s| == n && forall i :: 0 <= i < n ==> !s[i]
  {
    seq(n, _ => false)
  }

  /** Three consecutive wrong passwords occur somewhere. */
  ghost predicate ThreeFailuresInARow(oks: seq<bool>) {
    exists i :: 0 <= i && i + 2 < |oks| && !oks[i] && !oks[i + 1] && !oks[i + 2]
  }

  /** The number of wrong passwords since the last right one. */
  function TrailingFailures(oks: seq<bool>): nat {
    if oks == [] || oks[|oks| - 1] then 0 else TrailingFailures(oks[..|oks| - 1]) + 1
  }

  /** A right password splits the history: a run of three failures lies wholly
      before or wholly after it. */
  lemma ThreeInARowAroundSuccess(p: seq<bool>, r: seq<bool>)
    ensures ThreeFailuresInARow(p + [true] + r) <==> ThreeFailuresInARow(p) || ThreeFailuresInARow(r)
  {
    var s := p + [true] + r;
    if ThreeFailuresInARow(s) {
      var i :| 0 <= i && i + 2 < |s| && !s[i] && !s[i + 1] && !s[i + 2];
      if i + 2 < |p| {
        assert !p[i] && !p[i + 1] && !p[i + 2];
      } else {
        assert i > |p|;
        var j := i - |p| - 1;
        assert !r[j] && !r[j + 1] && !r[j + 2];
      }
    }
    if ThreeFailuresInARow(p) {
      var i :| 0 <= i && i + 2 < |p| && !p[i] && !p[i + 1] && !p[i + 2];
      assert !s[i] && !s[i + 1] && !s[i + 2];
    }
    if ThreeFailuresInARow(r) {
      var j :| 0 <= j && j + 2 < |r| && !r[j] && !r[j + 1] && !r[j + 2];
      var i := j + |p| + 1;
      assert !s[i] && !s[i + 1] && !s[i + 2];
    }
  }

  /** Only the failures after the last right password are counted. */
  lemma {:induction false} TrailingAfterSuccess(p: seq<bool>, r: seq<bool>)
    ensures TrailingFailures(p + [true] + r) == TrailingFailures(r)
    decreases |r|
  {
    var s := p + [true] + r;
    if r != [] && !r[|r| - 1] {
      var r' := r[..|r| - 1];
      assert s[..|s| - 1] == p + [true] + r';
      TrailingAfterSuccess(p, r');
    }
  }

  /** `n` failures in a row are all counted. */
  lemma {:induction false} TrailingOfFailures(n: nat)
    ensures TrailingFailures(Failures(n)) == n
  {
    if n > 0 {
      assert Failures(n)[..n - 1] == Failures(n - 1);
      TrailingOfFailures(n - 1);
    }
  }

  /** A blocked user stays blocked and unchanged through any attempts. */
  lemma {:induction false} RunWhileBlocked(row: UserRow, attempts: seq<LoginAttempt>, roleNombre: string)
    requires row.estado == Bloqueado
    ensures Run(row, attempts, roleNombre) == row
    decreases |attempts|
  {
    if attempts != [] {
      RunWhileBlocked(row, attempts[1..], roleNombre);
    }
  }

  /** The lockout machine, for a user not yet blocked with `c < 3` failures on
      record: after any attempts the user is blocked exactly when the history
      (the `c` earlier failures, then the attempts) holds three wrong passwords in
      a row; a blocked user has exactly three failures on record, and a user not
      blocked keeps its status and has the failures since its last right
      password on record. */
  lemma {:induction false} RunCharacterised(row: UserRow, attempts: seq<LoginAttempt>, roleNombre: string)
    requires row.estado != Bloqueado && 0 <= row.intentosFallidos < 3
    ensures Characterised(row, attempts, roleNombre)
    decreases |attempts|, 1
  {
    var c := row.intentosFallidos;
    if attempts == [] {
      assert Failures(c) + Verdicts(attempts) == Failures(c);
      TrailingOfFailures(c);
    } else if attempts[0].passwordOk {
      RunAfterRightPassword(row, attempts, roleNombre);
    } else {
      RunAfterWrongPassword(row, attempts, roleNombre);
    }
  }

  /** The conclusion of RunCharacterised. */
  ghost predicate Characterised(row: UserRow, attempts: seq<LoginAttempt>, roleNombre: string)
    requires 0 <= row.intentosFallidos
  {
    var end := Run(row, attempts, roleNombre);
    var history := Failures(row.intentosFallidos) + Verdicts(attempts);
    && (end.estado == Bloqueado <==> ThreeFailuresInARow(history))
    && (end.estado == Bloqueado ==> end.intentosFallidos == 3)
    && (end.estado != Bloqueado ==> end.estado == row.estado && end.intentosFallidos == TrailingFailures(history))
  }

  lemma {:induction false} RunAfterRightPassword(row: UserRow, attempts: seq<LoginAttempt>, roleNombre: string)
    requires row.estado != Bloqueado && 0 <= row.intentosFallidos < 3
    requires attempts != [] && attempts[0].passwordOk
    ensures Characterised(row, attempts, roleNombre)
    decreases |attempts|, 0
  {
    var c := row.intentosFallidos;
    var rest := attempts[1..];
    var next := Attempt(row, true, attempts[0].at, roleNombre).row;
    assert Run(row, attempts, roleNombre) == Run(next, rest, roleNombre);
    RunCharacterised(next, rest, roleNombre);
    VerdictsSplit(attempts);
    HistoryAfterSuccess(Failures(c), Verdicts(rest));
  }

  /** The verdicts of a non-empty run of attempts: the first, then the rest. */
  lemma VerdictsSplit(attempts: seq<LoginAttempt>)
    requires attempts != []
    ensures Verdicts(attempts) == [attempts[0].passwordOk] + Verdicts(attempts[1..])
  {
  }

  /** Fewer than three earlier failures, then a right password: what counts is the
      history after it. */
  lemma HistoryAfterSuccess(p: seq<bool>, r: seq<bool>)
    requires |p| < 3
    ensures ThreeFailuresInARow(p + ([true] + r)) <==> ThreeFailuresInARow([] + r)
    ensures TrailingFailures(p + ([true] + r)) == TrailingFailures([] + r)
  {
    assert p + ([true] + r) == p + [true] + r;
    assert [] + r == r;
    ThreeInARowAroundSuccess(p, r);
    TrailingAfterSuccess(p, r);
  }

  lemma {:induction false} RunAfterWrongPassword(row: UserRow, attempts: seq<LoginAttempt>, roleNombre: string)
    requires row.estado != Bloqueado && 0 <= row.intentosFallidos < 3
    requires attempts != [] && !attempts[0].passwordOk
    ensures Characterised(row, attempts, roleNombre)
    decreases |attempts|, 0
  {
    var c := row.intentosFallidos;
    var rest := attempts[1..];
    var next := Attempt(row, false, attempts[0].at, roleNombre).row;
    assert Run(row, attempts, roleNombre) == Run(next, rest, roleNombre);
    var history := Failures(c) + Verdicts(attempts);
    assert history == Failures(c + 1) + Verdicts(rest);
    if c + 1 < 3 {
      RunCharacterised(next, rest, roleNombre);
    } else {
      RunWhileBlocked(next, rest, roleNombre);
      assert !history[0] && !history[1] && !history[2];
    }
  }

  /** From a user with no failures on record and not blocked: blocked after the
      attempts exactly when three wrong passwords came in a row. */
  lemma FreshUserBlockedIffThreeInARow(row: UserRow, attempts: seq<LoginAttempt>, roleNombre: string)
    requires row.estado != Bloqueado && row.intentosFallidos == 0
    ensures Run(row, attempts, roleNombre).estado == Bloqueado <==> ThreeFailuresInARow(Verdicts(attempts))
    ensures Run(row, attempts, roleNombre).estado != Bloqueado ==>
              Run(row, attempts, roleNombre).intentosFallidos == TrailingFailures(Verdicts(attempts))
  {
    RunCharacterised(row, attempts, roleNombre);
    assert Failures(0) + Verdicts(attempts) == Verdicts(attempts);
  }

  /** Authenticating a stored user by its username is one Attempt on its row. */
  lemma AuthenticateKnownUser(t: Tables, id: UserId, password: string,
                              verify: (string, string) -> bool, now: Time)
    requires t.Valid() && id in t.users
    ensures var v := Attempt(t.users[id], CheckPassword(t.users[id].password, password, verify), now,
                             t.roles[t.users[id].role].nombre);
            var a := AuthenticateSpec(t, t.users[id].username, password, verify, now);
            && a.tables.users[id] == v.row
            && (a.user.Some? <==> v.authenticated)
            && (a.user.Some? ==> a.user.value == id)
  {
    assert FindByUsername(t, t.users[id].username) == Some(id);
  }

  /** An active user with no failures on record gives the wrong password three
      times and ends blocked with three failures; a following call with the right
      password returns None and leaves the counter at three. */
  lemma {:induction false} LockoutScenario(t: Tables, id: UserId, hash: string, right: string, wrong: string,
                                           verify: (string, string) -> bool, t1: Time, t2: Time, t3: Time, t4: Time)
    requires t.Valid() && id in t.users && t.users[id].password == Encoded(hash)
    requires t.users[id].estado == Activo && t.users[id].intentosFallidos == 0
    requires verify(hash, right) && !verify(hash, wrong)
    ensures var username := t.users[id].username;
            var a1 := AuthenticateSpec(t, username, wrong, verify, t1);
            var a2 := AuthenticateSpec(a1.tables, username, wrong, verify, t2);
            var a3 := AuthenticateSpec(a2.tables, username, wrong, verify, t3);
            var a4 := AuthenticateSpec(a3.tables, username, right, verify, t4);
            && a1.user.None? && a2.user.None? && a3.user.None? && a4.user.None?
            && a3.tables.users[id].estado == Bloqueado && a3.tables.users[id].intentosFallidos == 3
            && a4.tables.users[id] == a3.tables.users[id]
  {
    var username := t.users[id].username;
    var a1 := AuthenticateSpec(t, username, wrong, verify, t1);
    AuthenticateKnownUser(t, id, wrong, verify, t1);
    var a2 := AuthenticateSpec(a1.tables, username, wrong, verify, t2);
    AuthenticateKnownUser(a1.tables, id, wrong, verify, t2);
    var a3 := AuthenticateSpec(a2.tables, username, wrong, verify, t3);
    AuthenticateKnownUser(a2.tables, id, wrong, verify, t3);
    AuthenticateKnownUser(a3.tables, id, right, verify, t4);
  }
}
