/** The `SystemUser` model instance of the `users` app, its save hook and
    lockout counters, and the manager that creates users and superusers. */
module SystemUsers {
  import opened Common
  import opened UsersSchema

  /** The database the ORM reads and writes. */
  class Database {
    var tables: Tables

    constructor (t: Tables)
      ensures tables == t
    {
      tables := t;
    }
  }

  /** Keyword arguments a caller may pass to `create_user`; `None` leaves the
      field default in place. */
  datatype ExtraFields = ExtraFields(
    role: Option<RoleId>,
    cliente: Option<ClientId>,
    estado: Option<UserStatus>,
    fechaCreacion: Option<Time>,
    intentosFallidos: Option<int>,
    isStaff: Option<bool>,
    isActive: Option<bool>,
    isSuperuser: Option<bool>)

  function OrElse<T>(o: Option<T>, default: T): T {
    if o.Some? then o.value else default
  }

  /** The columns of a freshly built instance: the supplied values, else the field
      defaults (status `activo`, no failures, creation date `now`, active, no
      elevated flags, no access or password-change date). */
  function NewRow(username: string, password: Credential, role: RoleId, extra: ExtraFields, now: Time): UserRow {
    UserRow(username, password, role, extra.cliente,
            OrElse(extra.fechaCreacion, now), None, OrElse(extra.estado, Activo),
            OrElse(extra.intentosFallidos, 0), None,
            OrElse(extra.isStaff, false), OrElse(extra.isActive, true), OrElse(extra.isSuperuser, false))
  }

  /** `increment_failed_attempts` on the columns: one more failure, and the third
      one blocks the user; nothing else changes. */
  function FailedAttemptRecorded(row: UserRow): (r: UserRow)
    ensures r.intentosFallidos == row.intentosFallidos + 1
    ensures r.estado == if r.intentosFallidos >= 3 then Bloqueado else row.estado
    ensures r.(intentosFallidos := row.intentosFallidos, estado := row.estado) == row
  {
    var n := row.intentosFallidos + 1;
    row.(intentosFallidos := n, estado := if n >= 3 then Bloqueado else row.estado)
  }

  /** `reset_failed_attempts` on the columns: no failures, last access `now`; the
      status is left alone, so a blocked user stays blocked. */
  function FailedAttemptsReset(row: UserRow, now: Time): (r: UserRow)
    ensures r.intentosFallidos == 0 && r.fechaUltimoAcceso == Some(now)
    ensures r.estado == row.estado
    ensures r.(intentosFallidos := row.intentosFallidos, fechaUltimoAcceso := row.fechaUltimoAcceso) == row
  {
    row.(intentosFallidos := 0, fechaUltimoAcceso := Some(now))
  }

  /** What `save` writes: the creation date is stamped on the first write only,
      and both access flags are re-derived from the role's name, whatever they
      held before. */
  function SavedRow(row: UserRow, adding: bool, now: Time, roleNombre: string): (r: UserRow)
    ensures r.isStaff == r.isSuperuser == (roleNombre == ADMINISTRADOR)
    ensures r.fechaCreacion == if adding then now else row.fechaCreacion
    ensures r.(isStaff := row.isStaff, isSuperuser := row.isSuperuser, fechaCreacion := row.fechaCreacion) == row
  {
    var admin := roleNombre == ADMINISTRADOR;
    row.(fechaCreacion := if adding then now else row.fechaCreacion, isStaff := admin, isSuperuser := admin)
  }

  /** The creation-date guard as written, `if not self.pk`. */
  function CreationDateAsWritten(pk: Option<UserId>, fechaCreacion: Time, now: Time): Time {
    if pk.None? then now else fechaCreacion
  }

  /** Every instance receives its primary key when it is built (the `uuid4`
      default), so the guard as written never fires: a user created with an
      explicit `fecha_creacion` keeps it on its first save, where the save hook
      means to stamp the time of that save. */
  lemma CreationDateNeverStamped(newId: UserId, username: string, password: Credential,
                                 role: RoleId, extra: ExtraFields, built: Time, now: Time)
    requires extra.fechaCreacion.Some? && extra.fechaCreacion.value != now
    ensures var row := NewRow(username, password, role, extra, built);
            && CreationDateAsWritten(Some(newId), row.fechaCreacion, now) == extra.fechaCreacion.value != now
            && SavedRow(row, true, now, "").fechaCreacion == now
  {
  }

  class SystemUser {
    var id: UserId
    /** Django's `_state.adding`: the instance has not been written yet. */
    var adding: bool
    var username: string
    var password: Credential
    var role: RoleId
    var cliente: Option<ClientId>
    var fechaCreacion: Time
    var fechaUltimoAcceso: Option<Time>
    var estado: UserStatus
    var intentosFallidos: int
    var fechaUltimoCambioPassword: Option<Time>
    var isStaff: bool
    var isActive: bool
    var isSuperuser: bool

    /** The columns this instance would store. */
    function Row(): UserRow
      reads this
    {
      UserRow(username, password, role, cliente, fechaCreacion, fechaUltimoAcceso, estado,
              intentosFallidos, fechaUltimoCambioPassword, isStaff, isActive, isSuperuser)
    }

    /** The ORM materialising stored user `id`. */
    constructor Load(id: UserId, row: UserRow)
      ensures this.id == id && !adding && Row() == row
    {
      this.id := id;
      adding := false;
      username, password, role, cliente := row.username, row.password, row.role, row.cliente;
      fechaCreacion, fechaUltimoAcceso, estado := row.fechaCreacion, row.fechaUltimoAcceso, row.estado;
      intentosFallidos, fechaUltimoCambioPassword := row.intentosFallidos, row.fechaUltimoCambioPassword;
      isStaff, isActive, isSuperuser := row.isStaff, row.isActive, row.isSuperuser;
    }

    /** `SystemUser(username=..., **extra_fields)` followed by `set_password`:
        `password` is what the external hasher stored. */
    constructor New(id: UserId, username: string, password: Credential, role: RoleId, extra: ExtraFields, now: Time)
      ensures this.id == id && adding && Row() == NewRow(username, password, role, extra, now)
    {
      this.id := id;
      adding := true;
      var row := NewRow(username, password, role, extra, now);
      this.username, this.password, this.role, cliente := row.username, row.password, row.role, row.cliente;
      fechaCreacion, fechaUltimoAcceso, estado := row.fechaCreacion, row.fechaUltimoAcceso, row.estado;
      intentosFallidos, fechaUltimoCambioPassword := row.intentosFallidos, row.fechaUltimoCambioPassword;
      isStaff, isActive, isSuperuser := row.isStaff, row.isActive, row.isSuperuser;
    }

    /** The outcome of `save` run on an instance whose columns were `before`:
        reading `self.role` fails when the role is not stored (after the creation
        date was stamped); otherwise the flags are derived and the row is written,
        or the database refuses it and keeps its state. */
    twostate predicate SavedFrom(db: Database, before: UserRow, wasAdding: bool, now: Time, new err: Option<DbError>)
      reads this, db
    {
      var t := old(db.tables);
      && id == old(id)
      && if before.role !in t.roles then
           && err == Some(RoleDoesNotExist)
           && Row() == before.(fechaCreacion := if wasAdding then now else before.fechaCreacion)
           && adding == wasAdding && db.tables == t
         else
           var saved := SavedRow(before, wasAdding, now, t.roles[before.role].nombre);
           var w := Persist(t, id, saved, wasAdding);
           && Row() == saved
           && if w.Ok? then err.None? && db.tables == w.value && !adding
              else err == Some(w.error) && db.tables == t && adding == wasAdding
    }

    /** `save`, with the creation date stamped while the instance is being added
        (the corrected guard; see CreationDateAsWritten). */
    method Save(db: Database, now: Time) returns (err: Option<DbError>)
      modifies this, db
      ensures SavedFrom(db, old(Row()), old(adding), now, err)
    {
      if adding {
        fechaCreacion := now;
      }
      if role !in db.tables.roles {
        return Some(RoleDoesNotExist);
      }
      var admin := db.tables.roles[role].nombre == ADMINISTRADOR;
      isStaff := admin;
      isSuperuser := admin;
      var w := Persist(db.tables, id, Row(), adding);
      if w.Err? {
        return Some(w.error);
      }
      db.tables := w.value;
      adding := false;
      err := None;
    }

    /** `increment_failed_attempts`: count one more failure, block at the third,
        then save. */
    method IncrementFailedAttempts(db: Database, now: Time) returns (err: Option<DbError>)
      modifies this, db
      ensures SavedFrom(db, FailedAttemptRecorded(old(Row())), old(adding), now, err)
    {
      intentosFallidos := intentosFallidos + 1;
      if intentosFallidos >= 3 {
        estado := Bloqueado;
      }
      err := Save(db, now);
    }

    /** `reset_failed_attempts`: clear the failures, record the access time, then
        save. */
    method ResetFailedAttempts(db: Database, now: Time) returns (err: Option<DbError>)
      modifies this, db
      ensures SavedFrom(db, FailedAttemptsReset(old(Row()), now), old(adding), now, err)
    {
      intentosFallidos := 0;
      fechaUltimoAcceso := Some(now);
      err := Save(db, now);
    }

    /** `is_admin` and its siblings read the name of the user's role. */
    predicate IsAdmin(t: Tables)
      reads this
      requires role in t.roles
    {
      t.roles[role].nombre == ADMINISTRADOR
    }

    predicate IsCliente(t: Tables)
      reads this
      requires role in t.roles
    {
      t.roles[role].nombre == CLIENTE
    }

    predicate IsCajero(t: Tables)
      reads this
      requires role in t.roles
    {
      t.roles[role].nombre == CAJERO
    }

    predicate IsEjecutivo(t: Tables)
      reads this
      requires role in t.roles
    {
      t.roles[role].nombre == EJECUTIVO_CUENTAS
    }

    predicate IsAuditor(t: Tables)
      reads this
      requires role in t.roles
    {
      t.roles[role].nombre == AUDITOR
    }
  }

  /** The role kinds of Role.RoleType. */
  predicate IsRoleType(nombre: string) {
    nombre in {ADMINISTRADOR, CAJERO, EJECUTIVO_CUENTAS, AUDITOR, CLIENTE}
  }

  /** A user whose role is one of the five kinds satisfies exactly one of the role
      predicates, and after a save it has the elevated flags exactly when that
      predicate is `is_admin`. */
  lemma ExactlyOneRoleKind(u: SystemUser, t: Tables)
    requires u.role in t.roles && IsRoleType(t.roles[u.role].nombre)
    ensures var kinds := [u.IsAdmin(t), u.IsCliente(t), u.IsCajero(t), u.IsEjecutivo(t), u.IsAuditor(t)];
            forall i, j :: 0 <= i < j < |kinds| ==> !(kinds[i] && kinds[j])
    ensures u.IsAdmin(t) || u.IsCliente(t) || u.IsCajero(t) || u.IsEjecutivo(t) || u.IsAuditor(t)
    ensures forall adding, now :: SavedRow(u.Row(), adding, now, t.roles[u.role].nombre).isStaff == u.IsAdmin(t)
  {
  }

  /** `SystemUserManager.create_user`: refuse an empty username, build the
      instance, store the hashed password and save it. */
  method CreateUser(db: Database, username: string, password: Credential, extra: ExtraFields, newId: UserId, now: Time)
    returns (r: Result<SystemUser, DbError>)
    modifies db
    ensures username == "" ==> r == Err(ValueError) && db.tables == old(db.tables)
    ensures username != "" && (extra.role.None? || extra.role.value !in old(db.tables.roles)) ==>
              r == Err(RoleDoesNotExist) && db.tables == old(db.tables)
    ensures username != "" && extra.role.Some? && extra.role.value in old(db.tables.roles) ==>
              var row := SavedRow(NewRow(username, password, extra.role.value, extra, now), true, now,
                                  old(db.tables.roles[extra.role.value].nombre));
              var w := Persist(old(db.tables), newId, row, true);
              if w.Ok? then r.Ok? && fresh(r.value) && r.value.id == newId && !r.value.adding
                            && r.value.Row() == row && db.tables == w.value
              else r == Err(w.error) && db.tables == old(db.tables)
  {
    if username == "" {
      return Err(ValueError);
    }
    if extra.role.None? {
      return Err(RoleDoesNotExist);
    }
    var user := new SystemUser.New(newId, username, password, extra.role.value, extra, now);
    var err := user.Save(db, now);
    if err.Some? {
      return Err(err.value);
    }
    r := Ok(user);
  }

  /** `Role.objects.get_or_create(nombre=..., defaults=...)`: the stored role of
      that name, or a new one with key `newId`, which the database refuses if the
      key is taken. */
  method GetOrCreateRole(db: Database, nombre: string, descripcion: string, newId: RoleId)
    returns (r: Result<RoleId, DbError>, created: bool)
    requires db.tables.Valid()
    modifies db
    ensures db.tables.Valid()
    ensures created <==> r.Ok? && db.tables != old(db.tables)
    ensures (exists k :: k in old(db.tables.roles) && old(db.tables.roles[k]).nombre == nombre) ==>
              r.Ok? && !created && db.tables == old(db.tables)
              && r.value in old(db.tables.roles) && old(db.tables.roles[r.value]).nombre == nombre
    ensures (forall k :: k in old(db.tables.roles) ==> old(db.tables.roles[k]).nombre != nombre) ==>
              if newId in old(db.tables.roles) then r == Err(IntegrityError) && db.tables == old(db.tables)
              else r == Ok(newId) && created
                   && db.tables == old(db.tables).(roles := old(db.tables.roles)[newId := Role(nombre, descripcion)])
  {
    created := false;
    if k :| k in db.tables.roles && db.tables.roles[k].nombre == nombre {
      return Ok(k), false;
    }
    if newId in db.tables.roles {
      return Err(IntegrityError), false;
    }
    var t := db.tables;
    db.tables := t.(roles := t.roles[newId := Role(nombre, descripcion)]);
    assert db.tables.roles != t.roles by { assert newId !in t.roles; }
    r, created := Ok(newId), true;
  }

  /** `Role.objects.get_or_create` of the administrator role: the tables with
      that role in them and its key. The stored role is reused; otherwise it is
      inserted at `newRoleId`, which the database refuses if the key is taken. */
  ghost function WithAdminRole(t: Tables, newRoleId: RoleId): (r: Result<(Tables, RoleId), DbError>)
    requires t.Valid()
    ensures r.Err? <==> (forall k :: k in t.roles ==> t.roles[k].nombre != ADMINISTRADOR) && newRoleId in t.roles
    ensures r.Err? ==> r.error == IntegrityError
    ensures r.Ok? ==> var (t1, a) := r.value;
                      && t1.Valid() && a in t1.roles && t1.roles[a].nombre == ADMINISTRADOR
                      && t1.(roles := t.roles) == t
                      && (a in t.roles ==> t1 == t)
                      && (a !in t.roles ==> a == newRoleId && t1.roles == t.roles[a := Role(ADMINISTRADOR, ADMIN_ROLE_DESCRIPTION)])
  {
    if exists k :: k in t.roles && t.roles[k].nombre == ADMINISTRADOR then
      var k :| k in t.roles && t.roles[k].nombre == ADMINISTRADOR;
      Ok((t, k))
    else if newRoleId in t.roles then Err(IntegrityError)
    else
      var t1 := t.(roles := t.roles[newRoleId := Role(ADMINISTRADOR, ADMIN_ROLE_DESCRIPTION)]);
      assert t1.UniqueRoleNames();
      Ok((t1, newRoleId))
  }

  /** The row `create_superuser` saves with administrator key `a`: the status
      defaults to `activo`, and the save stamps the date and sets both flags. */
  function SuperuserRow(username: string, password: Credential, a: RoleId, extra: ExtraFields, now: Time): (r: UserRow)
    ensures r.role == a && r.username == username && r.password == password
    ensures r.estado == OrElse(extra.estado, Activo)
    ensures r.isStaff && r.isSuperuser && r.fechaCreacion == now
  {
    SavedRow(NewRow(username, password, a, extra.(estado := Some(OrElse(extra.estado, Activo))), now), true, now, ADMINISTRADOR)
  }

  /** `SystemUserManager.create_superuser`: default the status to `activo`,
      make sure the administrator role exists, then `create_user` with it. The
      role is created even when `create_user` then fails. */
  method CreateSuperuser(db: Database, username: string, password: Credential, extra: ExtraFields,
                         newRoleId: RoleId, newId: UserId, now: Time)
    returns (r: Result<SystemUser, DbError>)
    requires db.tables.Valid()
    modifies db
    ensures db.tables.Valid()
    ensures |set k | k in db.tables.roles && db.tables.roles[k].nombre == ADMINISTRADOR| <= 1
    ensures db.tables.permissions == old(db.tables.permissions) && db.tables.grants == old(db.tables.grants)
    ensures db.tables.clients == old(db.tables.clients)
    ensures r.Err? ==> db.tables.users == old(db.tables.users)
    ensures r.Ok? ==> && fresh(r.value) && r.value.role in db.tables.roles
                      && db.tables.roles[r.value.role].nombre == ADMINISTRADOR
                      && r.value.estado == OrElse(extra.estado, Activo)
                      && r.value.isStaff && r.value.isSuperuser && r.value.fechaCreacion == now
                      && r.value.id in db.tables.users && db.tables.users[r.value.id] == r.value.Row()
    ensures var s := WithAdminRole(old(db.tables), newRoleId);
            if s.Err? then r == Err(s.error) && db.tables == old(db.tables)
            else
              var (t1, a) := s.value;
              if username == "" then r == Err(ValueError) && db.tables == t1
              else
                var row := SuperuserRow(username, password, a, extra, now);
                var w := Persist(t1, newId, row, true);
                if w.Ok? then r.Ok? && r.value.id == newId && r.value.Row() == row && db.tables == w.value
                else r == Err(w.error) && db.tables == t1
  {
    var extra' := extra.(estado := Some(OrElse(extra.estado, Activo)));
    ghost var s := WithAdminRole(db.tables, newRoleId);
    var adminRole, created := GetOrCreateRole(db, ADMINISTRADOR, ADMIN_ROLE_DESCRIPTION, newRoleId);
    AdminRoleUnique(db.tables);
    if adminRole.Err? {
      return Err(adminRole.error);
    }
    assert s.Ok? && s.value == (db.tables, adminRole.value) by {
      AdminRoleKey(old(db.tables), newRoleId, db.tables, adminRole.value);
    }
    ghost var t := db.tables;
    r := CreateUser(db, username, password, extra'.(role := Some(adminRole.value)), newId, now);
    assert db.tables.roles == t.roles;
  }

  /** The key `get_or_create` hands back for the administrator role is the one
      WithAdminRole names. */
  lemma AdminRoleKey(t: Tables, newRoleId: RoleId, t1: Tables, a: RoleId)
    requires t.Valid() && a in t1.roles && t1.roles[a].nombre == ADMINISTRADOR
    requires (exists k :: k in t.roles && t.roles[k].nombre == ADMINISTRADOR) ==> t1 == t
    requires (forall k :: k in t.roles ==> t.roles[k].nombre != ADMINISTRADOR) ==>
               a == newRoleId && newRoleId !in t.roles
               && t1 == t.(roles := t.roles[newRoleId := Role(ADMINISTRADOR, ADMIN_ROLE_DESCRIPTION)])
    ensures WithAdminRole(t, newRoleId) == Ok((t1, a))
  {
    var s := WithAdminRole(t, newRoleId);
    if exists k :: k in t.roles && t.roles[k].nombre == ADMINISTRADOR {
      assert s.Ok? && s.value.1 in t.roles && t.roles[s.value.1].nombre == ADMINISTRADOR;
      assert s.value.1 == a;
    }
  }

  /** In a valid database at most one role is called `administrador`. */
  lemma AdminRoleUnique(t: Tables)
    requires t.Valid()
    ensures |set k | k in t.roles && t.roles[k].nombre == ADMINISTRADOR| <= 1
  {
    var s := set k | k in t.roles && t.roles[k].nombre == ADMINISTRADOR;
    if s != {} {
      var a :| a in s;
      assert s == {a};
    }
  }
}
