/** The tables of the `users` app: roles, permissions, the role-permission
    association, system users and the client records they may point to, with the
    database constraints the model declarations ask for (unique names, unique
    (role, permission) pairs, unique usernames, foreign keys) and the delete rules
    of their `on_delete` options. */
module UsersSchema {
  import opened Common

  type RoleId = nat        // UUID primary key of `roles`
  type PermissionId = nat  // UUID primary key of `permisos`
  type GrantId = nat       // primary key of a `roles_permisos` row
  type UserId = nat        // UUID primary key of `usuarios_sistema`
  type ClientId = nat      // UUID primary key of `clientes`

  // The values of Role.RoleType.
  const ADMINISTRADOR: string := "administrador"
  const CAJERO: string := "cajero"
  const EJECUTIVO_CUENTAS: string := "ejecutivo_cuentas"
  const AUDITOR: string := "auditor"
  const CLIENTE: string := "cliente"

  const ADMIN_ROLE_DESCRIPTION: string := "Administrador del sistema con acceso completo"

  datatype Role = Role(nombre: string, descripcion: string)

  datatype Permission = Permission(nombre: string, descripcion: string)

  /** One row of the association: `role` is granted `permission`. */
  datatype RolePermission = RolePermission(role: RoleId, permission: PermissionId)

  /** The client record of the `clients` app, opaque here. */
  datatype Client = Client(nombres: string, apellidos: string)

  datatype UserStatus = Activo | Inactivo | Bloqueado

  /** The stored columns of one system user (its key is the map key). */
  datatype UserRow = UserRow(
    username: string,
    password: Credential,
    role: RoleId,
    cliente: Option<ClientId>,
    fechaCreacion: Time,
    fechaUltimoAcceso: Option<Time>,
    estado: UserStatus,
    intentosFallidos: int,
    fechaUltimoCambioPassword: Option<Time>,
    isStaff: bool,
    isActive: bool,
    isSuperuser: bool)

  datatype DbError =
    | IntegrityError    // a unique or foreign-key constraint refused the write
    | ProtectedError    // on_delete=PROTECT refused the delete
    | RoleDoesNotExist  // `self.role` was read on a user whose role is not stored
    | ValueError        // create_user was called without a username

  datatype Tables = Tables(
    roles: map<RoleId, Role>,
    permissions: map<PermissionId, Permission>,
    grants: map<GrantId, RolePermission>,
    users: map<UserId, UserRow>,
    clients: map<ClientId, Client>)
  {
    /** `Role.nombre` is unique. */
    ghost predicate UniqueRoleNames() {
      forall a, b :: a in roles && b in roles && a != b ==> roles[a].nombre != roles[b].nombre
    }

    /** `Permission.nombre` is unique. */
    ghost predicate UniquePermissionNames() {
      forall a, b :: a in permissions && b in permissions && a != b ==> permissions[a].nombre != permissions[b].nombre
    }

    /** `unique_together = ('role', 'permission')`: no pair is granted twice. */
    ghost predicate UniqueGrants() {
      forall g, h :: g in grants && h in grants && g != h ==> grants[g] != grants[h]
    }

    /** `SystemUser.username` is unique. */
    ghost predicate UniqueUsernames() {
      forall u, v :: u in users && v in users && u != v ==> users[u].username != users[v].username
    }

    /** Every foreign key points at a stored row. */
    ghost predicate ForeignKeys() {
      && (forall g :: g in grants ==> grants[g].role in roles && grants[g].permission in permissions)
      && (forall u :: u in users ==> users[u].role in roles)
      && (forall u :: u in users && users[u].cliente.Some? ==> users[u].cliente.value in clients)
    }

    /** What the database's constraints guarantee of every state it holds. */
    ghost predicate Valid() {
      UniqueRoleNames() && UniquePermissionNames() && UniqueGrants() && UniqueUsernames() && ForeignKeys()
    }
  }

  /** Some association row grants `permission` to `role`. */
  predicate Granted(t: Tables, role: RoleId, permission: PermissionId) {
    exists g :: g in t.grants && t.grants[g] == RolePermission(role, permission)
  }

  /** `SystemUser.has_permission` for a user whose role is `role`: an association
      row joins that role to a permission called `name`. */
  predicate HasPermission(t: Tables, role: RoleId, name: string) {
    exists g :: g in t.grants && t.grants[g].role == role
      && t.grants[g].permission in t.permissions
      && t.permissions[t.grants[g].permission].nombre == name
  }

  /** `SystemUser.get_permissions` for a user whose role is `role`: the
      permissions some association row joins to that role. */
  function GetPermissions(t: Tables, role: RoleId): (ps: map<PermissionId, Permission>)
    ensures ps.Keys <= t.permissions.Keys
    ensures forall p :: p in ps ==> ps[p] == t.permissions[p] && Granted(t, role, p)
    ensures forall p :: p in t.permissions && Granted(t, role, p) ==> p in ps
  {
    map p | p in t.permissions && Granted(t, role, p) :: t.permissions[p]
  }

  /** The two queries agree: a user has a permission by name exactly when one of
      the permissions returned for its role carries that name. */
  lemma HasPermissionIffListed(t: Tables, role: RoleId, name: string)
    ensures HasPermission(t, role, name) <==>
            exists p :: p in GetPermissions(t, role) && GetPermissions(t, role)[p].nombre == name
  {
    var ps := GetPermissions(t, role);
    if HasPermission(t, role, name) {
      var g :| g in t.grants && t.grants[g].role == role
        && t.grants[g].permission in t.permissions
        && t.permissions[t.grants[g].permission].nombre == name;
      var p := t.grants[g].permission;
      assert t.grants[g] == RolePermission(role, p);
      assert p in ps && ps[p].nombre == name;
    }
    if exists p :: p in ps && ps[p].nombre == name {
      var p :| p in ps && ps[p].nombre == name;
      var g :| g in t.grants && t.grants[g] == RolePermission(role, p);
      assert t.grants[g].role == role && t.grants[g].permission == p;
    }
  }

  /** Inserting a `roles_permisos` row with key `g`: the unique_together
      constraint and the foreign keys refuse a duplicate pair or a dangling
      reference. */
  function AddRolePermission(t: Tables, g: GrantId, role: RoleId, permission: PermissionId): (r: Result<Tables, DbError>)
    ensures r.Ok? <==> g !in t.grants && role in t.roles && permission in t.permissions && !Granted(t, role, permission)
    ensures r.Err? ==> r.error == IntegrityError
    ensures r.Ok? ==> r.value == t.(grants := t.grants[g := RolePermission(role, permission)])
    ensures r.Ok? && t.Valid() ==> r.value.Valid()
  {
    if g in t.grants || role !in t.roles || permission !in t.permissions || Granted(t, role, permission) then
      Err(IntegrityError)
    else
      Ok(t.(grants := t.grants[g := RolePermission(role, permission)]))
  }

  /** Granting a pair that is already granted is refused and leaves every
      permission query as it was; after any grant attempt the pair is granted
      exactly once. */
  lemma {:induction false} GrantTwice(t: Tables, g1: GrantId, g2: GrantId, role: RoleId, permission: PermissionId)
    requires t.Valid()
    requires AddRolePermission(t, g1, role, permission).Ok?
    ensures var t1 := AddRolePermission(t, g1, role, permission).value;
            && AddRolePermission(t1, g2, role, permission).Err?
            && (forall g :: g in t1.grants && t1.grants[g] == RolePermission(role, permission) ==> g == g1)
            && (forall n :: HasPermission(t1, role, n) <==> HasPermission(t, role, n) || n == t.permissions[permission].nombre)
  {
    var t1 := AddRolePermission(t, g1, role, permission).value;
    assert t1.grants[g1] == RolePermission(role, permission);
    assert Granted(t1, role, permission);
    forall n ensures HasPermission(t1, role, n) <==> HasPermission(t, role, n) || n == t.permissions[permission].nombre {
      if n == t.permissions[permission].nombre {
        assert t1.grants[g1].role == role && t1.grants[g1].permission in t1.permissions;
      }
      if HasPermission(t1, role, n) {
        var g :| g in t1.grants && t1.grants[g].role == role
          && t1.grants[g].permission in t1.permissions
          && t1.permissions[t1.grants[g].permission].nombre == n;
        if g != g1 {
          assert g in t.grants && t.grants[g] == t1.grants[g];
        }
      }
      if HasPermission(t, role, n) {
        var g :| g in t.grants && t.grants[g].role == role
          && t.grants[g].permission in t.permissions
          && t.permissions[t.grants[g].permission].nombre == n;
        assert g != g1;
        assert g in t1.grants && t1.grants[g] == t.grants[g];
      }
    }
  }

  /** Some stored user still has `role`. */
  predicate RoleInUse(t: Tables, role: RoleId) {
    exists u :: u in t.users && t.users[u].role == role
  }

  /** Deleting a role: PROTECT on `SystemUser.role` refuses while a user has the
      role, and then nothing changes; otherwise CASCADE on `RolePermission.role`
      removes exactly the association rows of that role with it. */
  function DeleteRole(t: Tables, role: RoleId): (r: Result<Tables, DbError>)
    ensures r.Err? <==> RoleInUse(t, role)
    ensures r.Err? ==> r.error == ProtectedError
    ensures r.Ok? ==> && r.value.roles == t.roles - {role}
                      && (forall g :: g in r.value.grants <==> g in t.grants && t.grants[g].role != role)
                      && (forall g :: g in r.value.grants ==> r.value.grants[g] == t.grants[g])
                      && r.value.permissions == t.permissions
                      && r.value.users == t.users
                      && r.value.clients == t.clients
  {
    if RoleInUse(t, role) then Err(ProtectedError)
    else Ok(t.(roles := t.roles - {role},
               grants := map g | g in t.grants && t.grants[g].role != role :: t.grants[g]))
  }

  lemma DeleteRoleKeepsValid(t: Tables, role: RoleId)
    requires t.Valid()
    ensures DeleteRole(t, role).Ok? ==> DeleteRole(t, role).value.Valid()
  {
    if DeleteRole(t, role).Ok? {
      var t' := DeleteRole(t, role).value;
      forall u | u in t'.users ensures t'.users[u].role in t'.roles {
        assert t.users[u].role != role;
      }
    }
  }

  /** Deleting a permission: CASCADE on `RolePermission.permission` removes exactly
      the association rows that mention it; nothing can refuse the delete. */
  function DeletePermission(t: Tables, permission: PermissionId): (t': Tables)
    ensures t'.permissions == t.permissions - {permission}
    ensures forall g :: g in t'.grants <==> g in t.grants && t.grants[g].permission != permission
    ensures forall g :: g in t'.grants ==> t'.grants[g] == t.grants[g]
    ensures t'.roles == t.roles && t'.users == t.users && t'.clients == t.clients
    ensures t.Valid() ==> t'.Valid()
  {
    t.(permissions := t.permissions - {permission},
       grants := map g | g in t.grants && t.grants[g].permission != permission :: t.grants[g])
  }

  /** After a permission is deleted, no user has it any more by that name, and
      every other name is granted to the same roles as before. */
  lemma DeletePermissionRevokes(t: Tables, permission: PermissionId, role: RoleId, name: string)
    requires t.Valid() && permission in t.permissions
    ensures name == t.permissions[permission].nombre ==> !HasPermission(DeletePermission(t, permission), role, name)
    ensures name != t.permissions[permission].nombre ==>
              (HasPermission(DeletePermission(t, permission), role, name) <==> HasPermission(t, role, name))
  {
    var t' := DeletePermission(t, permission);
    if name == t.permissions[permission].nombre {
      forall g | g in t'.grants && t'.grants[g].permission in t'.permissions
        ensures t'.permissions[t'.grants[g].permission].nombre != name
      {
        assert t'.grants[g].permission != permission;
      }
    }
    if name != t.permissions[permission].nombre && HasPermission(t, role, name) {
      var g :| g in t.grants && t.grants[g].role == role
        && t.grants[g].permission in t.permissions
        && t.permissions[t.grants[g].permission].nombre == name;
      assert g in t'.grants;
    }
  }

  /** Deleting a client record: SET_NULL on `SystemUser.cliente` clears the link
      of the users that pointed at it; no user is deleted and no other column
      changes. */
  function DeleteClient(t: Tables, client: ClientId): (t': Tables)
    ensures t'.clients == t.clients - {client}
    ensures t'.users.Keys == t.users.Keys
    ensures forall u :: u in t.users ==>
              t'.users[u] == if t.users[u].cliente == Some(client) then t.users[u].(cliente := None) else t.users[u]
    ensures t'.roles == t.roles && t'.permissions == t.permissions && t'.grants == t.grants
    ensures t.Valid() ==> t'.Valid()
  {
    var users' := map u | u in t.users ::
      if t.users[u].cliente == Some(client) then t.users[u].(cliente := None) else t.users[u];
    t.(clients := t.clients - {client}, users := users')
  }

  /** No other stored user than `id` is called `username`. */
  predicate UsernameFree(t: Tables, id: UserId, username: string) {
    forall u :: u in t.users && u != id ==> t.users[u].username != username
  }

  /** Writing the row of user `id`, as an INSERT when `insert` (the key must then
      be new) and as an UPDATE otherwise: the unique username and the foreign keys
      to the role and the client record are checked by the database. */
  function Persist(t: Tables, id: UserId, row: UserRow, insert: bool): (r: Result<Tables, DbError>)
    ensures r.Ok? <==> (insert ==> id !in t.users) && UsernameFree(t, id, row.username) && row.role in t.roles
                       && (row.cliente.Some? ==> row.cliente.value in t.clients)
    ensures r.Err? ==> r.error == IntegrityError
    ensures r.Ok? ==> r.value.users == t.users[id := row]
                      && r.value.roles == t.roles && r.value.permissions == t.permissions
                      && r.value.grants == t.grants && r.value.clients == t.clients
    ensures r.Ok? && t.Valid() ==> r.value.Valid()
  {
    if (insert ==> id !in t.users) && UsernameFree(t, id, row.username) && row.role in t.roles
       && (row.cliente.Some? ==> row.cliente.value in t.clients)
    then Ok(t.(users := t.users[id := row]))
    else Err(IntegrityError)
  }

  /** Updating a stored user's row with its username, role and client link
      unchanged never violates a constraint. */
  lemma PersistStoredUser(t: Tables, id: UserId, row: UserRow)
    requires t.Valid() && id in t.users
    requires row.username == t.users[id].username && row.role == t.users[id].role
    requires row.cliente == t.users[id].cliente
    ensures Persist(t, id, row, false).Ok?
  {
  }

  /** The derived access flags of every stored user agree with its role: staff and
      superuser exactly when the role is the administrator role. */
  ghost predicate AccessFlagsDerived(t: Tables) {
    forall u :: u in t.users && t.users[u].role in t.roles ==>
      t.users[u].isStaff == t.users[u].isSuperuser == (t.roles[t.users[u].role].nombre == ADMINISTRADOR)
  }

  /** The delete rules never break the derived flags. */
  lemma DeletesKeepAccessFlags(t: Tables, role: RoleId, permission: PermissionId, client: ClientId)
    requires AccessFlagsDerived(t)
    ensures DeleteRole(t, role).Ok? ==> AccessFlagsDerived(DeleteRole(t, role).value)
    ensures AccessFlagsDerived(DeletePermission(t, permission))
    ensures AccessFlagsDerived(DeleteClient(t, client))
  {
  }
}
