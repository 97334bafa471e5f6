/** The `CustomUser` and `UserProfile` model instances of the `accounts` app,
    their save hooks, client-number generation, and the post-save hook that gives
    every new user a profile. */
module AccountsModels {
  import opened Common
  import opened AccountsIdentity
  import opened AccountsSchema

  /** The database the ORM reads and writes. */
  class AccountsDb {
    var tables: AccountTables

    constructor (t: AccountTables)
      ensures tables == t
    {
      tables := t;
    }
  }

  /** The columns `CustomUser.save` leaves: the registration date is stamped on
      a first save, both elevated flags follow the role, and nothing else
      changes. */
  function SavedAccountRow(row: AccountRow, firstSave: bool, now: Time): (r: AccountRow)
    ensures r.isStaff == r.isSuperuser == (row.role == ADMIN)
    ensures r.fechaRegistro == if firstSave then now else row.fechaRegistro
    ensures r.(isStaff := row.isStaff, isSuperuser := row.isSuperuser, fechaRegistro := row.fechaRegistro) == row
  {
    var admin := row.role == ADMIN;
    row.(fechaRegistro := if firstSave then now else row.fechaRegistro, isStaff := admin, isSuperuser := admin)
  }

  /** Every stored user's elevated flags agree with its role. */
  ghost predicate AccessFlagsDerived(t: AccountTables) {
    forall k :: k in t.users ==> t.users[k].isStaff == t.users[k].isSuperuser == (t.users[k].role == ADMIN)
  }

  /** What the post-save hook leaves behind for a new `user`: one new profile row
      at the next profile key, with a blank cedula and the number `save` picks;
      or, when the user is a client and every draw is taken, nothing. */
  ghost predicate ProfileCreated(t: AccountTables, t': AccountTables, user: UserPk, draws: seq<ClientNumber>, err: Option<AccountsError>)
    requires user in t.users
  {
    match NumberToStore(t, "", user, draws)
    case Err(_) => err == Some(NoFreeNumberDrawn) && t' == t
    case Ok(n) =>
      && err.None?
      && t.nextProfile !in t.profiles
      && t'.users == t.users
      && t'.profiles == t.profiles[t.nextProfile := ProfileRow(user, n, "")]
      && t'.nextUser == t.nextUser && t'.nextProfile == t.nextProfile + 1
  }

  /** The hook gives the new user exactly one profile and leaves every other
      user's profiles alone. */
  lemma ProfileCreatedOnce(t: AccountTables, t': AccountTables, user: UserPk, draws: seq<ClientNumber>, err: Option<AccountsError>)
    requires user in t.users && ProfilesOf(t, user) == {}
    requires ProfileCreated(t, t', user, draws, err) && err.None?
    ensures ProfilesOf(t', user) == {t.nextProfile}
    ensures forall u :: u != user ==> ProfilesOf(t', u) == ProfilesOf(t, u)
  {
    forall p | p in t.profiles ensures t.profiles[p].user != user {
      assert p !in ProfilesOf(t, user);
    }
    assert ProfilesOf(t', user) == {t.nextProfile};
  }

  class UserProfile {
    var pk: Option<ProfilePk>
    var user: UserPk
    var numeroCliente: string
    var cedula: string

    function Row(): ProfileRow
      reads this
    {
      ProfileRow(user, numeroCliente, cedula)
    }

    /** `UserProfile(user=...)`: an unsaved profile with blank number and cedula. */
    constructor (user: UserPk)
      ensures pk.None? && this.user == user && numeroCliente == "" && cedula == ""
    {
      pk := None;
      this.user := user;
      numeroCliente := "";
      cedula := "";
    }

    /** `generate_numero_cliente`: a number already set is kept; otherwise the
        first drawn number that no stored profile holds. `found` is false when
        the draws run out, where the source would go on drawing. */
    method GenerateNumeroCliente(db: AccountsDb, draws: seq<ClientNumber>) returns (found: bool)
      modifies this
      ensures pk == old(pk) && user == old(user) && cedula == old(cedula)
      ensures old(numeroCliente) != "" ==> found && numeroCliente == old(numeroCliente)
      ensures old(numeroCliente) == "" ==> found == FirstFreeDraw(db.tables, draws).Some?
      ensures old(numeroCliente) == "" ==> numeroCliente == if found then FirstFreeDraw(db.tables, draws).value else ""
    {
      if numeroCliente != "" {
        return true;
      }
      var i := 0;
      while i < |draws|
        invariant 0 <= i <= |draws|
        invariant FirstFreeDraw(db.tables, draws) == FirstFreeDraw(db.tables, draws[i..])
        invariant pk == old(pk) && user == old(user) && cedula == old(cedula) && numeroCliente == ""
      {
        var n := draws[i];
        if !NumberTaken(db.tables, n) {
          numeroCliente := n;
          return true;
        }
        assert draws[i..][1..] == draws[i + 1..];
        i := i + 1;
      }
      return false;
    }

    /** `UserProfile.save`: a blank number is generated first when the user is a
        client, then the row is written. */
    method Save(db: AccountsDb, draws: seq<ClientNumber>) returns (err: Option<AccountsError>)
      requires db.tables.Valid()
      modifies this, db
      ensures db.tables.Valid()
      ensures user == old(user) && cedula == old(cedula)
      ensures var n := NumberToStore(old(db.tables), old(numeroCliente), user, draws);
              && (n.Err? ==> err == Some(n.error) && db.tables == old(db.tables) && Row() == old(Row()) && pk == old(pk))
              && (n.Ok? ==> numeroCliente == n.value)
              && (n.Ok? ==> var w := WriteProfile(old(db.tables), old(pk), Row());
                            && (w.Err? ==> err == Some(w.error) && db.tables == old(db.tables) && pk == old(pk))
                            && (w.Ok? ==> err.None? && db.tables == w.value.0 && pk == Some(w.value.1)))
    {
      if numeroCliente == "" {
        if user !in db.tables.users {
          return Some(UserDoesNotExist);
        }
        if db.tables.users[user].role == CLIENTE {
          var found := GenerateNumeroCliente(db, draws);
          if !found {
            return Some(NoFreeNumberDrawn);
          }
        }
      }
      match WriteProfile(db.tables, pk, Row())
      case Err(e) =>
        err := Some(e);
      case Ok((t, key)) =>
        db.tables := t;
        pk := Some(key);
        err := None;
    }
  }

  /** The `post_save` receiver `create_user_profile` for a user just inserted:
      `UserProfile.objects.create(user=instance)`. */
  method CreateUserProfile(db: AccountsDb, user: UserPk, draws: seq<ClientNumber>) returns (err: Option<AccountsError>)
    requires db.tables.Valid() && user in db.tables.users && ProfilesOf(db.tables, user) == {}
    modifies db
    ensures db.tables.Valid()
    ensures ProfileCreated(old(db.tables), db.tables, user, draws, err)
  {
    var t := db.tables;
    var profile := new UserProfile(user);
    err := profile.Save(db, draws);
    var n := NumberToStore(t, "", user, draws);
    if n.Ok? {
      var row := ProfileRow(user, n.value, "");
      assert !ProfileClash(t, t.nextProfile, row) by {
        forall p | p in t.profiles && p != t.nextProfile
          ensures t.profiles[p].user != user
          ensures n.value != "" ==> t.profiles[p].numeroCliente != n.value
        {
          assert p !in ProfilesOf(t, user);
        }
      }
    }
  }

  class CustomUser {
    var pk: Option<UserPk>
    var username: string
    var email: string
    var password: Credential
    var firstName: string
    var lastName: string
    var role: string
    var telefono: string
    var isActive: bool
    var isStaff: bool
    var isSuperuser: bool
    var fechaRegistro: Time
    var ultimoAcceso: Option<Time>

    function Row(): AccountRow
      reads this
    {
      AccountRow(username, email, password, firstName, lastName, role, telefono,
                 isActive, isStaff, isSuperuser, fechaRegistro, ultimoAcceso)
    }

    /** An unsaved user with the field defaults: active, no elevated flags,
        registered `now`, never logged in. */
    constructor (username: string, email: string, password: Credential, firstName: string, lastName: string,
                 role: string, telefono: string, now: Time)
      ensures pk.None?
      ensures Row() == AccountRow(username, email, password, firstName, lastName, role, telefono,
                                  true, false, false, now, None)
    {
      pk := None;
      this.username := username;
      this.email := email;
      this.password := password;
      this.firstName := firstName;
      this.lastName := lastName;
      this.role := role;
      this.telefono := telefono;
      isActive := true;
      isStaff := false;
      isSuperuser := false;
      fechaRegistro := now;
      ultimoAcceso := None;
    }

    /** `get_full_name`: both names around one space, with the surrounding
        whitespace stripped. */
    function GetFullName(): (r: string)
      reads this
      ensures Trimmed(r)
      ensures exists i :: SpaceAround(firstName + " " + lastName, r, i)
    {
      Strip(firstName + " " + lastName)
    }

    /** `get_role_display_badge`: the badge class of each role choice,
        `bg-secondary` for anything else. */
    function GetRoleDisplayBadge(): (b: string)
      reads this
      ensures role == ADMIN ==> b == "bg-danger"
      ensures role == EMPLEADO ==> b == "bg-primary"
      ensures role == CLIENTE ==> b == "bg-success"
      ensures b == "bg-secondary" <==> !IsRoleChoice(role)
    {
      var styles := map[ADMIN := "bg-danger", EMPLEADO := "bg-primary", CLIENTE := "bg-success"];
      if role in styles then styles[role] else "bg-secondary"
    }

    predicate IsAdmin()
      reads this
    {
      role == ADMIN
    }

    predicate IsCliente()
      reads this
    {
      role == CLIENTE
    }

    predicate IsEmpleado()
      reads this
    {
      role == EMPLEADO
    }

    /** The field updates `CustomUser.save` makes before writing the row. */
    method ApplySaveRules(now: Time)
      modifies this
      ensures pk == old(pk)
      ensures Row() == SavedAccountRow(old(Row()), NoPk(old(pk)), now)
    {
      if NoPk(pk) {
        fechaRegistro := now;
      }
      if role == ADMIN {
        isStaff := true;
        isSuperuser := true;
      } else {
        isStaff := false;
        isSuperuser := false;
      }
    }

    /** `CustomUser.save`: stamp the registration date when there is no primary
        key yet, derive both elevated flags from the role, write the row, and on
        an insert run the profile hook. */
    method Save(db: AccountsDb, now: Time, draws: seq<ClientNumber>) returns (err: Option<AccountsError>)
      requires db.tables.Valid()
      modifies this, db
      ensures db.tables.Valid()
      ensures AccessFlagsDerived(old(db.tables)) ==> AccessFlagsDerived(db.tables)
      ensures Row() == SavedAccountRow(old(Row()), NoPk(old(pk)), now)
      ensures var w := WriteUser(old(db.tables), old(pk), Row());
              && (w.Err? ==> err == Some(IntegrityError) && db.tables == old(db.tables) && pk == old(pk))
              && (w.Ok? ==> pk == Some(w.value.key) && db.tables.users == w.value.tables.users)
              && (w.Ok? && !w.value.created ==> err.None? && db.tables == w.value.tables)
              && (w.Ok? && w.value.created ==> ProfileCreated(w.value.tables, db.tables, w.value.key, draws, err))
    {
      ApplySaveRules(now);
      match WriteUser(db.tables, pk, Row())
      case Err(e) =>
        err := Some(e);
      case Ok(w) =>
        db.tables := w.tables;
        pk := Some(w.key);
        err := None;
        if w.created {
          err := CreateUserProfile(db, w.key, draws);
        }
    }
  }

  /** For a role among the choices, exactly one of the role predicates holds. */
  lemma ExactlyOneRole(u: CustomUser)
    requires IsRoleChoice(u.role)
    ensures (if u.IsAdmin() then 1 else 0) + (if u.IsCliente() then 1 else 0) + (if u.IsEmpleado() then 1 else 0) == 1
  {
  }

  /** The full name is empty when both names are blank, a lone name when the
      other is empty, and `first + " " + last` when both are non-empty and
      trimmed. */
  lemma FullNameCases(u: CustomUser)
    ensures AllSpace(u.firstName) && AllSpace(u.lastName) ==> u.GetFullName() == ""
    ensures u.firstName == "" && Trimmed(u.lastName) ==> u.GetFullName() == u.lastName
    ensures Trimmed(u.firstName) && u.lastName == "" ==> u.GetFullName() == u.firstName
    ensures u.firstName != "" && u.lastName != "" && Trimmed(u.firstName) && Trimmed(u.lastName) ==>
              u.GetFullName() == u.firstName + " " + u.lastName
  {
    JoinedNameCases(u.firstName, u.lastName);
  }

  /** Saving a new user and then saving it again: the first save stamps the
      registration date and creates exactly one profile; the second keeps the
      date and creates none. */
  method SaveTwice(db: AccountsDb, u: CustomUser, now1: Time, now2: Time, draws: seq<ClientNumber>)
    returns (err1: Option<AccountsError>, err2: Option<AccountsError>)
    requires db.tables.Valid() && u.pk.None?
    modifies db, u
    ensures u.fechaRegistro == now1
    ensures err1.None? ==> u.pk.Some? && |ProfilesOf(db.tables, u.pk.value)| == 1
    ensures err1.None? ==> ProfilesOf(db.tables, u.pk.value) == ProfilesOf(old(db.tables), u.pk.value) + {old(db.tables).nextProfile}
  {
    var t0 := db.tables;
    err1 := u.Save(db, now1, draws);
    if err1.Some? {
      return err1, None;
    }
    var key := u.pk.value;
    assert key == t0.nextUser && key !in t0.users;
    var t1 := db.tables;
    ProfileCreatedOnce(WriteUser(t0, None, u.Row()).value.tables, t1, key, draws, err1);
    err2 := u.Save(db, now2, draws);
    assert err2.None?;
  }
}
