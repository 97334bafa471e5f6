/** The tables of the `accounts` app (`CustomUser`, `UserProfile`), their
    declared constraints, and the single-row writes the ORM performs on them. */
module AccountsSchema {
  import opened Common
  import opened AccountsIdentity

  /** Auto-increment primary keys. */
  type UserPk = nat
  type ProfilePk = nat

  /** Ten decimal digits: what `generate_numero_cliente` draws. */
  predicate IsClientNumber(s: string) {
    |s| == 10 && AllDigits(s)
  }

  type ClientNumber = s: string | IsClientNumber(s) witness "0000000000"

  /** The columns of a `CustomUser` row that the model's rules read or write. */
  datatype AccountRow = AccountRow(
    username: string,
    email: string,
    password: Credential,
    firstName: string,
    lastName: string,
    role: string,
    telefono: string,
    isActive: bool,
    isStaff: bool,
    isSuperuser: bool,
    fechaRegistro: Time,
    ultimoAcceso: Option<Time>)

  /** The columns of a `UserProfile` row that the model's rules read or write. */
  datatype ProfileRow = ProfileRow(user: UserPk, numeroCliente: string, cedula: string)

  datatype AccountsError =
    | IntegrityError      // a unique or foreign-key constraint refused the write
    | UserDoesNotExist    // `profile.user` names no stored user
    | NoFreeNumberDrawn   // every supplied draw was already taken

  /** The two tables and the next value of each key sequence. */
  datatype AccountTables = AccountTables(
    users: map<UserPk, AccountRow>,
    profiles: map<ProfilePk, ProfileRow>,
    nextUser: UserPk,
    nextProfile: ProfilePk)
  {
    /** `username` (from AbstractUser) and `email` are unique. */
    ghost predicate UniqueLogins() {
      forall a, b :: a in users && b in users && a != b ==>
        users[a].username != users[b].username && users[a].email != users[b].email
    }

    /** `UserProfile.user` is a one-to-one link to a stored user. */
    ghost predicate ProfileLinks() {
      && (forall p :: p in profiles ==> profiles[p].user in users)
      && (forall a, b :: a in profiles && b in profiles && a != b ==> profiles[a].user != profiles[b].user)
    }

    /** `numero_cliente` and `cedula` are unique among the profiles that have one;
        a blank value is taken as NULL and so never collides (corrected: as
        declared a blank is stored as the empty string, see
        ProfileClashAsWritten). */
    ghost predicate UniqueProfileNumbers() {
      forall a, b :: a in profiles && b in profiles && a != b ==>
        && (profiles[a].numeroCliente != "" ==> profiles[a].numeroCliente != profiles[b].numeroCliente)
        && (profiles[a].cedula != "" ==> profiles[a].cedula != profiles[b].cedula)
    }

    /** The key sequences start at 1 and are ahead of every stored key. */
    ghost predicate SequencesAhead() {
      && 1 <= nextUser && 1 <= nextProfile
      && (forall k :: k in users ==> k < nextUser)
      && (forall k :: k in profiles ==> k < nextProfile)
    }

    ghost predicate Valid() {
      UniqueLogins() && ProfileLinks() && UniqueProfileNumbers() && SequencesAhead()
    }
  }

  function Max(a: nat, b: nat): nat {
    if a < b then b else a
  }

  /** Python's truth value of a primary key: `not self.pk` holds for None and 0. */
  predicate NoPk(pk: Option<nat>) {
    pk.None? || pk.value == 0
  }

  /** The profiles that belong to `user`. */
  ghost function ProfilesOf(t: AccountTables, user: UserPk): set<ProfilePk> {
    set p | p in t.profiles && t.profiles[p].user == user
  }

  // ----- CustomUser writes -----

  /** Another stored user already has this username or email. */
  predicate LoginTaken(t: AccountTables, key: UserPk, row: AccountRow) {
    exists k :: k in t.users && k != key && (t.users[k].username == row.username || t.users[k].email == row.email)
  }

  /** What `Model.save_base` did: the key written, and whether it inserted. */
  datatype UserWrite = UserWrite(tables: AccountTables, key: UserPk, created: bool)

  /** `Model.save_base` for a `CustomUser`: an UPDATE when the key is stored, an
      INSERT otherwise, at the given key or the next value of the sequence. The
      unique constraints refuse it when the username or email is another user's. */
  function WriteUser(t: AccountTables, pk: Option<UserPk>, row: AccountRow): (r: Result<UserWrite, AccountsError>)
    ensures var key := if pk.Some? then pk.value else t.nextUser;
            && (r.Ok? <==> !LoginTaken(t, key, row))
            && (r.Err? ==> r.error == IntegrityError)
            && (r.Ok? ==> && r.value.key == key
                          && r.value.created == (key !in t.users)
                          && r.value.tables.users == t.users[key := row]
                          && r.value.tables.profiles == t.profiles)
    ensures r.Ok? && t.Valid() ==> r.value.tables.Valid()
    ensures r.Ok? && r.value.created && t.Valid() ==> ProfilesOf(r.value.tables, r.value.key) == {}
  {
    var key := if pk.Some? then pk.value else t.nextUser;
    if LoginTaken(t, key, row) then Err(IntegrityError)
    else
      var t' := t.(users := t.users[key := row], nextUser := Max(t.nextUser, key + 1));
      assert t.Valid() ==> t'.UniqueLogins();
      Ok(UserWrite(t', key, key !in t.users))
  }

  // ----- UserProfile writes -----

  /** Some stored profile holds number `n`. */
  predicate NumberTaken(t: AccountTables, n: string) {
    exists p :: p in t.profiles && t.profiles[p].numeroCliente == n
  }

  /** Another profile already has this user, or a non-blank number or cedula that
      this row also has. Blank values are taken as NULL, which never collides
      (corrected: ProfileClashAsWritten is the test as declared). */
  predicate ProfileClash(t: AccountTables, key: ProfilePk, row: ProfileRow) {
    exists p :: p in t.profiles && p != key &&
      (|| t.profiles[p].user == row.user
       || (row.numeroCliente != "" && t.profiles[p].numeroCliente == row.numeroCliente)
       || (row.cedula != "" && t.profiles[p].cedula == row.cedula))
  }

  /** The clash test as the columns are declared: a blank CharField is stored as
      the empty string, and `unique=True` then compares blanks as well. */
  predicate ProfileClashAsWritten(t: AccountTables, key: ProfilePk, row: ProfileRow) {
    exists p :: p in t.profiles && p != key &&
      (|| t.profiles[p].user == row.user
       || t.profiles[p].numeroCliente == row.numeroCliente
       || t.profiles[p].cedula == row.cedula)
  }

  /** As declared, once one profile has a blank cedula (every profile the
      creation hook makes has one), no further profile with a blank cedula can be
      stored; with blanks stored as NULL it can. */
  lemma SecondBlankProfileRefused(t: AccountTables, key: ProfilePk, row: ProfileRow)
    requires exists p :: p in t.profiles && p != key && t.profiles[p].cedula == ""
    requires row.cedula == ""
    ensures ProfileClashAsWritten(t, key, row)
  {
  }

  /** The second user's profile, concretely: refused as declared, accepted with
      blanks exempt. */
  lemma SecondProfileExample()
    ensures var alice := AccountRow("alice", "a@x.com", Unusable, "", "", CLIENTE, "", true, false, false, 0, None);
            var bob := AccountRow("bob", "b@x.com", Unusable, "", "", EMPLEADO, "", true, false, false, 0, None);
            var t := AccountTables(map[1 := alice, 2 := bob], map[1 := ProfileRow(1, "0123456789", "")], 3, 2);
            && t.Valid()
            && ProfileClashAsWritten(t, 2, ProfileRow(2, "", ""))
            && !ProfileClash(t, 2, ProfileRow(2, "", ""))
  {
    var t := AccountTables(
      map[1 := AccountRow("alice", "a@x.com", Unusable, "", "", CLIENTE, "", true, false, false, 0, None),
          2 := AccountRow("bob", "b@x.com", Unusable, "", "", EMPLEADO, "", true, false, false, 0, None)],
      map[1 := ProfileRow(1, "0123456789", "")], 3, 2);
    assert t.profiles[1].cedula == "";
  }

  /** `Model.save_base` for a `UserProfile`: an UPDATE when the key is stored, an
      INSERT at the next value of the sequence otherwise. The one-to-one link, the
      unique numbers and the foreign key to the user refuse it. */
  function WriteProfile(t: AccountTables, pk: Option<ProfilePk>, row: ProfileRow): (r: Result<(AccountTables, ProfilePk), AccountsError>)
    ensures var key := if pk.Some? then pk.value else t.nextProfile;
            && (r.Ok? <==> row.user in t.users && !ProfileClash(t, key, row))
            && (r.Err? ==> r.error == IntegrityError)
            && (r.Ok? ==> && r.value.1 == key
                          && r.value.0.profiles == t.profiles[key := row]
                          && r.value.0.users == t.users
                          && r.value.0.nextUser == t.nextUser
                          && r.value.0.nextProfile == Max(t.nextProfile, key + 1))
    ensures r.Ok? && t.Valid() ==> r.value.0.Valid()
  {
    var key := if pk.Some? then pk.value else t.nextProfile;
    if row.user !in t.users || ProfileClash(t, key, row) then Err(IntegrityError)
    else Ok((t.(profiles := t.profiles[key := row], nextProfile := Max(t.nextProfile, key + 1)), key))
  }

  // ----- Client numbers -----

  /** The first of the drawn numbers that no profile holds yet. The draws stand
      for the successive results of `random.choices`. */
  function FirstFreeDraw(t: AccountTables, draws: seq<ClientNumber>): (r: Option<ClientNumber>)
    ensures r.None? <==> forall k :: 0 <= k < |draws| ==> NumberTaken(t, draws[k])
    ensures r.Some? ==> !NumberTaken(t, r.value)
    ensures r.Some? ==>
              exists k :: 0 <= k < |draws| && draws[k] == r.value && forall j :: 0 <= j < k ==> NumberTaken(t, draws[j])
  {
    if draws == [] then None
    else if !NumberTaken(t, draws[0]) then Some(draws[0])
    else
      var r := FirstFreeDraw(t, draws[1..]);
      assert r.Some? ==> exists k :: 1 <= k < |draws| && draws[k] == r.value && forall j :: 0 <= j < k ==> NumberTaken(t, draws[j]) by {
        if r.Some? {
          var k :| 0 <= k < |draws[1..]| && draws[1..][k] == r.value && forall j :: 0 <= j < k ==> NumberTaken(t, draws[1..][j]);
          assert draws[k + 1] == r.value;
          assert forall j :: 1 <= j < k + 1 ==> draws[j] == draws[1..][j - 1];
        }
      }
      assert r.None? ==> forall k :: 0 <= k < |draws| ==> NumberTaken(t, draws[k]) by {
        if r.None? {
          assert forall k :: 1 <= k < |draws| ==> draws[k] == draws[1..][k - 1];
        }
      }
      r
  }

  /** The number `UserProfile.save` stores: a number already set is kept; a blank
      one is replaced by a fresh drawn number only when the profile's user is a
      client, and a blank number first needs the user to exist. */
  function NumberToStore(t: AccountTables, numero: string, user: UserPk, draws: seq<ClientNumber>): (r: Result<string, AccountsError>)
    ensures numero != "" ==> r == Ok(numero)
    ensures r.Err? <==> numero == "" && (user !in t.users || (t.users[user].role == CLIENTE && FirstFreeDraw(t, draws).None?))
    ensures r.Err? ==> r.error == (if user !in t.users then UserDoesNotExist else NoFreeNumberDrawn)
    ensures r.Ok? && r.value != numero ==>
              && numero == "" && user in t.users && t.users[user].role == CLIENTE
              && IsClientNumber(r.value) && !NumberTaken(t, r.value)
    ensures r.Ok? && numero == "" && t.users[user].role != CLIENTE ==> r.value == ""
    ensures numero == "" && user in t.users && t.users[user].role == CLIENTE ==>
              r == (if FirstFreeDraw(t, draws).Some? then Ok(FirstFreeDraw(t, draws).value) else Err(NoFreeNumberDrawn))
  {
    if numero != "" then Ok(numero)
    else if user !in t.users then Err(UserDoesNotExist)
    else if t.users[user].role != CLIENTE then Ok(numero)
    else match FirstFreeDraw(t, draws)
      case None => Err(NoFreeNumberDrawn)
      case Some(n) => Ok(n)
  }
}
