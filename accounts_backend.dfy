/** `EmailBackend` of the `accounts` app: log in with an email or a username.
    It only reads the user table. */
module AccountsBackend {
  import opened Common
  import opened AccountsSchema

  /** `User.objects.get` found more than one row; the backend does not catch it. */
  datatype LookupError = MultipleObjectsReturned

  /** The users that `Q(email=login) | Q(username=login)` selects. */
  ghost function Candidates(t: AccountTables, login: string): (c: set<UserPk>)
    ensures forall k :: k in c <==> k in t.users && (t.users[k].email == login || t.users[k].username == login)
  {
    set k | k in t.users && (t.users[k].email == login || t.users[k].username == login)
  }

  /** `ModelBackend.user_can_authenticate`: only active users. */
  predicate UserCanAuthenticate(row: AccountRow) {
    row.isActive
  }

  /** `EmailBackend.authenticate`: look up the one user whose email or username
      is `login`; none gives None, several raise; the user is returned only when
      the password matches and the user is active. The tables are not changed. */
  ghost function Authenticate(t: AccountTables, login: string, password: string, verify: (string, string) -> bool)
    : (r: Result<Option<UserPk>, LookupError>)
    ensures r.Err? <==> |Candidates(t, login)| > 1
    ensures Candidates(t, login) == {} ==> r == Ok(None)
    ensures r.Ok? && r.value.Some? ==>
              var k := r.value.value;
              && Candidates(t, login) == {k}
              && CheckPassword(t.users[k].password, password, verify)
              && UserCanAuthenticate(t.users[k])
    ensures forall k :: (Candidates(t, login) == {k} && CheckPassword(t.users[k].password, password, verify)
                         && UserCanAuthenticate(t.users[k])) ==> r == Ok(Some(k))
  {
    var c := Candidates(t, login);
    if c == {} then Ok(None)
    else if |c| > 1 then Err(MultipleObjectsReturned)
    else
      var k :| k in c;
      assert c == {k} by {
        assert |c - {k}| == 0;
        assert c == (c - {k}) + {k};
      }
      var u := t.users[k];
      if CheckPassword(u.password, password, verify) && UserCanAuthenticate(u) then Ok(Some(k))
      else Ok(None)
  }

  /** One user's email equal to another user's username makes that string
      ambiguous: logging in with it raises instead of returning a user, whatever
      the password. */
  lemma EmailUsernameCollision(t: AccountTables, a: UserPk, b: UserPk, password: string, verify: (string, string) -> bool)
    requires a in t.users && b in t.users && a != b
    requires t.users[a].email == t.users[b].username
    ensures Authenticate(t, t.users[a].email, password, verify) == Err(MultipleObjectsReturned)
  {
    var c := Candidates(t, t.users[a].email);
    assert a in c && b in c;
    assert |c - {a}| == |c| - 1;
    assert b in c - {a};
  }

  /** `EmailBackend.get_user`: the user with that primary key, if any. */
  function GetUser(t: AccountTables, id: UserPk): (r: Option<AccountRow>)
    ensures r.Some? <==> id in t.users
    ensures r.Some? ==> r.value == t.users[id]
  {
    if id in t.users then Some(t.users[id]) else None
  }
}
