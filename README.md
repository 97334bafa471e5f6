# Banco Familiar users and accounts, modelled in Dafny

This project models the user-management core of the Banco Familiar simulator, a
Django application with two user subsystems.

- **`users` app.** System users (`SystemUser`) log in by username through
  `SystemUserBackend`. Each login attempt runs a lockout state machine:
  - a blocked user (`bloqueado`) is refused;
  - a right password clears the failure counter and records the access time;
  - a wrong password adds one failure, and the third failure blocks the user.

  Roles and permissions form a flat association table (`RolePermission`). The
  `on_delete` rules give the deletes:
  - deleting a role still used by a user is refused (PROTECT);
  - a deleted role or permission takes its association rows with it (CASCADE);
  - a deleted client record only unlinks its users (SET_NULL).

  Saving a user re-derives `is_staff` and `is_superuser` from the role.
- **`accounts` app.** `CustomUser` logs in by email or username through
  `EmailBackend`, which never changes a row. Saving a `CustomUser` stamps the
  registration date on its first save and derives the two flags from its role.
  A `post_save` hook gives each new user a `UserProfile` (corrected; see
  Findings), and a client's profile receives a fresh ten-digit client number. The value helpers are:
  - the full name;
  - the role badge;
  - the role predicates;
  - the telephone validator.

Each file has one module:
- `common.dfy`: options, results, time, stored passwords.
- `users_schema.dfy`: the `users` tables, their constraints and the delete rules.
- `users_models.dfy`: the `SystemUser` class and its manager.
- `users_backend.dfy`: the lockout backend and the lemmas about runs of attempts.
- `accounts_identity.dfy`: `str.strip`, the role choices and the telephone regex.
- `accounts_schema.dfy`: the `accounts` tables and their writes.
- `accounts_models.dfy`: the `CustomUser` and `UserProfile` classes and the profile hook.
- `accounts_backend.dfy`: the email-or-username backend.

Models whose fields the source updates in place are classes. Their `save`
methods change the object and a `Database`/`AccountsDb` holder of the tables.
Those methods are proved against pure functions on rows and tables. The
`users` backend's `authenticate` is a method over those classes, proved
against a specification function; the `accounts` backend, the queries and
the deletes are functions.

Two external mechanisms become parameters:
- **Password hashing** is `verify(hash, raw)`. An unusable password never matches.
- **The clock** is the `now` argument.

Primary keys are natural numbers. A UUID key is supplied by the caller, and an
auto-increment key comes from a sequence counter kept in the tables.
`random.choices` is a sequence of candidate client numbers.

## Model

| member | source | states |
|---|---|---|
| Common.CheckPassword | users/backends.py:24 | a password matches only a usable stored credential, and then exactly when the hasher accepts it |
| UsersSchema.GetPermissions | users/models.py:209-215 | returns exactly the stored permissions joined to the role by some association row |
| UsersSchema.HasPermissionIffListed | users/models.py:200-215 | `has_permission(n)`, modelled by the predicate HasPermission, holds iff some permission returned by `get_permissions` is named `n` |
| UsersSchema.AddRolePermission | users/models.py:59-80 | inserting an association row succeeds iff the key is new, both foreign keys exist and the (role, permission) pair is not yet granted; on success only that row is added and the constraints still hold |
| UsersSchema.GrantTwice | users/models.py:80 | a second grant of the same pair is refused; the pair is held by exactly one row; after the grant the role has every permission name it had, plus the new one |
| UsersSchema.DeleteRole | users/models.py:149-154 | deleting a role fails with ProtectedError iff a user still has it (and changes nothing); otherwise exactly the role and its association rows go, and the other tables are unchanged |
| UsersSchema.DeleteRoleKeepsValid | users/models.py:63-68 | a permitted role delete (cascading to its association rows) leaves all constraints satisfied |
| UsersSchema.DeletePermission | users/models.py:69-74 | deleting a permission removes exactly it and the association rows naming it, and keeps all constraints |
| UsersSchema.DeletePermissionRevokes | users/models.py:69-74 | after a permission is deleted no role has it by name, and every other name is held by the same roles as before |
| UsersSchema.DeleteClient | users/models.py:130-137 | deleting a client record clears `cliente` on exactly the users that pointed at it; no user is deleted and nothing else changes |
| UsersSchema.Persist | users/models.py:140-154 | a user write succeeds iff its key is new (for an insert), its username is not another user's, and its role and client exist; on success only that row changes |
| UsersSchema.PersistStoredUser | users/models.py:217-232 | re-saving a stored user with the same username, role and client always succeeds |
| UsersSchema.DeletesKeepAccessFlags | users/models.py:259-265 | no delete rule breaks "staff and superuser exactly for administrators" |
| SystemUsers.FailedAttemptRecorded | users/models.py:217-224 | the counter rises by exactly one; the status becomes `bloqueado` iff the new count is at least 3 and is unchanged otherwise; nothing else changes |
| SystemUsers.FailedAttemptsReset | users/models.py:226-232 | the counter becomes 0 and the last access becomes now; the status is untouched, so a blocked user stays blocked |
| SystemUsers.SavedRow | users/models.py:254-267 | after a save `is_staff == is_superuser == (role name is administrador)` whatever the flags held; the creation date is stamped only on the first write |
| SystemUsers.CreationDateNeverStamped | users/models.py:256-257 | the `if not self.pk` guard never fires for a UUID-keyed instance, so a supplied creation date survives the first save |
| SystemUsers.SystemUser.Save | users/models.py:254-267 | the instance and the table end as SavedRow of the old columns; a missing role, or a write the constraints refuse, leaves the database unchanged |
| SystemUsers.SystemUser.IncrementFailedAttempts | users/models.py:217-224 | the saved instance and its row are FailedAttemptRecorded of the old columns, then the save rules |
| SystemUsers.SystemUser.ResetFailedAttempts | users/models.py:226-232 | the saved instance and its row are FailedAttemptsReset of the old columns, then the save rules |
| SystemUsers.ExactlyOneRoleKind | users/models.py:234-252 | for a role among the five kinds exactly one `is_*` predicate holds, and a saved user is staff exactly when `is_admin` holds |
| SystemUsers.CreateUser | users/models.py:91-98 | an empty username raises ValueError; a missing role fails; otherwise the saved user with defaulted fields is inserted with its creation date set to now (corrected; see Findings), or the constraint failure is returned with the tables unchanged |
| SystemUsers.GetOrCreateRole | users/models.py:104-107 | an existing role of that name is reused without change; otherwise exactly one role is inserted at the new key (or the taken key is refused) |
| SystemUsers.WithAdminRole | users/models.py:104-107 | `get_or_create` of the administrator role: the stored one is reused with the tables unchanged; otherwise it is inserted at the new key and only the roles change; it fails exactly when none exists and the key is taken |
| SystemUsers.CreateSuperuser | users/models.py:100-114 | the tables end as WithAdminRole leaves them, then an empty username raises ValueError, and otherwise the superuser row (status defaulted to `activo`, both flags, creation date now (corrected; see Findings)) is inserted with the administrator key or the constraint failure is returned; permissions, grants and clients never change, and users change only on success |
| SystemUsers.AdminRoleUnique | users/models.py:20-25 | the unique role name admits at most one `administrador` role |
| UsersBackend.FindByUsername | users/backends.py:15-17 | finds the one user with that username, or None when there is none |
| UsersBackend.Attempt | users/backends.py:19-31 | a blocked user is refused and unchanged even with the right password; otherwise the password decides the verdict, the counter resets (access stamped) or rises by one (blocking at 3), and the flags are re-derived; an `inactivo` user is not refused |
| UsersBackend.AuthenticateSpec | users/backends.py:12-31 | an unknown username returns None and changes nothing; a returned user was found, not blocked, and had the right password; only that user's row can change, and the constraints are kept |
| UsersBackend.Authenticate | users/backends.py:12-31 | the method leaves the tables and returns the user exactly as AuthenticateSpec says |
| UsersBackend.GetUser | users/backends.py:33-37 | returns the stored row for that key, or None; in a valid database the role join hides no user |
| UsersBackend.AuthenticateKeepsLockoutInvariant | users/backends.py:19-31 | every call keeps `0 <= counter <= 3` and `counter >= 3 ==> bloqueado` for every user |
| UsersBackend.RunWhileBlocked | users/backends.py:19-21 | a blocked user is left unchanged by any sequence of attempts |
| UsersBackend.RunCharacterised | users/backends.py:19-31 | after any attempts a user is blocked iff its history holds three wrong passwords in a row; a blocked user has exactly 3 failures; otherwise the status is unchanged and the counter is the number of failures since the last right password |
| UsersBackend.FreshUserBlockedIffThreeInARow | users/models.py:221-223 | from zero failures, a user ends blocked iff three wrong passwords came in a row |
| UsersBackend.AuthenticateKnownUser | users/backends.py:13-31 | authenticating a stored user by its username is one Attempt on its row |
| UsersBackend.LockoutScenario | users/backends.py:19-31 | three wrong passwords block an active user with counter 3; the right password afterwards returns None and leaves the row unchanged |
| AccountsIdentity.StripLeading | accounts/models.py:60 | drops exactly the leading whitespace: the result is a suffix preceded only by whitespace and does not start with whitespace |
| AccountsIdentity.StripTrailing | accounts/models.py:60 | drops exactly the trailing whitespace: the result is a prefix followed only by whitespace and does not end with whitespace |
| AccountsIdentity.Strip | accounts/models.py:60 | the result is a slice of the input with only whitespace around it and none at either end |
| AccountsIdentity.StripUnique | accounts/models.py:60 | that slice is unique: for whitespace `p`, `q` and trimmed `r`, `strip(p + r + q) == r` |
| AccountsIdentity.JoinedNameCases | accounts/models.py:58-60 | two names joined by a space and stripped give "" when both are blank, the lone name when the other is empty, and `first + " " + last` when both are non-empty and trimmed |
| AccountsIdentity.PhoneShape | accounts/models.py:27-30 | the pattern accepts exactly an optional `+`, then 9 to 15 digits or 16 digits starting with 1; so an accepted value is at most 17 characters |
| AccountsIdentity.TrailingNewlineAccepted | accounts/models.py:27-36 | as written, the 17-character `"+123456789012345\n"` passes the field's validation; the full-match validator refuses it |
| AccountsIdentity.TelefonoAcceptedCharacters | accounts/models.py:31-36 | an accepted telephone is blank or consists of digits with at most a leading `+` |
| AccountsSchema.WriteUser | accounts/models.py:96 | writing a user succeeds iff no other user has its username or email; it inserts when the key is not stored, and the constraints are kept; a new user has no profile yet |
| AccountsSchema.SecondBlankProfileRefused | accounts/models.py:118-123 | as declared, once a profile has a blank cedula no other profile with a blank cedula can be stored |
| AccountsSchema.SecondProfileExample | accounts/models.py:110-123 | concretely, the second user's auto-created profile is refused as declared and accepted with blanks exempt |
| AccountsSchema.WriteProfile | accounts/models.py:103-123 | writing a profile succeeds iff its user exists, no other profile has the same user, and no other profile shares a non-blank number or cedula; the constraints are kept (corrected; see Findings) |
| AccountsSchema.FirstFreeDraw | accounts/models.py:160-164 | returns a drawn number that no profile holds, preceded only by taken draws; None iff every draw is taken |
| AccountsSchema.NumberToStore | accounts/models.py:166-168 | a set number is kept; a new number replaces a blank one only when the user is a client, and it is then ten digits and held by no profile |
| AccountsModels.SavedAccountRow | accounts/models.py:83-94 | after a save `is_staff == is_superuser == (role == "admin")` whatever they held; the registration date is stamped only on a first save; nothing else changes |
| AccountsModels.ProfileCreatedOnce | accounts/models.py:177-181 | the hook leaves the new user with exactly one profile and every other user's profiles as they were |
| AccountsModels.UserProfile.GenerateNumeroCliente | accounts/models.py:155-164 | a set number is kept; otherwise the number becomes the first draw no profile holds, and stays blank iff none is free |
| AccountsModels.UserProfile.Save | accounts/models.py:166-169 | stores the number NumberToStore picks, then writes the row as WriteProfile says; on any error the tables are unchanged |
| AccountsModels.CreateUserProfile | accounts/models.py:177-181 | for a user without a profile, inserts one profile with a blank cedula and the number save picks; it fails only for a client whose draws are all taken (corrected; see Findings) |
| AccountsModels.CustomUser.GetFullName | accounts/models.py:58-60 | the full name has no surrounding whitespace and is a slice of `first + " " + last` with only whitespace around it |
| AccountsModels.CustomUser.GetRoleDisplayBadge | accounts/models.py:62-69 | admin gives bg-danger, empleado bg-primary, cliente bg-success; bg-secondary exactly for any other value |
| AccountsModels.CustomUser.ApplySaveRules | accounts/models.py:85-94 | the instance's columns become SavedAccountRow of the old ones, with the first-save test being "no primary key or key 0" |
| AccountsModels.CustomUser.Save | accounts/models.py:83-96 | the instance becomes SavedAccountRow of its old columns; the write follows WriteUser; an insert runs the profile hook and an update leaves the profiles alone; the constraints and the derived flags of all users are kept (corrected; see Findings) |
| AccountsModels.ExactlyOneRole | accounts/models.py:71-81 | for a role among the choices exactly one of `is_admin`, `is_cliente`, `is_empleado` holds |
| AccountsModels.FullNameCases | accounts/models.py:58-60 | `get_full_name` is "" when both names are blank, the lone name when the other is empty, and `first + " " + last` for trimmed non-empty names |
| AccountsModels.SaveTwice | accounts/models.py:83-96 | saving a new user stamps the date and creates exactly one profile; saving it again keeps the date and creates none (corrected; see Findings) |
| AccountsBackend.Candidates | accounts/backends.py:16-18 | the candidates are exactly the users whose email or username equals the login |
| AccountsBackend.Authenticate | accounts/backends.py:13-26 | no candidate gives None; several raise MultipleObjectsReturned; one candidate is returned iff its password matches and it is active; nothing is written |
| AccountsBackend.EmailUsernameCollision | accounts/backends.py:16-20 | when one user's email is another's username, logging in with that string raises, whatever the password |
| AccountsBackend.GetUser | accounts/backends.py:28-32 | returns the stored row for that key, or None |

## Left out

- Password hashing, salting and hasher upgrades are external. `check_password` re-hashing and saving an outdated hash is not modelled.
- Sessions, the `request` argument and the login views are not modelled.
- Two requests that update the same failure counter at once are not modelled. The model runs one call at a time.
- The telephone pattern's `\d` is modelled as ASCII `0`-`9`. Python's `\d` also matches other Unicode decimal digits.
- `random.choices` is a finite sequence of candidate numbers supplied by the caller. The source loops until a free number appears. The model reports `NoFreeNumberDrawn` when the candidates run out, and says nothing about how long the source would keep drawing.
- Left out as UI or scripts: forms (accounts/forms.py), the admin classes, the `create_admin` management command and the `create_superuser.py` script.
- Columns no rule reads or writes are not modelled: birth date, address, profession, income, notification flags, profile timestamps. The `__str__` methods are not modelled either.
- Deleting a `CustomUser` (CASCADE to its profile) is not modelled.
- Email format validation is not modelled. `Role.nombre` choices are not enforced, because the database does not enforce them.
- `intentos_fallidos` is an unbounded integer rather than a 32-bit IntegerField. Under the lockout invariant it never exceeds 3.
- UsersSchema.HasPermission and UsersSchema.GetPermissions take the user's role key rather than the user.
- Both backends resolve their user type through `get_user_model()`, which yields only one model at run time. Each backend is modelled against its own app's user table.
- AccountsSchema.WriteUser: an insert at an explicit key moves the key sequence past that key. This is SQLite's behaviour. Other databases may leave the sequence behind.

## Findings

| source | as written | input that shows it | evidently intended | confidence | as-written member | corrected member |
|---|---|---|---|---|---|---|
| users/models.py:256-257 | `if not self.pk` stamps the creation date, but the UUID key has a default (line 127), so every instance has a key before its first save | `create_user("ana", role=<a stored role>, fecha_creacion=X)` stores X as the creation date | stamp the creation date while the instance is being added (Django's `_state.adding`) | medium, not executed | SystemUsers.CreationDateNeverStamped | SystemUsers.SystemUser.Save |
| accounts/models.py:27-30 | `^\+?1?\d{9,15}$`: Python's `$` also matches before a final newline, and max_length 17 leaves room for it | `"+123456789012345\n"` passes the model field's validation; the registration form's `telefono` (accounts/forms.py:80-84, a `forms.CharField`, which strips whitespace) removes the newline first, so only a direct call of the model validation (`full_clean`) sees it | the pattern must span the whole value | medium (reachable only outside the registration form), not executed | AccountsIdentity.TrailingNewlineAccepted | AccountsIdentity.PhoneShape |
| accounts/models.py:110-123 | `cedula` (and `numero_cliente` of non-clients) is `unique=True` with a blank default of `""`, so blanks collide | a second user of any role: its auto-created profile has cedula `""` like the first one, and the insert is refused | a blank value stored as NULL, exempt from uniqueness | high, not executed | AccountsSchema.SecondBlankProfileRefused | AccountsModels.CreateUserProfile |
