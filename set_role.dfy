/** The `set_role` management command: assigns one of the role choices to
    the account with a given username, updating its profile or creating one. */
module SetRoleCommand {
  import opened Wrappers
  import opened Models
  import opened Store
  import opened Requests
  import opened Decorators

  datatype SetRoleError = InvalidRole(role: string) | UserDoesNotExist(username: string)

  /** Which of the two success messages the command writes. */
  datatype SetRoleSuccess = RoleUpdated | ProfileCreated

  datatype SetRoleRun = SetRoleRun(result: Result<SetRoleSuccess, SetRoleError>, db: Db)

  /** What the command reports and the database it leaves. */
  ghost function SetRole(db: Db, username: string, role: string): SetRoleRun {
    if role !in RoleChoices then
      SetRoleRun(Failure(InvalidRole(role)), db)
    else
      match FindUser(db.users, username)
      case None => SetRoleRun(Failure(UserDoesNotExist(username)), db)
      case Some(u) =>
        match ProfileOf(db.profiles, u)
        case Some(p) =>
          SetRoleRun(Success(RoleUpdated), db.(profiles := db.profiles[p := db.profiles[p].(role := role)]))
        case None =>
          SetRoleRun(Success(ProfileCreated),
                     db.(profiles := db.profiles[db.nextProfileId := UserProfile(u, role)],
                         nextProfileId := db.nextProfileId + 1))
  }

  /** `Command.handle`: validate the role, look up the account, then save
      the existing profile with the new role or create one carrying it. */
  method Handle(store: Database, username: string, role: string)
      returns (result: Result<SetRoleSuccess, SetRoleError>)
    requires store.Valid()
    modifies store
    ensures SetRoleRun(result, store.Snapshot()) == SetRole(old(store.Snapshot()), username, role)
    ensures store.Valid()
  {
    ghost var before := store.Snapshot();
    SetRoleValid(before, username, role);
    if role !in RoleChoices {
      return Failure(InvalidRole(role));
    }
    var user := store.GetUser(username);
    if user.None? {
      return Failure(UserDoesNotExist(username));
    }
    var profile := store.GetProfile(user.value);
    if profile.Some? {
      var row := store.profiles[profile.value];
      store.SaveProfile(profile.value, row.(role := role));
      result := Success(RoleUpdated);
    } else {
      var _ := store.CreateProfile(UserProfile(user.value, role));
      result := Success(ProfileCreated);
    }
  }

  /** A role outside the choices is refused before the username is even
      looked up, and nothing changes. */
  lemma InvalidRoleRefusedFirst(db: Db, username: string, role: string)
    requires role !in RoleChoices
    ensures SetRole(db, username, role) == SetRoleRun(Failure(InvalidRole(role)), db)
  {
  }

  /** An unknown username with a valid role is refused, and nothing changes. */
  lemma UnknownUserRefused(db: Db, username: string, role: string)
    requires role in RoleChoices
    requires forall u :: u in db.users ==> db.users[u].username != username
    ensures SetRole(db, username, role) == SetRoleRun(Failure(UserDoesNotExist(username)), db)
  {
  }

  /** The command keeps the database valid. */
  lemma SetRoleValid(db: Db, username: string, role: string)
    requires Valid(db)
    ensures Valid(SetRole(db, username, role).db)
  {
    if role in RoleChoices && FindUser(db.users, username).Some? {
      var u := FindUser(db.users, username).value;
      match ProfileOf(db.profiles, u)
      case Some(p) => SaveProfileKeepsValid(db, p, db.profiles[p].(role := role));
      case None => CreateProfileKeepsValid(db, UserProfile(u, role));
    }
  }

  /** With a valid role and an account that has a profile, the command
      rewrites exactly that profile's role and touches nothing else. */
  lemma SetRoleUpdatesExisting(db: Db, username: string, role: string, u: Id, p: Id)
    requires UniqueUsernames(db.users) && OneProfilePerUser(db.profiles)
    requires role in RoleChoices
    requires u in db.users && db.users[u].username == username
    requires p in db.profiles && db.profiles[p].user == u
    ensures SetRole(db, username, role)
         == SetRoleRun(Success(RoleUpdated), db.(profiles := db.profiles[p := UserProfile(u, role)]))
  {
    FindUserDetermined(db.users, username, u);
    ProfileOfDetermined(db.profiles, u, p);
  }

  /** With a valid role and an account without a profile, the command adds
      exactly one profile, under a key no row used, carrying the role. */
  lemma SetRoleCreatesMissing(db: Db, username: string, role: string, u: Id)
    requires UniqueUsernames(db.users) && ProfilesValid(db)
    requires role in RoleChoices
    requires u in db.users && db.users[u].username == username
    requires forall p :: p in db.profiles ==> db.profiles[p].user != u
    ensures db.nextProfileId !in db.profiles
    ensures SetRole(db, username, role)
         == SetRoleRun(Success(ProfileCreated),
                       db.(profiles := db.profiles[db.nextProfileId := UserProfile(u, role)],
                           nextProfileId := db.nextProfileId + 1))
  {
    FindUserDetermined(db.users, username, u);
  }

  /** After a successful run the account's profile carries the requested role. */
  lemma SetRoleAssigns(db: Db, username: string, role: string)
    requires UniqueUsernames(db.users) && ProfilesValid(db)
    ensures var run := SetRole(db, username, role);
      run.result.Success? ==>
        exists u :: u in run.db.users && run.db.users[u].username == username &&
          ProfileOf(run.db.profiles, u).Some? &&
          run.db.profiles[ProfileOf(run.db.profiles, u).value] == UserProfile(u, role)
  {
    var run := SetRole(db, username, role);
    if run.result.Success? {
      var u := FindUser(db.users, username).value;
      var p: Id;
      match ProfileOf(db.profiles, u) {
        case Some(q) =>
          SetRoleUpdatesExisting(db, username, role, u, q);
          SaveProfileKeepsOneToOne(db.profiles, q, UserProfile(u, role));
          p := q;
        case None =>
          SetRoleCreatesMissing(db, username, role, u);
          CreateProfileKeepsOneToOne(db.profiles, db.nextProfileId, UserProfile(u, role));
          p := db.nextProfileId;
      }
      ProfileOfDetermined(run.db.profiles, u, p);
      assert run.db.users[u].username == username;
    }
  }

  /** Running the command a second time changes nothing more: it finds the
      profile the first run left and rewrites the same role. */
  lemma SetRoleIdempotent(db: Db, username: string, role: string)
    requires Valid(db)
    ensures var once := SetRole(db, username, role);
      && SetRole(once.db, username, role).db == once.db
      && (once.result.Success? ==> SetRole(once.db, username, role).result == Success(RoleUpdated))
  {
    var once := SetRole(db, username, role);
    if once.result.Success? {
      SetRoleAssigns(db, username, role);
      SetRoleValid(db, username, role);
      var u :| u in once.db.users && once.db.users[u].username == username &&
          ProfileOf(once.db.profiles, u).Some? &&
          once.db.profiles[ProfileOf(once.db.profiles, u).value] == UserProfile(u, role);
      var p := ProfileOf(once.db.profiles, u).value;
      SetRoleUpdatesExisting(once.db, username, role, u, p);
      assert once.db.profiles[p := UserProfile(u, role)] == once.db.profiles;
    }
  }

  /** After a successful run, a request by that account, if it is not a
      superuser, passes exactly the gates that allow the assigned role. */
  lemma SetRoleDecidesGate(db: Db, username: string, role: string, u: Id, allowedRoles: seq<string>)
    requires Valid(db)
    requires role in RoleChoices
    requires u in db.users && db.users[u].username == username && !db.users[u].isSuperuser
    ensures var r := SetRole(db, username, role).db;
      u in r.users &&
      (DecideRequest(r, Request(AuthenticatedUser(u, r.users[u])), allowedRoles) == Allow <==> role in allowedRoles)
  {
    var r := SetRole(db, username, role).db;
    FindUserDetermined(db.users, username, u);
    SetRoleAssigns(db, username, role);
    FindUserDetermined(r.users, username, u);
    assert r.users == db.users by {
      match ProfileOf(db.profiles, u) {
        case Some(p) => SetRoleUpdatesExisting(db, username, role, u, p);
        case None => SetRoleCreatesMissing(db, username, role, u);
      }
    }
  }
}
