/** The `promote_user` management command: grants an account superuser and
    staff status and gives it an admin profile. */
module PromoteUserCommand {
  import opened Wrappers
  import opened Models
  import opened Store
  import opened Requests
  import opened Decorators

  /** The message the command writes; a missing account is reported, not raised. */
  datatype PromoteReport = UserNotFound(username: string) | AdminProfileCreated | PromotedToAdmin

  datatype PromoteRun = PromoteRun(report: PromoteReport, db: Db)

  /** What the command reports and the database it leaves. */
  ghost function Promote(db: Db, username: string): PromoteRun {
    match FindUser(db.users, username)
    case None => PromoteRun(UserNotFound(username), db)
    case Some(u) =>
      var flagged := db.(users := db.users[u := db.users[u].(isSuperuser := true, isStaff := true)]);
      match ProfileOf(flagged.profiles, u)
      case Some(p) =>
        PromoteRun(PromotedToAdmin,
                   flagged.(profiles := flagged.profiles[p := flagged.profiles[p].(role := AdminRole.Code())]))
      case None =>
        PromoteRun(AdminProfileCreated,
                   flagged.(profiles := flagged.profiles[flagged.nextProfileId := UserProfile(u, AdminRole.Code())],
                            nextProfileId := flagged.nextProfileId + 1))
  }

  /** `Command.handle`: look the account up, set both flags and save it,
      get or create its profile (a new one starts with an empty role), then
      set the role to admin and save the profile. */
  method Handle(store: Database, username: string) returns (report: PromoteReport)
    requires store.Valid()
    modifies store
    ensures PromoteRun(report, store.Snapshot()) == Promote(old(store.Snapshot()), username)
    ensures store.Valid()
  {
    PromoteValid(store.Snapshot(), username);
    var user := store.GetUser(username);
    if user.None? {
      return UserNotFound(username);
    }
    var u := user.value;
    var account := store.users[u];
    account := account.(isSuperuser := true);
    account := account.(isStaff := true);
    store.SaveUser(u, account);

    var p, created := store.GetOrCreateProfile(u);
    var profile := store.profiles[p];
    profile := profile.(role := AdminRole.Code());
    store.SaveProfile(p, profile);

    report := if created then AdminProfileCreated else PromotedToAdmin;
  }

  /** An unknown username is reported and nothing changes. */
  lemma UnknownUserUnchanged(db: Db, username: string)
    requires forall u :: u in db.users ==> db.users[u].username != username
    ensures Promote(db, username) == PromoteRun(UserNotFound(username), db)
  {
  }

  lemma FlagUserKeepsUniqueUsernames(users: map<Id, Account>, u: Id)
    requires UniqueUsernames(users) && u in users
    ensures UniqueUsernames(users[u := users[u].(isSuperuser := true, isStaff := true)])
  {
    var r := users[u := users[u].(isSuperuser := true, isStaff := true)];
    forall x, y | x in r && y in r && r[x].username == r[y].username
      ensures x == y
    {
      assert r[x].username == users[x].username && r[y].username == users[y].username;
    }
  }

  /** Setting the two flags keeps the database valid. */
  lemma FlagUserKeepsValid(db: Db, u: Id)
    requires Valid(db) && u in db.users
    ensures Valid(db.(users := db.users[u := db.users[u].(isSuperuser := true, isStaff := true)]))
  {
    var r := db.(users := db.users[u := db.users[u].(isSuperuser := true, isStaff := true)]);
    assert UsersValid(r) by {
      FlagUserKeepsUniqueUsernames(db.users, u);
    }
    AccountWriteKeepsValid(db, r);
  }

  /** The command keeps the database valid. */
  lemma PromoteValid(db: Db, username: string)
    requires Valid(db)
    ensures Valid(Promote(db, username).db)
  {
    match FindUser(db.users, username)
    case None =>
    case Some(u) =>
      var flagged := db.(users := db.users[u := db.users[u].(isSuperuser := true, isStaff := true)]);
      FlagUserKeepsValid(db, u);
      match ProfileOf(flagged.profiles, u)
      case Some(p) => SaveProfileKeepsValid(flagged, p, flagged.profiles[p].(role := AdminRole.Code()));
      case None => CreateProfileKeepsValid(flagged, UserProfile(u, AdminRole.Code()));
  }

  /** For an account with a profile, promotion sets both flags and rewrites
      that profile's role to admin, and nothing else. */
  lemma PromoteUpdatesExisting(db: Db, username: string, u: Id, p: Id)
    requires UniqueUsernames(db.users) && OneProfilePerUser(db.profiles)
    requires u in db.users && db.users[u].username == username
    requires p in db.profiles && db.profiles[p].user == u
    ensures Promote(db, username) == PromoteRun(PromotedToAdmin, db.(
      users := db.users[u := Account(username, true, true)],
      profiles := db.profiles[p := UserProfile(u, "admin")]))
  {
    FindUserDetermined(db.users, username, u);
    ProfileOfDetermined(db.profiles, u, p);
  }

  /** For an account without a profile, promotion sets both flags and adds
      exactly one admin profile under a key no row used. */
  lemma PromoteCreatesMissing(db: Db, username: string, u: Id)
    requires UniqueUsernames(db.users) && ProfilesValid(db)
    requires u in db.users && db.users[u].username == username
    requires forall p :: p in db.profiles ==> db.profiles[p].user != u
    ensures db.nextProfileId !in db.profiles
    ensures Promote(db, username) == PromoteRun(AdminProfileCreated, db.(
      users := db.users[u := Account(username, true, true)],
      profiles := db.profiles[db.nextProfileId := UserProfile(u, "admin")],
      nextProfileId := db.nextProfileId + 1))
  {
    FindUserDetermined(db.users, username, u);
  }

  /** A promoted account is a superuser and staff member whose one profile
      is an admin profile; no other account changes. */
  lemma PromoteGrants(db: Db, username: string, u: Id)
    requires Valid(db)
    requires u in db.users && db.users[u].username == username
    ensures var r := Promote(db, username).db;
      && r.users.Keys == db.users.Keys
      && r.users[u].isSuperuser && r.users[u].isStaff
      && (forall x :: x in db.users && x != u ==> r.users[x] == db.users[x])
      && ProfileOf(r.profiles, u).Some?
      && r.profiles[ProfileOf(r.profiles, u).value] == UserProfile(u, "admin")
      && (forall p :: p in db.profiles && db.profiles[p].user != u ==>
            p in r.profiles && r.profiles[p] == db.profiles[p])
  {
    var r := Promote(db, username).db;
    match ProfileOf(db.profiles, u)
    case Some(p) =>
      PromoteUpdatesExisting(db, username, u, p);
      SaveProfileKeepsOneToOne(db.profiles, p, UserProfile(u, "admin"));
      ProfileOfDetermined(r.profiles, u, p);
    case None =>
      PromoteCreatesMissing(db, username, u);
      CreateProfileKeepsOneToOne(db.profiles, db.nextProfileId, UserProfile(u, "admin"));
      ProfileOfDetermined(r.profiles, u, db.nextProfileId);
  }

  /** After promotion the lookups the command relies on still find one row
      each, and the account's profile is the admin profile. */
  lemma PromoteLeavesAdminProfile(db: Db, username: string, u: Id) returns (p: Id)
    requires UniqueUsernames(db.users) && ProfilesValid(db)
    requires u in db.users && db.users[u].username == username
    ensures var r := Promote(db, username).db;
      && UniqueUsernames(r.users) && OneProfilePerUser(r.profiles)
      && u in r.users && r.users[u] == Account(username, true, true)
      && p in r.profiles && r.profiles[p] == UserProfile(u, "admin")
  {
    FlagUserKeepsUniqueUsernames(db.users, u);
    match ProfileOf(db.profiles, u) {
      case Some(q) =>
        PromoteUpdatesExisting(db, username, u, q);
        SaveProfileKeepsOneToOne(db.profiles, q, UserProfile(u, "admin"));
        p := q;
      case None =>
        PromoteCreatesMissing(db, username, u);
        CreateProfileKeepsOneToOne(db.profiles, db.nextProfileId, UserProfile(u, "admin"));
        p := db.nextProfileId;
    }
  }

  /** Promoting an account that exists leaves a database on which a second
      promotion reports an update and changes nothing. */
  lemma PromoteAgainIsNoOp(db: Db, username: string)
    requires UniqueUsernames(db.users) && ProfilesValid(db)
    requires FindUser(db.users, username).Some?
    ensures var r := Promote(db, username).db; Promote(r, username) == PromoteRun(PromotedToAdmin, r)
  {
    var u := FindUser(db.users, username).value;
    var r := Promote(db, username).db;
    var p := PromoteLeavesAdminProfile(db, username, u);
    PromoteUpdatesExisting(r, username, u, p);
    RewriteSameRow(r.users, u, Account(username, true, true));
    RewriteSameRow(r.profiles, p, UserProfile(u, "admin"));
  }

  /** Writing back the value a row already holds leaves the table as it was. */
  lemma RewriteSameRow<V>(m: map<Id, V>, k: Id, v: V)
    requires k in m && m[k] == v
    ensures m[k := v] == m
  {
  }

  /** Promoting twice leaves the same database as promoting once, and the
      second run reports an update rather than a creation. */
  lemma PromoteIdempotent(db: Db, username: string)
    requires UniqueUsernames(db.users) && ProfilesValid(db)
    ensures var once := Promote(db, username);
      && Promote(once.db, username).db == once.db
      && (!once.report.UserNotFound? ==> Promote(once.db, username).report == PromotedToAdmin)
  {
    if FindUser(db.users, username).Some? {
      PromoteAgainIsNoOp(db, username);
    }
  }

  /** Once promoted, the account passes every role gate, whatever roles the
      route allows, the empty list included. */
  lemma PromotedUserPassesEveryGate(db: Db, username: string, u: Id, allowedRoles: seq<string>)
    requires Valid(db)
    requires u in db.users && db.users[u].username == username
    ensures var r := Promote(db, username).db;
      u in r.users && DecideRequest(r, Request(AuthenticatedUser(u, r.users[u])), allowedRoles) == Allow
  {
    PromoteGrants(db, username, u);
  }
}
