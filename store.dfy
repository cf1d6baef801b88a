/** The database as the management commands and the registration form see
    it through the ORM: one table per field, each a map from primary key to
    row, and the primitive reads and writes those callers perform. */
module Store {
  import opened Wrappers
  import opened Models

  class Database {
    var users: map<Id, Account>
    var profiles: map<Id, UserProfile>
    var vendors: map<Id, Vendor>
    var packages: map<Id, TravelPackage>
    var bookings: map<Id, Booking>
    var reviews: map<Id, Review>
    var nextUserId: Id
    var nextProfileId: Id

    /** The whole database as a value. */
    function Snapshot(): Db
      reads this
    {
      Db(users, profiles, vendors, packages, bookings, reviews, nextUserId, nextProfileId)
    }

    ghost predicate Valid()
      reads this
    {
      Models.Valid(Snapshot())
    }

    /** A freshly migrated, empty database. */
    constructor ()
      ensures Snapshot() == EmptyDb()
      ensures Valid()
    {
      users, profiles, vendors, packages, bookings, reviews := map[], map[], map[], map[], map[], map[];
      nextUserId, nextProfileId := 0, 0;
    }

    /** `User.objects.get(username=...)`, with the missing row as None. */
    method GetUser(username: string) returns (r: Option<Id>)
      requires UniqueUsernames(users)
      ensures r == FindUser(users, username)
    {
      if u :| u in users && users[u].username == username {
        FindUserDetermined(users, username, u);
        r := Some(u);
      } else {
        r := None;
      }
    }

    /** `user.userprofile`, with the missing row as None. */
    method GetProfile(user: Id) returns (r: Option<Id>)
      requires OneProfilePerUser(profiles)
      ensures r == ProfileOf(profiles, user)
    {
      if p :| p in profiles && profiles[p].user == user {
        ProfileOfDetermined(profiles, user, p);
        r := Some(p);
      } else {
        r := None;
      }
    }

    /** `user.save()` on an account that already has a row. */
    method SaveUser(id: Id, account: Account)
      requires id in users
      modifies this
      ensures Snapshot() == old(Snapshot()).(users := old(users)[id := account])
    {
      users := users[id := account];
    }

    /** `user.save()` on an account without a row: inserts it under the next key. */
    method CreateUser(account: Account) returns (id: Id)
      modifies this
      ensures id == old(nextUserId)
      ensures Snapshot() == old(Snapshot()).(users := old(users)[id := account], nextUserId := id + 1)
    {
      id := nextUserId;
      users := users[id := account];
      nextUserId := nextUserId + 1;
    }

    /** `profile.save()` on a profile that already has a row. */
    method SaveProfile(id: Id, profile: UserProfile)
      requires id in profiles
      modifies this
      ensures Snapshot() == old(Snapshot()).(profiles := old(profiles)[id := profile])
    {
      profiles := profiles[id := profile];
    }

    /** `UserProfile.objects.create(...)`: inserts a row under the next key. */
    method CreateProfile(profile: UserProfile) returns (id: Id)
      modifies this
      ensures id == old(nextProfileId)
      ensures Snapshot() == old(Snapshot()).(profiles := old(profiles)[id := profile], nextProfileId := id + 1)
    {
      id := nextProfileId;
      profiles := profiles[id := profile];
      nextProfileId := nextProfileId + 1;
    }

    /** `UserProfile.objects.get_or_create(user=user)`: the existing profile,
        or a new one with every other column at its default, which for the
        role column is the empty string. */
    method GetOrCreateProfile(user: Id) returns (id: Id, created: bool)
      requires OneProfilePerUser(profiles)
      modifies this
      ensures created <==> old(ProfileOf(profiles, user)).None?
      ensures !created ==> old(ProfileOf(profiles, user)) == Some(id) && Snapshot() == old(Snapshot())
      ensures created ==> id == old(nextProfileId) && Snapshot() == old(Snapshot()).(
        profiles := old(profiles)[id := UserProfile(user, "")], nextProfileId := id + 1)
    {
      var existing := GetProfile(user);
      if existing.Some? {
        id, created := existing.value, false;
      } else {
        id := CreateProfile(UserProfile(user, ""));
        created := true;
      }
    }
  }
}
