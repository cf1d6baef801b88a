/** The marketplace's relational schema: the role and booking-status choices,
    the records of each table with their defaults, the integrity the schema
    keeps (foreign keys, one-to-one links, unique usernames, choice columns),
    and what deleting a row cascades to. */
module Models {
  import opened Wrappers

  /** Primary keys are auto-incremented integers. */
  type Id = nat

  /** Largest value a PositiveIntegerField column accepts. */
  const MaxPositiveInteger: int := 2147483647

  /** A DecimalField(max_digits=10, decimal_places=2) holds its value in
      hundredths, strictly between -DecimalLimit and DecimalLimit. */
  const DecimalLimit: int := 10_000_000_000

  /** max_length of the role and status columns. */
  const ChoiceMaxLength: int := 10

  predicate DecimalFits(hundredths: int) {
    -DecimalLimit < hundredths < DecimalLimit
  }

  // ---------------------------------------------------------------------
  // Choices

  /** The three roles a profile may carry. */
  datatype Role = TravelerRole | VendorRole | AdminRole {
    /** The value stored in the role column. */
    function Code(): (s: string)
      ensures s in RoleChoices
      ensures 0 < |s| <= ChoiceMaxLength
    {
      match this
      case TravelerRole => "traveler"
      case VendorRole => "vendor"
      case AdminRole => "admin"
    }
  }

  /** The stored values of the role choices, in declaration order. */
  const RoleChoices: seq<string> := ["traveler", "vendor", "admin"]

  function ParseRole(s: string): (r: Option<Role>)
    ensures r.Some? <==> s in RoleChoices
    ensures r.Some? ==> r.value.Code() == s
  {
    if s == "traveler" then Some(TravelerRole)
    else if s == "vendor" then Some(VendorRole)
    else if s == "admin" then Some(AdminRole)
    else None
  }

  lemma RoleRoundTrip(r: Role)
    ensures ParseRole(r.Code()) == Some(r)
  {
  }

  /** The three states a booking may be in. */
  datatype BookingStatus = Pending | Confirmed | Cancelled {
    /** The value stored in the status column. */
    function Code(): (s: string)
      ensures s in StatusChoices
      ensures 0 < |s| <= ChoiceMaxLength
    {
      match this
      case Pending => "pending"
      case Confirmed => "confirmed"
      case Cancelled => "cancelled"
    }
  }

  const StatusChoices: seq<string> := ["pending", "confirmed", "cancelled"]

  function ParseStatus(s: string): (r: Option<BookingStatus>)
    ensures r.Some? <==> s in StatusChoices
    ensures r.Some? ==> r.value.Code() == s
  {
    if s == "pending" then Some(Pending)
    else if s == "confirmed" then Some(Confirmed)
    else if s == "cancelled" then Some(Cancelled)
    else None
  }

  lemma StatusRoundTrip(st: BookingStatus)
    ensures ParseStatus(st.Code()) == Some(st)
  {
  }

  // ---------------------------------------------------------------------
  // Records

  /** The built-in account; credentials and names are not modelled. */
  datatype Account = Account(username: string, isSuperuser: bool, isStaff: bool)

  /** Extends an account with a role. The column is free text: the choices
      are enforced by whoever writes it, not by the table. */
  datatype UserProfile = UserProfile(user: Id, role: string)

  datatype Vendor = Vendor(userProfile: Id, name: string, description: string, website: Option<string>)

  /** Dates are day numbers; prices are in hundredths. */
  datatype TravelPackage = TravelPackage(
    vendor: Id, name: string, description: string,
    price: int, startDate: int, endDate: int)

  datatype Booking = Booking(
    user: Id, package: Id, status: string,
    numberOfTravelers: nat, totalPrice: int)

  datatype Review = Review(
    user: Id, package: Id, rating: nat, comment: string, isVerified: bool)

  /** An account as created, before any flag is granted. */
  function NewAccount(username: string): (a: Account)
    ensures a.username == username
    ensures !a.isSuperuser && !a.isStaff
  {
    Account(username, false, false)
  }

  /** A booking created with the column defaults for status and party size. */
  function NewBooking(user: Id, package: Id, totalPrice: int): (b: Booking)
    ensures b.user == user && b.package == package && b.totalPrice == totalPrice
    ensures ParseStatus(b.status) == Some(Pending)
    ensures b.numberOfTravelers == 1
  {
    Booking(user, package, Pending.Code(), 1, totalPrice)
  }

  /** A review created with the column default for the verified flag. */
  function NewReview(user: Id, package: Id, rating: nat, comment: string): (r: Review)
    ensures r.user == user && r.package == package && r.rating == rating && r.comment == comment
    ensures !r.isVerified
  {
    Review(user, package, rating, comment, false)
  }

  // ---------------------------------------------------------------------
  // The store and its integrity

  /** One map per table, keyed by primary key, and the next key the
      auto-increment sequences of the two tables the core inserts into
      will hand out. */
  datatype Db = Db(
    users: map<Id, Account>,
    profiles: map<Id, UserProfile>,
    vendors: map<Id, Vendor>,
    packages: map<Id, TravelPackage>,
    bookings: map<Id, Booking>,
    reviews: map<Id, Review>,
    nextUserId: Id,
    nextProfileId: Id)

  function EmptyDb(): Db {
    Db(map[], map[], map[], map[], map[], map[], 0, 0)
  }

  ghost predicate UniqueUsernames(users: map<Id, Account>) {
    forall u, w :: u in users && w in users && users[u].username == users[w].username ==> u == w
  }

  /** The one-to-one link from profile to account. */
  ghost predicate OneProfilePerUser(profiles: map<Id, UserProfile>) {
    forall p, q :: p in profiles && q in profiles && profiles[p].user == profiles[q].user ==> p == q
  }

  /** The one-to-one link from vendor to profile. */
  ghost predicate OneVendorPerProfile(vendors: map<Id, Vendor>) {
    forall v, w :: v in vendors && w in vendors && vendors[v].userProfile == vendors[w].userProfile ==> v == w
  }

  ghost predicate UsersValid(db: Db) {
    && (forall u :: u in db.users ==> u < db.nextUserId)
    && UniqueUsernames(db.users)
  }

  ghost predicate ProfilesValid(db: Db) {
    && (forall p :: p in db.profiles ==>
          p < db.nextProfileId && db.profiles[p].user in db.users && db.profiles[p].role in RoleChoices)
    && OneProfilePerUser(db.profiles)
  }

  ghost predicate VendorsValid(db: Db) {
    && (forall v :: v in db.vendors ==> db.vendors[v].userProfile in db.profiles)
    && OneVendorPerProfile(db.vendors)
  }

  ghost predicate PackagesValid(db: Db) {
    forall k :: k in db.packages ==> db.packages[k].vendor in db.vendors && DecimalFits(db.packages[k].price)
  }

  ghost predicate BookingsValid(db: Db) {
    forall b :: b in db.bookings ==>
      && db.bookings[b].user in db.users
      && db.bookings[b].package in db.packages
      && db.bookings[b].status in StatusChoices
      && db.bookings[b].numberOfTravelers <= MaxPositiveInteger
      && DecimalFits(db.bookings[b].totalPrice)
  }

  ghost predicate ReviewsValid(db: Db) {
    forall r :: r in db.reviews ==>
      && db.reviews[r].user in db.users
      && db.reviews[r].package in db.packages
      && db.reviews[r].rating <= MaxPositiveInteger
  }

  /** Every foreign key points at an existing row, every one-to-one link is
      one-to-one, usernames are unique, choice columns hold a choice, and
      the sequences are ahead of every key in use. */
  ghost predicate Valid(db: Db) {
    && UsersValid(db)
    && ProfilesValid(db)
    && VendorsValid(db)
    && PackagesValid(db)
    && BookingsValid(db)
    && ReviewsValid(db)
  }

  lemma EmptyDbValid()
    ensures Valid(EmptyDb())
  {
  }

  // ---------------------------------------------------------------------
  // Lookups

  /** `User.objects.get(username=...)`: the account with that username. */
  ghost function FindUser(users: map<Id, Account>, username: string): (r: Option<Id>)
    ensures r.Some? ==> r.value in users && users[r.value].username == username
    ensures r.None? ==> forall u :: u in users ==> users[u].username != username
  {
    if exists u :: u in users && users[u].username == username then
      Some(var u :| u in users && users[u].username == username; u)
    else
      None
  }

  /** `user.userprofile`: the profile linked to an account, if any. */
  ghost function ProfileOf(profiles: map<Id, UserProfile>, user: Id): (r: Option<Id>)
    ensures r.Some? ==> r.value in profiles && profiles[r.value].user == user
    ensures r.None? ==> forall p :: p in profiles ==> profiles[p].user != user
  {
    if exists p :: p in profiles && profiles[p].user == user then
      Some(var p :| p in profiles && profiles[p].user == user; p)
    else
      None
  }

  /** With unique usernames, the lookup finds the one account that has the name. */
  lemma FindUserDetermined(users: map<Id, Account>, username: string, u: Id)
    requires UniqueUsernames(users)
    requires u in users && users[u].username == username
    ensures FindUser(users, username) == Some(u)
  {
    var r := FindUser(users, username);
    assert r.Some?;
    assert users[r.value].username == users[u].username;
  }

  /** With the one-to-one link intact, the reverse lookup finds the one profile. */
  lemma ProfileOfDetermined(profiles: map<Id, UserProfile>, user: Id, p: Id)
    requires OneProfilePerUser(profiles)
    requires p in profiles && profiles[p].user == user
    ensures ProfileOf(profiles, user) == Some(p)
  {
    var r := ProfileOf(profiles, user);
    assert r.Some?;
    assert profiles[r.value].user == profiles[p].user;
  }

  // ---------------------------------------------------------------------
  // Writes to the profile table

  lemma SaveProfileKeepsOneToOne(profiles: map<Id, UserProfile>, p: Id, row: UserProfile)
    requires OneProfilePerUser(profiles)
    requires p in profiles && row.user == profiles[p].user
    ensures OneProfilePerUser(profiles[p := row])
  {
    var r := profiles[p := row];
    forall x, y | x in r && y in r && r[x].user == r[y].user
      ensures x == y
    {
      assert r[x].user == profiles[x].user && r[y].user == profiles[y].user;
    }
  }

  lemma CreateProfileKeepsOneToOne(profiles: map<Id, UserProfile>, id: Id, row: UserProfile)
    requires OneProfilePerUser(profiles)
    requires id !in profiles && ProfileOf(profiles, row.user).None?
    ensures OneProfilePerUser(profiles[id := row])
  {
    var r := profiles[id := row];
    forall x, y | x in r && y in r && r[x].user == r[y].user
      ensures x == y
    {
      if x != id && y != id {
        assert r[x] == profiles[x] && r[y] == profiles[y];
      }
    }
  }

  /** A write to the account table alone that keeps the account rules and
      removes no account keeps the database valid. */
  lemma AccountWriteKeepsValid(db: Db, r: Db)
    requires Valid(db)
    requires r == db.(users := r.users, nextUserId := r.nextUserId)
    requires UsersValid(r) && db.users.Keys <= r.users.Keys
    ensures Valid(r)
  {
    assert ProfilesValid(r);
    assert BookingsValid(r);
    assert ReviewsValid(r);
  }

  /** A write to the profile table alone that keeps the profile rules and
      removes no profile keeps the database valid. */
  lemma ProfileWriteKeepsValid(db: Db, r: Db)
    requires Valid(db)
    requires r == db.(profiles := r.profiles, nextProfileId := r.nextProfileId)
    requires ProfilesValid(r) && db.profiles.Keys <= r.profiles.Keys
    ensures Valid(r)
  {
    assert VendorsValid(r);
  }

  /** Rewriting a profile row for the same account with a role from the
      choices keeps the database valid. */
  lemma SaveProfileKeepsValid(db: Db, p: Id, row: UserProfile)
    requires Valid(db)
    requires p in db.profiles && row.user == db.profiles[p].user && row.role in RoleChoices
    ensures Valid(db.(profiles := db.profiles[p := row]))
  {
    var r := db.(profiles := db.profiles[p := row]);
    assert ProfilesValid(r) by {
      SaveProfileKeepsOneToOne(db.profiles, p, row);
      forall q | q in r.profiles
        ensures q < r.nextProfileId && r.profiles[q].user in r.users && r.profiles[q].role in RoleChoices
      {
        if q != p {
          assert r.profiles[q] == db.profiles[q];
        }
      }
    }
    ProfileWriteKeepsValid(db, r);
  }

  /** Inserting a profile under the next key, for an account that has none,
      with a role from the choices, keeps the database valid. */
  lemma CreateProfileKeepsValid(db: Db, row: UserProfile)
    requires Valid(db)
    requires row.user in db.users && row.role in RoleChoices
    requires ProfileOf(db.profiles, row.user).None?
    ensures Valid(db.(profiles := db.profiles[db.nextProfileId := row], nextProfileId := db.nextProfileId + 1))
  {
    var r := db.(profiles := db.profiles[db.nextProfileId := row], nextProfileId := db.nextProfileId + 1);
    assert ProfilesValid(r) by {
      assert db.nextProfileId !in db.profiles;
      CreateProfileKeepsOneToOne(db.profiles, db.nextProfileId, row);
    }
    ProfileWriteKeepsValid(db, r);
  }

  // ---------------------------------------------------------------------
  // Cascading deletes

  function ProfilesOfUser(db: Db, user: Id): set<Id> {
    set p | p in db.profiles && db.profiles[p].user == user
  }

  function VendorsOfProfiles(db: Db, profiles: set<Id>): set<Id> {
    set v | v in db.vendors && db.vendors[v].userProfile in profiles
  }

  function PackagesOfVendors(db: Db, vendors: set<Id>): set<Id> {
    set k | k in db.packages && db.packages[k].vendor in vendors
  }

  /** Deletes the given packages together with every booking and review of them. */
  function DeletePackages(db: Db, doomed: set<Id>): Db {
    db.(packages := db.packages - doomed,
        bookings := map b | b in db.bookings && db.bookings[b].package !in doomed :: db.bookings[b],
        reviews := map r | r in db.reviews && db.reviews[r].package !in doomed :: db.reviews[r])
  }

  /** Deletes the given vendors together with their packages, cascading on. */
  function DeleteVendors(db: Db, doomed: set<Id>): Db {
    DeletePackages(db.(vendors := db.vendors - doomed), PackagesOfVendors(db, doomed))
  }

  /** Deletes the given profiles together with their vendors, cascading on. */
  function DeleteProfiles(db: Db, doomed: set<Id>): Db {
    DeleteVendors(db.(profiles := db.profiles - doomed), VendorsOfProfiles(db, doomed))
  }

  /** Removes an account row and the bookings and reviews that point at it
      directly; its profile is left for the cascade through profiles. */
  function RemoveUserRows(db: Db, user: Id): Db {
    db.(users := db.users - {user},
        bookings := map b | b in db.bookings && db.bookings[b].user != user :: db.bookings[b],
        reviews := map r | r in db.reviews && db.reviews[r].user != user :: db.reviews[r])
  }

  /** Deletes an account together with its profile, its bookings and its
      reviews, cascading on through the profile. */
  function DeleteUser(db: Db, user: Id): Db {
    DeleteProfiles(RemoveUserRows(db, user), ProfilesOfUser(db, user))
  }

  function DeletePackage(db: Db, package: Id): Db {
    DeletePackages(db, {package})
  }

  function DeleteVendor(db: Db, vendor: Id): Db {
    DeleteVendors(db, {vendor})
  }

  /** Deleting a package removes exactly its own bookings and reviews and
      leaves every other row as it was. */
  lemma DeletePackageExact(db: Db, k: Id)
    ensures var r := DeletePackage(db, k);
      && r.users == db.users && r.profiles == db.profiles && r.vendors == db.vendors
      && r.packages.Keys == db.packages.Keys - {k}
      && (forall j :: j in r.packages ==> r.packages[j] == db.packages[j])
      && (forall b :: b in r.bookings <==> b in db.bookings && db.bookings[b].package != k)
      && (forall b :: b in r.bookings ==> r.bookings[b] == db.bookings[b])
      && (forall v :: v in r.reviews <==> v in db.reviews && db.reviews[v].package != k)
      && (forall v :: v in r.reviews ==> r.reviews[v] == db.reviews[v])
  {
  }

  /** Deleting packages keeps the store valid. */
  lemma DeletePackagesValid(db: Db, doomed: set<Id>)
    requires Valid(db)
    ensures Valid(DeletePackages(db, doomed))
  {
  }

  /** Which rows deleting a vendor removes, stated as set differences. */
  lemma DeleteVendorRows(db: Db, v: Id)
    ensures var r := DeleteVendor(db, v);
      var ks := PackagesOfVendors(db, {v});
      && r.users == db.users && r.profiles == db.profiles
      && r.vendors == db.vendors - {v}
      && r.packages == db.packages - ks
      && r.bookings == (map b | b in db.bookings && db.bookings[b].package !in ks :: db.bookings[b])
      && r.reviews == (map x | x in db.reviews && db.reviews[x].package !in ks :: db.reviews[x])
      && r.nextUserId == db.nextUserId && r.nextProfileId == db.nextProfileId
  {
    var mid := db.(vendors := db.vendors - {v});
    assert PackagesOfVendors(mid, {v}) == PackagesOfVendors(db, {v});
  }

  /** Deleting a vendor keeps the store valid. */
  lemma DeleteVendorValid(db: Db, v: Id)
    requires Valid(db)
    ensures Valid(DeleteVendor(db, v))
  {
    var r := DeleteVendor(db, v);
    DeleteVendorRows(db, v);
    assert VendorsValid(r);
    assert PackagesValid(r);
    assert BookingsValid(r);
    assert ReviewsValid(r);
  }

  /** Deleting a vendor removes it, all of its packages and, through them,
      all of their bookings and reviews; every other row stays as it was. */
  lemma DeleteVendorCascades(db: Db, v: Id)
    requires Valid(db)
    ensures Valid(DeleteVendor(db, v))
    ensures var r := DeleteVendor(db, v);
      && r.users == db.users && r.profiles == db.profiles
      && r.vendors == db.vendors - {v}
      && (forall k :: k in r.packages <==> k in db.packages && db.packages[k].vendor != v)
      && (forall k :: k in r.packages ==> r.packages[k] == db.packages[k])
      && (forall b :: b in r.bookings <==>
            b in db.bookings && db.packages[db.bookings[b].package].vendor != v)
      && (forall b :: b in r.bookings ==> r.bookings[b] == db.bookings[b])
      && (forall x :: x in r.reviews <==>
            x in db.reviews && db.packages[db.reviews[x].package].vendor != v)
      && (forall x :: x in r.reviews ==> r.reviews[x] == db.reviews[x])
      && r.nextUserId == db.nextUserId && r.nextProfileId == db.nextProfileId
  {
    DeleteVendorValid(db, v);
    DeleteVendorRows(db, v);
  }

  /** Deleting packages keeps the store valid even when, beforehand, the
      doomed packages were the only rows whose vendor was missing. */
  lemma DeletePackagesRepairs(db: Db, doomed: set<Id>)
    requires UsersValid(db) && ProfilesValid(db) && VendorsValid(db)
    requires forall k :: k in db.packages && k !in doomed ==>
      db.packages[k].vendor in db.vendors && DecimalFits(db.packages[k].price)
    requires BookingsValid(db) && ReviewsValid(db)
    ensures Valid(DeletePackages(db, doomed))
  {
  }

  /** Deleting vendors keeps the store valid even when, beforehand, the
      doomed vendors were the only rows whose profile was missing. */
  lemma DeleteVendorsRepairs(db: Db, doomed: set<Id>)
    requires UsersValid(db) && ProfilesValid(db)
    requires forall v :: v in db.vendors && v !in doomed ==> db.vendors[v].userProfile in db.profiles
    requires OneVendorPerProfile(db.vendors)
    requires PackagesValid(db) && BookingsValid(db) && ReviewsValid(db)
    ensures Valid(DeleteVendors(db, doomed))
  {
    var mid := db.(vendors := db.vendors - doomed);
    var ks := PackagesOfVendors(db, doomed);
    assert VendorsValid(mid);
    DeletePackagesRepairs(mid, ks);
  }

  /** Deleting profiles keeps the store valid even when, beforehand, the
      doomed profiles were the only rows whose account was missing. */
  lemma DeleteProfilesRepairs(db: Db, doomed: set<Id>)
    requires UsersValid(db)
    requires forall p :: p in db.profiles ==> p < db.nextProfileId && db.profiles[p].role in RoleChoices
    requires forall p :: p in db.profiles && p !in doomed ==> db.profiles[p].user in db.users
    requires OneProfilePerUser(db.profiles)
    requires VendorsValid(db) && PackagesValid(db) && BookingsValid(db) && ReviewsValid(db)
    ensures Valid(DeleteProfiles(db, doomed))
  {
    var mid := db.(profiles := db.profiles - doomed);
    assert ProfilesValid(mid);
    DeleteVendorsRepairs(mid, VendorsOfProfiles(db, doomed));
  }

  /** After the account's own rows are gone, the store is valid except for
      the account's profiles, which are the ones left pointing nowhere. */
  lemma RemoveUserRowsLeavesOnlyProfiles(db: Db, u: Id)
    requires Valid(db)
    ensures var rest := RemoveUserRows(db, u);
      && UsersValid(rest)
      && (forall p :: p in rest.profiles ==> p < rest.nextProfileId && rest.profiles[p].role in RoleChoices)
      && (forall p :: p in rest.profiles && p !in ProfilesOfUser(db, u) ==> rest.profiles[p].user in rest.users)
      && OneProfilePerUser(rest.profiles)
      && VendorsValid(rest) && PackagesValid(rest) && BookingsValid(rest) && ReviewsValid(rest)
  {
    RemoveUserRowsUsers(db, u);
    RemoveUserRowsBookings(db, u);
    RemoveUserRowsReviews(db, u);
  }

  lemma RemoveUserRowsUsers(db: Db, u: Id)
    requires UsersValid(db)
    ensures UsersValid(RemoveUserRows(db, u))
  {
    var rest := RemoveUserRows(db, u);
    assert forall x :: x in rest.users ==> x in db.users && rest.users[x] == db.users[x];
  }

  lemma RemoveUserRowsBookings(db: Db, u: Id)
    requires BookingsValid(db)
    ensures BookingsValid(RemoveUserRows(db, u))
  {
    var rest := RemoveUserRows(db, u);
    forall b | b in rest.bookings
      ensures rest.bookings[b].user in rest.users
    {
      assert rest.bookings[b] == db.bookings[b];
    }
  }

  lemma RemoveUserRowsReviews(db: Db, u: Id)
    requires ReviewsValid(db)
    ensures ReviewsValid(RemoveUserRows(db, u))
  {
    var rest := RemoveUserRows(db, u);
    forall x | x in rest.reviews
      ensures rest.reviews[x].user in rest.users
    {
      assert rest.reviews[x] == db.reviews[x];
    }
  }

  /** The account that owns a package: the one whose profile runs the
      package's vendor. */
  ghost function PackageOwner(db: Db, k: Id): Id
    requires VendorsValid(db) && PackagesValid(db) && k in db.packages
  {
    db.profiles[db.vendors[db.packages[k].vendor].userProfile].user
  }

  /** Which rows the cascade through a set of profiles removes, stated on
      the store it starts from. */
  lemma DeleteProfilesRows(db: Db, doomed: set<Id>)
    ensures var r := DeleteProfiles(db, doomed);
      var vs := VendorsOfProfiles(db, doomed);
      var ks := PackagesOfVendors(db, vs);
      && r.users == db.users
      && r.profiles == db.profiles - doomed
      && r.vendors == db.vendors - vs
      && r.packages == db.packages - ks
      && r.bookings == (map b | b in db.bookings && db.bookings[b].package !in ks :: db.bookings[b])
      && r.reviews == (map x | x in db.reviews && db.reviews[x].package !in ks :: db.reviews[x])
      && r.nextUserId == db.nextUserId && r.nextProfileId == db.nextProfileId
  {
    var mid := db.(profiles := db.profiles - doomed);
    var vs := VendorsOfProfiles(db, doomed);
    assert VendorsOfProfiles(mid, doomed) == vs;
    assert PackagesOfVendors(mid, vs) == PackagesOfVendors(db, vs);
  }

  // What deleting account `u` from `db` keeps in `r`: exactly the rows not
  // tied to `u`, each unchanged.

  ghost predicate KeptAccountsProfilesVendors(db: Db, u: Id, r: Db) {
    && (forall x :: x in r.users <==> x in db.users && x != u)
    && (forall x :: x in r.users ==> r.users[x] == db.users[x])
    && (forall p :: p in r.profiles <==> p in db.profiles && db.profiles[p].user != u)
    && (forall p :: p in r.profiles ==> r.profiles[p] == db.profiles[p])
    && (forall v :: v in r.vendors <==> v in db.vendors && db.vendors[v].userProfile in db.profiles
                                         && db.profiles[db.vendors[v].userProfile].user != u)
    && (forall v :: v in r.vendors ==> r.vendors[v] == db.vendors[v])
  }

  ghost predicate KeptPackages(db: Db, u: Id, r: Db)
    requires VendorsValid(db) && PackagesValid(db)
  {
    && (forall k :: k in r.packages <==> k in db.packages && PackageOwner(db, k) != u)
    && (forall k :: k in r.packages ==> r.packages[k] == db.packages[k])
  }

  ghost predicate KeptBookings(db: Db, u: Id, r: Db)
    requires VendorsValid(db) && PackagesValid(db) && BookingsValid(db)
  {
    && (forall b :: b in r.bookings <==>
          b in db.bookings && db.bookings[b].user != u && PackageOwner(db, db.bookings[b].package) != u)
    && (forall b :: b in r.bookings ==> r.bookings[b] == db.bookings[b])
  }

  ghost predicate KeptReviews(db: Db, u: Id, r: Db)
    requires VendorsValid(db) && PackagesValid(db) && ReviewsValid(db)
  {
    && (forall x :: x in r.reviews <==>
          x in db.reviews && db.reviews[x].user != u && PackageOwner(db, db.reviews[x].package) != u)
    && (forall x :: x in r.reviews ==> r.reviews[x] == db.reviews[x])
  }

  /** Deleting an account keeps exactly the other accounts and the
      profiles and vendors that are not the account's, all unchanged. */
  lemma DeleteUserKeepsOthersProfilesAndVendors(db: Db, u: Id)
    requires Valid(db)
    ensures KeptAccountsProfilesVendors(db, u, DeleteUser(db, u))
  {
    var rest := RemoveUserRows(db, u);
    var ps := ProfilesOfUser(db, u);
    DeleteProfilesRows(rest, ps);
    var vs := VendorsOfProfiles(rest, ps);
    assert forall v :: v in db.vendors ==> (v in vs <==> db.profiles[db.vendors[v].userProfile].user == u);
  }

  /** The packages a deleted account's cascade removes are exactly those
      it owns. */
  lemma DeleteUserPackagesOwned(db: Db, u: Id)
    requires Valid(db)
    ensures var ks := PackagesOfVendors(RemoveUserRows(db, u),
                                        VendorsOfProfiles(RemoveUserRows(db, u), ProfilesOfUser(db, u)));
      forall k :: k in db.packages ==> (k in ks <==> PackageOwner(db, k) == u)
  {
    var rest := RemoveUserRows(db, u);
    var vs := VendorsOfProfiles(rest, ProfilesOfUser(db, u));
    assert forall v :: v in db.vendors ==> (v in vs <==> db.profiles[db.vendors[v].userProfile].user == u);
  }

  /** Deleting an account keeps exactly the packages it does not own,
      unchanged. */
  lemma DeleteUserKeepsOthersPackages(db: Db, u: Id)
    requires Valid(db)
    ensures KeptPackages(db, u, DeleteUser(db, u))
  {
    DeleteProfilesRows(RemoveUserRows(db, u), ProfilesOfUser(db, u));
    DeleteUserPackagesOwned(db, u);
  }

  /** Deleting an account keeps exactly the bookings that are neither its
      own nor for a package it owns, unchanged. */
  lemma DeleteUserKeepsOthersBookings(db: Db, u: Id)
    requires Valid(db)
    ensures KeptBookings(db, u, DeleteUser(db, u))
  {
    DeleteProfilesRows(RemoveUserRows(db, u), ProfilesOfUser(db, u));
    DeleteUserPackagesOwned(db, u);
  }

  /** Deleting an account keeps exactly the reviews that are neither its
      own nor for a package it owns, unchanged. */
  lemma DeleteUserKeepsOthersReviews(db: Db, u: Id)
    requires Valid(db)
    ensures KeptReviews(db, u, DeleteUser(db, u))
  {
    DeleteProfilesRows(RemoveUserRows(db, u), ProfilesOfUser(db, u));
    DeleteUserPackagesOwned(db, u);
  }

  /** Deleting an account keeps the store valid. */
  lemma DeleteUserValid(db: Db, u: Id)
    requires Valid(db)
    ensures Valid(DeleteUser(db, u))
  {
    RemoveUserRowsLeavesOnlyProfiles(db, u);
    DeleteProfilesRepairs(RemoveUserRows(db, u), ProfilesOfUser(db, u));
  }

  /** Deleting an account removes it, its profile, the vendor run through
      that profile with the vendor's packages, and every booking and review
      that belongs to the account or is for one of those packages. Every
      other row stays as it was, and the store stays valid. */
  lemma DeleteUserCascades(db: Db, u: Id)
    requires Valid(db)
    ensures Valid(DeleteUser(db, u))
    ensures KeptAccountsProfilesVendors(db, u, DeleteUser(db, u))
    ensures KeptPackages(db, u, DeleteUser(db, u))
    ensures KeptBookings(db, u, DeleteUser(db, u))
    ensures KeptReviews(db, u, DeleteUser(db, u))
  {
    DeleteUserValid(db, u);
    DeleteUserKeepsOthersProfilesAndVendors(db, u);
    DeleteUserKeepsOthersPackages(db, u);
    DeleteUserKeepsOthersBookings(db, u);
    DeleteUserKeepsOthersReviews(db, u);
  }
}
