/** The registration form: an account-creation form with an extra role
    choice, whose save creates the account and its profile together. */
module Forms {
  import opened Wrappers
  import opened Models
  import opened Store
  import opened Requests
  import opened Decorators

  /** The submitted data the save works from. Passwords are not modelled. */
  datatype RegistrationForm = RegistrationForm(username: string, role: string)

  /** Saving a form that did not validate raises ValueError. */
  datatype FormError = InvalidForm

  /** The account object the save returns, and its primary key, which stays
      None while the account has not been written. */
  datatype SavedUser = SavedUser(pk: Option<Id>, account: Account)

  datatype RegisterRun = RegisterRun(result: Result<SavedUser, FormError>, db: Db)

  /** The form validates when the username is not taken and the role
      field holds one of the role choices. */
  ghost predicate FormIsValid(db: Db, form: RegistrationForm) {
    FindUser(db.users, form.username).None? && ParseRole(form.role).Some?
  }

  /** What `save(commit)` returns and the database it leaves. */
  ghost function Register(db: Db, form: RegistrationForm, commit: bool): RegisterRun {
    if !FormIsValid(db, form) then
      RegisterRun(Failure(InvalidForm), db)
    else if !commit then
      RegisterRun(Success(SavedUser(None, NewAccount(form.username))), db)
    else
      var u := db.nextUserId;
      var withUser := db.(users := db.users[u := NewAccount(form.username)], nextUserId := u + 1);
      RegisterRun(Success(SavedUser(Some(u), NewAccount(form.username))),
                  withUser.(profiles := withUser.profiles[withUser.nextProfileId := UserProfile(u, form.role)],
                            nextProfileId := withUser.nextProfileId + 1))
  }

  /** `CustomUserCreationForm.save`: build the account without writing it;
      when committing, write it and then create its profile with the
      submitted role; return the account either way. */
  method Save(store: Database, form: RegistrationForm, commit: bool) returns (result: Result<SavedUser, FormError>)
    requires store.Valid()
    modifies store
    ensures RegisterRun(result, store.Snapshot()) == Register(old(store.Snapshot()), form, commit)
    ensures store.Valid()
  {
    RegisterValid(store.Snapshot(), form, commit);
    var taken := store.GetUser(form.username);
    if taken.Some? || ParseRole(form.role).None? {
      return Failure(InvalidForm);
    }
    var user := NewAccount(form.username);
    if commit {
      var id := store.CreateUser(user);
      var _ := store.CreateProfile(UserProfile(id, form.role));
      result := Success(SavedUser(Some(id), user));
    } else {
      result := Success(SavedUser(None, user));
    }
  }

  /** Inserting an account under the next key, with a username no account
      has, keeps the database valid. */
  lemma CreateUserKeepsValid(db: Db, account: Account)
    requires Valid(db)
    requires FindUser(db.users, account.username).None?
    ensures Valid(db.(users := db.users[db.nextUserId := account], nextUserId := db.nextUserId + 1))
  {
    var r := db.(users := db.users[db.nextUserId := account], nextUserId := db.nextUserId + 1);
    assert UsersValid(r) by {
      assert db.nextUserId !in db.users;
      forall x, y | x in r.users && y in r.users && r.users[x].username == r.users[y].username
        ensures x == y
      {
        if x != db.nextUserId && y != db.nextUserId {
          assert r.users[x] == db.users[x] && r.users[y] == db.users[y];
        }
      }
    }
    AccountWriteKeepsValid(db, r);
  }

  /** Writing a valid form's account and its profile keeps the database valid. */
  lemma CommitKeepsValid(db: Db, username: string, role: string)
    requires Valid(db)
    requires FindUser(db.users, username).None? && role in RoleChoices
    ensures var withUser := db.(users := db.users[db.nextUserId := NewAccount(username)],
                                nextUserId := db.nextUserId + 1);
      Valid(withUser.(profiles := withUser.profiles[withUser.nextProfileId := UserProfile(db.nextUserId, role)],
                      nextProfileId := withUser.nextProfileId + 1))
  {
    var u := db.nextUserId;
    var withUser := db.(users := db.users[u := NewAccount(username)], nextUserId := u + 1);
    CreateUserKeepsValid(db, NewAccount(username));
    assert ProfileOf(withUser.profiles, u).None? by {
      assert u !in db.users;
    }
    CreateProfileKeepsValid(withUser, UserProfile(u, role));
  }

  /** Saving keeps the database valid. */
  lemma RegisterValid(db: Db, form: RegistrationForm, commit: bool)
    requires Valid(db)
    ensures Valid(Register(db, form, commit).db)
  {
    if FormIsValid(db, form) && commit {
      CommitKeepsValid(db, form.username, form.role);
    }
  }

  /** A form that does not validate is refused and nothing is written. */
  lemma InvalidFormRefused(db: Db, form: RegistrationForm, commit: bool)
    requires !FormIsValid(db, form)
    ensures Register(db, form, commit) == RegisterRun(Failure(InvalidForm), db)
  {
  }

  /** Without commit, nothing is written and the account has no key. */
  lemma NoCommitWritesNothing(db: Db, form: RegistrationForm)
    ensures Register(db, form, false).db == db
    ensures Register(db, form, false).result.Success? ==> Register(db, form, false).result.value.pk.None?
  {
  }

  /** With commit, the account is written under a fresh key and exactly one
      profile, linked to it and carrying the submitted role, is created;
      no other row changes. */
  lemma CommitCreatesAccountAndOneProfile(db: Db, form: RegistrationForm)
    requires Valid(db) && FormIsValid(db, form)
    ensures var run := Register(db, form, true);
      && run.result.Success? && run.result.value.pk == Some(db.nextUserId)
      && db.nextUserId !in db.users
      && run.db.users == db.users[db.nextUserId := NewAccount(form.username)]
      && FindUser(run.db.users, form.username) == Some(db.nextUserId)
      && db.nextProfileId !in db.profiles
      && run.db.profiles == db.profiles[db.nextProfileId := UserProfile(db.nextUserId, form.role)]
      && ProfileOf(run.db.profiles, db.nextUserId) == Some(db.nextProfileId)
      && run.db.vendors == db.vendors && run.db.packages == db.packages
      && run.db.bookings == db.bookings && run.db.reviews == db.reviews
  {
    RegisterValid(db, form, true);
    var run := Register(db, form, true);
    FindUserDetermined(run.db.users, form.username, db.nextUserId);
    ProfileOfDetermined(run.db.profiles, db.nextUserId, db.nextProfileId);
  }

  /** Both branches hand back the same account, built from the form. */
  lemma BothBranchesReturnSameAccount(db: Db, form: RegistrationForm)
    requires FormIsValid(db, form)
    ensures Register(db, form, true).result.Success? && Register(db, form, false).result.Success?
    ensures Register(db, form, true).result.value.account == Register(db, form, false).result.value.account
                                                     == NewAccount(form.username)
  {
  }

  /** A newly registered user passes every role gate that allows the role
      chosen at registration. */
  lemma RegisteredUserPassesGateForOwnRole(db: Db, form: RegistrationForm, allowedRoles: seq<string>)
    requires Valid(db) && FormIsValid(db, form)
    requires form.role in allowedRoles
    ensures var run := Register(db, form, true);
      DecideRequest(run.db, Request(AuthenticatedUser(run.result.value.pk.value, run.result.value.account)),
                    allowedRoles) == Allow
  {
    CommitCreatesAccountAndOneProfile(db, form);
  }
}
