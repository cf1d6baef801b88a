# Travel marketplace: identity, roles and the relational store

A Dafny model of the identity and role layer of a Django travel-package
marketplace. It covers:

- **Schema** (`models.dfy`, module `Models`). Accounts, profiles with a role,
  vendors, travel packages, bookings and reviews as datatypes. `Db` is a value
  with one map per table. `Valid` states the integrity the schema keeps:
  - every foreign key points at a row;
  - profile-to-account and vendor-to-profile are one-to-one;
  - usernames are unique;
  - the role and status columns hold one of their choices;
  - integer and decimal columns stay in range.

  The defaults appear as `NewBooking` (status `pending`, one traveller) and
  `NewReview` (not verified). The cascading deletes are pure functions on
  `Db`. For deleting a package, a vendor or an account, a lemma states which
  rows go, that every other row stays unchanged, and that the store stays
  valid.
- **Store** (`store.dfy`, class `Store.Database`). The database as the
  management commands and the form see it through the ORM. It has one field
  per table and one per auto-increment sequence. Its methods are the ORM
  reads and writes those callers perform (`get`, `save`, `create`,
  `get_or_create`). `Snapshot()` gives its value as a `Db`.
- **Role gate** (`decorators.dfy`, module `Decorators`). `Decide` is the
  decision `role_required` takes: redirect to login, allow, or deny.
  `RoleRequiredAsWritten` is the decorated view as the code is written.
  `RoleRequired` is its intended reading, which returns the view's own
  outcome on the allowed paths. The two differ in one case, recorded under
  "Findings".
- **Profile context** (`context_processors.dfy`). The `user_profile` entry
  the templates see.
- **`set_role` and `promote_user` commands** (`set_role.dfy`,
  `promote_user.dfy`). Each has a `Handle` method on a `Database`. The method
  is proved equal to a specification function (`SetRole`, `Promote`), and
  the properties are lemmas about that function. Both commands keep the
  store valid and are idempotent.
- **Registration form save** (`forms.dfy`). `Save` creates the account and
  exactly one profile when committing, and writes nothing otherwise.

The role column is modelled as free text, as the table stores it. Only the
writers keep it to the three choices:
- `set_role` checks the argument.
- The form's choice field validates the role.
- `promote_user` writes `admin`.

`promote_user` goes through one transiently invalid state. Its
`get_or_create` inserts a profile whose role is the column default, the
empty string, and the role becomes `admin` only at the next save.
`PromoteUserCommand.Handle` goes through that intermediate state too, and
only the state it ends in is valid.

`UserProfile` has no verification field. So the `profile.is_verified = True`
assignment at main/management/commands/promote_user.py:27 sets a plain
attribute that is never stored, and the model gives it no effect.

## Model

| member | source | states |
|---|---|---|
| `Models.ParseRole` | main/models.py:8-13 | a role value is accepted exactly when it is one of `traveler`, `vendor`, `admin`, and then it is that role's stored code |
| `Models.ParseStatus` | main/models.py:51-56 | a status value is accepted exactly when it is one of `pending`, `confirmed`, `cancelled` |
| `Models.RoleRoundTrip` | main/models.py:8-13 | parsing a role's stored code gives back the role |
| `Models.StatusRoundTrip` | main/models.py:51-56 | parsing a status's stored code gives back the status |
| `Models.NewBooking` | main/models.py:56-57 | a new booking is `pending` and has one traveller |
| `Models.NewReview` | main/models.py:71 | a new review is not verified |
| `Models.EmptyDbValid` | main/models.py:5-71 | the empty database satisfies every integrity rule of the schema |
| `Models.FindUser` | main/management/commands/set_role.py:22 | the lookup by username finds an account with that name, or reports that none has it |
| `Models.ProfileOf` | main/models.py:6 | the reverse one-to-one lookup finds a profile linked to the account, or reports that none is |
| `Models.FindUserDetermined` | main/management/commands/set_role.py:21-24 | with unique usernames the lookup finds the one account carrying the name |
| `Models.ProfileOfDetermined` | main/models.py:6 | with the one-to-one link intact the reverse lookup finds the one linked profile |
| `Models.SaveProfileKeepsOneToOne` | main/models.py:6 | rewriting a profile for the same account keeps profiles one-to-one with accounts |
| `Models.CreateProfileKeepsOneToOne` | main/models.py:6 | adding a profile for an account that has none keeps profiles one-to-one with accounts |
| `Models.AccountWriteKeepsValid` | main/management/commands/promote_user.py:22 | a write to the account table that keeps usernames unique and drops no account keeps the database valid |
| `Models.ProfileWriteKeepsValid` | main/management/commands/set_role.py:29 | a write to the profile table that keeps the profile rules and drops no profile keeps the database valid |
| `Models.SaveProfileKeepsValid` | main/management/commands/set_role.py:26-29 | rewriting a profile's role to a choice keeps the database valid |
| `Models.CreateProfileKeepsValid` | main/management/commands/set_role.py:31-33 | creating the only profile of an existing account with a chosen role keeps the database valid |
| `Models.DeletePackageExact` | main/models.py:48 | deleting a package removes exactly its bookings and reviews; all other rows stay unchanged |
| `Models.DeletePackagesValid` | main/models.py:66 | deleting packages with their bookings and reviews keeps the database valid |
| `Models.DeletePackagesRepairs` | main/models.py:31 | deleting packages restores validity when those packages were the only rows left without a vendor |
| `Models.DeleteVendorsRepairs` | main/models.py:20 | deleting vendors restores validity when those vendors were the only rows left without a profile |
| `Models.DeleteProfilesRepairs` | main/models.py:6 | deleting profiles restores validity when those profiles were the only rows left without an account |
| `Models.DeleteVendorRows` | main/models.py:31 | deleting a vendor removes it, exactly the packages that point at it, and exactly the bookings and reviews of those packages; accounts, profiles and sequences are untouched |
| `Models.DeleteVendorValid` | main/models.py:31 | deleting a vendor keeps the database valid |
| `Models.DeleteVendorCascades` | main/models.py:31 | deleting a vendor keeps accounts and profiles as they are and removes only that vendor; a package, booking or review stays exactly when it is not tied to that vendor, and each one kept is unchanged; the database stays valid |
| `Models.RemoveUserRowsLeavesOnlyProfiles` | main/models.py:47 | after an account and its own bookings and reviews are removed, only its profiles are left dangling |
| `Models.RemoveUserRowsUsers` | main/models.py:6 | removing an account row keeps the remaining usernames unique and below the sequence |
| `Models.RemoveUserRowsBookings` | main/models.py:47 | once the account's bookings are removed, every remaining booking points at a remaining account |
| `Models.RemoveUserRowsReviews` | main/models.py:65 | once the account's reviews are removed, every remaining review points at a remaining account |
| `Models.DeleteProfilesRows` | main/models.py:20 | the cascade through profiles removes exactly those profiles, the vendors run through them, those vendors' packages, and the bookings and reviews of those packages; accounts and sequences are untouched |
| `Models.DeleteUserKeepsOthersProfilesAndVendors` | main/models.py:6 | deleting an account keeps exactly the other accounts, the profiles of other accounts and the vendors run through those profiles, each unchanged |
| `Models.DeleteUserPackagesOwned` | main/models.py:20 | the packages the account's cascade removes are exactly the packages the account owns through its profile and vendor |
| `Models.DeleteUserKeepsOthersPackages` | main/models.py:31 | deleting an account keeps exactly the packages it does not own, each unchanged |
| `Models.DeleteUserKeepsOthersBookings` | main/models.py:47-48 | deleting an account keeps exactly the bookings that are neither its own nor for a package it owns, each unchanged |
| `Models.DeleteUserKeepsOthersReviews` | main/models.py:65-66 | deleting an account keeps exactly the reviews that are neither its own nor for a package it owns, each unchanged |
| `Models.DeleteUserValid` | main/models.py:6 | deleting an account keeps the database valid |
| `Models.DeleteUserCascades` | main/models.py:6 | deleting an account keeps the database valid. A row stays exactly when it is not tied to the account: the account itself, its profile, its vendor, the packages it owns, and every booking and review that is its own or for a package it owns all go. Each row kept is unchanged |
| `Store.Database.constructor` | main/models.py:5-71 | a new database is empty and valid |
| `Store.Database.GetUser` | main/management/commands/set_role.py:22 | the ORM lookup by username returns the account the lookup function names |
| `Store.Database.GetProfile` | main/management/commands/set_role.py:27 | `user.userprofile` returns the profile the reverse lookup names, or none |
| `Store.Database.SaveUser` | main/management/commands/promote_user.py:22 | saving an account rewrites its row and nothing else |
| `Store.Database.CreateUser` | main/forms.py:38 | saving a new account inserts it under the next key and advances the sequence |
| `Store.Database.SaveProfile` | main/management/commands/set_role.py:29 | saving a profile rewrites its row and nothing else |
| `Store.Database.CreateProfile` | main/management/commands/set_role.py:33 | creating a profile inserts it under the next key and advances the sequence |
| `Store.Database.GetOrCreateProfile` | main/management/commands/promote_user.py:25 | returns the existing profile unchanged, or creates one with an empty role and reports it created |
| `Decorators.Decide` | main/decorators.py:9-23 | unauthenticated means redirect, whatever else holds; otherwise allow exactly when superuser, or when the profile's role is in the allowed list; a missing profile is a denial |
| `Decorators.EmptyAllowListAdmitsOnlySuperusers` | main/decorators.py:4 | with the default empty list every authenticated non-superuser is denied |
| `Decorators.RoleRequired` | main/decorators.py:8-25 | the decorated view redirects exactly on the redirect decision, raises PermissionDenied on a denial, and on an allow returns the view's own outcome unchanged |
| `Decorators.RoleRequiredAsWritten` | main/decorators.py:17-23 | as written: a denial raises PermissionDenied and an unauthenticated request redirects to login |
| `Decorators.AsWrittenDiffersOnlyOnViewAttributeError` | main/decorators.py:17-23 | the code as written and the intended reading differ exactly on allowed non-superusers whose view raises AttributeError |
| `Decorators.AsWrittenMasksViewAttributeError` | main/decorators.py:19-23 | a concrete vendor request on which the code as written turns the view's AttributeError into PermissionDenied, while a superuser sees the AttributeError |
| `Requests.RequestProfile` | main/decorators.py:18 | the profile read from a request is linked to the requesting account; an anonymous user never has one |
| `ContextProcessors.UserProfileContext` | main/context_processors.py:3-10 | the context holds `user_profile` exactly when an authenticated user has a profile, and then it is that user's profile; an anonymous request gets an empty context; no error either way |
| `ContextProcessors.ContextHasAtMostOneEntry` | main/context_processors.py:3-10 | the context never has more than one key |
| `ContextProcessors.ContextAgreesWithGate` | main/context_processors.py:4-9 | a non-superuser the gate admits finds its allowed-role profile in the context; one with an empty context is denied by the gate |
| `SetRoleCommand.Handle` | main/management/commands/set_role.py:14-36 | the command's result and the database it leaves are those of `SetRole`, and the database stays valid |
| `SetRoleCommand.InvalidRoleRefusedFirst` | main/management/commands/set_role.py:18-19 | a role outside the choices is refused before the username is looked up, and nothing changes |
| `SetRoleCommand.UnknownUserRefused` | main/management/commands/set_role.py:21-24 | an unknown username is refused and nothing changes |
| `SetRoleCommand.SetRoleValid` | main/management/commands/set_role.py:26-34 | the command keeps the database valid |
| `SetRoleCommand.SetRoleUpdatesExisting` | main/management/commands/set_role.py:26-30 | an existing profile gets the new role; no other row changes; the result is "updated" |
| `SetRoleCommand.SetRoleCreatesMissing` | main/management/commands/set_role.py:31-34 | for an account with no profile, exactly one profile is created under an unused key, carrying the role; the result is "created" |
| `SetRoleCommand.SetRoleAssigns` | main/management/commands/set_role.py:26-34 | after success the account's profile carries exactly the requested role |
| `SetRoleCommand.SetRoleIdempotent` | main/management/commands/set_role.py:26-34 | a second run leaves the same database, and after a success it reports "updated" |
| `SetRoleCommand.SetRoleDecidesGate` | main/management/commands/set_role.py:26-34 | after a successful run, a non-superuser account passes exactly the gates whose allowed roles include the assigned role |
| `PromoteUserCommand.Handle` | main/management/commands/promote_user.py:11-33 | the command's report and the database it leaves are those of `Promote`, and the database stays valid |
| `PromoteUserCommand.UnknownUserUnchanged` | main/management/commands/promote_user.py:13-17 | an unknown username is reported and nothing changes |
| `PromoteUserCommand.FlagUserKeepsUniqueUsernames` | main/management/commands/promote_user.py:20-22 | setting the flags keeps usernames unique |
| `PromoteUserCommand.FlagUserKeepsValid` | main/management/commands/promote_user.py:20-22 | setting the flags keeps the database valid |
| `PromoteUserCommand.PromoteValid` | main/management/commands/promote_user.py:11-28 | the command keeps the database valid |
| `PromoteUserCommand.PromoteUpdatesExisting` | main/management/commands/promote_user.py:20-28 | for an account with a profile: both flags set, that profile's role becomes `admin`, nothing else changes, and the report is "updated" |
| `PromoteUserCommand.PromoteCreatesMissing` | main/management/commands/promote_user.py:20-28 | for an account without a profile: both flags set, exactly one admin profile is added under an unused key, and the report is "created" |
| `PromoteUserCommand.PromoteGrants` | main/management/commands/promote_user.py:14-28 | the account ends up superuser and staff with one admin profile; no other account and no other user's profile changes |
| `PromoteUserCommand.PromoteLeavesAdminProfile` | main/management/commands/promote_user.py:25-28 | after promotion, lookups still find one row each and the account's profile is the admin profile |
| `PromoteUserCommand.PromoteAgainIsNoOp` | main/management/commands/promote_user.py:25-33 | promoting an already promoted account changes nothing and reports "updated" |
| `PromoteUserCommand.PromoteIdempotent` | main/management/commands/promote_user.py:25-33 | promoting twice gives the same database as promoting once, and the second run reports "updated" |
| `PromoteUserCommand.PromotedUserPassesEveryGate` | main/management/commands/promote_user.py:20-21 | a promoted account passes every role gate, including one with the empty list |
| `Forms.Save` | main/forms.py:35-41 | the save's result and the database it leaves are those of `Register`, and the database stays valid |
| `Forms.CreateUserKeepsValid` | main/forms.py:38 | inserting an account with an unused username under the next key keeps the database valid |
| `Forms.CommitKeepsValid` | main/forms.py:37-40 | writing a valid form's account and then its profile keeps the database valid |
| `Forms.RegisterValid` | main/forms.py:35-41 | saving keeps the database valid, so a registered profile's role is always one of the choices |
| `Forms.InvalidFormRefused` | main/forms.py:36 | a form that did not validate is refused and nothing is written |
| `Forms.NoCommitWritesNothing` | main/forms.py:36-41 | without commit, no row is written and the returned account has no key |
| `Forms.CommitCreatesAccountAndOneProfile` | main/forms.py:37-40 | with commit, the account is written under a fresh key and exactly one profile is created, linked to it with the submitted role; no other row changes |
| `Forms.BothBranchesReturnSameAccount` | main/forms.py:41 | both branches return the same account, built from the form |
| `Forms.RegisteredUserPassesGateForOwnRole` | main/forms.py:29 | a newly registered user passes every gate that allows the role chosen on the form |

## Left out

- Console output. The commands' messages are reduced to the outcome they
  report: `SetRoleSuccess`/`SetRoleError` and `PromoteReport`.
- `set_role`'s last `except Exception` branch. It wraps database failures,
  and the model's writes cannot fail.
- Passwords, password hashing and Django's username and password
  validators. `Forms.FormIsValid` checks only the two rules the store
  depends on: the username is free and the role is a choice.
- Validation at save time. `Forms.Save` checks the form when it saves. The
  framework checks when `is_valid` runs, so a username registered by another
  request in between is not modelled.
- The role field's initial choice, `traveler`. It only decides what the form
  shows before the user picks a role; the save works from the submitted value.
- Clocks. `created_at`, `updated_at` and `booking_date` are filled in by the
  database.
- The package `itinerary` JSON column, the vendor's `website` URL format,
  and the names and descriptions beyond being strings.
- Decimal arithmetic. Prices are kept as hundredths, and only their column
  range is modelled.
- Concurrency and transactions. Each operation is modelled as one atomic step.
- `role_required` called with a string instead of a list. Python's `in`
  would then test for a substring. The model takes `allowed_roles` as a list.
- Positional and keyword arguments a view receives besides the request.
- Routes, admin registration, views, filters, the data-seeding commands and
  `clear_packages`. Deleting all packages is `Models.DeletePackages` applied
  to every package key.
- Creation and editing of vendors, packages, bookings and reviews. The
  modelled code only declares them, and the model states their defaults and
  their deletion.

## Findings

| source | as written | input that shows it | evidently intended | confidence | as-written member | corrected member |
|---|---|---|---|---|---|---|
| main/decorators.py:17-23 | the view is called inside the `try` whose `except AttributeError` is meant for a missing profile | a non-superuser whose role is allowed calls a view that raises AttributeError: the caller gets PermissionDenied (403), while a superuser calling the same view sees the AttributeError | only the profile lookup is guarded, and the view's own outcome is passed back unchanged on every allowed path | medium, not executed | `Decorators.AsWrittenMasksViewAttributeError` | `Decorators.RoleRequired` |
