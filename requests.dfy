/** What the access gate and the template context read from an incoming
    request: who the user is, and that user's profile in the database. */
module Requests {
  import opened Wrappers
  import opened Models

  /** `request.user`: the anonymous user, or an account loaded by the
      authentication middleware together with its primary key. */
  datatype RequestUser = AnonymousUser | AuthenticatedUser(id: Id, account: Account)

  /** Arguments a view receives besides the user are not modelled. */
  datatype Request = Request(user: RequestUser)

  predicate IsAuthenticated(request: Request) {
    request.user.AuthenticatedUser?
  }

  /** `request.user.is_superuser`; the anonymous user is never a superuser. */
  predicate IsSuperuser(request: Request) {
    request.user.AuthenticatedUser? && request.user.account.isSuperuser
  }

  /** `request.user.userprofile`: the key of the profile linked to the
      requesting account, or None when the user is anonymous or has none. */
  ghost function RequestProfile(db: Db, request: Request): (r: Option<Id>)
    ensures r.Some? ==> IsAuthenticated(request) && r.value in db.profiles
                        && db.profiles[r.value].user == request.user.id
    ensures IsAuthenticated(request) && r.None? ==>
              forall p :: p in db.profiles ==> db.profiles[p].user != request.user.id
  {
    match request.user
    case AnonymousUser => None
    case AuthenticatedUser(id, _) => ProfileOf(db.profiles, id)
  }
}
