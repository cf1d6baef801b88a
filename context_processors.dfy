/** The template context processor that exposes the requesting user's
    profile to every template under the key `user_profile`. */
module ContextProcessors {
  import opened Wrappers
  import opened Models
  import opened Requests
  import opened Decorators

  const ProfileKey: string := "user_profile"

  /** `user_profile_context`: the profile of an authenticated user that has
      one, and an empty context in every other case, never an error. */
  ghost function UserProfileContext(db: Db, request: Request): (ctx: map<string, UserProfile>)
    ensures ctx.Keys <= {ProfileKey}
    ensures ProfileKey in ctx <==> RequestProfile(db, request).Some?
    ensures ProfileKey in ctx ==>
      IsAuthenticated(request) && ctx[ProfileKey].user == request.user.id &&
      exists p :: p in db.profiles && db.profiles[p] == ctx[ProfileKey]
    ensures !IsAuthenticated(request) ==> ctx == map[]
  {
    if IsAuthenticated(request) then
      match RequestProfile(db, request)
      case Some(p) => map[ProfileKey := db.profiles[p]]
      case None => map[]
    else
      map[]
  }

  /** The context never has more than one entry. */
  lemma ContextHasAtMostOneEntry(db: Db, request: Request)
    ensures |UserProfileContext(db, request)| <= 1
  {
    var ctx := UserProfileContext(db, request);
    if ProfileKey in ctx {
      assert ctx.Keys == {ProfileKey};
    } else {
      assert ctx.Keys == {};
    }
  }

  /** A non-superuser the role gate lets through always finds its profile,
      with an allowed role, in the context; one whose context is empty is
      always refused by the gate. */
  lemma ContextAgreesWithGate(db: Db, request: Request, allowedRoles: seq<string>)
    requires IsAuthenticated(request) && !IsSuperuser(request)
    ensures var ctx := UserProfileContext(db, request);
      && (DecideRequest(db, request, allowedRoles) == Allow ==>
            ProfileKey in ctx && ctx[ProfileKey].role in allowedRoles)
      && (ctx == map[] ==> DecideRequest(db, request, allowedRoles) == Deny)
  {
    var ctx := UserProfileContext(db, request);
    if ctx == map[] {
      assert ProfileKey !in ctx;
    }
  }
}
