/** The `role_required` view decorator: anonymous users are sent to the
    login page, superusers pass, and everyone else passes only when their
    profile's role is one of the roles the route allows. */
module Decorators {
  import opened Wrappers
  import opened Models
  import opened Requests

  /** The three ways the gate can end. */
  datatype Decision = RedirectToLogin | Allow | Deny

  /** The gate's decision, from what it reads off the request: whether the
      user is authenticated, whether it is a superuser, the role of its
      profile if it has one, and the roles the route allows. */
  function Decide(isAuthenticated: bool, isSuperuser: bool, role: Option<string>,
                  allowedRoles: seq<string>): (d: Decision)
    ensures d == RedirectToLogin <==> !isAuthenticated
    ensures d == Allow <==> isAuthenticated && (isSuperuser || (role.Some? && role.value in allowedRoles))
  {
    if !isAuthenticated then RedirectToLogin
    else if isSuperuser then Allow
    else match role
      case Some(r) => if r in allowedRoles then Allow else Deny
      case None => Deny
  }

  /** With the default, empty list of allowed roles, only superusers pass. */
  lemma EmptyAllowListAdmitsOnlySuperusers(isSuperuser: bool, role: Option<string>)
    ensures Decide(true, isSuperuser, role, []) == (if isSuperuser then Allow else Deny)
  {
  }

  /** The gate's decision for a request, looking the profile up in the database. */
  ghost function DecideRequest(db: Db, request: Request, allowedRoles: seq<string>): Decision {
    var profile := RequestProfile(db, request);
    Decide(IsAuthenticated(request), IsSuperuser(request),
           if profile.Some? then Some(db.profiles[profile.value].role) else None,
           allowedRoles)
  }

  /** Exceptions a view can raise, as far as the gate tells them apart. */
  datatype Exception = AttributeError | PermissionDenied | OtherException(name: string)

  /** A call either returns a value or raises. */
  datatype Outcome<T> = Returned(value: T) | Raised(exception: Exception)

  /** A response is a redirect to a named route or whatever the view produced. */
  datatype Reply<R> = RedirectTo(urlName: string) | ViewReply(response: R)

  /** What the gate passes back when it calls the view: the view's
      response, or the view's exception propagating unchanged. */
  function Through<R>(o: Outcome<R>): (r: Outcome<Reply<R>>)
    ensures r.Raised? <==> o.Raised?
    ensures o.Raised? ==> r.exception == o.exception
    ensures o.Returned? ==> r.value == ViewReply(o.value)
  {
    match o
    case Returned(v) => Returned(ViewReply(v))
    case Raised(e) => Raised(e)
  }

  /** The decorated view exactly as written: the call of the view sits
      inside the same `try` whose `except AttributeError` was meant for a
      missing profile, so an AttributeError raised by the view itself is
      turned into PermissionDenied, but only for non-superusers. */
  ghost function RoleRequiredAsWritten<R>(allowedRoles: seq<string>, view: Request -> Outcome<R>,
                                          db: Db, request: Request): (o: Outcome<Reply<R>>)
    ensures DecideRequest(db, request, allowedRoles) == Deny ==> o == Raised(PermissionDenied)
    ensures DecideRequest(db, request, allowedRoles) == RedirectToLogin ==> o == Returned(RedirectTo("login"))
  {
    if !IsAuthenticated(request) then Returned(RedirectTo("login"))
    else if IsSuperuser(request) then Through(view(request))
    else
      match RequestProfile(db, request)
      case None => Raised(PermissionDenied)
      case Some(p) =>
        if db.profiles[p].role in allowedRoles then
          match view(request)
          case Raised(AttributeError) => Raised(PermissionDenied)
          case other => Through(other)
        else Raised(PermissionDenied)
  }

  /** The decorated view as evidently intended: only the profile lookup is
      guarded, and on the allowed paths the view's outcome, return value or
      exception, is passed back unchanged. */
  ghost function RoleRequired<R>(allowedRoles: seq<string>, view: Request -> Outcome<R>,
                                 db: Db, request: Request): (o: Outcome<Reply<R>>)
    ensures DecideRequest(db, request, allowedRoles) == RedirectToLogin <==> o == Returned(RedirectTo("login"))
    ensures DecideRequest(db, request, allowedRoles) == Allow ==> o == Through(view(request))
    ensures DecideRequest(db, request, allowedRoles) == Deny ==> o == Raised(PermissionDenied)
  {
    if !IsAuthenticated(request) then Returned(RedirectTo("login"))
    else if IsSuperuser(request) then Through(view(request))
    else
      var role := match RequestProfile(db, request)
                  case None => None
                  case Some(p) => Some(db.profiles[p].role);
      if role.Some? && role.value in allowedRoles then Through(view(request))
      else Raised(PermissionDenied)
  }

  /** The two readings agree on every request except one: a non-superuser
      who passes the role check and whose view raises AttributeError. */
  lemma AsWrittenDiffersOnlyOnViewAttributeError<R>(allowedRoles: seq<string>, view: Request -> Outcome<R>,
                                                    db: Db, request: Request)
    ensures RoleRequiredAsWritten(allowedRoles, view, db, request) != RoleRequired(allowedRoles, view, db, request)
        <==> (DecideRequest(db, request, allowedRoles) == Allow && !IsSuperuser(request)
              && view(request) == Raised(AttributeError))
  {
    if IsAuthenticated(request) && !IsSuperuser(request) {
      match RequestProfile(db, request)
      case None =>
      case Some(p) =>
        if db.profiles[p].role in allowedRoles {
          assert DecideRequest(db, request, allowedRoles) == Allow;
        }
    }
  }

  /** A vendor-only route whose view raises AttributeError: the vendor, who
      passes the role check, gets PermissionDenied from the code as written,
      while a superuser calling the same view sees the AttributeError. */
  lemma AsWrittenMasksViewAttributeError()
    ensures var db := EmptyDb().(
                        users := map[0 := Account("v", false, false), 1 := Account("root", true, true)],
                        profiles := map[0 := UserProfile(0, "vendor")],
                        nextUserId := 2, nextProfileId := 1);
            var view: Request -> Outcome<string> := (r: Request) => Raised(AttributeError);
            var vendor := Request(AuthenticatedUser(0, Account("v", false, false)));
            var root := Request(AuthenticatedUser(1, Account("root", true, true)));
            && Valid(db)
            && DecideRequest(db, vendor, ["vendor"]) == Allow
            && RoleRequiredAsWritten(["vendor"], view, db, vendor) == Raised(PermissionDenied)
            && RoleRequired(["vendor"], view, db, vendor) == Raised(AttributeError)
            && RoleRequiredAsWritten(["vendor"], view, db, root) == Raised(AttributeError)
  {
    var db := EmptyDb().(
                users := map[0 := Account("v", false, false), 1 := Account("root", true, true)],
                profiles := map[0 := UserProfile(0, "vendor")],
                nextUserId := 2, nextProfileId := 1);
    ProfileOfDetermined(db.profiles, 0, 0);
    assert UniqueUsernames(db.users) by {
      assert db.users[0].username != db.users[1].username;
    }
  }
}
