/** Authentication and the role check (cmd/httpd/middleware.go). */
module Middleware {
  import opened Wrappers

  /** Go's `uint8`. */
  newtype Role = r: int | 0 <= r < 256

  const Viewer: Role := 1
  const Writer: Role := 2
  const Admin: Role := 3

  datatype User = User(login: string, role: Role)

  /** User{}: empty login, the zero Role. */
  const ZeroUser := User("", 0)

  datatype LoginError = ErrBadLogin

  /** LoginUser, the fixed credential table: Go returns a User and an error;
      the pair holds both. */
  function LoginUser(login: string, passwd: string): (r: (User, Option<LoginError>))
    ensures r.1.None? <==> (login == "Bond" && passwd == "007") || (login == "Q" && passwd == "s3cr3t")
    ensures r.1.None? ==> r.0.login == login && (r.0.role == Writer || r.0.role == Viewer)
    ensures r.1.Some? ==> r == (ZeroUser, Some(ErrBadLogin))
  {
    match login
    case "Bond" =>
      if passwd == "007" then (User(login, Writer), None) else (ZeroUser, Some(ErrBadLogin))
    case "Q" =>
      if passwd == "s3cr3t" then (User(login, Viewer), None) else (ZeroUser, Some(ErrBadLogin))
    case _ => (ZeroUser, Some(ErrBadLogin))
  }

  lemma LoginVectors()
    ensures LoginUser("Bond", "007") == (User("Bond", Writer), None)
    ensures LoginUser("Q", "s3cr3t") == (User("Q", Viewer), None)
    ensures LoginUser("Bond", "s3cr3t") == (ZeroUser, Some(ErrBadLogin))
    ensures LoginUser("Q", "007") == (ZeroUser, Some(ErrBadLogin))
  {
  }

  /** No credential logs in as Admin, or with the zero Role. */
  lemma LoginNeverAdmin(login: string, passwd: string)
    requires LoginUser(login, passwd).1.None?
    ensures LoginUser(login, passwd).0.role != Admin
    ensures LoginUser(login, passwd).0.role != 0
  {
  }

  /** HasRole: the user's role is literally one of roles; there is no
      hierarchy between roles. */
  method HasRole(u: User, roles: seq<Role>) returns (has: bool)
    ensures has <==> u.role in roles
  {
    for i := 0 to |roles|
      invariant forall j :: 0 <= j < i ==> roles[j] != u.role
    {
      if u.role == roles[i] {
        return true;
      }
    }
    return false;
  }

  /** An Admin is not a Writer, and an empty role list admits nobody. */
  method HasRoleExamples(u: User) returns (adminWrites: bool, anyOfNone: bool)
    ensures !adminWrites && !anyOfNone
  {
    adminWrites := HasRole(User(u.login, Admin), [Writer]);
    anyOfNone := HasRole(u, []);
  }

  datatype Values = Values(requestID: string, user: User)

  datatype Gate =
    | Forbidden(message: string)  // 403, and the wrapped handler is not called
    | Serve(values: Values)       // the wrapped handler runs with these values

  /** The decision inside topMiddleware. auth is r.BasicAuth(): the login
      and password when the request carries them. */
  method TopMiddleware(requestID: string, auth: Option<(string, string)>) returns (gate: Gate)
    ensures auth.None? ==> gate == Serve(Values(requestID, ZeroUser))
    ensures auth.Some? && LoginUser(auth.value.0, auth.value.1).1.Some? ==>
      gate == Forbidden("bad login (" + requestID + ")")
    ensures auth.Some? && LoginUser(auth.value.0, auth.value.1).1.None? ==>
      gate == Serve(Values(requestID, LoginUser(auth.value.0, auth.value.1).0))
    ensures gate.Serve? ==> gate.values.user.role != Admin
  {
    var v := Values(requestID, ZeroUser);
    if auth.Some? {
      var (login, passwd) := auth.value;
      var (user, err) := LoginUser(login, passwd);
      if err.Some? {
        return Forbidden("bad login (" + requestID + ")");
      }
      v := v.(user := user);
    }
    return Serve(v);
  }
}
