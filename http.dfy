/** The request and response shapes shared by the middleware and route
    handlers (an Express request, and the `res.status(..).json({...})` bodies). */
module Http {
  import opened Common
  import opened UserService

  /** A middleware's answer: status, message and, for a refused permission or
      role, the caller's roles and resolved permissions. */
  datatype Halt = Halt(
    status: int,
    message: string,
    userRoles: Option<seq<string>>,
    userPermissions: Option<seq<string>>)

  /** What a middleware does with a request: call `next()` or answer it. */
  datatype Decision = Next | Stop(halt: Halt)

  /** A JSON response `{ success, message, data }` with its status code; the
      optional role fields are the extra members of a gate's 403 body. */
  datatype Response<D> = Response(
    status: int,
    success: bool,
    message: string,
    data: Option<D>,
    userRoles: Option<seq<string>>,
    userPermissions: Option<seq<string>>)

  function Failure<D>(status: int, message: string): Response<D> {
    Response(status, false, message, None, None, None)
  }

  function Success<D>(status: int, message: string, data: D): Response<D> {
    Response(status, true, message, Some(data), None, None)
  }

  function Refusal<D>(h: Halt): Response<D> {
    Response(h.status, false, h.message, None, h.userRoles, h.userPermissions)
  }

  /** The part of an Express request the core reads and writes. */
  class Request {
    /** The `Authorization` header, if sent. */
    var authorization: Option<string>
    /** `req.user`, set by the authenticator. */
    var user: Option<PublicUser>

    constructor (authorization: Option<string>)
      ensures this.authorization == authorization && user == None
    {
      this.authorization := authorization;
      user := None;
    }
  }
}
