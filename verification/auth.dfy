/**
 * The session: `authService`, which keeps the bearer token in the browser's
 * `localStorage['token']`, and `AuthProvider`, which keeps the signed-in
 * user and whether the first session check is still running.
 *
 * Every awaited call is a parameter: the method receives what the server
 * answered (or why the call was rejected) and records the request it
 * issued in `requests`.
 */
module Auth {
  import opened Optional
  import opened Remote
  import opened Content

  datatype LoginData = LoginData(email: string, password: string)
  datatype RegisterData = RegisterData(name: string, email: string, password: string)

  /** The `data` member of a login or register answer. */
  datatype AuthData = AuthData(user: User, token: string)

  /** Body of a login or register answer; `data` may be missing when `success` is false. */
  datatype AuthResponse = AuthResponse(success: bool, data: Option<AuthData>)

  /** Body of a `/auth/me` answer; `data` is `None` when the body has no `data` member. */
  datatype MeResponse = MeResponse(success: bool, data: Option<User>)

  /** The calls the session code issues. */
  datatype AuthRequest =
    | PostLogin(login: LoginData)
    | PostRegister(registration: RegisterData)
    | AskMe(authorization: string)

  /** The `Authorization` header: the template literal prints an absent token as `null`. */
  function BearerHeader(token: Option<string>): (h: string)
    ensures |h| >= 7 && h[..7] == "Bearer "
    ensures token.Some? ==> h[7..] == token.value
    ensures token.None? ==> h[7..] == "null"
  {
    "Bearer " + match token case Some(t) => t case None => "null"
  }

  /** The token can be read back from the header it produced. */
  lemma BearerHeaderInjective(a: string, b: string)
    requires BearerHeader(Some(a)) == BearerHeader(Some(b))
    ensures a == b
  {
    assert a == BearerHeader(Some(a))[7..];
  }

  /** With no token stored, the header is the one a stored string `"null"` would give. */
  lemma MissingTokenReadsAsNull()
    ensures BearerHeader(None) == BearerHeader(Some("null"))
  {
  }

  /**
   * What `authService.login` and `register` hand back for a given answer:
   * a rejected call stays rejected; a successful body without `data` throws
   * while its token is read; any other body is returned as it came.
   */
  function ServiceResult(answer: Outcome<AuthResponse>): (r: Outcome<AuthResponse>)
    ensures r.Ok? ==> r == answer
    ensures answer.Err? ==> r == answer
    ensures r.Err? && answer.Ok? ==> answer.value.success && answer.value.data.None? && r.failure == TypeError
    ensures answer.Ok? && answer.value.success && answer.value.data.None? ==> r == Err(TypeError)
  {
    match answer
    case Err(f) => Err(f)
    case Ok(body) => if body.success && body.data.None? then Err(TypeError) else Ok(body)
  }

  /**
   * The stored token after `login` or `register`: written only when the
   * answer says `success` and carries `data`; a `success` body without
   * `data` throws before the write, so the token stays.
   */
  function TokenAfter(stored: Option<string>, answer: Outcome<AuthResponse>): (t: Option<string>)
    ensures t != stored ==> answer.Ok? && answer.value.success
    ensures answer.Ok? && answer.value.success && answer.value.data.Some? ==> t == Some(answer.value.data.value.token)
    ensures !(answer.Ok? && answer.value.success && answer.value.data.Some?) ==> t == stored
  {
    match answer
    case Ok(AuthResponse(true, Some(d))) => Some(d.token)
    case _ => stored
  }

  /** The user a resolved `login`/`register` hands to the provider: `response.data.user`. */
  function UserOf(result: Outcome<AuthResponse>): (r: Outcome<User>)
    ensures r.Ok? <==> result.Ok? && result.value.data.Some?
    ensures r.Ok? ==> r.value == result.value.data.value.user
    ensures result.Err? ==> r == Err(result.failure)
  {
    match result
    case Err(f) => Err(f)
    case Ok(body) => if body.data.Some? then Ok(body.data.value.user) else Err(TypeError)
  }

  /**
   * Login as a whole: the provider signs a user in exactly when the answer
   * carries `data`, even one that says `success: false` (whose token is not
   * stored); a successful answer signs in its user and stores its token; a
   * rejected call changes neither.
   */
  lemma LoginUserAndToken(stored: Option<string>, answer: Outcome<AuthResponse>)
    ensures UserOf(ServiceResult(answer)).Ok? <==> answer.Ok? && answer.value.data.Some?
    ensures answer.Ok? && answer.value.success && answer.value.data.Some? ==>
      UserOf(ServiceResult(answer)) == Ok(answer.value.data.value.user)
      && TokenAfter(stored, answer) == Some(answer.value.data.value.token)
    ensures answer.Err? ==> UserOf(ServiceResult(answer)) == Err(answer.failure) && TokenAfter(stored, answer) == stored
  {
  }

  /** `authService`: the token kept in `localStorage['token']` and the calls issued. */
  class AuthService {
    var token: Option<string>
    var requests: seq<AuthRequest>

    /** The service over whatever `localStorage` already holds. */
    constructor (stored: Option<string>)
      ensures token == stored && requests == []
    {
      token := stored;
      requests := [];
    }

    /** `authService.login`: post the credentials; store the answer's token when it says `success`. */
    method Login(data: LoginData, answer: Outcome<AuthResponse>) returns (r: Outcome<AuthResponse>)
      modifies this
      ensures requests == old(requests) + [PostLogin(data)]
      ensures token == TokenAfter(old(token), answer)
      ensures r == ServiceResult(answer)
    {
      requests := requests + [PostLogin(data)];
      r := Store(answer);
    }

    /** `authService.register`: the same as `Login` for a new account. */
    method Register(data: RegisterData, answer: Outcome<AuthResponse>) returns (r: Outcome<AuthResponse>)
      modifies this
      ensures requests == old(requests) + [PostRegister(data)]
      ensures token == TokenAfter(old(token), answer)
      ensures r == ServiceResult(answer)
    {
      requests := requests + [PostRegister(data)];
      r := Store(answer);
    }

    /** The part `login` and `register` share, after the awaited post. */
    method Store(answer: Outcome<AuthResponse>) returns (r: Outcome<AuthResponse>)
      modifies this`token
      ensures token == TokenAfter(old(token), answer)
      ensures r == ServiceResult(answer)
    {
      match answer {
        case Err(f) =>
          r := Err(f);
        case Ok(body) =>
          if body.success {
            match body.data {
              case None =>
                r := Err(TypeError);
              case Some(d) =>
                token := Some(d.token);
                r := Ok(body);
            }
          } else {
            r := Ok(body);
          }
      }
    }

    /** `authService.getMe`: ask who the token belongs to, with the token read at call time. */
    method GetMe(answer: Outcome<MeResponse>) returns (r: Outcome<MeResponse>)
      modifies this`requests
      ensures requests == old(requests) + [AskMe(BearerHeader(token))]
      ensures r == answer
    {
      requests := requests + [AskMe(BearerHeader(token))];
      r := answer;
    }

    /** `authService.logout`: forget the token. */
    method Logout()
      modifies this`token
      ensures token == None
    {
      token := None;
    }

    /** `authService.getToken`. */
    method GetToken() returns (t: Option<string>)
      ensures t == token
    {
      t := token;
    }
  }

  /** The user the session probe reports: `response.data.user`, or the error that stops `checkAuth`'s `try`. */
  function ProbeUser(probe: Outcome<MeResponse>): (r: Outcome<User>)
    ensures r.Ok? <==> probe.Ok? && probe.value.data.Some?
    ensures r.Ok? ==> r.value == probe.value.data.value
    ensures probe.Err? ==> r == Err(probe.failure)
  {
    match probe
    case Err(f) => Err(f)
    case Ok(body) => if body.data.Some? then Ok(body.data.value) else Err(TypeError)
  }

  /** `AuthProvider`: the session shared with the whole page tree. */
  class AuthProvider {
    var user: Option<User>
    var loading: bool
    const service: AuthService

    /** The first render: nobody signed in, session check pending. */
    constructor (service: AuthService)
      ensures this.service == service
      ensures user == None && loading
    {
      this.service := service;
      user := None;
      loading := true;
    }

    /** `isAuthenticated`: `!!user`. */
    function IsAuthenticated(): (b: bool)
      reads this
      ensures b <==> user.Some?
    {
      user.Some?
    }

    /**
     * `checkAuth`, run once on mount. Without a token it asks nothing. With
     * one it asks `/auth/me`: a user in the answer signs them in; a 401
     * deletes the token; any other failure keeps the token and the user.
     * Either way the check is over afterwards.
     */
    method CheckAuth(probe: Outcome<MeResponse>)
      modifies this, service
      ensures !loading
      ensures !Truthy(old(service.token)) ==>
        service.requests == old(service.requests) && service.token == old(service.token) && user == old(user)
      ensures Truthy(old(service.token)) ==>
        service.requests == old(service.requests) + [AskMe(BearerHeader(old(service.token)))]
      ensures Truthy(old(service.token)) && ProbeUser(probe).Ok? ==>
        user == Some(ProbeUser(probe).value) && service.token == old(service.token)
      ensures Truthy(old(service.token)) && probe == Err(HttpStatus(401)) ==>
        service.token == None && user == old(user)
      ensures Truthy(old(service.token)) && ProbeUser(probe).Err? && probe != Err(HttpStatus(401)) ==>
        service.token == old(service.token) && user == old(user)
    {
      var token := service.GetToken();
      if !Truthy(token) {
        loading := false;
        return;
      }
      var response := service.GetMe(probe);
      match ProbeUser(response) {
        case Ok(u) =>
          user := Some(u);
        case Err(f) =>
          if f == HttpStatus(401) {
            service.Logout();
          }
      }
      loading := false;
    }

    /** `login`: on a resolved call the answer's user is signed in; a rejected call propagates and changes no user. */
    method Login(data: LoginData, answer: Outcome<AuthResponse>) returns (r: Outcome<User>)
      modifies this`user, service
      ensures service.requests == old(service.requests) + [PostLogin(data)]
      ensures service.token == TokenAfter(old(service.token), answer)
      ensures r == UserOf(ServiceResult(answer))
      ensures user == if r.Ok? then Some(r.value) else old(user)
    {
      var response := service.Login(data, answer);
      r := UserOf(response);
      if r.Ok? {
        user := Some(r.value);
      }
    }

    /** `register`: the same as `Login` for a new account. */
    method Register(data: RegisterData, answer: Outcome<AuthResponse>) returns (r: Outcome<User>)
      modifies this`user, service
      ensures service.requests == old(service.requests) + [PostRegister(data)]
      ensures service.token == TokenAfter(old(service.token), answer)
      ensures r == UserOf(ServiceResult(answer))
      ensures user == if r.Ok? then Some(r.value) else old(user)
    {
      var response := service.Register(data, answer);
      r := UserOf(response);
      if r.Ok? {
        user := Some(r.value);
      }
    }

    /** `logout`: no token, nobody signed in, whatever the state before, so a second logout changes nothing. */
    method Logout()
      modifies this`user, service`token
      ensures service.token == None && user == None && !IsAuthenticated()
      ensures service.requests == old(service.requests)
    {
      service.Logout();
      user := None;
    }
  }
}
