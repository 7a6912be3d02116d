/**
 * The login page: the stored access token is dropped before every attempt and
 * written back only when the login mutation succeeds.
 */
module LoginPage {
  import opened Wrappers
  import opened Forms
  import opened Services

  /** The body of the login request, exactly as typed. */
  datatype Credentials = Credentials(email: string, password: string)

  /** How the login mutation settles; `token` is `response.data.token`, which may be missing. */
  datatype LoginOutcome = LoggedIn(token: Option<string>) | Rejected(serverMessage: Option<string>)

  const Dashboard: string := "/dashboard/products"
  const LoginFailed: string := "Login failed. Please check your credentials."

  /** `localStorage.setItem` stores `String(value)`, so a missing token is stored as the text "undefined". */
  function Stored(token: Option<string>): (s: string)
    ensures token.Some? ==> s == token.value
    ensures token.None? ==> s == "undefined"
  {
    token.GetOr("undefined")
  }

  class LoginForm {
    var email: string
    var password: string
    /** `localStorage.getItem("accessToken")`. */
    var storedToken: TokenStore
    /** The router's current path. */
    var location: string

    constructor(token: TokenStore, path: string)
      ensures email == "" && password == "" && storedToken == token && location == path
    {
      email, password, storedToken, location := "", "", token, path;
    }

    /**
     * handleSubmit. `request` is what the mutation sends and `tokenAtRequest`
     * what the store holds while it is in flight. Both inputs are `required`,
     * so the browser runs the handler only when neither is empty.
     */
    method Submit(outcome: LoginOutcome) returns (request: Credentials, tokenAtRequest: TokenStore, toast: Toast)
      requires email != "" && password != ""
      modifies this
      ensures email == old(email) && password == old(password)
      ensures request == Credentials(old(email), old(password))
      ensures tokenAtRequest == None
      ensures outcome.LoggedIn? ==>
                storedToken == Some(Stored(outcome.token)) && location == Dashboard && toast == Success("Login successful!")
      ensures outcome.Rejected? ==>
                storedToken == None && location == old(location) && toast == Error(OrElse(outcome.serverMessage, LoginFailed))
    {
      storedToken := None;
      request := Credentials(email, password);
      tokenAtRequest := storedToken;
      match outcome {
        case LoggedIn(token) =>
          storedToken := Some(Stored(token));
          toast := Success("Login successful!");
          location := Dashboard;
        case Rejected(message) =>
          toast := Error(OrElse(message, LoginFailed));
      }
    }
  }

  /**
   * What the content slices then send: after a failed attempt no request
   * carries a bearer credential; after a successful one every request does,
   * unless the server returned an empty token.
   */
  lemma LoginDecidesBearer(outcome: LoginOutcome)
    ensures var store := if outcome.LoggedIn? then Some(Stored(outcome.token)) else None;
            var h := PrepareHeaders(map[], store);
            (AuthorizationHeader in h <==> outcome.LoggedIn? && outcome.token != Some(""))
            && (AuthorizationHeader in h ==> h[AuthorizationHeader] == "Bearer " + Stored(outcome.token))
  {
  }
}
