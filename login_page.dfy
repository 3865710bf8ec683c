/** The sign-in page (`LoginPage`): two controlled inputs, an error banner,
    and a submit handler that posts the credentials, keeps the returned
    access token in local storage and sends the browser to the summary page.
    The handler's request is one step here: the post's outcome is a parameter. */
module LoginPage {
  import opened Wrappers
  import opened Text
  import opened Web

  /** The part of an axios error response the handler reads. */
  datatype ErrorResponse = ErrorResponse(status: int, error: Option<string>)

  /** An axios error: its `code`, its `response` if the server answered, its `message`. */
  datatype RequestError = RequestError(code: Option<string>, response: Option<ErrorResponse>, message: string)

  /** How the post ended: a response whose body may carry `access_token`, or a throw. */
  datatype LoginOutcome = Responded(accessToken: Option<string>) | Threw(err: RequestError)

  const TimeoutMessage: string := "Request timed out. Please try again."
  const BadCredentialsMessage: string := "Invalid username or password"
  const NetworkMessage: string := "Network error. Please check your connection and try again."
  const UnexpectedMessage: string := "An unexpected error occurred"
  const BadResponseMessage: string := "Invalid response from server"
  const AfterLoginPath: string := "/summary"

  /** The catch block's choice of banner text, first match wins: a timeout
      code, a 401 status, a truthy server `error`, a network failure, and
      otherwise the generic text. */
  function LoginErrorMessage(err: RequestError): (r: string)
    ensures err.code == Some("ECONNABORTED") ==> r == TimeoutMessage
    ensures err.code != Some("ECONNABORTED") && err.response.Some? && err.response.value.status == 401 ==>
              r == BadCredentialsMessage
    ensures err.code != Some("ECONNABORTED") && err.response.Some? && err.response.value.status != 401 &&
            Truthy(err.response.value.error) ==>
              r == err.response.value.error.value
    ensures err.code != Some("ECONNABORTED") && (err.response.None? || !Truthy(err.response.value.error)) &&
            (err.response.Some? ==> err.response.value.status != 401) ==>
              r == (if Contains(err.message, "Network Error") then NetworkMessage else UnexpectedMessage)
    ensures r != ""
  {
    if err.code == Some("ECONNABORTED") then TimeoutMessage
    else if err.response.Some? && err.response.value.status == 401 then BadCredentialsMessage
    else if err.response.Some? && Truthy(err.response.value.error) then err.response.value.error.value
    else if Contains(err.message, "Network Error") then NetworkMessage
    else UnexpectedMessage
  }

  /** Text that is none of the page's own messages can only be the server's,
      and then the server answered with a status other than 401 and no
      timeout was reported. */
  lemma ServerTextOnlyWhenNotRejected(err: RequestError)
    requires var r := LoginErrorMessage(err);
             r != TimeoutMessage && r != BadCredentialsMessage && r != NetworkMessage && r != UnexpectedMessage
    ensures err.code != Some("ECONNABORTED")
    ensures err.response.Some? && err.response.value.status != 401 && Truthy(err.response.value.error)
    ensures LoginErrorMessage(err) == err.response.value.error.value
  {
  }

  /** A 401 never shows the server's own text, whatever it sent. */
  lemma RejectionHidesServerText(code: Option<string>, serverError: Option<string>, message: string)
    requires code != Some("ECONNABORTED")
    ensures LoginErrorMessage(RequestError(code, Some(ErrorResponse(401, serverError)), message)) == BadCredentialsMessage
  {
  }

  /** A failure without any response is reported as a network error exactly
      when axios's message says so (unless it was a timeout). */
  lemma NoResponseMessages(code: Option<string>, message: string)
    requires code != Some("ECONNABORTED")
    ensures LoginErrorMessage(RequestError(code, None, message)) == NetworkMessage <==>
            Contains(message, "Network Error")
    ensures LoginErrorMessage(RequestError(code, None, message)) != NetworkMessage ==>
            LoginErrorMessage(RequestError(code, None, message)) == UnexpectedMessage
  {
    assert NetworkMessage != UnexpectedMessage by { assert |NetworkMessage| != |UnexpectedMessage|; }
  }

  class Page {
    var username: string
    var password: string
    var error: string             // the banner shows when this is not empty
    var loading: bool             // the submit button is disabled while this is set
    var token: Option<string>     // local storage's "token" entry
    var location: Option<string>  // where `window.location.href` was last sent
    var requests: seq<Request>    // every request the page has sent, in order

    /** A fresh page: empty inputs, no banner; local storage keeps what it had. */
    constructor (storedToken: Option<string>)
      ensures username == "" && password == "" && error == "" && !loading
      ensures token == storedToken && location == None && requests == []
    {
      username, password, error, loading := "", "", "", false;
      token, location, requests := storedToken, None, [];
    }

    method TypeUsername(value: string)
      modifies this
      ensures username == value
      ensures password == old(password) && error == old(error) && loading == old(loading)
      ensures token == old(token) && location == old(location) && requests == old(requests)
    {
      username := value;
    }

    method TypePassword(value: string)
      modifies this
      ensures password == value
      ensures username == old(username) && error == old(error) && loading == old(loading)
      ensures token == old(token) && location == old(location) && requests == old(requests)
    {
      password := value;
    }

    /** `handleLogin` up to the request. Both inputs are `required` and the
        button is disabled while loading, so the form submits only when both
        are filled in and no login is pending; then the banner is cleared,
        loading is set and the credentials are posted. */
    method StartLogin() returns (sent: bool)
      modifies this
      ensures sent <==> !old(loading) && old(username) != "" && old(password) != ""
      ensures username == old(username) && password == old(password)
      ensures token == old(token) && location == old(location)
      ensures !sent ==> error == old(error) && loading == old(loading) && requests == old(requests)
      ensures sent ==> error == "" && loading && requests == old(requests) + [PostLogin(username, password)]
    {
      if loading || username == "" || password == "" {
        return false;
      }
      error := "";
      loading := true;
      requests := requests + [PostLogin(username, password)];
      sent := true;
    }

    /** `handleLogin` after the post settled. A response goes to the summary
        page whether or not it held a token; only a truthy token is stored,
        and a missing one sets the banner. A throw leaves the page where it is
        with the chosen message in the banner. Loading ends either way. */
    method FinishLogin(outcome: LoginOutcome)
      modifies this
      ensures !loading
      ensures username == old(username) && password == old(password) && requests == old(requests)
      ensures outcome.Responded? ==>
                location == Some(AfterLoginPath) &&
                (Truthy(outcome.accessToken) ==> token == outcome.accessToken && error == old(error)) &&
                (!Truthy(outcome.accessToken) ==> token == old(token) && error == BadResponseMessage)
      ensures outcome.Threw? ==>
                location == old(location) && token == old(token) && error == LoginErrorMessage(outcome.err)
      ensures outcome.Threw? ==> error != ""
    {
      match outcome {
        case Responded(accessToken) =>
          if Truthy(accessToken) {
            token := accessToken;
          } else {
            error := BadResponseMessage;
          }
          location := Some(AfterLoginPath);
        case Threw(err) =>
          error := LoginErrorMessage(err);
      }
      loading := false;
    }

    /** The whole handler when nothing else happens while the post is pending:
        afterwards loading is off, and the banner is empty exactly when a token
        was stored. */
    method HandleLogin(outcome: LoginOutcome) returns (sent: bool)
      requires !loading
      modifies this
      ensures sent <==> old(username) != "" && old(password) != ""
      ensures !loading
      ensures !sent ==> error == old(error) && token == old(token) && location == old(location) &&
                        requests == old(requests)
      ensures sent ==> requests == old(requests) + [PostLogin(old(username), old(password))]
      ensures sent ==> (error == "" <==> outcome.Responded? && Truthy(outcome.accessToken))
      ensures sent && error == "" ==> token == outcome.accessToken && location == Some(AfterLoginPath)
    {
      sent := StartLogin();
      if sent {
        FinishLogin(outcome);
      }
    }
  }
}
