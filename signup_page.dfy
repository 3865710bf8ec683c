/** The account page (`SignupPage`): three controlled inputs, an error and a
    success banner, and a submit handler that checks the two passwords agree,
    posts the credentials and reports the outcome. The post's outcome is a
    parameter. */
module SignupPage {
  import opened Wrappers
  import opened Web

  /** How the post ended: a response whose body may carry `message`, or a
      throw whose response body may carry `error`. */
  datatype SignupOutcome = Created(message: Option<string>) | Failed(serverError: Option<string>)

  const MismatchMessage: string := "Passwords do not match"
  const DefaultSuccessMessage: string := "Account created successfully"
  const DefaultFailureMessage: string := "Signup failed"

  /** The banner text an outcome leads to, and which banner shows it. */
  datatype Banner = SuccessBanner(text: string) | ErrorBanner(text: string)

  function OutcomeBanner(outcome: SignupOutcome): (b: Banner)
    ensures outcome.Created? <==> b.SuccessBanner?
    ensures b.text != ""
    ensures outcome.Created? ==> b.text == (if Truthy(outcome.message) then outcome.message.value else DefaultSuccessMessage)
    ensures outcome.Failed? ==> b.text == (if Truthy(outcome.serverError) then outcome.serverError.value else DefaultFailureMessage)
  {
    match outcome
    case Created(message) => SuccessBanner(OrElse(message, DefaultSuccessMessage))
    case Failed(serverError) => ErrorBanner(OrElse(serverError, DefaultFailureMessage))
  }

  class Page {
    var username: string
    var password: string
    var confirmPassword: string
    var error: string    // the error banner shows when this is not empty
    var success: string  // the success banner shows when this is not empty
    var loading: bool    // the submit button is disabled while this is set
    var requests: seq<Request>  // every request the page has sent, in order

    /** At most one banner shows. */
    predicate OneBanner()
      reads this
    {
      error == "" || success == ""
    }

    constructor ()
      ensures OneBanner() && !loading
      ensures username == "" && password == "" && confirmPassword == ""
      ensures error == "" && success == "" && requests == []
    {
      username, password, confirmPassword := "", "", "";
      error, success, loading, requests := "", "", false, [];
    }

    method TypeUsername(value: string)
      modifies this
      ensures username == value
      ensures password == old(password) && confirmPassword == old(confirmPassword) && loading == old(loading)
      ensures error == old(error) && success == old(success) && requests == old(requests)
    {
      username := value;
    }

    method TypePassword(value: string)
      modifies this
      ensures password == value
      ensures username == old(username) && confirmPassword == old(confirmPassword) && loading == old(loading)
      ensures error == old(error) && success == old(success) && requests == old(requests)
    {
      password := value;
    }

    method TypeConfirmPassword(value: string)
      modifies this
      ensures confirmPassword == value
      ensures username == old(username) && password == old(password) && loading == old(loading)
      ensures error == old(error) && success == old(success) && requests == old(requests)
    {
      confirmPassword := value;
    }

    /** `handleSignup` up to the request. All three inputs are `required` and
        the button is disabled while loading, so the form submits only when
        they are filled in and no signup is pending. Both banners are cleared;
        a mismatch stops there with its message, sends nothing and leaves
        loading off; otherwise loading is set and the credentials are posted. */
    method StartSignup() returns (sent: bool)
      modifies this
      ensures var submits := !old(loading) && old(username) != "" && old(password) != "" && old(confirmPassword) != "";
              && (sent <==> submits && old(password) == old(confirmPassword))
              && (!submits ==> error == old(error) && success == old(success))
              && (submits && !sent ==> error == MismatchMessage && success == "")
      ensures username == old(username) && password == old(password) && confirmPassword == old(confirmPassword)
      ensures !sent ==> loading == old(loading) && requests == old(requests)
      ensures sent ==> loading && error == "" && success == "" &&
                       requests == old(requests) + [PostSignup(username, password)]
    {
      if loading || username == "" || password == "" || confirmPassword == "" {
        return false;
      }
      error := "";
      success := "";
      if password != confirmPassword {
        error := MismatchMessage;
        return false;
      }
      loading := true;
      requests := requests + [PostSignup(username, password)];
      sent := true;
    }

    /** `handleSignup` after the post settled: a success shows its banner and
        clears the inputs, a failure shows its banner and keeps them; loading
        ends either way. */
    method FinishSignup(outcome: SignupOutcome)
      modifies this
      ensures !loading && requests == old(requests)
      ensures OutcomeBanner(outcome).SuccessBanner? ==>
                success == OutcomeBanner(outcome).text && error == old(error) &&
                username == "" && password == "" && confirmPassword == ""
      ensures OutcomeBanner(outcome).ErrorBanner? ==>
                error == OutcomeBanner(outcome).text && success == old(success) &&
                username == old(username) && password == old(password) && confirmPassword == old(confirmPassword)
    {
      match OutcomeBanner(outcome) {
        case SuccessBanner(text) =>
          success := text;
          username, password, confirmPassword := "", "", "";
        case ErrorBanner(text) =>
          error := text;
      }
      loading := false;
    }

    /** The whole handler when nothing else happens while the post is pending:
        a submitted form always ends with exactly one banner and loading off. */
    method HandleSignup(outcome: SignupOutcome) returns (sent: bool)
      requires !loading
      modifies this
      ensures var submits := old(username) != "" && old(password) != "" && old(confirmPassword) != "";
              && (sent <==> submits && old(password) == old(confirmPassword))
              && (submits ==> OneBanner() && (error == "") != (success == ""))
              && (submits && !sent ==> error == MismatchMessage && requests == old(requests))
      ensures !loading
      ensures sent ==> requests == old(requests) + [PostSignup(old(username), old(password))]
      ensures sent ==> (success != "" <==> outcome.Created?)
    {
      sent := StartSignup();
      if sent {
        FinishSignup(outcome);
      }
    }
  }
}
