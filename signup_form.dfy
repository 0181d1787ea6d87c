/**
 * The sign-up form: its submit handler checks the two passwords before
 * anything is sent, then calls the sign-up service and reports its answer.
 */
module Signup {
  import opened Store
  import opened JsText

  const MismatchError := "Les mots de passe ne correspondent pas"
  const TooShortError := "Le mot de passe doit contenir au moins 8 caractères"
  const DefaultFailure := "Échec de l'inscription"
  const UnexpectedError := "Une erreur s'est produite. Veuillez réessayer."
  const MinPasswordLength := 8

  /** The call to the e-mail sign-up service. */
  datatype SignUpRequest = SignUpRequest(email: string, password: string, name: string)

  /** How the sign-up call ended. */
  datatype SignUpOutcome =
    | Succeeded
    | Rejected(message: Option<string>)   // the result carries an error, maybe with a message
    | Threw                               // the call itself threw

  class SignupForm {
    var name: string
    var email: string
    var password: string
    var confirmPassword: string
    /** The message shown above the form; "" shows none. */
    var error: string
    var loading: bool
    /** Where the router was sent, if anywhere. */
    var route: Option<string>

    constructor ()
      ensures name == "" && email == "" && password == "" && confirmPassword == ""
      ensures error == "" && !loading && route.None?
    {
      name, email, password, confirmPassword := "", "", "", "";
      error, loading, route := "", false, None;
    }

    /**
     * The synchronous part of the submit handler: clear the error, then
     * reject mismatched passwords, then passwords shorter than eight UTF-16
     * code units; otherwise start loading and send the sign-up request.
     */
    method Submit() returns (request: Option<SignUpRequest>)
      modifies this
      ensures name == old(name) && email == old(email)
      ensures password == old(password) && confirmPassword == old(confirmPassword)
      ensures route == old(route)
      ensures password != confirmPassword ==>
                request.None? && error == MismatchError && loading == old(loading)
      ensures password == confirmPassword && Utf16Length(password) < MinPasswordLength ==>
                request.None? && error == TooShortError && loading == old(loading)
      ensures password == confirmPassword && Utf16Length(password) >= MinPasswordLength ==>
                request == Some(SignUpRequest(email, password, name)) && error == "" && loading
    {
      error := "";
      if password != confirmPassword {
        error := MismatchError;
        return None;
      }
      if Utf16Length(password) < MinPasswordLength {
        error := TooShortError;
        return None;
      }
      loading := true;
      return Some(SignUpRequest(email, password, name));
    }

    /**
     * The rest of the handler, once the sign-up call has ended: loading stops
     * whatever happened; a rejection shows its message, or the default one
     * when it has none; a thrown call shows the generic error; success goes
     * to the dashboard.
     */
    method Complete(outcome: SignUpOutcome)
      modifies this
      ensures name == old(name) && email == old(email)
      ensures password == old(password) && confirmPassword == old(confirmPassword)
      ensures !loading
      ensures outcome.Succeeded? ==> error == old(error) && route == Some("/dashboard")
      ensures outcome.Rejected? ==>
                route == old(route)
                && error == if outcome.message.Some? && outcome.message.value != "" then outcome.message.value
                            else DefaultFailure
      ensures outcome.Threw? ==> error == UnexpectedError && route == old(route)
    {
      match outcome {
        case Succeeded =>
          route := Some("/dashboard");
        case Rejected(message) =>
          if message.Some? && message.value != "" {
            error := message.value;
          } else {
            error := DefaultFailure;
          }
        case Threw =>
          error := UnexpectedError;
      }
      loading := false;
    }
  }
}
