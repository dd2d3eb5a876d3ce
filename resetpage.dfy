/**
 * The page a recovery link opens: it asks the verification function whether
 * the link's token is good, shows the form unless the answer was no, checks
 * the two password fields, and sends the token and new password to the
 * redemption function.  The answers of the functions are parameters (`None`
 * when the request itself fails).
 */
module ResetPage {
  import opened Wrappers
  import opened Json
  import Http
  import PasswordReset
  import Text

  const LoginRoute: string := "/auth?mode=login"
  const MismatchText: string := "Las contrase\U{F1}as no coinciden."
  const TooShortText: string := "La contrase\U{F1}a debe tener al menos 6 caracteres."
  const DefaultFailure: string := "No se pudo restablecer la contrase\U{F1}a."

  /** A toast: success, or an error with its text (`None`: the text of a failed request or of
      a reply that is not JSON, which the browser supplies). */
  datatype Toast = Restored | Problem(text: Option<string>)

  /** `{ token }`, the body the page posts for verification. */
  function VerifyBody(token: string): Json {
    JObj(map["token" := JStr(token)])
  }

  /** `{ token, newPassword }`, the body the page posts for redemption. */
  function ResetBody(token: string, password: string): Json {
    JObj(map["token" := JStr(token), "newPassword" := JStr(password)])
  }

  /** The client check before any request: mismatch first, then length in UTF-16 code units
      (`newPassword.length`). */
  function Validate(password: string, confirmation: string): (problem: Option<string>)
    ensures password != confirmation ==> problem == Some(MismatchText)
    ensures password == confirmation && Text.Utf16Length(password) < 6 ==> problem == Some(TooShortText)
    ensures problem.None? <==> password == confirmation && Text.Utf16Length(password) >= 6
  {
    if password != confirmation then Some(MismatchText)
    else if Text.Utf16Length(password) < 6 then Some(TooShortText)
    else None
  }

  /** Three emoji outside the Basic Multilingual Plane count as six characters, so both the page
      and the redemption function accept them as a password. */
  lemma AstralPasswordAccepted(token: string)
    requires token != ""
    ensures Validate("\U{1F600}\U{1F600}\U{1F600}", "\U{1F600}\U{1F600}\U{1F600}").None?
    ensures PasswordReset.ResetArgsOf(Some(ResetBody(token, "\U{1F600}\U{1F600}\U{1F600}"))).value.Some?
  {
    Text.Utf16LengthOfAstral();
    ResetBodyAccepted(token, "\U{1F600}\U{1F600}\U{1F600}", "\U{1F600}\U{1F600}\U{1F600}");
  }

  /** The body the page sends for verification is one the verification function accepts. */
  lemma VerifyBodyAccepted(token: string)
    requires token != ""
    ensures PasswordReset.VerifyKey(Some(VerifyBody(token))) == Returned(Some(token))
  {
    assert Get(Some(VerifyBody(token)), "token") == Some(JStr(token));
  }

  /** A body that passed the client check also passes the redemption function's check, and
      it carries exactly the token and password typed in. */
  lemma ResetBodyAccepted(token: string, password: string, confirmation: string)
    requires token != "" && Validate(password, confirmation).None?
    ensures PasswordReset.ResetArgsOf(Some(ResetBody(token, password)))
      == Returned(Some(PasswordReset.ResetArgs(token, password)))
  {
    var body := Some(ResetBody(token, password));
    assert Get(body, "token") == Some(JStr(token));
    assert Get(body, "newPassword") == Some(JStr(password));
  }

  class ResetPasswordPage {
    var tokenValid: Option<bool>
    var token: string
    var newPassword: string
    var confirmPassword: string
    var isLoading: bool
    var location: Option<string>
    var toast: Option<Toast>

    constructor ()
      ensures tokenValid.None? && token == "" && newPassword == "" && confirmPassword == ""
      ensures !isLoading && location.None? && toast.None?
    {
      tokenValid := None;
      token := "";
      newPassword := "";
      confirmPassword := "";
      isLoading := false;
      location := None;
      toast := None;
    }

    /** The form is hidden only once the token is known to be bad. */
    predicate FormShown()
      reads this
    {
      tokenValid != Some(false)
    }

    /** The submit button is enabled only for a token known to be good. */
    predicate SubmitEnabled()
      reads this
    {
      !isLoading && tokenValid == Some(true)
    }

    /** The token-check effect.  `tokenFromUrl` is the link's `token` parameter; `reply` the
        verification function's answer, requested only when there is a token. */
    method CheckToken(tokenFromUrl: Option<string>, reply: Option<Http.Response>)
      modifies this`tokenValid, this`token
      ensures (tokenFromUrl.None? || tokenFromUrl.value == "") ==> tokenValid == Some(false) && token == old(token)
      ensures tokenFromUrl.Some? && tokenFromUrl.value != "" ==>
        token == tokenFromUrl.value
        && tokenValid == Some(reply.Some? && Http.ReplyJson(reply.value).Some?
                              && TruthyField(Get(Http.ReplyJson(reply.value), "valid")))
    {
      if tokenFromUrl.None? || tokenFromUrl.value == "" {
        tokenValid := Some(false);
        return;
      }
      token := tokenFromUrl.value;
      if reply.None? {
        tokenValid := Some(false);
        return;
      }
      var data := Http.ReplyJson(reply.value);
      tokenValid := Some(data.Some? && TruthyField(Get(data, "valid")));
    }

    /** `handleSubmit`.  `reply` is the redemption function's answer to the request, which is
        sent only when the two fields pass the check.  Returns whether it was sent. */
    method HandleSubmit(reply: Option<Http.Response>) returns (requested: bool)
      modifies this`isLoading, this`location, this`toast
      ensures requested <==> Validate(newPassword, confirmPassword).None?
      ensures location == if requested && Succeeded(reply) then Some(LoginRoute) else old(location)
      ensures !requested ==> toast == Some(Problem(Validate(newPassword, confirmPassword)))
      ensures requested ==> !isLoading
      ensures requested && !Succeeded(reply) ==> toast.Some? && toast.value.Problem?
      ensures requested && !Succeeded(reply) && reply.Some? && Http.ReplyJson(reply.value).Some? ==>
        toast == Some(Problem(Some(Render(Or(Get(Http.ReplyJson(reply.value), "error"), Some(JStr(DefaultFailure)))))))
      ensures requested && Succeeded(reply) ==> toast == Some(Restored)
    {
      var problem := Validate(newPassword, confirmPassword);
      if problem.Some? {
        toast := Some(Problem(problem));
        return false;
      }
      requested := true;
      isLoading := true;
      if reply.None? || Http.ReplyJson(reply.value).None? {
        toast := Some(Problem(None));
      } else {
        var result := Http.ReplyJson(reply.value);
        if Http.Ok(reply.value) && TruthyField(Get(result, "success")) {
          toast := Some(Restored);
          location := Some(LoginRoute);
        } else {
          var error := Or(Get(result, "error"), Some(JStr(DefaultFailure)));
          toast := Some(Problem(Some(Render(error))));
        }
      }
      isLoading := false;
    }
  }

  /** `res.ok && result.success`. */
  predicate Succeeded(reply: Option<Http.Response>) {
    reply.Some? && Http.ReplyJson(reply.value).Some? && Http.Ok(reply.value)
    && TruthyField(Get(Http.ReplyJson(reply.value), "success"))
  }

  /** The page believes a token is good exactly when the verification function found it live. */
  lemma CheckAgreesWithVerification(state: PasswordReset.TokenState)
    ensures var data := Http.ReplyJson(PasswordReset.VerifyReply(state));
      data.Some? && TruthyField(Get(data, "valid")) <==> state.Live?
  {
    var resp := PasswordReset.VerifyReply(state);
    if !state.Live? {
      assert Get(Http.ReplyJson(resp), "valid").None?;
    }
  }

  /** The page navigates to the login on the redemption function's success answer, and on
      none of its error answers, whatever their status. */
  lemma NavigatesOnlyOnRedemption(status: int, message: string)
    ensures Succeeded(Some(Http.Success(200, true)))
    ensures !Succeeded(Some(Http.Error(status, message)))
  {
    assert Get(Http.ReplyJson(Http.Error(status, message)), "success").None?;
  }
}
