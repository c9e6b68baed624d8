/** The registration form: the password-match guard of the submit handler,
    the submit button's `disabled` rule, and the page it navigates to once
    the account is created. */
module RegisterForm {
  import opened JsValues
  import opened JsStrings

  /** The inputs of the form. */
  datatype Form = Form(username: string, email: string, password: string, confirmPassword: string, agreeToTerms: bool)

  /** The body of the register request. */
  datatype RegisterBody = RegisterBody(username: string, email: string, password: string)

  /** `handleSubmit`: nothing when the two passwords differ, otherwise
      exactly the three fields; the terms box is not consulted. */
  function Submit(f: Form): (r: Option<RegisterBody>)
    ensures r.Some? <==> f.password == f.confirmPassword
    ensures r.Some? ==> r.value.username == f.username && r.value.email == f.email && r.value.password == f.password
  {
    if f.password != f.confirmPassword then None
    else Some(RegisterBody(f.username, f.email, f.password))
  }

  /** The submit button's `disabled`. */
  predicate SubmitDisabled(pending: bool, f: Form)
  {
    pending || !f.agreeToTerms || f.password != f.confirmPassword
  }

  /** The terms box only gates the button: the handler's result does not
      depend on it, and an enabled button always leads to a request, which
      carries the agreed form's fields. */
  lemma SubmitGating(f: Form, pending: bool, agreed: bool)
    ensures Submit(f.(agreeToTerms := agreed)) == Submit(f)
    ensures !SubmitDisabled(pending, f) <==> !pending && f.agreeToTerms && Submit(f).Some?
  {
  }

  /** Where the browser goes once registration succeeds. */
  function VerifyEmailPath(email: string): string
  {
    "/verify-email?email=" + EncodeURIComponent(email)
  }

  /** The email cannot break out of its query parameter: after the fixed
      prefix there is no '&', '=', '#', '?' or '+', only unreserved
      characters and '%' escapes; an email made only of unreserved
      characters is passed through verbatim. */
  lemma VerifyEmailPathSpec(email: string)
    ensures var p := VerifyEmailPath(email);
            && p[..20] == "/verify-email?email="
            && forall i :: 20 <= i < |p| ==> p[i] !in "&=#?+"
    ensures (forall i :: 0 <= i < |email| ==> IsUnreserved(email[i])) ==> VerifyEmailPath(email) == "/verify-email?email=" + email
  {
    var p := VerifyEmailPath(email);
    var e := EncodeURIComponent(email);
    assert |"/verify-email?email="| == 20;
    forall i | 20 <= i < |p|
      ensures p[i] !in "&=#?+"
    {
      assert p[i] == e[i - 20];
    }
  }

  /** Distinct emails lead to distinct verification links: the page
      behind the link can recover the address that was registered. */
  lemma VerifyEmailPathInjective(a: string, b: string)
    requires VerifyEmailPath(a) == VerifyEmailPath(b)
    ensures a == b
  {
    var prefix := "/verify-email?email=";
    assert |prefix| == 20;
    assert EncodeURIComponent(a) == VerifyEmailPath(a)[20..];
    assert EncodeURIComponent(b) == VerifyEmailPath(b)[20..];
    EncodeInjective(a, b);
  }
}
