/** Self-registration of a tenant owner and password login, both handed to
    the identity provider; the provider's sign-up and sign-in are
    parameters. */
module AuthController {
  import opened Base

  /** The body's tenant_type, accepted only as INDIVIDUAL_ADVISOR or ACADEMY. */
  function ParseTenantType(s: Option<string>): (r: Option<TenantType>)
    ensures r == Some(IndividualAdvisor) <==> s == Some("INDIVIDUAL_ADVISOR")
    ensures r == Some(Academy) <==> s == Some("ACADEMY")
  {
    if s == Some("INDIVIDUAL_ADVISOR") then Some(IndividualAdvisor)
    else if s == Some("ACADEMY") then Some(Academy)
    else None
  }

  /** The role a registering tenant owner gets. */
  function RoleFor(tt: TenantType): (r: Role)
    ensures r == AcademyAdmin <==> tt == Academy
    ensures r in {AcademyAdmin, Role.Advisor}
  {
    if tt == Academy then AcademyAdmin else Role.Advisor
  }

  /** The user metadata sent with the sign-up. */
  datatype Metadata = Metadata(fullName: Option<string>, role: Role, tenantType: TenantType, businessName: Option<string>)

  datatype SignUpRequest = SignUpRequest(email: Option<string>, password: Option<string>, metadata: Metadata)

  /** What the identity provider answers: success, or an error message. */
  datatype ProviderAnswer = Accepted | ProviderError(message: string)

  /** `s.includes(sub)`. */
  predicate Contains(s: string, sub: string) {
    exists i | 0 <= i <= |s| :: sub <= s[i..]
  }

  /** registerUser's answer and the sign-up it sent, if any. */
  datatype Registration = Registration(status: Status, sent: Option<SignUpRequest>)

  /** registerUser: the tenant type is checked before anything is sent; the
      role follows from it and the business name starts as the full name. */
  function RegisterUser(email: Option<string>, password: Option<string>, fullName: Option<string>, tenantType: Option<string>,
                        signUp: SignUpRequest -> ProviderAnswer): (r: Registration)
    ensures ParseTenantType(tenantType).None? <==> r == Registration(BadRequest(BadTenantType), None)
    ensures r.sent.Some? <==> ParseTenantType(tenantType).Some?
    ensures r.sent.Some? ==>
      var tt := ParseTenantType(tenantType).value;
      r.sent.value == SignUpRequest(email, password, Metadata(fullName, RoleFor(tt), tt, fullName))
    ensures r.sent.Some? ==>
      && (signUp(r.sent.value) == Accepted ==> r.status == Created)
      && (signUp(r.sent.value).ProviderError? && Contains(signUp(r.sent.value).message, "User already registered") ==>
            r.status == BadRequest(AlreadyRegistered))
      && (signUp(r.sent.value).ProviderError? && !Contains(signUp(r.sent.value).message, "User already registered") ==>
            r.status == ServerError)
  {
    match ParseTenantType(tenantType)
    case None => Registration(BadRequest(BadTenantType), None)
    case Some(tt) =>
      var request := SignUpRequest(email, password, Metadata(fullName, RoleFor(tt), tt, fullName));
      match signUp(request)
      case Accepted => Registration(Created, Some(request))
      case ProviderError(message) =>
        if Contains(message, "User already registered") then Registration(BadRequest(AlreadyRegistered), Some(request))
        else Registration(ServerError, Some(request))
  }

  /** Self-registration can only create an ADVISOR or an ACADEMY_ADMIN, and
      a PARENT or SUPER_ADMIN tenant type is refused before the provider is
      asked. */
  lemma {:induction false} RegistrationNeverGrantsOtherRoles(email: Option<string>, password: Option<string>, fullName: Option<string>,
                                                             tenantType: Option<string>, signUp: SignUpRequest -> ProviderAnswer)
    ensures var r := RegisterUser(email, password, fullName, tenantType, signUp);
      r.sent.Some? ==> r.sent.value.metadata.role in {AcademyAdmin, Role.Advisor}
    ensures RegisterUser(email, password, fullName, Some("PARENT"), signUp) == Registration(BadRequest(BadTenantType), None)
    ensures RegisterUser(email, password, fullName, Some("SUPER_ADMIN"), signUp) == Registration(BadRequest(BadTenantType), None)
  {
    assert "PARENT" != "INDIVIDUAL_ADVISOR" && "PARENT" != "ACADEMY" by { assert "PARENT"[0] == 'P'; }
    assert "SUPER_ADMIN" != "INDIVIDUAL_ADVISOR" && "SUPER_ADMIN" != "ACADEMY" by { assert "SUPER_ADMIN"[0] == 'S'; }
  }

  /** loginUser: any sign-in error is 401, success is 200. `signIn` is the
      provider's password sign-in; nothing is checked before asking it. */
  function LoginUser(email: Option<string>, password: Option<string>, signIn: (Option<string>, Option<string>) -> bool): (r: Status)
    ensures r == Ok <==> signIn(email, password)
    ensures r != Ok ==> r == Unauthorized
  {
    if signIn(email, password) then Ok else Unauthorized
  }
}
