/** AuthenticationService: the identity-provider calls (sign-up, login,
    token lookup) reduced to how they interpret the provider's reply, the
    drain of the paginated tenant listing, and the exit-code decision of the
    Terraform run. The HTTP exchange itself is an input: what the provider
    answered, or that the transport failed. */
module AuthenticationService {
  import opened JavaLang
  import opened Web

  // ---- Records -------------------------------------------------------------

  /** Caller credentials for sign-up and login; any field may be null. */
  datatype UserSignDto = UserSignDto(email: Nullable<string>, password: Nullable<string>, tenantId: Nullable<string>)

  /** The session handed back on success. */
  datatype UserInfoDto = UserInfoDto(userId: Nullable<string>, tenantId: Nullable<string>, idToken: Nullable<string>)

  /** The provider's success body; missing properties read as null. */
  datatype LoginUserResponse = LoginUserResponse(localId: Nullable<string>, idToken: Nullable<string>)

  /** The provider's 400 body: `{"error": {"message": ...}}`. */
  datatype ProviderError = ProviderError(message: Nullable<string>)
  datatype VerifyResponseInvalid = VerifyResponseInvalid(error: Nullable<ProviderError>)

  /** What Jackson's readValue yields for one target class: it throws on a
      malformed body, and gives null for a body that is the JSON literal null. */
  datatype Parsed<+T> = Malformed | Decoded(value: Nullable<T>)

  /** A reply of the identity provider: its status and what its body reads
      as under each of the two classes the service parses it into. */
  datatype ProviderResponse = ProviderResponse(
    status: int,
    asInvalid: Parsed<VerifyResponseInvalid>,
    asLogin: Parsed<LoginUserResponse>)

  /** The outcome of HttpClient.send. */
  datatype Exchange = Delivered(response: ProviderResponse) | TransportFailed

  /** The String body of the sign-up response: a message, or (on 200) the
      user serialised as JSON, kept here as the structured value. */
  datatype SignUpBody = Message(text: string) | UserJson(user: UserInfoDto)

  /** A tenant as the tenant manager reports it. */
  datatype Tenant = Tenant(tenantId: string, displayName: string)

  /** Tenant.CreateRequest as the service fills it in. */
  datatype TenantCreateRequest = TenantCreateRequest(displayName: string, emailLinkSignInEnabled: bool, passwordSignInAllowed: bool)

  /** One page fetch of the tenant listing: the tenants on it, or a failure. */
  datatype PageFetch = Fetched(tenants: seq<Tenant>) | FetchFailed

  const RejectedPrefix: string := "Message from GCIP: "
  const StatusPrefix: string := "Response status from GCIP: "
  const TokenVerified: string := "ID Token verified."
  const TerraformFailed: string := "execution of script failed!"
  const TerraformDirectory: string := "/opt/terraform/tenant"

  // ---- Interpreting the provider's reply -----------------------------------

  /** The 400 branch: parse the error body and forward its message. */
  function RejectionMessage(resp: ProviderResponse): (r: Outcome<string>)
    ensures r.Returned? ==> |r.value| >= |RejectedPrefix| && r.value[..|RejectedPrefix|] == RejectedPrefix
    ensures r.Returned? <==>
              resp.asInvalid.Decoded? && resp.asInvalid.value.NonNull? && resp.asInvalid.value.value.error.NonNull?
    ensures resp.asInvalid.Malformed? ==> r == Thrown(MalformedJson)
    ensures resp.asInvalid.Decoded? && r.Thrown? ==> r.exc == NullPointer
  {
    match resp.asInvalid
    case Malformed => Thrown(MalformedJson)
    case Decoded(Null) => Thrown(NullPointer)
    case Decoded(NonNull(invalid)) =>
      match invalid.error
      case Null => Thrown(NullPointer)
      case NonNull(err) => Returned(Concat(RejectedPrefix, err.message))
  }

  /** The message for any other non-200 status. */
  function StatusMessage(status: int): string {
    StatusPrefix + IntToString(status)
  }

  /** The 200 branch shared by sign-up and login: parse the body and compose
      the session from the provider's ids and the caller's tenant. */
  function Session(dto: UserSignDto, resp: ProviderResponse): (r: Outcome<UserInfoDto>)
    ensures r.Returned? ==> r.value.tenantId == dto.tenantId
    ensures r.Returned? ==> resp.asLogin.Decoded? && resp.asLogin.value.NonNull?
    ensures r.Returned? ==>
              r.value.userId == resp.asLogin.value.value.localId && r.value.idToken == resp.asLogin.value.value.idToken
  {
    match resp.asLogin
    case Malformed => Thrown(MalformedJson)
    case Decoded(Null) => Thrown(NullPointer)
    case Decoded(NonNull(body)) => Returned(UserInfoDto(body.localId, dto.tenantId, body.idToken))
  }

  /** POST accounts:signUp. */
  function SignUp(dto: UserSignDto, exchange: Exchange): (r: Outcome<ResponseEntity<SignUpBody>>)
    ensures r.Returned? ==> r.value.status in {OK, UNAUTHORIZED} && r.value.body.NonNull?
    ensures exchange.TransportFailed? ==> r == Thrown(TransportError)
  {
    match exchange
    case TransportFailed => Thrown(TransportError)
    case Delivered(resp) =>
      if resp.status == 400 then
        match RejectionMessage(resp)
        case Thrown(e) => Thrown(e)
        case Returned(m) => Returned(ResponseEntity(UNAUTHORIZED, NonNull(Message(m))))
      else if resp.status != 200 then
        Returned(ResponseEntity(UNAUTHORIZED, NonNull(Message(StatusMessage(resp.status)))))
      else
        match Session(dto, resp)
        case Thrown(e) => Thrown(e)
        case Returned(user) => Returned(ResponseEntity(OK, NonNull(UserJson(user))))
  }

  /** POST accounts:signInWithPassword; null stands for "not logged in". */
  function Login(dto: UserSignDto, exchange: Exchange): (r: Outcome<Nullable<UserInfoDto>>)
    ensures exchange.TransportFailed? ==> r == Thrown(TransportError)
    ensures r.Returned? && r.value.NonNull? ==> r.value.value.tenantId == dto.tenantId
  {
    match exchange
    case TransportFailed => Thrown(TransportError)
    case Delivered(resp) =>
      if resp.status != 200 then Returned(Null)
      else
        match Session(dto, resp)
        case Thrown(e) => Thrown(e)
        case Returned(user) => Returned(NonNull(user))
  }

  /** POST accounts:lookup; only the status of the reply matters. */
  function Verify(idToken: string, exchange: Exchange): (r: Outcome<ResponseEntity<string>>)
    ensures r.Returned? ==> r.value.status in {OK, UNAUTHORIZED} && r.value.body.NonNull?
    ensures exchange.TransportFailed? ==> r == Thrown(TransportError)
  {
    match exchange
    case TransportFailed => Thrown(TransportError)
    case Delivered(resp) =>
      if resp.status == 400 then
        match RejectionMessage(resp)
        case Thrown(e) => Thrown(e)
        case Returned(m) => Returned(ResponseEntity(UNAUTHORIZED, NonNull(m)))
      else if resp.status != 200 then
        Returned(ResponseEntity(UNAUTHORIZED, NonNull(StatusMessage(resp.status))))
      else
        Returned(ResponseEntity(OK, NonNull(TokenVerified)))
  }

  // ---- Properties of the reply interpretation ------------------------------

  /** A 400 is a rejection: 401 carrying the provider's message verbatim
      after the prefix (or "null" when the message is absent). */
  lemma SignUpRejected(dto: UserSignDto, resp: ProviderResponse, message: Nullable<string>)
    requires resp.status == 400
    requires resp.asInvalid == Decoded(NonNull(VerifyResponseInvalid(NonNull(ProviderError(message)))))
    ensures SignUp(dto, Delivered(resp)) == Returned(ResponseEntity(401, NonNull(Message(Concat("Message from GCIP: ", message)))))
    ensures message.NonNull? ==> SignUp(dto, Delivered(resp)).value.body.value.text[|RejectedPrefix|..] == message.value
  {
  }

  /** A 400 whose body cannot be read as an error object throws, whatever
      the rest of the reply says. */
  lemma SignUpRejectedUnreadable(dto: UserSignDto, resp: ProviderResponse)
    requires resp.status == 400
    requires resp.asInvalid.Malformed? || resp.asInvalid == Decoded(Null) || resp.asInvalid == Decoded(NonNull(VerifyResponseInvalid(Null)))
    ensures SignUp(dto, Delivered(resp)).Thrown?
    ensures resp.asInvalid.Malformed? <==> SignUp(dto, Delivered(resp)) == Thrown(MalformedJson)
  {
  }

  /** Any status other than 200 and 400 is reported as 401 with the status
      in the message; the body is never looked at, and the status can be
      read back from the message. */
  lemma SignUpUnavailable(dto: UserSignDto, resp: ProviderResponse, other: ProviderResponse)
    requires resp.status != 200 && resp.status != 400
    requires other.status == resp.status
    ensures SignUp(dto, Delivered(resp)) == Returned(ResponseEntity(401, NonNull(Message("Response status from GCIP: " + IntToString(resp.status)))))
    ensures SignUp(dto, Delivered(resp)) == SignUp(dto, Delivered(other))
    ensures var text := SignUp(dto, Delivered(resp)).value.body.value.text;
            IsIntLiteral(text[|StatusPrefix|..]) && ParseInt(text[|StatusPrefix|..]) == resp.status
  {
    var text := StatusMessage(resp.status);
    assert text[|StatusPrefix|..] == IntToString(resp.status);
    IntToStringRoundTrip(resp.status);
  }

  /** Distinct statuses give distinct sign-up answers. */
  lemma SignUpStatusDistinguished(dto: UserSignDto, a: ProviderResponse, b: ProviderResponse)
    requires a.status !in {200, 400} && b.status !in {200, 400}
    requires SignUp(dto, Delivered(a)) == SignUp(dto, Delivered(b))
    ensures a.status == b.status
  {
    var ta, tb := StatusMessage(a.status), StatusMessage(b.status);
    assert ta[|StatusPrefix|..] == IntToString(a.status);
    assert tb[|StatusPrefix|..] == IntToString(b.status);
    IntToStringInjective(a.status, b.status);
  }

  /** A 200 yields 200 and the session of the provider's localId and
      idToken with the caller's tenantId. */
  lemma SignUpSucceeds(dto: UserSignDto, resp: ProviderResponse, body: LoginUserResponse)
    requires resp.status == 200 && resp.asLogin == Decoded(NonNull(body))
    ensures SignUp(dto, Delivered(resp)) == Returned(ResponseEntity(200, NonNull(UserJson(UserInfoDto(body.localId, dto.tenantId, body.idToken)))))
  {
  }

  /** Sign-up answers 200 exactly when the provider answered 200 with a
      readable body, and the session's tenant is then the caller's. */
  lemma SignUpOkIff(dto: UserSignDto, exchange: Exchange)
    ensures (SignUp(dto, exchange).Returned? && SignUp(dto, exchange).value.status == 200)
        <==> (exchange.Delivered? && exchange.response.status == 200
              && exchange.response.asLogin.Decoded? && exchange.response.asLogin.value.NonNull?)
    ensures SignUp(dto, exchange).Returned? && SignUp(dto, exchange).value.status == 200 ==>
              SignUp(dto, exchange).value.body.value.UserJson?
              && SignUp(dto, exchange).value.body.value.user.tenantId == dto.tenantId
  {
  }

  /** Login has no error kinds: every non-200 status, 400 included, is null. */
  lemma LoginNon200IsNull(dto: UserSignDto, resp: ProviderResponse)
    requires resp.status != 200
    ensures Login(dto, Delivered(resp)) == Returned(Null)
  {
  }

  /** Login and sign-up compose the same session from a 200 reply, and fail
      the same way when its body is unreadable. */
  lemma LoginAgreesWithSignUp(dto: UserSignDto, resp: ProviderResponse)
    requires resp.status == 200
    ensures forall u: UserInfoDto ::
              Login(dto, Delivered(resp)) == Returned(NonNull(u))
              <==> SignUp(dto, Delivered(resp)) == Returned(ResponseEntity(200, NonNull(UserJson(u))))
    ensures Login(dto, Delivered(resp)).Thrown? <==> SignUp(dto, Delivered(resp)).Thrown?
    ensures Login(dto, Delivered(resp)).Thrown? ==> Login(dto, Delivered(resp)).exc == SignUp(dto, Delivered(resp)).exc
  {
  }

  /** Token lookup maps a 400 and every other non-200 status exactly as
      sign-up does (same status, same message). */
  lemma VerifyMapsLikeSignUp(idToken: string, dto: UserSignDto, exchange: Exchange)
    requires !(exchange.Delivered? && exchange.response.status == 200)
    ensures Verify(idToken, exchange).Thrown? <==> SignUp(dto, exchange).Thrown?
    ensures Verify(idToken, exchange).Thrown? ==> Verify(idToken, exchange).exc == SignUp(dto, exchange).exc
    ensures Verify(idToken, exchange).Returned? ==>
              Verify(idToken, exchange).value.status == SignUp(dto, exchange).value.status == 401
              && SignUp(dto, exchange).value.body.value == Message(Verify(idToken, exchange).value.body.value)
  {
  }

  /** On 200 the lookup's user data is discarded: the answer is always the
      fixed confirmation, for any body. */
  lemma VerifyOkDiscardsBody(idToken: string, resp: ProviderResponse)
    requires resp.status == 200
    ensures Verify(idToken, Delivered(resp)) == Returned(ResponseEntity(200, NonNull("ID Token verified.")))
  {
  }

  // ---- Tenants ---------------------------------------------------------------

  /** Tenant.CreateRequest: the display name, with email-link and password
      sign-in both switched on. */
  function CreateTenantRequest(tenantName: string): (r: TenantCreateRequest)
    ensures r.displayName == tenantName
    ensures r.emailLinkSignInEnabled && r.passwordSignInAllowed
  {
    TenantCreateRequest(tenantName, true, true)
  }

  /** The tenants of one fetch (a failed fetch contributes none). */
  function Contents(f: PageFetch): seq<Tenant> {
    if f.Fetched? then f.tenants else []
  }

  predicate AllFetched(fetches: seq<PageFetch>) {
    forall i | 0 <= i < |fetches| :: fetches[i].Fetched?
  }

  /** The pages' tenants, page after page, each page in its own order. */
  function Flatten(fetches: seq<PageFetch>): seq<Tenant> {
    if |fetches| == 0 then [] else Flatten(fetches[..|fetches| - 1]) + Contents(fetches[|fetches| - 1])
  }

  /** What draining the listing yields: every tenant in order, or the
      tenant manager's failure if any page fetch failed. */
  function Drained(fetches: seq<PageFetch>): Outcome<seq<Tenant>> {
    if AllFetched(fetches) then Returned(Flatten(fetches)) else Thrown(AdminApiError)
  }

  /** listTenants: iterate the listing tenant by tenant and append each one
      to an initially empty list. */
  method ListTenants(fetches: seq<PageFetch>) returns (r: Outcome<seq<Tenant>>)
    ensures r == Drained(fetches)
  {
    var allTenants: seq<Tenant> := [];
    var p := 0;
    while p < |fetches|
      invariant 0 <= p <= |fetches|
      invariant AllFetched(fetches[..p])
      invariant allTenants == Flatten(fetches[..p])
    {
      if fetches[p].FetchFailed? {
        return Thrown(AdminApiError);
      }
      var page := fetches[p].tenants;
      var i := 0;
      while i < |page|
        invariant 0 <= i <= |page|
        invariant allTenants == Flatten(fetches[..p]) + page[..i]
      {
        allTenants := allTenants + [page[i]];
        i := i + 1;
      }
      assert fetches[..p + 1][..p] == fetches[..p];
      p := p + 1;
    }
    assert fetches[..p] == fetches;
    r := Returned(allTenants);
  }

  lemma {:induction false} FlattenAppend(a: seq<PageFetch>, b: seq<PageFetch>)
    ensures Flatten(a + b) == Flatten(a) + Flatten(b)
    decreases |b|
  {
    if |b| == 0 {
      assert a + b == a;
    } else {
      var b' := b[..|b| - 1];
      assert (a + b)[..|a + b| - 1] == a + b';
      FlattenAppend(a, b');
    }
  }

  /** Page i sits in the result exactly between the pages before it and the
      pages after it: nothing is dropped, repeated or reordered. */
  lemma {:induction false} FlattenSplit(fetches: seq<PageFetch>, i: nat)
    requires i < |fetches|
    ensures Flatten(fetches) == Flatten(fetches[..i]) + Contents(fetches[i]) + Flatten(fetches[i + 1..])
  {
    var before, page, after := fetches[..i], [fetches[i]], fetches[i + 1..];
    assert fetches == (before + page) + after;
    FlattenAppend(before + page, after);
    FlattenAppend(before, page);
    assert page[..0] == [];
    assert Flatten(page) == Flatten(page[..0]) + Contents(fetches[i]);
  }

  /** A tenant is listed exactly when some page holds it. */
  lemma {:induction false} FlattenMembers(fetches: seq<PageFetch>, t: Tenant)
    ensures t in Flatten(fetches) <==> exists i | 0 <= i < |fetches| :: t in Contents(fetches[i])
  {
    if |fetches| > 0 {
      var init := fetches[..|fetches| - 1];
      FlattenMembers(init, t);
      if t in Flatten(fetches) && t !in Contents(fetches[|fetches| - 1]) {
        var i :| 0 <= i < |init| && t in Contents(init[i]);
        assert fetches[i] == init[i];
      }
      if exists i | 0 <= i < |fetches| :: t in Contents(fetches[i]) {
        var i :| 0 <= i < |fetches| && t in Contents(fetches[i]);
        if i < |fetches| - 1 {
          assert init[i] == fetches[i];
        }
      }
    }
  }

  // ---- Terraform -------------------------------------------------------------

  /** The command line run in TerraformDirectory for a tenant. */
  function TerraformCommand(tenant: string): (cmd: seq<string>)
    ensures |cmd| == 3 && cmd[0] == "sh" && cmd[1] == "-c"
  {
    ["sh", "-c", "/terraform apply -auto-approve -var=\"namespace=" + tenant + "\""]
  }

  /** The tenant name is embedded verbatim as `namespace=<tenant>`, so
      different tenants never share a command. */
  lemma TerraformCommandNamespace(tenant: string, other: string)
    ensures var arg := TerraformCommand(tenant)[2];
            var pre := "/terraform apply -auto-approve -var=\"namespace=";
            |arg| == |pre| + |tenant| + 1 && arg[..|pre|] == pre
            && arg[|pre|..|pre| + |tenant|] == tenant && arg[|arg| - 1] == '"'
    ensures TerraformCommand(tenant) == TerraformCommand(other) ==> tenant == other
  {
  }

  /** A finished process run: what was run, where, and how it ended. */
  datatype TerraformRun = TerraformRun(command: seq<string>, directory: string, result: Outcome<()>)

  /** runTerraform: run the apply command for the tenant in the tenant
      directory; complete normally when the process exits with 0 and throw
      otherwise. */
  function RunTerraform(tenant: string, exitValue: int): (r: TerraformRun)
    ensures r.command == TerraformCommand(tenant) && r.directory == "/opt/terraform/tenant"
    ensures r.result.Returned? <==> exitValue == 0
    ensures r.result.Thrown? ==> r.result.exc == Runtime("execution of script failed!")
  {
    TerraformRun(TerraformCommand(tenant), TerraformDirectory,
                 if exitValue != 0 then Thrown(Runtime(TerraformFailed)) else Returned(()))
  }
}
