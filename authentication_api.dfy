/** AuthenticationApi: the HTTP endpoints. Each validates its request,
    then dispatches to the service. Every collaborator answer (the identity
    provider's reply, the tenant manager's result, the provisioning result)
    is an input, and each endpoint also yields the outbound calls it made,
    in order, so that "no call was made" and "create before provision" can
    be stated. */
module AuthenticationApi {
  import opened JavaLang
  import opened Web
  import Service = AuthenticationService

  /** The body of POST /create-tenant. */
  datatype CreateTenantDto = CreateTenantDto(name: Nullable<string>)

  /** A call leaving the gateway, to the tenant manager, the provisioning
      step or the identity provider. */
  datatype OutboundCall =
    | AdminCreateTenant(request: Service.TenantCreateRequest)
    | Provision(tenantName: string)
    | AdminDeleteTenant(tenantId: string)
    | AdminListTenants
    | ProviderSignUp(credentials: Service.UserSignDto)
    | ProviderSignIn(credentials: Service.UserSignDto)
    | ProviderLookup(idToken: string)

  /** How an endpoint ended, and the outbound calls it made on the way. */
  datatype Handled<+T> = Handled(outcome: Outcome<T>, calls: seq<OutboundCall>)

  /** Request headers: each name with its list of values. */
  type Headers = map<string, seq<string>>

  const MissingHeaderPrefix: string := "Required header is missing: "
  const TerraformApplyFailed: string := "Terraform apply has failed"
  /** The verify endpoint logs the first and the last this many characters of the token. */
  const TokenLogWidth: nat := 20

  /** The shared guard of /sign-up and /login: no field null or blank. */
  predicate ValidCredentials(dto: Service.UserSignDto) {
    !IsNullOrBlank(dto.email) && !IsNullOrBlank(dto.password) && !IsNullOrBlank(dto.tenantId)
  }

  /** POST /create-tenant: validate the name, create the tenant, then
      provision it; a failed provisioning throws after the tenant exists. */
  method CreateTenant(dto: CreateTenantDto, created: Outcome<Service.Tenant>, provisioned: bool)
    returns (r: Outcome<ResponseEntity<Service.Tenant>>, ghost calls: seq<OutboundCall>)
    ensures IsNullOrBlank(dto.name) ==> r == Returned(ResponseEntity(400, Null)) && calls == []
    ensures !IsNullOrBlank(dto.name) && created.Thrown? ==>
              r == Thrown(created.exc) && calls == [AdminCreateTenant(Service.CreateTenantRequest(dto.name.value))]
    ensures !IsNullOrBlank(dto.name) && created.Returned? ==>
              calls == [AdminCreateTenant(Service.CreateTenantRequest(dto.name.value)), Provision(dto.name.value)]
    ensures !IsNullOrBlank(dto.name) && created.Returned? && !provisioned ==>
              r == Thrown(Runtime("Terraform apply has failed"))
    ensures (r.Returned? && r.value.status == 200) <==> (!IsNullOrBlank(dto.name) && created.Returned? && provisioned)
    ensures r.Returned? && r.value.status == 200 ==> r.value.body == NonNull(created.value)
    ensures r.Returned? ==> r.value.status in {200, 400}
    ensures forall k | 0 <= k < |calls| :: !calls[k].AdminDeleteTenant?
  {
    calls := [];
    if IsNullOrBlank(dto.name) {
      r := Returned(ResponseEntity(BAD_REQUEST, Null));
      return;
    }
    var name := dto.name.value;

    calls := calls + [AdminCreateTenant(Service.CreateTenantRequest(name))];
    if created.Thrown? {
      r := Thrown(created.exc);
      return;
    }
    var tenant := created.value;

    calls := calls + [Provision(name)];
    if !provisioned {
      r := Thrown(Runtime(TerraformApplyFailed));
      return;
    }

    r := Returned(ResponseEntity(OK, NonNull(tenant)));
  }

  /** DELETE /delete-tenant: hand the id to the tenant manager as it came. */
  function DeleteTenant(tenantId: string, deleted: Outcome<()>): (h: Handled<()>)
    ensures h.calls == [AdminDeleteTenant(tenantId)]
    ensures h.outcome == deleted
  {
    Handled(deleted, [AdminDeleteTenant(tenantId)])
  }

  /** GET /list-tenants: the service's listing, unchanged. */
  method Tenants(fetches: seq<Service.PageFetch>)
    returns (r: Outcome<seq<Service.Tenant>>, ghost calls: seq<OutboundCall>)
    ensures calls == [AdminListTenants]
    ensures r.Returned? <==> Service.AllFetched(fetches)
    ensures r.Returned? ==> r.value == Service.Flatten(fetches)
    ensures r.Thrown? ==> r.exc == AdminApiError
  {
    calls := [AdminListTenants];
    r := Service.ListTenants(fetches);
  }

  /** POST /sign-up. */
  function SignUp(dto: Service.UserSignDto, exchange: Service.Exchange): (h: Handled<ResponseEntity<Service.SignUpBody>>)
    ensures !ValidCredentials(dto) ==> h == Handled(Returned(ResponseEntity(400, Null)), [])
    ensures ValidCredentials(dto) ==> h.calls == [ProviderSignUp(dto)]
    ensures ValidCredentials(dto) ==> h.outcome == Service.SignUp(dto, exchange)
  {
    if !ValidCredentials(dto) then Handled(Returned(ResponseEntity(BAD_REQUEST, Null)), [])
    else Handled(Service.SignUp(dto, exchange), [ProviderSignUp(dto)])
  }

  /** POST /login: a null session becomes 401. */
  function Login(dto: Service.UserSignDto, exchange: Service.Exchange): (h: Handled<ResponseEntity<Service.UserInfoDto>>)
    ensures !ValidCredentials(dto) ==> h == Handled(Returned(ResponseEntity(400, Null)), [])
    ensures ValidCredentials(dto) ==> h.calls == [ProviderSignIn(dto)]
    ensures ValidCredentials(dto) && Service.Login(dto, exchange).Thrown? ==>
              h.outcome == Thrown(Service.Login(dto, exchange).exc)
    ensures ValidCredentials(dto) && Service.Login(dto, exchange) == Returned(Null) ==>
              h.outcome == Returned(ResponseEntity(401, Null))
    ensures ValidCredentials(dto) && Service.Login(dto, exchange).Returned? && Service.Login(dto, exchange).value.NonNull? ==>
              h.outcome == Returned(ResponseEntity(200, Service.Login(dto, exchange).value))
  {
    if !ValidCredentials(dto) then Handled(Returned(ResponseEntity(BAD_REQUEST, Null)), [])
    else
      var outcome :=
        match Service.Login(dto, exchange)
        case Thrown(e) => Thrown(e)
        case Returned(Null) => Returned(ResponseEntity(UNAUTHORIZED, Null))
        case Returned(NonNull(user)) => Returned(ResponseEntity(OK, NonNull(user)));
      Handled(outcome, [ProviderSignIn(dto)])
  }

  /** POST /verify: the token is the first value of the configured header.
      Logging its first and last 20 characters throws for a shorter token,
      which therefore never reaches the provider. */
  function Verify(customAuthHeaderName: string, headers: Headers, exchange: Service.Exchange): (h: Handled<ResponseEntity<string>>)
    ensures (customAuthHeaderName !in headers || |headers[customAuthHeaderName]| == 0) ==>
              h == Handled(Returned(ResponseEntity(400, NonNull("Required header is missing: " + customAuthHeaderName))), [])
    ensures customAuthHeaderName in headers && |headers[customAuthHeaderName]| > 0 ==>
              var idToken := headers[customAuthHeaderName][0];
              if |idToken| < 20 then h == Handled(Thrown(IndexOutOfBounds), [])
              else h.calls == [ProviderLookup(idToken)] && h.outcome == Service.Verify(idToken, exchange)
  {
    if customAuthHeaderName !in headers || |headers[customAuthHeaderName]| == 0 then
      Handled(Returned(ResponseEntity(BAD_REQUEST, NonNull(MissingHeaderPrefix + customAuthHeaderName))), [])
    else
      var idToken := headers[customAuthHeaderName][0];
      if |idToken| < TokenLogWidth then Handled(Thrown(IndexOutOfBounds), [])
      else Handled(Service.Verify(idToken, exchange), [ProviderLookup(idToken)])
  }

  // ---- Properties across validation and dispatch --------------------------

  /** On /sign-up, 400 means exactly "a field is null or blank": the service
      never answers 400 itself. */
  lemma SignUpBadRequestIff(dto: Service.UserSignDto, exchange: Service.Exchange)
    ensures (SignUp(dto, exchange).outcome.Returned? && SignUp(dto, exchange).outcome.value.status == 400)
            <==> !ValidCredentials(dto)
    ensures SignUp(dto, exchange).calls == [] <==> !ValidCredentials(dto)
  {
  }

  /** A rejected request is decided before any outbound call: the
      provider's reply cannot influence it. */
  lemma InvalidCredentialsIgnoreProvider(dto: Service.UserSignDto, e1: Service.Exchange, e2: Service.Exchange)
    requires !ValidCredentials(dto)
    ensures SignUp(dto, e1) == SignUp(dto, e2)
    ensures Login(dto, e1) == Login(dto, e2)
  {
  }

  /** /login: 200 exactly when the provider accepted with a readable body,
      with the caller's tenant in the session; 401 exactly when the
      provider answered anything but 200; 400 exactly on invalid input. */
  lemma LoginStatusMeaning(dto: Service.UserSignDto, exchange: Service.Exchange)
    ensures var h := Login(dto, exchange);
            (h.outcome.Returned? && h.outcome.value.status == 400) <==> !ValidCredentials(dto)
    ensures var h := Login(dto, exchange);
            (h.outcome.Returned? && h.outcome.value.status == 401)
            <==> ValidCredentials(dto) && exchange.Delivered? && exchange.response.status != 200
    ensures var h := Login(dto, exchange);
            (h.outcome.Returned? && h.outcome.value.status == 200)
            <==> ValidCredentials(dto) && exchange.Delivered? && exchange.response.status == 200
                 && exchange.response.asLogin.Decoded? && exchange.response.asLogin.value.NonNull?
    ensures var h := Login(dto, exchange);
            h.outcome.Returned? && h.outcome.value.status == 200 ==>
              h.outcome.value.body.NonNull? && h.outcome.value.body.value.tenantId == dto.tenantId
    ensures var h := Login(dto, exchange);
            h.outcome.Returned? && h.outcome.value.status != 200 ==> h.outcome.value.body.Null?
  {
  }

  /** /login and /sign-up hand back the same session for the same 200 reply. */
  lemma LoginSessionMatchesSignUp(dto: Service.UserSignDto, exchange: Service.Exchange, u: Service.UserInfoDto)
    requires ValidCredentials(dto)
    ensures Login(dto, exchange).outcome == Returned(ResponseEntity(200, NonNull(u)))
            <==> SignUp(dto, exchange).outcome == Returned(ResponseEntity(200, NonNull(Service.UserJson(u))))
  {
  }

  /** /verify only ever looks at the first value of the header: lists that
      agree on it give the same answer. */
  lemma VerifyUsesFirstValue(name: string, h1: Headers, h2: Headers, exchange: Service.Exchange)
    requires name in h1 && name in h2 && |h1[name]| > 0 && |h2[name]| > 0
    requires h1[name][0] == h2[name][0]
    ensures Verify(name, h1, exchange) == Verify(name, h2, exchange)
  {
  }

  /** /verify answers 400 exactly when the header is missing or empty, and
      otherwise only 200 or 401, or it throws. */
  lemma VerifyStatusMeaning(name: string, headers: Headers, exchange: Service.Exchange)
    ensures var h := Verify(name, headers, exchange);
            (h.outcome.Returned? && h.outcome.value.status == 400)
            <==> (name !in headers || |headers[name]| == 0)
    ensures var h := Verify(name, headers, exchange);
            h.outcome.Returned? ==> h.outcome.value.status in {200, 400, 401}
    ensures var h := Verify(name, headers, exchange);
            (h.outcome.Returned? && h.outcome.value.status == 200)
            <==> (name in headers && |headers[name]| > 0 && |headers[name][0]| >= 20
                  && exchange.Delivered? && exchange.response.status == 200)
  {
  }

  // ---- The token-shortening log line ----------------------------------------

  /** /verify with the log line made safe, as evidently intended: any present
      token reaches the provider, whatever its length. */
  function VerifyLoggingSafe(customAuthHeaderName: string, headers: Headers, exchange: Service.Exchange): (h: Handled<ResponseEntity<string>>)
    ensures (customAuthHeaderName !in headers || |headers[customAuthHeaderName]| == 0) ==>
              h == Handled(Returned(ResponseEntity(400, NonNull("Required header is missing: " + customAuthHeaderName))), [])
    ensures customAuthHeaderName in headers && |headers[customAuthHeaderName]| > 0 ==>
              h.calls == [ProviderLookup(headers[customAuthHeaderName][0])]
              && h.outcome == Service.Verify(headers[customAuthHeaderName][0], exchange)
  {
    if customAuthHeaderName !in headers || |headers[customAuthHeaderName]| == 0 then
      Handled(Returned(ResponseEntity(BAD_REQUEST, NonNull(MissingHeaderPrefix + customAuthHeaderName))), [])
    else
      var idToken := headers[customAuthHeaderName][0];
      Handled(Service.Verify(idToken, exchange), [ProviderLookup(idToken)])
  }

  /** The two agree on every request except one carrying a token shorter
      than 20 characters. */
  lemma VerifyAgreesWhenTokenLong(name: string, headers: Headers, exchange: Service.Exchange)
    requires !(name in headers && |headers[name]| > 0 && |headers[name][0]| < 20)
    ensures Verify(name, headers, exchange) == VerifyLoggingSafe(name, headers, exchange)
  {
  }

  /** A token the provider would accept is refused as written when it is
      short: the request throws and no lookup is made. */
  lemma ShortTokenNeverVerified()
    ensures var headers := map["X-Auth" := ["short-token"]];
            var ok := Service.Delivered(Service.ProviderResponse(200, Service.Malformed, Service.Malformed));
            Verify("X-Auth", headers, ok) == Handled(Thrown(IndexOutOfBounds), [])
            && VerifyLoggingSafe("X-Auth", headers, ok)
               == Handled(Returned(ResponseEntity(200, NonNull("ID Token verified."))), [ProviderLookup("short-token")])
  {
  }
}
