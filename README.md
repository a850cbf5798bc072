# Auth-service gateway: a Dafny model of its decision logic

The auth service is a multi-tenant authentication gateway. Its HTTP endpoints
create, list and delete tenants through the Firebase tenant manager. They sign
users up, log them in and verify ID tokens through the Google Cloud Identity
Platform (GCIP) REST API. This project models the decisions the gateway
makes around those outbound calls:

- how a GCIP reply is interpreted. Sign-up and token lookup check the status in a fixed order: 400 first, then any other non-200, then 200. Login only tells 200 apart from every other status.
- how the session value is composed.
- how the paginated tenant listing is drained.
- the exit-code decision of the Terraform run.
- how each endpoint validates its request and chooses which outbound calls to make, in what order.

Every outbound call is an input to the model:

- A GCIP reply is `AuthenticationService.Exchange`. It is either a `TransportFailed`, or a `Delivered` response with its status and what Jackson's `readValue` yields for each of the two classes the service parses bodies into: a malformed body, the JSON `null`, or a value.
- The tenant manager's answer is an `Outcome` (`Returned` value or `Thrown` exception).
- The listing is the sequence of page fetches the SDK's iterator performs.
- The provisioning result is a `bool`.

Java `null` is explicit, with `Nullable`. So are Java's `"text" + null == "textnull"` and `Integer.toString`. `String.isBlank` is defined through `Character.isWhitespace`, written out character by character.

Endpoints are modelled in two ways:

- The pure endpoints return a `Handled` value. It holds the outcome and the list of outbound calls, in order.
- `/create-tenant` and `/list-tenants` are methods that build a ghost call trace step by step.

With those traces the model can state three things: a rejected request makes no call; the tenant is created before it is provisioned; and no delete call ever follows a failed provisioning. An exception that escapes an endpoint is shown as `Thrown`. Spring turns it into a 500 response, which is not modelled.

Files: `java_lang.dfy` (module `JavaLang`), `web.dfy` (`Web`: `ResponseEntity` and the status codes), `authentication_service.dfy` (`AuthenticationService`) and `authentication_api.dfy` (`AuthenticationApi`).

Two facts about the code shape the model:

- `/create-tenant` calls `service.runTerraformApply(name)` and expects a boolean (`AuthenticationApi.java:48`). The service does not define that method. It has only `void runTerraform` (`AuthenticationService.java:176`), which throws on a non-zero exit code. So `CreateTenant` takes the provisioning result as a `bool` input, and `RunTerraform` models the exit-code decision of the method that does exist.
- Sign-up parses the provider's body on 400 and on 200. Token lookup parses it only on 400, and login only on 200. Where a body is parsed, a malformed one throws. On every other status nothing is parsed, so a malformed body cannot throw there.

## Model

| member | source | states |
|---|---|---|
| JavaLang.NatToString | auth/src/main/java/de/htwg/cloud/qrcode/app/auth/AuthenticationService.java:90 | the decimal form of a status is a non-empty digit string with no leading zero |
| JavaLang.IntToString | auth/src/main/java/de/htwg/cloud/qrcode/app/auth/AuthenticationService.java:90 | Java's int-to-string conversion in string concatenation; it starts with '-' exactly for negative numbers |
| JavaLang.ParseNatToString | auth/src/main/java/de/htwg/cloud/qrcode/app/auth/AuthenticationService.java:90 | parsing the decimal digits of n gives back n |
| JavaLang.IntToStringRoundTrip | auth/src/main/java/de/htwg/cloud/qrcode/app/auth/AuthenticationService.java:90 | the printed status is a well-formed integer literal that parses back to the status |
| JavaLang.IntToStringInjective | auth/src/main/java/de/htwg/cloud/qrcode/app/auth/AuthenticationService.java:90 | different statuses never print the same |
| AuthenticationService.RejectionMessage | auth/src/main/java/de/htwg/cloud/qrcode/app/auth/AuthenticationService.java:84-87 | a 400 body that reads as an error object gives a message starting with "Message from GCIP: "; a malformed body throws the JSON exception, a null body or a missing error object throws a null-pointer exception, and a message is returned exactly when the body holds an error object |
| AuthenticationService.Session | auth/src/main/java/de/htwg/cloud/qrcode/app/auth/AuthenticationService.java:93-95 | a session is only built from a readable, non-null 200 body: userId is its localId, idToken its idToken, and tenantId the caller's, never the provider's |
| AuthenticationService.SignUp | auth/src/main/java/de/htwg/cloud/qrcode/app/auth/AuthenticationService.java:66-101 | sign-up answers only 200 or 401, always with a body; a transport failure propagates as a distinct exception |
| AuthenticationService.Login | auth/src/main/java/de/htwg/cloud/qrcode/app/auth/AuthenticationService.java:103-128 | a transport failure propagates; a returned session always carries the caller's tenantId |
| AuthenticationService.Verify | auth/src/main/java/de/htwg/cloud/qrcode/app/auth/AuthenticationService.java:130-158 | token lookup answers only 200 or 401, always with a body; a transport failure propagates |
| AuthenticationService.SignUpRejected | auth/src/main/java/de/htwg/cloud/qrcode/app/auth/AuthenticationService.java:84-87 | a 400 with an error object gives 401 with "Message from GCIP: " + message ("null" when absent); the provider's message can be read back verbatim |
| AuthenticationService.SignUpRejectedUnreadable | auth/src/main/java/de/htwg/cloud/qrcode/app/auth/AuthenticationService.java:84-86 | a 400 whose body is malformed, null or lacks the error object throws; it throws the JSON exception exactly when the body is malformed |
| AuthenticationService.SignUpUnavailable | auth/src/main/java/de/htwg/cloud/qrcode/app/auth/AuthenticationService.java:89-91 | any status other than 200 and 400 gives 401 with "Response status from GCIP: " + status; two replies with that status give the same answer whatever their bodies, so the body is not parsed; the status parses back from the message |
| AuthenticationService.SignUpStatusDistinguished | auth/src/main/java/de/htwg/cloud/qrcode/app/auth/AuthenticationService.java:89-91 | two such replies give the same sign-up answer only if their statuses are equal |
| AuthenticationService.SignUpSucceeds | auth/src/main/java/de/htwg/cloud/qrcode/app/auth/AuthenticationService.java:93-100 | a 200 gives 200 with UserInfoDto(localId, caller's tenantId, idToken) |
| AuthenticationService.SignUpOkIff | auth/src/main/java/de/htwg/cloud/qrcode/app/auth/AuthenticationService.java:84-100 | sign-up answers 200 exactly when the provider answered 200 with a readable body, and then the user carries the caller's tenantId |
| AuthenticationService.LoginNon200IsNull | auth/src/main/java/de/htwg/cloud/qrcode/app/auth/AuthenticationService.java:121-123 | login returns null for every non-200 status, 400 included |
| AuthenticationService.LoginAgreesWithSignUp | auth/src/main/java/de/htwg/cloud/qrcode/app/auth/AuthenticationService.java:125-127 | on a 200 reply, login returns a user u exactly when sign-up returns 200 with u, and both throw the same exception otherwise |
| AuthenticationService.VerifyMapsLikeSignUp | auth/src/main/java/de/htwg/cloud/qrcode/app/auth/AuthenticationService.java:148-155 | for every reply not a 200, token lookup gives the same status (401), the same message and the same exceptions as sign-up |
| AuthenticationService.VerifyOkDiscardsBody | auth/src/main/java/de/htwg/cloud/qrcode/app/auth/AuthenticationService.java:157 | a 200 always gives 200 with exactly "ID Token verified.", whatever the body holds |
| AuthenticationService.CreateTenantRequest | auth/src/main/java/de/htwg/cloud/qrcode/app/auth/AuthenticationService.java:54-58 | the creation request carries the given display name with email-link and password sign-in enabled |
| AuthenticationService.ListTenants | auth/src/main/java/de/htwg/cloud/qrcode/app/auth/AuthenticationService.java:160-168 | the tenant-by-tenant append loop yields the concatenation of all pages when every fetch succeeds, and the admin error when any fetch fails |
| AuthenticationService.FlattenAppend | auth/src/main/java/de/htwg/cloud/qrcode/app/auth/AuthenticationService.java:164-166 | draining two runs of pages gives the first run's tenants followed by the second's |
| AuthenticationService.FlattenSplit | auth/src/main/java/de/htwg/cloud/qrcode/app/auth/AuthenticationService.java:164-166 | page i's tenants sit in the result exactly between those of the earlier and of the later pages: nothing dropped or reordered |
| AuthenticationService.FlattenMembers | auth/src/main/java/de/htwg/cloud/qrcode/app/auth/AuthenticationService.java:164-166 | a tenant is in the result exactly when some page holds it |
| AuthenticationService.TerraformCommand | auth/src/main/java/de/htwg/cloud/qrcode/app/auth/AuthenticationService.java:179 | the process runs `sh -c` with the apply command |
| AuthenticationService.TerraformCommandNamespace | auth/src/main/java/de/htwg/cloud/qrcode/app/auth/AuthenticationService.java:179 | the tenant name is embedded verbatim as `namespace=<tenant>` at a fixed position; different tenants never share a command |
| AuthenticationService.RunTerraform | auth/src/main/java/de/htwg/cloud/qrcode/app/auth/AuthenticationService.java:176-195 | runs exactly `TerraformCommand(tenant)` in `/opt/terraform/tenant`; completes normally exactly when the exit value is 0, and otherwise throws "execution of script failed!" |
| AuthenticationApi.CreateTenant | auth/src/main/java/de/htwg/cloud/qrcode/app/auth/AuthenticationApi.java:38-54 | a null or blank name gives 400 with a null body and no call; otherwise the tenant is created first and provisioning runs second only if creation succeeded; a failed provisioning throws "Terraform apply has failed" after the tenant exists, and no delete call is ever made; 200 happens exactly when both succeed, with exactly the created tenant |
| AuthenticationApi.DeleteTenant | auth/src/main/java/de/htwg/cloud/qrcode/app/auth/AuthenticationApi.java:56-60 | any id, blank included, goes to the tenant manager in one delete call, and its outcome is returned unchanged |
| AuthenticationApi.Tenants | auth/src/main/java/de/htwg/cloud/qrcode/app/auth/AuthenticationApi.java:114-118 | one listing call; returns the concatenation of all pages exactly when every fetch succeeded, and the admin error otherwise |
| AuthenticationApi.SignUp | auth/src/main/java/de/htwg/cloud/qrcode/app/auth/AuthenticationApi.java:62-73 | a null or blank email, password or tenantId gives 400 with a null body and no call; otherwise one sign-up call is made and the service's answer is passed on unchanged |
| AuthenticationApi.Login | auth/src/main/java/de/htwg/cloud/qrcode/app/auth/AuthenticationApi.java:75-94 | the same three-field validation gives 400 with no call; otherwise exactly one sign-in call is made, a null user becomes 401 with a null body, a user u becomes 200 with u, and an exception of the service (transport failure, unreadable 200 body) escapes unchanged |
| AuthenticationApi.Verify | auth/src/main/java/de/htwg/cloud/qrcode/app/auth/AuthenticationApi.java:96-111 | a missing header or an empty value list gives 400 with "Required header is missing: " + header name and no call; a token shorter than 20 characters throws before any call; otherwise the first value alone is looked up and the service's answer is returned |
| AuthenticationApi.SignUpBadRequestIff | auth/src/main/java/de/htwg/cloud/qrcode/app/auth/AuthenticationApi.java:65-72 | /sign-up answers 400 exactly when a field is null or blank, and makes no call exactly then |
| AuthenticationApi.InvalidCredentialsIgnoreProvider | auth/src/main/java/de/htwg/cloud/qrcode/app/auth/AuthenticationApi.java:65-70 | for invalid credentials, /sign-up and /login give the same result whatever the provider would have answered |
| AuthenticationApi.LoginStatusMeaning | auth/src/main/java/de/htwg/cloud/qrcode/app/auth/AuthenticationApi.java:78-92 | /login: 400 exactly on invalid input; 401 with a null body exactly when the provider answered non-200; 200 exactly when the provider answered 200 with a readable body, and then the user carries the caller's tenantId |
| AuthenticationApi.LoginSessionMatchesSignUp | auth/src/main/java/de/htwg/cloud/qrcode/app/auth/AuthenticationApi.java:84-92 | for valid credentials and the same reply, /login answers 200 with u exactly when /sign-up answers 200 with u |
| AuthenticationApi.VerifyUsesFirstValue | auth/src/main/java/de/htwg/cloud/qrcode/app/auth/AuthenticationApi.java:98-106 | two header lists with the same first value give the same answer and the same calls |
| AuthenticationApi.VerifyStatusMeaning | auth/src/main/java/de/htwg/cloud/qrcode/app/auth/AuthenticationApi.java:98-110 | /verify answers 400 exactly when the header is missing or empty; it answers only 200, 400 or 401; and 200 exactly when a token of at least 20 characters got a 200 from the provider |
| AuthenticationApi.VerifyLoggingSafe | auth/src/main/java/de/htwg/cloud/qrcode/app/auth/AuthenticationApi.java:96-111 | corrected /verify: every token that is present is looked up, whatever its length |
| AuthenticationApi.VerifyAgreesWhenTokenLong | auth/src/main/java/de/htwg/cloud/qrcode/app/auth/AuthenticationApi.java:108 | the as-written and the corrected /verify agree on every request except one carrying a token shorter than 20 characters |
| AuthenticationApi.ShortTokenNeverVerified | auth/src/main/java/de/htwg/cloud/qrcode/app/auth/AuthenticationApi.java:108 | the 11-character token "short-token", which the provider accepts, throws as written and is verified by the corrected version |

## Findings

| source | as written | input that shows it | evidently intended | confidence | as-written member | corrected member |
|---|---|---|---|---|---|---|
| auth/src/main/java/de/htwg/cloud/qrcode/app/auth/AuthenticationApi.java:108 | the log line takes `substring(0, 20)` and `substring(length - 20)` of the token, which throws for a token shorter than 20 characters | header `X-Auth: short-token`, provider answering 200 | log a shortened token and still let the provider decide on every token | medium, not executed | AuthenticationApi.Verify (with AuthenticationApi.ShortTokenNeverVerified) | AuthenticationApi.VerifyLoggingSafe (with AuthenticationApi.VerifyAgreesWhenTokenLong) |

## Left out

- HTTP transport: URI construction with the API key, the 30 s timeouts, headers, and `HttpClient.send`. A reply is an input `Exchange`. A transport failure is `TransportFailed`, which becomes the `TransportError` exception.
- Jackson serialisation of the request bodies and of the 200 sign-up body. Parsing is reduced to its outcome for each target class. The 200 sign-up body is kept as the structured `UserInfoDto`, not JSON text.
- The Firebase SDK. Tenant creation and deletion are abstract outcomes. The listing is the sequence of page fetches its iterator performs, and any failed fetch is reported as `AdminApiError`. `AuthenticationService.createTenant` and `deleteTenant` do nothing beyond their SDK call. They appear only as the request they build (`CreateTenantRequest`) and as calls in the endpoint traces.
- `runTerraformApply`, the provisioning call `/create-tenant` makes, is not in the service's source, so its result is an input `bool`.
- `runTerraform` spawns a process, inherits its I/O, waits for it and reads stderr. Only the command line, the working directory and the exit-code decision are modelled. A failure to start the process is not modelled.
- Logging, except the log line on `/verify` whose `substring` calls can throw.
- Google credential loading and SDK initialisation (the `google/FirebaseInit.java` file) are not part of this model.
- Spring wiring: annotations, `@Value` injection, content types, and the mapping of an escaped exception to a 500 response.
- AuthenticationApi.Verify: the header lookup is exact on the name, while Spring's `HttpHeaders` matches names case-insensitively.
- AuthenticationApi.Verify: token length is counted in Unicode scalar values, while Java counts UTF-16 code units. The two differ only for characters outside the Basic Multilingual Plane.
