/** The shape of the requests the application sends to the platform API,
    and the sign-in step: its input guard and how the bearer token is read
    from the response. The network exchange itself is not modelled. */
module Api {
  import opened Js

  /** Every request path is appended to this origin. */
  const ApiBase := "https://platform-api.unith.ai"

  const Accept := "Accept"
  const ContentType := "Content-Type"
  const Authorization := "Authorization"
  const Json := "application/json"

  const MissingCredentials := "Please enter email and secret key."
  const NoTokenReturned := "No token returned. Check credentials."

  /** A JSON object whose members are all strings: every request body the
      application sends has this shape, and so do the request headers. */
  type Object = map<string, string>

  /** What `fetch` is handed: the URL and the options object built by `api`. */
  datatype Request = Request(
    url: string,
    httpMethod: string,
    mode: string,
    headers: Object,
    body: Option<Object>)

  /** The request `api` hands to `fetch` for a path, method and body: the method
      defaults to GET; `Content-Type` is sent only when the method is not
      GET, `Authorization` only when a token is held, and a body only when
      one is given. */
  function Call(token: string, path: string, httpMethod: Option<string>, body: Option<Object>)
    : (r: Request)
    ensures r.url == ApiBase + path
    ensures httpMethod.None? ==> r.httpMethod == "GET"
    ensures httpMethod.Some? ==> r.httpMethod == httpMethod.value
    ensures r.mode == "cors"
    ensures Accept in r.headers && r.headers[Accept] == Json
    ensures ContentType in r.headers <==> r.httpMethod != "GET"
    ensures ContentType in r.headers ==> r.headers[ContentType] == Json
    ensures Authorization in r.headers <==> token != ""
    ensures Authorization in r.headers ==> r.headers[Authorization] == "Bearer " + token
    ensures r.headers.Keys <= {Accept, ContentType, Authorization}
    ensures r.body == body
  {
    var m := if httpMethod.Some? then httpMethod.value else "GET";
    var accept := map[Accept := Json];
    var typed := if m != "GET" then accept[ContentType := Json] else accept;
    var headers := if token != "" then typed[Authorization := "Bearer " + token] else typed;
    Request(ApiBase + path, m, "cors", headers, body)
  }

  /** The method decides only whether `Content-Type` is sent: every other
      header, the URL and the body are the same for any two methods. */
  lemma MethodOnlyAffectsContentType(token: string, path: string, m1: Option<string>,
                                     m2: Option<string>, body: Option<Object>)
    ensures var r1, r2 := Call(token, path, m1, body), Call(token, path, m2, body);
      && r1.headers - {ContentType} == r2.headers - {ContentType}
      && r1.url == r2.url && r1.body == r2.body
  {
  }

  /** The token request of `getToken`: refused before any request is made
      when the email or the secret key is empty. */
  function TokenCall(token: string, email: string, secretKey: string): (r: Result<Request>)
    ensures r.Err? <==> email == "" || secretKey == ""
    ensures r.Err? ==> r.message == MissingCredentials
    ensures r.Ok? ==> r.value.url == ApiBase + "/auth/token" && r.value.httpMethod == "POST"
    ensures r.Ok? ==> r.value.body == Some(map["email" := email, "secretKey" := secretKey])
    ensures r.Ok? ==> ContentType in r.value.headers
    ensures r.Ok? ==> (Authorization in r.value.headers <==> token != "")
    ensures r.Ok? && token != "" ==> r.value.headers[Authorization] == "Bearer " + token
  {
    if email == "" || secretKey == "" then Err(MissingCredentials)
    else
      Ok(Call(token, "/auth/token", Some("POST"),
              Some(map["email" := email, "secretKey" := secretKey])))
  }

  /** The nested `data` object of a token response. */
  datatype TokenData = TokenData(bearer: Option<string>)

  /** A token response: the token is either at the top level or at
      `data.bearer`. */
  datatype TokenResponse = TokenResponse(token: Option<string>, data: Option<TokenData>)

  /** The bearer token nested in the response's `data` object, if any. */
  function Bearer(resp: Option<TokenResponse>): Option<string> {
    if resp.Some? && resp.value.data.Some? then resp.value.data.value.bearer else None
  }

  /** The token at the top level of the response, if any. */
  function TopToken(resp: Option<TokenResponse>): Option<string> {
    if resp.Some? then resp.value.token else None
  }

  /** The token handed back by sign-in: the top-level token when it is
      non-empty, else the nested bearer token; sign-in fails when neither is
      a non-empty string. */
  function ExtractToken(resp: Option<TokenResponse>): (r: Result<string>)
    ensures r.Ok? <==> Truthy(TopToken(resp)) || Truthy(Bearer(resp))
    ensures r.Ok? ==> r.value != ""
    ensures Truthy(TopToken(resp)) ==> r == Ok(TopToken(resp).value)
    ensures !Truthy(TopToken(resp)) && Truthy(Bearer(resp)) ==> r == Ok(Bearer(resp).value)
    ensures r.Err? ==> r.message == NoTokenReturned
  {
    var chain := [TopToken(resp), Bearer(resp)];
    assert chain[0] == TopToken(resp) && chain[1] == Bearer(resp);
    var t := Or(chain);
    if t == "" then Err(NoTokenReturned) else Ok(t)
  }

  /** Signing in as a whole, given the platform's answer to the token request:
      the credentials guard comes first, then the token is read from the
      answer. */
  function SignIn(email: string, secretKey: string, resp: Option<TokenResponse>): (r: Result<string>)
    ensures r.Ok? ==> email != "" && secretKey != "" && r == ExtractToken(resp)
    ensures r.Err? ==> r.message == MissingCredentials || r.message == NoTokenReturned
    ensures r == Err(MissingCredentials) <==> TokenCall("", email, secretKey).Err?
    ensures r == Err(NoTokenReturned) <==> TokenCall("", email, secretKey).Ok? && ExtractToken(resp).Err?
  {
    match TokenCall("", email, secretKey)
    case Err(message) => Err(message)
    case Ok(_) => ExtractToken(resp)
  }
}
