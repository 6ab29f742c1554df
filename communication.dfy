/** The decisions inside the HTTP calls of src/communication.rs. Sending the
    request and parsing JSON are oracles: the model receives the response
    status and what the parser produced. */
module Communication {
  import opened Wrappers
  import opened Model

  const StatusOk: nat := 200
  const StatusForbidden: nat := 403

  const LoginEndpoint := "/login"
  const SearchEndpoint := "/products?search="
  const ProductEndpoint := "/products/"

  /** A request as the transport would send it. */
  datatype Request =
    | Get(url: string, sessionHeader: string)
    | Post(url: string, body: map<string, string>)

  /** What the JSON parser made of a 200 login response: the serialised
      forms (`Value::to_string`) of its `sessionId` and `username` members,
      which read `null` when the member is absent. */
  datatype LoginBody = LoginBody(sessionIdJson: string, usernameJson: string)

  /** The session id is the serialised `sessionId` without its first and
      last characters. Rust slices at byte offsets 1 and len - 1; taking
      characters instead agrees because every JSON serialisation begins
      and ends with an ASCII character (a quote, bracket, brace, digit or
      letter). */
  function SessionIdOf(serialised: string): (id: string)
    requires |serialised| >= 2
    ensures |id| + 2 == |serialised|
    ensures serialised == [serialised[0]] + id + [serialised[|serialised| - 1]]
  {
    serialised[1..|serialised| - 1]
  }

  /** For a JSON string that needed no escaping, the session id is the raw
      string. */
  lemma QuotedSessionId(raw: string)
    ensures SessionIdOf("\"" + raw + "\"") == raw
  {
    var q := "\"" + raw + "\"";
    assert q[1..|q| - 1] == raw;
  }

  /** `login` builds its JSON body by inserting the two fields in turn. */
  method LoginRequest(url: string, username: string, password: string) returns (req: Request)
    ensures req.Post? && req.url == url + LoginEndpoint
    ensures req.body.Keys == {"username", "password"}
    ensures req.body["username"] == username && req.body["password"] == password
  {
    var body: map<string, string> := map[];
    body := body["username" := username];
    body := body["password" := password];
    req := Post(url + LoginEndpoint, body);
  }

  /** The reply `login` makes of the response. `body` is `None` when the
      body of a 200 response does not parse as JSON. */
  function ClassifyLogin(status: nat, body: Option<LoginBody>): (r: Result<LoginResult, Reason>)
    requires status == StatusOk && body.Some? ==> |body.value.sessionIdJson| >= 2
    ensures r.Ok? <==> status == StatusOk && body.Some?
    ensures r == Err(InvalidCredentials) <==> status == StatusForbidden
    ensures r == Err(Other) <==> (status == StatusOk && body.None?) || (status != StatusOk && status != StatusForbidden)
    ensures r.Ok? ==> r.value.sessionId == SessionIdOf(body.value.sessionIdJson)
    ensures r.Ok? ==> r.value.username == body.value.usernameJson && r.value.roles == []
  {
    if status == StatusOk then
      match body
      case None => Err(Other)
      case Some(v) => Ok(LoginResult(SessionIdOf(v.sessionIdJson), v.usernameJson, []))
    else if status == StatusForbidden then Err(InvalidCredentials)
    else Err(Other)
  }

  /** The URL `search` requests: the query is appended as it is, with no
      encoding. */
  function SearchUrl(url: string, query: string): (u: string)
    ensures |u| == |url| + |SearchEndpoint| + |query|
    ensures u[..|url|] == url
    ensures u[|url|..|url| + |SearchEndpoint|] == SearchEndpoint
    ensures u[|url| + |SearchEndpoint|..] == query
  {
    url + SearchEndpoint + query
  }

  /** The URL `get_product` requests. */
  function ProductUrl(url: string, id: string): (u: string)
    ensures |u| == |url| + |ProductEndpoint| + |id|
    ensures u[..|url|] == url
    ensures u[|url|..|url| + |ProductEndpoint|] == ProductEndpoint
    ensures u[|url| + |ProductEndpoint|..] == id
  {
    url + ProductEndpoint + id
  }

  /** Distinct queries give distinct search URLs on one host. */
  lemma SearchUrlInjective(url: string, q1: string, q2: string)
    requires SearchUrl(url, q1) == SearchUrl(url, q2)
    ensures q1 == q2
  {
    var n := |url| + |SearchEndpoint|;
    assert q1 == SearchUrl(url, q1)[n..];
  }

  /** The request `search` sends, carrying the session id header. */
  function SearchRequest(url: string, sessionId: string, query: string): (req: Request)
    ensures req.Get? && req.sessionHeader == sessionId
    ensures req.url == SearchUrl(url, query)
  {
    Get(SearchUrl(url, query), sessionId)
  }

  /** `get_product`: the request it sends and its result, `None` exactly
      when the body does not parse as a product. `parsed` is what the JSON
      parser returned for the response body. */
  function GetProduct<E>(url: string, sessionId: string, id: string, parsed: Result<Product, E>): (r: (Request, Option<Product>))
    ensures r.0.Get? && r.0.sessionHeader == sessionId
    ensures r.0.url == ProductUrl(url, id)
    ensures r.1.None? <==> parsed.Err?
    ensures parsed.Ok? ==> r.1 == Some(parsed.value)
  {
    var product := match parsed
      case Ok(p) => Some(p)
      case Err(_) => None;
    (Get(ProductUrl(url, id), sessionId), product)
  }
}
