/** The generic secured-API client `SecuredAPI` of pyclient/general.py:
    credential headers chosen at construction, a sticky "latest URL" field
    that `_get_url` joins from the endpoint and a service path, and a
    request routine that retries on HTTP statuses of 400 and above.

    The HTTP transport is not modelled: each request is recorded as a
    `Sent` value and the server's answers are given as a sequence of
    status codes, one per request.  Base64 encoding is an arbitrary
    function passed in by the caller. */
module SecuredApi {
  import opened Wrappers
  import opened Text

  datatype ApiError =
    | NoCredentials              // "No credentials supplied"
    | EndpointMissing            // `None.strip('/')` when no endpoint was configured
    | NoUrl                      // the `assert self.url` in `_get_url`
    | UnknownMethod(verb: string)
    | RequestFailed(verb: string, url: string)

  /** The verbs `_request` knows. */
  const Verbs: set<string> := {"GET", "POST", "DELETE"}

  /** One request put on the wire. */
  datatype Sent = Sent(verb: string, url: string)

  /** Headers and `api_key` chosen by the constructor. */
  datatype Auth = Auth(headers: map<string, string>, apiKey: Option<string>)

  /** Python truthiness of an optional string argument. */
  predicate Given(o: Option<string>) {
    o.Some? && o.value != ""
  }

  /** The headers `__init__` builds: `Accept` always, then basic credentials
      when both username and password are given, else the token verbatim,
      else no client at all. */
  function AuthHeaders(username: Option<string>, password: Option<string>, token: Option<string>,
                       b64: string -> string): (r: Option<Auth>)
    ensures r.None? <==> !(Given(username) && Given(password)) && !Given(token)
    ensures r.Some? ==> r.value.headers.Keys == {"Accept", "authorization"}
                        && r.value.headers["Accept"] == "application/json"
    ensures r.Some? && Given(username) && Given(password) ==>
              var key := b64(username.value + ":" + password.value);
              r.value.apiKey == Some(key) && r.value.headers["authorization"] == "Basic " + key
    ensures r.Some? && !(Given(username) && Given(password)) ==>
              r.value.apiKey == None && r.value.headers["authorization"] == token.value
  {
    var accept := map["Accept" := "application/json"];
    if Given(username) && Given(password) then
      var key := b64(username.value + ":" + password.value);
      Some(Auth(accept["authorization" := "Basic " + key], Some(key)))
    else if Given(token) then
      Some(Auth(accept["authorization" := token.value], None))
    else
      None
  }

  /** `'/'.join(s.strip('/') for s in [endpoint, service_path])`. */
  function Join(endpoint: string, path: string): string
  {
    Strip(endpoint, '/') + "/" + Strip(path, '/')
  }

  /** A string with no slash at either end is left alone by `strip('/')`. */
  lemma StripUnslashed(s: string)
    requires s == [] || (s[0] != '/' && s[|s| - 1] != '/')
    ensures Strip(s, '/') == s
  {
    assert LeadingCount(s, '/') == 0;
  }

  /** Joining the endpoint onto an already joined URL puts the endpoint in
      twice: the URL a retry of `_request` goes to is never the URL of the
      failed request. */
  lemma RetryRejoinsEndpoint(endpoint: string, path: string)
    requires Strip(endpoint, '/') != "" && Strip(path, '/') != ""
    ensures Join(endpoint, Join(endpoint, path)) == Strip(endpoint, '/') + "/" + Join(endpoint, path)
    ensures Join(endpoint, Join(endpoint, path)) != Join(endpoint, path)
  {
    var u := Join(endpoint, path);
    var e, p := Strip(endpoint, '/'), Strip(path, '/');
    assert u[0] == e[0] && u[|u| - 1] == p[|p| - 1];
    StripUnslashed(u);
  }

  /** Each request after the first goes to the endpoint joined onto the
      URL of the request before it. */
  ghost predicate Rejoined(endpoint: string, sent: seq<Sent>) {
    forall i, j :: 0 <= i && j == i + 1 && j < |sent| ==> sent[j].url == Join(endpoint, sent[i].url)
  }

  lemma RejoinedCons(endpoint: string, first: Sent, rest: seq<Sent>)
    requires rest != [] ==> rest[0].url == Join(endpoint, first.url)
    requires |rest| > 1 ==> Rejoined(endpoint, rest)
    ensures Rejoined(endpoint, [first] + rest)
  {
    var all := [first] + rest;
    assert forall i :: 1 <= i < |all| ==> all[i] == rest[i - 1];
  }

  /** The number of requests `_request` sends when the server answers
      `statuses` in turn and `retry` retries are allowed: up to the first
      status below 400, and never more than `retry + 1`. */
  function Tries(statuses: seq<int>, retry: nat): (n: nat)
    requires |statuses| > retry
    ensures 1 <= n <= retry + 1
    ensures forall i :: 0 <= i < n - 1 ==> statuses[i] >= 400
    ensures statuses[n - 1] < 400 || n == retry + 1
    decreases retry
  {
    if statuses[0] < 400 || retry == 0 then 1 else 1 + Tries(statuses[1..], retry - 1)
  }

  /** The outcome of a request whose URL resolved and whose verb is known:
      `Tries` requests, all with `verb`, and the last status decides: below
      400 it is the response, otherwise "Could not <verb>: <last URL>". */
  ghost predicate Served(verb: string, statuses: seq<int>, retry: nat, r: Result<int, ApiError>, sent: seq<Sent>)
    requires |statuses| > retry
  {
    && |sent| == Tries(statuses, retry)
    && (forall i :: 0 <= i < |sent| ==> sent[i].verb == verb)
    && (statuses[|sent| - 1] < 400 ==> r == Success(statuses[|sent| - 1]))
    && (statuses[|sent| - 1] >= 400 ==> r == Failure(RequestFailed(verb, sent[|sent| - 1].url)))
  }

  /** What every run of `_request` keeps to, whatever the URL: at most
      `retry + 1` requests, all with `verb`, each one before the last
      answered with a status of 400 or more; a response is the last status,
      below 400; "Could not ..." comes only after `retry + 1` failed
      requests and names the last URL. */
  ghost predicate Attempted(verb: string, statuses: seq<int>, retry: nat, r: Result<int, ApiError>, sent: seq<Sent>)
    requires |statuses| > retry
  {
    && |sent| <= retry + 1
    && (forall i :: 0 <= i < |sent| ==> sent[i].verb == verb)
    && (r.Success? ==> |sent| >= 1 && r.value == statuses[|sent| - 1] < 400)
    && (forall i :: 0 <= i < |sent| - 1 ==> statuses[i] >= 400)
    && (r.Failure? && r.error.RequestFailed? ==>
          |sent| == retry + 1 && statuses[retry] >= 400 && r.error == RequestFailed(verb, sent[retry].url))
  }

  lemma AttemptedCons(verb: string, statuses: seq<int>, retry: nat, r: Result<int, ApiError>, first: Sent, rest: seq<Sent>)
    requires |statuses| > retry > 0 && statuses[0] >= 400 && first.verb == verb
    requires Attempted(verb, statuses[1..], retry - 1, r, rest)
    ensures Attempted(verb, statuses, retry, r, [first] + rest)
  {
    var all := [first] + rest;
    assert forall i :: 1 <= i < |all| ==> all[i] == rest[i - 1];
  }

  /** One request that fails and is retried, followed by what the retry
      sent, is served with one more try. */
  lemma ServedCons(verb: string, statuses: seq<int>, retry: nat, r: Result<int, ApiError>, first: Sent, rest: seq<Sent>)
    requires |statuses| > retry > 0 && statuses[0] >= 400 && first.verb == verb
    requires Served(verb, statuses[1..], retry - 1, r, rest)
    ensures Served(verb, statuses, retry, r, [first] + rest)
  {
    var all := [first] + rest;
    assert forall i :: 1 <= i < |all| ==> all[i] == rest[i - 1];
    assert statuses[|all| - 1] == statuses[1..][|rest| - 1];
  }

  /** The URLs `_request` as written goes to: the first one is the service
      path joined to the endpoint, or the stored URL when no path is given;
      each retry joins the endpoint onto the URL before it; the stored URL
      ends as the last one used. */
  ghost predicate Trail(endpoint: Option<string>, servicePath: Option<string>, url0: Option<string>,
                        url: Option<string>, sent: seq<Sent>)
  {
    && (sent != [] ==> url == Some(sent[|sent| - 1].url))
    && (sent != [] && Given(servicePath) ==> endpoint.Some? && sent[0].url == Join(endpoint.value, servicePath.value))
    && (sent != [] && !Given(servicePath) ==> url0 == Some(sent[0].url))
    && (|sent| > 1 ==> endpoint.Some? && Rejoined(endpoint.value, sent))
  }

  /** A request to `u` followed by a retry that passes `u` back in as the
      service path. */
  lemma TrailCons(endpoint: Option<string>, servicePath: Option<string>, url0: Option<string>, u: string,
                  url: Option<string>, first: Sent, rest: seq<Sent>)
    requires first.url == u
    requires Given(servicePath) ==> endpoint.Some? && u == Join(endpoint.value, servicePath.value)
    requires !Given(servicePath) ==> url0 == Some(u)
    requires Given(Some(u)) && (rest == [] ==> url == Some(u))
    requires Trail(endpoint, Some(u), Some(u), url, rest)
    ensures Trail(endpoint, servicePath, url0, url, [first] + rest)
  {
    if rest != [] {
      RejoinedCons(endpoint.value, first, rest);
    }
  }

  /** The URLs of `_request` with the retries going back to the first URL:
      the service path joined to the endpoint, or the stored URL when no
      path is given, every time; it stays the stored URL. */
  ghost predicate Stayed(endpoint: Option<string>, servicePath: Option<string>, url0: Option<string>,
                         url: Option<string>, sent: seq<Sent>)
  {
    && (sent != [] ==> url == Some(sent[0].url))
    && (sent != [] && Given(servicePath) ==> endpoint.Some? && sent[0].url == Join(endpoint.value, servicePath.value))
    && (sent != [] && !Given(servicePath) ==> url0 == Some(sent[0].url))
    && (forall i :: 0 <= i < |sent| ==> sent[i].url == sent[0].url)
  }

  /** A request to `u` followed by a retry that reuses the stored URL `u`. */
  lemma StayedCons(endpoint: Option<string>, servicePath: Option<string>, url0: Option<string>, u: string,
                   url: Option<string>, first: Sent, rest: seq<Sent>)
    requires first.url == u && rest != []
    requires Given(servicePath) ==> endpoint.Some? && u == Join(endpoint.value, servicePath.value)
    requires !Given(servicePath) ==> url0 == Some(u)
    requires Stayed(endpoint, None, Some(u), url, rest)
    ensures Stayed(endpoint, servicePath, url0, url, [first] + rest)
  {
    var all := [first] + rest;
    assert forall i :: 1 <= i < |all| ==> all[i] == rest[i - 1];
  }

  class SecuredAPI {
    const endpoint: Option<string>
    var url: Option<string>        // latest URL used
    var apiKey: Option<string>
    var headers: map<string, string>

    constructor (endpoint: Option<string>, auth: Auth)
      ensures this.endpoint == endpoint && url == None
      ensures apiKey == auth.apiKey && headers == auth.headers
    {
      this.endpoint := endpoint;
      url := None;
      apiKey := auth.apiKey;
      headers := auth.headers;
    }

    /** `SecuredAPI.__init__`: fails when no credentials are supplied. */
    static method Create(endpoint: Option<string>, username: Option<string>, password: Option<string>,
                         token: Option<string>, b64: string -> string)
      returns (r: Result<SecuredAPI, ApiError>)
      ensures r.Failure? <==> AuthHeaders(username, password, token, b64).None?
      ensures r.Failure? ==> r.error == NoCredentials
      ensures r.Success? ==> fresh(r.value) && r.value.endpoint == endpoint && r.value.url == None
      ensures r.Success? ==>
                Auth(r.value.headers, r.value.apiKey) == AuthHeaders(username, password, token, b64).value
    {
      var headers := map["Accept" := "application/json"];
      var apiKey: Option<string> := None;
      if Given(username) && Given(password) {
        var credentials := username.value + ":" + password.value;
        apiKey := Some(b64(credentials));
        headers := headers["authorization" := "Basic " + apiKey.value];
      } else if Given(token) {
        headers := headers["authorization" := token.value];
      } else {
        return Failure(NoCredentials);
      }
      var api := new SecuredAPI(endpoint, Auth(headers, apiKey));
      return Success(api);
    }

    /** `_get_url`: a non-empty service path replaces the sticky URL with the
        endpoint joined to it; an empty one reuses the URL stored last time. */
    method GetUrl(servicePath: Option<string>) returns (r: Result<string, ApiError>)
      modifies this
      ensures headers == old(headers) && apiKey == old(apiKey)
      ensures Given(servicePath) && endpoint.Some? ==> url == Some(Join(endpoint.value, servicePath.value))
      ensures !(Given(servicePath) && endpoint.Some?) ==> url == old(url)
      ensures Given(servicePath) && endpoint.None? ==> r == Failure(EndpointMissing)
      ensures !Given(servicePath) ==> (r.Success? <==> url.Some? && url.value != "")
      ensures !Given(servicePath) && r.Failure? ==> r.error == NoUrl
      ensures r.Success? ==> url == Some(r.value) && r.value != ""
      ensures Given(servicePath) && endpoint.Some? ==> r.Success?
      ensures r.Success? <==> old(UrlResolves(servicePath))
      ensures r.Failure? ==> r.error == if Given(servicePath) then EndpointMissing else NoUrl
    {
      if Given(servicePath) {
        if endpoint.None? {
          return Failure(EndpointMissing);
        }
        url := Some(Join(endpoint.value, servicePath.value));
      }
      if url.None? || url.value == "" {
        return Failure(NoUrl);
      }
      return Success(url.value);
    }

    /** `_get_url(servicePath)` would succeed. */
    predicate UrlResolves(servicePath: Option<string>)
      reads this
    {
      if Given(servicePath) then endpoint.Some? else url.Some? && url.value != ""
    }

    /** `_request` as written: the URL is resolved first, then the verb is
        checked; a status of 400 or more is retried while `retry` is
        positive, and the retry passes the full URL back in as the service
        path, so the endpoint is joined onto it again. */
    method Request(verb: string, servicePath: Option<string>, retry: nat, statuses: seq<int>)
      returns (r: Result<int, ApiError>, sent: seq<Sent>)
      requires |statuses| > retry
      modifies this
      decreases retry
      ensures headers == old(headers) && apiKey == old(apiKey)
      ensures Attempted(verb, statuses, retry, r, sent)
      ensures verb !in Verbs ==> sent == [] && r.Failure?
      ensures Trail(endpoint, servicePath, old(url), url, sent)
      ensures verb in Verbs && UrlResolves(servicePath) ==> sent != []
      ensures verb in Verbs && sent == [] ==> url == old(url)
      ensures !old(UrlResolves(servicePath)) ==>
                sent == [] && r == Failure(if Given(servicePath) then EndpointMissing else NoUrl)
      ensures old(UrlResolves(servicePath)) && verb !in Verbs ==> sent == [] && r == Failure(UnknownMethod(verb))
      ensures old(UrlResolves(servicePath)) && verb in Verbs && endpoint.Some? ==> Served(verb, statuses, retry, r, sent)
    {
      var u := GetUrl(servicePath);
      if u.Failure? {
        return Failure(u.error), [];
      }
      if verb !in Verbs {
        return Failure(UnknownMethod(verb)), [];
      }
      sent := [Sent(verb, u.value)];
      if statuses[0] >= 400 {
        if retry > 0 {
          var r', sent' := Request(verb, url, retry - 1, statuses[1..]);
          TrailCons(endpoint, servicePath, old(url), u.value, url, sent[0], sent');
          if endpoint.Some? {
            ServedCons(verb, statuses, retry, r', sent[0], sent');
          }
          AttemptedCons(verb, statuses, retry, r', sent[0], sent');
          return r', sent + sent';
        }
        return Failure(RequestFailed(verb, u.value)), sent;
      }
      return Success(statuses[0]), sent;
    }

    /** `_request` with the retry going back to the URL that failed (the
        service path left empty so that the stored URL is reused). */
    method RequestCorrected(verb: string, servicePath: Option<string>, retry: nat, statuses: seq<int>)
      returns (r: Result<int, ApiError>, sent: seq<Sent>)
      requires |statuses| > retry
      modifies this
      decreases retry
      ensures headers == old(headers) && apiKey == old(apiKey)
      ensures Attempted(verb, statuses, retry, r, sent)
      ensures verb !in Verbs ==> sent == [] && r.Failure?
      ensures Stayed(endpoint, servicePath, old(url), url, sent)
      ensures verb in Verbs && UrlResolves(servicePath) ==> sent != []
      ensures verb in Verbs && sent == [] ==> url == old(url)
      ensures !old(UrlResolves(servicePath)) ==>
                sent == [] && r == Failure(if Given(servicePath) then EndpointMissing else NoUrl)
      ensures old(UrlResolves(servicePath)) && verb !in Verbs ==> sent == [] && r == Failure(UnknownMethod(verb))
      ensures old(UrlResolves(servicePath)) && verb in Verbs ==> Served(verb, statuses, retry, r, sent)
    {
      var u := GetUrl(servicePath);
      if u.Failure? {
        return Failure(u.error), [];
      }
      if verb !in Verbs {
        return Failure(UnknownMethod(verb)), [];
      }
      sent := [Sent(verb, u.value)];
      if statuses[0] >= 400 {
        if retry > 0 {
          assert UrlResolves(None);
          var r', sent' := RequestCorrected(verb, None, retry - 1, statuses[1..]);
          ServedCons(verb, statuses, retry, r', sent[0], sent');
          AttemptedCons(verb, statuses, retry, r', sent[0], sent');
          StayedCons(endpoint, servicePath, old(url), u.value, url, sent[0], sent');
          return r', sent + sent';
        }
        return Failure(RequestFailed(verb, u.value)), sent;
      }
      return Success(statuses[0]), sent;
    }

    /** `get`: a GET through the request routine. */
    method Get(servicePath: Option<string>, retry: nat, statuses: seq<int>)
      returns (r: Result<int, ApiError>, sent: seq<Sent>)
      requires |statuses| > retry
      modifies this
      ensures headers == old(headers) && apiKey == old(apiKey)
      ensures Attempted("GET", statuses, retry, r, sent)
      ensures Stayed(endpoint, servicePath, old(url), url, sent)
      ensures !old(UrlResolves(servicePath)) ==>
                sent == [] && r == Failure(if Given(servicePath) then EndpointMissing else NoUrl)
      ensures old(UrlResolves(servicePath)) ==> Served("GET", statuses, retry, r, sent)
    {
      r, sent := RequestCorrected("GET", servicePath, retry, statuses);
    }

    /** `post`: a POST through the request routine. */
    method Post(servicePath: Option<string>, retry: nat, statuses: seq<int>)
      returns (r: Result<int, ApiError>, sent: seq<Sent>)
      requires |statuses| > retry
      modifies this
      ensures headers == old(headers) && apiKey == old(apiKey)
      ensures Attempted("POST", statuses, retry, r, sent)
      ensures Stayed(endpoint, servicePath, old(url), url, sent)
      ensures !old(UrlResolves(servicePath)) ==>
                sent == [] && r == Failure(if Given(servicePath) then EndpointMissing else NoUrl)
      ensures old(UrlResolves(servicePath)) ==> Served("POST", statuses, retry, r, sent)
    {
      r, sent := RequestCorrected("POST", servicePath, retry, statuses);
    }

    /** `delete`: a DELETE through the request routine. */
    method Delete(servicePath: Option<string>, retry: nat, statuses: seq<int>)
      returns (r: Result<int, ApiError>, sent: seq<Sent>)
      requires |statuses| > retry
      modifies this
      ensures headers == old(headers) && apiKey == old(apiKey)
      ensures Attempted("DELETE", statuses, retry, r, sent)
      ensures Stayed(endpoint, servicePath, old(url), url, sent)
      ensures !old(UrlResolves(servicePath)) ==>
                sent == [] && r == Failure(if Given(servicePath) then EndpointMissing else NoUrl)
      ensures old(UrlResolves(servicePath)) ==> Served("DELETE", statuses, retry, r, sent)
    {
      r, sent := RequestCorrected("DELETE", servicePath, retry, statuses);
    }

    /** `get_endpoint(product)`: the URL of a product path, remembered as the
        latest URL. */
    method GetEndpoint(product: string) returns (r: Result<string, ApiError>)
      modifies this
      ensures product != "" && endpoint.Some? ==>
                r == Success(Join(endpoint.value, product)) && url == Some(Join(endpoint.value, product))
      ensures product != "" && endpoint.None? ==> r == Failure(EndpointMissing)
      ensures product == "" ==> url == old(url) && (r.Success? <==> url.Some? && url.value != "")
      ensures product == "" ==>
                r == if old(url).Some? && old(url).value != "" then Success(old(url).value) else Failure(NoUrl)
      ensures headers == old(headers) && apiKey == old(apiKey)
    {
      r := GetUrl(Some(product));
    }
  }
}
