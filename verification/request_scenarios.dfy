/** The exchanges of the request test suite. The test server is the
    transport, a function of the outgoing request; its authority
    ("127.0.0.1:<port>") is a parameter free of '/', '?' and '#'. Callbacks
    1, 2 and 3 are chained on the handle as `onSuccess`, `onRequestError` and
    `onUnexpectedError`, before the exchange settles. */
module RequestScenarios {
  import opened Wrappers
  import opened JsonValues
  import opened Request

  /** The server's reply body `{ field: "example" }`. */
  const FieldExample := Obj(map["field" := Str("example")])
  /** The server's error body `{ code: "NOT_FOUND" }`. */
  const NotFound := Obj(map["code" := Str("NOT_FOUND")])
  /** The request body `{ bodyField1: 10, bodyField2: "test" }`. */
  const PostedJson := Obj(map["bodyField1" := Num(10), "bodyField2" := Str("test")])
  const ExampleHeaders := map["example-header" := "example-value"]

  /** The test's registration chain on a handle. */
  function Chain(h: RequestHandle): RequestHandle {
    OnUnexpectedError(OnRequestError(OnSuccess(h, 1), 2), 3)
  }

  /** The handle after `makeApiRequest(config)` with the chain registered
      and the exchange settled by the transport. */
  function AfterExchange(config: RequestConfig, transport: TransportRequest -> TransportResult,
                   parse: Parser): RequestHandle {
    var (req, handle) := MakeApiRequest(config, 0);
    Settle(Chain(handle), Classify(transport(req), parse))
  }

  function GetConfig(authority: string, headers: Option<map<string, string>>): RequestConfig {
    RequestConfig("GET", "http://" + authority + "/api/test/get?a=1&b=2", headers, None)
  }

  /** A GET answered 200: the success callback alone runs, with a body whose
      `field` is "example"; the server saw the method and the path with its
      query string. */
  lemma GetSucceeds(authority: string, transport: TransportRequest -> TransportResult,
                    parse: Parser, body: string)
    requires '/' !in authority && '?' !in authority && '#' !in authority
    requires transport(Outgoing(GetConfig(authority, None))) == Response(200, body)
    requires parse(body) == Some(FieldExample)
    ensures var req := Outgoing(GetConfig(authority, None));
      req.httpMethod == "GET" && RequestTarget(req.url) == "/api/test/get?a=1&b=2"
    ensures var delivered := AfterExchange(GetConfig(authority, None), transport, parse).delivered;
      && delivered == [Delivery(SuccessChannel, 1, Success(FieldExample))]
      && Member(delivered[0].outcome.value, "field") == Some(Str("example"))
  {
    TargetOfHttpUrl(authority, "/api/test/get?a=1&b=2");
    assert "http://" + authority + "/api/test/get?a=1&b=2" == ("http://" + authority) + "/api/test/get?a=1&b=2";
  }

  /** A GET answered 404: the request-error callback alone runs, with status
      404 and the raw body, which parses to the server's `{ code: "NOT_FOUND" }`;
      the server saw the method, path and configured header. */
  lemma GetFailsWithRequestError(authority: string, transport: TransportRequest -> TransportResult,
                                 parse: Parser, body: string)
    requires '/' !in authority && '?' !in authority && '#' !in authority
    requires transport(Outgoing(GetConfig(authority, Some(ExampleHeaders)))) == Response(404, body)
    requires parse(body) == Some(NotFound)
    ensures var req := Outgoing(GetConfig(authority, Some(ExampleHeaders)));
      && req.httpMethod == "GET" && RequestTarget(req.url) == "/api/test/get?a=1&b=2"
      && "example-header" in req.headers && req.headers["example-header"] == "example-value"
    ensures var delivered := AfterExchange(GetConfig(authority, Some(ExampleHeaders)), transport, parse).delivered;
      && delivered == [Delivery(RequestErrorChannel, 2, Failed(RequestError(404, body)))]
      && parse(delivered[0].outcome.error.body) == Some(NotFound)
  {
    TargetOfHttpUrl(authority, "/api/test/get?a=1&b=2");
    assert "http://" + authority + "/api/test/get?a=1&b=2" == ("http://" + authority) + "/api/test/get?a=1&b=2";
  }

  /** A request carrying a JSON body and a header, answered 200: the server
      saw the method, the path, the header and a body equal to the JSON
      value, and the success callback alone runs. */
  lemma JsonBodyRequestSucceeds(verb: string, path: string, authority: string,
                                transport: TransportRequest -> TransportResult, parse: Parser, body: string)
    requires verb == "POST" || verb == "PUT"
    requires path == "/api/test/post" || path == "/api/test/put"
    requires '/' !in authority && '?' !in authority && '#' !in authority
    requires var config := RequestConfig(verb, "http://" + authority + path, Some(ExampleHeaders), Some(PostedJson));
      transport(Outgoing(config)) == Response(200, body)
    requires parse(body) == Some(FieldExample)
    ensures var req := Outgoing(RequestConfig(verb, "http://" + authority + path, Some(ExampleHeaders), Some(PostedJson)));
      && req.httpMethod == verb && RequestTarget(req.url) == path
      && "example-header" in req.headers && req.headers["example-header"] == "example-value"
      && req.body == Some(PostedJson)
    ensures var config := RequestConfig(verb, "http://" + authority + path, Some(ExampleHeaders), Some(PostedJson));
      AfterExchange(config, transport, parse).delivered == [Delivery(SuccessChannel, 1, Success(FieldExample))]
  {
    TargetOfHttpUrl(authority, path);
    assert "http://" + authority + path == ("http://" + authority) + path;
  }

  /** A DELETE with a query string and a header, answered 200. */
  lemma DeleteSucceeds(authority: string, transport: TransportRequest -> TransportResult,
                       parse: Parser, body: string)
    requires '/' !in authority && '?' !in authority && '#' !in authority
    requires var config := RequestConfig("DELETE", "http://" + authority + "/api/test/delete?a=1&b=2", Some(ExampleHeaders), None);
      transport(Outgoing(config)) == Response(200, body)
    requires parse(body) == Some(FieldExample)
    ensures var req := Outgoing(RequestConfig("DELETE", "http://" + authority + "/api/test/delete?a=1&b=2", Some(ExampleHeaders), None));
      && req.httpMethod == "DELETE" && RequestTarget(req.url) == "/api/test/delete?a=1&b=2"
      && "example-header" in req.headers && req.headers["example-header"] == "example-value"
    ensures var config := RequestConfig("DELETE", "http://" + authority + "/api/test/delete?a=1&b=2", Some(ExampleHeaders), None);
      AfterExchange(config, transport, parse).delivered == [Delivery(SuccessChannel, 1, Success(FieldExample))]
  {
    TargetOfHttpUrl(authority, "/api/test/delete?a=1&b=2");
    assert "http://" + authority + "/api/test/delete?a=1&b=2" == ("http://" + authority) + "/api/test/delete?a=1&b=2";
  }
}
