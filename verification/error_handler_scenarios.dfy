/** The routing scenarios of the error handler's test suite, each a concrete
    handler and error. Rule positions count from 0, so the second rule added
    is rule 1. Facts about the JSON parser are stated as preconditions. */
module ErrorHandlerScenarios {
  import opened Wrappers
  import opened JsonValues
  import opened Request
  import opened ErrorHandler

  /** The text `JSON.stringify({ code: "EXAMPLE_ERROR" })`. */
  const CodeBody := "{\"code\":\"EXAMPLE_ERROR\"}"
  /** The text `JSON.stringify({ randomField: 1 })`. */
  const RandomFieldBody := "{\"randomField\":1}"
  const NonJsonBody := "example-non-json"

  /** The code arguments of `add`: "*" and "EXAMPLE_ERROR". */
  const AnyCode := CodePattern("*")
  const ExampleCode := CodePattern("EXAMPLE_ERROR")

  /** The rules `(400,*), (404,*), (403,*), (*,*)`. */
  const ByStatusRules := [
    Rule(Exact(400), AnyCode), Rule(Exact(404), AnyCode), Rule(Exact(403), AnyCode), Rule(Any, AnyCode)]

  /** The rules `(400,EXAMPLE_ERROR), (404,*), (403,EXAMPLE_ERROR), (*,*)`. */
  const WithCodesRules := [
    Rule(Exact(400), ExampleCode), Rule(Exact(404), AnyCode), Rule(Exact(403), ExampleCode), Rule(Any, AnyCode)]

  /** The rules `(400,*), (404,EXAMPLE_ERROR), (404,*), (403,*), (*,*)`. */
  const CodeBeforeStatusRules := [
    Rule(Exact(400), AnyCode), Rule(Exact(404), ExampleCode), Rule(Exact(404), AnyCode),
    Rule(Exact(403), AnyCode), Rule(Any, AnyCode)]

  const ByStatus := AddAll(Empty, ByStatusRules)
  const WithCodes := AddAll(Empty, WithCodesRules)
  const CodeBeforeStatus := AddAll(Empty, CodeBeforeStatusRules)

  /** A 404 whose body carries the code: the `(404,*)` rule runs and
      neither `(403,*)` nor the catch-all does. */
  lemma StatusRuleHandlesCodedError(parse: Parser)
    requires parse(CodeBody) == Some(Obj(map["code" := Str("EXAMPLE_ERROR")]))
    ensures Handle(ByStatus, RequestError(404, CodeBody), parse) == Some(1)
  {
    AddAllAppends(Empty, ByStatusRules);
    assert Matches(ByStatus, RequestError(404, CodeBody), parse, 1);
  }

  /** `(400,EXAMPLE_ERROR)` is skipped for a 404 although its code matches;
      `(404,*)` runs. */
  lemma StatusMismatchSkipsCodeRule(parse: Parser)
    requires parse(CodeBody) == Some(Obj(map["code" := Str("EXAMPLE_ERROR")]))
    ensures Handle(WithCodes, RequestError(404, CodeBody), parse) == Some(1)
  {
    AddAllAppends(Empty, WithCodesRules);
    assert Matches(WithCodes, RequestError(404, CodeBody), parse, 1);
  }

  /** `(404,EXAMPLE_ERROR)` runs ahead of the equally matching `(404,*)`
      after it. */
  lemma ExactCodeRuleWins(parse: Parser)
    requires parse(CodeBody) == Some(Obj(map["code" := Str("EXAMPLE_ERROR")]))
    ensures Handle(CodeBeforeStatus, RequestError(404, CodeBody), parse) == Some(1)
  {
    AddAllAppends(Empty, CodeBeforeStatusRules);
    assert ErrorCode(CodeBody, parse) == Some("EXAMPLE_ERROR");
    assert Matches(CodeBeforeStatus, RequestError(404, CodeBody), parse, 1);
  }

  /** A JSON body without a "code" member: `(404,*)` runs. */
  lemma UncodedBodyMatchesWildcard(parse: Parser)
    requires parse(RandomFieldBody) == Some(Obj(map["randomField" := Num(1)]))
    ensures Handle(ByStatus, RequestError(404, RandomFieldBody), parse) == Some(1)
  {
    AddAllAppends(Empty, ByStatusRules);
    assert Matches(ByStatus, RequestError(404, RandomFieldBody), parse, 1);
  }

  /** A JSON body without a "code" member skips `(404,EXAMPLE_ERROR)`; the
      `(404,*)` after it runs. */
  lemma UncodedBodySkipsExactCode(parse: Parser)
    requires parse(RandomFieldBody) == Some(Obj(map["randomField" := Num(1)]))
    ensures Handle(CodeBeforeStatus, RequestError(404, RandomFieldBody), parse) == Some(2)
  {
    AddAllAppends(Empty, CodeBeforeStatusRules);
    assert ErrorCode(RandomFieldBody, parse) == None;
    assert !Matches(CodeBeforeStatus, RequestError(404, RandomFieldBody), parse, 1);
    assert Matches(CodeBeforeStatus, RequestError(404, RandomFieldBody), parse, 2);
  }

  /** A body that is not JSON yields no code and routes by status alone:
      `(403,*)` runs. */
  lemma NonJsonBodyRoutesByStatus(parse: Parser)
    requires parse(NonJsonBody) == None
    ensures Handle(ByStatus, RequestError(403, NonJsonBody), parse) == Some(2)
  {
    AddAllAppends(Empty, ByStatusRules);
    assert Matches(ByStatus, RequestError(403, NonJsonBody), parse, 2);
  }

  /** The empty error `{status: 0, body: ""}` reaches only the catch-all,
      whatever the parser makes of the empty body. */
  lemma EmptyErrorReachesCatchAll(parse: Parser)
    ensures Handle(ByStatus, RequestError(0, ""), parse) == Some(3)
  {
    AddAllAppends(Empty, ByStatusRules);
    assert Matches(ByStatus, RequestError(0, ""), parse, 3);
  }
}
