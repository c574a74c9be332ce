/** Declarative routing of server-reported errors. A handler is an ordered
    list of rules, each a pattern on the HTTP status and a pattern on the
    application error code found in the JSON error body. Handling an error
    runs the action of the first rule, in the order the rules were added,
    whose two patterns both match; at most one action runs, and none when no
    rule matches. Actions are represented by the position of their rule. */
module ErrorHandler {
  import opened Wrappers
  import opened JsonValues
  import opened Request

  /** A pattern: the wildcard `"*"`, or one exact value. */
  datatype Pattern<T> = Any | Exact(value: T)

  /** A rule added by `add(status, code, action)`. */
  datatype Rule = Rule(status: Pattern<int>, code: Pattern<string>)

  /** The handler: its rules in the order they were added. */
  datatype RequestErrorHandler = RequestErrorHandler(rules: seq<Rule>)

  /** `new RequestErrorHandler()`: no rules. */
  const Empty := RequestErrorHandler([])

  /** `add(status, code, action)`: the rule goes after every rule added
      before it. The source updates the handler in place and returns it for
      chaining; here the extended handler is returned as a new value. */
  function Add(h: RequestErrorHandler, status: Pattern<int>, code: Pattern<string>): (h': RequestErrorHandler)
    ensures |h'.rules| == |h.rules| + 1
    ensures forall i :: 0 <= i < |h.rules| ==> h'.rules[i] == h.rules[i]
    ensures h'.rules[|h.rules|] == Rule(status, code)
  {
    RequestErrorHandler(h.rules + [Rule(status, code)])
  }

  /** A chain of `add` calls, applied left to right. */
  function AddAll(h: RequestErrorHandler, rules: seq<Rule>): RequestErrorHandler
    decreases |rules|
  {
    if |rules| == 0 then h
    else AddAll(Add(h, rules[0].status, rules[0].code), rules[1..])
  }

  /** A chain of `add` calls keeps every rule, in call order, after the rules
      the handler already had. */
  lemma {:induction false} AddAllAppends(h: RequestErrorHandler, rules: seq<Rule>)
    ensures AddAll(h, rules).rules == h.rules + rules
    decreases |rules|
  {
    if |rules| > 0 {
      var next := Add(h, rules[0].status, rules[0].code);
      AddAllAppends(next, rules[1..]);
      assert next.rules == h.rules + [rules[0]];
      assert h.rules + [rules[0]] + rules[1..] == h.rules + rules;
    }
  }

  /** The code argument of `add`: the string "*" is the wildcard, any other
      string is an exact code. */
  function CodePattern(code: string): Pattern<string> {
    if code == "*" then Any else Exact(code)
  }

  /** The application error code of an error body: the value of a string
      member named "code" when the body parses to a JSON object that has one;
      nothing otherwise, without ever failing. */
  function ErrorCode(body: string, parse: Parser): (code: Option<string>)
    ensures code.Some? <==>
              parse(body).Some? && Member(parse(body).value, "code").Some? &&
              Member(parse(body).value, "code").value.Str?
    ensures code.Some? ==> Member(parse(body).value, "code") == Some(Str(code.value))
  {
    match parse(body)
    case None => None
    case Some(value) =>
      match Member(value, "code")
      case Some(Str(code)) => Some(code)
      case _ => None
  }

  predicate StatusMatches(p: Pattern<int>, status: int) {
    p.Any? || p == Exact(status)
  }

  /** A code pattern against the extracted code: the wildcard matches
      anything, including no code at all; an exact code only an equal one. */
  predicate CodeMatches(p: Pattern<string>, code: Option<string>) {
    p.Any? || (code.Some? && p == Exact(code.value))
  }

  predicate RuleMatches(rule: Rule, status: int, code: Option<string>) {
    StatusMatches(rule.status, status) && CodeMatches(rule.code, code)
  }

  /** The position of the first matching rule. */
  function FirstMatch(rules: seq<Rule>, status: int, code: Option<string>): (r: Option<nat>)
    ensures r.Some? ==> r.value < |rules| && RuleMatches(rules[r.value], status, code)
    ensures r.Some? ==> forall j :: 0 <= j < r.value ==> !RuleMatches(rules[j], status, code)
    ensures r.None? ==> forall j :: 0 <= j < |rules| ==> !RuleMatches(rules[j], status, code)
    decreases |rules|
  {
    if |rules| == 0 then None
    else if RuleMatches(rules[0], status, code) then Some(0)
    else
      match FirstMatch(rules[1..], status, code)
      case None => None
      case Some(k) => Some(k + 1)
  }

  /** Whether rule `i` of the handler matches the error. */
  predicate Matches(h: RequestErrorHandler, err: RequestError, parse: Parser, i: nat)
    requires i < |h.rules|
  {
    RuleMatches(h.rules[i], err.status, ErrorCode(err.body, parse))
  }

  /** `handle(err)`: the position of the rule whose action runs. The body is
      parsed once; the chosen rule matches, no earlier rule does, and no rule
      is chosen only when none matches. */
  function Handle(h: RequestErrorHandler, err: RequestError, parse: Parser): (chosen: Option<nat>)
    ensures chosen.Some? ==> chosen.value < |h.rules| && Matches(h, err, parse, chosen.value)
    ensures chosen.Some? ==> forall j :: 0 <= j < chosen.value ==> !Matches(h, err, parse, j)
    ensures chosen.None? <==> forall j :: 0 <= j < |h.rules| ==> !Matches(h, err, parse, j)
  {
    var chosen := FirstMatch(h.rules, err.status, ErrorCode(err.body, parse));
    assert chosen.Some? ==> Matches(h, err, parse, chosen.value);
    chosen
  }

  /** The rule chosen by `handle` is exactly the earliest matching rule. */
  lemma HandleChoosesEarliest(h: RequestErrorHandler, err: RequestError, parse: Parser, i: nat)
    requires i < |h.rules|
    ensures Handle(h, err, parse) == Some(i) <==>
              Matches(h, err, parse, i) && forall j :: 0 <= j < i ==> !Matches(h, err, parse, j)
  {
  }

  /** The string form of the code pattern: "*" matches any code, including
      none; any other string matches only a body whose code equals it. */
  lemma CodePatternMatches(pattern: string, code: Option<string>)
    ensures CodeMatches(CodePattern(pattern), code) <==> pattern == "*" || code == Some(pattern)
  {
  }

  /** A later rule never runs when an earlier rule also matches. */
  lemma EarlierMatchWins(h: RequestErrorHandler, err: RequestError, parse: Parser, i: nat, j: nat)
    requires i < j < |h.rules|
    requires Matches(h, err, parse, i)
    ensures Handle(h, err, parse) != Some(j)
    ensures Handle(h, err, parse).Some? && Handle(h, err, parse).value <= i
  {
  }

  /** A rule whose exact status differs from the error's is never run,
      whatever its code pattern. */
  lemma StatusMismatchSkipped(h: RequestErrorHandler, err: RequestError, parse: Parser, i: nat)
    requires i < |h.rules|
    requires h.rules[i].status.Exact? && h.rules[i].status.value != err.status
    ensures Handle(h, err, parse) != Some(i)
  {
  }

  /** When the body yields no code (not JSON, not an object, or no string
      "code" member), a rule matches exactly when its status matches and its
      code pattern is the wildcard. */
  lemma NoCodeMatchesOnlyWildcard(h: RequestErrorHandler, err: RequestError, parse: Parser, i: nat)
    requires i < |h.rules|
    requires ErrorCode(err.body, parse).None?
    ensures Matches(h, err, parse, i) <==>
              StatusMatches(h.rules[i].status, err.status) && h.rules[i].code.Any?
  {
  }

  /** A rule with an exact code matches a body whose "code" member is that
      string, as soon as its status matches. */
  lemma ExactCodeMatches(h: RequestErrorHandler, err: RequestError, parse: Parser, i: nat, fields: map<string, Json>)
    requires i < |h.rules|
    requires parse(err.body) == Some(Obj(fields))
    requires "code" in fields && fields["code"].Str?
    requires h.rules[i].code == Exact(fields["code"].s)
    ensures Matches(h, err, parse, i) <==> StatusMatches(h.rules[i].status, err.status)
  {
  }

  /** A handler ending in a catch-all rule `("*", "*")` always runs some
      action, and never one after the catch-all. */
  lemma CatchAllHandles(h: RequestErrorHandler, err: RequestError, parse: Parser, i: nat)
    requires i < |h.rules| && h.rules[i] == Rule(Any, Any)
    ensures Handle(h, err, parse).Some?
    ensures Handle(h, err, parse).value <= i
  {
    assert Matches(h, err, parse, i);
  }

  /** Adding a rule never changes which action runs for an error an earlier
      rule already handles; for an error nothing handled, the new rule runs
      exactly when it matches. */
  lemma AddKeepsEarlierChoice(h: RequestErrorHandler, status: Pattern<int>, code: Pattern<string>,
                              err: RequestError, parse: Parser)
    ensures var before := Handle(h, err, parse);
      var after := Handle(Add(h, status, code), err, parse);
      var added := RuleMatches(Rule(status, code), err.status, ErrorCode(err.body, parse));
      && (before.Some? ==> after == before)
      && (before.None? && added ==> after == Some(|h.rules|))
      && (before.None? && !added ==> after.None?)
  {
    var h' := Add(h, status, code);
    var before := Handle(h, err, parse);
    var after := Handle(h', err, parse);
    assert forall j :: 0 <= j < |h.rules| ==> (Matches(h', err, parse, j) <==> Matches(h, err, parse, j));
    if before.Some? {
      assert Matches(h', err, parse, before.value);
      assert after.Some? && after.value <= before.value;
    } else if RuleMatches(Rule(status, code), err.status, ErrorCode(err.body, parse)) {
      assert Matches(h', err, parse, |h.rules|);
    }
  }
}
