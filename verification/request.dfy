/** One API request: the outgoing request handed to the transport, the
    classification of the settled exchange into one of three outcomes, and
    the handle on which the caller registers one callback per outcome
    channel. The handle delivers the outcome exactly once, to the callback of
    the matching channel, whether that callback was registered before or
    after the exchange settled. */
module Request {
  import opened Wrappers
  import opened JsonValues

  // ---------------------------------------------------------------------
  // Outgoing request
  // ---------------------------------------------------------------------

  /** What the caller passes to `makeApiRequest`. `headers` and `json` are
      optional. */
  datatype RequestConfig = RequestConfig(
    httpMethod: string,
    url: string,
    headers: Option<map<string, string>>,
    json: Option<Json>)

  /** What the transport is asked to send. The body is kept as the JSON value
      to be serialized; serialization belongs to the transport. */
  datatype TransportRequest = TransportRequest(
    httpMethod: string,
    url: string,
    headers: map<string, string>,
    body: Option<Json>)

  /** The request handed to the transport for a configuration: the method, the
      URL and every configured header pass through unchanged, and a `json`
      value becomes the body. */
  function Outgoing(config: RequestConfig): (req: TransportRequest)
    ensures req.httpMethod == config.httpMethod
    ensures req.url == config.url
    ensures config.headers.None? ==> req.headers == map[]
    ensures config.headers.Some? ==>
              forall name :: name in config.headers.value ==>
                name in req.headers && req.headers[name] == config.headers.value[name]
    ensures forall name :: name in req.headers ==>
              config.headers.Some? && name in config.headers.value
    ensures req.body == config.json
  {
    TransportRequest(config.httpMethod, config.url, config.headers.GetOr(map[]), config.json)
  }

  /** The position of the first character of `s` that is in `stops`, or
      `|s|` when there is none. */
  function IndexOfAny(s: string, stops: set<char>): (i: nat)
    ensures i <= |s|
    ensures i < |s| ==> s[i] in stops
    ensures forall j :: 0 <= j < i ==> s[j] !in stops
  {
    if |s| == 0 then 0
    else if s[0] in stops then 0
    else 1 + IndexOfAny(s[1..], stops)
  }

  /** The URL with an "http://" or "https://" scheme removed. */
  function WithoutScheme(url: string): string {
    if |url| >= 7 && url[..7] == "http://" then url[7..]
    else if |url| >= 8 && url[..8] == "https://" then url[8..]
    else url
  }

  /** The request target a server reads from the request line (the origin
      form of section 5.3.1 of RFC 7230): the authority ends at the first
      '/', '?' or '#'; what follows, up to any fragment, is the path and
      query, with "/" standing for an empty path. */
  function RequestTarget(url: string): (target: string)
    ensures |target| > 0 && target[0] == '/'
  {
    var rest := WithoutScheme(url);
    var tail := rest[IndexOfAny(rest, {'/', '?', '#'})..];
    var pathAndQuery := tail[..IndexOfAny(tail, {'#'})];
    if |pathAndQuery| > 0 && pathAndQuery[0] == '/' then pathAndQuery else "/" + pathAndQuery
  }

  /** For an absolute "http://" URL, the server reads exactly the path and
      query string the caller wrote. */
  lemma {:induction false} TargetOfHttpUrl(authority: string, pathAndQuery: string)
    requires '/' !in authority && '?' !in authority && '#' !in authority
    requires |pathAndQuery| > 0 && pathAndQuery[0] == '/' && '#' !in pathAndQuery
    ensures RequestTarget("http://" + authority + pathAndQuery) == pathAndQuery
  {
    TargetAfterAuthority(authority, pathAndQuery);
  }

  /** A URL whose query follows the authority directly is requested with the
      path "/" in front of the query. */
  lemma {:induction false} TargetOfQueryOnlyUrl(authority: string, query: string)
    requires '/' !in authority && '?' !in authority && '#' !in authority
    requires '#' !in query
    ensures RequestTarget("http://" + authority + "?" + query) == "/?" + query
  {
    assert "http://" + authority + "?" + query == "http://" + authority + ("?" + query);
    TargetAfterAuthority(authority, "?" + query);
  }

  /** The part after the authority, when it starts the path or the query and
      holds no fragment, is what the server reads (with "/" for an empty
      path). */
  lemma {:induction false} TargetAfterAuthority(authority: string, tail: string)
    requires '/' !in authority && '?' !in authority && '#' !in authority
    requires |tail| > 0 && (tail[0] == '/' || tail[0] == '?') && '#' !in tail
    ensures RequestTarget("http://" + authority + tail) ==
              (if tail[0] == '/' then tail else "/" + tail)
  {
    var url := "http://" + authority + tail;
    assert url[..7] == "http://";
    var rest := url[7..];
    assert rest == authority + tail;
    assert WithoutScheme(url) == rest;
    IndexOfAnyAfterPrefix(authority, tail, {'/', '?', '#'});
    assert rest[|authority|..] == tail;
    NoStopInside(tail, '#');
    assert tail[..|tail|] == tail;
  }

  /** A string without `c` has no stop in `{c}` before its end. */
  lemma NoStopInside(s: string, c: char)
    requires c !in s
    ensures IndexOfAny(s, {c}) == |s|
  {
  }

  /** A prefix free of stops is skipped entirely by `IndexOfAny`. */
  lemma {:induction false} IndexOfAnyAfterPrefix(prefix: string, s: string, stops: set<char>)
    requires forall c :: c in prefix ==> c !in stops
    requires |s| > 0 && s[0] in stops
    ensures IndexOfAny(prefix + s, stops) == |prefix|
  {
    if |prefix| == 0 {
      assert prefix + s == s;
    } else {
      assert (prefix + s)[0] == prefix[0];
      assert (prefix + s)[1..] == prefix[1..] + s;
      assert prefix[0] in prefix;
      assert forall c :: c in prefix[1..] ==> c in prefix;
      IndexOfAnyAfterPrefix(prefix[1..], s, stops);
    }
  }

  // ---------------------------------------------------------------------
  // Settled exchange and its classification
  // ---------------------------------------------------------------------

  /** A server-reported failure: the exact status and the raw, unparsed body. */
  datatype RequestError = RequestError(status: int, body: string)

  /** How an exchange settles at the transport: a response for every exchange
      that reached the server, whatever its status, or a failure for one that
      never obtained a response. */
  datatype TransportResult =
    | Response(status: int, body: string)
    | TransportFailure(message: string)

  /** Why an outcome is unexpected. */
  datatype Cause =
    | NetworkFailure(message: string)
    | UnparsableBody(status: int, body: string)

  /** The three terminal outcomes of an exchange. */
  datatype Outcome =
    | Success(value: Json)
    | Failed(error: RequestError)
    | Unexpected(cause: Cause)

  /** The three registration channels of a request handle. */
  datatype Channel = SuccessChannel | RequestErrorChannel | UnexpectedErrorChannel

  /** The channel an outcome is delivered on. */
  function ChannelOf(outcome: Outcome): Channel {
    match outcome
    case Success(_) => SuccessChannel
    case Failed(_) => RequestErrorChannel
    case Unexpected(_) => UnexpectedErrorChannel
  }

  predicate IsSuccessStatus(status: int) {
    200 <= status <= 299
  }

  /** Classifies a settled exchange: a 2xx response whose body parses succeeds
      with the parsed body; any other status is a request error carrying the
      status and the raw body; a transport failure, and a 2xx body that does
      not parse, are unexpected errors. */
  function Classify(result: TransportResult, parse: Parser): (outcome: Outcome)
    ensures ChannelOf(outcome) == SuccessChannel <==>
              result.Response? && IsSuccessStatus(result.status) && parse(result.body).Some?
    ensures outcome.Success? ==> Some(outcome.value) == parse(result.body)
    ensures ChannelOf(outcome) == RequestErrorChannel <==>
              result.Response? && !IsSuccessStatus(result.status)
    ensures outcome.Failed? ==>
              outcome.error.status == result.status && outcome.error.body == result.body
    ensures result.TransportFailure? ==> outcome == Unexpected(NetworkFailure(result.message))
  {
    match result
    case TransportFailure(message) => Unexpected(NetworkFailure(message))
    case Response(status, body) =>
      if !IsSuccessStatus(status) then Failed(RequestError(status, body))
      else match parse(body)
        case Some(value) => Success(value)
        case None => Unexpected(UnparsableBody(status, body))
  }

  /** The body handed to the request-error channel is the server's text
      unchanged, so it parses to whatever the server's body parses to. */
  lemma ErrorBodyIsRaw(status: int, body: string, parse: Parser)
    requires !IsSuccessStatus(status)
    ensures Classify(Response(status, body), parse).Failed?
    ensures parse(Classify(Response(status, body), parse).error.body) == parse(body)
  {
  }

  // ---------------------------------------------------------------------
  // Request handle: a single-assignment cell and three callback slots
  // ---------------------------------------------------------------------

  /** The settlement cell: assigned once, never cleared. */
  datatype Cell = Pending | Settled(outcome: Outcome)

  /** One invocation of a registered callback. Callbacks are identified by
      the number the caller gives them. */
  datatype Delivery = Delivery(channel: Channel, callback: nat, outcome: Outcome)

  /** The three callback slots of a handle, one per channel. */
  datatype Callbacks = Callbacks(
    onSuccess: Option<nat>,
    onRequestError: Option<nat>,
    onUnexpectedError: Option<nat>)
  {
    /** The callback registered on a channel, if any. */
    function For(channel: Channel): Option<nat> {
      match channel
      case SuccessChannel => onSuccess
      case RequestErrorChannel => onRequestError
      case UnexpectedErrorChannel => onUnexpectedError
    }
  }

  /** The handle returned by `makeApiRequest`. `exchange` identifies the
      exchange the handle belongs to; `delivered` records every callback
      invocation made so far. */
  datatype RequestHandle = RequestHandle(
    exchange: nat,
    cell: Cell,
    callbacks: Callbacks,
    delivered: seq<Delivery>)

  /** The invocations owed once a cell and the callbacks are known: one, to
      the callback of the outcome's channel, when both are present. */
  function Owed(cell: Cell, callbacks: Callbacks): (owed: seq<Delivery>)
    ensures |owed| <= 1
    ensures forall d :: d in owed ==>
              cell == Settled(d.outcome) && d.channel == ChannelOf(d.outcome) &&
              callbacks.For(d.channel) == Some(d.callback)
    ensures cell.Settled? && callbacks.For(ChannelOf(cell.outcome)).Some? ==> |owed| == 1
  {
    match cell
    case Pending => []
    case Settled(o) =>
      match callbacks.For(ChannelOf(o))
      case None => []
      case Some(cb) => [Delivery(ChannelOf(o), cb, o)]
  }

  /** The handle invariant: exactly the owed invocations have been made, so
      an outcome is delivered at most once, only on its own channel, and as
      soon as both the outcome and its callback are known. */
  ghost predicate Valid(h: RequestHandle) {
    h.delivered == Owed(h.cell, h.callbacks)
  }

  /** No callback registered on any channel. */
  const NoCallbacks := Callbacks(None, None, None)

  /** A fresh handle: pending, nothing registered, nothing delivered. */
  function Start(exchange: nat): (h: RequestHandle)
    ensures Valid(h)
    ensures h.exchange == exchange && h.cell == Pending && h.delivered == []
    ensures forall ch :: h.callbacks.For(ch).None?
  {
    RequestHandle(exchange, Pending, NoCallbacks, [])
  }

  /** `makeApiRequest`: the request is handed to the transport and a fresh
      handle is returned at once. */
  function MakeApiRequest(config: RequestConfig, exchange: nat): (r: (TransportRequest, RequestHandle))
    ensures r.0 == Outgoing(config)
    ensures Valid(r.1) && r.1.exchange == exchange && r.1.cell == Pending && r.1.delivered == []
    ensures forall ch :: r.1.callbacks.For(ch).None?
  {
    (Outgoing(config), Start(exchange))
  }

  /** The transport settles the exchange. The first settlement fills the cell
      and, when the matching channel already has a callback, invokes it; any
      later settlement is ignored. */
  function Settle(h: RequestHandle, outcome: Outcome): (h': RequestHandle)
    ensures h'.exchange == h.exchange && h'.callbacks == h.callbacks
    ensures h.cell.Settled? ==> h' == h
    ensures h.cell.Pending? ==> h'.cell == Settled(outcome)
    ensures h.delivered <= h'.delivered
    ensures Valid(h) ==> Valid(h')
  {
    if h.cell.Settled? then h
    else
      var settled := h.(cell := Settled(outcome));
      match h.callbacks.For(ChannelOf(outcome))
      case None => settled
      case Some(cb) => settled.(delivered := h.delivered + [Delivery(ChannelOf(outcome), cb, outcome)])
  }

  /** The callbacks with `callback` stored in the slot of `channel`. */
  function WithCallback(callbacks: Callbacks, channel: Channel, callback: nat): Callbacks {
    match channel
    case SuccessChannel => callbacks.(onSuccess := Some(callback))
    case RequestErrorChannel => callbacks.(onRequestError := Some(callback))
    case UnexpectedErrorChannel => callbacks.(onUnexpectedError := Some(callback))
  }

  /** Registers a callback on a channel and returns the same handle. Only the
      first registration on a channel is kept. When the exchange has already
      settled with an outcome of this channel, the callback is invoked at
      once. */
  function Register(h: RequestHandle, channel: Channel, callback: nat): (h': RequestHandle)
    ensures h'.exchange == h.exchange
    ensures h'.cell == h.cell
    ensures h'.callbacks.For(channel) == OrElse(h.callbacks.For(channel), Some(callback))
    ensures forall ch :: ch != channel ==> h'.callbacks.For(ch) == h.callbacks.For(ch)
    ensures h.delivered <= h'.delivered
    ensures Valid(h) ==> Valid(h')
  {
    if h.callbacks.For(channel).Some? then h
    else
      var registered := h.(callbacks := WithCallback(h.callbacks, channel, callback));
      if h.cell.Settled? && ChannelOf(h.cell.outcome) == channel then
        registered.(delivered := h.delivered + [Delivery(channel, callback, h.cell.outcome)])
      else registered
  }

  /** `onSuccess(cb)`: registration on the success channel; it returns the
      same handle, with the same exchange and settlement. */
  function OnSuccess(h: RequestHandle, callback: nat): (h': RequestHandle)
    ensures h'.exchange == h.exchange && h'.cell == h.cell
    ensures h'.callbacks.onSuccess == OrElse(h.callbacks.onSuccess, Some(callback))
    ensures h.delivered <= h'.delivered
    ensures Valid(h) ==> Valid(h')
    ensures h'.callbacks.onRequestError == h.callbacks.onRequestError
    ensures h'.callbacks.onUnexpectedError == h.callbacks.onUnexpectedError
  {
    Register(h, SuccessChannel, callback)
  }

  /** `onRequestError(cb)`: registration on the request-error channel. */
  function OnRequestError(h: RequestHandle, callback: nat): (h': RequestHandle)
    ensures h'.exchange == h.exchange && h'.cell == h.cell
    ensures h'.callbacks.onRequestError == OrElse(h.callbacks.onRequestError, Some(callback))
    ensures h.delivered <= h'.delivered
    ensures Valid(h) ==> Valid(h')
    ensures h'.callbacks.onSuccess == h.callbacks.onSuccess
    ensures h'.callbacks.onUnexpectedError == h.callbacks.onUnexpectedError
  {
    Register(h, RequestErrorChannel, callback)
  }

  /** `onUnexpectedError(cb)`: registration on the unexpected-error channel. */
  function OnUnexpectedError(h: RequestHandle, callback: nat): (h': RequestHandle)
    ensures h'.exchange == h.exchange && h'.cell == h.cell
    ensures h'.callbacks.onUnexpectedError == OrElse(h.callbacks.onUnexpectedError, Some(callback))
    ensures h.delivered <= h'.delivered
    ensures Valid(h) ==> Valid(h')
    ensures h'.callbacks.onSuccess == h.callbacks.onSuccess
    ensures h'.callbacks.onRequestError == h.callbacks.onRequestError
  {
    Register(h, UnexpectedErrorChannel, callback)
  }

  // ---------------------------------------------------------------------
  // Any interleaving of settlement and registrations
  // ---------------------------------------------------------------------

  /** What can happen to a handle: the transport settles it, or the caller
      registers a callback. */
  datatype Event = SettleWith(outcome: Outcome) | RegisterOn(channel: Channel, callback: nat)

  function Step(h: RequestHandle, e: Event): RequestHandle {
    match e
    case SettleWith(o) => Settle(h, o)
    case RegisterOn(ch, cb) => Register(h, ch, cb)
  }

  /** The handle after the events, in order. */
  function Run(h: RequestHandle, events: seq<Event>): (h': RequestHandle)
    ensures h'.exchange == h.exchange
    ensures h.delivered <= h'.delivered
    ensures Valid(h) ==> Valid(h') && |h'.delivered| <= 1
    decreases |events|
  {
    if |events| == 0 then h
    else Run(Step(h, events[0]), events[1..])
  }

  /** The outcome of the first settlement among the events. */
  function FirstSettlement(events: seq<Event>): Option<Outcome> {
    if |events| == 0 then None
    else if events[0].SettleWith? then Some(events[0].outcome)
    else FirstSettlement(events[1..])
  }

  /** The callback of the first registration on `channel` among the events. */
  function FirstRegistration(events: seq<Event>, channel: Channel): Option<nat> {
    if |events| == 0 then None
    else if events[0].RegisterOn? && events[0].channel == channel then Some(events[0].callback)
    else FirstRegistration(events[1..], channel)
  }

  /** The callbacks kept from a sequence of events: the first one registered
      on each channel. */
  function FirstCallbacks(events: seq<Event>): Callbacks {
    Callbacks(
      FirstRegistration(events, SuccessChannel),
      FirstRegistration(events, RequestErrorChannel),
      FirstRegistration(events, UnexpectedErrorChannel))
  }

  /** The cell after a settlement attempt with an optional outcome. */
  function CellAfter(cell: Cell, outcome: Option<Outcome>): Cell {
    if cell.Settled? then cell
    else match outcome
      case None => Pending
      case Some(o) => Settled(o)
  }

  /** After any run, the cell holds the first outcome ever settled and each
      slot holds the first callback ever registered on its channel. */
  lemma {:induction false} RunState(h: RequestHandle, events: seq<Event>)
    ensures Run(h, events).cell == CellAfter(h.cell, FirstSettlement(events))
    ensures forall ch :: Run(h, events).callbacks.For(ch) ==
              OrElse(h.callbacks.For(ch), FirstRegistration(events, ch))
    decreases |events|
  {
    if |events| > 0 {
      var next := Step(h, events[0]);
      RunState(next, events[1..]);
      assert Run(h, events) == Run(next, events[1..]);
    }
  }

  /** The invocations made by any interleaving that starts from a fresh
      handle: the first settled outcome goes to the first callback registered
      on its channel, if there is one, and nothing else is ever invoked. The
      relative order of settlement and registrations does not matter. */
  lemma DeliveryIsOrderIndependent(exchange: nat, events: seq<Event>)
    ensures Run(Start(exchange), events).delivered ==
              Owed(CellAfter(Pending, FirstSettlement(events)), FirstCallbacks(events))
  {
    var h := Run(Start(exchange), events);
    RunState(Start(exchange), events);
    assert h.callbacks.For(SuccessChannel) == FirstRegistration(events, SuccessChannel);
    assert h.callbacks.For(RequestErrorChannel) == FirstRegistration(events, RequestErrorChannel);
    assert h.callbacks.For(UnexpectedErrorChannel) == FirstRegistration(events, UnexpectedErrorChannel);
  }

  /** Exactly-once delivery: at most one callback ever runs; it belongs to the
      channel of the first settled outcome and it is the first callback
      registered there; and it does run once both exist. */
  lemma ExactlyOnce(exchange: nat, events: seq<Event>)
    ensures var delivered := Run(Start(exchange), events).delivered;
      && |delivered| <= 1
      && (forall d :: d in delivered ==>
            && FirstSettlement(events) == Some(d.outcome)
            && d.channel == ChannelOf(d.outcome)
            && FirstRegistration(events, d.channel) == Some(d.callback))
      && (FirstSettlement(events).Some? &&
          FirstRegistration(events, ChannelOf(FirstSettlement(events).value)).Some?
          ==> |delivered| == 1)
  {
    DeliveryIsOrderIndependent(exchange, events);
  }

  /** Registering before the exchange settles and registering after it both
      invoke the same callbacks. */
  lemma SettlementTimingIrrelevant(exchange: nat, outcome: Outcome, registrations: seq<Event>)
    requires forall i :: 0 <= i < |registrations| ==> registrations[i].RegisterOn?
    ensures Run(Start(exchange), [SettleWith(outcome)] + registrations).delivered ==
            Run(Start(exchange), registrations + [SettleWith(outcome)]).delivered
  {
    var before := registrations + [SettleWith(outcome)];
    var after := [SettleWith(outcome)] + registrations;
    FirstSettlementAfterRegistrations(registrations, outcome);
    assert FirstSettlement(after) == Some(outcome);
    assert after[1..] == registrations;
    FirstRegistrationIgnoresSettlement(registrations, outcome, SuccessChannel);
    FirstRegistrationIgnoresSettlement(registrations, outcome, RequestErrorChannel);
    FirstRegistrationIgnoresSettlement(registrations, outcome, UnexpectedErrorChannel);
    assert FirstCallbacks(before) == FirstCallbacks(after);
    DeliveryIsOrderIndependent(exchange, before);
    DeliveryIsOrderIndependent(exchange, after);
  }

  lemma {:induction false} FirstSettlementAfterRegistrations(registrations: seq<Event>, outcome: Outcome)
    requires forall i :: 0 <= i < |registrations| ==> registrations[i].RegisterOn?
    ensures FirstSettlement(registrations + [SettleWith(outcome)]) == Some(outcome)
  {
    if |registrations| > 0 {
      assert (registrations + [SettleWith(outcome)])[1..] == registrations[1..] + [SettleWith(outcome)];
      FirstSettlementAfterRegistrations(registrations[1..], outcome);
    }
  }

  lemma {:induction false} FirstRegistrationIgnoresSettlement(registrations: seq<Event>, outcome: Outcome, channel: Channel)
    ensures FirstRegistration(registrations + [SettleWith(outcome)], channel) ==
            FirstRegistration(registrations, channel)
  {
    if |registrations| > 0 {
      assert (registrations + [SettleWith(outcome)])[1..] == registrations[1..] + [SettleWith(outcome)];
      FirstRegistrationIgnoresSettlement(registrations[1..], outcome, channel);
    } else {
      assert [SettleWith(outcome)][1..] == [];
    }
  }

  // ---------------------------------------------------------------------
  // A whole exchange
  // ---------------------------------------------------------------------

  /** A whole call of `makeApiRequest`: the caller chains its registrations
      on the returned handle in the same turn, then the transport, modelled
      as a function of the outgoing request, settles the exchange. */
  function Exchange(config: RequestConfig, transport: TransportRequest -> TransportResult,
                    parse: Parser, registrations: seq<Event>): (h: RequestHandle)
    ensures Valid(h) && |h.delivered| <= 1
  {
    var (req, handle) := MakeApiRequest(config, 0);
    Run(handle, registrations + [SettleWith(Classify(transport(req), parse))])
  }

  /** Every exchange invokes at most one callback, on the channel of its
      classified outcome: the success callback gets the parsed body of a 2xx
      response, the request-error callback gets the status and raw body of
      any other response, and the unexpected-error callback gets transport
      failures. It does invoke one when that channel was registered. */
  lemma ExchangeDelivers(config: RequestConfig, transport: TransportRequest -> TransportResult,
                         parse: Parser, registrations: seq<Event>)
    requires forall i :: 0 <= i < |registrations| ==> registrations[i].RegisterOn?
    ensures var outcome := Classify(transport(Outgoing(config)), parse);
      var delivered := Exchange(config, transport, parse, registrations).delivered;
      && (forall d :: d in delivered ==>
            d.outcome == outcome && d.channel == ChannelOf(outcome) &&
            FirstRegistration(registrations, d.channel) == Some(d.callback))
      && (FirstRegistration(registrations, ChannelOf(outcome)).Some? <==> |delivered| == 1)
  {
    var outcome := Classify(transport(Outgoing(config)), parse);
    var events := registrations + [SettleWith(outcome)];
    FirstSettlementAfterRegistrations(registrations, outcome);
    FirstRegistrationIgnoresSettlement(registrations, outcome, ChannelOf(outcome));
    ExactlyOnce(0, events);
  }
}
