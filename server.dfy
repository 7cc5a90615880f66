/**
 * The synchronous request path of jarpc/manager.py: `JarpcManager`,
 * `get_response` and `handle`. The clock is read twice by `get_response`
 * (before and after the call) and both readings are parameters here, as is
 * the identifier of the response, which the source draws from uuid4.
 */
module Server {
  import opened Wrappers
  import opened Json
  import opened Errors
  import opened Format
  import opened Invocation
  import opened Dispatch

  /** What `get_response` answers with a caught exception: a taxonomy error as raised, anything else wrapped in ServerError. */
  function AsRpcError(t: Thrown): (e: RpcError)
    ensures t.Jarpc? ==> e == t.err
    ensures t.Native? ==> e.Known? && e.kind == ServerError && e.data == JString(Describe(t.exc))
  {
    match t
    case Jarpc(err) => err
    case Native(x) => NewError(ServerError, Caught(x))
  }

  /** `JarpcResponse(request_id=..., error=e.as_dict()) if rsvp else None`. */
  function ErrorReply(requestId: Option<string>, rsvp: bool, e: RpcError, responseId: string): Option<Response>
  {
    if rsvp then Some(Response(requestId, JNull, AsDict(e), responseId)) else None
  }

  /**
   * The error raised from the `except TypeError` branch: the checker's own
   * IndexError and a TypeError the checker finds no fault for become
   * ServerError; a fault it finds becomes InvalidParams with its explanation.
   */
  function TypeErrorVerdict(sig: Signature, params: set<string>, context: set<string>, msg: string): (e: RpcError)
    ensures e.Known?
    ensures e.kind == InvalidParams <==> CheckCall(sig, params, context).Success? && CheckCall(sig, params, context).value != Fine
    ensures e.kind == InvalidParams ==> e.data == JString(Report(CheckCall(sig, params, context).value).1.value)
    ensures CheckCall(sig, params, context) == Success(Fine) ==> e == NewError(ServerError, Caught(Exception("TypeError", msg)))
    ensures CheckCall(sig, params, context).Failure? ==> e == NewError(ServerError, Caught(EmptyDeque))
  {
    match CheckCall(sig, params, context)
    case Failure(x) => NewError(ServerError, Caught(x))
    case Success(v) =>
      var report := Report(v);
      if report.0 then NewError(ServerError, Caught(Exception("TypeError", msg)))
      else NewError(InvalidParams, Plain(JString(report.1.value)))
  }

  /** What becomes of a found request, by how its call ended and the clock after it. */
  function Settle(o: Outcome, sig: Signature, request: Request, context: map<string, Json>,
                  nowAfter: real, responseId: string): Option<Response>
  {
    var requestId := Some(request.id);
    match o
    case Returned(v) =>
      if Expired(request, nowAfter) then None
      else if request.rsvp then Some(Response(requestId, v, JNull, responseId))
      else None
    case RaisedTaxonomy(e) => ErrorReply(requestId, request.rsvp, e, responseId)
    case RaisedTypeError(msg) =>
      ErrorReply(requestId, request.rsvp, TypeErrorVerdict(sig, request.params.Keys, context.Keys, msg), responseId)
    case RaisedOther(x) =>
      var e := if x.cls == "TypeError" then TypeErrorVerdict(sig, request.params.Keys, context.Keys, x.text)
               else NewError(ServerError, Caught(x));
      ErrorReply(requestId, request.rsvp, e, responseId)
  }

  /** What becomes of a request once its method is found. */
  function Answer(m: Method, request: Request, context: map<string, Json>, nowAfter: real, responseId: string): Option<Response>
  {
    Settle(Invoke(m, request.params, Injected(m.sig, request, context)), m.sig, request, context, nowAfter, responseId)
  }

  /** The response `get_response` produces for a decoded body against a table of methods and a context. */
  function ResponseFor(methods: map<string, Method>, context: map<string, Json>, body: Decoded,
                       nowBefore: real, nowAfter: real, responseId: string): Option<Response>
  {
    match RequestFromJson(body)
    case Failure(t) => ErrorReply(None, true, AsRpcError(t), responseId)
    case Success(request) =>
      if Expired(request, nowBefore) then None
      else if request.name !in methods then ErrorReply(Some(request.id), request.rsvp, NotFound(request.name), responseId)
      else Answer(methods[request.name], request, context, nowAfter, responseId)
  }

  class Manager {
    const dispatcher: Dispatcher
    /** Values injected into the methods that declare them. */
    const context: map<string, Json>

    /** `context or dict()`. */
    constructor(dispatcher: Dispatcher, context: Option<map<string, Json>>)
      ensures this.dispatcher == dispatcher
      ensures this.context == (if context.Some? then context.value else map[])
    {
      this.dispatcher := dispatcher;
      this.context := if context.Some? then context.value else map[];
    }

    /** `get_response`: decode, drop if late, look up, call, classify the failure, drop if late, answer if asked to. */
    method GetResponse(body: Decoded, nowBefore: real, nowAfter: real, responseId: string) returns (response: Option<Response>)
      ensures response == ResponseFor(dispatcher.methodMap, context, body, nowBefore, nowAfter, responseId)
    {
      var requestId: Option<string> := None;
      var rsvp := true;
      var parsed := FromJson(body);
      if parsed.Failure? {
        return ErrorReply(requestId, rsvp, AsRpcError(parsed.error), responseId);
      }
      var request := parsed.value;
      if Expired(request, nowBefore) {
        return None;
      }
      requestId := Some(request.id);
      rsvp := request.rsvp;
      var found := dispatcher.Lookup(request.name);
      if found.Failure? {
        return ErrorReply(requestId, rsvp, found.error, responseId);
      }
      response := AnswerCall(found.value, request, nowAfter, responseId);
    }

    /** The part of `get_response` after the lookup: the call, the `except` clauses, the second expiry check. */
    method AnswerCall(m: Method, request: Request, nowAfter: real, responseId: string) returns (response: Option<Response>)
      ensures response == Answer(m, request, context, nowAfter, responseId)
    {
      var requestId := Some(request.id);
      var rsvp := request.rsvp;
      var outcome := CallMethod(m, request, context);
      var raised: RpcError;
      var typeError: Option<string> := None;
      match outcome {
        case Returned(v) =>
          if Expired(request, nowAfter) {
            return None;
          }
          return if rsvp then Some(Response(requestId, v, JNull, responseId)) else None;
        case RaisedTaxonomy(e) =>
          raised := e;
        case RaisedTypeError(msg) =>
          typeError := Some(msg);
        case RaisedOther(x) =>
          if x.cls == "TypeError" {
            typeError := Some(x.text);
          } else {
            raised := NewError(ServerError, Caught(x));
          }
      }
      if typeError.Some? {
        var msg := typeError.value;
        var check := CheckFunctionCall(m.sig, request.params.Keys, context.Keys);
        if check.Failure? {
          raised := NewError(ServerError, Caught(check.error));
        } else if check.value.0 {
          raised := NewError(ServerError, Caught(Exception("TypeError", msg)));
        } else {
          raised := NewError(InvalidParams, Plain(JString(check.value.1.value)));
        }
        assert raised == TypeErrorVerdict(m.sig, request.params.Keys, context.Keys, msg);
      }
      response := ErrorReply(requestId, rsvp, raised, responseId);
    }

    /** `handle`: the response's wire object, or nothing. */
    method Handle(body: Decoded, nowBefore: real, nowAfter: real, responseId: string) returns (out: Option<Json>)
      ensures var r := ResponseFor(dispatcher.methodMap, context, body, nowBefore, nowAfter, responseId);
        out == if r.Some? then Some(ResponseData(r.value)) else None
    {
      var response := GetResponse(body, nowBefore, nowAfter, responseId);
      out := if response.Some? then Some(ResponseData(response.value)) else None;
    }
  }

  /** A request that arrives expired is dropped whatever it asks for. */
  lemma LateRequestDropped(methods: map<string, Method>, context: map<string, Json>, body: Decoded,
                           nowBefore: real, nowAfter: real, responseId: string)
    requires RequestFromJson(body).Success? && Expired(RequestFromJson(body).value, nowBefore)
    ensures ResponseFor(methods, context, body, nowBefore, nowAfter, responseId) == None
  {
  }

  /** A notification is never answered: not on success, not on any error. */
  lemma NotificationNeverAnswered(methods: map<string, Method>, context: map<string, Json>, body: Decoded,
                                  nowBefore: real, nowAfter: real, responseId: string)
    requires RequestFromJson(body).Success? && !RequestFromJson(body).value.rsvp
    ensures ResponseFor(methods, context, body, nowBefore, nowAfter, responseId) == None
  {
  }

  /**
   * A body that is not a request is always answered, with no request id and
   * an error: ParseError for undecodable text, InvalidRequest for a decoded
   * value that is not a valid request, ServerError for any other failure.
   */
  lemma UnreadableRequestAnswered(methods: map<string, Method>, context: map<string, Json>, body: Decoded,
                                  nowBefore: real, nowAfter: real, responseId: string)
    requires RequestFromJson(body).Failure?
    ensures var r := ResponseFor(methods, context, body, nowBefore, nowAfter, responseId);
      && r.Some? && r.value.requestId.None? && !IsSuccess(r.value) && r.value.id == responseId
      && r.value.error == AsDict(AsRpcError(RequestFromJson(body).error))
      && (body.Unparsable? && DecodeCaught(body.exc) ==> r.value.error.fields["code"] == JInt(-32700))
      && (body.Parsed? ==> r.value.error.fields["code"] == JInt(-32600))
      && (body.Unparsable? && !DecodeCaught(body.exc) ==> r.value.error.fields["code"] == JInt(-32000))
  {
    if body.Parsed? {
      assert RequestFromJson(body) == Failure(Jarpc(RequestFromData(body.value).error));
      RequestRejectionIsInvalidRequest(body.value);
    }
  }

  /** Every refusal of `from_data` is an InvalidRequest error. */
  lemma RequestRejectionIsInvalidRequest(j: Json)
    requires RequestFromData(j).Failure?
    ensures RequestFromData(j).error.Known? && RequestFromData(j).error.kind == InvalidRequest
  {
  }

  /** Whatever is answered to a request is addressed to it, and only requests that asked for an answer get one. */
  lemma AnswerAddressedToRequest(methods: map<string, Method>, context: map<string, Json>, body: Decoded,
                                 nowBefore: real, nowAfter: real, responseId: string)
    requires RequestFromJson(body).Success?
    requires ResponseFor(methods, context, body, nowBefore, nowAfter, responseId).Some?
    ensures var r := ResponseFor(methods, context, body, nowBefore, nowAfter, responseId).value;
      && r.requestId == Some(RequestFromJson(body).value.id)
      && r.id == responseId
      && RequestFromJson(body).value.rsvp
      && !Expired(RequestFromJson(body).value, nowBefore)
  {
  }

  /** An unregistered method name is answered with MethodNotFound naming it. */
  lemma UnknownMethodAnswered(methods: map<string, Method>, context: map<string, Json>, body: Decoded,
                              nowBefore: real, nowAfter: real, responseId: string)
    requires RequestFromJson(body).Success?
    requires var q := RequestFromJson(body).value; q.rsvp && !Expired(q, nowBefore) && q.name !in methods
    ensures var q := RequestFromJson(body).value;
      ResponseFor(methods, context, body, nowBefore, nowAfter, responseId)
        == Some(Response(Some(q.id), JNull, AsDict(NotFound(q.name)), responseId))
  {
  }

  /** A result that is ready only after the request expired is dropped. */
  lemma LateResultDropped(m: Method, request: Request, context: map<string, Json>, nowAfter: real, responseId: string)
    requires Invoke(m, request.params, Injected(m.sig, request, context)).Returned?
    requires Expired(request, nowAfter)
    ensures Answer(m, request, context, nowAfter, responseId) == None
  {
  }

  /**
   * A failed call is answered even when the request expired meanwhile (the
   * second expiry check is on the success path only), and a taxonomy error
   * raised by the body reaches the answer unchanged.
   */
  lemma FailureOutlivesExpiry(m: Method, request: Request, context: map<string, Json>, nowAfter: real, responseId: string)
    requires request.rsvp
    requires !Invoke(m, request.params, Injected(m.sig, request, context)).Returned?
    ensures var r := Answer(m, request, context, nowAfter, responseId);
      && r.Some? && !IsSuccess(r.value) && r.value.requestId == Some(request.id)
    ensures var o := Invoke(m, request.params, Injected(m.sig, request, context));
      o.RaisedTaxonomy? ==> Answer(m, request, context, nowAfter, responseId).value.error == AsDict(o.e)
    ensures var o := Invoke(m, request.params, Injected(m.sig, request, context));
      o.RaisedOther? && o.exc.cls != "TypeError" ==>
        Answer(m, request, context, nowAfter, responseId).value.error == AsDict(NewError(ServerError, Caught(o.exc)))
    ensures var o := Invoke(m, request.params, Injected(m.sig, request, context));
      o.RaisedOther? && o.exc.cls == "TypeError" ==>
        Answer(m, request, context, nowAfter, responseId).value.error
          == AsDict(TypeErrorVerdict(m.sig, request.params.Keys, context.Keys, o.exc.text))
  {
  }

  /**
   * A signature mismatch reaches the caller as InvalidParams with the
   * checker's explanation, unless the fault is one the checker cannot see:
   * supplying the bound first parameter, or (without a `**kw` sink) a context
   * entry named like the `*args` sink.
   */
  lemma {:induction false} MismatchIsInvalidParams(m: Method, request: Request, context: map<string, Json>,
                                                   nowAfter: real, responseId: string)
    requires WellFormed(m.sig) && request.rsvp
    requires CheckCall(m.sig, request.params.Keys, context.Keys).Success?
    requires request.params.Keys !! BoundSelf(m.sig)
    requires m.sig.varKw || InjectedNames(m.sig, context.Keys) !! m.sig.sinks
    requires var injected := Injected(m.sig, request, context).Keys;
      !(request.params.Keys !! injected) || !Binds(m.sig, request.params.Keys + injected)
    ensures var v := CheckCall(m.sig, request.params.Keys, context.Keys).value;
      && v != Fine
      && Answer(m, request, context, nowAfter, responseId)
           == Some(Response(Some(request.id), JNull, AsDict(NewError(InvalidParams, Plain(JString(Report(v).1.value)))), responseId))
  {
    var o := Invoke(m, request.params, Injected(m.sig, request, context));
    assert o.RaisedTypeError?;
    assert Injected(m.sig, request, context).Keys == InjectedNames(m.sig, context.Keys);
    RefusedCallIsReported(m.sig, request.params.Keys, context.Keys);
    SettleMismatch(o, m.sig, request, context, nowAfter, responseId);
  }

  /** The classification step alone: a TypeError the checker finds fault for is answered as InvalidParams. */
  lemma SettleMismatch(o: Outcome, sig: Signature, request: Request, context: map<string, Json>, nowAfter: real, responseId: string)
    requires o.RaisedTypeError? && request.rsvp
    requires CheckCall(sig, request.params.Keys, context.Keys).Success?
    requires CheckCall(sig, request.params.Keys, context.Keys).value != Fine
    ensures Settle(o, sig, request, context, nowAfter, responseId)
      == Some(Response(Some(request.id), JNull,
           AsDict(NewError(InvalidParams, Plain(JString(Report(CheckCall(sig, request.params.Keys, context.Keys).value).1.value)))),
           responseId))
  {
  }

  /**
   * A parameter that clashes with an injected name (the reserved one or a
   * declared context name) is reported as InvalidParams: as unexpected
   * without a `**kw` sink and as unavailable with one, unless a missing
   * name is reported first.
   */
  lemma {:induction false} InjectedNameClash(m: Method, request: Request, context: map<string, Json>,
                                             nowAfter: real, responseId: string, n: string)
    requires WellFormed(m.sig) && request.rsvp
    requires CheckCall(m.sig, request.params.Keys, context.Keys).Success?
    requires n in request.params && n in InjectedNames(m.sig, context.Keys)
    ensures var v := CheckCall(m.sig, request.params.Keys, context.Keys).value;
      && (v.UnexpectedArgs? ==> !m.sig.varKw && n in v.unexpected)
      && (v.UnavailableArgs? ==> m.sig.varKw && n in v.unavailable)
      && (v.MissingArgs? || v.UnexpectedArgs? || v.UnavailableArgs?)
      && Answer(m, request, context, nowAfter, responseId).value.error
           == AsDict(NewError(InvalidParams, Plain(JString(Report(v).1.value))))
  {
    var o := Invoke(m, request.params, Injected(m.sig, request, context));
    assert n in request.params.Keys * Injected(m.sig, request, context).Keys;
    assert o.RaisedTypeError?;
    ClashVerdict(m.sig, request.params.Keys, context.Keys, n);
    SettleMismatch(o, m.sig, request, context, nowAfter, responseId);
  }

  /**
   * With a `**kw` sink, a parameter named like a context entry the signature
   * does not list is not injected: the method receives the caller's value
   * under that name, its body runs, and a result is answered as usual.
   */
  lemma UnlistedContextNameReceived(m: Method, request: Request, context: map<string, Json>,
                                    nowAfter: real, responseId: string, n: string)
    requires WellFormed(m.sig) && m.sig.varKw && request.rsvp && !Expired(request, nowAfter)
    requires request.params.Keys !! BoundSelf(m.sig) && Required(m.sig) <= request.params.Keys
    requires request.params.Keys !! InjectedNames(m.sig, context.Keys)
    requires n in request.params && n in context && n !in Listed(m.sig)
    ensures var args := Merge(request.params, Injected(m.sig, request, context));
      && n in args && args[n] == Value(request.params[n])
      && Invoke(m, request.params, Injected(m.sig, request, context)) == m.body(args)
      && (m.body(args).Returned? ==>
            Answer(m, request, context, nowAfter, responseId) == Some(Response(Some(request.id), m.body(args).v, JNull, responseId)))
  {
    var injected := Injected(m.sig, request, context);
    assert n !in injected;
    if Skip(m.sig) == 1 {
      assert m.sig.positional[0] !in Accepted(m.sig);
    }
    assert Binds(m.sig, request.params.Keys + injected.Keys);
  }

  /** An example method `add(a, b)` returning `a + b`. */
  function AddBody(args: map<string, Arg>): Outcome
  {
    if "a" in args && "b" in args && args["a"].Value? && args["b"].Value? && args["a"].v.JInt? && args["b"].v.JInt?
    then Returned(JInt(args["a"].v.i + args["b"].v.i))
    else RaisedTypeError("unsupported operand type(s) for +")
  }

  const Add: Method := Method("add", Signature(["a", "b"], false, 0, [], {}, false, {}), AddBody)

  /** The wire object of a request for add(a=1, b=2) without a ttl. */
  function AddRequestBody(now: real): Json
  {
    JObject(map[
      "version" := JString("1.0"), "method" := JString("add"), "params" := JObject(map["a" := JInt(1), "b" := JInt(2)]),
      "ts" := JFloat(now), "ttl" := JNull, "id" := JString("x"), "rsvp" := JBool(true)])
  }

  /** That object decodes to the request it describes. */
  lemma AddRequestDecoded(now: real)
    ensures RequestFromJson(Parsed(AddRequestBody(now)))
      == Success(Request("add", map["a" := JInt(1), "b" := JInt(2)], now, None, "x", true))
  {
    var request := Request("add", map["a" := JInt(1), "b" := JInt(2)], now, None, "x", true);
    assert RequestData(request) == AddRequestBody(now) by {
      assert RequestData(request).fields.Keys == AddRequestBody(now).fields.Keys;
    }
    RequestRoundTrip(request);
  }

  /** Called with a=1 and b=2 and nothing injected, add returns 3, and that is the answer. */
  lemma AddCallReturns(request: Request, later: real, responseId: string)
    requires request == Request("add", map["a" := JInt(1), "b" := JInt(2)], request.ts, None, "x", true)
    ensures Answer(Add, request, map[], later, responseId) == Some(Response(Some("x"), JInt(3), JNull, responseId))
  {
    var injected := Injected(Add.sig, request, map[]);
    assert Accepted(Add.sig) == {"a", "b"} by {
      assert Add.sig.positional[0..] == ["a", "b"];
    }
    assert Required(Add.sig) == {"a", "b"} by {
      assert Add.sig.positional[0..2] == ["a", "b"];
    }
    assert injected == map[];
    assert Binds(Add.sig, request.params.Keys + injected.Keys);
    var args := Merge(request.params, injected);
    assert args["a"] == Value(JInt(1)) && args["b"] == Value(JInt(2));
    assert Invoke(Add, request.params, injected) == Returned(JInt(3));
  }

  /** A request for add(a=1, b=2) without a ttl is answered with 3, addressed to the request, however late. */
  lemma AddScenario(now: real, later: real, responseId: string)
    ensures ResponseFor(map["add" := Add], map[], Parsed(AddRequestBody(now)), now, later, responseId)
      == Some(Response(Some("x"), JInt(3), JNull, responseId))
  {
    AddRequestDecoded(now);
    var request := Request("add", map["a" := JInt(1), "b" := JInt(2)], now, None, "x", true);
    AddCallReturns(request, later, responseId);
  }
}
