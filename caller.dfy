/**
 * The synchronous client of jarpc/client.py: `JarpcClient` with its ttl
 * defaults, `_prepare_request`, `__call__`, `_parse_response`, and the
 * attribute-style `simple_call`. The clock and the uuid source are
 * parameters; the transport is a function the client is built with.
 */
module Caller {
  import opened Wrappers
  import opened Json
  import opened Errors
  import opened Format
  import Invocation
  import Server

  /** What the transport did with a request: handed back a reply (decoded by `loads`), raised a taxonomy error, or raised anything else. */
  datatype Delivery = Delivered(reply: Decoded) | TransportRaised(err: RpcError) | TransportFailed(exc: Exception)

  /** How a client call ends: with a value (None for a notification) or with an exception. */
  datatype CallResult = Returned(v: Json) | Raised(t: Thrown)

  /** Python's `a or b` on an optional number: None and 0.0 are both false. */
  function OrElse(a: Option<real>, b: Option<real>): Option<real>
  {
    if a.Some? && a.value != 0.0 then a else b
  }

  /** `raise_exception(code=error.get('code'), ...)`: the error rebuilt from its dictionary; `.get` on anything else fails. */
  function Reraise(error: Json): (t: Thrown)
    ensures !error.JObject? ==> t == Native(Exception("AttributeError", "'" + TypeName(error) + "' object has no attribute 'get'"))
    ensures error.JObject? ==> t == RaiseException(Get(error.fields, "code"), Get(error.fields, "data"), Get(error.fields, "message"))
  {
    if !error.JObject? then Native(Exception("AttributeError", "'" + TypeName(error) + "' object has no attribute 'get'"))
    else RaiseException(Get(error.fields, "code"), Get(error.fields, "data"), Get(error.fields, "message"))
  }

  /** `_parse_response`: nothing for a notification; otherwise the result, or the error rebuilt and raised. */
  function ParseResponse(reply: Decoded, rsvp: bool): (r: CallResult)
    ensures !rsvp ==> r == Returned(JNull)
    ensures rsvp && ResponseFromJson(reply).Failure? ==> r == Raised(ResponseFromJson(reply).error)
    ensures rsvp && ResponseFromJson(reply).Success? ==>
      var resp := ResponseFromJson(reply).value;
      r == if IsSuccess(resp) then Returned(resp.result) else Raised(Reraise(resp.error))
  {
    if !rsvp then Returned(JNull)
    else
      match ResponseFromJson(reply)
      case Failure(t) => Raised(t)
      case Success(resp) => if IsSuccess(resp) then Returned(resp.result) else Raised(Reraise(resp.error))
  }

  /** The `try` around the transport in `__call__`, then `_parse_response`. */
  function Deliver(d: Delivery, rsvp: bool): (r: CallResult)
    ensures d.TransportRaised? ==> r == Raised(Jarpc(d.err))
    ensures d.TransportFailed? ==> r == Raised(Jarpc(NewError(ServerError, Caught(d.exc))))
    ensures d.Delivered? ==> r == ParseResponse(d.reply, rsvp)
  {
    match d
    case TransportRaised(e) => Raised(Jarpc(e))
    case TransportFailed(x) => Raised(Jarpc(NewError(ServerError, Caught(x))))
    case Delivered(reply) => ParseResponse(reply, rsvp)
  }

  class Client {
    /** Sends the wire object and the request with the caller's extra keyword arguments. */
    const transport: (Json, Request, map<string, Json>) -> Delivery
    const defaultRpcTtl: Option<real>
    const defaultNotificationTtl: Option<real>

    /** The specific defaults fall back to the shared one when absent or zero. */
    constructor(transport: (Json, Request, map<string, Json>) -> Delivery,
                defaultTtl: Option<real>, defaultRpcTtl: Option<real>, defaultNotificationTtl: Option<real>)
      ensures this.transport == transport
      ensures this.defaultRpcTtl == OrElse(defaultRpcTtl, defaultTtl)
      ensures this.defaultNotificationTtl == OrElse(defaultNotificationTtl, defaultTtl)
    {
      this.transport := transport;
      this.defaultRpcTtl := OrElse(defaultRpcTtl, defaultTtl);
      this.defaultNotificationTtl := OrElse(defaultNotificationTtl, defaultTtl);
    }

    /**
     * `_prepare_request`: a durable request never expires; otherwise an
     * explicit ttl (zero included) wins over the default for its kind of
     * call. The clock reading and the fresh uuid are supplied by the caller.
     */
    function PrepareRequest(name: string, params: map<string, Json>, ts: Option<real>, ttl: Option<real>,
                            id: Option<string>, rsvp: bool, durable: bool, now: real, freshId: string): (r: Request)
      ensures r.name == name && r.params == params && r.rsvp == rsvp
      ensures r.ts == (if ts.Some? then ts.value else now)
      ensures r.id == (if id.Some? then id.value else freshId)
      ensures durable ==> r.ttl.None?
      ensures !durable && ttl.Some? ==> r.ttl == ttl
      ensures !durable && ttl.None? ==> r.ttl == (if rsvp then defaultRpcTtl else defaultNotificationTtl)
    {
      var resolved := if durable then None
        else if ttl.None? then (if rsvp then defaultRpcTtl else defaultNotificationTtl)
        else ttl;
      Request(name, params, if ts.None? then now else ts.value, resolved, if id.None? then freshId else id.value, rsvp)
    }

    /** `__call__`: prepare, send, translate transport failures, parse the reply. */
    method Call(name: string, params: map<string, Json>, ts: Option<real>, ttl: Option<real>, id: Option<string>,
                rsvp: bool, durable: bool, transportKwargs: map<string, Json>, now: real, freshId: string)
      returns (r: CallResult)
      ensures var request := PrepareRequest(name, params, ts, ttl, id, rsvp, durable, now, freshId);
        r == Deliver(transport(RequestData(request), request, transportKwargs), rsvp)
    {
      var request := PrepareRequest(name, params, ts, ttl, id, rsvp, durable, now, freshId);
      var delivery := transport(RequestData(request), request, transportKwargs);
      match delivery {
        case TransportRaised(e) =>
          return Raised(Jarpc(e));
        case TransportFailed(x) =>
          return Raised(Jarpc(NewError(ServerError, Caught(x))));
        case Delivered(reply) =>
          r := ParseResponse(reply, rsvp);
      }
    }

    /** `client.name(**params)`: a call with every meta parameter at its default. */
    method SimpleCall(name: string, params: map<string, Json>, now: real, freshId: string) returns (r: CallResult)
      ensures var request := PrepareRequest(name, params, None, None, None, true, false, now, freshId);
        r == Deliver(transport(RequestData(request), request, map[]), true)
    {
      r := Call(name, params, None, None, None, true, false, map[], now, freshId);
    }
  }

  /**
   * The ttl precedence: durable means none; then an explicit ttl; then the
   * default for the kind of call, when set and non-zero; then the shared
   * default.
   */
  lemma TtlPrecedence(c: Client, defaultTtl: Option<real>, defaultRpcTtl: Option<real>, defaultNotificationTtl: Option<real>,
                      name: string, params: map<string, Json>, ttl: Option<real>, rsvp: bool, durable: bool,
                      now: real, freshId: string)
    requires c.defaultRpcTtl == OrElse(defaultRpcTtl, defaultTtl)
    requires c.defaultNotificationTtl == OrElse(defaultNotificationTtl, defaultTtl)
    ensures var t := c.PrepareRequest(name, params, None, ttl, None, rsvp, durable, now, freshId).ttl;
      var specific := if rsvp then defaultRpcTtl else defaultNotificationTtl;
      && (durable ==> t == None)
      && (!durable && ttl.Some? ==> t == ttl)
      && (!durable && ttl.None? && specific.Some? && specific.value != 0.0 ==> t == specific)
      && (!durable && ttl.None? && (specific.None? || specific.value == 0.0) ==> t == defaultTtl)
  {
  }

  /** A success answer reaches the caller as its result. */
  lemma RemoteResultReturned(v: Json, requestId: string, id: string)
    ensures ParseResponse(Parsed(ResponseData(Response(Some(requestId), v, JNull, id))), true) == Returned(v)
  {
    ResponseRoundTrip(Response(Some(requestId), v, JNull, id));
  }

  /**
   * An error answer is raised at the caller as the error the server sent:
   * a registered kind as that kind with its data, an unknown code as an
   * unknown error carrying code, message and data as they came.
   */
  lemma RemoteErrorReraised(e: RpcError, requestId: string, id: string)
    requires e.Unknown? ==> !e.code.JArray? && !e.code.JObject?
    requires e.Unknown? ==> forall k :: HashKey(e.code) != Some(Code(k))
    ensures ParseResponse(Parsed(ResponseData(Response(Some(requestId), JNull, AsDict(e), id))), true) == Raised(Jarpc(e))
  {
    ResponseRoundTrip(Response(Some(requestId), JNull, AsDict(e), id));
    AsDictRoundTrip(e);
  }

  /**
   * An answer with no request id, which a manager sends for a body it could
   * not read as a request, is refused by the client as an invalid response.
   */
  lemma UnattributedAnswerRefused(r: Response)
    requires r.requestId.None?
    ensures ParseResponse(Parsed(ResponseData(r)), true) == Raised(Jarpc(InvalidResponse))
  {
  }

  /**
   * End to end: what a manager answers reaches the client as it was meant;
   * in particular a taxonomy error raised by the remote method is raised at
   * the caller as the same error.
   */
  lemma {:induction false} ManagerAnswerRoundTrip(methods: map<string, Invocation.Method>, context: map<string, Json>,
                                                  body: Decoded, nowBefore: real, nowAfter: real, responseId: string)
    requires RequestFromJson(body).Success?
    requires Server.ResponseFor(methods, context, body, nowBefore, nowAfter, responseId).Some?
    ensures var resp := Server.ResponseFor(methods, context, body, nowBefore, nowAfter, responseId).value;
      var got := ParseResponse(Parsed(ResponseData(resp)), true);
      && (IsSuccess(resp) ==> got == Returned(resp.result))
      && (!IsSuccess(resp) ==> got == Raised(Reraise(resp.error)))
  {
    var resp := Server.ResponseFor(methods, context, body, nowBefore, nowAfter, responseId).value;
    Server.AnswerAddressedToRequest(methods, context, body, nowBefore, nowAfter, responseId);
    assert !IsSuccess(resp) ==> resp.result == JNull;
    ResponseRoundTrip(resp);
  }

  /**
   * A taxonomy error raised by a remote method is answered, even when the
   * request expired while the method ran, and is raised at the caller as the
   * same error.
   */
  lemma RemoteTaxonomyErrorSurvives(m: Invocation.Method, request: Request, context: map<string, Json>,
                                    nowAfter: real, responseId: string, e: RpcError)
    requires request.rsvp
    requires Invocation.Invoke(m, request.params, Invocation.Injected(m.sig, request, context)) == Invocation.RaisedTaxonomy(e)
    requires e.Unknown? ==> !e.code.JArray? && !e.code.JObject? && forall k :: HashKey(e.code) != Some(Code(k))
    ensures var answer := Server.Answer(m, request, context, nowAfter, responseId);
      answer.Some? && ParseResponse(Parsed(ResponseData(answer.value)), true) == Raised(Jarpc(e))
  {
    Server.FailureOutlivesExpiry(m, request, context, nowAfter, responseId);
    RemoteErrorReraised(e, request.id, responseId);
  }
}
