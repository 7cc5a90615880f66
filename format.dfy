/**
 * The wire model of jarpc/format.py: the request and response envelopes,
 * their `data` forms, the validators that rebuild them from decoded values,
 * and request expiry.
 */
module Format {
  import opened Wrappers
  import opened Json
  import opened Errors

  const Version: string := "1.0"

  /** A request; `ts` and `ttl` are seconds, `ttl == None` means it never expires. */
  datatype Request = Request(
    name: string,
    params: map<string, Json>,
    ts: real,
    ttl: Option<real>,
    id: string,
    rsvp: bool)

  /** `expired`, with the clock reading passed in: strictly past `ts + ttl`. */
  predicate Expired(r: Request, now: real)
  {
    r.ttl.Some? && now > r.ts + r.ttl.value
  }

  /** Expiry: never without a ttl, not at the deadline, always after it. */
  lemma ExpiryWindow(r: Request, now: real, eps: real)
    requires eps > 0.0
    ensures r.ttl.None? ==> !Expired(r, now)
    ensures r.ttl.Some? ==> !Expired(r, r.ts) || r.ttl.value < 0.0
    ensures r.ttl.Some? ==> (Expired(r, now) <==> now > r.ts + r.ttl.value)
    ensures r.ttl.Some? ==> Expired(r, r.ts + r.ttl.value + eps) && !Expired(r, r.ts + r.ttl.value)
  {
  }

  function TtlValue(ttl: Option<real>): Json
  {
    match ttl
    case None => JNull
    case Some(t) => JFloat(t)
  }

  /** The fields every request must carry, in the order they are checked. */
  const RequiredFields: seq<string> := ["version", "method", "params", "ts", "ttl", "id", "rsvp"]

  /** `data`: the seven required fields, always with version "1.0". */
  function RequestData(r: Request): (j: Json)
    ensures j.JObject? && j.fields.Keys == set f | f in RequiredFields
    ensures j.fields["version"] == JString(Version)
    ensures j.fields["method"] == JString(r.name) && j.fields["params"] == JObject(r.params)
    ensures j.fields["ts"] == JFloat(r.ts) && j.fields["ttl"] == TtlValue(r.ttl)
    ensures j.fields["id"] == JString(r.id) && j.fields["rsvp"] == JBool(r.rsvp)
  {
    JObject(map[
      "version" := JString(Version),
      "method" := JString(r.name),
      "params" := JObject(r.params),
      "ts" := JFloat(r.ts),
      "ttl" := TtlValue(r.ttl),
      "id" := JString(r.id),
      "rsvp" := JBool(r.rsvp)])
  }

  /** The Python types `isinstance` tests the fields against. */
  datatype FieldType = Str | Dict | Float | FloatOrNone | Bool

  predicate IsInstance(j: Json, t: FieldType)
  {
    match t
    case Str => j.JString?
    case Dict => j.JObject?
    case Float => j.JFloat?
    case FloatOrNone => j.JFloat? || j.JNull?
    case Bool => j.JBool?
  }

  /** `field_types`, in the order they are checked. */
  const FieldTypes: seq<(string, FieldType)> := [
    ("method", Str), ("params", Dict), ("ts", Float), ("ttl", FloatOrNone), ("id", Str), ("rsvp", Bool)
  ]

  /** The position of the first listed field the object lacks. */
  function FirstMissing(fields: seq<string>, obj: map<string, Json>): (r: Option<nat>)
    ensures r.None? <==> forall i :: 0 <= i < |fields| ==> fields[i] in obj
    ensures r.Some? ==> r.value < |fields| && fields[r.value] !in obj
    ensures r.Some? ==> forall i :: 0 <= i < r.value ==> fields[i] in obj
  {
    if |fields| == 0 then None
    else if fields[0] !in obj then Some(0)
    else
      match FirstMissing(fields[1..], obj)
      case None => None
      case Some(i) => Some(i + 1)
  }

  /** The position of the first listed field whose value has the wrong type. */
  function FirstIllTyped(specs: seq<(string, FieldType)>, obj: map<string, Json>): (r: Option<nat>)
    requires forall i :: 0 <= i < |specs| ==> specs[i].0 in obj
    ensures r.None? <==> forall i :: 0 <= i < |specs| ==> IsInstance(obj[specs[i].0], specs[i].1)
    ensures r.Some? ==> r.value < |specs| && !IsInstance(obj[specs[r.value].0], specs[r.value].1)
    ensures r.Some? ==> forall i :: 0 <= i < r.value ==> IsInstance(obj[specs[i].0], specs[i].1)
  {
    if |specs| == 0 then None
    else if !IsInstance(obj[specs[0].0], specs[0].1) then Some(0)
    else
      match FirstIllTyped(specs[1..], obj)
      case None => None
      case Some(i) => Some(i + 1)
  }

  /** The object carries every required field. */
  predicate Complete(obj: map<string, Json>)
  {
    "version" in obj && "method" in obj && "params" in obj && "ts" in obj && "ttl" in obj && "id" in obj && "rsvp" in obj
  }

  /** The type rules: method and id are str, params a dict, ts a float (an int is refused), ttl a float or None, rsvp a bool. */
  predicate WellTyped(obj: map<string, Json>)
    requires Complete(obj)
  {
    && obj["method"].JString?
    && obj["params"].JObject?
    && obj["ts"].JFloat?
    && (obj["ttl"].JFloat? || obj["ttl"].JNull?)
    && obj["id"].JString?
    && obj["rsvp"].JBool?
  }

  lemma NoneMissingIsComplete(obj: map<string, Json>)
    ensures FirstMissing(RequiredFields, obj).None? <==> Complete(obj)
  {
    var fs := RequiredFields;
    assert fs[0] == "version" && fs[1] == "method" && fs[2] == "params" && fs[3] == "ts";
    assert fs[4] == "ttl" && fs[5] == "id" && fs[6] == "rsvp";
    if Complete(obj) {
      forall i | 0 <= i < |fs|
        ensures fs[i] in obj
      {
        assert i == 0 || i == 1 || i == 2 || i == 3 || i == 4 || i == 5 || i == 6;
      }
    } else {
      assert fs[0] !in obj || fs[1] !in obj || fs[2] !in obj || fs[3] !in obj
          || fs[4] !in obj || fs[5] !in obj || fs[6] !in obj;
    }
  }

  lemma NoneIllTypedIsWellTyped(obj: map<string, Json>)
    requires Complete(obj)
    ensures forall i :: 0 <= i < |FieldTypes| ==> FieldTypes[i].0 in obj
    ensures FirstIllTyped(FieldTypes, obj).None? <==> WellTyped(obj)
  {
    var ts := FieldTypes;
    assert ts[0] == ("method", Str) && ts[1] == ("params", Dict) && ts[2] == ("ts", Float);
    assert ts[3] == ("ttl", FloatOrNone) && ts[4] == ("id", Str) && ts[5] == ("rsvp", Bool);
    forall i | 0 <= i < |ts|
      ensures ts[i].0 in obj
    {
      assert i == 0 || i == 1 || i == 2 || i == 3 || i == 4 || i == 5;
    }
    if WellTyped(obj) {
      forall i | 0 <= i < |ts|
        ensures IsInstance(obj[ts[i].0], ts[i].1)
      {
        assert i == 0 || i == 1 || i == 2 || i == 3 || i == 4 || i == 5;
      }
    } else {
      assert !IsInstance(obj[ts[0].0], ts[0].1) || !IsInstance(obj[ts[1].0], ts[1].1)
          || !IsInstance(obj[ts[2].0], ts[2].1) || !IsInstance(obj[ts[3].0], ts[3].1)
          || !IsInstance(obj[ts[4].0], ts[4].1) || !IsInstance(obj[ts[5].0], ts[5].1);
    }
  }

  function Invalid(text: string): RpcError
  {
    Known(InvalidRequest, JString(text))
  }

  /** The request an accepted object describes (its fields are known to be present and well typed). */
  function Build(obj: map<string, Json>): Request
    requires Complete(obj) && WellTyped(obj)
  {
    Request(
      obj["method"].s,
      obj["params"].fields,
      obj["ts"].f,
      if obj["ttl"].JNull? then None else Some(obj["ttl"].f),
      obj["id"].s,
      obj["rsvp"].b)
  }

  /** `JarpcRequest.from_data`: the specification the validator below is proved against. */
  function RequestFromData(j: Json): Result<Request, RpcError>
  {
    if !j.JObject? then Failure(Invalid("Request body must be an object"))
    else
      var obj := j.fields;
      NoneMissingIsComplete(obj);
      match FirstMissing(RequiredFields, obj)
      case Some(i) => Failure(Invalid("Missing required field \"" + RequiredFields[i] + "\""))
      case None =>
        if obj["version"] != JString(Version) then Failure(Invalid("Version must be " + Version))
        else
          NoneIllTypedIsWellTyped(obj);
          match FirstIllTyped(FieldTypes, obj)
          case Some(i) => Failure(Invalid("Bad \"" + FieldTypes[i].0 + "\" value"))
          case None => Success(Build(obj))
  }

  /** `JarpcRequest.from_data`: the fixed-order checks, first failure wins. */
  method FromData(j: Json) returns (r: Result<Request, RpcError>)
    ensures r == RequestFromData(j)
  {
    if !j.JObject? {
      return Failure(Invalid("Request body must be an object"));
    }
    var obj := j.fields;
    var i := 0;
    while i < |RequiredFields|
      invariant 0 <= i <= |RequiredFields|
      invariant forall k :: 0 <= k < i ==> RequiredFields[k] in obj
    {
      if RequiredFields[i] !in obj {
        return Failure(Invalid("Missing required field \"" + RequiredFields[i] + "\""));
      }
      i := i + 1;
    }
    NoneMissingIsComplete(obj);
    if obj["version"] != JString(Version) {
      return Failure(Invalid("Version must be " + Version));
    }
    NoneIllTypedIsWellTyped(obj);
    i := 0;
    while i < |FieldTypes|
      invariant 0 <= i <= |FieldTypes|
      invariant forall k :: 0 <= k < i ==> IsInstance(obj[FieldTypes[k].0], FieldTypes[k].1)
    {
      if !IsInstance(obj[FieldTypes[i].0], FieldTypes[i].1) {
        return Failure(Invalid("Bad \"" + FieldTypes[i].0 + "\" value"));
      }
      i := i + 1;
    }
    r := Success(Build(obj));
  }

  /** The validator accepts exactly the complete, version 1.0, well-typed objects, and keeps their fields. */
  lemma RequestAcceptance(j: Json)
    ensures RequestFromData(j).Success? <==> j.JObject? && Complete(j.fields) && j.fields["version"] == JString(Version) && WellTyped(j.fields)
    ensures RequestFromData(j).Success? ==> RequestData(RequestFromData(j).value) == JObject(map f | f in j.fields && f in RequiredFields :: j.fields[f])
  {
    if j.JObject? {
      NoneMissingIsComplete(j.fields);
      if Complete(j.fields) {
        NoneIllTypedIsWellTyped(j.fields);
      }
    }
    if RequestFromData(j).Success? {
      var obj := j.fields;
      var kept := map f | f in obj && f in RequiredFields :: obj[f];
      assert kept.Keys == RequestData(RequestFromData(j).value).fields.Keys;
    }
  }

  /**
   * The rejections in their order, first failure winning: a non-object;
   * then the first absent field of version, method, params, ts, ttl, id,
   * rsvp; then a version other than 1.0; then the first ill-typed field of
   * method, params, ts, ttl, id, rsvp.
   */
  lemma RequestRejections(j: Json)
    ensures !j.JObject? ==> RequestFromData(j) == Failure(Invalid("Request body must be an object"))
    ensures forall i :: j.JObject? && 0 <= i < |RequiredFields| && RequiredFields[i] !in j.fields
                        && (forall k :: 0 <= k < i ==> RequiredFields[k] in j.fields) ==>
      RequestFromData(j) == Failure(Invalid("Missing required field \"" + RequiredFields[i] + "\""))
    ensures j.JObject? && Complete(j.fields) && j.fields["version"] != JString(Version) ==>
      RequestFromData(j) == Failure(Invalid("Version must be 1.0"))
    ensures j.JObject? && Complete(j.fields) && j.fields["version"] == JString(Version) ==>
      forall i :: 0 <= i < |FieldTypes| && FieldTypes[i].0 in j.fields && !IsInstance(j.fields[FieldTypes[i].0], FieldTypes[i].1)
                  && (forall k :: 0 <= k < i ==> FieldTypes[k].0 in j.fields && IsInstance(j.fields[FieldTypes[k].0], FieldTypes[k].1)) ==>
        RequestFromData(j) == Failure(Invalid("Bad \"" + FieldTypes[i].0 + "\" value"))
  {
    if j.JObject? {
      var obj := j.fields;
      NoneMissingIsComplete(obj);
      assert "Version must be " + Version == "Version must be 1.0";
      if Complete(obj) {
        NoneIllTypedIsWellTyped(obj);
      }
    }
  }

  /** Every request survives `data` followed by `from_data` unchanged. */
  lemma RequestRoundTrip(r: Request)
    ensures RequestFromData(RequestData(r)) == Success(r)
  {
    var obj := RequestData(r).fields;
    NoneMissingIsComplete(obj);
    NoneIllTypedIsWellTyped(obj);
  }

  /** Decode failures `from_json` converts; any other exception from `loads` propagates. */
  predicate DecodeCaught(e: Exception)
  {
    e.cls == "TypeError" || e.cls == "JSONDecodeError"
  }

  /** `JarpcRequest.from_json`: a decode failure is a ParseError, then `from_data` decides. */
  function RequestFromJson(body: Decoded): (r: Result<Request, Thrown>)
    ensures body.Unparsable? && DecodeCaught(body.exc) ==> r == Failure(Jarpc(NewError(ParseError, Caught(body.exc))))
    ensures body.Unparsable? && !DecodeCaught(body.exc) ==> r == Failure(Native(body.exc))
    ensures body.Parsed? && r.Success? ==> body.value.JObject? && RequestData(r.value).fields.Keys <= body.value.fields.Keys
    ensures body.Parsed? ==> (r.Success? <==> RequestFromData(body.value).Success?)
    ensures body.Parsed? && r.Success? ==> r.value == RequestFromData(body.value).value
    ensures body.Parsed? && r.Failure? ==> r.error == Jarpc(RequestFromData(body.value).error)
  {
    match body
    case Unparsable(x) =>
      if DecodeCaught(x) then Failure(Jarpc(NewError(ParseError, Caught(x)))) else Failure(Native(x))
    case Parsed(j) =>
      RequestAcceptance(j);
      match RequestFromData(j)
      case Success(req) => Success(req)
      case Failure(e) => Failure(Jarpc(e))
  }

  /** `JarpcRequest.from_json`. */
  method FromJson(body: Decoded) returns (r: Result<Request, Thrown>)
    ensures r == RequestFromJson(body)
  {
    match body
    case Unparsable(x) =>
      if DecodeCaught(x) {
        r := Failure(Jarpc(NewError(ParseError, Caught(x))));
      } else {
        r := Failure(Native(x));
      }
    case Parsed(j) =>
      var v := FromData(j);
      match v
      case Success(req) => r := Success(req);
      case Failure(e) => r := Failure(Jarpc(e));
  }

  /** A response; `error == JNull` means success. `requestId` is None when the request could not be read. */
  datatype Response = Response(requestId: Option<string>, result: Json, error: Json, id: string)

  /** `success`. */
  predicate IsSuccess(r: Response)
  {
    r.error == JNull
  }

  function OptionalString(o: Option<string>): Json
  {
    match o
    case None => JNull
    case Some(s) => JString(s)
  }

  /** `data`: {result, request_id, id} on success, {error, request_id, id} otherwise, never both. */
  function ResponseData(r: Response): (j: Json)
    ensures j.JObject?
    ensures j.fields.Keys == {"request_id", "id"} + (if IsSuccess(r) then {"result"} else {"error"})
    ensures !("result" in j.fields && "error" in j.fields)
    ensures IsSuccess(r) ==> j.fields["result"] == r.result
    ensures !IsSuccess(r) ==> j.fields["error"] == r.error
    ensures j.fields["request_id"] == OptionalString(r.requestId) && j.fields["id"] == JString(r.id)
  {
    if IsSuccess(r) then
      JObject(map["result" := r.result, "request_id" := OptionalString(r.requestId), "id" := JString(r.id)])
    else
      JObject(map["error" := r.error, "request_id" := OptionalString(r.requestId), "id" := JString(r.id)])
  }

  const InvalidResponse: RpcError := Known(ServerError, JString("Invalid response"))

  /**
   * `JarpcResponse.from_data`. The key test at format.py:151 is a chained
   * comparison that rejects only when both `result` and `error` are present;
   * an object with neither is accepted as a success with result None.
   */
  function ResponseFromData(j: Json): (r: Result<Response, RpcError>)
    ensures r.Failure? ==> r.error == InvalidResponse
    ensures r.Failure? <==>
      || !j.JObject?
      || ("result" in j.fields && "error" in j.fields)
      || "id" !in j.fields || !j.fields["id"].JString?
      || "request_id" !in j.fields || !j.fields["request_id"].JString?
    ensures r.Success? ==> r.value == Response(
      Some(j.fields["request_id"].s), Get(j.fields, "result"), Get(j.fields, "error"), j.fields["id"].s)
  {
    if !j.JObject? then Failure(InvalidResponse)
    else
      var d := j.fields;
      if "result" in d && "error" in d then Failure(InvalidResponse)
      else if "id" !in d || !d["id"].JString? then Failure(InvalidResponse)
      else if "request_id" !in d || !d["request_id"].JString? then Failure(InvalidResponse)
      else Success(Response(Some(d["request_id"].s), Get(d, "result"), Get(d, "error"), d["id"].s))
  }

  /** A response with a request id and no result beside an error survives `data` then `from_data`. */
  lemma ResponseRoundTrip(r: Response)
    requires r.requestId.Some?
    requires !IsSuccess(r) ==> r.result == JNull
    ensures ResponseFromData(ResponseData(r)) == Success(r)
  {
  }

  /** A result envelope, or an error envelope with a non-null error, survives `from_data` then `data`. */
  lemma EnvelopeRoundTrip(payload: Json, requestId: string, id: string, isError: bool)
    requires isError ==> payload != JNull
    ensures var j := JObject(map[(if isError then "error" else "result") := payload,
                                 "request_id" := JString(requestId), "id" := JString(id)]);
            ResponseFromData(j).Success? && ResponseData(ResponseFromData(j).value) == j
  {
    var key := if isError then "error" else "result";
    var j := JObject(map[key := payload, "request_id" := JString(requestId), "id" := JString(id)]);
    var d := ResponseData(ResponseFromData(j).value);
    assert d.fields.Keys == j.fields.Keys;
  }

  /** The quirk of format.py:151: a mapping with neither key reads as a success whose result is None. */
  lemma NeitherKeyIsSuccess(requestId: string, id: string)
    ensures var r := ResponseFromData(JObject(map["request_id" := JString(requestId), "id" := JString(id)]));
            r.Success? && IsSuccess(r.value) && r.value.result == JNull
  {
  }

  /** `JarpcResponse.from_json`: a decode failure is a ServerError here, not a ParseError. */
  function ResponseFromJson(body: Decoded): (r: Result<Response, Thrown>)
    ensures body.Unparsable? && DecodeCaught(body.exc) ==> r == Failure(Jarpc(NewError(ServerError, Caught(body.exc))))
    ensures body.Unparsable? && !DecodeCaught(body.exc) ==> r == Failure(Native(body.exc))
    ensures body.Parsed? && r.Failure? ==> r.error == Jarpc(InvalidResponse)
    ensures body.Parsed? ==> (r.Success? <==> ResponseFromData(body.value).Success?)
    ensures body.Parsed? && r.Success? ==> r.value == ResponseFromData(body.value).value
  {
    match body
    case Unparsable(x) =>
      if DecodeCaught(x) then Failure(Jarpc(NewError(ServerError, Caught(x)))) else Failure(Native(x))
    case Parsed(j) =>
      match ResponseFromData(j)
      case Success(resp) => Success(resp)
      case Failure(e) => Failure(Jarpc(e))
  }
}
