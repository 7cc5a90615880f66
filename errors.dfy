/**
 * The error taxonomy of jarpc/errors.py: a fixed table of kinds, each with a
 * code (the negative ones modelled after section 5.1 of the JSON-RPC 2.0 specification)
 * and a default message; the registry built from that table; `as_dict`; and
 * `raise_exception`, which rebuilds an error from what came over the wire.
 */
module Errors {
  import opened Wrappers
  import opened Json
  import Text

  /** The concrete kinds; the base class and the unknown kind are not kinds. */
  datatype Kind =
    | ParseError
    | InvalidRequest
    | MethodNotFound
    | InvalidParams
    | InternalError
    | Timeout
    | ServerError
    | Unauthorized
    | Forbidden
    | ValidationError
    | ExternalServiceUnavailable

  function Code(k: Kind): int
  {
    match k
    case ParseError => -32700
    case InvalidRequest => -32600
    case MethodNotFound => -32601
    case InvalidParams => -32602
    case InternalError => -32603
    case Timeout => -32604
    case ServerError => -32000
    case Unauthorized => 1000
    case Forbidden => 1001
    case ValidationError => 2000
    case ExternalServiceUnavailable => 3000
  }

  function Message(k: Kind): string
  {
    match k
    case ParseError => "Parse error"
    case InvalidRequest => "Invalid Request"
    case MethodNotFound => "Method not found"
    case InvalidParams => "Invalid params"
    case InternalError => "Internal error"
    case Timeout => "Timeout"
    case ServerError => "Server error"
    case Unauthorized => "Unauthorized"
    case Forbidden => "Forbidden"
    case ValidationError => "Validation error"
    case ExternalServiceUnavailable => "External service unavailable"
  }

  /** No two kinds share a code, so the registry cannot lose a kind to an overwrite. */
  lemma CodesDistinct()
    ensures forall k1, k2 :: Code(k1) == Code(k2) ==> k1 == k2
  {
  }

  /**
   * An error instance. A kind from the table carries its own code and
   * message; `Unknown` carries whatever code and message it was built with
   * (an instance of the bare base class is `Unknown(JNull, JNull, data)`).
   */
  datatype RpcError =
    | Known(kind: Kind, data: Json)
    | Unknown(code: Json, message: Json, data: Json)

  /** What a constructor was given as `data`: a plain value or a native exception. */
  datatype Payload = Plain(value: Json) | Caught(exc: Exception)

  /** `JarpcError.__init__`: an exception is stored as "Class: text", anything else unchanged. */
  function NewError(k: Kind, p: Payload): (e: RpcError)
    ensures e.Known? && e.kind == k
    ensures p.Plain? ==> e.data == p.value
    ensures p.Caught? ==> e.data == JString(p.exc.cls + ": " + p.exc.text)
  {
    match p
    case Plain(v) => Known(k, v)
    case Caught(x) => Known(k, JString(Describe(x)))
  }

  function CodeOf(e: RpcError): Json
  {
    match e
    case Known(k, _) => JInt(Code(k))
    case Unknown(c, _, _) => c
  }

  function MessageOf(e: RpcError): Json
  {
    match e
    case Known(k, _) => JString(Message(k))
    case Unknown(_, m, _) => m
  }

  /** `as_dict`: exactly the keys code, message and data. */
  function AsDict(e: RpcError): (d: Json)
    ensures d.JObject? && d.fields.Keys == {"code", "message", "data"}
    ensures d.fields["data"] == e.data
    ensures e.Known? ==> d.fields["code"] == JInt(Code(e.kind)) && d.fields["message"] == JString(Message(e.kind))
    ensures e.Unknown? ==> d.fields["code"] == e.code && d.fields["message"] == e.message
  {
    JObject(map["code" := CodeOf(e), "message" := MessageOf(e), "data" := e.data])
  }

  /** The kinds as reflection lists them: by class name, so alphabetically. */
  const Declared: seq<Kind> := [
    ExternalServiceUnavailable, Forbidden, InternalError, InvalidParams, InvalidRequest,
    MethodNotFound, ParseError, ServerError, Timeout, Unauthorized, ValidationError
  ]

  /** A dict comprehension over the kinds: a later kind overwrites an earlier one with the same code. */
  function BuildRegistry(ks: seq<Kind>): map<int, Kind>
  {
    if ks == [] then map[]
    else BuildRegistry(ks[..|ks| - 1])[Code(ks[|ks| - 1]) := ks[|ks| - 1]]
  }

  /** When the codes of the listed kinds are distinct, each code maps back to its own kind. */
  lemma {:induction false} RegistryOfDistinct(ks: seq<Kind>)
    requires forall i, j :: 0 <= i < j < |ks| ==> Code(ks[i]) != Code(ks[j])
    ensures BuildRegistry(ks).Keys == set k | k in ks :: Code(k)
    ensures forall i :: 0 <= i < |ks| ==> BuildRegistry(ks)[Code(ks[i])] == ks[i]
  {
    if ks != [] {
      var init := ks[..|ks| - 1];
      RegistryOfDistinct(init);
      assert forall k :: k in ks <==> k in init || k == ks[|ks| - 1];
      forall i | 0 <= i < |ks|
        ensures BuildRegistry(ks)[Code(ks[i])] == ks[i]
      {
        if i < |ks| - 1 {
          assert init[i] == ks[i];
        }
      }
    }
  }

  /** The reflected list holds every concrete kind. */
  lemma EveryKindDeclared()
    ensures forall k: Kind :: k in Declared
  {
    forall k: Kind
      ensures k in Declared
    {
      match k
      case ExternalServiceUnavailable => assert Declared[0] == k;
      case Forbidden => assert Declared[1] == k;
      case InternalError => assert Declared[2] == k;
      case InvalidParams => assert Declared[3] == k;
      case InvalidRequest => assert Declared[4] == k;
      case MethodNotFound => assert Declared[5] == k;
      case ParseError => assert Declared[6] == k;
      case ServerError => assert Declared[7] == k;
      case Timeout => assert Declared[8] == k;
      case Unauthorized => assert Declared[9] == k;
      case ValidationError => assert Declared[10] == k;
    }
  }

  /** `_exception_codes`. */
  function Registry(): (r: map<int, Kind>)
    ensures r.Keys == set k: Kind :: Code(k)
    ensures forall k :: r[Code(k)] == k
  {
    RegistryOfDistinct(Declared);
    EveryKindDeclared();
    forall k: Kind ensures BuildRegistry(Declared)[Code(k)] == k {
      assert k in Declared;
      var i :| 0 <= i < |Declared| && Declared[i] == k;
    }
    BuildRegistry(Declared)
  }

  /** What a `raise` inside the core signals: a taxonomy error or a native exception. */
  datatype Thrown = Jarpc(err: RpcError) | Native(exc: Exception)

  /** The dictionary key a decoded code hashes and compares as: Python treats 1000.0 and True like ints. */
  function HashKey(code: Json): Option<int>
  {
    match code
    case JInt(i) => Some(i)
    case JFloat(f) => if f.Floor as real == f then Some(f.Floor) else None
    case JBool(b) => Some(if b then 1 else 0)
    case _ => None
  }

  /**
   * `raise_exception(code, data, message)`: the registered kind for the code,
   * carrying `data` and its own default message; otherwise the unknown kind
   * carrying all three verbatim. A list or dict code cannot be looked up at
   * all: Python raises TypeError.
   */
  function RaiseException(code: Json, data: Json, message: Json): (t: Thrown)
    ensures code.JArray? || code.JObject? <==> t.Native?
    ensures t.Jarpc? && t.err.Known? ==> t.err.data == data && HashKey(code) == Some(Code(t.err.kind))
    ensures t.Jarpc? && t.err.Unknown? ==> t.err == Unknown(code, message, data)
    ensures forall k :: HashKey(code) == Some(Code(k)) ==> t == Jarpc(Known(k, data))
    ensures !code.JArray? && !code.JObject? && (forall k :: HashKey(code) != Some(Code(k))) ==> t == Jarpc(Unknown(code, message, data))
  {
    if code.JArray? then Native(Exception("TypeError", "unhashable type: 'list'"))
    else if code.JObject? then Native(Exception("TypeError", "unhashable type: 'dict'"))
    else
      var key := HashKey(code);
      if key.Some? && key.value in Registry() then Jarpc(Known(Registry()[key.value], data))
      else Jarpc(Unknown(code, message, data))
  }

  /**
   * A registered code rebuilds its own kind with the caller's data; the
   * caller's message is dropped. The code may also arrive as the equal
   * float: Python's dictionary lookup treats -32602.0 like -32602.
   */
  lemma RaiseRegistered(k: Kind, code: Json, data: Json, message: Json)
    requires HashKey(code) == Some(Code(k))
    ensures RaiseException(code, data, message) == Jarpc(Known(k, data))
    ensures RaiseException(JInt(Code(k)), data, message) == RaiseException(JFloat(Code(k) as real), data, message)
  {
    assert (Code(k) as real).Floor == Code(k);
  }

  /** An integer code outside the table yields the unknown kind with code, message and data verbatim. */
  lemma RaiseUnregistered(c: int, data: Json, message: Json)
    requires forall k :: Code(k) != c
    ensures RaiseException(JInt(c), data, message) == Jarpc(Unknown(JInt(c), message, data))
  {
  }

  /**
   * Serialising an error with `as_dict` and raising from its fields gives the
   * error back, for every taxonomy error and every unknown one whose code is
   * neither registered nor unhashable.
   */
  lemma AsDictRoundTrip(e: RpcError)
    requires e.Unknown? ==> !e.code.JArray? && !e.code.JObject?
    requires e.Unknown? ==> forall k :: HashKey(e.code) != Some(Code(k))
    ensures var d := AsDict(e).fields; RaiseException(d["code"], d["data"], d["message"]) == Jarpc(e)
  {
  }
}
