/**
 * jarpc/dispatcher.py: the mutable name-to-method table a manager consults.
 */
module Dispatch {
  import opened Wrappers
  import opened Json
  import opened Errors
  import opened Invocation
  import Text

  /** What the constructor was handed: nothing, a dictionary of methods, or a value of another type. */
  datatype MethodMapArg = NoMap | MapArg(entries: map<string, Method>) | NotAMap(typeName: string)

  /** The error a failed lookup raises: the KeyError, described, inside a MethodNotFound error. */
  function NotFound(name: string): (e: RpcError)
    ensures e.Known? && e.kind == MethodNotFound
    ensures e.data == JString("KeyError: " + Text.Repr(name))
  {
    NewError(MethodNotFound, Caught(Exception("KeyError", Text.Repr(name))))
  }

  /** For a name of plain characters the error's dictionary quotes the name as written. */
  lemma NotFoundAsDict(name: string)
    requires forall i :: 0 <= i < |name| ==> Text.Plain(name[i])
    ensures AsDict(NotFound(name)) == JObject(map[
      "code" := JInt(-32601),
      "message" := JString("Method not found"),
      "data" := JString("KeyError: '" + name + "'")])
  {
    Text.ReprOfPlain(name);
    assert "KeyError: " + ("'" + name + "'") == "KeyError: '" + name + "'";
  }

  class Dispatcher {
    /** The registered methods by the name they are called under. */
    var methodMap: map<string, Method>

    constructor(entries: map<string, Method>)
      ensures methodMap == entries
    {
      methodMap := entries;
    }

    /** The constructor's type check: nothing or a dictionary is accepted, anything else is a bare TypeError. */
    static method Create(arg: MethodMapArg) returns (r: Result<Dispatcher, Exception>)
      ensures r.Failure? <==> arg.NotAMap?
      ensures r.Failure? ==> r.error == Exception("TypeError", "")
      ensures r.Success? ==> fresh(r.value) && r.value.methodMap == (if arg.MapArg? then arg.entries else map[])
    {
      match arg {
        case NoMap =>
          var d := new Dispatcher(map[]);
          r := Success(d);
        case MapArg(entries) =>
          var d := new Dispatcher(entries);
          r := Success(d);
        case NotAMap(_) =>
          r := Failure(Exception("TypeError", ""));
      }
    }

    /** `__getitem__`: the registered method, or MethodNotFound carrying the KeyError. */
    function Lookup(name: string): (r: Result<Method, RpcError>)
      reads this
      ensures r.Success? <==> name in methodMap
      ensures r.Success? ==> r.value == methodMap[name]
      ensures r.Failure? ==> r.error == NotFound(name)
    {
      if name in methodMap then Success(methodMap[name]) else Failure(NotFound(name))
    }

    /** The `rpc_method` decorator: registers `f` under its own name and hands it back unchanged. */
    method RpcMethod(f: Method) returns (g: Method)
      modifies this
      ensures g == f
      ensures methodMap == old(methodMap)[f.name := f]
    {
      methodMap := methodMap[f.name := f];
      g := f;
    }

    /** `add_rpc_method`: registers `f` under `name or f.__name__`, so an empty name counts as none. */
    method AddRpcMethod(f: Method, name: Option<string>)
      modifies this
      ensures name.Some? && name.value != "" ==> methodMap == old(methodMap)[name.value := f]
      ensures name.None? || name.value == "" ==> methodMap == old(methodMap)[f.name := f]
    {
      var key := if name.Some? && name.value != "" then name.value else f.name;
      methodMap := methodMap[key := f];
    }

    /** `update`: adds the other table's methods, the other table winning on a clash; the other table is left as it was. */
    method Update(other: Dispatcher)
      modifies this
      ensures methodMap.Keys == old(methodMap).Keys + old(other.methodMap).Keys
      ensures forall n :: n in old(other.methodMap) ==> methodMap[n] == old(other.methodMap)[n]
      ensures forall n :: n in old(methodMap) && n !in old(other.methodMap) ==> methodMap[n] == old(methodMap)[n]
      ensures other.methodMap == old(other.methodMap)
    {
      methodMap := methodMap + other.methodMap;
    }
  }
}
