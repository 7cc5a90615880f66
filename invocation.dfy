/**
 * The signature side of jarpc/manager.py: `get_args_representation`,
 * `check_function_call`, and `_call_method` with the injection of the
 * request and of context values. Reflection is replaced by an explicit
 * descriptor of the callable, and running a user method by an outcome.
 */
module Invocation {
  import opened Wrappers
  import opened Json
  import opened Errors
  import opened Format
  import Text

  /** The reserved parameter through which a method receives its own request. */
  const RequestParam: string := "jarpc_request"

  /**
   * What reflection reports about a callable: its positional parameter names,
   * whether it is bound (its first positional parameter is already supplied,
   * as for a method of an instance or a callable object), how many of the
   * trailing positional parameters have defaults, its keyword-only names,
   * those of them that have defaults, whether it has a `**kw` sink, and the
   * names of its `*args` and `**kw` parameters.
   */
  datatype Signature = Signature(
    positional: seq<string>,
    bound: bool,
    defaults: nat,
    kwOnly: seq<string>,
    kwOnlyDefaults: set<string>,
    varKw: bool,
    sinks: set<string>)

  /**
   * What Python guarantees of a signature it reports: distinct names, no more
   * defaults than parameters, and at most the two sinks, `**kw` among them
   * exactly when it is present.
   */
  ghost predicate WellFormed(sig: Signature)
  {
    && sig.defaults <= |sig.positional|
    && (forall i, j :: 0 <= i < j < |sig.positional| ==> sig.positional[i] != sig.positional[j])
    && (forall i, j :: 0 <= i < |sig.positional| && 0 <= j < |sig.kwOnly| ==> sig.positional[i] != sig.kwOnly[j])
    && (forall n :: n in sig.kwOnlyDefaults ==> n in sig.kwOnly)
    && (forall i :: 0 <= i < |sig.positional| ==> sig.positional[i] !in sig.sinks)
    && (forall j :: 0 <= j < |sig.kwOnly| ==> sig.kwOnly[j] !in sig.sinks)
    && (sig.varKw ==> sig.sinks != {})
    && (forall x, y, z :: x in sig.sinks && y in sig.sinks && z in sig.sinks ==> x == y || y == z || x == z)
    && (!sig.varKw ==> forall x, y :: x in sig.sinks && y in sig.sinks ==> x == y)
  }

  /** How many leading positional parameters Python fills before the keywords: the bound one. */
  function Skip(sig: Signature): nat
  {
    if sig.bound && |sig.positional| > 0 then 1 else 0
  }

  /** The names a keyword call may bind to a parameter of their own: the positional ones after the bound one, and the keyword-only ones. */
  function Accepted(sig: Signature): set<string>
  {
    (set n | n in sig.positional[Skip(sig)..]) + (set n | n in sig.kwOnly)
  }

  /** What `inspect.signature(f).parameters` lists: the bindable names and the sinks' own names. */
  function Listed(sig: Signature): set<string>
  {
    Accepted(sig) + sig.sinks
  }

  /** The bound first parameter: supplying it again is an error. */
  function BoundSelf(sig: Signature): set<string>
  {
    if Skip(sig) == 1 then {sig.positional[0]} else {}
  }

  /** The parameters a call must supply: those without a default. */
  function Required(sig: Signature): set<string>
  {
    var end := if sig.defaults <= |sig.positional| - Skip(sig) then |sig.positional| - sig.defaults else Skip(sig);
    (set n | n in sig.positional[Skip(sig)..end]) + (set n | n in sig.kwOnly && n !in sig.kwOnlyDefaults)
  }

  /** Python's binding of a call made with keyword arguments only. */
  predicate Binds(sig: Signature, names: set<string>)
  {
    && names !! BoundSelf(sig)
    && Required(sig) <= names
    && (sig.varKw || names <= Accepted(sig))
  }

  /** The verdict of `check_function_call`, before it is turned into text. */
  datatype Verdict =
    | Fine
    | MissingArgs(missing: set<string>)
    | UnexpectedArgs(unexpected: set<string>)
    | UnavailableArgs(unavailable: set<string>)

  /** `popleft`/`pop` on an exhausted deque. */
  const EmptyDeque: Exception := Exception("IndexError", "pop from an empty deque")

  /**
   * The set algebra of `check_function_call`, once the positional names
   * have been split into those the call may give and those it must give.
   */
  function Classify(allowedArgs: set<string>, requiredArgs: set<string>, sig: Signature,
                    kwargs: set<string>, context: set<string>): Verdict
  {
    var kwOnly := set n | n in sig.kwOnly;
    var required := (requiredArgs + kwOnly) - sig.kwOnlyDefaults - context - {RequestParam};
    if required - kwargs != {} then MissingArgs(required - kwargs)
    else if !sig.varKw then
      var allowed := (allowedArgs + kwOnly) - context - {RequestParam};
      if kwargs - allowed != {} then UnexpectedArgs(kwargs - allowed) else Fine
    else
      var restricted := kwargs * (context + {RequestParam});
      if restricted != {} then UnavailableArgs(restricted) else Fine
  }

  /**
   * `check_function_call` on the supplied parameter names and the context
   * names. The deque of positional names runs dry, raising IndexError, when
   * the method is bound and its defaults reach its first parameter.
   */
  function CheckCall(sig: Signature, kwargs: set<string>, context: set<string>): Result<Verdict, Exception>
  {
    var start := if sig.bound then 1 else 0;
    if sig.defaults + start > |sig.positional| then Failure(EmptyDeque)
    else
      var withDefaults := sig.positional[start..];
      var withoutDefaults := sig.positional[start..|sig.positional| - sig.defaults];
      var allowedArgs := set n | n in withDefaults;
      var requiredArgs := set n | n in withoutDefaults;
      Success(Classify(allowedArgs, requiredArgs, sig, kwargs, context))
  }

  /** `get_args_representation`: the names sorted and joined with ", ". */
  function ArgsRepresentation(names: set<string>): string
  {
    Text.Join(Text.Sorted(names), ", ")
  }

  /** The docstring's example: {'c', 'a', 'b'} is written "a, b, c". */
  lemma ArgsRepresentationExample()
    ensures ArgsRepresentation({"c", "a", "b"}) == "a, b, c"
  {
    var s: seq<string> := ["a", "b", "c"];
    assert Text.Below("a", "b") && Text.Below("b", "c") && Text.Below("a", "c");
    assert Text.StrictlyAscending(s);
    Text.SortedIsUnique({"c", "a", "b"}, s);
  }

  /** The pair `(is_ok, explanation)` a verdict is reported as. */
  function Report(v: Verdict): (r: (bool, Option<string>))
    ensures r.0 <==> v == Fine
    ensures r.1.None? <==> r.0
  {
    match v
    case Fine => (true, None)
    case MissingArgs(n) => (false, Some("Missing arguments: " + ArgsRepresentation(n)))
    case UnexpectedArgs(n) => (false, Some("Unexpected arguments: " + ArgsRepresentation(n)))
    case UnavailableArgs(n) => (false, Some("Unavailable arguments: " + ArgsRepresentation(n)))
  }

  /**
   * The explanations `check_function_call` returns, with the names sorted and
   * joined: the missing ones, else (without a sink) the undeclared ones, else
   * (with a sink) the reserved ones; none when the call is fine.
   */
  lemma Explanations(sig: Signature, kwargs: set<string>, context: set<string>)
    requires WellFormed(sig)
    requires CheckCall(sig, kwargs, context).Success?
    ensures var r := Report(CheckCall(sig, kwargs, context).value);
      var missing := Required(sig) - context - {RequestParam} - kwargs;
      var unexpected := kwargs - (Accepted(sig) - context - {RequestParam});
      var unavailable := kwargs * (context + {RequestParam});
      && (missing != {} ==> r == (false, Some("Missing arguments: " + Text.Join(Text.Sorted(missing), ", "))))
      && (missing == {} && !sig.varKw && unexpected != {} ==>
            r == (false, Some("Unexpected arguments: " + Text.Join(Text.Sorted(unexpected), ", "))))
      && (missing == {} && sig.varKw && unavailable != {} ==>
            r == (false, Some("Unavailable arguments: " + Text.Join(Text.Sorted(unavailable), ", "))))
      && (missing == {} && (if sig.varKw then unavailable == {} else unexpected == {}) ==> r == (true, None))
  {
    CheckVerdicts(sig, kwargs, context);
  }

  /** `check_function_call`, step by step on a deque of the positional names. */
  method CheckFunctionCall(sig: Signature, kwargs: set<string>, context: set<string>)
    returns (r: Result<(bool, Option<string>), Exception>)
    ensures CheckCall(sig, kwargs, context).Failure? ==> r == Failure(EmptyDeque)
    ensures CheckCall(sig, kwargs, context).Success? ==> r == Success(Report(CheckCall(sig, kwargs, context).value))
  {
    var start := if sig.bound then 1 else 0;
    var deque := sig.positional;
    if sig.bound {
      if |deque| == 0 {
        return Failure(EmptyDeque);
      }
      deque := deque[1..];
    }
    var allowedArgs := set n | n in deque;
    ghost var withDefaults := deque;
    assert withDefaults == sig.positional[start..];
    var popped := 0;
    while popped < sig.defaults
      invariant popped <= sig.defaults
      invariant start + popped <= |sig.positional|
      invariant deque == sig.positional[start..|sig.positional| - popped]
    {
      if |deque| == 0 {
        return Failure(EmptyDeque);
      }
      deque := deque[..|deque| - 1];
      popped := popped + 1;
    }
    var requiredArgs := set n | n in deque;
    assert CheckCall(sig, kwargs, context) == Success(Classify(allowedArgs, requiredArgs, sig, kwargs, context));
    r := Success(Report(Classify(allowedArgs, requiredArgs, sig, kwargs, context)));
  }

  /** The names `_call_method` adds: the reserved name and the context names the signature lists, sinks included. */
  function InjectedNames(sig: Signature, context: set<string>): set<string>
  {
    Listed(sig) * (context + {RequestParam})
  }

  /**
   * The checker's sets are the binding's sets once the context names and the
   * reserved name are taken out: missing names come first, then (without a
   * sink) undeclared ones, then (with a sink) reserved ones, and the call is
   * fine exactly when none of these exists.
   */
  lemma CheckVerdicts(sig: Signature, kwargs: set<string>, context: set<string>)
    requires WellFormed(sig)
    requires CheckCall(sig, kwargs, context).Success?
    ensures var v := CheckCall(sig, kwargs, context).value;
      var missing := Required(sig) - context - {RequestParam} - kwargs;
      var unexpected := kwargs - (Accepted(sig) - context - {RequestParam});
      var unavailable := kwargs * (context + {RequestParam});
      && (missing != {} ==> v == MissingArgs(missing))
      && (missing == {} && !sig.varKw && unexpected != {} ==> v == UnexpectedArgs(unexpected))
      && (missing == {} && sig.varKw && unavailable != {} ==> v == UnavailableArgs(unavailable))
      && (v == Fine <==> missing == {} && (if sig.varKw then unavailable == {} else unexpected == {}))
  {
    assert Skip(sig) == (if sig.bound then 1 else 0);
    var withoutDefaults := sig.positional[Skip(sig)..|sig.positional| - sig.defaults];
    var positionalRequired := set n | n in withoutDefaults;
    var kwOnly := set n | n in sig.kwOnly;
    assert Required(sig) == positionalRequired + (kwOnly - sig.kwOnlyDefaults);
    assert positionalRequired !! sig.kwOnlyDefaults by {
      forall n | n in positionalRequired ensures n !in sig.kwOnlyDefaults {
        var i :| Skip(sig) <= i < |sig.positional| - sig.defaults && sig.positional[i] == n;
      }
    }
  }

  /**
   * What an accepted check guarantees about the merged call: the supplied and
   * injected names do not collide, every required parameter is present,
   * without a sink every supplied name is declared, and so Python binds the
   * call unless the parameters name the bound first parameter or, without a
   * `**kw` sink, a context entry is named like the `*args` sink.
   */
  lemma {:induction false} AcceptedCallBinds(sig: Signature, kwargs: set<string>, context: set<string>)
    requires WellFormed(sig)
    requires CheckCall(sig, kwargs, context) == Success(Fine)
    ensures kwargs !! InjectedNames(sig, context)
    ensures Required(sig) <= kwargs + InjectedNames(sig, context)
    ensures !sig.varKw ==> kwargs + (InjectedNames(sig, context) - sig.sinks) <= Accepted(sig)
    ensures Binds(sig, kwargs + InjectedNames(sig, context))
        <==> kwargs !! BoundSelf(sig) && (sig.varKw || InjectedNames(sig, context) !! sig.sinks)
  {
    CheckVerdicts(sig, kwargs, context);
    assert Required(sig) <= Accepted(sig);
    if Skip(sig) == 1 {
      var self := sig.positional[0];
      assert self !in Accepted(sig);
      assert self !in sig.sinks;
    }
    if !sig.varKw && !(InjectedNames(sig, context) !! sig.sinks) {
      var n :| n in InjectedNames(sig, context) && n in sig.sinks;
      assert n !in Accepted(sig);
    }
  }

  /**
   * Conversely, a call Python refuses is never reported fine, unless the fault
   * is the bound first parameter or a context entry named like the `*args` sink.
   */
  lemma RefusedCallIsReported(sig: Signature, kwargs: set<string>, context: set<string>)
    requires WellFormed(sig)
    requires CheckCall(sig, kwargs, context).Success?
    requires kwargs !! BoundSelf(sig)
    requires sig.varKw || InjectedNames(sig, context) !! sig.sinks
    requires !(kwargs !! InjectedNames(sig, context)) || !Binds(sig, kwargs + InjectedNames(sig, context))
    ensures CheckCall(sig, kwargs, context).value != Fine
  {
    if CheckCall(sig, kwargs, context).value == Fine {
      AcceptedCallBinds(sig, kwargs, context);
      assert false;
    }
  }

  /**
   * A supplied name that `_call_method` also injects is never fine: it is
   * unexpected without a `**kw` sink and unavailable with one, unless missing
   * names are reported first.
   */
  lemma ClashVerdict(sig: Signature, kwargs: set<string>, context: set<string>, n: string)
    requires WellFormed(sig)
    requires CheckCall(sig, kwargs, context).Success?
    requires n in kwargs && n in InjectedNames(sig, context)
    ensures var v := CheckCall(sig, kwargs, context).value;
      && (v.UnexpectedArgs? ==> !sig.varKw && n in v.unexpected)
      && (v.UnavailableArgs? ==> sig.varKw && n in v.unavailable)
      && (v.MissingArgs? || v.UnexpectedArgs? || v.UnavailableArgs?)
  {
    CheckVerdicts(sig, kwargs, context);
  }

  /** A check that reports missing or unexpected names describes a call Python refuses. */
  lemma RejectedCallFails(sig: Signature, kwargs: set<string>, context: set<string>)
    requires WellFormed(sig)
    requires CheckCall(sig, kwargs, context).Success?
    requires CheckCall(sig, kwargs, context).value.MissingArgs? || CheckCall(sig, kwargs, context).value.UnexpectedArgs?
    ensures !(kwargs !! InjectedNames(sig, context)) || !Binds(sig, kwargs + InjectedNames(sig, context))
  {
    CheckVerdicts(sig, kwargs, context);
    var v := CheckCall(sig, kwargs, context).value;
    if v.MissingArgs? {
      var n :| n in v.missing;
      assert n in Required(sig) && n !in kwargs + InjectedNames(sig, context);
    } else {
      var n :| n in v.unexpected;
      if n in InjectedNames(sig, context) {
        assert n in kwargs * InjectedNames(sig, context);
      } else {
        assert n !in Accepted(sig);
      }
    }
  }

  /** An unavailable name the method declares is one `_call_method` injects as well: the call collides. */
  lemma UnavailableDeclaredCollides(sig: Signature, kwargs: set<string>, context: set<string>, n: string)
    requires CheckCall(sig, kwargs, context).Success?
    requires CheckCall(sig, kwargs, context).value.UnavailableArgs?
    requires n in CheckCall(sig, kwargs, context).value.unavailable && n in Accepted(sig)
    ensures !(kwargs !! InjectedNames(sig, context))
  {
    assert n in kwargs * InjectedNames(sig, context);
  }

  /**
   * The one gap between the check and the call: a bound method with a `**kw`
   * sink, called with its own first parameter among the parameters, passes
   * the check although Python refuses the call.
   */
  lemma BoundSelfPassesCheckWithSink()
    ensures var sig := Signature(["self", "a"], true, 0, [], {}, true, {"kw"});
      && CheckCall(sig, {"self", "a"}, {}) == Success(Fine)
      && !Binds(sig, {"self", "a"} + InjectedNames(sig, {}))
  {
    var sig := Signature(["self", "a"], true, 0, [], {}, true, {"kw"});
    assert sig.positional[1..] == ["a"];
    assert "self" in BoundSelf(sig);
  }

  /**
   * `_call_method` injects a context entry named like a sink, since
   * `inspect.signature` lists the sinks: for `f(a, *args)` with a context
   * entry `args` the check passes but Python refuses the call, while for
   * `f(a, **kw)` with a context entry `kw` the value lands in the `**kw` dictionary.
   */
  lemma SinkNamedInContext()
    ensures var sig := Signature(["a"], false, 0, [], {}, false, {"args"});
      && CheckCall(sig, {"a"}, {"args"}) == Success(Fine)
      && InjectedNames(sig, {"args"}) == {"args"}
      && !Binds(sig, {"a"} + InjectedNames(sig, {"args"}))
    ensures var sig := Signature(["a"], false, 0, [], {}, true, {"kw"});
      && CheckCall(sig, {"a"}, {"kw"}) == Success(Fine)
      && InjectedNames(sig, {"kw"}) == {"kw"}
      && Binds(sig, {"a"} + InjectedNames(sig, {"kw"}))
  {
    var sig := Signature(["a"], false, 0, [], {}, false, {"args"});
    assert sig.positional[0..] == ["a"];
    assert Accepted(sig) == {"a"};
    assert "args" !in Accepted(sig);
    var withSink := Signature(["a"], false, 0, [], {}, true, {"kw"});
    assert withSink.positional[0..] == ["a"];
    assert Accepted(withSink) == {"a"};
  }

  /** A value a method receives: a decoded or context value, or the request itself. */
  datatype Arg = Value(v: Json) | RequestObject(request: Request)

  /**
   * How running a user method ended. A TypeError the body raises is meant to
   * be `RaisedTypeError`; one carried by `RaisedOther` is still handled as a
   * TypeError, since the manager catches by class.
   */
  datatype Outcome =
    | Returned(v: Json)
    | RaisedTaxonomy(e: RpcError)
    | RaisedTypeError(msg: string)
    | RaisedOther(exc: Exception)

  /** A registered method: its `__name__`, its signature, and what its body does with the arguments it is bound to. */
  datatype Method = Method(name: string, sig: Signature, body: map<string, Arg> -> Outcome)

  /** `_call_method`'s extra arguments: the request under the reserved name, then each listed context entry (which wins a clash). */
  function Injected(sig: Signature, request: Request, context: map<string, Json>): (m: map<string, Arg>)
    ensures m.Keys == InjectedNames(sig, context.Keys)
    ensures forall n :: n in m && n in context ==> m[n] == Value(context[n])
    ensures forall n :: n in m && n !in context ==> m[n] == RequestObject(request)
  {
    var own: map<string, Arg> := if RequestParam in Listed(sig) then map[RequestParam := RequestObject(request)] else map[];
    own + (map n | n in context && n in Listed(sig) :: Value(context[n]))
  }

  /** `method(**params, **context_params)` as one keyword dictionary. */
  function Merge(params: map<string, Json>, injected: map<string, Arg>): map<string, Arg>
  {
    (map n | n in params :: Value(params[n])) + injected
  }

  /** The text Python's binding error carries; only the bound-parameter case can reach a response. */
  function BindingError(m: Method, names: set<string>): string
    requires !Binds(m.sig, names)
  {
    if names * BoundSelf(m.sig) != {} then
      m.name + "() got multiple values for argument " + Text.Repr(m.sig.positional[0])
    else if !m.sig.varKw && names - Accepted(m.sig) != {} then
      m.name + "() got an unexpected keyword argument " + Text.Repr(Text.Least(names - Accepted(m.sig)))
    else
      var missing :| missing in Required(m.sig) && missing !in names;
      assert missing in Required(m.sig) - names;
      m.name + "() missing required argument: " + Text.Repr(Text.Least(Required(m.sig) - names))
  }

  /** Calling a method with two keyword dictionaries: a repeated name or a failed binding is a TypeError, else the body runs. */
  function Invoke(m: Method, params: map<string, Json>, injected: map<string, Arg>): (o: Outcome)
    ensures params.Keys !! injected.Keys && Binds(m.sig, params.Keys + injected.Keys) ==> o == m.body(Merge(params, injected))
    ensures !(params.Keys !! injected.Keys) || !Binds(m.sig, params.Keys + injected.Keys) ==> o.RaisedTypeError?
  {
    if !(params.Keys !! injected.Keys) then
      var clash :| clash in params.Keys && clash in injected.Keys;
      assert clash in params.Keys * injected.Keys;
      RaisedTypeError(m.name + "() got multiple values for keyword argument " + Text.Repr(Text.Least(params.Keys * injected.Keys)))
    else if !Binds(m.sig, params.Keys + injected.Keys) then
      RaisedTypeError(BindingError(m, params.Keys + injected.Keys))
    else
      assert Merge(params, injected).Keys == params.Keys + injected.Keys;
      m.body(Merge(params, injected))
  }

  /** `_call_method`: gather the request and the declared context values, then call. */
  method CallMethod(m: Method, request: Request, context: map<string, Json>) returns (outcome: Outcome)
    ensures outcome == Invoke(m, request.params, Injected(m.sig, request, context))
  {
    var declared := Listed(m.sig);
    var contextParams: map<string, Arg> := map[];
    if RequestParam in declared {
      contextParams := contextParams[RequestParam := RequestObject(request)];
    }
    ghost var own := contextParams;
    var pending := context.Keys;
    while pending != {}
      invariant pending <= context.Keys
      invariant contextParams == own + (map n | n in context && n !in pending && n in declared :: Value(context[n]))
      decreases pending
    {
      var n :| n in pending;
      if n in declared {
        contextParams := contextParams[n := Value(context[n])];
      }
      pending := pending - {n};
    }
    assert contextParams == Injected(m.sig, request, context);
    outcome := Invoke(m, request.params, contextParams);
  }
}
