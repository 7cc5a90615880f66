# jarpc, modelled in Dafny

jarpc is a small RPC layer. A **request** is a JSON object with seven fields:

- `version`, always `"1.0"`;
- `method`;
- `params`, a dictionary of keyword arguments;
- `ts`, the issue time;
- `ttl`, an optional time to live;
- `id`;
- `rsvp`, whether an answer is wanted.

A **response** carries `request_id`, `id`, and either `result` or `error`. An error is the dictionary `{code, message, data}` of one of the kinds in the error taxonomy. The codes are modelled after the error codes in section 5.1 of the JSON-RPC 2.0 specification; codes 1000 to 3000 are jarpc's own.

This project models the synchronous core of jarpc:

- **Taxonomy** (`errors.dfy`, module `Errors`): the eleven concrete error kinds, their codes and messages, and `as_dict`. It also covers the registry from code to kind and `raise_exception`, which rebuilds an error from a code and falls back to an unknown kind.
- **Wire format** (`format.dfy`, module `Format`): the request and response as values. This covers the request validator `from_data` with its fixed check order and exact texts, `expired`, the `data` serialisers, and the response validator. Decoding is a parameter: a `Decoded` value is what the pluggable `loads` produced, either a JSON value or the exception it raised.
- **Signature checking and invocation** (`invocation.dfy`, module `Invocation`): `check_function_call`, `get_args_representation` and `_call_method`, covering the reserved `jarpc_request` parameter and context injection. Python's reflection is replaced by a `Signature` descriptor. Running a user method is replaced by a function from the bound keyword arguments to an `Outcome`. Python's keyword binding is modelled by `Binds`, so the checker can be proved sound against it.
- **Dispatcher** (`dispatch.dfy`, module `Dispatch`): a class whose `methodMap` field is updated in place by `rpc_method`, `add_rpc_method` and `update`. Lookup failure becomes MethodNotFound.
- **Manager** (`server.dfy`, module `Server`): `get_response` as a method proved equal to the specification function `ResponseFor`. Its steps are: decode, drop if expired, look up, call, classify the failure, drop if expired after a successful call, and answer only if `rsvp`. `handle` returns the wire object of the response.
- **Client** (`caller.dfy`, module `Caller`): the ttl defaults, `_prepare_request`, `__call__` with its translation of transport failures, `_parse_response`, and the attribute-style simple call. The transport is a function the client is built with.
- **Helpers**: `text.dfy` holds Python's ordering of str, `sorted`, `', '.join` and `repr` of a str. `json.dfy` holds the JSON value type, which keeps int, float and bool apart as Python's `isinstance` does. `wrappers.dfy` holds `Option` and `Result`.

The clock and uuid4 are parameters. `get_response` reads the clock twice, so it takes `nowBefore` and `nowAfter`. The client takes `now` and `freshId`.

Behaviours of the code worth noting, each stated by a member of the model:

- The data of a MethodNotFound error is `"KeyError: '<name>'"`, the repr of the KeyError the lookup raised (`Dispatch.NotFoundAsDict`).
- A parameter that shares a name with a context entry is rejected only when the signature lists that name, or when the call fails for another reason and the checker then sees the clash. A method with a `**kw` sink that does not declare the name simply receives the parameter (`Server.UnlistedContextNameReceived`); a clash with an injected name is answered with InvalidParams (`Server.InjectedNameClash`).
- `_call_method` tests names against `inspect.signature`, which lists the `*args` and `**kw` sinks too, while `check_function_call` does not see them. A context entry named like the `**kw` sink lands in the keyword dictionary. A context entry named like the `*args` sink of a method without `**kw` passes the check, but Python refuses the call, and the TypeError is answered as a ServerError (`Invocation.SinkNamedInContext`).
- A bound method with `**kw` that is given its own first parameter passes the check, but Python refuses the call (`Invocation.BoundSelfPassesCheckWithSink`).
- A response object with neither `result` nor `error` is accepted as a success whose result is None (`Format.NeitherKeyIsSuccess`).
- A registry collision is not detected at build time: the dict comprehension would overwrite. The static table has distinct codes (`Errors.CodesDistinct`).
- An error response with no `request_id` is what the manager sends for an unreadable body. The client refuses that response as invalid (`Caller.UnattributedAnswerRefused`).

## Model

| member | source | states |
|---|---|---|
| Json.Get | jarpc/format.py:157 | `dict.get`: the stored value when the key is present, None otherwise |
| Text.BelowIrreflexive | jarpc/manager.py:20 | no str is below itself under Python's `<` |
| Text.BelowTransitive | jarpc/manager.py:20 | Python's `<` on str is transitive |
| Text.BelowTotal | jarpc/manager.py:20 | any two distinct str are ordered one way or the other |
| Text.Sorted | jarpc/manager.py:20 | `sorted(names)` lists exactly the set's names, each once, in strictly ascending order |
| Text.SortedIsUnique | jarpc/manager.py:15-20 | any strictly ascending listing of a set is `sorted` of it, so the explanation depends on the set alone |
| Text.Repr | jarpc/dispatcher.py:16-17 | the repr a KeyError prints is quoted at both ends by the same quote character |
| Text.ReprOfPlain | jarpc/dispatcher.py:16-17 | for a name with no quote, backslash or control escape, the repr is the name in single quotes |
| Errors.CodesDistinct | jarpc/errors.py:35-120 | no two concrete kinds share a code |
| Errors.NewError | jarpc/errors.py:18-22 | an error built from a native exception carries `"Cls: text"` as data; any other data is kept unchanged |
| Errors.AsDict | jarpc/errors.py:27-32 | `as_dict` has exactly the keys code, message, data; a concrete kind gives its fixed code and message; an unknown error gives the ones it carries |
| Errors.RegistryOfDistinct | jarpc/errors.py:128 | the dict comprehension over kinds with distinct codes has exactly their codes as keys and maps each code to its own kind |
| Errors.EveryKindDeclared | jarpc/errors.py:123-125 | the collected class list holds every concrete kind |
| Errors.Registry | jarpc/errors.py:123-128 | `_exception_codes` has as keys exactly the eleven codes and maps each to its kind |
| Errors.RaiseException | jarpc/errors.py:131-138 | a list or dict code raises TypeError (unhashable); a code that hashes as a registered code, int or equal float, rebuilds exactly that kind with the given data; every other code gives the unknown kind with code, message and data as given |
| Errors.RaiseRegistered | jarpc/errors.py:131-134 | a registered code, given as an int or as any value Python hashes like it, rebuilds exactly its kind with the supplied data; the supplied message is ignored; the float form of a code gives what the int gives |
| Errors.RaiseUnregistered | jarpc/errors.py:77-83 | an integer code outside the table rebuilds the unknown kind with code, message and data verbatim |
| Errors.AsDictRoundTrip | jarpc/errors.py:27-32 | `raise_exception` applied to the three fields of `as_dict` gives back the same error (for an unknown error, when its code is hashable and unregistered) |
| Format.ExpiryWindow | jarpc/format.py:40-44 | without a ttl a request never expires; with one it is expired exactly when now > ts + ttl, so it is still live at ts + ttl and expired just after |
| Format.RequestData | jarpc/format.py:46-56 | `data` has exactly the seven fields, with version "1.0" and each field from the request |
| Format.FirstMissing | jarpc/format.py:84-86 | the index of the first absent field, or none exactly when every field is present |
| Format.FirstIllTyped | jarpc/format.py:70-77 | the index of the first field of the wrong type, or none exactly when every field has its type |
| Format.NoneMissingIsComplete | jarpc/format.py:84-86 | the field loop finds nothing missing exactly when all seven fields are present |
| Format.NoneIllTypedIsWellTyped | jarpc/format.py:91-93 | the type loop finds nothing wrong exactly when method and id are str, params a dict, ts a float, ttl a float or None, rsvp a bool |
| Format.FromData | jarpc/format.py:79-102 | `from_data`, with its two loops, gives the result of the validator specification |
| Format.RequestAcceptance | jarpc/format.py:80-102 | a value is accepted exactly when it is an object, complete, version 1.0 and well typed; the accepted request serialises back to the object's seven fields |
| Format.RequestRejections | jarpc/format.py:80-93 | the rejections in order, first failure winning, with their exact texts: not an object, first missing field, wrong version, first ill-typed field |
| Format.RequestRoundTrip | jarpc/format.py:46-56 | `from_data(r.data)` gives back `r` for every request |
| Format.RequestFromJson | jarpc/format.py:61-68 | a TypeError or JSONDecodeError from `loads` becomes ParseError; any other exception from `loads` propagates; a decoded value gives exactly what `from_data` gives, its rejection raised as that taxonomy error; an accepted request came from an object |
| Format.FromJson | jarpc/format.py:61-68 | `from_json` gives the result of its specification |
| Format.ResponseData | jarpc/format.py:115-133 | `data` has request_id, id and exactly one of result (when error is None) or error, never both |
| Format.ResponseFromData | jarpc/format.py:147-157 | Invalid response (a ServerError) exactly when the value is not an object, has both result and error, or lacks a str id or request_id; otherwise the response built from the fields |
| Format.ResponseRoundTrip | jarpc/format.py:119-157 | a response with a request id survives `data` followed by `from_data` |
| Format.EnvelopeRoundTrip | jarpc/format.py:119-157 | a valid result or error envelope survives `from_data` followed by `data` |
| Format.NeitherKeyIsSuccess | jarpc/format.py:151 | an object with neither result nor error is accepted as a success with result None |
| Format.ResponseFromJson | jarpc/format.py:138-145 | a caught decode failure becomes ServerError; other exceptions propagate; a decoded value is accepted exactly when `from_data` accepts it, giving its response, and is otherwise refused as Invalid response |
| Invocation.ArgsRepresentationExample | jarpc/manager.py:15-20 | {'c', 'a', 'b'} is written "a, b, c" |
| Invocation.Report | jarpc/manager.py:54-68 | the pair is ok exactly for a fine verdict, and carries an explanation exactly when it is not ok |
| Invocation.Explanations | jarpc/manager.py:50-68 | the exact explanation texts: "Missing arguments: " with the missing names sorted and joined by ", "; else, without a sink, "Unexpected arguments: " with the undeclared names; else, with a sink, "Unavailable arguments: " with the context and reserved names; `(True, None)` when none exists |
| Invocation.CheckFunctionCall | jarpc/manager.py:38-68 | the deque runs dry (IndexError) exactly when the method is bound and its defaults reach its first parameter; otherwise the pair reports the verdict of the set algebra |
| Invocation.CheckVerdicts | jarpc/manager.py:50-68 | missing names come first; then, without a sink, undeclared names (self and context names included); with a sink, context and reserved names; ok exactly when none of these exists |
| Invocation.AcceptedCallBinds | jarpc/manager.py:23-36 | soundness: when the check is ok, the supplied and injected names do not collide, all required names are present, without a sink all supplied names are declared, and Python binds the call exactly when the parameters do not name the bound first parameter and, without a `**kw` sink, no context entry is named like the `*args` sink |
| Invocation.RefusedCallIsReported | jarpc/manager.py:23-68 | a call Python refuses, other than by naming the bound first parameter or by a context entry named like the `*args` sink, is never reported ok |
| Invocation.ClashVerdict | jarpc/manager.py:57-67 | a supplied name that is also injected is never fine: unexpected without a `**kw` sink, unavailable with one, unless missing names are reported first |
| Invocation.RejectedCallFails | jarpc/manager.py:54-62 | a missing or unexpected verdict describes a call Python refuses |
| Invocation.UnavailableDeclaredCollides | jarpc/manager.py:63-67 | an unavailable name that the method declares is also injected, so the call collides |
| Invocation.BoundSelfPassesCheckWithSink | jarpc/manager.py:40-43 | a bound method with `**kw`, given its own first parameter, passes the check although Python refuses the call |
| Invocation.SinkNamedInContext | jarpc/manager.py:118-127 | a context entry named like the `*args` sink of `f(a, *args)` passes the check and is injected, but Python refuses the call; one named like the `**kw` sink of `f(a, **kw)` is injected and the call binds |
| Invocation.Injected | jarpc/manager.py:120-125 | the injected names are those `inspect.signature` lists, the `*args` and `**kw` sinks included, among the context names and `jarpc_request`; a context entry gets its value, `jarpc_request` gets the request |
| Invocation.Invoke | jarpc/manager.py:127 | a name given twice or a call that does not bind raises TypeError; otherwise the body runs on params plus injected values |
| Invocation.CallMethod | jarpc/manager.py:118-127 | `_call_method`, whatever order it visits the context in, is the call with params and the injected values |
| Dispatch.NotFound | jarpc/dispatcher.py:13-17 | a lookup failure is MethodNotFound with data "KeyError: " followed by the repr of the name |
| Dispatch.NotFoundAsDict | jarpc/dispatcher.py:13-17 | for a plain name, the error dict is code -32601, "Method not found", "KeyError: '<name>'" |
| Dispatch.Dispatcher.constructor | jarpc/dispatcher.py:8-11 | the table holds the given entries |
| Dispatch.Dispatcher.Create | jarpc/dispatcher.py:8-11 | a bare TypeError exactly when the argument is neither None nor a dict; otherwise a new dispatcher with that dict or an empty one |
| Dispatch.Dispatcher.Lookup | jarpc/dispatcher.py:13-17 | the stored method exactly when the name is registered, otherwise the MethodNotFound error |
| Dispatch.Dispatcher.RpcMethod | jarpc/dispatcher.py:19-24 | stores `f` under its own name, leaves every other entry unchanged, and returns `f` |
| Dispatch.Dispatcher.AddRpcMethod | jarpc/dispatcher.py:26-31 | stores `f` under the given name, or under `f`'s own name when the name is None or empty, overwriting that entry and leaving every other entry unchanged |
| Dispatch.Dispatcher.Update | jarpc/dispatcher.py:33-35 | the table becomes the old one overridden by the other's entries; the other table is unchanged |
| Server.AsRpcError | jarpc/manager.py:111-116 | a taxonomy error is answered as it is; any other exception as ServerError with `"Cls: text"` |
| Server.TypeErrorVerdict | jarpc/manager.py:100-105 | after a TypeError: InvalidParams with the checker's explanation exactly when the checker finds a fault; ServerError carrying the TypeError when it finds none; ServerError carrying the IndexError when the checker itself fails |
| Server.Manager.constructor | jarpc/manager.py:72-76 | the context is the one given, or empty |
| Server.Manager.GetResponse | jarpc/manager.py:84-116 | `get_response` with its mutable request id and rsvp gives the response of the specification `ResponseFor` over the current table |
| Server.Manager.AnswerCall | jarpc/manager.py:97-116 | the call, the `except` clauses and the second expiry check give the specified answer |
| Server.Manager.Handle | jarpc/manager.py:78-82 | the wire object of the response, or nothing when there is none |
| Server.LateRequestDropped | jarpc/manager.py:89-92 | a request already expired on arrival gets no response, even with rsvp |
| Server.NotificationNeverAnswered | jarpc/manager.py:95-116 | a request with rsvp false never gets a response, on success or on any error |
| Server.UnreadableRequestAnswered | jarpc/manager.py:86-89 | a body that is not a request is always answered with no request id: ParseError for undecodable text, InvalidRequest for a rejected value, ServerError for other decode failures |
| Server.RequestRejectionIsInvalidRequest | jarpc/format.py:80-93 | every rejection by `from_data` is an InvalidRequest error |
| Server.AnswerAddressedToRequest | jarpc/manager.py:94-116 | any response to a decoded request carries that request's id and the new response id, and exists only when rsvp is set and the request was live on arrival |
| Server.UnknownMethodAnswered | jarpc/manager.py:97-113 | an unregistered method name is answered with the MethodNotFound error for that name |
| Server.LateResultDropped | jarpc/manager.py:107-109 | a result ready only after expiry gets no response |
| Server.FailureOutlivesExpiry | jarpc/manager.py:98-116 | a failed call is answered with an error even when the request expired meanwhile; a taxonomy error is passed through unchanged; a TypeError goes to the checker's verdict; any other exception becomes ServerError carrying `"Cls: text"` |
| Server.MismatchIsInvalidParams | jarpc/manager.py:98-105 | a call Python refuses, unless the fault is the bound first parameter or a context entry named like the `*args` sink, is answered with InvalidParams carrying the checker's explanation |
| Server.SettleMismatch | jarpc/manager.py:100-105 | a TypeError the checker finds fault with is answered with InvalidParams |
| Server.UnlistedContextNameReceived | jarpc/manager.py:121-127 | with a `**kw` sink, a parameter named like a context entry the signature does not list is not injected: the method receives the caller's value, the body runs, and its result is answered |
| Server.InjectedNameClash | jarpc/manager.py:57-67 | a parameter clashing with an injected name is answered with InvalidParams, whatever else is wrong with the call: unexpected without a sink, unavailable with one, unless missing names are reported first |
| Server.AddRequestDecoded | jarpc/format.py:79-102 | the wire object for add(a=1, b=2) decodes to that request |
| Server.AddCallReturns | jarpc/manager.py:118-127 | `add(a, b)` called with a=1, b=2 returns 3, and that is the answer |
| Server.AddScenario | jarpc/manager.py:84-110 | a request for add(a=1, b=2) with no ttl is answered with result 3 and request id "x", however late |
| Caller.Reraise | jarpc/client.py:121-122 | an error dict is rebuilt by `raise_exception` from its code, data and message; a non-dict error raises AttributeError on `.get` |
| Caller.ParseResponse | jarpc/client.py:114-122 | None for a notification without parsing; otherwise the parse failure, the result, or the rebuilt error |
| Caller.Deliver | jarpc/client.py:87-94 | a taxonomy error from the transport propagates, any other transport failure becomes ServerError carrying `"Cls: text"` of the exception, and a reply is parsed |
| Caller.Client.constructor | jarpc/client.py:54-74 | each specific default is that default unless it is None or zero, in which case it is the shared default |
| Caller.Client.PrepareRequest | jarpc/client.py:96-112 | the name, params and rsvp are kept; a given ts and id are kept, else the clock and a fresh id are used; durable means no ttl; an explicit ttl, zero included, wins over the default for the kind of call |
| Caller.Client.Call | jarpc/client.py:81-94 | the prepared request and its wire object go to the transport with the extra keyword arguments, and the outcome is translated and parsed |
| Caller.Client.SimpleCall | jarpc/client.py:76-79 | `client.name(**params)` is a call with every meta parameter at its default |
| Caller.TtlPrecedence | jarpc/client.py:99-103 | durable gives no ttl; else the explicit ttl; else the kind-specific default when set and non-zero; else the shared default |
| Caller.RemoteResultReturned | jarpc/client.py:117-119 | a success response returns its result to the caller |
| Caller.RemoteErrorReraised | jarpc/client.py:120-122 | an error response is raised at the caller as the same error: same kind and data, or the same unknown code, message and data |
| Caller.UnattributedAnswerRefused | jarpc/format.py:155-156 | a response with no request id is refused by the client as Invalid response |
| Caller.ManagerAnswerRoundTrip | jarpc/client.py:114-122 | any response a manager gives to a decoded request reaches the client as its result or as its error rebuilt |
| Caller.RemoteTaxonomyErrorSurvives | jarpc/manager.py:111-113 | a taxonomy error raised by a found remote method is answered, even when the request expired meanwhile, and is raised at the caller as the same error |

## Left out

- JSON text encoding and decoding (`json_dumps`, `json_loads`, `serialize`): these belong to a foreign library. `loads` is a `Decoded` parameter, and `handle` returns the response's JSON value instead of its text.
- `AsyncJarpcManager`, `AsyncJarpcClient` and `CancelledError`: asynchronous paths that otherwise repeat the synchronous logic.
- `time.time()` and `uuid.uuid4()`: the clock readings and the fresh ids are parameters.
- Reflection (`inspect.getfullargspec`, `inspect.signature`, `inspect.ismethod`, `inspect.getmembers`): replaced by the `Signature` descriptor and the static kind table `Errors.Declared`. Of the `*args` and `**kw` sinks only their names and the presence of `**kw` are represented, since the protocol passes keyword arguments only.
- Running user methods: a method's body is a function from its bound arguments to an outcome.
- Invocation.BindingError: the text of Python's binding TypeError is approximated: it names the method by `__name__` where Python uses the qualified name, and it names the least offending argument where Python names the first in call order. Two binding failures can reach a response, because every other one is reported as InvalidParams with the checker's explanation, or, when the checker's deque runs dry, as ServerError carrying the IndexError. One is a parameter naming the bound first parameter. The other is a context entry named like the `*args` sink of a method without `**kw`, which is then the only unexpected name.
- Text.Repr: escapes the quote, the backslash, newline, carriage return and tab only. The escaping of other non-printable characters is not modelled.
- Floating point: ts and ttl are exact reals, so rounding in `ts + ttl`, NaN and infinities are not modelled.
- Dictionary order and aliasing: a dispatcher given a non-empty dict shares that dict with its creator, and so does `Server.Manager.context` with the dict passed to the manager (`context or dict()`). The model stores a copy of each value.
- Exception subclasses: a decode failure is caught when its class is TypeError or JSONDecodeError by name, not by inheritance.
- `JarpcError` raised directly (the base class, with no code) is represented as an unknown error whose code and message are None.
- Logging, `__repr__`, `__str__`, `jarpc/__init__.py` (re-exports only) and `setup.py` (packaging) are not part of this model.
