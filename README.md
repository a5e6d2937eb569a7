# grpc-django, modelled in Dafny

grpc-django lets a Django project serve gRPC. A developer declares view
classes: `RetrieveGRPCView` answers one message and
`ServerStreamGRPCView` streams one message per queryset row. Each RPC
module's `rpc_calls` list binds RPC names to these view classes. The
`run_grpc_server` management command parses its `addrport` argument. For
each RPC it builds a unary or streaming adapter and binds it onto the
generated servicer by name. `GrpcService` derives the names of the
protoc-generated modules and symbols from the service definition, and
`IService`/`IServer`/`ISettings` hold the configuration with its defaults.

The model has one module per source file:

- `views.dfy` (`Views`) covers the per-call lifecycle of a view:
  - principal extraction from call metadata;
  - the authentication gate;
  - object resolution, including Django's `QuerySet.get` on a sequence of rows;
  - serialization;
  - the retrieve and stream call shapes, which turn every exception raised after construction into a default response message.

  The view object is the class `GrpcView`. Its `Retrieve` and `Stream` methods reassign the context, and the stream's `for` loop is the method `YieldRows`. Each is proved against a function (`RetrieveResponse`, `StreamResponse`, `Emit`).
- `run_grpc_server.dfy` (`RunGrpcServer`) covers:
  - `get_addrport` and `handle`'s default;
  - `_get_rpc_method`'s choice of adapter and what a bound adapter returns;
  - the `setattr` loop. It is the method `Servicer.BindRpcCalls` over a map field, proved against the fold `BindAll`.
- `service.dfy` (`Service`) covers `GrpcService`'s constructor checks, the proto file name, and the stub module and symbol names.
- `interfaces.dfy` (`Interfaces`) covers the `rpc` pair and the three configuration constructors, with Python's truthiness deciding when a default applies.
- `rpcs.dfy` (`Rpcs`) covers the test project's RPC module: the two users, `GetUser`'s linear search, `ListUsers`, and the binding list. It proves the concrete get and list scenarios about the generic views.
- `strings.dfy` (`Strings`) covers Python's `str.split` on one character and its inverse `join`.
- `base.dfy` (`Base`) holds the result types that stand for Python exceptions, the field values of messages and rows, and the exceptions raised.

Collaborators whose code is not part of this model become values:

- The record `Views.Env` holds:
  - `json.loads`;
  - `dict_to_protobuf`, as the fields it sets;
  - `ExceptionHandler`, as the context it leaves;
  - the settings key of the principal's metadata entry.
- `ipaddress.ip_address` is a predicate parameter.
- `importlib.import_module` is a lookup in a given map from module names to modules.

Two behaviours of the code are easy to miss:

- `get_user` runs in `__init__`, outside the `try` of `__call__`, and `_get_rpc_method` builds the view outside any `try`. So a principal payload that fails to decode, or a non-empty JSON value that is not an object, raises out of the call. It is not turned into a default response. `RunGrpcServer.InvokeSpec` states this.
- `GenericGrpcView` has no `__call__`. A plain view bound as a unary method raises AttributeError.

## Model

| member | source | states |
|---|---|---|
| `Interfaces.NewIService` | grpc_django/interfaces.py:11-23 | four fields stored unchanged; `stub_conf` kept when truthy, otherwise (None or '') 'grpc_codegen'; never empty |
| `Interfaces.NewIServer` | grpc_django/interfaces.py:30-37 | TypeError exactly when a truthy port or worker count is not exactly an int, the port checked first: "Invalid port provided, should be int" for the port, otherwise "Invalid num_of_workers provided, should be int"; falsy values become 55000 and 1; a built server never holds 0 |
| `Interfaces.DefaultIServer` | grpc_django/interfaces.py:26-37 | `IServer()` is port 55000 with 1 worker |
| `Interfaces.NewISettings` | grpc_django/interfaces.py:44-54 | absent server becomes `IServer()`; falsy key becomes 'user'; only a None stubs location becomes 'grpc_codegen', '' is kept; the key is never empty |
| `Interfaces.BuiltServerFitsSettings` | grpc_django/interfaces.py:31-54 | settings built on any server IServer accepted have a non-empty key and non-zero port and worker count |
| `Interfaces.PortZeroFallsBack` | grpc_django/interfaces.py:33 | port 0 is falsy and gives 55000 |
| `Interfaces.PortTrueRejected` | grpc_django/interfaces.py:31-32 | `True` as a port raises the port TypeError (bool is not exactly int) |
| `Interfaces.PortStringRejectedFalsyFallsBack` | grpc_django/interfaces.py:31-37 | a non-empty string port is rejected; `False` and '' fall back to the defaults |
| `Interfaces.EmptyStubsKeptEmptyKeyReplaced` | grpc_django/interfaces.py:52-54 | '' stubs stays '', '' key becomes 'user', no server gives (55000, 1) |
| `Interfaces.EmptyStubConfFallsBack` | grpc_django/interfaces.py:23 | an empty `stub_conf` falls back, unlike `ISettings.stubs` |
| `Views.DeclareView` | grpc_django/views.py:12-23 | a subclass inherits no queryset, serializer or response class, no authentication, lookup `id`→`pk`, and the permissive permission hook |
| `Views.LastKeyIndex` | grpc_django/views.py:34 | the last metadata pair with the key, or -1 when none has it |
| `Views.MetadataLookup` | grpc_django/views.py:34 | `dict(metadata).get(key)`: None exactly when no pair has the key; otherwise the value of the last such pair |
| `Views.PayloadLen` | grpc_django/views.py:35 | `len` succeeds exactly on strings, arrays and objects |
| `Views.AbsentPrincipalIsAnonymous` | grpc_django/views.py:34-36 | without the principal's metadata entry the payload is '{}', and the caller is anonymous |
| `Views.GetUser` | grpc_django/views.py:31-38 | anonymous exactly when the payload (default '{}') decodes to null or something empty; a ContextUser exactly for a non-empty object, carrying its members |
| `Views.Construct` | grpc_django/views.py:25-29 | AssertionError "Missing response_proto declaration" without a response class, otherwise the outcome of `get_user` |
| `Views.PerformAuthentication` | grpc_django/views.py:58-67 | NotAuthenticated exactly when authentication is required and the user is anonymous, otherwise nothing |
| `Views.GetQueryset` | grpc_django/views.py:40-49 | what an override computes from the requesting user and the request (rows or an exception), else the `queryset` attribute; without an override, an AssertionError exactly when there is no attribute |
| `Views.Matching` | grpc_django/views.py:73 | the rows whose lookup field (`pk` = `id`) equals the value: all of them and only them, one entry per matching position |
| `Views.QuerysetGet` | grpc_django/views.py:73 | succeeds exactly when one position matches, returning the row there; ObjectDoesNotExist when none matches, MultipleObjectsReturned carrying the number of matches when several do |
| `Views.GetObject` | grpc_django/views.py:69-75 | a request whose message type has no `lookup_kwarg` field gets InvalidArgument("Missing argument ...") before the queryset is consulted (an unset field is present at its default); then a queryset failure propagates, no match gives ObjectDoesNotExist, several give MultipleObjectsReturned, and one match is returned unless the permission hook raises, whose exception propagates; an override answers what it computes from the user, the request, `lookup_kwarg` and the `get_queryset()` outcome |
| `Views.GetObjectWithPermissiveHook` | grpc_django/views.py:51-75 | with the default hook, success exactly when the argument is present, the queryset resolves and exactly one row matches |
| `Views.Serialize` | grpc_django/views.py:85-86 | no serializer class raises TypeError (None is not callable); otherwise its data |
| `Views.ToMessage` | grpc_django/views.py:92 | fails exactly when `dict_to_protobuf` fails; the message is of the view's response class |
| `Views.DefaultMessage` | grpc_django/views.py:95 | `response_proto()`: the response class with no field set |
| `Views.RowMessage` | grpc_django/views.py:104-105 | one row's message: succeeds exactly when serialization and conversion do |
| `Views.RetrieveData` | grpc_django/views.py:79-86 | `retrieve()`: the serialized object; a `get_object` failure propagates unchanged |
| `Views.RetrieveOutcome` | grpc_django/views.py:89-92 | authentication comes first; a failure of `retrieve()` or of `dict_to_protobuf` comes out unchanged; success implies the data was retrieved and converted |
| `Views.RetrieveResponse` | grpc_django/views.py:88-95 | always answers a message of the response class; on success the converted message and the same context, on any exception the default message and the handler's context |
| `Views.RetrieveAuthenticationGate` | grpc_django/views.py:89-95 | an anonymous caller of a protected view gets the default message and NotAuthenticated, whatever the request |
| `Views.RetrieveNoMatch` | grpc_django/views.py:69-95 | with the default `get_object`, a lookup value no row has gives the default message, and the handler sees ObjectDoesNotExist |
| `Views.RetrieveMissingLookupArgument` | grpc_django/views.py:69-72 | a request whose message type has no `lookup_kwarg` field gets the default message and InvalidArgument, even without a queryset |
| `Views.EmitYields` | grpc_django/views.py:103-108 | the loop yields each row's message in order; at the first failing row it keeps the earlier messages, adds one default message and hands on that row's exception |
| `Views.EmitStep` | grpc_django/views.py:103-105 | one loop step: the stream from row i begins with row i's message, or ends there |
| `Views.StreamResponse` | grpc_django/views.py:99-108 | every yielded message is of the response class; nothing is yielded only when the queryset resolved and the context is untouched; a `get_queryset` failure yields exactly one default message and the handler's context |
| `Views.StreamOnePerRow` | grpc_django/views.py:102-105 | when every row converts: exactly one message per row, in queryset order, and the context is unchanged |
| `Views.StreamFailsAtRow` | grpc_django/views.py:106-108 | when row k is the first to fail: the k earlier messages, then one default message, and the handler sees row k's exception |
| `Views.StreamAuthenticationGate` | grpc_django/views.py:100-101 | an anonymous caller of a protected stream gets exactly one default message |
| `Views.YieldRows` | grpc_django/views.py:103-105 | the `for` loop over the rows computes exactly what `Emit` specifies |
| `Views.GrpcView.constructor` | grpc_django/views.py:25-29 | stores the request, the context and the resolved user |
| `Views.GrpcView.Retrieve` | grpc_django/views.py:88-95 | returns the message and leaves the context that `RetrieveResponse` specifies; user and request unchanged |
| `Views.GrpcView.Stream` | grpc_django/views.py:99-108 | yields the messages and leaves the context that `StreamResponse` specifies |
| `Service.ProtoFilename` | grpc_django/service.py:18 | the longest '/'-free suffix of the path: the whole path when it has no '/' |
| `Service.GetRpcPaths` | grpc_django/service.py:22-24 | the module's `rpc_calls`, ImportError exactly when the module is missing |
| `Service.NewGrpcService` | grpc_django/service.py:13-20 | fails with the proto_path message, then the rpc_path message, unless both are present and non-empty; then needs the RPC module; stores the path, its file name and the bindings |
| `Service.StubPrefix` | grpc_django/service.py:27 | `destination + '.'`, empty for '.' |
| `Service.Stem` | grpc_django/service.py:28 | the longest '.'-free prefix of the file name |
| `Service.StubModuleNames` | grpc_django/service.py:26-30 | messages module prefix+stem+`_pb2`; service module the same with `_grpc` appended |
| `Service.MessagesModuleLastComponent` | grpc_django/service.py:27-29 | the messages module's last dotted component is stem+`_pb2` whatever the destination |
| `Service.FindStubs` | grpc_django/service.py:26-31 | both modules when both load; ImportError naming the messages module first, then the service module |
| `Service.SymbolNamesDetermineService` | grpc_django/service.py:33-43 | each symbol name gives its service name back, so distinct services look up distinct symbols |
| `Service.FindServerHandler` | grpc_django/service.py:33-37 | exactly the symbol `add_<name>Servicer_to_server` when defined, from which the name is recovered; AttributeError('No server handler found') exactly otherwise |
| `Service.FindServicer` | grpc_django/service.py:39-43 | exactly the symbol `<name>Servicer` when defined, from which the name is recovered; AttributeError('No servicer class found') exactly otherwise |
| `Service.ExampleProtoFilename` | grpc_django/service.py:18 | `protos/a.b.proto` gives `a.b.proto` |
| `Service.ExampleStem` | grpc_django/service.py:28 | `a.b.proto` gives `a` |
| `Service.ExampleTestStem` | grpc_django/service.py:28 | `test.proto` gives `test` |
| `Service.ExamplePackagedStubs` | grpc_django/service.py:27-30 | `a.b.proto` into `grpc_codegen` gives `grpc_codegen.a_pb2` and `grpc_codegen.a_pb2_grpc` |
| `Service.ExampleTopLevelStubs` | grpc_django/service.py:27-30 | `test.proto` into '.' gives `test_pb2` and `test_pb2_grpc` |
| `RunGrpcServer.ParseAddrPort` | grpc_django/management/commands/run_grpc_server.py:81-97 | more than two parts rejected; a bare part accepted exactly when all digits; two parts accepted exactly when the address is an IP, the port unchecked and the pair rejoining to the input; one CommandError text throughout |
| `RunGrpcServer.GetAddrPort` | grpc_django/management/commands/run_grpc_server.py:86-90 | as written, a bare port's address is '55000' |
| `RunGrpcServer.GetAddrPortIntended` | grpc_django/management/commands/run_grpc_server.py:24-25 | a bare port is paired with 127.0.0.1 |
| `RunGrpcServer.ParseListenAddress` | grpc_django/management/commands/run_grpc_server.py:91-97 | parsing `addr:port` gives back any ':'-free IP address and any ':'-free port text |
| `RunGrpcServer.BarePortAddressQuirk` | grpc_django/management/commands/run_grpc_server.py:86-90 | for every digit string, the code as written answers ('55000', p) where ('127.0.0.1', p) is meant |
| `RunGrpcServer.ParsersAgreeWithSeparator` | grpc_django/management/commands/run_grpc_server.py:84-97 | the two parsers agree on every value containing ':' |
| `RunGrpcServer.Handle` | grpc_django/management/commands/run_grpc_server.py:99-104 | corrected (over `GetAddrPortIntended`, see Findings): a missing or empty `addrport` gives 127.0.0.1:55000 without parsing; otherwise the parser decides; the server always gets one worker |
| `RunGrpcServer.HandleListensOnGivenAddress` | grpc_django/management/commands/run_grpc_server.py:76 | an accepted `addr:port` argument is listened on exactly as given |
| `RunGrpcServer.WorkersOptionIgnored` | grpc_django/management/commands/run_grpc_server.py:49 | the `--workers` option changes nothing |
| `RunGrpcServer.ViewAttribute` | grpc_django/interfaces.py:5 | an `rpc` tuple yields its view only under the attribute `view` |
| `RunGrpcServer.GetRpcMethodAsWritten` | grpc_django/management/commands/run_grpc_server.py:38-45 | as written: reading `cls` raises AttributeError for every binding, before an adapter is chosen |
| `RunGrpcServer.GetRpcMethod` | grpc_django/management/commands/run_grpc_server.py:38-45 | the streaming adapter exactly for a server-stream view, over the bound class |
| `RunGrpcServer.InvokeSpec` | grpc_django/management/commands/run_grpc_server.py:40-44 | a bound call fails exactly when construction fails or the view has no `__call__`; streaming exactly for stream views; otherwise the view's response |
| `RunGrpcServer.OnlyConstructionEscapes` | grpc_django/management/commands/run_grpc_server.py:40-44 | once a retrieve or stream view is built, its call never raises |
| `RunGrpcServer.Invoke` | grpc_django/management/commands/run_grpc_server.py:40-44 | building a `GrpcView` and calling it returns what `InvokeSpec` specifies |
| `RunGrpcServer.LastCallIndex` | grpc_django/management/commands/run_grpc_server.py:69-74 | the last call with the name, or -1 |
| `RunGrpcServer.BindAllLastWins` | grpc_django/management/commands/run_grpc_server.py:69-74 | after the loop a bound name holds the adapter of its last call; any other name keeps what it had |
| `RunGrpcServer.BindAllKeys` | grpc_django/management/commands/run_grpc_server.py:69-74 | the servicer's names afterwards are the old ones plus every call's name |
| `RunGrpcServer.BindAllIdempotent` | grpc_django/management/commands/run_grpc_server.py:69-74 | binding the same calls twice equals binding them once |
| `RunGrpcServer.BindAllKeepsAdaptersWellFormed` | grpc_django/management/commands/run_grpc_server.py:69-74 | every bound adapter is streaming exactly for a stream view |
| `RunGrpcServer.Servicer.constructor` | grpc_django/management/commands/run_grpc_server.py:66 | a fresh servicer answers UNIMPLEMENTED for every declared RPC |
| `RunGrpcServer.Servicer.BindRpcCalls` | grpc_django/management/commands/run_grpc_server.py:69-74 | corrected (over `GetRpcMethod`, see Findings; as written the first binding raises): the `setattr` loop leaves exactly the table `BindAll` specifies |
| `Rpcs.FindUser` | tests/rpcs.py:34-39 | a result is a listed user whose "id" equals the request's field; no users gives ObjectDoesNotExist |
| `Rpcs.FindUserFirstMatch` | tests/rpcs.py:36-38 | the first matching user is returned |
| `Rpcs.FindUserNoMatch` | tests/rpcs.py:39 | no match gives ObjectDoesNotExist("User matching query does not exists.") |
| `Rpcs.UserSerializerData` | tests/rpcs.py:18-24 | the serializer's data is the wrapped object |
| `Rpcs.GetUserView` | tests/rpcs.py:27-39 | a retrieve view answering `User` over USERS, whose `get_object` is `FindUser` over the `get_queryset()` rows (a queryset failure propagates), with the identity serializer |
| `Rpcs.ListUsersView` | tests/rpcs.py:42-47 | a stream view answering `User` over USERS with the identity serializer |
| `Rpcs.RetrieveExistingUser` | tests/rpcs.py:34-38 | asking for id 1 retrieves Clay Jenson's record |
| `Rpcs.RetrieveExistingUserResponse` | tests/rpcs.py:27-38 | the whole answer for id 1: the message converted from Clay Jenson's record, with the context untouched |
| `Rpcs.RetrieveMissingUser` | tests/rpcs.py:39 | asking for id 99 answers an empty `User` and hands ObjectDoesNotExist to the handler |
| `Rpcs.ListUsersStreamsBoth` | tests/rpcs.py:42-47 | `ListUsers` yields the two users' messages in list order and leaves the context alone |
| `Rpcs.BindingsOfTheModule` | tests/rpcs.py:50-53 | `GetUser` gets the unary adapter and `ListUsers` the streaming one |
| `Strings.Split` | grpc_django/management/commands/run_grpc_server.py:83 | one more part than separators, no part holds one, joining gives the input |
| `Strings.SplitJoin` | grpc_django/management/commands/run_grpc_server.py:83 | splitting undoes joining for separator-free parts |
| `Strings.SplitOneSeparator` | grpc_django/management/commands/run_grpc_server.py:92 | one separator gives exactly the two parts around it |
| `Strings.FirstIsPrefix` | grpc_django/service.py:28 | `split(sep)[0]` is the longest separator-free prefix |
| `Strings.LastIsSuffix` | grpc_django/service.py:18 | `split(sep)[-1]` is the longest separator-free suffix |

## Left out

- Server plumbing in `serve_forever` is left out: the gRPC server, its thread pool, `add_insecure_port`/`start`/`stop`, the banners, the migration check, and the sleep loop ended by KeyboardInterrupt. All of it is I/O and concurrency. Only the listening address text (`ListenAddress`) is modelled.
- The loop over `settings.services` is left out. So are the objects `service.service`, `service.rpc_paths` and `service.servicer` it uses, and the final `add_...Servicer_to_server` call. grpc_django/settings.py and grpc_django/server.py are not part of this model. `Servicer.BindRpcCalls` is the inner loop for one service.
- `generate_stubs` is left out. It runs protoc, an external program.
- The interceptor bases are left out; they hold no logic.
- `json.loads`, `dict_to_protobuf`, `ExceptionHandler`, `traceback.format_exc` and `ipaddress.ip_address` are left out. They are opaque parameters; what they compute is not part of this model.
- `Views.RetrieveData`: `retrieve()` is an override point of RetrieveGRPCView, but a view class here always retrieves through `get_object` and the serializer; a view that overrides `retrieve` is not expressible.
- `Views.PerformAuthentication`: `perform_authentication` is an override point, but a view class here always uses the base check (required and anonymous ⇒ NotAuthenticated); a custom authentication scheme is not expressible.
- `Views.QuerysetGet`: Django's messages name the model ("User matching query does not exist.", "get() returned more than one User -- it returned 2!"). Rows carry no model name, so ObjectDoesNotExist carries the text without it and MultipleObjectsReturned carries only the count.
- `Views.GetObject`: an overriding `get_object` sees the requesting user, the request, `lookup_kwarg` and the outcome of `get_queryset()`; other instance state (the context) is not passed to it.
- Django's QuerySet is left out. A queryset is a sequence of rows, and `get` compares one field for equality, with `pk` read as `id`. Lookups such as `field__in` and re-evaluation by `.all()` are not modelled.
- Python `==` between values of different types is not modelled: `1 == True` holds in Python but not between `VInt(1)` and `VBool(true)`.
- `ContextUser(**payload)` is left out. It accepts any non-empty JSON object and keeps its members; which keyword arguments the Django user model refuses is not modelled.
- `IsDigits`: `str.isdigit` is true for every Unicode digit; the model accepts ASCII digits only.
- The regular expression `naiveip_re` is defined in the command module but never used, so it is not modelled.
- Generators are left out: a stream is the finished sequence of messages it yields. A client that stops reading early is not modelled.
- The attribute that holds the binding list differs between the fixture and the loaders. tests/rpcs.py names its list `rpcs`, while `get_rpc_paths` and `serve_forever` read `rpc_calls`. The model takes the list as given.
- `Service.GetRpcPaths`: a module that loads but lacks `rpc_calls` (an AttributeError in Python) is modelled as given; the map holds only a module's bindings.

## Findings

| source | as written | input that shows it | evidently intended | confidence | as-written member | corrected member |
|---|---|---|---|---|---|---|
| grpc_django/management/commands/run_grpc_server.py:86-90 | a bare port is paired with `default_port`, so the address is '55000' | `addrport` = `8000` gives ('55000', '8000'), and the server would listen on `55000:8000` | the address is `default_addr`, '127.0.0.1' | not executed; high | `RunGrpcServer.GetAddrPort`, `RunGrpcServer.BarePortAddressQuirk` | `RunGrpcServer.GetAddrPortIntended`, used by `RunGrpcServer.Handle` |
| grpc_django/management/commands/run_grpc_server.py:39-44 | `_get_rpc_method` reads `rpc_call.cls`; the `rpc` named tuple (grpc_django/interfaces.py:5) has only `name` and `view` | `rpc("GetUser", GetUser)` from tests/rpcs.py:51 raises AttributeError at `issubclass(rpc_call.cls, ...)` | read `rpc_call.view` | not executed; high | `RunGrpcServer.GetRpcMethodAsWritten` | `RunGrpcServer.GetRpcMethod`, used by `RunGrpcServer.BindAll` |
