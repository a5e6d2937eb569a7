/** The `run_grpc_server` management command of
    grpc_django/management/commands/run_grpc_server.py: the parser of the
    optional `addrport` argument, the choice between the unary and the
    streaming adapter for each RPC, the call an adapter makes, and the loop
    that binds the adapters onto a servicer by name. Whether a text is an
    IP address (`ipaddress.ip_address`) is a given predicate. */
module RunGrpcServer {
  import opened Base
  import opened Strings
  import opened Interfaces
  import opened Views
  import Service

  const DEFAULT_ADDR: string := "127.0.0.1"
  const DEFAULT_PORT: string := "55000"

  /** The CommandError `get_addrport` raises for every rejected value. */
  function AddrPortError(value: string): Exc {
    CommandError("\"" + value + "\" is not a valid port number or address:port pair.")
  }

  // ---------------------------------------------------------------------
  // The addrport argument
  // ---------------------------------------------------------------------

  /** `get_addrport`, with the address a bare port is paired with as a
      parameter: at most two ':'-separated parts; a single part must be all
      digits; of two parts the first must be an IP address, and the second
      is never checked. */
  function ParseAddrPort(value: string, isIpAddress: string -> bool, bareAddr: string): (r: Result<(string, string), Exc>)
    ensures r.Failure? ==> r.error == AddrPortError(value)
    ensures Count(value, ':') >= 2 ==> r.Failure?
    ensures ':' !in value ==> (r.Success? <==> IsDigits(value))
    ensures ':' !in value && r.Success? ==> r.value == (bareAddr, value)
    ensures Count(value, ':') == 1 ==> (r.Success? <==> isIpAddress(First(value, ':')))
    ensures Count(value, ':') == 1 && r.Success? ==>
      && ':' !in r.value.0 && ':' !in r.value.1
      && r.value.0 + ":" + r.value.1 == value
  {
    var parts := Split(value, ':');
    CountZeroIffAbsent(value, ':');
    if |parts| > 2 then Failure(AddrPortError(value))
    else if |parts| == 1 then
      SplitWithoutSeparator(value, ':');
      if IsDigits(parts[0]) then Success((bareAddr, parts[0])) else Failure(AddrPortError(value))
    else
      SplitOneSeparator(value, ':');
      if isIpAddress(parts[0]) then Success((parts[0], parts[1])) else Failure(AddrPortError(value))
  }

  /** `get_addrport` as written: a bare port is paired with `default_port`,
      so the address becomes '55000'. */
  function GetAddrPort(value: string, isIpAddress: string -> bool): (r: Result<(string, string), Exc>)
    ensures ':' !in value && r.Success? ==> r.value.0 == DEFAULT_PORT
  {
    ParseAddrPort(value, isIpAddress, DEFAULT_PORT)
  }

  /** `get_addrport` as evidently intended: a bare port is paired with
      `default_addr`. */
  function GetAddrPortIntended(value: string, isIpAddress: string -> bool): (r: Result<(string, string), Exc>)
    ensures ':' !in value && r.Success? ==> r.value == (DEFAULT_ADDR, value)
  {
    ParseAddrPort(value, isIpAddress, DEFAULT_ADDR)
  }

  /** The listening address `'{}:{}'.format(addr, port)`. */
  function ListenAddress(addr: string, port: string): string {
    addr + ":" + port
  }

  /** Formatting an address and a port and parsing the result gives them
      back, whatever the port text is: the port is not validated. */
  lemma ParseListenAddress(addr: string, port: string, isIpAddress: string -> bool, bareAddr: string)
    requires ':' !in addr && ':' !in port && isIpAddress(addr)
    ensures ParseAddrPort(ListenAddress(addr, port), isIpAddress, bareAddr) == Success((addr, port))
  {
    var parts := [addr, port];
    assert Join(parts, ':') == ListenAddress(addr, port) by {
      assert parts[1..] == [port];
    }
    SplitJoin(parts, ':');
  }

  /** A bare port: the code as written answers the address '55000' where
      '127.0.0.1' is meant. */
  lemma BarePortAddressQuirk(port: string, isIpAddress: string -> bool)
    requires IsDigits(port)
    ensures GetAddrPort(port, isIpAddress) == Success(("55000", port))
    ensures GetAddrPortIntended(port, isIpAddress) == Success(("127.0.0.1", port))
  {
    assert forall i :: 0 <= i < |port| ==> port[i] != ':';
  }

  /** The two parsers differ only on a bare port. */
  lemma ParsersAgreeWithSeparator(value: string, isIpAddress: string -> bool)
    requires ':' in value
    ensures GetAddrPort(value, isIpAddress) == GetAddrPortIntended(value, isIpAddress)
  {
    CountZeroIffAbsent(value, ':');
  }

  /** The options `serve_forever` receives. */
  datatype ServeOptions = ServeOptions(addr: string, port: string, maxWorkers: int)

  /** `handle`: a missing or empty `addrport` selects 127.0.0.1:55000 without
      parsing; any other value goes through the parser. `--workers` is parsed
      but never handed to `serve_forever`, which falls back to one worker. */
  function Handle(addrport: Option<string>, workers: Option<string>, isIpAddress: string -> bool): (r: Result<ServeOptions, Exc>)
    ensures !TruthyStr(addrport) ==> r == Success(ServeOptions("127.0.0.1", "55000", 1))
    ensures TruthyStr(addrport) ==>
      && (r.Success? <==> GetAddrPortIntended(addrport.value, isIpAddress).Success?)
      && (r.Failure? ==> r.error == AddrPortError(addrport.value))
      && (r.Success? ==> (r.value.addr, r.value.port) == GetAddrPortIntended(addrport.value, isIpAddress).value)
    ensures r.Success? ==> r.value.maxWorkers == 1
  {
    if !TruthyStr(addrport) then Success(ServeOptions(DEFAULT_ADDR, DEFAULT_PORT, 1))
    else
      var (addr, port) :- GetAddrPortIntended(addrport.value, isIpAddress);
      Success(ServeOptions(addr, port, 1))
  }

  /** An `addrport` of the form address:port is listened on exactly as given. */
  lemma HandleListensOnGivenAddress(value: string, workers: Option<string>, isIpAddress: string -> bool)
    requires ':' in value
    requires Handle(Some(value), workers, isIpAddress).Success?
    ensures var o := Handle(Some(value), workers, isIpAddress).value;
      ListenAddress(o.addr, o.port) == value
  {
    CountZeroIffAbsent(value, ':');
  }

  /** The `--workers` option has no effect on what is served. */
  lemma WorkersOptionIgnored(addrport: Option<string>, w1: Option<string>, w2: Option<string>, isIpAddress: string -> bool)
    ensures Handle(addrport, w1, isIpAddress) == Handle(addrport, w2, isIpAddress)
  {
  }

  // ---------------------------------------------------------------------
  // Adapters
  // ---------------------------------------------------------------------

  /** The method `_get_rpc_method` builds: a plain function returning one
      message, or a generator delegating to the view's stream. */
  datatype Adapter = UnaryMethod(view: ViewClass) | StreamingMethod(view: ViewClass)

  /** An adapter as `_get_rpc_method` makes them: streaming exactly for a
      server-stream view. */
  predicate WellFormed(a: Adapter) {
    a.StreamingMethod? <==> a.view.kind == ServerStreamView
  }

  /** Attribute access on an `rpc` named tuple, whose fields are `name` and
      `view`; only `view` holds a class. */
  function ViewAttribute(call: Service.Binding, attr: string): (r: Result<ViewClass, Exc>)
    ensures r.Success? <==> attr == "view"
    ensures r.Success? ==> r.value == call.view
  {
    if attr == "view" then Success(call.view)
    else Failure(AttributeError("'rpc' object has no attribute '" + attr + "'"))
  }

  /** `_get_rpc_method` as written: it reads `rpc_call.cls`, which an `rpc`
      tuple does not have, before choosing the adapter, so every binding of
      an RPC module is refused. */
  function GetRpcMethodAsWritten(call: Service.Binding): (r: Result<Adapter, Exc>)
    ensures r == Failure(AttributeError("'rpc' object has no attribute 'cls'"))
  {
    assert "'rpc' object has no attribute '" + "cls" + "'" == "'rpc' object has no attribute 'cls'";
    match ViewAttribute(call, "cls")
    case Failure(e) => Failure(e)
    case Success(cls) => Success(if cls.kind == ServerStreamView then StreamingMethod(cls) else UnaryMethod(cls))
  }

  /** `_get_rpc_method` reading the `view` field: the streaming adapter
      exactly for a server-stream view, over the bound view class. */
  function GetRpcMethod(call: Service.Binding): (a: Adapter)
    ensures WellFormed(a) && a.view == call.view
  {
    if call.view.kind == ServerStreamView then StreamingMethod(call.view) else UnaryMethod(call.view)
  }

  /** What a bound method returns to gRPC. */
  datatype Reply = Unary(message: Message, context: Context) | Streamed(messages: seq<Message>, context: Context)

  /** Calling an adapter with `(servicer, request, context)`: the view is
      built from the request and the context and called. A construction
      failure escapes; a plain view has no `__call__`. */
  function InvokeSpec(a: Adapter, env: Env, request: Record, context: Context): (r: Result<Reply, Exc>)
    requires WellFormed(a)
    ensures r.Failure? <==> Construct(a.view, env, context).Failure? || a.view.kind == GenericView
    ensures Construct(a.view, env, context).Failure? ==> r == Failure(Construct(a.view, env, context).error)
    ensures r.Success? ==> (r.value.Streamed? <==> a.view.kind == ServerStreamView)
    ensures r.Success? && r.value.Unary? ==>
      (r.value.message, r.value.context) ==
        RetrieveResponse(a.view, env, Construct(a.view, env, context).value, request, context)
    ensures r.Success? && r.value.Streamed? ==>
      (r.value.messages, r.value.context) ==
        StreamResponse(a.view, env, Construct(a.view, env, context).value, request, context)
  {
    var user :- Construct(a.view, env, context);
    match a
    case StreamingMethod(cls) =>
      var (out, ctx) := StreamResponse(cls, env, user, request, context);
      Success(Streamed(out, ctx))
    case UnaryMethod(cls) =>
      if cls.kind == GenericView then
        Failure(AttributeError("'" + cls.name + "' object has no attribute '__call__'"))
      else
        var (m, ctx) := RetrieveResponse(cls, env, user, request, context);
        Success(Unary(m, ctx))
  }

  /** Once the view is built, nothing a retrieve or stream view does
      escapes the call; a stream ends with a default message exactly when
      something failed after construction, and it yields nothing only for
      an empty queryset. */
  lemma OnlyConstructionEscapes(a: Adapter, env: Env, request: Record, context: Context)
    requires WellFormed(a) && a.view.kind != GenericView
    requires Construct(a.view, env, context).Success?
    ensures InvokeSpec(a, env, request, context).Success?
    ensures a.view.responseProto.Some?
    ensures var r := InvokeSpec(a, env, request, context).value;
      r.Streamed? ==>
        (|r.messages| >= 1 || GetQueryset(a.view, Construct(a.view, env, context).value, request).Success?)
  {
  }

  /** The bound method of an adapter, called once. */
  method Invoke(a: Adapter, env: Env, request: Record, context: Context) returns (r: Result<Reply, Exc>)
    requires WellFormed(a)
    ensures r == InvokeSpec(a, env, request, context)
  {
    var user := Construct(a.view, env, context);
    if user.Failure? {
      return Failure(user.error);
    }
    var view := new GrpcView(a.view, env, request, context);
    match a
    case StreamingMethod(_) =>
      var out := view.Stream();
      r := Success(Streamed(out, view.context));
    case UnaryMethod(cls) =>
      if cls.kind == GenericView {
        r := Failure(AttributeError("'" + cls.name + "' object has no attribute '__call__'"));
      } else {
        var m := view.Retrieve();
        r := Success(Unary(m, view.context));
      }
  }

  // ---------------------------------------------------------------------
  // Binding the adapters onto a servicer
  // ---------------------------------------------------------------------

  /** A servicer attribute: the generated stub that answers UNIMPLEMENTED,
      or a bound adapter. */
  datatype Attr = Unimplemented | Bound(adapter: Adapter)

  /** The attribute table after `setattr(servicer, rpc_call.name, ...)` for
      each call in order. */
  function BindAll(methods: map<string, Attr>, calls: seq<Service.Binding>): map<string, Attr>
    decreases calls
  {
    if calls == [] then methods
    else BindAll(methods[calls[0].name := Bound(GetRpcMethod(calls[0]))], calls[1..])
  }

  /** The position of the last call named `name`, or -1. */
  function LastCallIndex(calls: seq<Service.Binding>, name: string): (k: int)
    ensures -1 <= k < |calls|
    ensures k >= 0 ==> calls[k].name == name
    ensures forall j :: k < j < |calls| ==> calls[j].name != name
  {
    if calls == [] then -1
    else
      var k := LastCallIndex(calls[1..], name);
      assert forall j :: 0 < j < |calls| ==> calls[j] == calls[1..][j - 1];
      if k >= 0 then k + 1 else if calls[0].name == name then 0 else -1
  }

  /** After the loop, a name some call carries is bound to the adapter of
      its last call; any other name keeps what it had, absent or not. */
  lemma {:induction false} BindAllLastWins(methods: map<string, Attr>, calls: seq<Service.Binding>, name: string)
    ensures var r := BindAll(methods, calls);
      var k := LastCallIndex(calls, name);
      && (k >= 0 ==> name in r && r[name] == Bound(GetRpcMethod(calls[k])))
      && (k < 0 ==> (name in r <==> name in methods) && (name in methods ==> r[name] == methods[name]))
    decreases calls
  {
    if calls != [] {
      BindAllLastWins(methods[calls[0].name := Bound(GetRpcMethod(calls[0]))], calls[1..], name);
    }
  }

  /** The names the table has after the loop: the old ones and every bound one. */
  lemma BindAllKeys(methods: map<string, Attr>, calls: seq<Service.Binding>)
    ensures BindAll(methods, calls).Keys == methods.Keys + set i | 0 <= i < |calls| :: calls[i].name
  {
    var r := BindAll(methods, calls);
    var names := set i | 0 <= i < |calls| :: calls[i].name;
    forall n | n in r.Keys
      ensures n in methods.Keys + names
    {
      BindAllLastWins(methods, calls, n);
    }
    forall n | n in methods.Keys + names
      ensures n in r.Keys
    {
      BindAllLastWins(methods, calls, n);
      if n !in methods.Keys {
        var i :| 0 <= i < |calls| && calls[i].name == n;
      }
    }
  }

  /** Running the loop twice over the same calls changes nothing more. */
  lemma BindAllIdempotent(methods: map<string, Attr>, calls: seq<Service.Binding>)
    ensures BindAll(BindAll(methods, calls), calls) == BindAll(methods, calls)
  {
    var once := BindAll(methods, calls);
    var twice := BindAll(once, calls);
    forall n
      ensures n in twice <==> n in once
      ensures n in twice ==> twice[n] == once[n]
    {
      BindAllLastWins(methods, calls, n);
      BindAllLastWins(once, calls, n);
    }
  }

  /** Every adapter in the table was made by `_get_rpc_method`. */
  predicate AdaptersWellFormed(methods: map<string, Attr>) {
    forall n :: n in methods && methods[n].Bound? ==> WellFormed(methods[n].adapter)
  }

  lemma BindAllKeepsAdaptersWellFormed(methods: map<string, Attr>, calls: seq<Service.Binding>)
    requires AdaptersWellFormed(methods)
    ensures AdaptersWellFormed(BindAll(methods, calls))
  {
    forall n | n in BindAll(methods, calls) && BindAll(methods, calls)[n].Bound?
      ensures WellFormed(BindAll(methods, calls)[n].adapter)
    {
      BindAllLastWins(methods, calls, n);
    }
  }

  /** An instance of a generated `<Name>Servicer` class. */
  class Servicer {
    var methods: map<string, Attr>

    /** `service.service()`: every declared RPC answers UNIMPLEMENTED. */
    constructor (declared: set<string>)
      ensures methods == map n | n in declared :: Unimplemented
      ensures AdaptersWellFormed(methods)
    {
      methods := map n | n in declared :: Unimplemented;
    }

    /** The `setattr` loop of `serve_forever` over one RPC module's calls. */
    method BindRpcCalls(calls: seq<Service.Binding>)
      modifies this
      ensures methods == BindAll(old(methods), calls)
    {
      var i := 0;
      while i < |calls|
        invariant 0 <= i <= |calls|
        invariant BindAll(old(methods), calls) == BindAll(methods, calls[i..])
      {
        assert calls[i..][1..] == calls[i + 1..];
        methods := methods[calls[i].name := Bound(GetRpcMethod(calls[i]))];
        i := i + 1;
      }
      assert calls[i..] == [];
    }
  }
}
