/** The configuration records of grpc_django/interfaces.py: the `rpc` pair
    and the constructors of IService, IServer and ISettings, with Python's
    truthiness deciding when a default replaces an argument. */
module Interfaces {
  import opened Base

  /** The `rpc(name, view)` named tuple: one binding of an RPC name to a
      view class. */
  datatype Rpc<V> = Rpc(name: string, view: V)

  /** A Python argument whose type the constructor does not know in advance. */
  datatype PyArg = PyNone | PyInt(i: int) | PyBool(b: bool) | PyStr(s: string)

  /** Python truthiness: None, 0, False and '' are false. */
  predicate Truthy(a: PyArg) {
    match a
    case PyNone => false
    case PyInt(i) => i != 0
    case PyBool(b) => b
    case PyStr(s) => s != ""
  }

  /** `type(a) == int`; `bool` is a subclass of `int` but not `int` itself. */
  predicate IsExactlyInt(a: PyArg) {
    a.PyInt?
  }

  /** A string argument that may be None; None and '' are falsy. */
  predicate TruthyStr(s: Option<string>) {
    s.Some? && s.value != ""
  }

  const DEFAULT_STUB_MODULE: string := "grpc_codegen"
  const DEFAULT_SERVER_PORT: int := 55000
  const DEFAULT_WORKER_COUNT: int := 1
  const DEFAULT_AUTHENTICATION_KEY: string := "user"
  const DEFAULT_CODEGEN_LOCATION: string := "grpc_codegen"

  const PORT_TYPE_ERROR: string := "Invalid port provided, should be int"
  const WORKERS_TYPE_ERROR: string := "Invalid num_of_workers provided, should be int"

  datatype IService = IService(
    name: string,
    packageName: string,
    protoPath: string,
    rpcConf: string,
    stubConf: string)

  datatype IServer = IServer(port: int, numOfWorkers: int)

  datatype ISettings = ISettings(
    services: seq<IService>,
    server: IServer,
    authUserKey: string,
    stubs: string)

  /** `IService(name, package_name, proto_path, rpc_conf, stub_conf)`. */
  function NewIService(name: string, packageName: string, protoPath: string, rpcConf: string,
                       stubConf: Option<string>): (r: IService)
    ensures r.name == name && r.packageName == packageName
    ensures r.protoPath == protoPath && r.rpcConf == rpcConf
    ensures r.stubConf != ""
    ensures TruthyStr(stubConf) ==> r.stubConf == stubConf.value
    ensures !TruthyStr(stubConf) ==> r.stubConf == DEFAULT_STUB_MODULE
  {
    IService(name, packageName, protoPath, rpcConf,
             if TruthyStr(stubConf) then stubConf.value else DEFAULT_STUB_MODULE)
  }

  /** `IServer(port, num_of_workers)`: a truthy argument that is not exactly
      an int raises TypeError, the port being checked first; a falsy one is
      replaced by the default, so neither stored value is ever falsy. */
  function NewIServer(port: PyArg, numOfWorkers: PyArg): (r: Result<IServer, Exc>)
    ensures r.Failure? <==>
      (Truthy(port) && !IsExactlyInt(port)) || (Truthy(numOfWorkers) && !IsExactlyInt(numOfWorkers))
    ensures Truthy(port) && !IsExactlyInt(port) ==> r == Failure(TypeError(PORT_TYPE_ERROR))
    ensures !(Truthy(port) && !IsExactlyInt(port)) && Truthy(numOfWorkers) && !IsExactlyInt(numOfWorkers) ==>
      r == Failure(TypeError(WORKERS_TYPE_ERROR))
    ensures r.Success? ==> r.value.port != 0 && r.value.numOfWorkers != 0
    ensures r.Success? && Truthy(port) ==> r.value.port == port.i
    ensures r.Success? && Truthy(numOfWorkers) ==> r.value.numOfWorkers == numOfWorkers.i
    ensures r.Success? && !Truthy(port) ==> r.value.port == DEFAULT_SERVER_PORT
    ensures r.Success? && !Truthy(numOfWorkers) ==> r.value.numOfWorkers == DEFAULT_WORKER_COUNT
  {
    if Truthy(port) && !IsExactlyInt(port) then Failure(TypeError(PORT_TYPE_ERROR))
    else
      var p := if Truthy(port) then port.i else DEFAULT_SERVER_PORT;
      if Truthy(numOfWorkers) && !IsExactlyInt(numOfWorkers) then Failure(TypeError(WORKERS_TYPE_ERROR))
      else
        var w := if Truthy(numOfWorkers) then numOfWorkers.i else DEFAULT_WORKER_COUNT;
        Success(IServer(p, w))
  }

  /** `IServer()`: both arguments None. */
  function DefaultIServer(): (s: IServer)
    ensures s.port == 55000 && s.numOfWorkers == 1
  {
    NewIServer(PyNone, PyNone).value
  }

  /** A settings object as the constructor leaves it: an authentication key
      and a server whose values are never falsy. The stubs location may be ''. */
  predicate SettingsInvariant(s: ISettings) {
    s.authUserKey != "" && s.server.port != 0 && s.server.numOfWorkers != 0
  }

  /** `ISettings(services, server, auth_user_key, stubs)`: an absent server
      becomes `IServer()`, a falsy key becomes 'user', and only a None stubs
      location (not '') becomes 'grpc_codegen'. */
  function NewISettings(services: seq<IService>, server: Option<IServer>,
                        authUserKey: Option<string>, stubs: Option<string>): (r: ISettings)
    ensures r.authUserKey != ""
    ensures server.None? ==> SettingsInvariant(r)
    ensures r.services == services
    ensures r.server == server.GetOr(IServer(DEFAULT_SERVER_PORT, DEFAULT_WORKER_COUNT))
    ensures TruthyStr(authUserKey) ==> r.authUserKey == authUserKey.value
    ensures !TruthyStr(authUserKey) ==> r.authUserKey == DEFAULT_AUTHENTICATION_KEY
    ensures stubs.Some? ==> r.stubs == stubs.value
    ensures stubs.None? ==> r.stubs == DEFAULT_CODEGEN_LOCATION
  {
    ISettings(
      services,
      if server.Some? then server.value else DefaultIServer(),
      if TruthyStr(authUserKey) then authUserKey.value else DEFAULT_AUTHENTICATION_KEY,
      if stubs.Some? then stubs.value else DEFAULT_CODEGEN_LOCATION)
  }

  /** Settings built around a server that IServer accepted keep the invariant. */
  lemma BuiltServerFitsSettings(port: PyArg, numOfWorkers: PyArg, services: seq<IService>,
                                authUserKey: Option<string>, stubs: Option<string>)
    requires NewIServer(port, numOfWorkers).Success?
    ensures SettingsInvariant(NewISettings(services, Some(NewIServer(port, numOfWorkers).value), authUserKey, stubs))
  {
  }

  /** Port 0 is falsy and falls back to 55000. */
  lemma PortZeroFallsBack()
    ensures NewIServer(PyInt(0), PyNone) == Success(IServer(55000, 1))
  {
  }

  /** `True` is truthy and its type is `bool`, not `int`. */
  lemma PortTrueRejected()
    ensures NewIServer(PyBool(true), PyNone) == Failure(TypeError(PORT_TYPE_ERROR))
  {
  }

  /** A port given as a string is rejected; `False` or '' fall back. */
  lemma PortStringRejectedFalsyFallsBack(s: string)
    requires s != ""
    ensures NewIServer(PyStr(s), PyNone).Failure?
    ensures NewIServer(PyBool(false), PyStr("")) == Success(IServer(55000, 1))
  {
  }

  /** The stubs location keeps '' while the authentication key replaces it. */
  lemma EmptyStubsKeptEmptyKeyReplaced(services: seq<IService>)
    ensures NewISettings(services, None, Some(""), Some("")).stubs == ""
    ensures NewISettings(services, None, Some(""), Some("")).authUserKey == "user"
    ensures NewISettings(services, None, None, None).server == IServer(55000, 1)
  {
  }

  /** An empty stub_conf is falsy and falls back, unlike ISettings' stubs. */
  lemma EmptyStubConfFallsBack(name: string, packageName: string, protoPath: string, rpcConf: string)
    ensures NewIService(name, packageName, protoPath, rpcConf, Some("")).stubConf == "grpc_codegen"
  {
  }
}
