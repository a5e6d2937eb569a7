/** GrpcService of grpc_django/service.py: the checks its constructor makes,
    the proto file name, and the names of the generated stub modules and
    of the symbols looked up in them. Loading a module by name
    (`importlib.import_module`) is a lookup in a given table. */
module Service {
  import opened Base
  import opened Strings
  import opened Interfaces
  import Views

  /** One entry of an RPC module's `rpc_calls`. */
  type Binding = Rpc<Views.ViewClass>

  /** A generated module as importlib returns it: the names it defines. */
  datatype StubModule = StubModule(symbols: set<string>)

  datatype GrpcService = GrpcService(
    name: string,
    protoPath: string,
    protoFilename: string,
    stubDestination: string,
    rpcs: seq<Binding>)

  /** `definition.get(key)` is truthy: present and not ''. */
  predicate Present(definition: map<string, string>, key: string) {
    key in definition && definition[key] != ""
  }

  /** `proto_path.split('/')[-1]`: the text after the last '/', all of the
      path when it has none. */
  function ProtoFilename(protoPath: string): (f: string)
    ensures '/' !in f && |f| <= |protoPath| && protoPath[|protoPath| - |f|..] == f
    ensures |f| == |protoPath| || protoPath[|protoPath| - |f| - 1] == '/'
    ensures '/' !in protoPath ==> f == protoPath
  {
    LastIsSuffix(protoPath, '/');
    if '/' !in protoPath then NoSeparatorIsWhole(protoPath, '/'); Last(protoPath, '/')
    else Last(protoPath, '/')
  }

  /** `importlib.import_module(path).rpc_calls`. */
  function GetRpcPaths(path: string, rpcModules: map<string, seq<Binding>>): (r: Result<seq<Binding>, Exc>)
    ensures r.Success? <==> path in rpcModules
    ensures r.Success? ==> r.value == rpcModules[path]
  {
    if path in rpcModules then Success(rpcModules[path]) else Failure(ImportError(path))
  }

  /** `GrpcService(name, definition, stub_destination)`: both `proto_path`
      and `rpc_path` must be given and non-empty, `proto_path` checked
      first, and the RPC module must load. */
  function NewGrpcService(name: string, definition: map<string, string>, stubDestination: string,
                          rpcModules: map<string, seq<Binding>>): (r: Result<GrpcService, Exc>)
    ensures r.Success? <==>
      Present(definition, "proto_path") && Present(definition, "rpc_path") &&
      definition["rpc_path"] in rpcModules
    ensures !Present(definition, "proto_path") ==>
      r == Failure(AssertionError("Missing setting proto_path for service " + name))
    ensures Present(definition, "proto_path") && !Present(definition, "rpc_path") ==>
      r == Failure(AssertionError("Missing setting rpc_path for service " + name))
    ensures r.Success? ==>
      && r.value.name == name && r.value.stubDestination == stubDestination
      && r.value.protoPath == definition["proto_path"]
      && r.value.protoFilename == ProtoFilename(definition["proto_path"])
      && r.value.rpcs == rpcModules[definition["rpc_path"]]
  {
    if !Present(definition, "proto_path") then
      Failure(AssertionError("Missing setting proto_path for service " + name))
    else if !Present(definition, "rpc_path") then
      Failure(AssertionError("Missing setting rpc_path for service " + name))
    else
      var protoPath := definition["proto_path"];
      var rpcs :- GetRpcPaths(definition["rpc_path"], rpcModules);
      Success(GrpcService(name, protoPath, ProtoFilename(protoPath), stubDestination, rpcs))
  }

  /** The package prefix of the generated modules: none for '.'. */
  function StubPrefix(stubDestination: string): (p: string)
    ensures stubDestination == "." ==> p == ""
    ensures stubDestination != "." ==> p == stubDestination + "."
  {
    if stubDestination != "." then stubDestination + "." else ""
  }

  /** `proto_filename.split('.')[0]`: the file name before its first '.'. */
  function Stem(protoFilename: string): (stem: string)
    ensures '.' !in stem && |stem| <= |protoFilename| && protoFilename[..|stem|] == stem
    ensures |stem| == |protoFilename| || protoFilename[|stem|] == '.'
  {
    FirstIsPrefix(protoFilename, '.');
    First(protoFilename, '.')
  }

  /** The two module names `find_stubs` imports: the messages module
      `<prefix><stem>_pb2` and the service module, the same name with
      `_grpc` appended. */
  function StubModuleNames(svc: GrpcService): (names: (string, string))
    ensures names.1 == names.0 + "_grpc"
    ensures names.0 == StubPrefix(svc.stubDestination) + Stem(svc.protoFilename) + "_pb2"
  {
    var pb := StubPrefix(svc.stubDestination) + Stem(svc.protoFilename) + "_pb2";
    (pb, pb + "_grpc")
  }

  /** The last dotted component of the messages module is always the
      proto file's stem followed by `_pb2`, whatever the destination. */
  lemma MessagesModuleLastComponent(svc: GrpcService)
    ensures Last(StubModuleNames(svc).0, '.') == Stem(svc.protoFilename) + "_pb2"
  {
    var tail := Stem(svc.protoFilename) + "_pb2";
    assert '.' !in tail by {
      assert forall i :: 0 <= i < |tail| - 4 ==> tail[i] == Stem(svc.protoFilename)[i];
    }
    if svc.stubDestination == "." {
      assert StubModuleNames(svc).0 == tail;
      NoSeparatorIsWhole(tail, '.');
    } else {
      assert StubModuleNames(svc).0 == svc.stubDestination + ['.'] + tail;
      LastAfterSeparator(svc.stubDestination, tail, '.');
    }
  }

  /** `find_stubs()`: import the messages module, then the service module. */
  function FindStubs(svc: GrpcService, modules: map<string, StubModule>): (r: Result<(StubModule, StubModule), Exc>)
    ensures var (pb, pbGrpc) := StubModuleNames(svc);
      && (r.Success? <==> pb in modules && pbGrpc in modules)
      && (pb !in modules ==> r == Failure(ImportError(pb)))
      && (pb in modules && pbGrpc !in modules ==> r == Failure(ImportError(pbGrpc)))
      && (r.Success? ==> r.value == (modules[pb], modules[pbGrpc]))
  {
    var (pb, pbGrpc) := StubModuleNames(svc);
    if pb !in modules then Failure(ImportError(pb))
    else if pbGrpc !in modules then Failure(ImportError(pbGrpc))
    else Success((modules[pb], modules[pbGrpc]))
  }

  /** `'add_{}Servicer_to_server'.format(name)`. */
  function ServerHandlerName(name: string): string {
    "add_" + name + "Servicer_to_server"
  }

  /** `'{}Servicer'.format(name)`. */
  function ServicerName(name: string): string {
    name + "Servicer"
  }

  /** The service name recovered from a server-handler symbol. */
  function NameOfServerHandler(symbol: string): string
    requires |symbol| >= |"add_"| + |"Servicer_to_server"|
  {
    symbol[|"add_"|..|symbol| - |"Servicer_to_server"|]
  }

  /** The service name recovered from a servicer symbol. */
  function NameOfServicer(symbol: string): string
    requires |symbol| >= |"Servicer"|
  {
    symbol[..|symbol| - |"Servicer"|]
  }

  /** Each symbol name determines the service name it was made from, so
      distinct services look up distinct symbols. */
  lemma SymbolNamesDetermineService(name: string, other: string)
    ensures NameOfServerHandler(ServerHandlerName(name)) == name
    ensures NameOfServicer(ServicerName(name)) == name
    ensures name != other ==> ServerHandlerName(name) != ServerHandlerName(other)
    ensures name != other ==> ServicerName(name) != ServicerName(other)
  {
    assert NameOfServerHandler(ServerHandlerName(name)) == name;
    assert NameOfServerHandler(ServerHandlerName(other)) == other;
    assert NameOfServicer(ServicerName(name)) == name;
    assert NameOfServicer(ServicerName(other)) == other;
  }

  /** `find_server_handler(pb_grpc)`: the symbol, or AttributeError when
      the module does not define it. */
  function FindServerHandler(svc: GrpcService, pbGrpc: StubModule): (r: Result<string, Exc>)
    ensures r.Success? <==> ServerHandlerName(svc.name) in pbGrpc.symbols
    ensures r.Success? ==> r.value == ServerHandlerName(svc.name)
    ensures r.Success? ==> |r.value| >= |"add_"| + |"Servicer_to_server"| && NameOfServerHandler(r.value) == svc.name
    ensures r.Failure? ==> r.error == AttributeError("No server handler found")
  {
    SymbolNamesDetermineService(svc.name, svc.name);
    var symbol := ServerHandlerName(svc.name);
    if symbol in pbGrpc.symbols then Success(symbol) else Failure(AttributeError("No server handler found"))
  }

  /** `find_servicer(pb_grpc)`: the servicer class, or AttributeError. */
  function FindServicer(svc: GrpcService, pbGrpc: StubModule): (r: Result<string, Exc>)
    ensures r.Success? <==> ServicerName(svc.name) in pbGrpc.symbols
    ensures r.Success? ==> r.value == ServicerName(svc.name)
    ensures r.Success? ==> |r.value| >= |"Servicer"| && NameOfServicer(r.value) == svc.name
    ensures r.Failure? ==> r.error == AttributeError("No servicer class found")
  {
    SymbolNamesDetermineService(svc.name, svc.name);
    var symbol := ServicerName(svc.name);
    if symbol in pbGrpc.symbols then Success(symbol) else Failure(AttributeError("No servicer class found"))
  }

  /** Only the segment after the last '/' is kept. */
  lemma ExampleProtoFilename()
    ensures ProtoFilename("protos/a.b.proto") == "a.b.proto"
  {
    var path := "protos/a.b.proto";
    assert path == "protos" + ['/'] + "a.b.proto";
    assert '/' !in "a.b.proto";
    LastAfterSeparator("protos", "a.b.proto", '/');
  }

  /** Only the text before the first '.' is kept: `a.b.proto` gives `a`. */
  lemma ExampleStem()
    ensures Stem("a.b.proto") == "a"
  {
    var f := "a.b.proto";
    assert f == "a" + ['.'] + "b.proto";
    assert '.' !in "a";
    SplitPrepend("a", "b.proto", '.');
    assert Split(f, '.')[0] == "a";
  }

  /** `test.proto` gives `test`. */
  lemma ExampleTestStem()
    ensures Stem("test.proto") == "test"
  {
    var f := "test.proto";
    assert f == "test" + ['.'] + "proto";
    assert '.' !in "test";
    SplitPrepend("test", "proto", '.');
  }

  /** The module names spelled out from the prefix and the stem. */
  lemma PackagedSpelling()
    ensures StubPrefix("grpc_codegen") + "a" + "_pb2" == "grpc_codegen.a_pb2"
    ensures "grpc_codegen.a_pb2" + "_grpc" == "grpc_codegen.a_pb2_grpc"
  {
  }

  lemma TopLevelSpelling()
    ensures StubPrefix(".") + "test" + "_pb2" == "test_pb2"
    ensures "test_pb2" + "_grpc" == "test_pb2_grpc"
  {
  }

  /** A file `protos/a.b.proto` generated into the package `grpc_codegen`. */
  lemma ExamplePackagedStubs(svc: GrpcService)
    requires svc.protoFilename == "a.b.proto" && svc.stubDestination == "grpc_codegen"
    ensures StubModuleNames(svc) == ("grpc_codegen.a_pb2", "grpc_codegen.a_pb2_grpc")
  {
    ExampleStem();
    PackagedSpelling();
  }

  /** A file `test.proto` generated at the top level with the destination '.'. */
  lemma ExampleTopLevelStubs(svc: GrpcService)
    requires svc.protoFilename == "test.proto" && svc.stubDestination == "."
    ensures StubModuleNames(svc) == ("test_pb2", "test_pb2_grpc")
  {
    ExampleTestStem();
    TopLevelSpelling();
  }
}
