/** The per-call request lifecycle of grpc_django/views.py: principal
    extraction from call metadata, the authentication gate, object and
    queryset resolution, serialization into the response message, and the
    two call shapes (RetrieveGRPCView, ServerStreamGRPCView) that turn every
    exception raised after construction into a default response message. */
module Views {
  import opened Base

  /** The name of a protobuf message class (`response_proto`). */
  type ProtoName = string

  /** A response message: its class and the fields `dict_to_protobuf` gave
      values; a field absent here is at its default. (A request, by
      contrast, is a Record holding every declared field.) */
  datatype Message = Message(proto: ProtoName, fields: Record)

  /** What `json.loads` produces. */
  datatype Json =
    | JNull
    | JBool(b: bool)
    | JNumber(n: int)
    | JString(s: string)
    | JArray(items: seq<Json>)
    | JObject(members: map<string, Json>)

  /** Django's AnonymousUser, or a ContextUser built from the payload's keys. */
  datatype Principal = AnonymousUser | ContextUser(fields: map<string, Json>)

  /** The gRPC servicer context: the invocation metadata and the status
      sink the exception handler writes to. */
  datatype Context = Context(metadata: seq<(string, string)>, status: string)

  /** The collaborators the views call but whose code is not part of this
      model: the settings key of the principal's metadata entry,
      `json.loads`, `dict_to_protobuf(proto, values, ignore_none=True)` (the
      fields it sets) and `ExceptionHandler(context)(ex, trace)`. */
  datatype Env = Env(
    authUserMetaKey: string,
    jsonLoads: string -> Result<Json, Exc>,
    dictToProtobuf: (ProtoName, Record) -> Result<Record, Exc>,
    exceptionHandler: (Context, Exc) -> Context)

  /** Which `__call__` a view class has. */
  datatype ViewKind = GenericView | RetrieveView | ServerStreamView

  /** A view class: the class attributes of GenericGrpcView and the methods
      a subclass may override (`get_queryset`, `get_object`,
      `check_object_permissions`). An overriding `get_queryset` computes,
      from the requesting user and the request, rows or an exception. An overriding `get_object` receives the requesting user, the
      request, `lookup_kwarg` and what calling `get_queryset()` would give,
      which it may ignore. */
  datatype ViewClass = ViewClass(
    name: string,
    kind: ViewKind,
    queryset: Option<seq<Record>>,
    serializerClass: Option<Record -> Result<Record, Exc>>,
    responseProto: Option<ProtoName>,
    requiresAuthentication: bool,
    lookupKwarg: string,
    lookupField: string,
    getQuerysetOverride: Option<(Principal, Record) -> Result<seq<Record>, Exc>>,
    getObjectOverride: Option<(Principal, Record, string, Result<seq<Record>, Exc>) -> Result<Record, Exc>>,
    checkObjectPermissions: (Principal, Record) -> Outcome<Exc>)

  /** The class attributes a subclass inherits from GenericGrpcView. */
  function DeclareView(name: string, kind: ViewKind): (c: ViewClass)
    ensures c.name == name && c.kind == kind
    ensures c.queryset.None? && c.serializerClass.None? && c.responseProto.None?
    ensures !c.requiresAuthentication && c.lookupKwarg == "id" && c.lookupField == "pk"
    ensures c.getQuerysetOverride.None? && c.getObjectOverride.None?
    ensures forall u, o :: c.checkObjectPermissions(u, o) == Pass
  {
    ViewClass(name, kind, None, None, None, false, "id", "pk", None, None, (u, o) => Pass)
  }

  const MISSING_RESPONSE_PROTO: string := "Missing response_proto declaration"
  const NOT_CALLABLE: string := "'NoneType' object is not callable"

  // ---------------------------------------------------------------------
  // Principal extraction (get_user)
  // ---------------------------------------------------------------------

  /** The position of the last metadata pair whose key is `key`, or -1. */
  function LastKeyIndex(md: seq<(string, string)>, key: string): (k: int)
    ensures -1 <= k < |md|
    ensures k >= 0 ==> md[k].0 == key
    ensures forall j :: k < j < |md| ==> md[j].0 != key
  {
    if md == [] then -1
    else if md[|md| - 1].0 == key then |md| - 1
    else LastKeyIndex(md[..|md| - 1], key)
  }

  /** `dict(metadata).get(key)`: a later pair for the same key overrides an
      earlier one, so the value is that of the last pair with the key. */
  function MetadataLookup(md: seq<(string, string)>, key: string): (r: Option<string>)
    ensures r.None? <==> forall i :: 0 <= i < |md| ==> md[i].0 != key
    ensures r.Some? ==> (key, r.value) in md
    ensures r.Some? ==> r.value == md[LastKeyIndex(md, key)].1
  {
    var k := LastKeyIndex(md, key);
    if k < 0 then None else Some(md[k].1)
  }

  /** The metadata entry that carries the principal, '{}' when absent. */
  function UserPayload(env: Env, context: Context): string {
    MetadataLookup(context.metadata, env.authUserMetaKey).GetOr("{}")
  }

  /** Python's `len` on a decoded payload. */
  function PayloadLen(j: Json): (r: Result<nat, Exc>)
    ensures r.Success? <==> (j.JString? || j.JArray? || j.JObject?)
    ensures j.JObject? ==> r == Success(|j.members|)
  {
    match j
    case JString(s) => Success(|s|)
    case JArray(items) => Success(|items|)
    case JObject(m) => Success(|m|)
    case _ => Failure(TypeError("object has no len()"))
  }

  /** `GenericGrpcView.get_user(context)`: a payload that decodes to null or
      to something empty is the anonymous user; a non-empty object becomes a
      ContextUser with its keys; anything else raises. */
  function GetUser(env: Env, context: Context): (r: Result<Principal, Exc>)
    ensures r == Success(AnonymousUser) <==>
      var j := env.jsonLoads(UserPayload(env, context));
      j.Success? && (j.value.JNull? || PayloadLen(j.value) == Success(0))
    ensures r.Success? && r.value.ContextUser? <==>
      var j := env.jsonLoads(UserPayload(env, context));
      j.Success? && j.value.JObject? && j.value.members != map[]
    ensures r.Success? && r.value.ContextUser? ==>
      env.jsonLoads(UserPayload(env, context)) == Success(JObject(r.value.fields))
  {
    var j :- env.jsonLoads(UserPayload(env, context));
    if j.JNull? then Success(AnonymousUser)
    else
      var n :- PayloadLen(j);
      if n == 0 then Success(AnonymousUser)
      else if j.JObject? then Success(ContextUser(j.members))
      else Failure(TypeError("argument after ** must be a mapping"))
  }

  /** Without the principal's metadata entry the payload is '{}', which
      decodes to an empty object: the caller is anonymous. */
  lemma AbsentPrincipalIsAnonymous(env: Env, context: Context)
    requires env.jsonLoads("{}") == Success(JObject(map[]))
    requires forall i :: 0 <= i < |context.metadata| ==> context.metadata[i].0 != env.authUserMetaKey
    ensures GetUser(env, context) == Success(AnonymousUser)
  {
  }

  /** `GenericGrpcView.__init__`: the response class must be declared, then
      the principal is resolved (outside any exception handler). */
  function Construct(cls: ViewClass, env: Env, context: Context): (r: Result<Principal, Exc>)
    ensures cls.responseProto.None? ==> r == Failure(AssertionError(MISSING_RESPONSE_PROTO))
    ensures cls.responseProto.Some? ==> r == GetUser(env, context)
  {
    if cls.responseProto.None? then Failure(AssertionError(MISSING_RESPONSE_PROTO))
    else GetUser(env, context)
  }

  // ---------------------------------------------------------------------
  // Authentication, queryset and object resolution
  // ---------------------------------------------------------------------

  /** `perform_authentication(user)`. */
  function PerformAuthentication(cls: ViewClass, user: Principal): (r: Outcome<Exc>)
    ensures r.Fail? <==> cls.requiresAuthentication && user.AnonymousUser?
    ensures r.Fail? ==> r.error == NotAuthenticated
  {
    if cls.requiresAuthentication && user.AnonymousUser? then Fail(NotAuthenticated) else Pass
  }

  /** `get_queryset()`: what an override returns or raises, else the class
      attribute (re-evaluated, same rows), else an AssertionError. */
  function GetQueryset(cls: ViewClass, user: Principal, request: Record): (r: Result<seq<Record>, Exc>)
    ensures cls.getQuerysetOverride.None? ==> (r.Failure? <==> cls.queryset.None?)
    ensures cls.getQuerysetOverride.None? && cls.queryset.None? ==>
      r.Failure? && r.error.AssertionError?
    ensures cls.getQuerysetOverride.Some? ==> r == cls.getQuerysetOverride.value(user, request)
    ensures cls.getQuerysetOverride.None? && cls.queryset.Some? ==> r == Success(cls.queryset.value)
  {
    if cls.getQuerysetOverride.Some? then cls.getQuerysetOverride.value(user, request)
    else if cls.queryset.None? then
      Failure(AssertionError(cls.name + "' should either include a `queryset` attribute, " +
                             "or override the `get_queryset()` method."))
    else Success(cls.queryset.value)
  }

  /** A row's value for a lookup field; `pk` names the primary key `id`. */
  function Attribute(row: Record, field: string): Option<Value> {
    var key := if field == "pk" then "id" else field;
    if key in row then Some(row[key]) else None
  }

  /** The positions of the rows whose `field` equals `v`. */
  function MatchingIndices(rows: seq<Record>, field: string, v: Value): set<int> {
    set i | 0 <= i < |rows| && Attribute(rows[i], field) == Some(v)
  }

  /** The rows whose `field` equals `v`: one entry per matching position. */
  function Matching(rows: seq<Record>, field: string, v: Value): (m: seq<Record>)
    ensures |m| == |MatchingIndices(rows, field, v)| <= |rows|
    ensures forall x :: x in m ==> x in rows && Attribute(x, field) == Some(v)
    ensures forall i :: 0 <= i < |rows| && Attribute(rows[i], field) == Some(v) ==> rows[i] in m
    decreases |rows|
  {
    if rows == [] then []
    else
      var init := rows[..|rows| - 1];
      var last := rows[|rows| - 1];
      var prior := Matching(init, field, v);
      MatchingIndicesExtend(rows, field, v);
      assert rows == init + [last];
      if Attribute(last, field) == Some(v) then
        assert |MatchingIndices(rows, field, v)| == |prior| + 1;
        prior + [last]
      else
        prior
  }

  /** Appending a row adds its position to the matching ones exactly when it
      matches. */
  lemma MatchingIndicesExtend(rows: seq<Record>, field: string, v: Value)
    requires rows != []
    ensures var n := |rows| - 1;
      && n !in MatchingIndices(rows[..n], field, v)
      && MatchingIndices(rows, field, v) ==
           MatchingIndices(rows[..n], field, v) + (if Attribute(rows[n], field) == Some(v) then {n} else {})
  {
    var n := |rows| - 1;
    assert forall i :: 0 <= i < n ==> rows[..n][i] == rows[i];
  }

  const NO_MATCH: string := "matching query does not exist."

  /** `queryset.get(**{field: v})`: the row at the one matching position;
      ObjectDoesNotExist when no row matches and MultipleObjectsReturned when
      several do. */
  function QuerysetGet(rows: seq<Record>, field: string, v: Value): (r: Result<Record, Exc>)
    ensures r.Success? <==> |MatchingIndices(rows, field, v)| == 1
    ensures r.Success? ==> exists i :: i in MatchingIndices(rows, field, v) && r.value == rows[i]
    ensures MatchingIndices(rows, field, v) == {} ==> r == Failure(ObjectDoesNotExist(NO_MATCH))
    ensures |MatchingIndices(rows, field, v)| >= 2 ==>
      r == Failure(MultipleObjectsReturned(|MatchingIndices(rows, field, v)|))
  {
    var m := Matching(rows, field, v);
    if |m| == 1 then
      assert m[0] in m;
      Success(m[0])
    else if |m| == 0 then Failure(ObjectDoesNotExist(NO_MATCH))
    else Failure(MultipleObjectsReturned(|m|))
  }

  /** `get_object()`. Without an override: a request lacking `lookup_kwarg`
      is rejected before the queryset is consulted; a queryset failure, no
      match or several matches raise; otherwise the one matching row is
      returned once `check_object_permissions` accepts it. */
  function GetObject(cls: ViewClass, request: Record, user: Principal): (r: Result<Record, Exc>)
    ensures cls.getObjectOverride.None? && cls.lookupKwarg !in request ==>
      r == Failure(InvalidArgument("Missing argument " + cls.lookupKwarg))
    ensures cls.getObjectOverride.None? && cls.lookupKwarg in request && GetQueryset(cls, user, request).Failure? ==>
      r == Failure(GetQueryset(cls, user, request).error)
    ensures cls.getObjectOverride.None? && cls.lookupKwarg in request && GetQueryset(cls, user, request).Success? ==>
      var matches := MatchingIndices(GetQueryset(cls, user, request).value, cls.lookupField, request[cls.lookupKwarg]);
      && (matches == {} ==> r == Failure(ObjectDoesNotExist(NO_MATCH)))
      && (|matches| >= 2 ==> r == Failure(MultipleObjectsReturned(|matches|)))
      && (|matches| == 1 ==>
            var obj := QuerysetGet(GetQueryset(cls, user, request).value, cls.lookupField, request[cls.lookupKwarg]).value;
            r == (match cls.checkObjectPermissions(user, obj)
                  case Fail(e) => Failure(e)
                  case Pass => Success(obj)))
    ensures cls.getObjectOverride.None? && r.Success? ==>
      && cls.lookupKwarg in request
      && GetQueryset(cls, user, request).Success?
      && r.value in GetQueryset(cls, user, request).value
      && Attribute(r.value, cls.lookupField) == Some(request[cls.lookupKwarg])
      && cls.checkObjectPermissions(user, r.value) == Pass
    ensures cls.getObjectOverride.Some? ==>
      r == cls.getObjectOverride.value(user, request, cls.lookupKwarg, GetQueryset(cls, user, request))
  {
    if cls.getObjectOverride.Some? then
      cls.getObjectOverride.value(user, request, cls.lookupKwarg, GetQueryset(cls, user, request))
    else if cls.lookupKwarg !in request then
      Failure(InvalidArgument("Missing argument " + cls.lookupKwarg))
    else
      var rows :- GetQueryset(cls, user, request);
      var obj :- QuerysetGet(rows, cls.lookupField, request[cls.lookupKwarg]);
      match cls.checkObjectPermissions(user, obj)
      case Fail(e) => Failure(e)
      case Pass => Success(obj)
  }

  /** With the permissive default hook, the base `get_object` succeeds
      exactly when the argument is present, the queryset resolves and one
      row matches. */
  lemma GetObjectWithPermissiveHook(cls: ViewClass, request: Record, user: Principal)
    requires cls.getObjectOverride.None?
    requires forall u, o :: cls.checkObjectPermissions(u, o) == Pass
    ensures GetObject(cls, request, user).Success? <==>
      && cls.lookupKwarg in request
      && GetQueryset(cls, user, request).Success?
      && |MatchingIndices(GetQueryset(cls, user, request).value, cls.lookupField, request[cls.lookupKwarg])| == 1
  {
  }

  // ---------------------------------------------------------------------
  // Serialization
  // ---------------------------------------------------------------------

  /** `serializer_class(obj).data`; a missing serializer class is None,
      and calling None raises TypeError. */
  function Serialize(cls: ViewClass, obj: Record): (r: Result<Record, Exc>)
    ensures cls.serializerClass.None? ==> r == Failure(TypeError(NOT_CALLABLE))
    ensures cls.serializerClass.Some? ==> r == cls.serializerClass.value(obj)
  {
    match cls.serializerClass
    case None => Failure(TypeError(NOT_CALLABLE))
    case Some(serializer) => serializer(obj)
  }

  /** `dict_to_protobuf(response_proto, values=data, ignore_none=True)`:
      always a message of the view's response class. */
  function ToMessage(cls: ViewClass, env: Env, data: Record): (r: Result<Message, Exc>)
    requires cls.responseProto.Some?
    ensures r.Success? <==> env.dictToProtobuf(cls.responseProto.value, data).Success?
    ensures r.Success? ==>
      r.value == Message(cls.responseProto.value, env.dictToProtobuf(cls.responseProto.value, data).value)
  {
    var fields :- env.dictToProtobuf(cls.responseProto.value, data);
    Success(Message(cls.responseProto.value, fields))
  }

  /** `response_proto()`: the message with every field at its default. */
  function DefaultMessage(cls: ViewClass): (m: Message)
    requires cls.responseProto.Some?
    ensures m.proto == cls.responseProto.value && m.fields == map[]
  {
    Message(cls.responseProto.value, map[])
  }

  /** One queryset row through the serializer and into a message. */
  function RowMessage(cls: ViewClass, env: Env, row: Record): (r: Result<Message, Exc>)
    requires cls.responseProto.Some?
    ensures r.Success? <==> Serialize(cls, row).Success? && ToMessage(cls, env, Serialize(cls, row).value).Success?
    ensures r.Success? ==> r.value.proto == cls.responseProto.value
  {
    var data :- Serialize(cls, row);
    ToMessage(cls, env, data)
  }

  // ---------------------------------------------------------------------
  // RetrieveGRPCView
  // ---------------------------------------------------------------------

  /** `RetrieveGRPCView.retrieve()`: the serialized object. */
  function RetrieveData(cls: ViewClass, request: Record, user: Principal): (r: Result<Record, Exc>)
    ensures r.Success? ==> GetObject(cls, request, user).Success? &&
                           r == Serialize(cls, GetObject(cls, request, user).value)
    ensures GetObject(cls, request, user).Failure? ==> r == Failure(GetObject(cls, request, user).error)
  {
    var obj :- GetObject(cls, request, user);
    Serialize(cls, obj)
  }

  /** The body of the `try` in `RetrieveGRPCView.__call__`: authenticate,
      retrieve, convert. */
  function RetrieveOutcome(cls: ViewClass, env: Env, user: Principal, request: Record): (r: Result<Message, Exc>)
    requires cls.responseProto.Some?
    ensures PerformAuthentication(cls, user).Fail? ==> r == Failure(NotAuthenticated)
    ensures PerformAuthentication(cls, user).Pass? && RetrieveData(cls, request, user).Failure? ==>
      r == Failure(RetrieveData(cls, request, user).error)
    ensures PerformAuthentication(cls, user).Pass? && RetrieveData(cls, request, user).Success? &&
            ToMessage(cls, env, RetrieveData(cls, request, user).value).Failure? ==>
      r == Failure(ToMessage(cls, env, RetrieveData(cls, request, user).value).error)
    ensures r.Success? ==> && PerformAuthentication(cls, user).Pass?
                           && RetrieveData(cls, request, user).Success?
                           && r == ToMessage(cls, env, RetrieveData(cls, request, user).value)
  {
    match PerformAuthentication(cls, user)
    case Fail(e) => Failure(e)
    case Pass =>
      var data :- RetrieveData(cls, request, user);
      ToMessage(cls, env, data)
  }

  /** `RetrieveGRPCView.__call__` after construction: the message and the
      context it leaves. Every exception becomes a default message and a
      call of the exception handler; nothing is raised. */
  function RetrieveResponse(cls: ViewClass, env: Env, user: Principal, request: Record,
                            context: Context): (r: (Message, Context))
    requires cls.responseProto.Some?
    ensures r.0.proto == cls.responseProto.value
    ensures RetrieveOutcome(cls, env, user, request).Success? ==>
      r == (RetrieveOutcome(cls, env, user, request).value, context)
    ensures RetrieveOutcome(cls, env, user, request).Failure? ==>
      r == (DefaultMessage(cls), env.exceptionHandler(context, RetrieveOutcome(cls, env, user, request).error))
  {
    match RetrieveOutcome(cls, env, user, request)
    case Success(m) => (m, context)
    case Failure(e) => (DefaultMessage(cls), env.exceptionHandler(context, e))
  }

  /** A lookup value that no row of the queryset has is answered with a
      default message, and the handler sees ObjectDoesNotExist. */
  lemma RetrieveNoMatch(cls: ViewClass, env: Env, user: Principal, request: Record, context: Context)
    requires cls.responseProto.Some? && cls.getObjectOverride.None?
    requires PerformAuthentication(cls, user).Pass? && cls.lookupKwarg in request
    requires GetQueryset(cls, user, request).Success?
    requires forall i :: 0 <= i < |GetQueryset(cls, user, request).value| ==>
      Attribute(GetQueryset(cls, user, request).value[i], cls.lookupField) != Some(request[cls.lookupKwarg])
    ensures RetrieveResponse(cls, env, user, request, context)
         == (DefaultMessage(cls), env.exceptionHandler(context, ObjectDoesNotExist(NO_MATCH)))
  {
    assert MatchingIndices(GetQueryset(cls, user, request).value, cls.lookupField, request[cls.lookupKwarg]) == {};
  }

  /** The gate comes first: an anonymous caller of a view that requires
      authentication gets the same answer whatever the request and the
      data, so nothing of the resolution is observable. */
  lemma RetrieveAuthenticationGate(cls: ViewClass, env: Env, request: Record, other: Record,
                                   context: Context)
    requires cls.responseProto.Some? && cls.requiresAuthentication
    ensures RetrieveResponse(cls, env, AnonymousUser, request, context)
         == (DefaultMessage(cls), env.exceptionHandler(context, NotAuthenticated))
         == RetrieveResponse(cls, env, AnonymousUser, other, context)
  {
  }

  /** A request without the lookup argument is answered with a default
      message and InvalidArgument, even when the class has no queryset. */
  lemma RetrieveMissingLookupArgument(cls: ViewClass, env: Env, user: Principal, request: Record,
                                      context: Context)
    requires cls.responseProto.Some? && cls.getObjectOverride.None?
    requires PerformAuthentication(cls, user).Pass? && cls.lookupKwarg !in request
    ensures RetrieveResponse(cls, env, user, request, context)
         == (DefaultMessage(cls),
             env.exceptionHandler(context, InvalidArgument("Missing argument " + cls.lookupKwarg)))
  {
  }

  // ---------------------------------------------------------------------
  // ServerStreamGRPCView
  // ---------------------------------------------------------------------

  /** What the `for obj in queryset` loop yields over `rows`, and the
      exception that ended it, if any. EmitYields states what that is. */
  function Emit(cls: ViewClass, env: Env, rows: seq<Record>): (seq<Message>, Option<Exc>)
    requires cls.responseProto.Some?
  {
    if rows == [] then ([], None)
    else
      match RowMessage(cls, env, rows[0])
      case Failure(e) => ([DefaultMessage(cls)], Some(e))
      case Success(m) =>
        var rest := Emit(cls, env, rows[1..]);
        ([m] + rest.0, rest.1)
  }

  /** The loop yields the rows' messages in order; when a row fails, the
      messages before it, then one default message, and that row's
      exception is the one handed on. */
  lemma {:induction false} EmitYields(cls: ViewClass, env: Env, rows: seq<Record>)
    requires cls.responseProto.Some?
    ensures var r := Emit(cls, env, rows);
      && (r.1.None? <==> forall j :: 0 <= j < |rows| ==> RowMessage(cls, env, rows[j]).Success?)
      && (r.1.None? ==> |r.0| == |rows|)
      && (r.1.None? ==> forall j :: 0 <= j < |rows| ==> r.0[j] == RowMessage(cls, env, rows[j]).value)
      && (r.1.Some? ==>
            && 1 <= |r.0| <= |rows|
            && RowMessage(cls, env, rows[|r.0| - 1]) == Failure(r.1.value)
            && r.0[|r.0| - 1] == DefaultMessage(cls)
            && forall j :: 0 <= j < |r.0| - 1 ==>
                 RowMessage(cls, env, rows[j]).Success? && r.0[j] == RowMessage(cls, env, rows[j]).value)
  {
    if rows != [] && RowMessage(cls, env, rows[0]).Success? {
      EmitYields(cls, env, rows[1..]);
      var rest := Emit(cls, env, rows[1..]);
      var out := [RowMessage(cls, env, rows[0]).value] + rest.0;
      assert forall j :: 1 <= j < |rows| ==> rows[j] == rows[1..][j - 1];
      assert forall j :: 1 <= j < |out| ==> out[j] == rest.0[j - 1];
    }
  }

  /** `ServerStreamGRPCView.__call__` after construction: the messages it
      yields and the context it leaves. */
  function StreamResponse(cls: ViewClass, env: Env, user: Principal, request: Record, context: Context): (r: (seq<Message>, Context))
    requires cls.responseProto.Some?
    ensures |r.0| >= 1 || (GetQueryset(cls, user, request).Success? && r == ([], context))
    ensures PerformAuthentication(cls, user).Pass? && GetQueryset(cls, user, request).Failure? ==>
      r == ([DefaultMessage(cls)], env.exceptionHandler(context, GetQueryset(cls, user, request).error))
    ensures forall j :: 0 <= j < |r.0| ==> r.0[j].proto == cls.responseProto.value
  {
    match PerformAuthentication(cls, user)
    case Fail(e) => ([DefaultMessage(cls)], env.exceptionHandler(context, e))
    case Pass =>
      match GetQueryset(cls, user, request)
      case Failure(e) => ([DefaultMessage(cls)], env.exceptionHandler(context, e))
      case Success(rows) =>
        EmitYields(cls, env, rows);
        var (out, err) := Emit(cls, env, rows);
        if err.Some? then (out, env.exceptionHandler(context, err.value)) else (out, context)
  }

  /** When every row converts, the stream yields exactly one message per
      row, in queryset order, and leaves the context alone. */
  lemma StreamOnePerRow(cls: ViewClass, env: Env, user: Principal, request: Record, context: Context)
    requires cls.responseProto.Some? && PerformAuthentication(cls, user).Pass?
    requires GetQueryset(cls, user, request).Success?
    requires forall j :: 0 <= j < |GetQueryset(cls, user, request).value| ==>
      RowMessage(cls, env, GetQueryset(cls, user, request).value[j]).Success?
    ensures var rows := GetQueryset(cls, user, request).value;
      var r := StreamResponse(cls, env, user, request, context);
      && |r.0| == |rows| && r.1 == context
      && forall j :: 0 <= j < |rows| ==> r.0[j] == RowMessage(cls, env, rows[j]).value
  {
    EmitYields(cls, env, GetQueryset(cls, user, request).value);
  }

  /** When row `k` is the first that fails, the stream keeps the `k`
      messages already yielded, adds one default message and ends, and the
      exception handler sees that row's exception. */
  lemma StreamFailsAtRow(cls: ViewClass, env: Env, user: Principal, request: Record, context: Context, k: nat)
    requires cls.responseProto.Some? && PerformAuthentication(cls, user).Pass?
    requires GetQueryset(cls, user, request).Success? && k < |GetQueryset(cls, user, request).value|
    requires forall j :: 0 <= j < k ==> RowMessage(cls, env, GetQueryset(cls, user, request).value[j]).Success?
    requires RowMessage(cls, env, GetQueryset(cls, user, request).value[k]).Failure?
    ensures var rows := GetQueryset(cls, user, request).value;
      var r := StreamResponse(cls, env, user, request, context);
      && |r.0| == k + 1
      && (forall j :: 0 <= j < k ==> r.0[j] == RowMessage(cls, env, rows[j]).value)
      && r.0[k] == DefaultMessage(cls)
      && r.1 == env.exceptionHandler(context, RowMessage(cls, env, rows[k]).error)
  {
    EmitYields(cls, env, GetQueryset(cls, user, request).value);
  }

  /** The gate holds for streams too: one default message, whatever the data. */
  lemma StreamAuthenticationGate(cls: ViewClass, env: Env, request: Record, context: Context)
    requires cls.responseProto.Some? && cls.requiresAuthentication
    ensures StreamResponse(cls, env, AnonymousUser, request, context)
         == ([DefaultMessage(cls)], env.exceptionHandler(context, NotAuthenticated))
  {
  }

  /** One step of the loop: the stream from row `i` on begins with row
      `i`'s message, or ends there with the default message. */
  lemma EmitStep(cls: ViewClass, env: Env, rows: seq<Record>, i: nat)
    requires cls.responseProto.Some? && i < |rows|
    ensures var m := RowMessage(cls, env, rows[i]);
      Emit(cls, env, rows[i..]) ==
        if m.Failure? then ([DefaultMessage(cls)], Some(m.error))
        else ([m.value] + Emit(cls, env, rows[i + 1..]).0, Emit(cls, env, rows[i + 1..]).1)
  {
    assert rows[i..][0] == rows[i] && rows[i..][1..] == rows[i + 1..];
  }

  /** The `for obj in queryset` loop of `ServerStreamGRPCView.__call__`: the
      messages yielded, and the exception that left the loop early, if any
      (after which the caller yields one default message). */
  method YieldRows(cls: ViewClass, env: Env, rows: seq<Record>) returns (out: seq<Message>, error: Option<Exc>)
    requires cls.responseProto.Some?
    ensures (out, error) == Emit(cls, env, rows)
  {
    out := [];
    var i := 0;
    assert rows[0..] == rows;
    while i < |rows|
      invariant 0 <= i <= |rows|
      invariant Emit(cls, env, rows).0 == out + Emit(cls, env, rows[i..]).0
      invariant Emit(cls, env, rows).1 == Emit(cls, env, rows[i..]).1
    {
      var message := RowMessage(cls, env, rows[i]);
      EmitStep(cls, env, rows, i);
      if message.Failure? {
        out, error := out + [DefaultMessage(cls)], Some(message.error);
        return;
      }
      assert (out + [message.value]) + Emit(cls, env, rows[i + 1..]).0
          == out + ([message.value] + Emit(cls, env, rows[i + 1..]).0);
      out := out + [message.value];
      i := i + 1;
    }
    assert rows[i..] == [] && out + [] == out;
    error := None;
  }

  // ---------------------------------------------------------------------
  // The view object
  // ---------------------------------------------------------------------

  /** One view instance, built per call from the request and the context. */
  class GrpcView {
    const cls: ViewClass
    const env: Env
    var requestUser: Principal
    var request: Record
    var context: Context

    /** `GenericGrpcView.__init__`, for the arguments it does not reject. */
    constructor (cls: ViewClass, env: Env, request: Record, context: Context)
      requires Construct(cls, env, context).Success?
      ensures this.cls == cls && this.env == env
      ensures this.requestUser == Construct(cls, env, context).value
      ensures this.request == request && this.context == context
    {
      this.cls := cls;
      this.env := env;
      this.requestUser := GetUser(env, context).value;
      this.request := request;
      this.context := context;
    }

    /** `RetrieveGRPCView.__call__`. */
    method Retrieve() returns (m: Message)
      requires cls.responseProto.Some?
      modifies this
      ensures requestUser == old(requestUser) && request == old(request)
      ensures (m, context) == RetrieveResponse(cls, env, requestUser, request, old(context))
    {
      var outcome := RetrieveOutcome(cls, env, requestUser, request);
      if outcome.Failure? {
        context := env.exceptionHandler(context, outcome.error);
        m := DefaultMessage(cls);
      } else {
        m := outcome.value;
      }
    }

    /** `ServerStreamGRPCView.__call__`: the yielded messages, in order. */
    method Stream() returns (out: seq<Message>)
      requires cls.responseProto.Some?
      modifies this
      ensures requestUser == old(requestUser) && request == old(request)
      ensures (out, context) == StreamResponse(cls, env, requestUser, request, old(context))
    {
      var auth := PerformAuthentication(cls, requestUser);
      if auth.Fail? {
        context := env.exceptionHandler(context, auth.error);
        return [DefaultMessage(cls)];
      }
      var queryset := GetQueryset(cls, requestUser, request);
      if queryset.Failure? {
        context := env.exceptionHandler(context, queryset.error);
        return [DefaultMessage(cls)];
      }
      var error;
      out, error := YieldRows(cls, env, queryset.value);
      if error.Some? {
        context := env.exceptionHandler(context, error.value);
      }
    }
  }
}
