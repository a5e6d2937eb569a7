/** The RPC module of the test project, tests/rpcs.py: two users, a
    retrieve view `GetUser` whose `get_object` searches them linearly, a
    stream view `ListUsers` over them, and the list binding the two RPC
    names to these views. */
module Rpcs {
  import opened Base
  import opened Interfaces
  import opened Views
  import Service
  import RunGrpcServer

  /** The generated `test_pb2.User` message class. */
  const USER_PROTO: ProtoName := "User"

  const NOT_FOUND: string := "User matching query does not exists."

  /** One entry of `USERS`. */
  function UserRecord(id: int, name: string, username: string): Record {
    map["id" := VInt(id), "name" := VStr(name), "username" := VStr(username)]
  }

  const USERS: seq<Record> := [
    UserRecord(1, "Clay Jenson", "clay.jenson"),
    UserRecord(2, "Clary Fairchild", "clary.fairchild")
  ]

  /** `GetUser.get_object`'s loop: the first user whose "id" equals the
      request's `lookup_kwarg` field; ObjectDoesNotExist when none does. The
      row's "id" is read before the request's field, so a row without one
      raises KeyError and a request whose message type has no such field
      raises AttributeError, but only once there is a row to compare. */
  function FindUser(users: seq<Record>, request: Record, kwarg: string): (r: Result<Record, Exc>)
    ensures r.Success? ==> r.value in users && kwarg in request && "id" in r.value && r.value["id"] == request[kwarg]
    ensures users == [] ==> r == Failure(ObjectDoesNotExist(NOT_FOUND))
  {
    if users == [] then Failure(ObjectDoesNotExist(NOT_FOUND))
    else if "id" !in users[0] then Failure(KeyError("id"))
    else if kwarg !in request then Failure(AttributeError(kwarg))
    else if users[0]["id"] == request[kwarg] then Success(users[0])
    else FindUser(users[1..], request, kwarg)
  }

  /** Users that all carry an "id". */
  predicate AllHaveId(users: seq<Record>) {
    forall i :: 0 <= i < |users| ==> "id" in users[i]
  }

  /** The search returns the first match, not merely some match. */
  lemma {:induction false} FindUserFirstMatch(users: seq<Record>, request: Record, kwarg: string, k: int)
    requires AllHaveId(users) && kwarg in request
    requires 0 <= k < |users| && users[k]["id"] == request[kwarg]
    requires forall j :: 0 <= j < k ==> users[j]["id"] != request[kwarg]
    ensures FindUser(users, request, kwarg) == Success(users[k])
    decreases k
  {
    if k > 0 {
      assert forall j :: 0 <= j < |users| - 1 ==> users[1..][j] == users[j + 1];
      FindUserFirstMatch(users[1..], request, kwarg, k - 1);
    }
  }

  /** With no match the search ends in ObjectDoesNotExist. */
  lemma {:induction false} FindUserNoMatch(users: seq<Record>, request: Record, kwarg: string)
    requires AllHaveId(users) && kwarg in request
    requires forall j :: 0 <= j < |users| ==> users[j]["id"] != request[kwarg]
    ensures FindUser(users, request, kwarg) == Failure(ObjectDoesNotExist(NOT_FOUND))
    decreases |users|
  {
    if users != [] {
      assert forall j :: 0 <= j < |users| - 1 ==> users[1..][j] == users[j + 1];
      FindUserNoMatch(users[1..], request, kwarg);
    }
  }

  /** `UserSerializer(obj).data`: the wrapped object itself. */
  function UserSerializerData(obj: Record): (data: Record)
    ensures data == obj
  {
    obj
  }

  /** `get_queryset` of both views: USERS, whoever asks and whatever the
      request. */
  function AllUsers(user: Principal, request: Record): Result<seq<Record>, Exc> {
    Success(USERS)
  }

  /** `GetUser.get_object`: `self.get_queryset()`, whose exception would
      propagate, then the search. */
  function GetUserObject(user: Principal, request: Record, kwarg: string,
                         queryset: Result<seq<Record>, Exc>): Result<Record, Exc> {
    match queryset
    case Failure(e) => Failure(e)
    case Success(rows) => FindUser(rows, request, kwarg)
  }

  /** The `GetUser` view class. */
  function GetUserView(): (c: ViewClass)
    ensures c.kind == RetrieveView && c.responseProto == Some(USER_PROTO)
    ensures c.lookupKwarg == "id" && !c.requiresAuthentication
    ensures c.getQuerysetOverride.Some? && c.getObjectOverride.Some?
    ensures forall user, request :: c.getQuerysetOverride.value(user, request) == Success(USERS)
    ensures forall user, request, kwarg, rows ::
      c.getObjectOverride.value(user, request, kwarg, Success(rows)) == FindUser(rows, request, kwarg)
    ensures forall user, request, kwarg, e ::
      c.getObjectOverride.value(user, request, kwarg, Failure(e)) == Failure(e)
    ensures c.serializerClass.Some? && forall obj :: c.serializerClass.value(obj) == Success(obj)
  {
    DeclareView("GetUser", RetrieveView).(
      responseProto := Some(USER_PROTO),
      serializerClass := Some(obj => Success(UserSerializerData(obj))),
      getQuerysetOverride := Some(AllUsers),
      getObjectOverride := Some(GetUserObject))
  }

  /** The `ListUsers` view class. */
  function ListUsersView(): (c: ViewClass)
    ensures c.kind == ServerStreamView && c.responseProto == Some(USER_PROTO)
    ensures !c.requiresAuthentication && c.getQuerysetOverride.Some?
    ensures forall user, request :: c.getQuerysetOverride.value(user, request) == Success(USERS)
    ensures c.serializerClass.Some? && forall obj :: c.serializerClass.value(obj) == Success(obj)
  {
    DeclareView("ListUsers", ServerStreamView).(
      responseProto := Some(USER_PROTO),
      serializerClass := Some(obj => Success(UserSerializerData(obj))),
      getQuerysetOverride := Some(AllUsers))
  }

  /** The module's binding list. */
  const RPCS: seq<Service.Binding> := [Rpc("GetUser", GetUserView()), Rpc("ListUsers", ListUsersView())]

  /** A request asking for the user `id`. */
  function UserRequest(id: int): Record {
    map["id" := VInt(id)]
  }

  /** Asking for user 1 retrieves Clay Jenson's record, which is what the
      message is built from. */
  lemma RetrieveExistingUser(user: Principal)
    ensures RetrieveData(GetUserView(), UserRequest(1), user) == Success(USERS[0])
    ensures USERS[0]["name"] == VStr("Clay Jenson")
  {
    FindUserFirstMatch(USERS, UserRequest(1), "id", 0);
  }

  /** The whole answer for user 1: the message converted from Clay Jenson's
      record, and the context untouched. */
  lemma RetrieveExistingUserResponse(env: Env, user: Principal, context: Context)
    requires env.dictToProtobuf(USER_PROTO, USERS[0]).Success?
    ensures RetrieveResponse(GetUserView(), env, user, UserRequest(1), context)
         == (Message(USER_PROTO, env.dictToProtobuf(USER_PROTO, USERS[0]).value), context)
  {
    RetrieveExistingUser(user);
  }

  /** Asking for user 99 fails with ObjectDoesNotExist; the call still
      answers, with an empty User, and the handler sees the exception. */
  lemma RetrieveMissingUser(env: Env, user: Principal, context: Context)
    ensures RetrieveData(GetUserView(), UserRequest(99), user) == Failure(ObjectDoesNotExist(NOT_FOUND))
    ensures RetrieveResponse(GetUserView(), env, user, UserRequest(99), context)
         == (Message(USER_PROTO, map[]), env.exceptionHandler(context, ObjectDoesNotExist(NOT_FOUND)))
  {
    FindUserNoMatch(USERS, UserRequest(99), "id");
  }

  /** `ListUsers` yields both users, in list order, once each converts. */
  lemma ListUsersStreamsBoth(env: Env, user: Principal, request: Record, context: Context)
    requires env.dictToProtobuf(USER_PROTO, USERS[0]).Success?
    requires env.dictToProtobuf(USER_PROTO, USERS[1]).Success?
    ensures StreamResponse(ListUsersView(), env, user, request, context) ==
      ([Message(USER_PROTO, env.dictToProtobuf(USER_PROTO, USERS[0]).value),
        Message(USER_PROTO, env.dictToProtobuf(USER_PROTO, USERS[1]).value)], context)
  {
    var cls := ListUsersView();
    assert GetQueryset(cls, user, request) == Success(USERS);
    assert RowMessage(cls, env, USERS[0]) == Success(Message(USER_PROTO, env.dictToProtobuf(USER_PROTO, USERS[0]).value));
    assert RowMessage(cls, env, USERS[1]) == Success(Message(USER_PROTO, env.dictToProtobuf(USER_PROTO, USERS[1]).value));
    StreamOnePerRow(cls, env, user, request, context);
    var r := StreamResponse(cls, env, user, request, context);
    assert |r.0| == 2 && r.0[0] == RowMessage(cls, env, USERS[0]).value && r.0[1] == RowMessage(cls, env, USERS[1]).value;
    assert r.0 == [r.0[0], r.0[1]];
  }

  /** Binding the module onto a servicer gives `GetUser` the unary adapter
      and `ListUsers` the streaming one. */
  lemma BindingsOfTheModule(methods: map<string, RunGrpcServer.Attr>)
    ensures var r := RunGrpcServer.BindAll(methods, RPCS);
      && "GetUser" in r && r["GetUser"] == RunGrpcServer.Bound(RunGrpcServer.UnaryMethod(GetUserView()))
      && "ListUsers" in r && r["ListUsers"] == RunGrpcServer.Bound(RunGrpcServer.StreamingMethod(ListUsersView()))
  {
    assert RPCS[0].name != RPCS[1].name;
    RunGrpcServer.BindAllLastWins(methods, RPCS, "GetUser");
    RunGrpcServer.BindAllLastWins(methods, RPCS, "ListUsers");
  }
}
