/** The relay process of server.js: the module-level `connectedUsers` array
    and the events emitted so far, updated in place by the handlers. */
module Server {
  import opened Seqs
  import opened Json
  import opened Registry
  import opened EventNames
  import opened Relay

  class RelayServer {
    var connectedUsers: seq<ConnectedUser>
    /** Every `socket.emit` the handlers have made, oldest first. */
    var outbox: seq<Emission>

    ghost predicate Valid()
      reads this
    {
      UniqueUserIds(connectedUsers)
    }

    constructor ()
      ensures Valid()
      ensures connectedUsers == [] && outbox == []
    {
      connectedUsers := [];
      outbox := [];
    }

    /** `socket.emit(event, payload)` on the socket with id `target`. */
    method Emit(target: string, event: string, payload: Value)
      modifies this`outbox
      ensures outbox == old(outbox) + [Emission(target, event, payload)]
    {
      outbox := outbox + [Emission(target, event, payload)];
    }

    /** The `register` handler. */
    method Register(socketId: string, userId: Value, role: Value)
      requires Valid()
      modifies this`connectedUsers
      ensures Valid()
      ensures connectedUsers == Registered(old(connectedUsers), socketId, userId, role)
    {
      RegisterKeepsUnique(connectedUsers, socketId, userId, role);
      connectedUsers := Filter(connectedUsers, OtherUser(userId));
      connectedUsers := connectedUsers + [ConnectedUser(socketId, userId, role)];
    }

    /** The `userRegister` and `userVerify` handlers, after destructuring. */
    method RouteToAdmin(sender: string, message: Value)
      modifies this`outbox
      ensures outbox == old(outbox) + ToAdmin(connectedUsers, sender, message)
    {
      var recipientAdmin := FindAdmin(connectedUsers);
      if recipientAdmin.Some? {
        Emit(recipientAdmin.value.socketId, ReceiveMessage, message);
        Emit(sender, MessageSent, AckOk);
      } else {
        Emit(sender, MessageSent, AckError(NoAdminAvailable));
      }
    }

    /** The `adminRegister`, `adminLoginId` and `adminPasswordCode` handlers. */
    method RouteToUser(sender: string, data: Value)
      modifies this`outbox
      ensures outbox == old(outbox) + ToUser(connectedUsers, sender, data)
    {
      if Nullish(data) {
        Emit(sender, MessageSent, AckError(InternalServerError));
      } else {
        var recipient := FindUser(connectedUsers, Field(data, "receiveuserId"));
        if recipient.Some? {
          Emit(recipient.value.socketId, ReceiveMessage, Field(data, "message"));
          Emit(sender, MessageSent, AckOk);
        } else {
          Emit(sender, MessageSent, AckError(UserNotFound));
        }
      }
    }

    /** The handler registered for each name of `requestEvents`. */
    method EchoRequest(sender: string, eventName: string, data: Value)
      modifies this`outbox
      ensures outbox == old(outbox) + Echo(sender, eventName, data)
    {
      var responseEvent := ResponseEvent(eventName);
      Emit(sender, responseEvent, data);
      Emit(sender, AckEvent(eventName), AckOk);
    }

    /** `cleanupDisconnectedUsers`, run by the timer and by `disconnect`. */
    method CleanupDisconnectedUsers(live: set<string>)
      requires Valid()
      modifies this`connectedUsers
      ensures Valid()
      ensures connectedUsers == CleanedUp(old(connectedUsers), live)
    {
      CleanupKeepsUnique(connectedUsers, live);
      connectedUsers := Filter(connectedUsers, Connected(live));
    }

    /** The `disconnect` handler of the socket `socketId`. */
    method Disconnect(socketId: string, live: set<string>)
      requires Valid()
      modifies this`connectedUsers
      ensures Valid()
      ensures connectedUsers == Disconnected(old(connectedUsers), socketId, live)
    {
      FilterKeepsUnique(connectedUsers, OtherSocket(socketId));
      connectedUsers := Filter(connectedUsers, OtherSocket(socketId));
      CleanupDisconnectedUsers(live);
    }

    /** Socket.IO delivering `event` with payload `data` on the connection
        `sender`: the handler registered for that name, if any, runs to
        completion. `escaped` reports an exception thrown out of it. */
    method Handle(sender: string, event: string, data: Value, live: set<string>) returns (escaped: bool)
      requires Valid()
      modifies this
      ensures Valid()
      ensures connectedUsers == Step(old(connectedUsers), sender, event, data, live).users
      ensures outbox == old(outbox) + Step(old(connectedUsers), sender, event, data, live).emitted
      ensures escaped == Step(old(connectedUsers), sender, event, data, live).escaped
    {
      escaped := false;
      if event == "register" {
        if Nullish(data) {
          escaped := true;
        } else {
          Register(sender, Field(data, "userId"), Field(data, "role"));
        }
      } else if UserToAdminEvent(event) {
        if Nullish(data) {
          escaped := true;
        } else {
          RouteToAdmin(sender, Field(data, "message"));
        }
      } else if AdminToUserEvent(event) {
        RouteToUser(sender, data);
      } else if event in RequestEvents {
        EchoRequest(sender, event, data);
      } else if event == "disconnect" {
        Disconnect(sender, live);
      }
    }
  }

  /** The scenario of a user registering twice from two sockets, then an
      admin reply: the reply reaches the second socket only. */
  method ReRegistrationScenario() returns (server: RelayServer)
    ensures server.Valid()
    ensures |server.connectedUsers| == 1 && server.connectedUsers[0].socketId == "s2"
    ensures server.outbox == [Emission("s2", ReceiveMessage, Str("m")), Emission("a1", MessageSent, AckOk)]
  {
    server := new RelayServer();
    server.Register("s1", Str("u1"), Str("user"));
    server.Register("s2", Str("u1"), Str("user"));
    assert server.connectedUsers == [ConnectedUser("s2", Str("u1"), Str("user"))];
    server.RouteToUser("a1", Obj(map["receiveuserId" := Str("u1"), "message" := Str("m")]));
  }

  /** An admin registers, then a user sends `userVerify`: the admin's socket
      receives the message and the sender is acknowledged. */
  method UserVerifyScenario() returns (server: RelayServer)
    ensures server.outbox == [Emission("a1", ReceiveMessage, Str("m")), Emission("c1", MessageSent, AckOk)]
  {
    server := new RelayServer();
    var escaped := server.Handle("a1", "register", Obj(map["userId" := Str("admin1"), "role" := Str("admin")]), {"a1"});
    escaped := server.Handle("c1", "userVerify", Obj(map["userId" := Str("u1"), "message" := Str("m")]), {"a1", "c1"});
  }

  /** With nothing registered, `registerRequest` is echoed to its sender as
      `registerRecieve` and acknowledged as `registerRequestAck`. */
  method RegisterRequestScenario() returns (server: RelayServer)
    ensures server.connectedUsers == []
    ensures server.outbox == [
      Emission("c1", "registerRecieve", Obj(map["x" := Num(1)])),
      Emission("c1", "registerRequestAck", AckOk)]
  {
    server := new RelayServer();
    var registerRequest := RequestEvents[0];
    RequestEventEchoes([], "c1", 0, Obj(map["x" := Num(1)]), {"c1"});
    var escaped := server.Handle("c1", registerRequest, Obj(map["x" := Num(1)]), {"c1"});
    assert ResponseEvents[0] == "registerRecieve";
    assert RequestEvents[0] + "Ack" == "registerRequestAck";
  }
}
