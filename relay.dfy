/** The Socket.IO event handlers of server.js: the routing decisions as
    functions of the registry, one step of the server as a function of the
    inbound event, and the server itself as an object whose registry and
    emitted events change as the handlers run. */
module Relay {
  import opened Seqs
  import opened Json
  import opened Registry
  import opened EventNames

  /** `socket.emit(event, payload)` on the socket whose id is `target`. */
  datatype Emission = Emission(target: string, event: string, payload: Value)

  const ReceiveMessage: string := "receiveMessage"
  const MessageSent: string := "messageSent"
  const NoAdminAvailable: string := "No admin available"
  const UserNotFound: string := "User not found"
  const InternalServerError: string := "Internal server error"

  /** `{ success: true }` */
  const AckOk: Value := Obj(map["success" := Bool(true)])

  /** `{ success: false, error: error }` */
  function AckError(error: string): Value {
    Obj(map["success" := Bool(false), "error" := Str(error)])
  }

  /** The events names the directed handlers listen to. */
  predicate UserToAdminEvent(event: string) {
    event == "userRegister" || event == "userVerify"
  }

  predicate AdminToUserEvent(event: string) {
    event == "adminRegister" || event == "adminLoginId" || event == "adminPasswordCode"
  }

  /** What `userRegister` and `userVerify` emit for `message` from `sender`. */
  function ToAdmin(users: seq<ConnectedUser>, sender: string, message: Value): seq<Emission> {
    match FindAdmin(users)
    case Some(admin) =>
      [Emission(admin.socketId, ReceiveMessage, message), Emission(sender, MessageSent, AckOk)]
    case None =>
      [Emission(sender, MessageSent, AckError(NoAdminAvailable))]
  }

  /** What `adminRegister`, `adminLoginId` and `adminPasswordCode` emit for the
      payload `data` from `sender`. Reading `data.receiveuserId` of a null or
      undefined payload throws inside the handler's `try`, and the `catch`
      acknowledges with the internal-error message. */
  function ToUser(users: seq<ConnectedUser>, sender: string, data: Value): seq<Emission> {
    if Nullish(data) then
      [Emission(sender, MessageSent, AckError(InternalServerError))]
    else
      match FindUser(users, Field(data, "receiveuserId"))
      case Some(recipient) =>
        [Emission(recipient.socketId, ReceiveMessage, Field(data, "message")), Emission(sender, MessageSent, AckOk)]
      case None =>
        [Emission(sender, MessageSent, AckError(UserNotFound))]
  }

  /** What the handler of a request event emits: the payload back to the
      sender under the computed name, then the acknowledgment. */
  function Echo(sender: string, eventName: string, data: Value): seq<Emission> {
    [Emission(sender, ResponseEvent(eventName), data), Emission(sender, AckEvent(eventName), AckOk)]
  }

  /** The outcome of one handler run: the new registry, the emissions in
      order, and whether an exception escaped the handler. */
  datatype Effect = Effect(users: seq<ConnectedUser>, emitted: seq<Emission>, escaped: bool)

  /** One inbound event `event` with payload `data` on the connection
      `sender`, run to completion. `live` holds the ids of the sockets that
      are connected when the event is handled. `register`, `userRegister` and
      `userVerify` destructure their payload in the parameter list, outside
      any `try`, so a null or undefined payload throws out of the handler
      before it changes or emits anything. `upgrade`, `error` and the
      server-side `connect_error` have no effect on the registry or on the
      emitted events; an event with no handler does nothing. */
  function Step(users: seq<ConnectedUser>, sender: string, event: string, data: Value, live: set<string>): Effect {
    if event == "register" then
      if Nullish(data) then Effect(users, [], true)
      else Effect(Registered(users, sender, Field(data, "userId"), Field(data, "role")), [], false)
    else if UserToAdminEvent(event) then
      if Nullish(data) then Effect(users, [], true)
      else Effect(users, ToAdmin(users, sender, Field(data, "message")), false)
    else if AdminToUserEvent(event) then
      Effect(users, ToUser(users, sender, data), false)
    else if event in RequestEvents then
      Effect(users, Echo(sender, event, data), false)
    else if event == "disconnect" then
      Effect(Disconnected(users, sender, live), [], false)
    else
      Effect(users, [], false)
  }

  // ---------------------------------------------------------------------
  // Directed routing

  /** User to admin: the acknowledgment is the no-admin error exactly when no
      entry has the admin role, and then nothing else is emitted. */
  lemma ToAdminFailsIffNoAdmin(users: seq<ConnectedUser>, sender: string, message: Value)
    ensures ToAdmin(users, sender, message) == [Emission(sender, MessageSent, AckError(NoAdminAvailable))]
        <==> forall i :: 0 <= i < |users| ==> !IsAdmin(users[i])
  {
    assert AckOk != AckError(NoAdminAvailable) by {
      assert AckOk.fields["success"] != AckError(NoAdminAvailable).fields["success"];
    }
  }

  /** User to admin: with an admin registered, the message goes to the first
      admin in registry order, and the sender is acknowledged with success. */
  lemma ToAdminReachesFirstAdmin(users: seq<ConnectedUser>, sender: string, message: Value, k: nat)
    requires k < |users| && IsAdmin(users[k])
    requires forall j :: 0 <= j < k ==> !IsAdmin(users[j])
    ensures ToAdmin(users, sender, message)
         == [Emission(users[k].socketId, ReceiveMessage, message), Emission(sender, MessageSent, AckOk)]
  {
    FindAdminIsFirstAdmin(users, k);
  }

  /** Admin to user: the registered recipient gets the message, and the
      sender is acknowledged with success. */
  lemma ToUserReachesRecipient(users: seq<ConnectedUser>, sender: string, data: Value, k: nat)
    requires UniqueUserIds(users) && !Nullish(data)
    requires k < |users| && StrictEq(users[k].userId, Field(data, "receiveuserId"))
    ensures ToUser(users, sender, data)
         == [Emission(users[k].socketId, ReceiveMessage, Field(data, "message")), Emission(sender, MessageSent, AckOk)]
  {
    FindUserIsTheEntry(users, Field(data, "receiveuserId"), k);
  }

  /** Admin to user: the acknowledgment is the not-found error exactly when no
      entry's id strictly equals `data.receiveuserId`, and then nothing is
      forwarded. */
  lemma ToUserFailsIffNotFound(users: seq<ConnectedUser>, sender: string, data: Value)
    requires !Nullish(data)
    ensures ToUser(users, sender, data) == [Emission(sender, MessageSent, AckError(UserNotFound))]
        <==> forall i :: 0 <= i < |users| ==> !StrictEq(users[i].userId, Field(data, "receiveuserId"))
  {
    assert AckOk != AckError(UserNotFound) by {
      assert AckOk.fields["success"] != AckError(UserNotFound).fields["success"];
    }
    var target := Field(data, "receiveuserId");
    if forall i :: 0 <= i < |users| ==> !StrictEq(users[i].userId, target) {
      assert forall i :: 0 <= i < |users| ==> !SameUser(target)(users[i]);
    }
  }

  // ---------------------------------------------------------------------
  // One step of the server

  /** Every handler keeps the user ids of the registry unique. */
  lemma StepKeepsUnique(users: seq<ConnectedUser>, sender: string, event: string, data: Value, live: set<string>)
    requires UniqueUserIds(users)
    ensures UniqueUserIds(Step(users, sender, event, data, live).users)
  {
    if event == "register" && !Nullish(data) {
      RegisterKeepsUnique(users, sender, Field(data, "userId"), Field(data, "role"));
    } else if event == "disconnect" {
      DisconnectKeepsUnique(users, sender, live);
    }
  }

  /** The directed handlers neither change the registry nor let an exception
      escape on a payload that is an object. */
  lemma DirectedEventsKeepRegistry(users: seq<ConnectedUser>, sender: string, event: string, data: Value, live: set<string>)
    requires UserToAdminEvent(event) || AdminToUserEvent(event)
    ensures Step(users, sender, event, data, live).users == users
    ensures data.Obj? ==> !Step(users, sender, event, data, live).escaped
  {
  }

  /** A request event neither reads nor changes the registry: the sender gets
      the unchanged payload under the name of the table, then
      `<event>Ack` with `{ success: true }`. */
  lemma RequestEventEchoes(users: seq<ConnectedUser>, sender: string, i: nat, data: Value, live: set<string>)
    requires i < |RequestEvents|
    ensures Step(users, sender, RequestEvents[i], data, live)
         == Effect(users, [Emission(sender, ResponseEvents[i], data), Emission(sender, RequestEvents[i] + "Ack", AckOk)], false)
  {
    ResponseEventAt(i);
    assert RequestEvents[i] in RequestEvents;
    NotDirected(i);
  }

  /** No request event is also a directed event, `register` or `disconnect`. */
  lemma NotDirected(i: nat)
    requires i < |RequestEvents|
    ensures var e := RequestEvents[i];
      !UserToAdminEvent(e) && !AdminToUserEvent(e) && e != "register" && e != "disconnect"
  {
  }
}
