/** The `connectedUsers` registry of server.js as a value: the functions that
    compute the registry after each operation, and what they guarantee. */
module Registry {
  import opened Seqs
  import opened Json

  /** One element of `connectedUsers`. The entry's socket is identified by
      `socketId`; whether it is connected is transport state and is passed to
      the operations that read it as `live`, the ids of the sockets whose
      `connected` flag is set. `connectedAt` is informational and left out. */
  datatype ConnectedUser = ConnectedUser(socketId: string, userId: Value, role: Value)

  /** `user.role === 'admin'`. */
  predicate IsAdmin(e: ConnectedUser) {
    e.role == Str("admin")
  }

  /** `user => user.userID !== userId` */
  function OtherUser(userId: Value): ConnectedUser -> bool {
    (e: ConnectedUser) => !StrictEq(e.userId, userId)
  }

  /** `user => user.userID === target` */
  function SameUser(target: Value): ConnectedUser -> bool {
    (e: ConnectedUser) => StrictEq(e.userId, target)
  }

  /** `item => item.socketId !== socketId` */
  function OtherSocket(socketId: string): ConnectedUser -> bool {
    (e: ConnectedUser) => e.socketId != socketId
  }

  /** `user => user.socket.connected` */
  function Connected(live: set<string>): ConnectedUser -> bool {
    (e: ConnectedUser) => e.socketId in live
  }

  /** What survives a disconnect of `socketId`: another socket, and a live one. */
  function Survives(socketId: string, live: set<string>): ConnectedUser -> bool {
    (e: ConnectedUser) => e.socketId != socketId && e.socketId in live
  }

  /** No two entries have strictly equal user ids. */
  predicate UniqueUserIds(users: seq<ConnectedUser>) {
    forall i, j :: 0 <= i < j < |users| ==> !StrictEq(users[i].userId, users[j].userId)
  }

  /** The registry after `register`: every entry of the same user removed,
      then the new entry appended. */
  function Registered(users: seq<ConnectedUser>, socketId: string, userId: Value, role: Value): seq<ConnectedUser> {
    Filter(users, OtherUser(userId)) + [ConnectedUser(socketId, userId, role)]
  }

  /** The registry after `cleanupDisconnectedUsers`. */
  function CleanedUp(users: seq<ConnectedUser>, live: set<string>): seq<ConnectedUser> {
    Filter(users, Connected(live))
  }

  /** The registry after the `disconnect` handler of socket `socketId`: its
      entries removed, then the cleanup sweep. */
  function Disconnected(users: seq<ConnectedUser>, socketId: string, live: set<string>): seq<ConnectedUser> {
    CleanedUp(Filter(users, OtherSocket(socketId)), live)
  }

  /** `connectedUsers.find(user => user.role === 'admin')` */
  function FindAdmin(users: seq<ConnectedUser>): Option<ConnectedUser> {
    First(users, IsAdmin)
  }

  /** `connectedUsers.find(user => user.userID === target)` */
  function FindUser(users: seq<ConnectedUser>, target: Value): Option<ConnectedUser> {
    First(users, SameUser(target))
  }

  // ---------------------------------------------------------------------
  // Uniqueness of user ids

  /** Any filter of a registry with unique user ids has unique user ids. */
  lemma {:induction false} FilterKeepsUnique(users: seq<ConnectedUser>, keep: ConnectedUser -> bool)
    requires UniqueUserIds(users)
    ensures UniqueUserIds(Filter(users, keep))
  {
    if |users| > 0 {
      var rest := users[1..];
      assert UniqueUserIds(rest) by {
        forall i, j | 0 <= i < j < |rest| ensures !StrictEq(rest[i].userId, rest[j].userId) {
          assert rest[i] == users[i + 1] && rest[j] == users[j + 1];
        }
      }
      FilterKeepsUnique(rest, keep);
      if keep(users[0]) {
        var f := Filter(rest, keep);
        forall j | 0 <= j < |f| ensures !StrictEq(users[0].userId, f[j].userId) {
          var k :| 0 <= k < |rest| && rest[k] == f[j];
          assert users[k + 1] == f[j];
        }
        assert Filter(users, keep) == [users[0]] + f;
      }
    }
  }

  /** `register` keeps user ids unique. */
  lemma RegisterKeepsUnique(users: seq<ConnectedUser>, socketId: string, userId: Value, role: Value)
    requires UniqueUserIds(users)
    ensures UniqueUserIds(Registered(users, socketId, userId, role))
  {
    var f := Filter(users, OtherUser(userId));
    FilterKeepsUnique(users, OtherUser(userId));
    forall i | 0 <= i < |f| ensures !StrictEq(f[i].userId, userId) {
      assert OtherUser(userId)(f[i]);
    }
  }

  /** The disconnect handler keeps user ids unique. */
  lemma DisconnectKeepsUnique(users: seq<ConnectedUser>, socketId: string, live: set<string>)
    requires UniqueUserIds(users)
    ensures UniqueUserIds(Disconnected(users, socketId, live))
  {
    FilterKeepsUnique(users, OtherSocket(socketId));
    FilterKeepsUnique(Filter(users, OtherSocket(socketId)), Connected(live));
  }

  /** The cleanup sweep keeps user ids unique. */
  lemma CleanupKeepsUnique(users: seq<ConnectedUser>, live: set<string>)
    requires UniqueUserIds(users)
    ensures UniqueUserIds(CleanedUp(users, live))
  {
    FilterKeepsUnique(users, Connected(live));
  }

  // ---------------------------------------------------------------------
  // register

  /** After `register` with a primitive id, the new entry is the last one and
      the only one of that user, and the entries of every other user are
      the old ones in their old order, whatever their socket. */
  lemma RegisterReplacesUser(users: seq<ConnectedUser>, socketId: string, userId: Value, role: Value)
    requires Primitive(userId)
    ensures var r := Registered(users, socketId, userId, role);
      && r[|r| - 1] == ConnectedUser(socketId, userId, role)
      && Filter(r, SameUser(userId)) == [ConnectedUser(socketId, userId, role)]
      && Filter(r, OtherUser(userId)) == Filter(users, OtherUser(userId))
  {
    var e := ConnectedUser(socketId, userId, role);
    var f := Filter(users, OtherUser(userId));
    FilterConcat(f, [e], SameUser(userId));
    FilterConcat(f, [e], OtherUser(userId));
    forall i | 0 <= i < |f| ensures !SameUser(userId)(f[i]) {
      assert OtherUser(userId)(f[i]);
    }
    FilterKeepsNone(f, SameUser(userId));
    FilterIdempotent(users, OtherUser(userId));
    assert Filter([e], SameUser(userId)) == [e] by {
      assert [e][1..] == [];
    }
    assert Filter([e], OtherUser(userId)) == [] by {
      assert [e][1..] == [];
    }
  }

  /** What a lookup by user id finds after `register`: the new entry when the
      ids are strictly equal, otherwise what it found before. */
  lemma FindUserAfterRegister(users: seq<ConnectedUser>, socketId: string, userId: Value, role: Value, target: Value)
    ensures FindUser(Registered(users, socketId, userId, role), target)
         == if StrictEq(userId, target) then Some(ConnectedUser(socketId, userId, role)) else FindUser(users, target)
  {
    var e := ConnectedUser(socketId, userId, role);
    var f := Filter(users, OtherUser(userId));
    FirstConcat(f, [e], SameUser(target));
    assert First([e], SameUser(target)) == if SameUser(target)(e) then Some(e) else None by {
      assert [e][1..] == [];
    }
    if StrictEq(userId, target) {
      assert First(f, SameUser(target)) == None by {
        forall i | 0 <= i < |f| ensures !SameUser(target)(f[i]) {
          assert OtherUser(userId)(f[i]);
        }
      }
    } else {
      FirstOfFilter(users, OtherUser(userId), SameUser(target));
    }
  }

  /** Registering the same primitive id twice in a row is registering it once. */
  lemma RegisterIdempotent(users: seq<ConnectedUser>, socketId: string, userId: Value, role: Value)
    requires Primitive(userId)
    ensures Registered(Registered(users, socketId, userId, role), socketId, userId, role)
         == Registered(users, socketId, userId, role)
  {
    RegisterReplacesUser(users, socketId, userId, role);
  }

  /** One `register` event: the sender's socket id and the payload's fields. */
  datatype Registration = Registration(socketId: string, userId: Value, role: Value)

  /** The registry after a series of `register` events, oldest first. */
  function RegisterAll(users: seq<ConnectedUser>, calls: seq<Registration>): seq<ConnectedUser>
    decreases |calls|
  {
    if |calls| == 0 then users
    else
      var last := calls[|calls| - 1];
      Registered(RegisterAll(users, calls[..|calls| - 1]), last.socketId, last.userId, last.role)
  }

  /** The entry the most recent registration of `target` created, if any. */
  function LatestRegistration(calls: seq<Registration>, target: Value): Option<ConnectedUser>
    decreases |calls|
  {
    if |calls| == 0 then None
    else
      var last := calls[|calls| - 1];
      if StrictEq(last.userId, target) then Some(ConnectedUser(last.socketId, last.userId, last.role))
      else LatestRegistration(calls[..|calls| - 1], target)
  }

  /** Last register wins: after any series of registrations, a lookup of a user
      finds the entry of the most recent registration of that user, or what it
      found before the series if the series never registered that user. */
  lemma {:induction false} MostRecentRegistrationWins(users: seq<ConnectedUser>, calls: seq<Registration>, target: Value)
    ensures FindUser(RegisterAll(users, calls), target)
         == if LatestRegistration(calls, target).Some? then LatestRegistration(calls, target) else FindUser(users, target)
    decreases |calls|
  {
    if |calls| > 0 {
      var last := calls[|calls| - 1];
      MostRecentRegistrationWins(users, calls[..|calls| - 1], target);
      FindUserAfterRegister(RegisterAll(users, calls[..|calls| - 1]), last.socketId, last.userId, last.role, target);
    }
  }

  // ---------------------------------------------------------------------
  // Lookups

  /** The admin found is the first entry, in registry order, whose role is
      `'admin'`. */
  lemma FindAdminIsFirstAdmin(users: seq<ConnectedUser>, k: nat)
    requires k < |users| && IsAdmin(users[k])
    requires forall j :: 0 <= j < k ==> !IsAdmin(users[j])
    ensures FindAdmin(users) == Some(users[k])
  {
    FirstIsEarliest(users, IsAdmin, k);
  }

  /** In a registry with unique user ids, the entry whose id strictly equals
      the target is the one found. */
  lemma FindUserIsTheEntry(users: seq<ConnectedUser>, target: Value, k: nat)
    requires UniqueUserIds(users)
    requires k < |users| && StrictEq(users[k].userId, target)
    ensures FindUser(users, target) == Some(users[k])
  {
    forall j | 0 <= j < k ensures !SameUser(target)(users[j]) {
      assert !StrictEq(users[j].userId, users[k].userId);
    }
    FirstIsEarliest(users, SameUser(target), k);
  }

  // ---------------------------------------------------------------------
  // disconnect and cleanup

  /** The disconnect handler removes exactly the entries of the disconnected
      socket and those of sockets that are no longer connected, and keeps
      everything else in order. */
  lemma DisconnectRemovesExactly(users: seq<ConnectedUser>, socketId: string, live: set<string>)
    ensures Disconnected(users, socketId, live) == Filter(users, Survives(socketId, live))
    ensures forall e :: e in Disconnected(users, socketId, live) <==>
      e in users && e.socketId != socketId && e.socketId in live
  {
    FilterFilter(users, OtherSocket(socketId), Connected(live), Survives(socketId, live));
    var r := Disconnected(users, socketId, live);
    forall e ensures e in r <==> e in users && e.socketId != socketId && e.socketId in live {
      if e in r {
        var i :| 0 <= i < |r| && r[i] == e;
      }
      if e in users && e.socketId != socketId && e.socketId in live {
        var i :| 0 <= i < |users| && users[i] == e;
        assert Survives(socketId, live)(users[i]);
      }
    }
  }

  /** The cleanup sweep keeps exactly the connected entries. */
  lemma CleanupKeepsConnected(users: seq<ConnectedUser>, live: set<string>)
    ensures forall e :: e in CleanedUp(users, live) <==> e in users && e.socketId in live
  {
    var r := CleanedUp(users, live);
    forall e ensures e in r <==> e in users && e.socketId in live {
      if e in r {
        var i :| 0 <= i < |r| && r[i] == e;
      }
      if e in users && e.socketId in live {
        var i :| 0 <= i < |users| && users[i] == e;
        assert Connected(live)(users[i]);
      }
    }
  }

  /** The sweep keeps the original order: sweeping a concatenation sweeps each
      part. */
  lemma CleanupKeepsOrder(a: seq<ConnectedUser>, b: seq<ConnectedUser>, live: set<string>)
    ensures CleanedUp(a + b, live) == CleanedUp(a, live) + CleanedUp(b, live)
  {
    FilterConcat(a, b, Connected(live));
  }

  /** Sweeping twice is sweeping once. */
  lemma CleanupIdempotent(users: seq<ConnectedUser>, live: set<string>)
    ensures CleanedUp(CleanedUp(users, live), live) == CleanedUp(users, live)
  {
    FilterIdempotent(users, Connected(live));
  }

  /** A periodic sweep right after a disconnect, with no change in which
      sockets are connected, changes nothing. */
  lemma CleanupAfterDisconnect(users: seq<ConnectedUser>, socketId: string, live: set<string>)
    ensures CleanedUp(Disconnected(users, socketId, live), live) == Disconnected(users, socketId, live)
  {
    CleanupIdempotent(Filter(users, OtherSocket(socketId)), live);
  }
}
