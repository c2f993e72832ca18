/** lib/socket.ts: the lazily created client socket and the transport list
    its handlers rewrite in place. */
module Client {
  import opened Seqs
  import opened Transports

  /** The socket.io-client socket `useSocket` creates, reduced to the option
      its handlers change, `socket.io.opts.transports` (`None` when unset). */
  class ClientSocket {
    var transports: Option<seq<string>>

    ghost predicate Valid()
      reads this
    {
      transports.Some? && Reachable(transports.value)
    }

    /** `io(url, { transports: ['polling', 'websocket'], ... })` */
    constructor ()
      ensures Valid()
      ensures transports == Some(BothTransports)
    {
      transports := Some(BothTransports);
    }

    /** The `connect_error` handler. */
    method OnConnectError()
      modifies this
      ensures Valid()
      ensures transports == Some(AfterConnectError(old(transports)))
    {
      var currentTransports := if transports.Some? then transports.value else [];
      if WebSocket in currentTransports {
        transports := Some([Polling]);
      } else {
        transports := Some([WebSocket]);
      }
    }

    /** The `reconnect_attempt` handler. */
    method OnReconnectAttempt()
      modifies this
      ensures Valid()
      ensures transports == Some(BothTransports)
    {
      transports := Some(BothTransports);
    }

    /** Either handler, by event. */
    method On(e: ClientEvent)
      requires Valid()
      modifies this
      ensures Valid()
      ensures transports == Some(Next(old(transports).value, e))
    {
      match e
      case ConnectError => OnConnectError();
      case ReconnectAttempt => OnReconnectAttempt();
    }
  }

  /** The module-level `socket` variable of lib/socket.ts. */
  class SocketModule {
    var socket: ClientSocket?

    constructor ()
      ensures socket == null
    {
      socket := null;
    }

    /** `useSocket`: creates the client the first time, and from then on
        returns the same instance. */
    method UseSocket() returns (s: ClientSocket)
      modifies this
      ensures socket == s
      ensures old(socket) != null ==> s == old(socket)
      ensures old(socket) == null ==> fresh(s) && s.transports == Some(BothTransports)
    {
      if socket == null {
        socket := new ClientSocket();
      }
      s := socket;
    }
  }

  /** Two calls of `useSocket` return the same client. */
  method UseSocketTwice(m: SocketModule) returns (first: ClientSocket, second: ClientSocket)
    modifies m
    ensures first == second == m.socket
  {
    first := m.UseSocket();
    second := m.UseSocket();
  }
}
