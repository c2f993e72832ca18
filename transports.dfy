/** The transport-list policy of the `connect_error` and `reconnect_attempt`
    handlers (lib/socket.ts, and the same `connect_error` toggle in
    server.js). A list is the value of `socket.io.opts.transports`. */
module Transports {
  import opened Seqs

  const Polling: string := "polling"
  const WebSocket: string := "websocket"

  /** The list the client is created with and that `reconnect_attempt`
      restores: polling first, then the upgrade to websocket. */
  const BothTransports: seq<string> := [Polling, WebSocket]

  /** `connect_error`: a list that includes websocket falls back to polling
      only; any other list, a missing one included
      (`socket.io.opts.transports || []`), switches to websocket only. */
  function AfterConnectError(current: Option<seq<string>>): seq<string> {
    var transports := if current.Some? then current.value else [];
    if WebSocket in transports then [Polling] else [WebSocket]
  }

  /** The client events that change the list. */
  datatype ClientEvent = ConnectError | ReconnectAttempt

  function Next(current: seq<string>, e: ClientEvent): seq<string> {
    match e
    case ConnectError => AfterConnectError(Some(current))
    case ReconnectAttempt => BothTransports
  }

  /** The list after a series of events, oldest first, from the initial list. */
  function Run(events: seq<ClientEvent>): seq<string>
    decreases |events|
  {
    if |events| == 0 then BothTransports
    else Next(Run(events[..|events| - 1]), events[|events| - 1])
  }

  /** The three lists the handlers ever install. */
  predicate Reachable(t: seq<string>) {
    t == BothTransports || t == [Polling] || t == [WebSocket]
  }

  /** A list without `transports` behaves like an empty one: websocket only. */
  lemma MissingListSwitchesToWebSocket()
    ensures AfterConnectError(None) == [WebSocket]
    ensures AfterConnectError(Some([])) == [WebSocket]
  {
  }

  /** From either single-transport list, `connect_error` switches to the other
      one, so two errors in a row come back to where they started. */
  lemma ConnectErrorToggles(t: seq<string>)
    requires t == [Polling] || t == [WebSocket]
    ensures AfterConnectError(Some(t)) == if t == [Polling] then [WebSocket] else [Polling]
    ensures AfterConnectError(Some(AfterConnectError(Some(t)))) == t
  {
    assert Polling != WebSocket;
  }

  /** `n` connection errors in a row, from the initial list. */
  function ConnectErrors(n: nat): seq<string> {
    if n == 0 then BothTransports else AfterConnectError(Some(ConnectErrors(n - 1)))
  }

  /** Repeated errors from the initial list give polling, websocket, polling,
      ... strictly alternating. */
  lemma {:induction false} ConnectErrorsAlternate(n: nat)
    requires n > 0
    ensures ConnectErrors(n) == if n % 2 == 1 then [Polling] else [WebSocket]
  {
    if n == 1 {
      assert WebSocket in BothTransports;
    } else {
      ConnectErrorsAlternate(n - 1);
      ConnectErrorToggles(ConnectErrors(n - 1));
    }
  }

  /** Whatever the series of events, the list is one of the three reachable
      lists. */
  lemma {:induction false} RunIsReachable(events: seq<ClientEvent>)
    ensures Reachable(Run(events))
    decreases |events|
  {
    if |events| > 0 {
      RunIsReachable(events[..|events| - 1]);
    }
  }

  /** `reconnect_attempt` restores both transports whatever came before. */
  lemma ReconnectAttemptResets(events: seq<ClientEvent>)
    ensures Run(events + [ReconnectAttempt]) == BothTransports
  {
    assert (events + [ReconnectAttempt])[..|events|] == events;
  }
}
