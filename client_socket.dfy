/**
 The browser's connection wrapper: a table of message handlers per event
 type, dispatch of each incoming event to its handlers, and the guarded
 sends `send`, `join` and `sendClick`.

 Handlers are closures in the browser; here they are values of a type
 parameter `H`, and running them is the caller's business.
 */
module ClientSocket {
  import opened Wrappers
  import opened Protocol

  /** The `readyState` of the underlying WebSocket. */
  datatype ReadyState = Connecting | Open | Closing | Closed

  /** `messageHandlers`: for each event type, its handlers in registration order. */
  type Registry<H> = map<string, seq<H>>

  /** `messageHandlers.get(type) || []`: the handlers an event of type `kind` runs. */
  function HandlersFor<H>(t: Registry<H>, kind: string): seq<H>
  {
    if kind in t then t[kind] else []
  }

  /** `on(kind, h)`: create the list if absent, then push `h`. */
  function Register<H>(t: Registry<H>, kind: string, h: H): (r: Registry<H>)
    ensures HandlersFor(r, kind) == HandlersFor(t, kind) + [h]
    ensures forall k :: k != kind ==> HandlersFor(r, k) == HandlersFor(t, k)
    ensures r.Keys == t.Keys + {kind}
  {
    t[kind := HandlersFor(t, kind) + [h]]
  }

  /** A sequence of `on` calls, in order. */
  function RegisterAll<H>(t: Registry<H>, calls: seq<(string, H)>): Registry<H>
    decreases |calls|
  {
    if calls == [] then t else RegisterAll(Register(t, calls[0].0, calls[0].1), calls[1..])
  }

  /** The handlers among `calls` registered for `kind`, in call order. */
  function RegisteredFor<H>(calls: seq<(string, H)>, kind: string): seq<H>
  {
    if calls == [] then []
    else (if calls[0].0 == kind then [calls[0].1] else []) + RegisteredFor(calls[1..], kind)
  }

  /**
   After any sequence of `on` calls, an event of type `kind` runs the
   handlers it had before followed by exactly those registered for `kind`,
   in registration order, each as often as it was registered; an event of
   a type never registered runs none.
   */
  lemma {:induction false} DispatchOrder<H>(t: Registry<H>, calls: seq<(string, H)>, kind: string)
    ensures HandlersFor(RegisterAll(t, calls), kind) == HandlersFor(t, kind) + RegisteredFor(calls, kind)
    decreases |calls|
  {
    if calls != [] {
      var t' := Register(t, calls[0].0, calls[0].1);
      DispatchOrder(t', calls[1..], kind);
      if calls[0].0 == kind {
        assert HandlersFor(t', kind) == HandlersFor(t, kind) + [calls[0].1];
      }
    }
  }

  class GameWebSocket<H> {
    var handlers: Registry<H>
    var currentColor: string
    var readyState: ReadyState
    /** The frames handed to the socket, in order. */
    var sent: seq<ClientMessage>

    /** Opens the connection: no handlers, no colour, nothing sent yet. */
    constructor ()
      ensures handlers == map[] && currentColor == "" && readyState == Connecting && sent == []
    {
      handlers := map[];
      currentColor := "";
      readyState := Connecting;
      sent := [];
    }

    /** The browser moves the socket to another `readyState`; no code of the game does this. */
    method Transition(state: ReadyState)
      modifies this`readyState
      ensures readyState == state
    {
      readyState := state;
    }

    /** `on(type, handler)`. */
    method On(kind: string, h: H)
      modifies this`handlers
      ensures handlers == Register(old(handlers), kind, h)
    {
      if kind !in handlers {
        handlers := handlers[kind := []];
      }
      handlers := handlers[kind := handlers[kind] + [h]];
    }

    /** `send(data)`: transmitted only while the socket is open, silently dropped otherwise. */
    method Send(data: ClientMessage)
      modifies this`sent
      ensures sent == old(sent) + (if readyState == Open then [data] else [])
    {
      if readyState == Open {
        sent := sent + [data];
      }
    }

    /** `join(nickname, color)`: remember the colour, then send the join frame. */
    method Join(nickname: string, color: string)
      modifies this`currentColor, this`sent
      ensures currentColor == color
      ensures sent == old(sent) + (if readyState == Open then [ClientMessage.Join(Some(nickname), Some(color))] else [])
    {
      currentColor := color;
      Send(ClientMessage.Join(Some(nickname), Some(color)));
    }

    /** `sendClick(ball)`: a click frame only when the ball is not already the player's colour. */
    method SendClick(ball: string)
      modifies this`sent
      ensures sent == old(sent) + (if ball != currentColor && readyState == Open then [Click] else [])
    {
      if ball != currentColor {
        Send(Click);
      }
    }
  }
}
