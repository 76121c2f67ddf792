/**
 The server and the browsers together. The server builds every
 `ball_clicked` with the clicking player's own colour, and the browser
 counts a click only when the event's colour differs from that player's
 colour; so in every run of the server in which each joined colour is a
 string, no browser's roster count ever rises and no browser reaches the
 game-over overlay through the server's events. The `join` check only
 tests truthiness, so a client could send a colour that is a JSON object or
 array; the browser would parse the event's two copies of it into distinct
 objects that compare unequal, and such runs are outside this model.
 */
module Session {
  import opened Wrappers
  import JsMap
  import opened Protocol
  import opened Roster
  import Backend
  import opened Frontend

  /** One inbound event at the server: a frame on a socket, or a socket closing. */
  datatype ServerEvent =
    | Frame(socket: SocketId, frame: ClientMessage, reply: Backend.Insert, recorded: bool)
    | Disconnect(socket: SocketId)

  /** The server handling events one at a time, each to completion. */
  function Serve(st: Backend.State, evs: seq<ServerEvent>): (r: Backend.State)
    ensures r.scores == st.scores
    ensures st.outbox <= r.outbox && st.clickLog <= r.clickLog && st.errors <= r.errors
    decreases |evs|
  {
    if evs == [] then st
    else
      var next := match evs[0]
        case Frame(socket, frame, reply, recorded) => Backend.MessageStep(st, socket, frame, reply, recorded)
        case Disconnect(socket) => Backend.CloseStep(st, socket);
      Serve(next, evs[1..])
  }

  /** The events the outbox carries to socket `x`, in order. */
  function Inbox(outbox: seq<Backend.Delivery>, x: SocketId): seq<ServerMessage>
  {
    if outbox == [] then []
    else (if outbox[0].to == x then [outbox[0].message] else []) + Inbox(outbox[1..], x)
  }

  /** A browser handling the events it receives, one after another. */
  function Replay(s: Screen, ms: seq<ServerMessage>): Screen
    decreases |ms|
  {
    if ms == [] then s else Replay(Deliver(s, ms[0]), ms[1..])
  }

  /** Every entry of `after` either has no clicks or is exactly what `before` held for that id. */
  ghost predicate NoRise(before: Players, after: Players)
  {
    forall id :: JsMap.Get(after, id).Some? ==>
      JsMap.Get(after, id).value.clicks == 0 || JsMap.Get(after, id) == JsMap.Get(before, id)
  }

  /** Every state the server reaches from a consistent one is consistent. */
  lemma {:induction false} ServeConsistent(st: Backend.State, evs: seq<ServerEvent>)
    requires Backend.Consistent(st)
    ensures Backend.Consistent(Serve(st, evs))
    decreases |evs|
  {
    if evs != [] {
      match evs[0]
      case Frame(socket, frame, reply, recorded) =>
        Backend.MessageKeepsConsistent(st, socket, frame, reply, recorded);
        ServeConsistent(Backend.MessageStep(st, socket, frame, reply, recorded), evs[1..]);
      case Disconnect(socket) =>
        Backend.CloseKeepsConsistent(st, socket, socket);
        ServeConsistent(Backend.CloseStep(st, socket), evs[1..]);
    }
  }

  /** A socket receives only events the server built. */
  lemma {:induction false} InboxShaped(outbox: seq<Backend.Delivery>, x: SocketId)
    requires forall d :: d in outbox ==> ServerShaped(d.message)
    ensures forall m :: m in Inbox(outbox, x) ==> ServerShaped(m)
  {
    if outbox != [] {
      assert outbox[0] in outbox;
      InboxShaped(outbox[1..], x);
    }
  }

  /** One server-built event changes no count upward and shows no overlay. */
  lemma DeliverNoRise(s: Screen, m: ServerMessage)
    requires ServerShaped(m)
    ensures NoRise(s.players, Deliver(s, m).players)
    ensures Deliver(s, m).overlays == s.overlays
  {
  }

  /** A run of server-built events changes no count upward and shows no overlay. */
  lemma {:induction false} ReplayNoRise(s: Screen, ms: seq<ServerMessage>)
    requires forall m :: m in ms ==> ServerShaped(m)
    ensures NoRise(s.players, Replay(s, ms).players)
    ensures Replay(s, ms).overlays == s.overlays
    decreases |ms|
  {
    if ms != [] {
      var s1 := Deliver(s, ms[0]);
      DeliverNoRise(s, ms[0]);
      ReplayNoRise(s1, ms[1..]);
    }
  }

  /**
   In every run of the server from its start in which every joined colour is
   a string (as in every run driven by the game's own page), whatever each
   browser held before, the events delivered to it never raise a roster count
   and never show the game-over overlay.
   */
  lemma EveryRunNoRise(evs: seq<ServerEvent>, x: SocketId, s: Screen)
    ensures var r := Replay(s, Inbox(Serve(Backend.Initial, evs).outbox, x));
      NoRise(s.players, r.players) && r.overlays == s.overlays
  {
    ServeConsistent(Backend.Initial, evs);
    InboxShaped(Serve(Backend.Initial, evs).outbox, x);
    ReplayNoRise(s, Inbox(Serve(Backend.Initial, evs).outbox, x));
  }

  /**
   So a page that starts empty shows zero clicks for every player it lists,
   and never shows the game-over overlay, in every run of the server in which
   every joined colour is a string.
   */
  lemma FreshPageStaysAtZero(evs: seq<ServerEvent>, x: SocketId, ball: string)
    ensures var r := Replay(Screen([], ball, []), Inbox(Serve(Backend.Initial, evs).outbox, x));
      && r.overlays == []
      && forall id :: JsMap.Get(r.players, id).Some? ==> JsMap.Get(r.players, id).value.clicks == 0
  {
    EveryRunNoRise(evs, x, Screen([], ball, []));
  }

  /**
   The guard itself does count clicks: an event whose colour differs from
   its player's adds exactly one click to that player. Only the server's
   message shape keeps it from firing.
   */
  lemma ForeignColourScores(s: Screen, color: string, p: Player)
    requires color != p.color
    ensures Deliver(s, BallClicked(color, Some(p))).players == Increment(s.players, p.id)
  {
  }
}
