/**
 The server's live-session layer: the registry of joined connections
 (`clients`), `broadcast`, the per-connection `message` and `close`
 handlers, and the input check of the score endpoint.

 Every handler runs to completion before the next event is handled. The
 storage calls it awaits (`createPlayer`, `recordClick`, `saveScore`) are
 outside the model: their outcome is a parameter. The store itself is seen
 as two logs, the `clicks` table (one player id per recorded click) and the
 `scores` table. What leaves the server is the `outbox`, one delivery per
 `socket.send`; what the catch blocks log is `errors`.
 */
module Backend {
  import opened Wrappers
  import JsMap
  import opened Protocol

  /** One `client.socket.send(...)`: the recipient and the event. */
  datatype Delivery = Delivery(to: SocketId, message: ServerMessage)

  /**
   What the server logs: the message handler's catch block (`fastify.log.error`),
   the score endpoint's `console.error`, and the framework's own log of a route
   that throws (`RouteError`).
   */
  datatype Fault = BadFrame | MissingNicknameOrColor | PlayerIdNotGenerated | StorageError | RouteError

  /** What `createPlayer` comes back with: the inserted row's `lastID`, or a rejected insert. */
  datatype Insert = Inserted(lastId: int) | InsertFailed

  /**
   The body of a `POST /api/score` request. `NoBody` is a missing or `null`
   body, whose destructuring throws before the input check; any other body
   yields its `username` and `score` fields (`Undefined` when absent).
   */
  datatype ScoreRequest = NoBody | Body(username: JsonValue, score: JsonValue)

  /** A row of the `scores` table. */
  datatype ScoreRow = ScoreRow(username: JsonValue, score: real)

  datatype ReplyBody = MessageBody(message: string) | ErrorBody(error: string)

  /** An HTTP reply: status code and JSON body. */
  datatype Reply = Reply(status: int, body: ReplyBody)

  /** Everything the handlers read or change. */
  datatype State = State(
    clients: seq<(SocketId, Player)>,
    outbox: seq<Delivery>,
    clickLog: seq<int>,
    scores: seq<ScoreRow>,
    errors: seq<Fault>)

  const Initial := State([], [], [], [], [])

  /**
   What every reachable state satisfies: the registry is a `Map` (each socket
   once), and every event sent so far has the shape the handlers build.
   */
  predicate Consistent(s: State)
  {
    JsMap.UniqueKeys(s.clients) && forall d :: d in s.outbox ==> ServerShaped(d.message)
  }

  /** The recipients of a run of deliveries, in order. */
  function Recipients(ds: seq<Delivery>): seq<SocketId>
  {
    if ds == [] then [] else [ds[0].to] + Recipients(ds[1..])
  }

  /** How many of the deliveries go to `x`. */
  function CopiesTo(ds: seq<Delivery>, x: SocketId): nat
  {
    if ds == [] then 0 else (if ds[0].to == x then 1 else 0) + CopiesTo(ds[1..], x)
  }

  /** How many clicks the log holds for `id` (`SELECT COUNT(*) FROM clicks WHERE player_id = ?`). */
  function ClickCount(log: seq<int>, id: int): nat
  {
    if log == [] then 0 else (if log[0] == id then 1 else 0) + ClickCount(log[1..], id)
  }

  /** One delivery of `m` per entry of `clients`, in entry order. */
  function Fanout(clients: seq<(SocketId, Player)>, m: ServerMessage): seq<Delivery>
  {
    if clients == [] then [] else [Delivery(clients[0].0, m)] + Fanout(clients[1..], m)
  }

  /**
   `after` is `before` followed by exactly one copy of `m` for each client
   registered in `to`, in the registry's order, and nothing else.
   */
  predicate Broadcasts(before: seq<Delivery>, after: seq<Delivery>, to: seq<(SocketId, Player)>, m: ServerMessage)
  {
    && |before| <= |after|
    && after[..|before|] == before
    && Recipients(after[|before|..]) == JsMap.Keys(to)
    && forall d :: d in after[|before|..] ==> d.message == m
  }

  /** The deliveries a step added to the outbox. */
  function Sent(s: State, r: State): seq<Delivery>
    requires |s.outbox| <= |r.outbox|
  {
    r.outbox[|s.outbox|..]
  }

  // ---------------------------------------------------------------- broadcast

  lemma {:induction false} FanoutShape(to: seq<(SocketId, Player)>, m: ServerMessage)
    ensures Recipients(Fanout(to, m)) == JsMap.Keys(to)
    ensures forall d :: d in Fanout(to, m) ==> d.message == m
  {
    if to != [] {
      FanoutShape(to[1..], m);
      assert Fanout(to, m) == [Delivery(to[0].0, m)] + Fanout(to[1..], m);
    }
  }

  lemma {:induction false} FanoutAppend(a: seq<(SocketId, Player)>, b: seq<(SocketId, Player)>, m: ServerMessage)
    ensures Fanout(a + b, m) == Fanout(a, m) + Fanout(b, m)
  {
    if a == [] {
      assert a + b == b;
    } else {
      FanoutAppend(a[1..], b, m);
      assert (a + b)[0] == a[0] && (a + b)[1..] == a[1..] + b;
    }
  }

  /** `broadcast(m)`: the loop over `clients.values()` sending `m` to each. */
  function BroadcastStep(s: State, m: ServerMessage): (r: State)
    ensures r.(outbox := s.outbox) == s
    ensures Broadcasts(s.outbox, r.outbox, s.clients, m)
  {
    FanoutShape(s.clients, m);
    assert (s.outbox + Fanout(s.clients, m))[|s.outbox|..] == Fanout(s.clients, m);
    s.(outbox := s.outbox + Fanout(s.clients, m))
  }

  /**
   A broadcast over a registry with unique keys reaches each registered
   socket exactly once and no other socket.
   */
  lemma {:induction false} OneCopyEach(ds: seq<Delivery>, to: seq<(SocketId, Player)>, x: SocketId)
    requires JsMap.UniqueKeys(to)
    requires Recipients(ds) == JsMap.Keys(to)
    ensures CopiesTo(ds, x) == if x in JsMap.Keys(to) then 1 else 0
  {
    RecipientsAt(ds);
    JsMap.KeysIn(to);
    if to != [] {
      assert Recipients(ds) == [ds[0].to] + Recipients(ds[1..]);
      assert JsMap.Keys(to) == [to[0].0] + JsMap.Keys(to[1..]);
      assert Recipients(ds[1..]) == Recipients(ds)[1..] == JsMap.Keys(to)[1..] == JsMap.Keys(to[1..]);
      JsMap.HeadNotInTail(to);
      OneCopyEach(ds[1..], to[1..], x);
    }
  }

  lemma RecipientsAt(ds: seq<Delivery>)
    ensures |Recipients(ds)| == |ds|
    ensures forall i :: 0 <= i < |ds| ==> Recipients(ds)[i] == ds[i].to
  {
  }

  /** Events added by a broadcast of a well-shaped event keep the outbox well shaped. */
  lemma BroadcastKeepsShape(before: seq<Delivery>, after: seq<Delivery>, to: seq<(SocketId, Player)>, m: ServerMessage)
    requires Broadcasts(before, after, to, m) && ServerShaped(m)
    requires forall d :: d in before ==> ServerShaped(d.message)
    ensures forall d :: d in after ==> ServerShaped(d.message)
  {
    assert after == before + after[|before|..];
  }

  // ---------------------------------------------------------------- handlers

  /** `case 'join'`: validate, create the player, register the socket, announce it. */
  function JoinStep(s: State, socket: SocketId, nickname: Option<string>, color: Option<string>, reply: Insert): (r: State)
    ensures r.clickLog == s.clickLog && r.scores == s.scores
    ensures Falsy(nickname) || Falsy(color) ==>
      r == s.(errors := s.errors + [MissingNicknameOrColor])
    ensures !Falsy(nickname) && !Falsy(color) && reply.InsertFailed? ==>
      r == s.(errors := s.errors + [StorageError])
    ensures !Falsy(nickname) && !Falsy(color) && reply.Inserted? && reply.lastId == 0 ==>
      r == s.(errors := s.errors + [PlayerIdNotGenerated])
    ensures !Falsy(nickname) && !Falsy(color) && reply.Inserted? && reply.lastId != 0 ==>
      var p := Player(reply.lastId, nickname.value, color.value);
      && JsMap.Get(r.clients, socket) == Some(p)
      && (forall x :: x != socket ==> JsMap.Get(r.clients, x) == JsMap.Get(s.clients, x))
      && JsMap.Keys(r.clients) == (if socket in JsMap.Keys(s.clients) then JsMap.Keys(s.clients) else JsMap.Keys(s.clients) + [socket])
      && r.errors == s.errors
      && Broadcasts(s.outbox, r.outbox, r.clients, PlayerJoined(p))
  {
    if Falsy(nickname) || Falsy(color) then
      s.(errors := s.errors + [MissingNicknameOrColor])
    else
      match reply
      case InsertFailed => s.(errors := s.errors + [StorageError])
      case Inserted(id) =>
        if id == 0 then
          s.(errors := s.errors + [PlayerIdNotGenerated])
        else
          var p := Player(id, nickname.value, color.value);
          BroadcastStep(s.(clients := JsMap.Set(s.clients, socket, p)), PlayerJoined(p))
  }

  /** `case 'click'`: for a joined socket, record the click and broadcast it. */
  function ClickStep(s: State, socket: SocketId, recorded: bool): (r: State)
    ensures r.clients == s.clients && r.scores == s.scores
    ensures socket !in JsMap.Keys(s.clients) ==> r == s
    ensures socket in JsMap.Keys(s.clients) && !recorded ==>
      r == s.(errors := s.errors + [StorageError])
    ensures socket in JsMap.Keys(s.clients) && recorded ==>
      var p := JsMap.Get(s.clients, socket).value;
      && r.clickLog == s.clickLog + [p.id]
      && r.errors == s.errors
      && Broadcasts(s.outbox, r.outbox, s.clients, BallClicked(p.color, Some(p)))
  {
    match JsMap.Get(s.clients, socket)
    case None => s
    case Some(p) =>
      if recorded then
        BroadcastStep(s.(clickLog := s.clickLog + [p.id]), BallClicked(p.color, Some(p)))
      else
        s.(errors := s.errors + [StorageError])
  }

  /** The `message` handler: parse, then `switch (data.type)`. */
  function MessageStep(s: State, socket: SocketId, frame: ClientMessage, reply: Insert, recorded: bool): (r: State)
    ensures frame.Unrecognized? ==> r == s
    ensures frame.Malformed? ==> r == s.(errors := s.errors + [BadFrame])
    ensures !frame.Join? ==> r.clients == s.clients
    ensures !frame.Click? ==> r.clickLog == s.clickLog
  {
    match frame
    case Join(nickname, color) => JoinStep(s, socket, nickname, color, reply)
    case Click => ClickStep(s, socket, recorded)
    case Unrecognized(_) => s
    case Malformed => s.(errors := s.errors + [BadFrame])
  }

  /** The `close` handler: a joined socket leaves and the others are told. */
  function CloseStep(s: State, socket: SocketId): (r: State)
    ensures r.clickLog == s.clickLog && r.scores == s.scores && r.errors == s.errors
    ensures socket !in JsMap.Keys(s.clients) ==> r == s
    ensures socket in JsMap.Keys(s.clients) ==>
      && JsMap.Get(r.clients, socket) == None
      && (forall x :: x != socket ==> JsMap.Get(r.clients, x) == JsMap.Get(s.clients, x))
      && JsMap.Keys(r.clients) == JsMap.Without(JsMap.Keys(s.clients), socket)
      && Broadcasts(s.outbox, r.outbox, r.clients, PlayerLeft(JsMap.Get(s.clients, socket).value))
  {
    match JsMap.Get(s.clients, socket)
    case None => s
    case Some(p) => BroadcastStep(s.(clients := JsMap.Delete(s.clients, socket)), PlayerLeft(p))
  }

  /**
   `POST /api/score`: a body that cannot be destructured makes the route
   throw, which the framework logs and answers with its own 500; otherwise
   reject bad input with 400, or save and report.
   */
  function PostScoreStep(s: State, req: ScoreRequest, saved: bool): (res: (Reply, State))
    ensures req.NoBody? ==>
      res == (Reply(500, ErrorBody("Internal Server Error")), s.(errors := s.errors + [RouteError]))
    ensures res.0.status == 400 <==> req.Body? && (!Truthy(req.username) || !req.score.Number?)
    ensures res.0.status == 400 ==> res.0.body == ErrorBody("Invalid input") && res.1 == s
    ensures req.Body? && res.0.status != 400 && saved ==>
      res.0.status == 200 && res.1 == s.(scores := s.scores + [ScoreRow(req.username, req.score.n)])
    ensures req.Body? && res.0.status != 400 && !saved ==>
      res.0 == Reply(500, ErrorBody("Failed to save score")) && res.1 == s.(errors := s.errors + [StorageError])
  {
    match req
    case NoBody => (Reply(500, ErrorBody("Internal Server Error")), s.(errors := s.errors + [RouteError]))
    case Body(username, score) =>
      if !Truthy(username) || !score.Number? then
        (Reply(400, ErrorBody("Invalid input")), s)
      else if saved then
        (Reply(200, MessageBody("Score saved \U{2705}")), s.(scores := s.scores + [ScoreRow(username, score.n)]))
      else
        (Reply(500, ErrorBody("Failed to save score")), s.(errors := s.errors + [StorageError]))
  }

  // ---------------------------------------------------------------- properties

  /**
   A successful join keeps the state consistent and sends the joiner itself
   exactly one `player_joined`, since the socket is registered before the
   broadcast; a registered socket receives exactly one copy.
   */
  lemma JoinKeepsConsistent(s: State, socket: SocketId, nickname: Option<string>, color: Option<string>, reply: Insert, x: SocketId)
    requires Consistent(s)
    ensures Consistent(JoinStep(s, socket, nickname, color, reply))
    ensures !Falsy(nickname) && !Falsy(color) && reply.Inserted? && reply.lastId != 0 ==>
      var r := JoinStep(s, socket, nickname, color, reply);
      && CopiesTo(Sent(s, r), socket) == 1
      && CopiesTo(Sent(s, r), x) == (if x in JsMap.Keys(r.clients) then 1 else 0)
  {
    var r := JoinStep(s, socket, nickname, color, reply);
    if !Falsy(nickname) && !Falsy(color) && reply.Inserted? && reply.lastId != 0 {
      var p := Player(reply.lastId, nickname.value, color.value);
      JsMap.SetUnique(s.clients, socket, p);
      assert r.clients == JsMap.Set(s.clients, socket, p);
      BroadcastKeepsShape(s.outbox, r.outbox, r.clients, PlayerJoined(p));
      OneCopyEach(Sent(s, r), r.clients, socket);
      OneCopyEach(Sent(s, r), r.clients, x);
    }
  }

  /**
   A click from a joined socket keeps the state consistent, raises that
   player's click count by one, and reaches every registered socket once.
   */
  lemma ClickKeepsConsistent(s: State, socket: SocketId, recorded: bool, x: SocketId)
    requires Consistent(s)
    ensures Consistent(ClickStep(s, socket, recorded))
    ensures socket in JsMap.Keys(s.clients) && recorded ==>
      var r := ClickStep(s, socket, recorded);
      var id := JsMap.Get(s.clients, socket).value.id;
      && ClickCount(r.clickLog, id) == ClickCount(s.clickLog, id) + 1
      && CopiesTo(Sent(s, r), x) == (if x in JsMap.Keys(s.clients) then 1 else 0)
  {
    var r := ClickStep(s, socket, recorded);
    if socket in JsMap.Keys(s.clients) && recorded {
      var p := JsMap.Get(s.clients, socket).value;
      BroadcastKeepsShape(s.outbox, r.outbox, s.clients, BallClicked(p.color, Some(p)));
      ClickCountAppend(s.clickLog, p.id, p.id);
      OneCopyEach(Sent(s, r), s.clients, x);
    }
  }

  /**
   A close of a joined socket keeps the state consistent, shrinks the
   registry by one, and tells every remaining socket once and the leaver not.
   */
  lemma CloseKeepsConsistent(s: State, socket: SocketId, x: SocketId)
    requires Consistent(s)
    ensures Consistent(CloseStep(s, socket))
    ensures socket in JsMap.Keys(s.clients) ==>
      var r := CloseStep(s, socket);
      && |r.clients| == |s.clients| - 1
      && CopiesTo(Sent(s, r), socket) == 0
      && CopiesTo(Sent(s, r), x) == (if x in JsMap.Keys(r.clients) then 1 else 0)
  {
    var r := CloseStep(s, socket);
    if socket in JsMap.Keys(s.clients) {
      var p := JsMap.Get(s.clients, socket).value;
      JsMap.DeleteUnique(s.clients, socket);
      assert r.clients == JsMap.Delete(s.clients, socket);
      BroadcastKeepsShape(s.outbox, r.outbox, r.clients, PlayerLeft(p));
      OneCopyEach(Sent(s, r), r.clients, socket);
      OneCopyEach(Sent(s, r), r.clients, x);
    }
  }

  /** Every message handler keeps the state consistent. */
  lemma MessageKeepsConsistent(s: State, socket: SocketId, frame: ClientMessage, reply: Insert, recorded: bool)
    requires Consistent(s)
    ensures Consistent(MessageStep(s, socket, frame, reply, recorded))
  {
    match frame
    case Join(nickname, color) => JoinKeepsConsistent(s, socket, nickname, color, reply, socket);
    case Click => ClickKeepsConsistent(s, socket, recorded, socket);
    case Unrecognized(_) =>
    case Malformed =>
  }

  lemma {:induction false} ClickCountAppend(log: seq<int>, id: int, x: int)
    ensures ClickCount(log + [id], x) == ClickCount(log, x) + (if x == id then 1 else 0)
  {
    if log != [] {
      ClickCountAppend(log[1..], id, x);
      assert (log + [id])[1..] == log[1..] + [id];
    }
  }

  // ---------------------------------------------------------------- the server

  /** The running server: its registry, its outbound traffic and the store's logs. */
  class Server {
    var clients: seq<(SocketId, Player)>
    var outbox: seq<Delivery>
    var clickLog: seq<int>
    var scores: seq<ScoreRow>
    var errors: seq<Fault>

    function View(): State
      reads this
    {
      State(clients, outbox, clickLog, scores, errors)
    }

    predicate Valid()
      reads this
    {
      Consistent(View())
    }

    constructor ()
      ensures View() == Initial && Valid()
    {
      clients, outbox, clickLog, scores, errors := [], [], [], [], [];
    }

    /** `broadcast`: send `m` to every registered client, in the registry's order. */
    method Broadcast(m: ServerMessage)
      modifies this`outbox
      ensures View() == BroadcastStep(old(View()), m)
    {
      var i := 0;
      while i < |clients|
        invariant 0 <= i <= |clients|
        invariant outbox == old(outbox) + Fanout(clients[..i], m)
      {
        FanoutAppend(clients[..i], [clients[i]], m);
        assert clients[..i + 1] == clients[..i] + [clients[i]];
        outbox := outbox + [Delivery(clients[i].0, m)];
        i := i + 1;
      }
      assert clients[..i] == clients;
    }

    method Join(socket: SocketId, nickname: Option<string>, color: Option<string>, reply: Insert)
      requires Valid()
      modifies this`clients, this`outbox, this`errors
      ensures View() == JoinStep(old(View()), socket, nickname, color, reply)
      ensures Valid()
    {
      JoinKeepsConsistent(View(), socket, nickname, color, reply, socket);
      if Falsy(nickname) || Falsy(color) {
        errors := errors + [MissingNicknameOrColor];
        return;
      }
      match reply
      case InsertFailed =>
        errors := errors + [StorageError];
      case Inserted(id) =>
        if id == 0 {
          errors := errors + [PlayerIdNotGenerated];
        } else {
          var p := Player(id, nickname.value, color.value);
          clients := JsMap.Set(clients, socket, p);
          Broadcast(PlayerJoined(p));
        }
    }

    method Click(socket: SocketId, recorded: bool)
      requires Valid()
      modifies this`outbox, this`clickLog, this`errors
      ensures View() == ClickStep(old(View()), socket, recorded)
      ensures Valid()
    {
      ClickKeepsConsistent(View(), socket, recorded, socket);
      var client := JsMap.Get(clients, socket);
      if client.Some? {
        if recorded {
          clickLog := clickLog + [client.value.id];
          Broadcast(BallClicked(client.value.color, Some(client.value)));
        } else {
          errors := errors + [StorageError];
        }
      }
    }

    /** `socket.on('message')`: one frame from `socket`, handled to completion. */
    method OnMessage(socket: SocketId, frame: ClientMessage, reply: Insert, recorded: bool)
      requires Valid()
      modifies this
      ensures View() == MessageStep(old(View()), socket, frame, reply, recorded)
      ensures Valid()
    {
      match frame
      case Join(nickname, color) => Join(socket, nickname, color, reply);
      case Click => Click(socket, recorded);
      case Unrecognized(_) =>
      case Malformed => errors := errors + [BadFrame];
    }

    /** `socket.on('close')`. */
    method OnClose(socket: SocketId)
      requires Valid()
      modifies this`clients, this`outbox
      ensures View() == CloseStep(old(View()), socket)
      ensures Valid()
    {
      CloseKeepsConsistent(View(), socket, socket);
      var client := JsMap.Get(clients, socket);
      if client.Some? {
        clients := JsMap.Delete(clients, socket);
        Broadcast(PlayerLeft(client.value));
      }
    }

    /** `POST /api/score`. */
    method PostScore(req: ScoreRequest, saved: bool) returns (reply: Reply)
      modifies this`scores, this`errors
      ensures (reply, View()) == PostScoreStep(old(View()), req, saved)
    {
      if req.NoBody? {
        errors := errors + [RouteError];
        return Reply(500, ErrorBody("Internal Server Error"));
      }
      var username, score := req.username, req.score;
      if !Truthy(username) || !score.Number? {
        return Reply(400, ErrorBody("Invalid input"));
      }
      if saved {
        scores := scores + [ScoreRow(username, score.n)];
        reply := Reply(200, MessageBody("Score saved \U{2705}"));
      } else {
        errors := errors + [StorageError];
        reply := Reply(500, ErrorBody("Failed to save score"));
      }
    }
  }
}
