/**
 The browser game: the roster and ball kept up to date by the server's
 events, the join form and the ball's click callback.

 The 3D scene is reduced to the ball's colour (`getCurrentColor` reads it,
 `setColor` writes it), and the page to what it shows: the roster and the
 game-over overlays appended to it.
 */
module Frontend {
  import opened Wrappers
  import JsMap
  import opened Protocol
  import opened Roster
  import ClientSocket

  /** The three closures the game registers with its socket. */
  datatype Handler = OnBallClicked | OnPlayerJoined | OnPlayerLeft

  /** What the page shows. */
  datatype Screen = Screen(players: Players, ball: string, overlays: seq<seq<Entry>>)

  /** The game's handler table: one handler per event type. */
  const Wiring: ClientSocket.Registry<Handler> :=
    map["ball_clicked" := [OnBallClicked], "player_joined" := [OnPlayerJoined], "player_left" := [OnPlayerLeft]]

  /**
   `updatePlayerScore(id)`: one more click for a listed player, and a
   game-over overlay with the standings exactly when that player now has
   at least 42 clicks (again on every later click).
   */
  function ScoreStep(s: Screen, id: int): (r: Screen)
    ensures r.ball == s.ball && r.players == Increment(s.players, id)
    ensures EndsGame(s.players, id) ==> r.overlays == s.overlays + [Standings(r.players)]
    ensures !EndsGame(s.players, id) ==> r.overlays == s.overlays
  {
    var players := Increment(s.players, id);
    if EndsGame(s.players, id) then
      s.(players := players, overlays := s.overlays + [Standings(players)])
    else
      s.(players := players)
  }

  /** What handler `h` does with event `m`; a handler only ever runs for events of its own type. */
  function Run(h: Handler, m: ServerMessage, s: Screen): (r: Screen)
    ensures h != HandlerOf(m) ==> r == s
    ensures !Scores(m) ==> r.overlays == s.overlays
    ensures m.BallClicked? && h == OnBallClicked ==> r.ball == m.color
    ensures !m.BallClicked? ==> r.ball == s.ball
  {
    match m
    case BallClicked(color, clicker) =>
      if h != OnBallClicked then s
      else (if Scores(m) then ScoreStep(s, clicker.value.id) else s).(ball := color)
    case PlayerJoined(p) =>
      if h != OnPlayerJoined then s else s.(players := AddPlayer(s.players, p))
    case PlayerLeft(p) =>
      if h != OnPlayerLeft then s else s.(players := RemovePlayer(s.players, p.id))
  }

  /** Running handlers one after the other (`handlers.forEach`). */
  function RunAll(hs: seq<Handler>, m: ServerMessage, s: Screen): (r: Screen)
    ensures (forall i :: 0 <= i < |hs| ==> hs[i] != HandlerOf(m)) ==> r == s
    ensures !Scores(m) ==> r.overlays == s.overlays
  {
    if hs == [] then s else Run(hs[|hs| - 1], m, RunAll(hs[..|hs| - 1], m, s))
  }

  /**
   `onmessage` with the game's handlers: exactly one handler runs. A player
   joins with no clicks or leaves; a `ball_clicked` recolours the ball and
   moves the score only under the guard, and then by one for that player.
   */
  function Deliver(s: Screen, m: ServerMessage): (r: Screen)
    ensures m.PlayerJoined? ==> r == s.(players := AddPlayer(s.players, m.player))
    ensures m.PlayerLeft? ==> r == s.(players := RemovePlayer(s.players, m.player.id))
    ensures m.BallClicked? ==> r.ball == m.color
    ensures m.BallClicked? && Scores(m) ==> r == ScoreStep(s, m.clicker.value.id).(ball := m.color)
    ensures m.BallClicked? && !Scores(m) ==> r == s.(ball := m.color)
  {
    WiringDispatch(m);
    RunAll(ClientSocket.HandlersFor(Wiring, Kind(m)), m, s)
  }

  /** The handler the game registered for the type of `m`. */
  function HandlerOf(m: ServerMessage): Handler
  {
    match m
    case BallClicked(_, _) => OnBallClicked
    case PlayerJoined(_) => OnPlayerJoined
    case PlayerLeft(_) => OnPlayerLeft
  }

  lemma WiringDispatch(m: ServerMessage)
    ensures ClientSocket.HandlersFor(Wiring, Kind(m)) == [HandlerOf(m)]
    ensures forall s :: RunAll([HandlerOf(m)], m, s) == Run(HandlerOf(m), m, s)
  {
    forall s ensures RunAll([HandlerOf(m)], m, s) == Run(HandlerOf(m), m, s) {
      assert [HandlerOf(m)][..0] == [];
    }
  }

  /** The constructor's three `on` calls build exactly the game's handler table. */
  lemma ConstructorWiring()
    ensures ClientSocket.Register(ClientSocket.Register(ClientSocket.Register(
              map[], "ball_clicked", OnBallClicked), "player_joined", OnPlayerJoined), "player_left", OnPlayerLeft)
            == Wiring
  {
    var t0: ClientSocket.Registry<Handler> := map[];
    var t1 := ClientSocket.Register(t0, "ball_clicked", OnBallClicked);
    assert ClientSocket.HandlersFor(t0, "ball_clicked") == [];
    assert t1["ball_clicked"] == [OnBallClicked] && t1.Keys == {"ball_clicked"};
    var t2 := ClientSocket.Register(t1, "player_joined", OnPlayerJoined);
    assert ClientSocket.HandlersFor(t1, "player_joined") == [];
    assert t2["player_joined"] == [OnPlayerJoined] && t2["ball_clicked"] == [OnBallClicked];
    var t3 := ClientSocket.Register(t2, "player_left", OnPlayerLeft);
    assert ClientSocket.HandlersFor(t2, "player_left") == [];
    assert t3["player_left"] == [OnPlayerLeft] && t3["player_joined"] == [OnPlayerJoined] && t3["ball_clicked"] == [OnBallClicked];
    assert t3.Keys == Wiring.Keys;
  }

  /** The game page. */
  class Game {
    var ws: ClientSocket.GameWebSocket<Handler>
    var playerColor: string
    var players: Players
    var ball: string
    var overlays: seq<seq<Entry>>
    var formOpen: bool

    function View(): Screen
      reads this
    {
      Screen(players, ball, overlays)
    }

    predicate Valid()
      reads this, ws
    {
      JsMap.UniqueKeys(players) && ws.handlers == Wiring
    }

    /** Builds the page with a white ball and the join form, then wires the three handlers. */
    constructor ()
      ensures Valid() && fresh(ws)
      ensures View() == Screen([], "#ffffff", []) && playerColor == "#ffffff" && formOpen
      ensures ws.currentColor == "" && ws.readyState == ClientSocket.Connecting && ws.sent == []
    {
      ws := new ClientSocket.GameWebSocket();
      playerColor := "#ffffff";
      players := [];
      ball := "#ffffff";
      overlays := [];
      formOpen := true;
      new;
      ws.On("ball_clicked", OnBallClicked);
      ws.On("player_joined", OnPlayerJoined);
      ws.On("player_left", OnPlayerLeft);
      ConstructorWiring();
    }

    method AddPlayer(p: Player)
      requires JsMap.UniqueKeys(players)
      modifies this`players
      ensures players == Roster.AddPlayer(old(players), p) && JsMap.UniqueKeys(players)
    {
      JsMap.SetUnique(players, p.id, Entry(p.nickname, p.color, 0));
      players := JsMap.Set(players, p.id, Entry(p.nickname, p.color, 0));
    }

    method RemovePlayer(id: int)
      requires JsMap.UniqueKeys(players)
      modifies this`players
      ensures players == Roster.RemovePlayer(old(players), id) && JsMap.UniqueKeys(players)
    {
      JsMap.DeleteUnique(players, id);
      players := JsMap.Delete(players, id);
    }

    /** Appends the game-over overlay: every player, most clicks first. */
    method ShowGameOver()
      modifies this`overlays
      ensures overlays == old(overlays) + [Standings(players)]
    {
      var standings := SortByClicks(JsMap.Values(players));
      overlays := overlays + [standings];
    }

    method UpdatePlayerScore(id: int)
      requires JsMap.UniqueKeys(players)
      modifies this`players, this`overlays
      ensures View() == ScoreStep(old(View()), id) && JsMap.UniqueKeys(players)
    {
      var entry := JsMap.Get(players, id);
      if entry.Some? {
        var e := entry.value.(clicks := entry.value.clicks + 1);
        JsMap.SetUnique(players, id, e);
        assert EndsGame(players, id) <==> e.clicks >= GameOverClicks;
        players := JsMap.Set(players, id, e);
        if e.clicks >= GameOverClicks {
          ShowGameOver();
        }
      }
    }

    /** One registered closure handling one event. */
    method Handle(h: Handler, m: ServerMessage)
      requires Valid()
      modifies this`players, this`overlays, this`ball
      ensures View() == Run(h, m, old(View())) && Valid()
    {
      match m
      case BallClicked(color, clicker) =>
        if h == OnBallClicked {
          if clicker.Some? && color != clicker.value.color {
            UpdatePlayerScore(clicker.value.id);
          }
          ball := color;
        }
      case PlayerJoined(p) =>
        if h == OnPlayerJoined {
          AddPlayer(p);
        }
      case PlayerLeft(p) =>
        if h == OnPlayerLeft {
          RemovePlayer(p.id);
        }
    }

    /** `ws.onmessage`: run the handlers registered for the event's type, in order. */
    method Receive(m: ServerMessage)
      requires Valid()
      modifies this`players, this`overlays, this`ball
      ensures View() == Deliver(old(View()), m) && Valid()
    {
      var hs := ClientSocket.HandlersFor(ws.handlers, Kind(m));
      var i := 0;
      while i < |hs|
        invariant 0 <= i <= |hs|
        invariant Valid()
        invariant View() == RunAll(hs[..i], m, old(View()))
      {
        Handle(hs[i], m);
        assert hs[..i + 1][..i] == hs[..i];
        i := i + 1;
      }
      assert hs[..i] == hs;
    }

    /** The join button: with a nickname, remember the colour, join, and close the form. */
    method PressJoin(nickname: string, color: string)
      requires Valid() && formOpen
      modifies this`playerColor, this`formOpen, ws`currentColor, ws`sent
      ensures Valid()
      ensures nickname == "" ==>
        playerColor == old(playerColor) && formOpen == old(formOpen)
        && ws.currentColor == old(ws.currentColor) && ws.sent == old(ws.sent)
      ensures nickname != "" ==>
        playerColor == color && !formOpen && ws.currentColor == color
        && ws.sent == old(ws.sent) + (if ws.readyState == ClientSocket.Open then [Join(Some(nickname), Some(color))] else [])
    {
      if nickname != "" {
        playerColor := color;
        ws.Join(nickname, color);
        formOpen := false;
      }
    }

    /**
     The ball's click callback: offer a click with the ball's current colour,
     then paint the ball in the player's colour.
     */
    method TapBall()
      requires Valid()
      modifies this`ball, ws`sent
      ensures Valid()
      ensures ball == playerColor
      ensures ws.sent == old(ws.sent) + (if old(ball) != ws.currentColor && ws.readyState == ClientSocket.Open then [Click] else [])
    {
      var material := ball;
      ws.SendClick(material);
      ball := playerColor;
    }
  }
}
