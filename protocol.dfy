/**
 The vocabulary shared by the server and the browser: players, the frames a
 browser sends, the events the server broadcasts, and the JSON values that
 the score endpoint inspects.
 */
module Protocol {
  import opened Wrappers

  /** A live connection, known only by its identity. */
  type SocketId = nat

  /** A player as the server announces it: the store's row id, nickname and colour. */
  datatype Player = Player(id: int, nickname: string, color: string)

  /**
   A frame from a browser, as the server's `switch (data.type)` sees it.
   `Join` and `Click` are the frames whose `type` is "join" and "click";
   `Unrecognized` is a parsed frame with any other `type`; `Malformed` is a
   frame that `JSON.parse` rejects or that parses to `null`, whose `type`
   lookup throws. Both are logged the same way. Missing fields are `None`.
   */
  datatype ClientMessage =
    | Join(nickname: Option<string>, color: Option<string>)
    | Click
    | Unrecognized(kind: string)
    | Malformed

  /**
   An event the server broadcasts. `BallClicked` carries the colour the ball
   takes and the event's `player` field (`clicker` here, since a Dafny
   destructor name cannot carry two types), which the browser treats as
   possibly absent.
   */
  datatype ServerMessage =
    | PlayerJoined(player: Player)
    | BallClicked(color: string, clicker: Option<Player>)
    | PlayerLeft(player: Player)

  /** The `type` field of a broadcast event. */
  function Kind(m: ServerMessage): string
  {
    match m
    case PlayerJoined(_) => "player_joined"
    case BallClicked(_, _) => "ball_clicked"
    case PlayerLeft(_) => "player_left"
  }

  /** `!field` for an optional string field: absent or empty. */
  predicate Falsy(field: Option<string>)
  {
    field == None || field == Some("")
  }

  /**
   A `ball_clicked` as the server builds it: the ball's colour is the
   clicking player's own colour, and the player is present.
   */
  predicate ServerShaped(m: ServerMessage)
  {
    m.BallClicked? ==> m.clicker.Some? && m.color == m.clicker.value.color
  }

  /** A JSON value as a request body field holds it; `Undefined` is a missing field. */
  datatype JsonValue =
    | Undefined
    | Null
    | Bool(b: bool)
    | Number(n: real)
    | Str(s: string)
    | Array
    | Object

  /** JavaScript truthiness of a JSON value (JSON has no NaN). */
  predicate Truthy(v: JsonValue)
  {
    match v
    case Undefined => false
    case Null => false
    case Bool(b) => b
    case Number(n) => n != 0.0
    case Str(s) => s != ""
    case Array => true
    case Object => true
  }
}
