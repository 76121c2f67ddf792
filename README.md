# Ball Clicker sessions and rosters, in Dafny

This project models the real-time part of the Ball Clicker game. It has two sides.

- **The server.** It keeps a registry (`clients`) of which connection joined as which player. It handles `join` and `click` frames and connection close, and broadcasts `player_joined`, `ball_clicked` and `player_left` to every joined connection. It also checks the input of the score endpoint.
- **The browser.** Its socket wrapper keeps a table of handlers per event type and guards what it sends. The game page keeps a roster of players and click counts driven by the server's events, ends the game at 42 clicks and shows the standings.

Modules, one per concern:

- `JsMap` (`js_map.dfy`): a JavaScript `Map` as an insertion-ordered list of entries with unique keys. `set` keeps an existing key in place, `delete` removes the entry, and iteration follows entry order.
- `Protocol` (`protocol.dfy`): players, client frames, server events, JSON values and their truthiness.
- `Backend` (`backend.dfy`): the server. Each handler is a pure step function on a `State` value, with its properties as `ensures` clauses and lemmas. The `Server` class holds the same state as fields, and each of its methods is proved to perform its step.
- `ClientSocket` (`client_socket.dfy`): the `GameWebSocket` class and its handler registry.
- `Roster` (`roster.dfy`): the roster operations, the `ball_clicked` score guard, the 42-click threshold and the standings sort.
- `Frontend` (`frontend.dfy`): the `Game` class. The methods that handle the server's events are proved against pure functions on a `Screen` value (roster, ball colour, game-over overlays). `ShowGameOver`, `PressJoin` and `TapBall` state their effect on the fields directly.
- `Session` (`session.dfy`): the server and the browsers together.

Storage calls and the network are parameters. `createPlayer` is the `Insert` reply: a `lastID`, or a failed insert. `recordClick` and `saveScore` are a success flag each. Each inbound event is handled to completion before the next.

The property that spans both sides: the server always sends `ball_clicked` with `color` equal to the clicking player's own colour (`srcs/back/src/index.ts:80-84`). The browser counts a click only when those two colours differ (`srcs/front/src/main.ts:19`). So in every run of the server in which every joined colour is a string, no roster count ever rises above what it was, a page that starts empty shows zero clicks for everyone, and the game-over overlay is never shown (`Session.EveryRunNoRise`, `Session.FreshPageStaysAtZero`). Every run driven by the game's own page is such a run, because its colour picker yields a string. The `join` check (`srcs/back/src/index.ts:55`) only tests truthiness, so another client could join with a colour that is a JSON object or array. The browser would then parse the event's two copies of it into distinct objects, the guard would fire, and clicks would count. Such runs are outside the model. One might expect the clicking player's roster to show one click after a click. The code never does this when every joined colour is a string, and the model follows the code.

## Model

| member | source | states |
|---|---|---|
| `JsMap.Get` | srcs/back/src/index.ts:77 | `get` finds a value exactly when the key is present, and the value is the one stored under that key |
| `JsMap.Set` | srcs/back/src/index.ts:62-69 | after `set` the key maps to the new value and every other key is unchanged; an existing key keeps its place, a new key goes at the end |
| `JsMap.Delete` | srcs/back/src/index.ts:96 | after `delete` the key is absent and every other key is unchanged; the remaining keys keep their order; deleting an absent key changes nothing |
| `JsMap.DeleteUnique` | srcs/back/src/index.ts:96 | on a map with unique keys, `delete` keeps the keys unique and removes exactly one entry when the key was present |
| `Backend.BroadcastStep` | srcs/back/src/index.ts:33-37 | `broadcast` changes only the outbox; it appends one copy of the event per registered client, in the registry's order, and nothing else |
| `Backend.OneCopyEach` | srcs/back/src/index.ts:33-37 | over a registry with unique sockets, a broadcast reaches each registered socket exactly once and no other socket |
| `Backend.JoinStep` | srcs/back/src/index.ts:54-74 | a missing or empty nickname or colour, a failed insert, or a zero player id each log an error and change neither the registry nor the outbox; otherwise the socket maps to `{id, nickname, color}`, replacing any earlier entry, other sockets are unchanged, a new socket goes after the existing ones while a rejoining one keeps its place, and one `player_joined` goes to every client now registered, in that order |
| `Backend.ClickStep` | srcs/back/src/index.ts:76-86 | a click from an unregistered socket changes nothing; from a registered socket it appends that player's id to the click log and broadcasts one `ball_clicked` whose colour is the player's own; a failed `recordClick` logs an error and broadcasts nothing |
| `Backend.MessageStep` | srcs/back/src/index.ts:48-91 | a frame of an unrecognized type changes nothing; an unparseable frame only logs an error; only `join` changes the registry and only `click` changes the click log |
| `Backend.CloseStep` | srcs/back/src/index.ts:93-102 | closing an unregistered socket changes nothing; closing a registered one removes exactly its entry, leaves the others unchanged and in their order, and sends one `player_left` carrying that player to the remaining clients, in that order |
| `Backend.PostScoreStep` | srcs/back/src/index.ts:120-134 | a missing or `null` body makes the route throw before its check, which is logged and answered 500 with nothing saved; the reply is 400 `Invalid input` exactly when a body is present and its `username` is falsy or its `score` is not a number, and then nothing is saved; otherwise a successful save appends the row and replies 200, and a failed one saves nothing, logs an error and replies 500 `Failed to save score` |
| `Backend.JoinKeepsConsistent` | srcs/back/src/index.ts:62-73 | a join keeps the registry a map and the outbox well shaped; a successful join sends the joiner itself exactly one `player_joined`, because it is registered before the broadcast, and every registered socket exactly one |
| `Backend.ClickKeepsConsistent` | srcs/back/src/index.ts:79-84 | a recorded click raises the clicking player's stored click count by exactly one and reaches every registered socket exactly once |
| `Backend.CloseKeepsConsistent` | srcs/back/src/index.ts:95-101 | a close of a joined socket shrinks the registry by one and tells every remaining socket once and the leaver not at all |
| `Backend.MessageKeepsConsistent` | srcs/back/src/index.ts:53-87 | every frame keeps the registry a map and every sent `ball_clicked` in the clicker's own colour |
| `Backend.Server.constructor` | srcs/back/src/index.ts:30 | the server starts with an empty registry, nothing sent, empty logs |
| `Backend.Server.Broadcast` | srcs/back/src/index.ts:33-37 | the loop over `clients.values()` performs `BroadcastStep` |
| `Backend.Server.Join` | srcs/back/src/index.ts:54-74 | the `join` case performs `JoinStep` and keeps the server consistent |
| `Backend.Server.Click` | srcs/back/src/index.ts:76-86 | the `click` case performs `ClickStep` and keeps the server consistent |
| `Backend.Server.OnMessage` | srcs/back/src/index.ts:48-91 | the message handler performs `MessageStep` and keeps the server consistent |
| `Backend.Server.OnClose` | srcs/back/src/index.ts:93-102 | the close handler performs `CloseStep` and keeps the server consistent |
| `Backend.Server.PostScore` | srcs/back/src/index.ts:120-134 | the score endpoint performs `PostScoreStep` |
| `ClientSocket.Register` | srcs/front/src/services/websocket.ts:23-28 | `on` appends the handler to its type's list, creating the list if absent; the lists of other types are unchanged |
| `ClientSocket.DispatchOrder` | srcs/front/src/services/websocket.ts:12-16 | after any sequence of `on` calls, the lookup `HandlersFor` (`messageHandlers.get(type)`, defaulting to the empty list) yields exactly the handlers registered under the event's type, in registration order, each as often as registered; an unregistered type yields none |
| `ClientSocket.GameWebSocket.constructor` | srcs/front/src/services/websocket.ts:5-10 | a new wrapper has no handlers, an empty colour, nothing sent, and a connecting socket |
| `ClientSocket.GameWebSocket.On` | srcs/front/src/services/websocket.ts:23-28 | `on` updates the handler table as `Register` does |
| `ClientSocket.GameWebSocket.Send` | srcs/front/src/services/websocket.ts:30-34 | a frame is transmitted only while the socket is open and is dropped otherwise |
| `ClientSocket.GameWebSocket.Join` | srcs/front/src/services/websocket.ts:36-43 | `join` sets the current colour to the given colour and then sends the join frame under the open-socket guard |
| `ClientSocket.GameWebSocket.SendClick` | srcs/front/src/services/websocket.ts:45-52 | a click frame is sent only when the ball's colour differs from the current colour (and the socket is open) |
| `Roster.AddPlayer` | srcs/front/src/main.ts:100-103 | the player's id maps to its nickname and colour with zero clicks, replacing any earlier entry; other ids are unchanged; an existing id keeps its place and a new id goes last |
| `Roster.RemovePlayer` | srcs/front/src/main.ts:105-108 | only the given id is removed; other ids are unchanged and keep their order |
| `Roster.Increment` | srcs/front/src/main.ts:110-115 | a listed player's clicks rise by exactly one; an unlisted id changes nothing; no other entry changes and the order is kept |
| `Roster.EndsGame` | srcs/front/src/main.ts:110-119 | the game ends on a player's click exactly when that player is listed and, after the increment, has at least 42 clicks |
| `Roster.Scores` | srcs/front/src/main.ts:19 | the `ball_clicked` guard never fires on an event as the server builds it, whose colour is its player's own |
| `Roster.Standings` | srcs/front/src/main.ts:143-144 | the standings are all of the roster's entries, most clicks first |
| `Roster.SortByClicks` | srcs/front/src/main.ts:143-144 | the standings are in descending order of clicks and are a permutation of the roster's entries |
| `Roster.CrownedLeads` | srcs/front/src/main.ts:150-153 | the first, crowned entry of the standings has at least as many clicks as every player on the roster |
| `Frontend.ScoreStep` | srcs/front/src/main.ts:110-121 | `updatePlayerScore` increments as `Increment` does and adds a game-over overlay with the standings exactly when the listed player now has at least 42 clicks |
| `Frontend.Run` | srcs/front/src/main.ts:16-31 | a closure leaves the page unchanged for an event of another type; a `ball_clicked` closure paints the ball in the event's colour; no closure adds an overlay unless the score guard fires |
| `Frontend.RunAll` | srcs/front/src/services/websocket.ts:15 | running a list of closures none of which is registered for the event's type leaves the page unchanged, and none adds an overlay unless the score guard fires |
| `Frontend.Deliver` | srcs/front/src/main.ts:16-31 | `player_joined` adds the player with zero clicks; `player_left` removes it; `ball_clicked` recolours the ball, and changes the score only when a player is present and the event's colour differs from that player's colour |
| `Frontend.WiringDispatch` | srcs/front/src/main.ts:16-31 | each event type runs exactly the one handler the game registered for it |
| `Frontend.ConstructorWiring` | srcs/front/src/main.ts:16-31 | the constructor's three `on` calls build exactly the game's handler table |
| `Frontend.Game.constructor` | srcs/front/src/main.ts:11-32 | a new game has an empty roster, a white ball, the white default player colour, the join form open, and its three handlers wired |
| `Frontend.Game.AddPlayer` | srcs/front/src/main.ts:100-103 | performs `Roster.AddPlayer` on the roster and keeps its keys unique |
| `Frontend.Game.RemovePlayer` | srcs/front/src/main.ts:105-108 | performs `Roster.RemovePlayer` on the roster and keeps its keys unique |
| `Frontend.Game.UpdatePlayerScore` | srcs/front/src/main.ts:110-121 | performs `ScoreStep` on the page |
| `Frontend.Game.ShowGameOver` | srcs/front/src/main.ts:139-165 | appends one overlay holding the standings |
| `Frontend.Game.Handle` | srcs/front/src/main.ts:16-31 | each registered closure does to the page what `Run` says |
| `Frontend.Game.Receive` | srcs/front/src/services/websocket.ts:12-16 | running the registered handlers in order does to the page what `Deliver` says |
| `Frontend.Game.PressJoin` | srcs/front/src/main.ts:88-97 | pressed while the form is shown: with an empty nickname nothing changes; otherwise the player colour and the socket's current colour become the chosen colour, the join frame is sent under the open-socket guard, and the form closes |
| `Frontend.Game.TapBall` | srcs/front/src/main.ts:80-84 | a click frame goes out only if the ball's colour before the tap differs from the socket's current colour, and the ball then takes the player's colour |
| `Session.Serve` | srcs/back/src/index.ts:48-102 | handling frames and closes one at a time never changes the scores table and only appends to what was sent, the click log and the error log |
| `Session.ServeConsistent` | srcs/back/src/index.ts:53-102 | any sequence of frames and closes keeps the server consistent: unique registry keys, and every sent `ball_clicked` in its player's own colour |
| `Session.InboxShaped` | srcs/back/src/index.ts:80-84 | every event a socket receives has the shape the server builds |
| `Session.DeliverNoRise` | srcs/front/src/main.ts:16-21 | a server-built event raises no roster count and shows no overlay |
| `Session.ReplayNoRise` | srcs/front/src/main.ts:16-21 | a run of server-built events raises no roster count and shows no overlay |
| `Session.EveryRunNoRise` | srcs/back/src/index.ts:80-84 | in every run of the server from its start in which every joined colour is a string, the events any browser receives never raise a roster count and never show the game-over overlay |
| `Session.FreshPageStaysAtZero` | srcs/front/src/main.ts:110-119 | a page that starts empty lists every player with zero clicks and never shows the game-over overlay, in every run of the server in which every joined colour is a string |
| `Session.ForeignColourScores` | srcs/front/src/main.ts:19-20 | an event whose colour differs from its player's colour adds exactly one click to that player, so it is the server's message shape that keeps the counts still |

## Left out

- JSON parsing and serialisation. An unparseable frame, or one that parses to `null` and throws on its `type` lookup, is the single `Malformed` frame. A score request body is either present, with its two fields, or missing or `null` (`NoBody`). The framework's 500 reply to a route that throws is modelled by its `Internal Server Error` text alone. The `join` fields are modelled as an absent or present string; other JSON types in those fields are not modelled. So `Session.EveryRunNoRise` and `Session.FreshPageStaysAtZero` cover only runs in which every joined colour is a string. A truthy object or array colour would reach the browser as two unequal objects, and its clicks would count.
- The players table and its rows. A player id is the `lastID` the store returns. An undefined or NaN `lastID` is folded into the falsy id 0.
- The `/api/players`, `/api/clicks/:playerId`, `/api/leaderboard` and health-check routes, Fastify route wiring and server start. `Backend.ClickCount` models only the count that the clicks route reads.
- Error messages. The server's logging (`fastify.log.error`, and `console.error` in the score endpoint) is modelled only as the order of the logged faults. The browser socket's `onerror` handler, which only logs, is not modelled.
- Interleaving of pending storage calls, and transport delivery. Each event is handled atomically, and every `socket.send` counts as delivered. The `message` listener is asynchronous and is not awaited, so events can overlap even on one socket. If a socket closes while its own `join` is still waiting for `createPlayer`, the close handler finds no entry. The join then registers the closed socket, that entry is never removed, and no `player_left` is ever sent for that player. The model does not capture this.
- The server does not record that a socket has closed. The model, like the code, treats a later frame on a closed socket as coming from a socket that never joined.
- The browser's `readyState` changes. They are the browser's doing, so `ClientSocket.GameWebSocket.Transition` stands for them.
- The DOM and HTML: `setupUI`, `updatePlayersList` and the overlay markup. An overlay is modelled as the standings list it displays. Removing the join form is modelled as the `formOpen` flag.
- The 3D scene. The ball is its colour string. The 3D library's hex conversion in `getCurrentColor` is not modelled, so `TapBall` compares the colour exactly as it was set. The colour picker yields lower-case `#rrggbb`. If the library's conversion yields upper-case hex, the `sendClick` guard in the real page practically never suppresses a click, while the model's `TapBall` does. `disableClicks` is never called and is not modelled.
- A handler given an event of another type. The wrapper never does this, so `Frontend.Run` leaves the page unchanged in that case. A handler that throws (for example on a `player_joined` without a player) is not modelled, because the server never sends one.
- Roster.SortByClicks: proves descending order and permutation. It does not prove that ties keep roster order, which JavaScript's stable sort guarantees.
