/**
 The browser's roster: a `Map` from player id to `{nickname, color, clicks}`
 rebuilt from the server's events, the score guard of `ball_clicked`, the
 42-click end of game and the final standings.
 */
module Roster {
  import opened Wrappers
  import JsMap
  import opened Protocol

  /** A roster entry. */
  datatype Entry = Entry(nickname: string, color: string, clicks: int)

  /** The `players` map, in insertion order. */
  type Players = seq<(int, Entry)>

  /** The click count at which a player ends the game. */
  const GameOverClicks := 42

  /** `addPlayer(player)`: a fresh entry with no clicks, replacing any entry for that id. */
  function AddPlayer(ps: Players, p: Player): (r: Players)
    ensures JsMap.Get(r, p.id) == Some(Entry(p.nickname, p.color, 0))
    ensures forall id :: id != p.id ==> JsMap.Get(r, id) == JsMap.Get(ps, id)
    ensures JsMap.Keys(r) == if p.id in JsMap.Keys(ps) then JsMap.Keys(ps) else JsMap.Keys(ps) + [p.id]
  {
    JsMap.Set(ps, p.id, Entry(p.nickname, p.color, 0))
  }

  /** `removePlayer(id)`. */
  function RemovePlayer(ps: Players, id: int): (r: Players)
    ensures JsMap.Get(r, id) == None
    ensures forall other :: other != id ==> JsMap.Get(r, other) == JsMap.Get(ps, other)
    ensures JsMap.Keys(r) == JsMap.Without(JsMap.Keys(ps), id)
  {
    JsMap.Delete(ps, id)
  }

  /** The `clicks++` of `updatePlayerScore`: only that entry, only if present, by exactly one. */
  function Increment(ps: Players, id: int): (r: Players)
    ensures JsMap.Get(ps, id).None? ==> r == ps
    ensures JsMap.Get(ps, id).Some? ==>
      var e := JsMap.Get(ps, id).value;
      JsMap.Get(r, id) == Some(Entry(e.nickname, e.color, e.clicks + 1))
    ensures forall other :: other != id ==> JsMap.Get(r, other) == JsMap.Get(ps, other)
    ensures JsMap.Keys(r) == JsMap.Keys(ps)
  {
    match JsMap.Get(ps, id)
    case None => ps
    case Some(e) => JsMap.Set(ps, id, e.(clicks := e.clicks + 1))
  }

  /** Whether `updatePlayerScore(id)` ends the game: the entry exists and reaches 42 clicks. */
  predicate EndsGame(ps: Players, id: int)
    ensures EndsGame(ps, id) ==> id in JsMap.Keys(ps)
    ensures EndsGame(ps, id) <==>
      JsMap.Get(Increment(ps, id), id).Some? && JsMap.Get(Increment(ps, id), id).value.clicks >= GameOverClicks
  {
    JsMap.Get(ps, id).Some? && JsMap.Get(ps, id).value.clicks + 1 >= GameOverClicks
  }

  /**
   The `ball_clicked` guard: the score moves only when the event names a
   player and the event's colour differs from that player's colour.
   */
  predicate Scores(m: ServerMessage)
    ensures ServerShaped(m) ==> !Scores(m)
  {
    m.BallClicked? && m.clicker.Some? && m.color != m.clicker.value.color
  }

  // ---------------------------------------------------------------- standings

  predicate Descending(es: seq<Entry>)
  {
    forall i, j :: 0 <= i < j < |es| ==> es[i].clicks >= es[j].clicks
  }

  /** Puts `x` before the first entry with no more clicks than `x`. */
  function InsertByClicks(x: Entry, sorted: seq<Entry>): (r: seq<Entry>)
    requires Descending(sorted)
    ensures Descending(r)
    ensures multiset(r) == multiset(sorted) + multiset{x}
    ensures r[0] == x || r[0] == sorted[0]
  {
    if sorted == [] then [x]
    else if sorted[0].clicks <= x.clicks then [x] + sorted
    else
      var rest := InsertByClicks(x, sorted[1..]);
      assert sorted == [sorted[0]] + sorted[1..];
      assert sorted[0].clicks >= rest[0].clicks;
      [sorted[0]] + rest
  }

  /** `sort((a, b) => b.clicks - a.clicks)`: most clicks first. */
  function SortByClicks(es: seq<Entry>): (r: seq<Entry>)
    ensures Descending(r)
    ensures multiset(r) == multiset(es)
  {
    if es == [] then []
    else
      assert es == [es[0]] + es[1..];
      InsertByClicks(es[0], SortByClicks(es[1..]))
  }

  /** The game-over standings: every roster entry, most clicks first. */
  function Standings(ps: Players): (r: seq<Entry>)
    ensures Descending(r)
    ensures multiset(r) == multiset(JsMap.Values(ps))
  {
    SortByClicks(JsMap.Values(ps))
  }

  /** The crowned first entry of the standings has at least as many clicks as any player. */
  lemma CrownedLeads(ps: Players, e: Entry)
    requires e in JsMap.Values(ps)
    ensures |Standings(ps)| > 0
    ensures Standings(ps)[0].clicks >= e.clicks
  {
    var st := Standings(ps);
    assert e in multiset(JsMap.Values(ps));
    assert e in multiset(st);
    var j :| 0 <= j < |st| && st[j] == e;
    assert j == 0 || st[0].clicks >= st[j].clicks;
  }
}
