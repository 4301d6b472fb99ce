/** The Nine Dragons hub (server/hub.go): the registry of live clients,
    games and the one waiting game, and the handlers the event loop runs one
    event at a time. Each handler is a pure transition from the registry to
    the next registry plus the messages it queued. */
module TileHub {
  import opened Common
  import opened TileGame

  /** What the hub knows of a client: its display name, the game it last
      joined and the colour it was last given. */
  datatype Client = Client(name: string, gameId: Option<GameId>, color: Option<Color>)

  const NewClient := Client("", None, None)

  /** The registry. `games` holds every game object ever created (the
      server's heap: a game stays reachable through the waiting pointer or
      stale client ids), `registry` is the set of ids listed in the server's
      game map, `waiting` points at the game awaiting a second player, and
      `nextId` stands for the UUID source. `checked` selects the corrected
      send, which skips a recipient that is no longer live; the server as
      written has it off. */
  datatype Hub = Hub(
    live: set<ClientId>,
    clients: map<ClientId, Client>,
    games: map<GameId, Game>,
    registry: set<GameId>,
    waiting: Option<GameId>,
    nextId: GameId,
    checked: bool)

  const EmptyHub := Hub({}, map[], map[], {}, None, 0, false)

  datatype HubError = OpponentLeft | GameFull | GameNotFound | Rejected(reason: TileError)

  /** Outbound message kinds with the payload fields the server fills in. */
  datatype Msg =
    | Error(error: HubError)
    | PlayerJoined(color: Color, gameId: GameId)
    | WaitingPlayer
    | GameStart(firstPlayer: Color, yourColor: Color, blueName: string, redName: string)
    | TilePlayed(color: Color, tile: int, round: int, nextPlayer: Color, bluePlayed: bool, redPlayed: bool)
    | RoundResult(round: int, blueTile: int, redTile: int, winner: Option<Color>,
                  blueWins: int, redWins: int, nextPlayer: Color)
    | GameOver(winner: Option<Color>, blueWins: int, redWins: int)

  /** Decoded client requests. A colour preference other than blue or red
      decodes to None; a missing tile decodes to 0. */
  datatype Action = Join(name: string, color: Option<Color>) | Play(tile: int) | Other

  datatype Event = Register(client: ClientId) | Unregister(client: ClientId) | Message(client: ClientId, action: Action)

  /** An event together with when each client's outbound queue fills up
      while it is handled. */
  datatype Input = Input(event: Event, room: Room)

  /** What handling an event leaves: the next registry, the messages queued
      in order, and whether a write hit a closed queue (which stops the
      server; the registry after such a fault has no meaning). */
  datatype Effect = Effect(hub: Hub, out: seq<Envelope<Msg>>, crashed: bool)

  function Quiet(h: Hub): Effect {
    Effect(h, [], false)
  }

  function ClientOf(h: Hub, c: ClientId): Client {
    if c in h.clients then h.clients[c] else NewClient
  }

  /** The registered game a client's id names, if any. */
  function Lookup(h: Hub, id: Option<GameId>): (r: Option<Game>)
    ensures r.Some? <==> id.Some? && id.value in h.registry && id.value in h.games
    ensures r.Some? ==> r.value == h.games[id.value]
  {
    if id.Some? && id.value in h.registry && id.value in h.games then Some(h.games[id.value]) else None
  }

  /** Queue `m` for `to`, evict `to` when its queue overflows, or fault
      when its queue was already closed (the corrected send skips it). */
  function Send(e: Effect, room: Room, to: ClientId, m: Msg): (e': Effect)
    ensures e'.hub.(live := e.hub.live) == e.hub
    ensures e'.hub.live <= e.hub.live && e.hub.live - room.Keys <= e'.hub.live
    ensures e'.out == e.out || e'.out == e.out + [Envelope(to, m)]
    ensures e'.crashed <==> e.crashed || (to !in e.hub.live && !e.hub.checked)
    ensures to !in e.hub.live ==> e'.hub == e.hub && e'.out == e.out
    ensures to in e.hub.live && Overflows(room, e.out, to) ==>
      e'.hub.live == e.hub.live - {to} && e'.out == e.out
    ensures to in e.hub.live && !Overflows(room, e.out, to) ==>
      e'.hub == e.hub && e'.out == e.out + [Envelope(to, m)]
  {
    if to !in e.hub.live then e.(crashed := e.crashed || !e.hub.checked)
    else if Overflows(room, e.out, to) then e.(hub := e.hub.(live := e.hub.live - {to}))
    else e.(out := e.out + [Envelope(to, m)])
  }

  /** Send applies the delivery rule of `Deliver`, or of `DeliverChecked`
      when the hub checks the live set first. */
  lemma SendDelivers(e: Effect, room: Room, to: ClientId, m: Msg)
    ensures var d := if e.hub.checked then DeliverChecked(e.hub.live, Overflows(room, e.out, to), to, m)
                     else Deliver(e.hub.live, Overflows(room, e.out, to), to, m);
      Send(e, room, to, m) == Effect(e.hub.(live := d.live), e.out + d.queued, e.crashed || d.closed)
  {
  }

  /** Send `m` to the player in `col`, if seated. */
  function Tell(e: Effect, room: Room, players: map<Color, ClientId>, col: Color, m: Msg): (e': Effect)
    ensures e'.hub.(live := e.hub.live) == e.hub
    ensures e'.hub.live <= e.hub.live && e.hub.live - room.Keys <= e'.hub.live
    ensures e'.out == e.out || (col in players && e'.out == e.out + [Envelope(players[col], m)])
    ensures col in players && players[col] in e.hub.live - room.Keys ==> e'.out == e.out + [Envelope(players[col], m)]
    ensures e.crashed ==> e'.crashed
    ensures e.hub.checked ==> e'.crashed == e.crashed
  {
    if col in players then Send(e, room, players[col], m) else e
  }

  /** Send `m` to every seated player, Blue first. */
  function Broadcast(e: Effect, room: Room, players: map<Color, ClientId>, m: Msg): (e': Effect)
    ensures e'.hub.(live := e.hub.live) == e.hub
    ensures e'.hub.live <= e.hub.live && e.hub.live - room.Keys <= e'.hub.live
    ensures |e'.out| >= |e.out| && e'.out[..|e.out|] == e.out
    ensures forall i :: |e.out| <= i < |e'.out| ==> e'.out[i].msg == m && e'.out[i].to in players.Values
    ensures forall col :: col in players && players[col] in e.hub.live - room.Keys ==> Envelope(players[col], m) in e'.out
    ensures e.crashed ==> e'.crashed
    ensures e.hub.checked ==> e'.crashed == e.crashed
  {
    var e1 := Tell(e, room, players, Blue, m);
    var e2 := Tell(e1, room, players, Red, m);
    forall i | |e.out| <= i < |e2.out|
      ensures e2.out[i].msg == m && e2.out[i].to in players.Values
    {
      if i < |e1.out| { assert e2.out[i] == e1.out[i]; }
    }
    QueuedStays(e1.out, e2.out);
    forall col | col in players && players[col] in e.hub.live - room.Keys
      ensures Envelope(players[col], m) in e2.out
    {
      if col == Blue { } else { assert col == Red; }
    }
    e2
  }

  // ---------------------------------------------------------------------
  // Disconnect

  /** Tell the player in `color`, unless it is the leaver, that its
      opponent left. */
  function NotifyLeft(e: Effect, room: Room, players: map<Color, ClientId>, leaver: ClientId, color: Color)
    : (e': Effect)
    ensures e'.hub.(live := e.hub.live) == e.hub
    ensures e'.hub.live <= e.hub.live && e.hub.live - room.Keys <= e'.hub.live
    ensures e'.out == e.out || (color in players && players[color] != leaver &&
                                e'.out == e.out + [Envelope(players[color], Error(OpponentLeft))])
    ensures color in players && players[color] != leaver && players[color] in e.hub.live - room.Keys ==>
      e'.out == e.out + [Envelope(players[color], Error(OpponentLeft))]
    ensures e.hub.checked ==> e'.crashed == e.crashed
  {
    if color in players && players[color] != leaver then Send(e, room, players[color], Error(OpponentLeft)) else e
  }

  /** The seats the leaver holds: after teardown only these remain. */
  function LeaverSeats(players: map<Color, ClientId>, leaver: ClientId): (r: map<Color, ClientId>)
    ensures forall col :: col in r <==> col in players && players[col] == leaver
    ensures forall col :: col in r ==> r[col] == leaver
  {
    map col | col in players && players[col] == leaver :: leaver
  }

  /** After teardown a colour stays seated exactly when the leaver held it. */
  predicate OnlyLeaverSeated(before: map<Color, ClientId>, after: map<Color, ClientId>, leaver: ClientId, col: Color) {
    (col in after <==> col in before && before[col] == leaver) && (col in after ==> after[col] == leaver)
  }

  /** A seat held by someone other than the leaver, whose queue is open and
      never fills during the event, is told that the opponent left. */
  predicate Told(players: map<Color, ClientId>, leaver: ClientId, reachable: set<ClientId>,
                 out: seq<Envelope<Msg>>, col: Color) {
    col in players && players[col] != leaver && players[col] in reachable ==>
      Envelope(players[col], Error(OpponentLeft)) in out
  }

  /** Tell every player of `players` but the leaver, Blue first. */
  function NotifyOthers(e: Effect, room: Room, players: map<Color, ClientId>, leaver: ClientId): (e': Effect)
    ensures e'.hub.(live := e.hub.live) == e.hub
    ensures e'.hub.live <= e.hub.live && e.hub.live - room.Keys <= e'.hub.live
    ensures |e'.out| >= |e.out| && e'.out[..|e.out|] == e.out
    ensures forall i :: |e.out| <= i < |e'.out| ==> e'.out[i].msg == Error(OpponentLeft) && e'.out[i].to != leaver
    ensures Told(players, leaver, e.hub.live - room.Keys, e'.out, Blue)
    ensures Told(players, leaver, e.hub.live - room.Keys, e'.out, Red)
    ensures e.hub.checked ==> e'.crashed == e.crashed
  {
    var e1 := NotifyLeft(e, room, players, leaver, Blue);
    var e2 := NotifyLeft(e1, room, players, leaver, Red);
    QueuedStays(e1.out, e2.out);
    e2
  }

  /** Tear down the game of a client that has left the live set: every other
      player is told and unseated, the game leaves the registry, and the
      waiting slot is cleared if it held that game. The other players keep
      their game id, which now names no registered game. */
  function HandleDisconnect(h: Hub, c: ClientId, room: Room): (e: Effect)
    ensures Lookup(h, ClientOf(h, c).gameId).None? ==> e == Quiet(h)
    ensures Lookup(h, ClientOf(h, c).gameId).Some? ==>
      var id := ClientOf(h, c).gameId.value;
      var g := h.games[id];
      && e.hub.registry == h.registry - {id}
      && e.hub.waiting == (if h.waiting == Some(id) then None else h.waiting)
      && id in e.hub.games && e.hub.games == h.games[id := e.hub.games[id]]
      && e.hub.games[id] == g.(players := e.hub.games[id].players)
      && OnlyLeaverSeated(g.players, e.hub.games[id].players, c, Blue)
      && OnlyLeaverSeated(g.players, e.hub.games[id].players, c, Red)
      && e.hub.clients == h.clients && e.hub.nextId == h.nextId
      && e.hub.live <= h.live && h.live - room.Keys <= e.hub.live
      && Told(g.players, c, h.live - room.Keys, e.out, Blue)
      && Told(g.players, c, h.live - room.Keys, e.out, Red)
      && (forall i :: 0 <= i < |e.out| ==> e.out[i].msg == Error(OpponentLeft) && e.out[i].to != c)
    ensures h.checked ==> !e.crashed
  {
    match Lookup(h, ClientOf(h, c).gameId)
    case None => Quiet(h)
    case Some(g) =>
      var id := ClientOf(h, c).gameId.value;
      var e2 := NotifyOthers(Quiet(h), room, g.players, c);
      var g2 := g.(players := LeaverSeats(g.players, c));
      var h' := e2.hub.(games := e2.hub.games[id := g2],
                        registry := e2.hub.registry - {id},
                        waiting := if e2.hub.waiting == Some(id) then None else e2.hub.waiting);
      e2.(hub := h')
  }

  // ---------------------------------------------------------------------
  // Join

  /** The game object the waiting pointer names. */
  function GameAt(h: Hub, id: GameId): Game {
    if id in h.games then h.games[id] else NewGame(id)
  }

  /** The colour the hub asks for: the preference (else Blue) for the first
      player, the free colour for the second, none when both are taken. */
  function ChooseColor(g: Game, preferred: Option<Color>): (r: Option<Color>)
    ensures g.players == map[] ==> r == Some(preferred.GetOr(Blue))
    ensures g.players != map[] ==>
      (r.None? <==> Blue in g.players && Red in g.players) &&
      (r.Some? ==> r.value !in g.players)
  {
    if |g.players| == 0 then Some(preferred.GetOr(Blue))
    else if Blue !in g.players then Some(Blue)
    else if Red !in g.players then Some(Red)
    else None
  }

  /** The id of the game a join lands in: the waiting game, or a fresh one. */
  function JoinTarget(h: Hub): GameId {
    if h.waiting.None? then h.nextId else h.waiting.value
  }

  /** The game object a join lands in. */
  function JoinGame(h: Hub): Game {
    if h.waiting.None? then NewGame(h.nextId) else GameAt(h, h.waiting.value)
  }

  /** Step one of a join: claim the waiting game and clear the slot, or
      create, register and park a fresh game; then point the client at it. */
  function ClaimSlot(h: Hub, c: ClientId, name: string): (h': Hub)
    ensures h.waiting.None? ==>
      && h'.waiting == Some(h.nextId) && h'.registry == h.registry + {h.nextId}
      && h'.nextId == h.nextId + 1 && h'.games == h.games[h.nextId := NewGame(h.nextId)]
    ensures h.waiting.Some? ==>
      && h'.waiting == None && h'.registry == h.registry && h'.nextId == h.nextId && h'.games == h.games
    ensures h'.clients == h.clients[c := ClientOf(h, c).(name := name, gameId := Some(JoinTarget(h)))]
    ensures h'.live == h.live && h'.checked == h.checked
  {
    var cl := ClientOf(h, c).(name := name, gameId := Some(JoinTarget(h)));
    if h.waiting.None? then
      var id := h.nextId;
      h.(games := h.games[id := NewGame(id)], registry := h.registry + {id}, waiting := Some(id),
         nextId := h.nextId + 1, clients := h.clients[c := cl])
    else
      h.(waiting := None, clients := h.clients[c := cl])
  }

  /** The name of the client seated as `color`, "" for an empty seat. */
  function NameOf(clients: map<ClientId, Client>, players: map<Color, ClientId>, color: Color): string {
    if color in players && players[color] in clients then clients[players[color]].name else ""
  }

  /** `m` announces the start of `g` with these names. */
  predicate StartNotice(m: Msg, g: Game, blue: string, red: string) {
    m.GameStart? && m.firstPlayer == g.current && m.blueName == blue && m.redName == red
  }

  /** Tell the player in `col`, if seated, that the match starts. */
  function Greet(e: Effect, room: Room, g: Game, col: Color, blue: string, red: string): (e': Effect)
    ensures e'.hub.(live := e.hub.live) == e.hub
    ensures e'.hub.live <= e.hub.live && e.hub.live - room.Keys <= e'.hub.live
    ensures e'.out == e.out ||
      (col in g.players && e'.out == e.out + [Envelope(g.players[col], GameStart(g.current, col, blue, red))])
    ensures col in g.players && g.players[col] in e.hub.live - room.Keys ==>
      e'.out == e.out + [Envelope(g.players[col], GameStart(g.current, col, blue, red))]
    ensures e.crashed ==> e'.crashed
    ensures e.hub.checked ==> e'.crashed == e.crashed
  {
    Tell(e, room, g.players, col, GameStart(g.current, col, blue, red))
  }

  /** Tell each seated player, Blue first, that the match starts: who moves
      first, its own colour and both names. */
  function AnnounceStart(e: Effect, room: Room, g: Game, blue: string, red: string): (e': Effect)
    ensures e'.hub.(live := e.hub.live) == e.hub
    ensures e'.hub.live <= e.hub.live && e.hub.live - room.Keys <= e'.hub.live
    ensures |e'.out| >= |e.out| && e'.out[..|e.out|] == e.out
    ensures forall i :: |e.out| <= i < |e'.out| ==> e'.out[i].to in g.players.Values && StartNotice(e'.out[i].msg, g, blue, red)
    ensures forall col :: col in g.players && g.players[col] in e.hub.live - room.Keys ==>
      Envelope(g.players[col], GameStart(g.current, col, blue, red)) in e'.out
    ensures e.crashed ==> e'.crashed
    ensures e.hub.checked ==> e'.crashed == e.crashed
  {
    var e1 := Greet(e, room, g, Blue, blue, red);
    var e2 := Greet(e1, room, g, Red, blue, red);
    QueuedStays(e1.out, e2.out);
    forall i | |e.out| <= i < |e2.out|
      ensures e2.out[i].to in g.players.Values && StartNotice(e2.out[i].msg, g, blue, red)
    {
      if i < |e1.out| { assert e2.out[i] == e1.out[i]; }
    }
    forall col | col in g.players && g.players[col] in e.hub.live - room.Keys
      ensures Envelope(g.players[col], GameStart(g.current, col, blue, red)) in e2.out
    {
      if col == Blue { } else { assert col == Red; }
    }
    e2
  }

  /** Acknowledge the client just seated as `col` in match `id`. */
  function Acknowledge(h2: Hub, room: Room, c: ClientId, col: Color, id: GameId): (e: Effect)
    ensures e.hub.(live := h2.live) == h2
    ensures e.hub.live <= h2.live && h2.live - room.Keys <= e.hub.live
    ensures !e.crashed || (c !in h2.live && !h2.checked)
    ensures e.out == [] || e.out == [Envelope(c, PlayerJoined(col, id))]
    ensures c in h2.live && c !in room ==> e.out == [Envelope(c, PlayerJoined(col, id))] && e.hub == h2
  {
    Send(Quiet(h2), room, c, PlayerJoined(col, id))
  }

  /** Acknowledge the client, which found the match half empty, and tell it
      to wait. */
  function Waiting(h2: Hub, room: Room, c: ClientId, col: Color, id: GameId): (e: Effect)
    ensures e.hub.(live := h2.live) == h2
    ensures e.hub.live <= h2.live && h2.live - room.Keys <= e.hub.live
    ensures h2.checked ==> !e.crashed
    ensures c in h2.live && c !in room ==> e.out == [Envelope(c, PlayerJoined(col, id)), Envelope(c, WaitingPlayer)]
    ensures forall i :: 0 <= i < |e.out| ==> e.out[i].to == c
  {
    var e1 := Acknowledge(h2, room, c, col, id);
    Send(e1, room, c, WaitingPlayer)
  }

  /** Acknowledge the client, which filled the match `g1`, and announce the
      start to both seats. */
  function Starting(h2: Hub, room: Room, c: ClientId, col: Color, id: GameId, g1: Game): (e: Effect)
    ensures e.hub.(live := h2.live) == h2
    ensures e.hub.live <= h2.live && h2.live - room.Keys <= e.hub.live
    ensures h2.checked ==> !e.crashed
    ensures c in h2.live && c !in room ==> |e.out| > 0 && e.out[0] == Envelope(c, PlayerJoined(col, id))
    ensures forall i :: 0 <= i < |e.out| ==>
      || e.out[i] == Envelope(c, PlayerJoined(col, id))
      || (e.out[i].to in g1.players.Values &&
          StartNotice(e.out[i].msg, g1, NameOf(h2.clients, g1.players, Blue), NameOf(h2.clients, g1.players, Red)))
    ensures forall k :: k in g1.players && g1.players[k] in h2.live - room.Keys ==>
      Envelope(g1.players[k], GameStart(g1.current, k, NameOf(h2.clients, g1.players, Blue), NameOf(h2.clients, g1.players, Red)))
        in e.out
  {
    var e1 := Acknowledge(h2, room, c, col, id);
    var blue := NameOf(h2.clients, g1.players, Blue);
    var red := NameOf(h2.clients, g1.players, Red);
    var e2 := AnnounceStart(e1, room, g1, blue, red);
    forall i | 0 <= i < |e2.out|
      ensures e2.out[i] == Envelope(c, PlayerJoined(col, id)) ||
              (e2.out[i].to in g1.players.Values && StartNotice(e2.out[i].msg, g1, blue, red))
    {
      if i < |e1.out| { assert e2.out[i] == e1.out[i]; }
    }
    assert e1.hub.live - room.Keys == h2.live - room.Keys;
    e2
  }

  /** Acknowledge the client just seated as `col` in match `id`, then start
      the match when it is full, else tell the client to wait. */
  function Welcome(h2: Hub, room: Room, c: ClientId, col: Color, id: GameId, g1: Game): (e: Effect)
    ensures e.hub.(live := h2.live) == h2
    ensures e.hub.live <= h2.live && h2.live - room.Keys <= e.hub.live
    ensures h2.checked ==> !e.crashed
    ensures c in h2.live && c !in room ==> |e.out| > 0 && e.out[0] == Envelope(c, PlayerJoined(col, id))
    ensures !g1.ready && c in h2.live && c !in room ==>
      e.out == [Envelope(c, PlayerJoined(col, id)), Envelope(c, WaitingPlayer)]
    ensures !g1.ready ==> forall i :: 0 <= i < |e.out| ==> e.out[i].to == c
    ensures g1.ready ==> forall i :: 0 <= i < |e.out| ==>
      || e.out[i] == Envelope(c, PlayerJoined(col, id))
      || (e.out[i].to in g1.players.Values &&
          StartNotice(e.out[i].msg, g1, NameOf(h2.clients, g1.players, Blue), NameOf(h2.clients, g1.players, Red)))
    ensures g1.ready ==> forall k :: k in g1.players && g1.players[k] in h2.live - room.Keys ==>
      Envelope(g1.players[k], GameStart(g1.current, k, NameOf(h2.clients, g1.players, Blue), NameOf(h2.clients, g1.players, Red)))
        in e.out
  {
    if g1.ready then Starting(h2, room, c, col, id, g1) else Waiting(h2, room, c, col, id)
  }

  /** The registry after a join that seats the client as `col`, leaving
      the claimed game as `g1`, before anything is sent. */
  function Enter(h: Hub, c: ClientId, name: string, col: Color, g1: Game): (h2: Hub)
    ensures h.waiting.None? ==>
      h2.waiting == Some(h.nextId) && h2.registry == h.registry + {h.nextId} && h2.nextId == h.nextId + 1
    ensures h.waiting.Some? ==>
      h2.waiting == None && h2.registry == h.registry && h2.nextId == h.nextId
    ensures h2.live == h.live && h2.checked == h.checked
    ensures h2.clients == h.clients[c := ClientOf(h, c).(name := name, gameId := Some(JoinTarget(h)), color := Some(col))]
    ensures h2.games == h.games[JoinTarget(h) := g1]
  {
    var h1 := ClaimSlot(h, c, name);
    assert h1.games[JoinTarget(h) := g1] == h.games[JoinTarget(h) := g1];
    h1.(games := h1.games[JoinTarget(h) := g1], clients := h1.clients[c := ClientOf(h1, c).(color := Some(col))])
  }

  /** Join: claim or create the game, pick the colour, seat the client and
      acknowledge it; start the match when it fills, else tell the client to
      wait. Nothing stops a client that is already in a game from joining
      again. When the claimed game has no free colour the client only gets
      an error, after the slot was cleared and its game id set. */
  function HandleJoin(h: Hub, c: ClientId, name: string, preferred: Option<Color>, room: Room): (e: Effect)
    ensures h.waiting.None? ==>
      e.hub.waiting == Some(h.nextId) && e.hub.registry == h.registry + {h.nextId} && e.hub.nextId == h.nextId + 1
    ensures h.waiting.Some? ==>
      e.hub.waiting == None && e.hub.registry == h.registry && e.hub.nextId == h.nextId
    ensures e.hub.live <= h.live && h.live - room.Keys <= e.hub.live && e.hub.checked == h.checked
    ensures h.checked ==> !e.crashed
    ensures ChooseColor(JoinGame(h), preferred).None? ==>
      && e.hub.games == h.games
      && e.hub.clients == h.clients[c := ClientOf(h, c).(name := name, gameId := Some(JoinTarget(h)))]
      && (e.out == [] || e.out == [Envelope(c, Error(GameFull))])
      && (c in h.live && c !in room ==> e.out == [Envelope(c, Error(GameFull))])
    ensures ChooseColor(JoinGame(h), preferred).Some? ==>
      var col := ChooseColor(JoinGame(h), preferred).value;
      var id := JoinTarget(h);
      var g1 := AddPlayer(JoinGame(h), c, col).value;
      && e.hub.clients == h.clients[c := ClientOf(h, c).(name := name, gameId := Some(id), color := Some(col))]
      && e.hub.games == h.games[id := g1]
      && (c in h.live && c !in room ==> |e.out| > 0 && e.out[0] == Envelope(c, PlayerJoined(col, id)))
      && (!g1.ready && c in h.live && c !in room ==>
            e.out == [Envelope(c, PlayerJoined(col, id)), Envelope(c, WaitingPlayer)])
      && (!g1.ready ==> forall i :: 0 <= i < |e.out| ==> e.out[i].to == c)
      && (g1.ready ==> forall i :: 0 <= i < |e.out| ==>
            || e.out[i] == Envelope(c, PlayerJoined(col, id))
            || (e.out[i].to in g1.players.Values &&
                StartNotice(e.out[i].msg, g1, NameOf(e.hub.clients, g1.players, Blue), NameOf(e.hub.clients, g1.players, Red))))
      && (g1.ready ==> forall k :: k in g1.players && g1.players[k] in h.live - room.Keys ==>
            Envelope(g1.players[k], GameStart(g1.current, k, NameOf(e.hub.clients, g1.players, Blue), NameOf(e.hub.clients, g1.players, Red)))
              in e.out)
  {
    var id := JoinTarget(h);
    var h1 := ClaimSlot(h, c, name);
    var g := JoinGame(h);
    match ChooseColor(g, preferred)
    case None => Send(Quiet(h1), room, c, Error(GameFull))
    case Some(col) =>
      match AddPlayer(g, c, col)
      case Failure(err) => Send(Quiet(h1), room, c, Error(Rejected(err)))
      case Success(g1) => Welcome(Enter(h, c, name, col, g1), room, c, col, id, g1)
  }

  // ---------------------------------------------------------------------
  // Play a tile

  function LastOrZero(s: seq<int>): int {
    if |s| > 0 then s[|s| - 1] else 0
  }

  /** Every message in `out` is an error addressed to `c`, and there is at
      most one. */
  predicate OnlyErrorTo(out: seq<Envelope<Msg>>, c: ClientId) {
    |out| <= 1 && forall i :: 0 <= i < |out| ==> out[i].to == c && out[i].msg.Error?
  }

  /** The tile notice for `color` putting down `tile` in match `g1`. */
  function Played(g1: Game, color: Color, tile: int): Msg {
    TilePlayed(color, tile, g1.round, GetNextPlayer(g1), Blue in g1.roundTiles, Red in g1.roundTiles)
  }

  /** The round report once `g1`'s round is resolved. */
  function RoundNotice(g1: Game): Msg {
    var (g2, outcome) := ProcessRound(g1);
    RoundResult(g1.round, LastOrZero(g2.Used(Blue)), LastOrZero(g2.Used(Red)),
                if outcome.Complete? then outcome.winner else None, g2.blueWins, g2.redWins, g2.current)
  }

  /** The closing notice for a decided match `g2`: the final counts, and a
      winner only when five wins or the higher count after the last round
      back it. */
  function OverNotice(g2: Game): (m: Msg)
    ensures m.GameOver? && m.blueWins == g2.blueWins && m.redWins == g2.redWins
    ensures forall c :: m.winner == Some(c) ==>
      g2.Wins(c) >= WinsToFinish || (g2.round > LastRound && g2.Wins(c) > g2.Wins(Opponent(c)))
    ensures IsGameOver(g2).Over? && m.winner == None ==> g2.round > LastRound && g2.blueWins == g2.redWins
  {
    VerdictJustified(g2);
    GameOver(if IsGameOver(g2).Over? then IsGameOver(g2).winner else None, g2.blueWins, g2.redWins)
  }

  /** The tile notice after an accepted tile: it names the tile, its colour
      and the round it was played in, flags that colour as having played,
      shows both flags exactly when the round is complete, and otherwise
      hands the move to the opponent. */
  lemma PlayedAnnouncesTile(g: Game, color: Color, tile: int)
    requires PlayTile(g, color, tile).Success?
    ensures var g1 := PlayTile(g, color, tile).value;
      var m := Played(g1, color, tile);
      && m.color == color && m.tile == tile && m.round == g.round
      && (color == Blue ==> m.bluePlayed) && (color == Red ==> m.redPlayed)
      && (m.bluePlayed && m.redPlayed <==> ProcessRound(g1).1.Complete?)
      && (ProcessRound(g1).1.Incomplete? ==> m.nextPlayer == Opponent(color))
  {
  }

  /** When each round tile is the last of its colour's used list, the round
      report shows the round just completed, the two tiles played in it,
      the winner of those tiles, the counts after scoring, and the colour
      moving next. */
  lemma RoundNoticeReportsRound(g1: Game)
    requires g1.RoundFull() && TilesLast(g1)
    ensures var m := RoundNotice(g1);
      && m.round == g1.round
      && m.blueTile == g1.roundTiles[Blue] && m.redTile == g1.roundTiles[Red]
      && m.winner == DetermineWinner(m.blueTile, m.redTile)
      && m.blueWins == g1.blueWins + (if m.winner == Some(Blue) then 1 else 0)
      && m.redWins == g1.redWins + (if m.winner == Some(Red) then 1 else 0)
      && m.nextPlayer == m.winner.GetOr(g1.current)
  {
    var g2 := ProcessRound(g1).0;
    assert g2.Used(Blue) == g1.Used(Blue) && g2.Used(Red) == g1.Used(Red);
  }

  /** `m` is one of the notices the resolved round of `g1` causes: the
      round report, and the closing notice only when the round decided the
      match. */
  predicate Concluded(g1: Game, m: Msg) {
    m == RoundNotice(g1) || (IsGameOver(ProcessRound(g1).0).Over? && m == OverNotice(ProcessRound(g1).0))
  }

  /** `m` is one of the notices a tile in `g1` can cause: the tile notice,
      and the notices of the round when it resolved. */
  predicate Reported(g1: Game, color: Color, tile: int, m: Msg) {
    m == Played(g1, color, tile) || (ProcessRound(g1).1.Complete? && Concluded(g1, m))
  }

  /** Report the resolved round of `g1` to both players; when that decided
      the match, announce the result and drop the game from the registry. */
  function ReportRound(e: Effect, room: Room, id: GameId, g1: Game): (e': Effect)
    ensures e'.hub.registry ==
      (if IsGameOver(ProcessRound(g1).0).Over? then e.hub.registry - {id} else e.hub.registry)
    ensures e'.hub.(live := e.hub.live, registry := e.hub.registry) == e.hub
    ensures e'.hub.live <= e.hub.live && e.hub.live - room.Keys <= e'.hub.live
    ensures |e'.out| >= |e.out| && e'.out[..|e.out|] == e.out
    ensures forall i :: |e.out| <= i < |e'.out| ==> e'.out[i].to in g1.players.Values && Concluded(g1, e'.out[i].msg)
    ensures forall k :: k in g1.players && g1.players[k] in e.hub.live - room.Keys ==>
      && Envelope(g1.players[k], RoundNotice(g1)) in e'.out
      && (IsGameOver(ProcessRound(g1).0).Over? ==> Envelope(g1.players[k], OverNotice(ProcessRound(g1).0)) in e'.out)
    ensures e.hub.checked ==> e'.crashed == e.crashed
  {
    var g2 := ProcessRound(g1).0;
    assert g2.players == g1.players;
    var e2 := Broadcast(e, room, g2.players, RoundNotice(g1));
    match IsGameOver(g2)
    case Continues => e2
    case Over(fw) =>
      var e3 := Broadcast(e2, room, g2.players, OverNotice(g2));
      forall i | |e.out| <= i < |e3.out|
        ensures e3.out[i].to in g1.players.Values && Concluded(g1, e3.out[i].msg)
      {
        if i < |e2.out| { assert e3.out[i] == e2.out[i]; }
      }
      QueuedStays(e2.out, e3.out);
      e3.(hub := e3.hub.(registry := e3.hub.registry - {id}))
  }

  /** After a successful tile: tell both players, resolve the round if both
      tiles are down, report it, and when the match is decided announce the
      result and drop the game from the registry. */
  function AfterTile(h: Hub, room: Room, id: GameId, color: Color, tile: int, g1: Game): (e: Effect)
    ensures var (g2, outcome) := ProcessRound(g1);
      && e.hub.games == h.games[id := g2]
      && e.hub.registry == (if outcome.Complete? && IsGameOver(g2).Over? then h.registry - {id} else h.registry)
      && e.hub.(live := h.live, games := h.games, registry := h.registry) == h
      && e.hub.live <= h.live && h.live - room.Keys <= e.hub.live
    ensures forall i :: 0 <= i < |e.out| ==> e.out[i].to in g1.players.Values && Reported(g1, color, tile, e.out[i].msg)
    ensures forall k :: k in g1.players && g1.players[k] in h.live - room.Keys ==>
      && Envelope(g1.players[k], Played(g1, color, tile)) in e.out
      && (ProcessRound(g1).1.Complete? ==> Envelope(g1.players[k], RoundNotice(g1)) in e.out)
      && (ProcessRound(g1).1.Complete? && IsGameOver(ProcessRound(g1).0).Over? ==>
            Envelope(g1.players[k], OverNotice(ProcessRound(g1).0)) in e.out)
    ensures h.checked ==> !e.crashed
  {
    var (g2, outcome) := ProcessRound(g1);
    var e1 := Broadcast(Quiet(h.(games := h.games[id := g2])), room, g1.players, Played(g1, color, tile));
    if outcome.Incomplete? then e1
    else
      var e2 := ReportRound(e1, room, id, g1);
      forall i | 0 <= i < |e2.out|
        ensures e2.out[i].to in g1.players.Values && Reported(g1, color, tile, e2.out[i].msg)
      {
        if i < |e1.out| { assert e2.out[i] == e1.out[i]; }
      }
      QueuedStays(e1.out, e2.out);
      e2
  }

  /** Play a tile for the client's colour. A missing game or a refused tile
      is answered to the acting client alone and changes no game. Readiness
      of the match is not checked. */
  function HandlePlayTile(h: Hub, c: ClientId, tile: int, room: Room): (e: Effect)
    ensures Lookup(h, ClientOf(h, c).gameId).None? ==>
      && e.hub.(live := h.live) == h && OnlyErrorTo(e.out, c)
      && (c in h.live - room.Keys ==> e.out == [Envelope(c, Error(GameNotFound))])
    ensures Lookup(h, ClientOf(h, c).gameId).Some? && ClientOf(h, c).color.None? ==>
      && e.hub.(live := h.live) == h && OnlyErrorTo(e.out, c)
      && (c in h.live - room.Keys ==> e.out == [Envelope(c, Error(GameNotFound))])
    ensures Lookup(h, ClientOf(h, c).gameId).Some? && ClientOf(h, c).color.Some? ==>
      var id := ClientOf(h, c).gameId.value;
      var played := PlayTile(h.games[id], ClientOf(h, c).color.value, tile);
      && (played.Failure? ==> e.hub.(live := h.live) == h && OnlyErrorTo(e.out, c))
      && (played.Failure? && c in h.live - room.Keys ==> e.out == [Envelope(c, Error(Rejected(played.error)))])
      && (played.Success? ==>
            var (g2, outcome) := ProcessRound(played.value);
            && e.hub.games == h.games[id := g2]
            && e.hub.registry == (if outcome.Complete? && IsGameOver(g2).Over? then h.registry - {id} else h.registry)
            && e == AfterTile(h, room, id, ClientOf(h, c).color.value, tile, played.value))
    ensures h.checked ==> !e.crashed
    ensures e.hub.live <= h.live && h.live - room.Keys <= e.hub.live
    ensures e.hub.(live := h.live, games := h.games, registry := h.registry) == h
  {
    var cl := ClientOf(h, c);
    match Lookup(h, cl.gameId)
    case None => Send(Quiet(h), room, c, Error(GameNotFound))
    case Some(g) =>
      if cl.color.None? then Send(Quiet(h), room, c, Error(GameNotFound))
      else
        var color := cl.color.value;
        match PlayTile(g, color, tile)
        case Failure(err) => Send(Quiet(h), room, c, Error(Rejected(err)))
        case Success(g1) => AfterTile(h, room, cl.gameId.value, color, tile, g1)
  }

  // ---------------------------------------------------------------------
  // The event loop

  /** Dispatch a decoded request to its handler; an unknown kind is
      ignored. */
  function HandleGameMessage(h: Hub, c: ClientId, a: Action, room: Room): (e: Effect)
    ensures a.Join? ==> e == HandleJoin(h, c, a.name, a.color, room)
    ensures a.Play? ==> e == HandlePlayTile(h, c, a.tile, room)
    ensures a.Other? ==> e == Quiet(h)
    ensures e.hub.live <= h.live && h.live - room.Keys <= e.hub.live && e.hub.checked == h.checked
  {
    match a
    case Join(name, color) => HandleJoin(h, c, name, color, room)
    case Play(tile) => HandlePlayTile(h, c, tile, room)
    case Other => Quiet(h)
  }

  /** One turn of the event loop. A registration adds the client to the live
      set; an unregistration tears the client down only while it is still
      live; a game message is handled whether or not its sender is live. */
  function Run(h: Hub, input: Input): (e: Effect)
    ensures input.event.Unregister? && input.event.client !in h.live ==> e == Quiet(h)
    ensures input.event.Unregister? && input.event.client in h.live ==>
      e == HandleDisconnect(h.(live := h.live - {input.event.client}), input.event.client, input.room)
    ensures input.event.Register? ==>
      && e.out == [] && e.hub.live == h.live + {input.event.client}
      && e.hub == h.(live := e.hub.live, clients := e.hub.clients)
      && e.hub.clients.Keys == h.clients.Keys + {input.event.client}
      && (forall k :: k in h.clients ==> e.hub.clients[k] == h.clients[k])
      && (input.event.client !in h.clients ==> e.hub.clients[input.event.client] == NewClient)
    ensures !input.event.Unregister? ==> h.live - input.room.Keys <= e.hub.live
    ensures input.event.Unregister? ==> h.live - {input.event.client} - input.room.Keys <= e.hub.live
    ensures input.event.Message? && input.event.client in h.clients ==>
      e == HandleGameMessage(h, input.event.client, input.event.action, input.room)
    ensures input.event.Message? && input.event.client !in h.clients ==> e == Quiet(h)
    ensures e.hub.checked == h.checked
    ensures h.checked ==> !e.crashed
  {
    match input.event
    case Register(c) =>
      Quiet(h.(live := h.live + {c}, clients := if c in h.clients then h.clients else h.clients[c := NewClient]))
    case Unregister(c) =>
      if c in h.live then HandleDisconnect(h.(live := h.live - {c}), c, input.room) else Quiet(h)
    case Message(c, a) =>
      if c in h.clients then HandleGameMessage(h, c, a, input.room) else Quiet(h)
  }

  /** Run the loop over a sequence of inputs, collecting every queued
      message in order and stopping at the first fault. */
  function RunAll(h: Hub, inputs: seq<Input>): (e: Effect)
    ensures inputs == [] ==> e == Quiet(h)
    ensures inputs != [] ==> Run(h, inputs[0]).out <= e.out
    ensures inputs != [] && Run(h, inputs[0]).crashed ==> e == Run(h, inputs[0])
    ensures e.hub.checked == h.checked
    decreases |inputs|
  {
    if inputs == [] then Quiet(h)
    else
      var e1 := Run(h, inputs[0]);
      if e1.crashed then e1
      else
        var e2 := RunAll(e1.hub, inputs[1..]);
        e2.(out := e1.out + e2.out)
  }

  /** With the corrected send no run of the loop ever faults, whatever
      queues overflow and whenever: one slow client cannot stop the
      server. */
  lemma {:induction false} CheckedRunAllNeverCrashes(h: Hub, inputs: seq<Input>)
    requires h.checked
    ensures !RunAll(h, inputs).crashed
    decreases |inputs|
  {
    if inputs != [] {
      CheckedRunAllNeverCrashes(Run(h, inputs[0]).hub, inputs[1..]);
    }
  }

  // ---------------------------------------------------------------------
  // The registry invariant

  /** Exactly one colour is seated. */
  predicate Lone(players: map<Color, ClientId>) {
    (Blue in players) != (Red in players)
  }

  /** The waiting game is registered, not ready and half seated; no tile of
      the empty colour is down; and every client that points at it plays a
      seated colour. */
  predicate WaitingOpen(h: Hub) {
    h.waiting.Some? ==>
      var w := h.waiting.value;
      && w in h.registry && w in h.games
      && !h.games[w].ready && Lone(h.games[w].players)
      && (forall col :: col in h.games[w].roundTiles ==> col in h.games[w].players)
      && (forall r :: r in h.clients && h.clients[r].gameId == Some(w) ==>
            h.clients[r].color.Some? && h.clients[r].color.value in h.games[w].players)
  }

  /** Registry well-formedness: registered ids name stored games, stored
      ids were all issued, live clients are known, a client with a game id
      has a colour, every stored match keeps its used tiles distinct and in
      range and its wins within the rounds played, and the waiting slot is
      open. */
  predicate Wf(h: Hub) {
    && h.registry <= h.games.Keys
    && (forall id :: id in h.games ==> id < h.nextId)
    && h.live <= h.clients.Keys
    && (forall r :: r in h.clients && h.clients[r].gameId.Some? ==>
          h.clients[r].gameId.value in h.games && h.clients[r].color.Some?)
    && (forall id :: id in h.games ==> UsedValid(h.games[id]) && WinsBounded(h.games[id]))
    && WaitingOpen(h)
  }

  lemma EmptyHubWf()
    ensures Wf(EmptyHub)
  {
  }

  /** With the registry well formed a join always seats the client: the
      first player gets its preference (Blue by default) and waits; the
      second gets the colour the first left free and the match becomes
      ready. The full-game and colour-taken answers cannot happen. */
  lemma JoinSeats(h: Hub, c: ClientId, name: string, preferred: Option<Color>, room: Room)
    requires Wf(h)
    ensures ChooseColor(JoinGame(h), preferred).Some?
    ensures h.waiting.None? ==>
      && ChooseColor(JoinGame(h), preferred) == Some(preferred.GetOr(Blue))
      && !AddPlayer(JoinGame(h), c, preferred.GetOr(Blue)).value.ready
    ensures h.waiting.Some? ==>
      var g := h.games[h.waiting.value];
      var col := ChooseColor(JoinGame(h), preferred).value;
      && col !in g.players && Opponent(col) in g.players
      && AddPlayer(g, c, col).value.ready
  {
    if h.waiting.Some? {
      var g := h.games[h.waiting.value];
      assert JoinGame(h) == g;
      assert g.players != map[] by {
        if Blue in g.players { assert Blue in g.players.Keys; } else { assert Red in g.players.Keys; }
      }
    }
  }

  /** The registry right after a join seats `c` as `col`, before any
      message is sent. */
  function Seated(h: Hub, c: ClientId, name: string, col: Color): Hub
    requires col !in JoinGame(h).players
  {
    Enter(h, c, name, col, AddPlayer(JoinGame(h), c, col).value)
  }

  lemma SeatedFreshWf(h: Hub, c: ClientId, name: string, col: Color)
    requires Wf(h) && c in h.clients && h.waiting.None?
    ensures Wf(Seated(h, c, name, col))
  {
    var id := h.nextId;
    var g1 := AddPlayer(NewGame(id), c, col).value;
    NewGameUsedValid(id);
    AddPlayerKeepsUsedValid(NewGame(id), c, col);
    assert g1.players == map[col := c];
    assert Opponent(col) !in g1.players;
    var h2 := Seated(h, c, name, col);
    assert h2.games == h.games[id := g1] && h2.registry == h.registry + {id};
    assert h2.waiting == Some(id) && h2.nextId == id + 1;
    assert forall r :: r in h2.clients && h2.clients[r].gameId == Some(id) ==> r == c;
    assert WaitingOpen(h2);
  }

  lemma SeatedWaitingWf(h: Hub, c: ClientId, name: string, col: Color)
    requires Wf(h) && c in h.clients && h.waiting.Some?
    requires col !in JoinGame(h).players
    ensures Wf(Seated(h, c, name, col))
  {
    AddPlayerKeepsUsedValid(h.games[h.waiting.value], c, col);
  }

  /** A join that finds a free colour leaves the registry `Seated`
      describes, up to clients evicted on the way. */
  lemma JoinStoresSeat(h: Hub, c: ClientId, name: string, preferred: Option<Color>, room: Room)
    requires ChooseColor(JoinGame(h), preferred).Some?
    ensures var col := ChooseColor(JoinGame(h), preferred).value;
      col !in JoinGame(h).players &&
      HandleJoin(h, c, name, preferred, room).hub.(live := h.live) == Seated(h, c, name, col)
  {
    var col := ChooseColor(JoinGame(h), preferred).value;
    var e := HandleJoin(h, c, name, preferred, room);
    assert e.hub.(live := h.live) == Seated(h, c, name, col);
  }

  lemma JoinKeepsWf(h: Hub, c: ClientId, name: string, preferred: Option<Color>, room: Room)
    requires Wf(h) && c in h.clients
    ensures Wf(HandleJoin(h, c, name, preferred, room).hub)
  {
    JoinSeats(h, c, name, preferred, room);
    var col := ChooseColor(JoinGame(h), preferred).value;
    JoinStoresSeat(h, c, name, preferred, room);
    if h.waiting.None? {
      SeatedFreshWf(h, c, name, col);
    } else {
      SeatedWaitingWf(h, c, name, col);
    }
  }

  /** Storing and reporting an accepted tile keeps the registry well
      formed, given a game that keeps the used-tile and win invariants and,
      when it is the waiting game, stays open. */
  lemma AfterTileKeepsWf(h: Hub, room: Room, id: GameId, color: Color, tile: int, g1: Game)
    requires Wf(h) && id in h.games
    requires UsedValid(g1) && WinsBounded(g1)
    requires h.waiting == Some(id) ==>
      && !g1.RoundFull() && !g1.ready && g1.players == h.games[id].players
      && (forall col :: col in g1.roundTiles ==> col in g1.players)
    ensures Wf(AfterTile(h, room, id, color, tile, g1).hub)
  {
    ProcessRoundKeepsUsedValid(g1);
    ProcessRoundKeepsWinsBounded(g1);
  }

  lemma PlayKeepsWf(h: Hub, c: ClientId, tile: int, room: Room)
    requires Wf(h) && c in h.clients
    ensures Wf(HandlePlayTile(h, c, tile, room).hub)
  {
    var cl := ClientOf(h, c);
    if Lookup(h, cl.gameId).Some? {
      var id := cl.gameId.value;
      var g := h.games[id];
      var played := PlayTile(g, cl.color.value, tile);
      if played.Success? {
        PlayTileKeepsUsedValid(g, cl.color.value, tile);
        AfterTileKeepsWf(h, room, id, cl.color.value, tile, played.value);
      }
    }
  }

  lemma DisconnectKeepsWf(h: Hub, c: ClientId, room: Room)
    requires Wf(h)
    ensures Wf(HandleDisconnect(h, c, room).hub)
  {
  }

  /** Every turn of the event loop keeps the registry well formed. */
  lemma RunKeepsWf(h: Hub, input: Input)
    requires Wf(h)
    ensures Wf(Run(h, input).hub)
  {
    match input.event
    case Register(c) =>
    case Unregister(c) =>
      if c in h.live {
        DisconnectKeepsWf(h.(live := h.live - {c}), c, input.room);
      }
    case Message(c, a) =>
      if c in h.clients {
        match a
        case Join(name, color) => JoinKeepsWf(h, c, name, color, input.room);
        case Play(tile) => PlayKeepsWf(h, c, tile, input.room);
        case Other =>
      }
  }

  /** Any run of the event loop from a well-formed registry ends in one. */
  lemma {:induction false} RunAllKeepsWf(h: Hub, inputs: seq<Input>)
    requires Wf(h)
    ensures Wf(RunAll(h, inputs).hub)
    decreases |inputs|
  {
    if inputs != [] {
      RunKeepsWf(h, inputs[0]);
      var e1 := Run(h, inputs[0]);
      if !e1.crashed {
        RunAllKeepsWf(e1.hub, inputs[1..]);
      }
    }
  }

  /** Once a player leaves, the match is gone for the opponent as well: a
      later tile from any client that pointed at it is answered with an
      error to that client alone and changes nothing. */
  lemma LeftGameIsGone(h: Hub, c: ClientId, other: ClientId, tile: int, room: Room, room2: Room)
    requires c in h.live
    requires Lookup(h, ClientOf(h, c).gameId).Some?
    requires ClientOf(h, other).gameId == ClientOf(h, c).gameId
    ensures var h' := Run(h, Input(Unregister(c), room)).hub;
      var e := HandlePlayTile(h', other, tile, room2);
      && ClientOf(h, c).gameId.value !in h'.registry
      && e.hub.(live := h'.live) == h'
      && OnlyErrorTo(e.out, other)
      && (other in h'.live - room2.Keys ==> e.out == [Envelope(other, Error(GameNotFound))])
  {
    var h0 := h.(live := h.live - {c});
    assert ClientOf(h0, c) == ClientOf(h, c);
  }

  /** Under the invariant a client that holds a game id always has a colour,
      so a tile is never played for no colour. */
  lemma PlayerHasColor(h: Hub, c: ClientId)
    requires Wf(h) && c in h.clients
    ensures Lookup(h, ClientOf(h, c).gameId).Some? ==> ClientOf(h, c).color.Some?
  {
  }

  // ---------------------------------------------------------------------
  // Traces

  /** A ready match between clients 1 (Blue) and 2 (Red) in which Blue has
      put down a 5. */
  function BlueHasPlayed(): Hub {
    var g := Game(0, map[Blue := 1, Red := 2], 1, 0, 0, map[Blue := [5], Red := []], Blue, map[Blue := 5], true);
    Hub({1, 2}, map[1 := Client("a", Some(0), Some(Blue)), 2 := Client("b", Some(0), Some(Red))],
        map[0 := g], {0}, None, 1, false)
  }

  /** The registry above satisfies the invariant. */
  lemma BlueHasPlayedWf()
    ensures Wf(BlueHasPlayed())
  {
    var g := BlueHasPlayed().games[0];
    assert TilesValid(g.Used(Blue));
    assert TilesValid(g.Used(Red));
  }

  /** Red answers while Blue's queue is full: the tile notice evicts Blue,
      and the round result that follows is written to Blue's closed queue,
      which stops the server. With a full queue as the only trigger, one
      slow client brings down every match. */
  lemma EvictedPlayerCrashes()
    ensures Run(BlueHasPlayed(), Input(Message(2, Play(3)), map[1 := 0])).crashed
  {
    var h := BlueHasPlayed();
    var room := map[1 := 0];
    var g := h.games[0];
    assert Lookup(h, Some(0)) == Some(g);
    var g1 := PlayTile(g, Red, 3).value;
    assert PlayTile(g, Red, 3).Success?;
    var (g2, outcome) := ProcessRound(g1);
    assert outcome.Complete? && g2.players == g1.players && IsGameOver(g2) == Continues;
    var e0 := Quiet(h.(games := h.games[0 := g2]));
    var e1 := Broadcast(e0, room, g1.players, Played(g1, Red, 3));
    assert Tell(e0, room, g1.players, Blue, Played(g1, Red, 3)).hub.live == {2};
    assert 1 !in e1.hub.live;
    var e2 := Broadcast(e1, room, g2.players, RoundNotice(g1));
    assert Tell(e1, room, g2.players, Blue, RoundNotice(g1)).crashed;
    assert e2.crashed;
    assert ReportRound(e1, room, 0, g1) == e2;
    assert HandlePlayTile(h, 2, 3, room) == AfterTile(h, room, 0, Red, 3, g1);
  }

  /** The same answer when Blue's queue has room for one message: Blue gets
      the tile notice, overflows at the round result and is evicted, and as
      that was its last write of the event nothing faults. */
  lemma LateOverflowEvictsQuietly()
    ensures var e := Run(BlueHasPlayed(), Input(Message(2, Play(3)), map[1 := 1]));
      && !e.crashed && 1 !in e.hub.live && 2 in e.hub.live
      && |e.out| == 3 && e.out[0].to == 1 && e.out[1].to == 2 && e.out[2].to == 2
  {
    var h := BlueHasPlayed();
    var room := map[1 := 1];
    var g := h.games[0];
    assert Lookup(h, Some(0)) == Some(g);
    var g1 := PlayTile(g, Red, 3).value;
    assert PlayTile(g, Red, 3).Success?;
    var (g2, outcome) := ProcessRound(g1);
    assert outcome.Complete? && g2.players == g1.players && IsGameOver(g2) == Continues;
    var e0 := Quiet(h.(games := h.games[0 := g2]));
    var e1 := Broadcast(e0, room, g1.players, Played(g1, Red, 3));
    assert e1.out == [Envelope(1, Played(g1, Red, 3)), Envelope(2, Played(g1, Red, 3))];
    var e2 := Broadcast(e1, room, g2.players, RoundNotice(g1));
    assert e2.out == e1.out + [Envelope(2, RoundNotice(g1))];
    assert 1 !in e2.hub.live && 2 in e2.hub.live && !e2.crashed;
    assert HandlePlayTile(h, 2, 3, room) == e2;
    assert Run(h, Input(Message(2, Play(3)), room)) == HandleGameMessage(h, 2, Play(3), room);
  }

  /** Nothing stops a client from joining twice: a client whose own game is
      waiting lands in it again and is seated as both colours of a match
      that then starts. */
  lemma JoinTwiceTakesBothSeats()
    ensures var h1 := Run(EmptyHub, Input(Register(7), map[])).hub;
      var h2 := Run(h1, Input(Message(7, Join("a", None)), map[])).hub;
      var h3 := Run(h2, Input(Message(7, Join("a", None)), map[])).hub;
      && 0 in h3.registry && 0 in h3.games
      && h3.games[0].players == map[Blue := 7, Red := 7]
      && h3.games[0].ready
  {
    var h1 := Run(EmptyHub, Input(Register(7), map[])).hub;
    var h2 := Run(h1, Input(Message(7, Join("a", None)), map[])).hub;
    assert h2.waiting == Some(0) && h2.games[0].players == map[Blue := 7];
  }
}
