/** The Number Change hub (server/nc_hub.go): the registry of live clients,
    matches and the one waiting match, and the handlers its event loop runs
    one event at a time. */
module NcHub {
  import opened Common
  import opened Blocks
  import opened NcGame

  /** What the hub knows of a client: its display name, the match it last
      joined and the team label it was last given. */
  datatype Client = Client(name: string, gameId: Option<GameId>, team: TeamColor)

  const NewClient := Client("", None, NoTeam)

  /** The registry, shaped as in the tile hub: every match object ever
      created, the ids listed in the server's match map, the waiting match,
      the id source, and whether sends use the corrected, checked delivery
      (the server as written does not). */
  datatype Hub = Hub(
    live: set<ClientId>,
    clients: map<ClientId, Client>,
    games: map<GameId, Game>,
    registry: set<GameId>,
    waiting: Option<GameId>,
    nextId: GameId,
    checked: bool)

  const EmptyHub := Hub({}, map[], map[], {}, None, 0, false)

  datatype HubError = OpponentLeft | GameNotFound | Rejected(reason: NcError)

  datatype Msg =
    | Error(error: HubError)
    | PlayerJoined(team: TeamColor, gameId: GameId)
    | WaitingPlayer
    | GameStart(yourTeam: TeamColor, firstTeam: TeamColor, team1Name: string, team2Name: string)
    | HiddenUsed(team: TeamColor)
    | RoundReport(result: RoundResult)
    | GameOver(winner: Option<TeamColor>, score1: int, score2: int, reason: Ending)

  /** Decoded client requests. */
  datatype Action =
    | Join(name: string, team: TeamColor)
    | SubmitPair(block1: int, block2: int, useHidden: bool, choice: int)
    | Select(choice: int)
    | Other

  datatype Event = Register(client: ClientId) | Unregister(client: ClientId) | Message(client: ClientId, action: Action)

  /** An event, when each client's outbound queue fills up while it is
      handled, and the two coin tosses a join may draw: the label for a client arriving at a
      full match, and the first team of a match that starts. */
  datatype Input = Input(event: Event, room: Room, coinSeat: bool, coinStart: bool)

  /** The next registry, the messages queued in order, and whether a write
      hit a closed queue (which stops the server). */
  datatype Effect = Effect(hub: Hub, out: seq<Envelope<Msg>>, crashed: bool)

  function Quiet(h: Hub): Effect {
    Effect(h, [], false)
  }

  function ClientOf(h: Hub, c: ClientId): Client {
    if c in h.clients then h.clients[c] else NewClient
  }

  function Lookup(h: Hub, id: Option<GameId>): (r: Option<Game>)
    ensures r.Some? <==> id.Some? && id.value in h.registry && id.value in h.games
    ensures r.Some? ==> r.value == h.games[id.value]
  {
    if id.Some? && id.value in h.registry && id.value in h.games then Some(h.games[id.value]) else None
  }

  /** Queue `m` for `to`, evict `to` when its queue overflows, or fault
      when its queue was already closed (the corrected send skips it). */
  function Send(e: Effect, room: Room, to: ClientId, m: Msg): (e': Effect)
    ensures e'.hub.(live := e.hub.live) == e.hub
    ensures e'.hub.live <= e.hub.live && e.hub.live - room.Keys <= e'.hub.live
    ensures e'.out == e.out || e'.out == e.out + [Envelope(to, m)]
    ensures e'.crashed <==> e.crashed || (to !in e.hub.live && !e.hub.checked)
    ensures to !in e.hub.live ==> e'.hub == e.hub && e'.out == e.out
    ensures to in e.hub.live && Overflows(room, e.out, to) ==>
      e'.hub.live == e.hub.live - {to} && e'.out == e.out
    ensures to in e.hub.live && !Overflows(room, e.out, to) ==>
      e'.hub == e.hub && e'.out == e.out + [Envelope(to, m)]
  {
    if to !in e.hub.live then e.(crashed := e.crashed || !e.hub.checked)
    else if Overflows(room, e.out, to) then e.(hub := e.hub.(live := e.hub.live - {to}))
    else e.(out := e.out + [Envelope(to, m)])
  }

  /** Send applies the delivery rule of `Deliver`, or of `DeliverChecked`
      when the hub checks the live set first. */
  lemma SendDelivers(e: Effect, room: Room, to: ClientId, m: Msg)
    ensures var d := if e.hub.checked then DeliverChecked(e.hub.live, Overflows(room, e.out, to), to, m)
                     else Deliver(e.hub.live, Overflows(room, e.out, to), to, m);
      Send(e, room, to, m) == Effect(e.hub.(live := d.live), e.out + d.queued, e.crashed || d.closed)
  {
  }

  /** `who` holds one of `seats`. */
  predicate HoldsSeat(seats: seq<Seat>, who: ClientId) {
    exists j :: 0 <= j < |seats| && seats[j].client == who
  }

  /** Send `m` to every seat in seating order. */
  function Broadcast(e: Effect, room: Room, seats: seq<Seat>, m: Msg): (e': Effect)
    ensures e'.hub.(live := e.hub.live) == e.hub
    ensures e'.hub.live <= e.hub.live && e.hub.live - room.Keys <= e'.hub.live
    ensures |e'.out| >= |e.out| && e'.out[..|e.out|] == e.out
    ensures forall i :: |e.out| <= i < |e'.out| ==> e'.out[i].msg == m && HoldsSeat(seats, e'.out[i].to)
    ensures forall s :: s in seats && s.client in e.hub.live - room.Keys ==> Envelope(s.client, m) in e'.out
    ensures e.crashed ==> e'.crashed
    ensures e.hub.checked ==> e'.crashed == e.crashed
    decreases |seats|
  {
    if seats == [] then e
    else
      var e1 := Send(e, room, seats[0].client, m);
      var e2 := Broadcast(e1, room, seats[1..], m);
      forall i | |e1.out| <= i < |e2.out|
        ensures HoldsSeat(seats, e2.out[i].to)
      {
        var k :| 0 <= k < |seats[1..]| && seats[1..][k].client == e2.out[i].to;
        assert seats[k + 1].client == e2.out[i].to;
      }
      forall i | |e.out| <= i < |e1.out|
        ensures e2.out[i].msg == m && HoldsSeat(seats, e2.out[i].to)
      {
        assert e2.out[i] == e1.out[i];
        assert seats[0].client == e2.out[i].to;
      }
      QueuedStays(e1.out, e2.out);
      forall s | s in seats && s.client in e.hub.live - room.Keys
        ensures Envelope(s.client, m) in e2.out
      {
        if s != seats[0] {
          assert s in seats[1..];
        }
      }
      e2
  }

  // ---------------------------------------------------------------------
  // Disconnect

  /** The seats the leaver holds. */
  function Kept(seats: seq<Seat>, leaver: ClientId): (r: seq<Seat>)
    ensures forall s :: s in r <==> s in seats && s.client == leaver
    decreases |seats|
  {
    if seats == [] then []
    else if seats[0].client == leaver then [seats[0]] + Kept(seats[1..], leaver)
    else Kept(seats[1..], leaver)
  }

  /** Notify every seat not held by the leaver, in seating order. */
  function NotifyOthers(e: Effect, room: Room, seats: seq<Seat>, leaver: ClientId): (e': Effect)
    ensures e'.hub.(live := e.hub.live) == e.hub
    ensures e'.hub.live <= e.hub.live && e.hub.live - room.Keys <= e'.hub.live
    ensures |e'.out| >= |e.out| && e'.out[..|e.out|] == e.out
    ensures forall i :: |e.out| <= i < |e'.out| ==> e'.out[i].msg == Error(OpponentLeft) && e'.out[i].to != leaver
    ensures forall s :: s in seats && s.client != leaver && s.client in e.hub.live - room.Keys ==>
      Envelope(s.client, Error(OpponentLeft)) in e'.out
    ensures e.hub.checked ==> e'.crashed == e.crashed
    decreases |seats|
  {
    if seats == [] then e
    else
      var e1 := if seats[0].client != leaver then Send(e, room, seats[0].client, Error(OpponentLeft)) else e;
      var e2 := NotifyOthers(e1, room, seats[1..], leaver);
      assert forall s :: s in seats[1..] && s.client != leaver && s.client in e.hub.live - room.Keys ==> s.client in e1.hub.live - room.Keys;
      QueuedStays(e1.out, e2.out);
      e2
  }

  /** Tear down the match of a client that has left the live set: every
      other seat is told and unseated, the match leaves the registry, and
      the waiting slot is cleared if it held that match. */
  function HandleDisconnect(h: Hub, c: ClientId, room: Room): (e: Effect)
    ensures Lookup(h, ClientOf(h, c).gameId).None? ==> e == Quiet(h)
    ensures Lookup(h, ClientOf(h, c).gameId).Some? ==>
      var id := ClientOf(h, c).gameId.value;
      var g := h.games[id];
      && e.hub.registry == h.registry - {id}
      && e.hub.waiting == (if h.waiting == Some(id) then None else h.waiting)
      && id in e.hub.games && e.hub.games == h.games[id := e.hub.games[id]]
      && e.hub.games[id] == g.(players := e.hub.games[id].players)
      && (forall s :: s in e.hub.games[id].players <==> s in g.players && s.client == c)
      && e.hub.clients == h.clients && e.hub.nextId == h.nextId
      && e.hub.live <= h.live && h.live - room.Keys <= e.hub.live
      && (forall s :: s in g.players && s.client != c && s.client in h.live - room.Keys ==>
            Envelope(s.client, Error(OpponentLeft)) in e.out)
      && (forall i :: 0 <= i < |e.out| ==> e.out[i].msg == Error(OpponentLeft) && e.out[i].to != c)
    ensures e.hub.checked == h.checked
    ensures h.checked ==> !e.crashed
  {
    match Lookup(h, ClientOf(h, c).gameId)
    case None => Quiet(h)
    case Some(g) =>
      var id := ClientOf(h, c).gameId.value;
      var e1 := NotifyOthers(Quiet(h), room, g.players, c);
      var h' := e1.hub.(games := e1.hub.games[id := g.(players := Kept(g.players, c))],
                        registry := e1.hub.registry - {id},
                        waiting := if e1.hub.waiting == Some(id) then None else e1.hub.waiting);
      e1.(hub := h')
  }

  // ---------------------------------------------------------------------
  // Join

  /** The match object the waiting pointer names. */
  function GameAt(h: Hub, id: GameId): Game {
    if id in h.games then h.games[id] else NewGame(id)
  }

  function JoinTarget(h: Hub): GameId {
    if h.waiting.None? then h.nextId else h.waiting.value
  }

  function JoinGame(h: Hub): Game {
    if h.waiting.None? then NewGame(h.nextId) else GameAt(h, h.waiting.value)
  }

  /** Claim the waiting match and clear the slot, or create, register and
      park a fresh match; then point the client at it. */
  function ClaimSlot(h: Hub, c: ClientId, name: string): (h': Hub)
    ensures h.waiting.None? ==>
      && h'.waiting == Some(h.nextId) && h'.registry == h.registry + {h.nextId}
      && h'.nextId == h.nextId + 1 && h'.games == h.games[h.nextId := NewGame(h.nextId)]
    ensures h.waiting.Some? ==>
      && h'.waiting == None && h'.registry == h.registry && h'.nextId == h.nextId && h'.games == h.games
    ensures h'.clients == h.clients[c := ClientOf(h, c).(name := name, gameId := Some(JoinTarget(h)))]
    ensures h'.live == h.live && h'.checked == h.checked
  {
    var cl := ClientOf(h, c).(name := name, gameId := Some(JoinTarget(h)));
    if h.waiting.None? then
      var id := h.nextId;
      h.(games := h.games[id := NewGame(id)], registry := h.registry + {id}, waiting := Some(id),
         nextId := h.nextId + 1, clients := h.clients[c := cl])
    else
      h.(waiting := None, clients := h.clients[c := cl])
  }

  /** The name of the client seated under `team`, "" when nobody is. */
  function NameOf(clients: map<ClientId, Client>, seats: seq<Seat>, team: TeamColor): string {
    match Occupant(seats, team)
    case Some(p) => if p in clients then clients[p].name else ""
    case None => ""
  }

  /** `m` announces the start of `g`, with these names, to some seat. */
  predicate StartNotice(m: Msg, g: Game, name1: string, name2: string) {
    m.GameStart? && m.firstTeam == g.currentTeam && m.team1Name == name1 && m.team2Name == name2
  }

  /** Tell each seat, in seating order, its own label, the first team and
      both names. */
  function AnnounceStart(e: Effect, room: Room, g: Game, seats: seq<Seat>, name1: string, name2: string)
    : (e': Effect)
    ensures e'.hub.(live := e.hub.live) == e.hub
    ensures e'.hub.live <= e.hub.live && e.hub.live - room.Keys <= e'.hub.live
    ensures |e'.out| >= |e.out| && e'.out[..|e.out|] == e.out
    ensures forall i :: |e.out| <= i < |e'.out| ==>
      HoldsSeat(seats, e'.out[i].to) && StartNotice(e'.out[i].msg, g, name1, name2)
    ensures forall s :: s in seats && s.client in e.hub.live - room.Keys ==>
      Envelope(s.client, GameStart(s.team, g.currentTeam, name1, name2)) in e'.out
    ensures e.crashed ==> e'.crashed
    ensures e.hub.checked ==> e'.crashed == e.crashed
    decreases |seats|
  {
    if seats == [] then e
    else
      var e1 := Send(e, room, seats[0].client, GameStart(seats[0].team, g.currentTeam, name1, name2));
      var e2 := AnnounceStart(e1, room, g, seats[1..], name1, name2);
      forall i | |e1.out| <= i < |e2.out|
        ensures HoldsSeat(seats, e2.out[i].to)
      {
        var k :| 0 <= k < |seats[1..]| && seats[1..][k].client == e2.out[i].to;
        assert seats[k + 1].client == e2.out[i].to;
      }
      forall i | |e.out| <= i < |e1.out|
        ensures HoldsSeat(seats, e2.out[i].to) && StartNotice(e2.out[i].msg, g, name1, name2)
      {
        assert e2.out[i] == e1.out[i];
        assert seats[0].client == e2.out[i].to;
      }
      QueuedStays(e1.out, e2.out);
      forall s | s in seats && s.client in e.hub.live - room.Keys
        ensures Envelope(s.client, GameStart(s.team, g.currentTeam, name1, name2)) in e2.out
      {
        if s != seats[0] {
          assert s in seats[1..];
        }
      }
      e2
  }

  /** Acknowledge the client just seated under `team` in match `id`. */
  function Acknowledge(h2: Hub, room: Room, c: ClientId, team: TeamColor, id: GameId): (e: Effect)
    ensures e.hub.(live := h2.live) == h2
    ensures e.hub.live <= h2.live && h2.live - room.Keys <= e.hub.live
    ensures !e.crashed || (c !in h2.live && !h2.checked)
    ensures e.out == [] || e.out == [Envelope(c, PlayerJoined(team, id))]
    ensures c in h2.live && c !in room ==> e.out == [Envelope(c, PlayerJoined(team, id))] && e.hub == h2
  {
    Send(Quiet(h2), room, c, PlayerJoined(team, id))
  }

  /** Acknowledge the client, whose match still lacks an opponent, and tell
      it to wait. */
  function Waiting(h2: Hub, room: Room, c: ClientId, team: TeamColor, id: GameId): (e: Effect)
    ensures e.hub.(live := h2.live) == h2
    ensures e.hub.live <= h2.live && h2.live - room.Keys <= e.hub.live
    ensures h2.checked ==> !e.crashed
    ensures c in h2.live && c !in room ==>
      e.out == [Envelope(c, PlayerJoined(team, id)), Envelope(c, WaitingPlayer)]
    ensures forall i :: 0 <= i < |e.out| ==> e.out[i].to == c
  {
    var e1 := Acknowledge(h2, room, c, team, id);
    Send(e1, room, c, WaitingPlayer)
  }

  /** Acknowledge the client, whose arrival started match `g2`, and announce
      the start to every seat. */
  function Starting(h2: Hub, room: Room, c: ClientId, team: TeamColor, id: GameId, g2: Game): (e: Effect)
    ensures e.hub.(live := h2.live) == h2
    ensures e.hub.live <= h2.live && h2.live - room.Keys <= e.hub.live
    ensures h2.checked ==> !e.crashed
    ensures c in h2.live && c !in room ==> |e.out| > 0 && e.out[0] == Envelope(c, PlayerJoined(team, id))
    ensures forall i :: 0 <= i < |e.out| ==>
      || e.out[i] == Envelope(c, PlayerJoined(team, id))
      || (HoldsSeat(g2.players, e.out[i].to) &&
          StartNotice(e.out[i].msg, g2, NameOf(h2.clients, g2.players, Team1), NameOf(h2.clients, g2.players, Team2)))
    ensures forall s :: s in g2.players && s.client in h2.live - room.Keys ==>
      Envelope(s.client, GameStart(s.team, g2.currentTeam, NameOf(h2.clients, g2.players, Team1),
                                   NameOf(h2.clients, g2.players, Team2))) in e.out
  {
    var e1 := Acknowledge(h2, room, c, team, id);
    var name1 := NameOf(h2.clients, g2.players, Team1);
    var name2 := NameOf(h2.clients, g2.players, Team2);
    var e2 := AnnounceStart(e1, room, g2, g2.players, name1, name2);
    forall i | 0 <= i < |e2.out|
      ensures e2.out[i] == Envelope(c, PlayerJoined(team, id)) ||
              (HoldsSeat(g2.players, e2.out[i].to) && StartNotice(e2.out[i].msg, g2, name1, name2))
    {
      if i < |e1.out| { assert e2.out[i] == e1.out[i]; }
    }
    assert e1.hub.live - room.Keys == h2.live - room.Keys;
    e2
  }

  /** Acknowledge the client just seated under `team` in match `id`, then
      announce the start when its arrival started the match, else tell the
      client to wait. */
  function Welcome(h2: Hub, room: Room, c: ClientId, team: TeamColor, id: GameId, starts: bool, g2: Game)
    : (e: Effect)
    ensures e.hub.(live := h2.live) == h2
    ensures e.hub.live <= h2.live && h2.live - room.Keys <= e.hub.live
    ensures h2.checked ==> !e.crashed
    ensures c in h2.live && c !in room ==> |e.out| > 0 && e.out[0] == Envelope(c, PlayerJoined(team, id))
    ensures !starts && c in h2.live && c !in room ==>
      e.out == [Envelope(c, PlayerJoined(team, id)), Envelope(c, WaitingPlayer)]
    ensures !starts ==> forall i :: 0 <= i < |e.out| ==> e.out[i].to == c
    ensures starts ==> forall i :: 0 <= i < |e.out| ==>
      || e.out[i] == Envelope(c, PlayerJoined(team, id))
      || (HoldsSeat(g2.players, e.out[i].to) &&
          StartNotice(e.out[i].msg, g2, NameOf(h2.clients, g2.players, Team1), NameOf(h2.clients, g2.players, Team2)))
    ensures starts ==> forall s :: s in g2.players && s.client in h2.live - room.Keys ==>
      Envelope(s.client, GameStart(s.team, g2.currentTeam, NameOf(h2.clients, g2.players, Team1),
                                   NameOf(h2.clients, g2.players, Team2))) in e.out
  {
    if starts then Starting(h2, room, c, team, id, g2) else Waiting(h2, room, c, team, id)
  }

  /** Whether seating produced `g1`, a match that now has both teams and was
      not started yet, so that the join starts it. */
  predicate Starts(g1: Game) {
    IsReady(g1) && !g1.ready
  }

  /** The registry after a join, before anything is sent: the slot is
      claimed, the client is seated under its label and points at the
      match, and a match the join fills is started. */
  function Enter(h: Hub, c: ClientId, name: string, preferred: TeamColor, coinSeat: bool, coinStart: bool)
    : (h2: Hub)
    ensures h.waiting.None? ==>
      h2.waiting == Some(h.nextId) && h2.registry == h.registry + {h.nextId} && h2.nextId == h.nextId + 1
    ensures h.waiting.Some? ==>
      h2.waiting == None && h2.registry == h.registry && h2.nextId == h.nextId
    ensures h2.live == h.live && h2.checked == h.checked
    ensures var (g1, team) := AddPlayer(JoinGame(h), c, preferred, coinSeat);
      var id := JoinTarget(h);
      && h2.clients == h.clients[c := ClientOf(h, c).(name := name, gameId := Some(id), team := team)]
      && h2.games == h.games[id := if Starts(g1) then Start(g1, coinStart) else g1]
  {
    var id := JoinTarget(h);
    var h1 := ClaimSlot(h, c, name);
    var (g1, team) := AddPlayer(JoinGame(h), c, preferred, coinSeat);
    var g2 := if Starts(g1) then Start(g1, coinStart) else g1;
    assert h1.games[id := g2] == h.games[id := g2];
    h1.(games := h1.games[id := g2], clients := h1.clients[c := ClientOf(h1, c).(team := team)])
  }

  /** Join: claim or create the match, seat the client under a label (the
      label is stored even when the match was full and nobody was seated),
      acknowledge it, and start the match once both teams are seated, else
      tell the client to wait. */
  function HandleJoin(h: Hub, c: ClientId, name: string, preferred: TeamColor, room: Room,
                      coinSeat: bool, coinStart: bool): (e: Effect)
    ensures h.waiting.None? ==>
      e.hub.waiting == Some(h.nextId) && e.hub.registry == h.registry + {h.nextId} && e.hub.nextId == h.nextId + 1
    ensures h.waiting.Some? ==>
      e.hub.waiting == None && e.hub.registry == h.registry && e.hub.nextId == h.nextId
    ensures e.hub.live <= h.live && h.live - room.Keys <= e.hub.live && e.hub.checked == h.checked
    ensures h.checked ==> !e.crashed
    ensures var (g1, team) := AddPlayer(JoinGame(h), c, preferred, coinSeat);
      var id := JoinTarget(h);
      var g2 := if Starts(g1) then Start(g1, coinStart) else g1;
      && e.hub.clients == h.clients[c := ClientOf(h, c).(name := name, gameId := Some(id), team := team)]
      && e.hub.games == h.games[id := g2]
      && (c in h.live && c !in room ==> |e.out| > 0 && e.out[0] == Envelope(c, PlayerJoined(team, id)))
      && (!Starts(g1) && c in h.live && c !in room ==>
            e.out == [Envelope(c, PlayerJoined(team, id)), Envelope(c, WaitingPlayer)])
      && (!Starts(g1) ==> forall i :: 0 <= i < |e.out| ==> e.out[i].to == c)
      && (Starts(g1) ==> forall i :: 0 <= i < |e.out| ==>
            || e.out[i] == Envelope(c, PlayerJoined(team, id))
            || (HoldsSeat(g2.players, e.out[i].to) &&
                StartNotice(e.out[i].msg, g2, NameOf(e.hub.clients, g2.players, Team1),
                            NameOf(e.hub.clients, g2.players, Team2))))
      && (Starts(g1) ==> forall s :: s in g2.players && s.client in h.live - room.Keys ==>
            Envelope(s.client, GameStart(s.team, g2.currentTeam, NameOf(e.hub.clients, g2.players, Team1),
                                         NameOf(e.hub.clients, g2.players, Team2))) in e.out)
  {
    var (g1, team) := AddPlayer(JoinGame(h), c, preferred, coinSeat);
    var g2 := if Starts(g1) then Start(g1, coinStart) else g1;
    Welcome(Enter(h, c, name, preferred, coinSeat, coinStart), room, c, team, JoinTarget(h), Starts(g1), g2)
  }

  // ---------------------------------------------------------------------
  // Resolving a round

  /** The closing notice of a match `g` that is over: the final scores,
      why it ended, and the team ahead, none when level. */
  function OverNotice(g: Game): (m: Msg)
    ensures m.GameOver? && m.score1 == g.score1 && m.score2 == g.score2 && m.reason == IsGameOver(g)
    ensures m.winner == Some(Team1) <==> g.score1 > g.score2
    ensures m.winner == Some(Team2) <==> g.score2 > g.score1
    ensures m.winner == None <==> g.score1 == g.score2
  {
    GameOver(GetWinner(g), g.score1, g.score2, IsGameOver(g))
  }

  /** A round that takes a match in play to the score limit is announced
      with the team that reached seven as its winner. */
  lemma ScoreLimitNoticeNamesWinner(g: Game)
    requires IsGameOver(g) == Playing
    requires ProcessRound(g).1.Success?
    requires IsGameOver(ProcessRound(g).0) == ScoreLimit
    ensures var g2 := ProcessRound(g).0;
      && OverNotice(g2).reason == ScoreLimit
      && OverNotice(g2).winner == Some(if g2.score1 >= ScoreToWin then Team1 else Team2)
  {
    ScoreLimitNamesWinner(g);
  }

  /** `m` is one of the notices a resolved round `r` leaving the match in
      state `g` can cause: the round report, and the closing notice only
      when the match is over. */
  predicate Reported(g: Game, r: RoundResult, m: Msg) {
    m == RoundReport(r) || (IsGameOver(g) != Playing && m == OverNotice(g))
  }

  /** Report a resolved round to every seat; when the match is then over,
      announce the winner and drop the match from the registry. */
  function Report(e: Effect, room: Room, id: GameId, g: Game, r: RoundResult): (e': Effect)
    ensures e'.hub.registry == (if IsGameOver(g) != Playing then e.hub.registry - {id} else e.hub.registry)
    ensures e'.hub.(live := e.hub.live, registry := e.hub.registry) == e.hub
    ensures e'.hub.live <= e.hub.live && e.hub.live - room.Keys <= e'.hub.live
    ensures |e'.out| >= |e.out| && e'.out[..|e.out|] == e.out
    ensures forall i :: |e.out| <= i < |e'.out| ==> HoldsSeat(g.players, e'.out[i].to) && Reported(g, r, e'.out[i].msg)
    ensures forall s :: s in g.players && s.client in e.hub.live - room.Keys ==>
      && Envelope(s.client, RoundReport(r)) in e'.out
      && (IsGameOver(g) != Playing ==> Envelope(s.client, OverNotice(g)) in e'.out)
    ensures e.crashed ==> e'.crashed
    ensures e.hub.checked ==> e'.crashed == e.crashed
  {
    var e1 := Broadcast(e, room, g.players, RoundReport(r));
    match IsGameOver(g)
    case Playing => e1
    case reason =>
      var e2 := Broadcast(e1, room, g.players, OverNotice(g));
      forall i | |e.out| <= i < |e2.out|
        ensures HoldsSeat(g.players, e2.out[i].to) && Reported(g, r, e2.out[i].msg)
      {
        if i < |e1.out| { assert e2.out[i] == e1.out[i]; }
      }
      QueuedStays(e1.out, e2.out);
      e2.(hub := e2.hub.(registry := e2.hub.registry - {id}))
  }

  /** Resolve the round of match `id` and store the result. A failing
      resolution sends nothing but its writes stay in the match; a success
      is reported to every seat, and a match that is then over is announced
      and dropped from the registry. */
  function Resolve(e: Effect, room: Room, id: GameId, g: Game): (e': Effect)
    ensures e'.hub.games == e.hub.games[id := ProcessRound(g).0]
    ensures e'.hub.registry ==
      (if ProcessRound(g).1.Success? && IsGameOver(ProcessRound(g).0) != Playing then e.hub.registry - {id}
       else e.hub.registry)
    ensures e'.hub.(live := e.hub.live, games := e.hub.games, registry := e.hub.registry) == e.hub
    ensures e'.hub.live <= e.hub.live && e.hub.live - room.Keys <= e'.hub.live
    ensures ProcessRound(g).1.Failure? ==> e'.out == e.out && e'.crashed == e.crashed
    ensures ProcessRound(g).1.Success? ==>
      var (g2, r) := (ProcessRound(g).0, ProcessRound(g).1.value);
      && |e'.out| >= |e.out| && e'.out[..|e.out|] == e.out
      && (forall i :: |e.out| <= i < |e'.out| ==> HoldsSeat(g2.players, e'.out[i].to) && Reported(g2, r, e'.out[i].msg))
      && (forall s :: s in g2.players && s.client in e.hub.live - room.Keys ==>
            && Envelope(s.client, RoundReport(r)) in e'.out
            && (IsGameOver(g2) != Playing ==> Envelope(s.client, OverNotice(g2)) in e'.out))
    ensures e.hub.checked ==> e'.crashed == e.crashed
  {
    var pr := ProcessRound(g);
    var e1 := e.(hub := e.hub.(games := e.hub.games[id := pr.0]));
    if pr.1.Failure? then e1 else Report(e1, room, id, pr.0, pr.1.value)
  }

  // ---------------------------------------------------------------------
  // Submitting a pair

  /** Every message in `out` is an error addressed to `c`, at most one. */
  predicate OnlyErrorTo(out: seq<Envelope<Msg>>, c: ClientId) {
    |out| <= 1 && forall i :: 0 <= i < |out| ==> out[i].to == c && out[i].msg.Error?
  }

  /** Both teams have a pending move and at least one spent its hidden
      chance: the round waits for a late selection. */
  predicate AwaitsSelection(g: Game) {
    g.submit1.Some? && g.submit2.Some? && (g.submit1.value.useHidden || g.submit2.value.useHidden)
  }

  /** Both teams have a pending move and neither spent its hidden chance:
      a submission resolves the round at once. */
  predicate ResolvesNow(g: Game) {
    g.submit1.Some? && g.submit2.Some? && !AwaitsSelection(g)
  }

  /** Every message in `out` tells the opponent of `team` that `team` spent
      its hidden chance, and there is at most one. */
  predicate OnlyHiddenNotice(out: seq<Envelope<Msg>>, g: Game, team: TeamColor) {
    |out| <= 1 &&
    forall i :: 0 <= i < |out| ==>
      out[i].msg == HiddenUsed(team) && Some(out[i].to) == Occupant(g.players, OtherTeam(team))
  }

  /** Tell the opponent of `team`, if seated, that `team` spent its hidden
      chance. */
  function NotifyHidden(e: Effect, room: Room, g: Game, team: TeamColor): (e': Effect)
    ensures e'.hub.(live := e.hub.live) == e.hub
    ensures e'.hub.live <= e.hub.live && e.hub.live - room.Keys <= e'.hub.live
    ensures |e'.out| >= |e.out| && e'.out[..|e.out|] == e.out
    ensures OnlyHiddenNotice(e'.out[|e.out|..], g, team)
    ensures var o := Occupant(g.players, OtherTeam(team));
      o.Some? && o.value in e.hub.live - room.Keys ==>
        e'.hub == e.hub && e'.out == e.out + [Envelope(o.value, HiddenUsed(team))]
    ensures e.hub.checked ==> e'.crashed == e.crashed
  {
    match Occupant(g.players, OtherTeam(team))
    case Some(o) => Send(e, room, o, HiddenUsed(team))
    case None => e
  }

  /** What follows a stored submission: resolve the round when both moves
      are in and no hidden chance was spent, else wait. */
  function AfterSubmit(e: Effect, room: Room, id: GameId, g: Game): (e': Effect)
    ensures ResolvesNow(g) ==> e' == Resolve(e, room, id, g)
    ensures !ResolvesNow(g) ==> e' == e
    ensures |e'.out| >= |e.out| && e'.out[..|e.out|] == e.out
    ensures e'.hub.(live := e.hub.live, games := e.hub.games, registry := e.hub.registry) == e.hub
    ensures e'.hub.registry <= e.hub.registry
    ensures e.hub.registry - {id} <= e'.hub.registry
    ensures e.hub.checked ==> e'.crashed == e.crashed
  {
    if ResolvesNow(g) then Resolve(e, room, id, g) else e
  }

  /** Store the submission `g` of match `id` and, when `team` spent its
      hidden chance, tell the opponent. */
  function Stored(h: Hub, room: Room, id: GameId, team: TeamColor, useHidden: bool, g: Game): (e: Effect)
    ensures e.hub.(live := h.live) == h.(games := h.games[id := g])
    ensures e.hub.live <= h.live && h.live - room.Keys <= e.hub.live
    ensures !useHidden ==> e == Quiet(h.(games := h.games[id := g]))
    ensures useHidden ==> OnlyHiddenNotice(e.out, g, team)
    ensures var o := Occupant(g.players, OtherTeam(team));
      useHidden && o.Some? && o.value in h.live - room.Keys ==>
        e.hub == h.(games := h.games[id := g]) && e.out == [Envelope(o.value, HiddenUsed(team))]
    ensures h.checked ==> !e.crashed
  {
    var e0 := Quiet(h.(games := h.games[id := g]));
    if useHidden then
      var e1 := NotifyHidden(e0, room, g, team);
      assert e1.out[|e0.out|..] == e1.out;
      e1
    else e0
  }

  /** A stored submission `g` of match `id`: store it, announce a spent
      hidden chance, and resolve or wait. */
  function Submitted(h: Hub, room: Room, id: GameId, team: TeamColor, useHidden: bool, g: Game): (e: Effect)
    ensures ResolvesNow(g) ==> e.hub.games == h.games[id := ProcessRound(g).0]
    ensures ResolvesNow(g) && !useHidden ==> e == Resolve(Quiet(h.(games := h.games[id := g])), room, id, g)
    ensures !ResolvesNow(g) ==>
      && e.hub.(live := h.live) == h.(games := h.games[id := g])
      && (useHidden ==> OnlyHiddenNotice(e.out, g, team))
      && (!useHidden ==> e.out == [])
    ensures var o := Occupant(g.players, OtherTeam(team));
      useHidden && o.Some? && o.value in h.live - room.Keys ==>
        && |e.out| > 0 && e.out[0] == Envelope(o.value, HiddenUsed(team))
        && (!ResolvesNow(g) ==>
              e.hub == h.(games := h.games[id := g]) && e.out == [Envelope(o.value, HiddenUsed(team))])
    ensures e.hub.(live := h.live, games := h.games, registry := h.registry) == h
    ensures e.hub.registry <= h.registry
    ensures h.registry - {id} <= e.hub.registry
    ensures e.hub.live <= h.live && h.live - room.Keys <= e.hub.live
    ensures h.checked ==> !e.crashed
  {
    var e1 := Stored(h, room, id, team, useHidden, g);
    var g2 := ProcessRound(g).0;
    assert e1.hub.games == h.games[id := g];
    assert h.games[id := g][id := g2] == h.games[id := g2];
    var e2 := AfterSubmit(e1, room, id, g);
    if |e1.out| > 0 then assert e2.out[0] == e2.out[..|e1.out|][0]; e2 else e2
  }

  /** Submit a pair for the client's team. A refusal is answered to the
      client alone and changes nothing. On success the move is stored, a
      hidden chance is announced to the opponent alone, and the round is
      resolved at once only if both moves are in and neither spent its
      hidden chance. */
  function HandleSubmit(h: Hub, c: ClientId, block1: int, block2: int, useHidden: bool, choice: int,
                        room: Room): (e: Effect)
    ensures Lookup(h, ClientOf(h, c).gameId).None? ==>
      && e.hub.(live := h.live) == h && OnlyErrorTo(e.out, c)
      && (c in h.live - room.Keys ==> e.out == [Envelope(c, Error(GameNotFound))])
    ensures Lookup(h, ClientOf(h, c).gameId).Some? ==>
      var id := ClientOf(h, c).gameId.value;
      var team := ClientOf(h, c).team;
      var sub := SubmitBlocks(h.games[id], team, block1, block2, useHidden, choice);
      && (sub.Failure? ==> e.hub.(live := h.live) == h && OnlyErrorTo(e.out, c))
      && (sub.Failure? && c in h.live - room.Keys ==> e.out == [Envelope(c, Error(Rejected(sub.error)))])
      && (sub.Success? && useHidden && Occupant(sub.value.players, OtherTeam(team)).Some? &&
          Occupant(sub.value.players, OtherTeam(team)).value in h.live - room.Keys ==>
            |e.out| > 0 && e.out[0] == Envelope(Occupant(sub.value.players, OtherTeam(team)).value, HiddenUsed(team)))
      && (sub.Success? && ResolvesNow(sub.value) ==>
            && e.hub.games == h.games[id := ProcessRound(sub.value).0]
            && e == Resolve(Quiet(h.(games := h.games[id := sub.value])), room, id, sub.value))
      && (sub.Success? && !ResolvesNow(sub.value) ==>
            && e.hub.(live := h.live) == h.(games := h.games[id := sub.value])
            && (useHidden ==> OnlyHiddenNotice(e.out, sub.value, team))
            && (useHidden && Occupant(sub.value.players, OtherTeam(team)).Some? &&
                Occupant(sub.value.players, OtherTeam(team)).value in h.live - room.Keys ==>
                  && e.hub == h.(games := h.games[id := sub.value])
                  && e.out == [Envelope(Occupant(sub.value.players, OtherTeam(team)).value, HiddenUsed(team))])
            && (!useHidden ==> e.out == []))
    ensures e.hub.(live := h.live, games := h.games, registry := h.registry) == h
    ensures e.hub.registry <= h.registry
    ensures e.hub.live <= h.live && h.live - room.Keys <= e.hub.live
    ensures h.checked ==> !e.crashed
  {
    var cl := ClientOf(h, c);
    match Lookup(h, cl.gameId)
    case None => Send(Quiet(h), room, c, Error(GameNotFound))
    case Some(g) =>
      var id := cl.gameId.value;
      match SubmitBlocks(g, cl.team, block1, block2, useHidden, choice)
      case Failure(err) => Send(Quiet(h), room, c, Error(Rejected(err)))
      case Success(g1) => Submitted(h, room, id, cl.team, useHidden, g1)
  }

  // ---------------------------------------------------------------------
  // Late selection

  /** After a selection: both moves are in and the opponent of `team` spent
      its hidden chance. */
  predicate SelectionCompletes(g: Game, team: TeamColor) {
    g.submit1.Some? && g.submit2.Some? && g.Pending(OtherTeam(team)).Some? && g.Pending(OtherTeam(team)).value.useHidden
  }

  /** Overwrite the choice of the client's pending move; when both moves are
      in and the opponent spent its hidden chance, resolve the round. A
      client with no pending move changes nothing and hears nothing. */
  function HandleSelect(h: Hub, c: ClientId, choice: int, room: Room): (e: Effect)
    ensures Lookup(h, ClientOf(h, c).gameId).None? ==>
      && e.hub.(live := h.live) == h && OnlyErrorTo(e.out, c)
      && (c in h.live - room.Keys ==> e.out == [Envelope(c, Error(GameNotFound))])
    ensures Lookup(h, ClientOf(h, c).gameId).Some? ==>
      var id := ClientOf(h, c).gameId.value;
      var team := ClientOf(h, c).team;
      var g1 := SelectBlock(h.games[id], team, choice);
      && (h.games[id].Pending(team).None? ==> e == Quiet(h))
      && (h.games[id].Pending(team).Some? && SelectionCompletes(g1, team) ==>
            e == Resolve(Quiet(h.(games := h.games[id := g1])), room, id, g1))
      && (h.games[id].Pending(team).Some? && !SelectionCompletes(g1, team) ==>
            e == Quiet(h.(games := h.games[id := g1])))
    ensures e.hub.live <= h.live && h.live - room.Keys <= e.hub.live
    ensures h.checked ==> !e.crashed
  {
    var cl := ClientOf(h, c);
    match Lookup(h, cl.gameId)
    case None => Send(Quiet(h), room, c, Error(GameNotFound))
    case Some(g) =>
      var id := cl.gameId.value;
      if g.Pending(cl.team).None? then Quiet(h)
      else
        var g1 := SelectBlock(g, cl.team, choice);
        var e1 := Quiet(h.(games := h.games[id := g1]));
        if SelectionCompletes(g1, cl.team) then Resolve(e1, room, id, g1) else e1
  }

  // ---------------------------------------------------------------------
  // The event loop

  /** Dispatch a decoded request to its handler; an unknown kind is
      ignored. */
  function HandleGameMessage(h: Hub, c: ClientId, a: Action, input: Input): (e: Effect)
    ensures a.Join? ==> e == HandleJoin(h, c, a.name, a.team, input.room, input.coinSeat, input.coinStart)
    ensures a.SubmitPair? ==> e == HandleSubmit(h, c, a.block1, a.block2, a.useHidden, a.choice, input.room)
    ensures a.Select? ==> e == HandleSelect(h, c, a.choice, input.room)
    ensures a.Other? ==> e == Quiet(h)
    ensures e.hub.live <= h.live && h.live - input.room.Keys <= e.hub.live
  {
    match a
    case Join(name, team) => HandleJoin(h, c, name, team, input.room, input.coinSeat, input.coinStart)
    case SubmitPair(b1, b2, hidden, choice) => HandleSubmit(h, c, b1, b2, hidden, choice, input.room)
    case Select(choice) => HandleSelect(h, c, choice, input.room)
    case Other => Quiet(h)
  }

  /** One turn of the event loop. */
  function Run(h: Hub, input: Input): (e: Effect)
    ensures input.event.Unregister? && input.event.client !in h.live ==> e == Quiet(h)
    ensures input.event.Unregister? && input.event.client in h.live ==>
      e == HandleDisconnect(h.(live := h.live - {input.event.client}), input.event.client, input.room)
    ensures input.event.Register? ==>
      && e.out == [] && e.hub.live == h.live + {input.event.client}
      && e.hub == h.(live := e.hub.live, clients := e.hub.clients)
      && e.hub.clients.Keys == h.clients.Keys + {input.event.client}
      && (forall k :: k in h.clients ==> e.hub.clients[k] == h.clients[k])
      && (input.event.client !in h.clients ==> e.hub.clients[input.event.client] == NewClient)
    ensures !input.event.Unregister? ==> h.live - input.room.Keys <= e.hub.live
    ensures input.event.Unregister? ==> h.live - {input.event.client} - input.room.Keys <= e.hub.live
    ensures input.event.Message? && input.event.client in h.clients ==>
      e == HandleGameMessage(h, input.event.client, input.event.action, input)
    ensures input.event.Message? && input.event.client !in h.clients ==> e == Quiet(h)
    ensures e.hub.checked == h.checked
    ensures h.checked ==> !e.crashed
  {
    match input.event
    case Register(c) =>
      Quiet(h.(live := h.live + {c}, clients := if c in h.clients then h.clients else h.clients[c := NewClient]))
    case Unregister(c) =>
      if c in h.live then HandleDisconnect(h.(live := h.live - {c}), c, input.room) else Quiet(h)
    case Message(c, a) =>
      if c in h.clients then HandleGameMessage(h, c, a, input) else Quiet(h)
  }

  /** Run the loop over a sequence of inputs, collecting every queued
      message in order and stopping at the first fault. */
  function RunAll(h: Hub, inputs: seq<Input>): (e: Effect)
    ensures inputs == [] ==> e == Quiet(h)
    ensures inputs != [] ==> Run(h, inputs[0]).out <= e.out
    ensures inputs != [] && Run(h, inputs[0]).crashed ==> e == Run(h, inputs[0])
    ensures e.hub.checked == h.checked
    decreases |inputs|
  {
    if inputs == [] then Quiet(h)
    else
      var e1 := Run(h, inputs[0]);
      if e1.crashed then e1
      else
        var e2 := RunAll(e1.hub, inputs[1..]);
        e2.(out := e1.out + e2.out)
  }

  /** With the corrected send no run of the loop ever faults, whatever
      queues overflow and whenever. */
  lemma {:induction false} CheckedRunAllNeverCrashes(h: Hub, inputs: seq<Input>)
    requires h.checked
    ensures !RunAll(h, inputs).crashed
    decreases |inputs|
  {
    if inputs != [] {
      CheckedRunAllNeverCrashes(Run(h, inputs[0]).hub, inputs[1..]);
    }
  }

  // ---------------------------------------------------------------------
  // The registry invariant

  /** The waiting match is registered, not started and has one seat; only
      the seated label can have a pending move; and every client that
      points at it holds the seated label. */
  predicate WaitingOpen(h: Hub) {
    h.waiting.Some? ==>
      var w := h.waiting.value;
      && w in h.registry && w in h.games
      && !h.games[w].ready && |h.games[w].players| == 1
      && (h.games[w].players[0].team != Team1 ==> h.games[w].submit1 == None)
      && (h.games[w].players[0].team != Team2 ==> h.games[w].submit2 == None)
      && (forall r :: r in h.clients && h.clients[r].gameId == Some(w) ==>
            h.clients[r].team == h.games[w].players[0].team)
  }

  /** Registered ids name stored matches, stored ids were all issued, live
      clients are known, a client's match id names a stored match, and the
      waiting slot is open. */
  predicate Wf(h: Hub) {
    && h.registry <= h.games.Keys
    && (forall id :: id in h.games ==> id < h.nextId)
    && h.live <= h.clients.Keys
    && (forall r :: r in h.clients && h.clients[r].gameId.Some? ==> h.clients[r].gameId.value in h.games)
    && WaitingOpen(h)
  }

  lemma EmptyHubWf()
    ensures Wf(EmptyHub)
  {
  }

  /** With the registry well formed a join always seats the client: the
      first player takes its non-empty preference as given (team1 when it
      has none) and waits; the second takes its preference when that
      differs from the first player's label, else the first free of team1
      and team2, and the match starts. */
  lemma JoinSeats(h: Hub, c: ClientId, preferred: TeamColor, coinSeat: bool)
    requires Wf(h)
    ensures var (g1, team) := AddPlayer(JoinGame(h), c, preferred, coinSeat);
      && g1.players == JoinGame(h).players + [Seat(team, c)]
      && (h.waiting.None? ==> team == (if preferred != NoTeam then preferred else Team1) && !IsReady(g1))
      && (h.waiting.Some? ==>
            && team != JoinGame(h).players[0].team
            && (preferred != NoTeam && preferred != JoinGame(h).players[0].team ==> team == preferred)
            && (preferred == NoTeam || preferred == JoinGame(h).players[0].team ==> team == Team1 || team == Team2)
            && IsReady(g1) && !g1.ready)
  {
    var g := JoinGame(h);
    if h.waiting.Some? {
      var only := g.players[0];
      assert g.players == [only];
      assert forall t :: Occupant(g.players, t).Some? <==> t == only.team;
    }
  }

  /** The registry right after a join seats `c` is well formed. */
  lemma JoinedWf(h: Hub, c: ClientId, name: string, preferred: TeamColor, coinSeat: bool, coinStart: bool)
    requires Wf(h) && c in h.clients
    ensures Wf(Enter(h, c, name, preferred, coinSeat, coinStart))
  {
    JoinSeats(h, c, preferred, coinSeat);
    var h2 := Enter(h, c, name, preferred, coinSeat, coinStart);
    if h.waiting.None? {
      var id := h.nextId;
      assert forall r :: r in h2.clients && h2.clients[r].gameId == Some(id) ==> r == c;
    }
  }

  lemma JoinKeepsWf(h: Hub, c: ClientId, name: string, preferred: TeamColor, room: Room,
                    coinSeat: bool, coinStart: bool)
    requires Wf(h) && c in h.clients
    ensures Wf(HandleJoin(h, c, name, preferred, room, coinSeat, coinStart).hub)
  {
    JoinedWf(h, c, name, preferred, coinSeat, coinStart);
    var h2 := Enter(h, c, name, preferred, coinSeat, coinStart);
    var e := HandleJoin(h, c, name, preferred, room, coinSeat, coinStart);
    assert e.hub.(live := h2.live) == h2;
  }

  /** Storing `g` as match `id`, dropping ids from the registry and live
      clients from the live set keeps the registry well formed, provided a
      waiting match stays open. */
  lemma StoreKeepsWf(h: Hub, h': Hub, id: GameId, g: Game)
    requires Wf(h) && id in h.games
    requires h'.(live := h.live, games := h.games, registry := h.registry) == h
    requires h'.live <= h.live && h'.registry <= h.registry && h'.games == h.games[id := g]
    requires h.waiting.Some? ==> h.waiting.value in h'.registry
    requires h.waiting == Some(id) ==>
      && !g.ready && g.players == h.games[id].players
      && (g.players[0].team != Team1 ==> g.submit1 == None)
      && (g.players[0].team != Team2 ==> g.submit2 == None)
    ensures Wf(h')
  {
  }

  /** Storing a submission for a registered match keeps the registry well
      formed, provided the waiting match stays open. */
  lemma SubmittedKeepsWf(h: Hub, room: Room, id: GameId, team: TeamColor, useHidden: bool, g: Game)
    requires Wf(h) && id in h.registry && id in h.games
    requires g.(submit1 := h.games[id].submit1, submit2 := h.games[id].submit2) == h.games[id]
    requires h.waiting == Some(id) ==>
      && !ResolvesNow(g)
      && (g.players[0].team != Team1 ==> g.submit1 == None)
      && (g.players[0].team != Team2 ==> g.submit2 == None)
    ensures Wf(Submitted(h, room, id, team, useHidden, g).hub)
  {
    var e := Submitted(h, room, id, team, useHidden, g);
    if ResolvesNow(g) {
      StoreKeepsWf(h, e.hub, id, ProcessRound(g).0);
    } else {
      StoreKeepsWf(h, e.hub, id, g);
    }
  }

  lemma SubmitKeepsWf(h: Hub, c: ClientId, block1: int, block2: int, useHidden: bool, choice: int, room: Room)
    requires Wf(h) && c in h.clients
    ensures Wf(HandleSubmit(h, c, block1, block2, useHidden, choice, room).hub)
  {
    var cl := ClientOf(h, c);
    if Lookup(h, cl.gameId).Some? {
      var id := cl.gameId.value;
      var sub := SubmitBlocks(h.games[id], cl.team, block1, block2, useHidden, choice);
      if sub.Success? {
        assert HandleSubmit(h, c, block1, block2, useHidden, choice, room) ==
          Submitted(h, room, id, cl.team, useHidden, sub.value);
        if h.waiting == Some(id) {
          assert cl.team == h.games[id].players[0].team;
        }
        SubmittedKeepsWf(h, room, id, cl.team, useHidden, sub.value);
      }
    }
  }

  lemma SelectKeepsWf(h: Hub, c: ClientId, choice: int, room: Room)
    requires Wf(h) && c in h.clients
    ensures Wf(HandleSelect(h, c, choice, room).hub)
  {
    var cl := ClientOf(h, c);
    if Lookup(h, cl.gameId).Some? {
      var id := cl.gameId.value;
      if h.games[id].Pending(cl.team).Some? && h.waiting == Some(id) {
        assert !SelectionCompletes(SelectBlock(h.games[id], cl.team, choice), cl.team);
      }
    }
  }

  lemma DisconnectKeepsWf(h: Hub, c: ClientId, room: Room)
    requires Wf(h)
    ensures Wf(HandleDisconnect(h, c, room).hub)
  {
  }

  /** Every turn of the event loop keeps the registry well formed. */
  lemma RunKeepsWf(h: Hub, input: Input)
    requires Wf(h)
    ensures Wf(Run(h, input).hub)
  {
    match input.event
    case Register(c) =>
    case Unregister(c) =>
      if c in h.live {
        DisconnectKeepsWf(h.(live := h.live - {c}), c, input.room);
      }
    case Message(c, a) =>
      if c in h.clients {
        match a
        case Join(name, team) => JoinKeepsWf(h, c, name, team, input.room, input.coinSeat, input.coinStart);
        case SubmitPair(b1, b2, hidden, choice) => SubmitKeepsWf(h, c, b1, b2, hidden, choice, input.room);
        case Select(choice) => SelectKeepsWf(h, c, choice, input.room);
        case Other =>
      }
  }

  /** Any run of the event loop from a well-formed registry ends in one. */
  lemma {:induction false} RunAllKeepsWf(h: Hub, inputs: seq<Input>)
    requires Wf(h)
    ensures Wf(RunAll(h, inputs).hub)
    decreases |inputs|
  {
    if inputs != [] {
      RunKeepsWf(h, inputs[0]);
      var e1 := Run(h, inputs[0]);
      if !e1.crashed {
        RunAllKeepsWf(e1.hub, inputs[1..]);
      }
    }
  }

  /** Once a player leaves, the match is gone for everyone who pointed at
      it: a later submission is answered with an error to the sender alone
      and changes nothing. */
  lemma LeftGameIsGone(h: Hub, c: ClientId, other: ClientId, block1: int, block2: int, useHidden: bool, choice: int,
                       room: Room, room2: Room)
    requires c in h.live
    requires Lookup(h, ClientOf(h, c).gameId).Some?
    requires ClientOf(h, other).gameId == ClientOf(h, c).gameId
    ensures var h' := Run(h, Input(Unregister(c), room, false, false)).hub;
      var e := HandleSubmit(h', other, block1, block2, useHidden, choice, room2);
      && ClientOf(h, c).gameId.value !in h'.registry
      && e.hub.(live := h'.live) == h'
      && OnlyErrorTo(e.out, other)
      && (other in h'.live - room2.Keys ==> e.out == [Envelope(other, Error(GameNotFound))])
  {
    var h0 := h.(live := h.live - {c});
    assert ClientOf(h0, c) == ClientOf(h, c);
  }

  // ---------------------------------------------------------------------
  // Traces

  /** The registry of a match between clients 1 (team1) and 2 (team2),
      both live, with the match itself in state `g`. */
  function Stage(g: Game): Hub {
    Hub({1, 2}, map[1 := Client("a", Some(0), Team1), 2 := Client("b", Some(0), Team2)], map[0 := g], {0}, None, 1, false)
  }

  /** Round 1 of a started match: team1 holds 6 and 7, team2 holds 1 and 2. */
  const Opening := Game(0, [Seat(Team1, 1), Seat(Team2, 2)], 1, 0, 0, [6, 7], [1, 2], None, None, false, false, Team1, true)

  const BothHidden := Opening.(submit1 := Some(Submit(6, 7, true, 0)), submit2 := Some(Submit(1, 2, true, 0)))

  const FirstSelected := BothHidden.(submit1 := Some(Submit(6, 7, true, 1)), score1 := 1, hidden1 := true, hidden2 := true)

  function Say(c: ClientId, a: Action): Input {
    Input(Message(c, a), map[], false, false)
  }

  lemma OpeningWf()
    ensures Wf(Stage(Opening))
  {
  }

  const FirstHidden := Opening.(submit1 := Some(Submit(6, 7, true, 0)))

  /** The round after the second resolution: team1 has scored twice. */
  const Rescored := Game(0, [Seat(Team1, 1), Seat(Team2, 2)], 2, 2, 0, [1], [7], None, None, true, true, Team2, true)

  lemma Team1SubmitsHidden()
    ensures Run(Stage(Opening), Say(1, SubmitPair(6, 7, true, 0))).hub == Stage(FirstHidden)
  {
    var h := Stage(Opening);
    assert SubmitBlocks(Opening, Team1, 6, 7, true, 0) == Success(FirstHidden);
    assert Occupant(FirstHidden.players, Team2) == Some(2);
    assert Run(h, Say(1, SubmitPair(6, 7, true, 0))) == HandleSubmit(h, 1, 6, 7, true, 0, map[]);
    assert h.games[0 := FirstHidden] == map[0 := FirstHidden];
  }

  lemma Team2SubmitsHidden()
    ensures Run(Stage(FirstHidden), Say(2, SubmitPair(1, 2, true, 0))).hub == Stage(BothHidden)
    ensures AwaitsSelection(BothHidden)
  {
    var h := Stage(FirstHidden);
    assert AwaitsSelection(BothHidden) && !ResolvesNow(BothHidden);
    assert ClientOf(h, 2) == Client("b", Some(0), Team2) && Lookup(h, Some(0)) == Some(FirstHidden);
    assert SubmitBlocks(FirstHidden, Team2, 1, 2, true, 0) == Success(BothHidden);
    assert Occupant(BothHidden.players, Team1) == Some(1);
    assert Run(h, Say(2, SubmitPair(1, 2, true, 0))) == HandleSubmit(h, 2, 1, 2, true, 0, map[]);
    assert h.games[0 := BothHidden] == map[0 := BothHidden];
  }

  lemma FirstSelectionFails()
    ensures Run(Stage(BothHidden), Say(1, Select(1))).hub == Stage(FirstSelected)
  {
    var g := SelectBlock(BothHidden, Team1, 1);
    assert ProcessRound(g) == (FirstSelected, Failure(MustSelect(Team2)));
  }

  lemma SecondResolution()
    ensures ProcessRound(SelectBlock(FirstSelected, Team2, 2)).0 == Rescored
  {
    var g := SelectBlock(FirstSelected, Team2, 2);
    var s1 := Submit(6, 7, true, 1);
    var s2 := Submit(1, 2, true, 2);
    assert g.submit1 == Some(s1) && g.submit2 == Some(s2);
    assert Received(s1, s2, Team1) == Success(1);
    assert Received(s2, s1, Team2) == Success(7);
    var scored := Scored(g, s1, s2);
    assert scored == g.(score1 := 2);
    assert RemoveFirst([6, 7], 6) == [7];
    assert RemoveFirst([7], 7) == [];
    assert RemoveFirst([1, 2], 1) == [2];
    assert RemoveFirst([2], 2) == [];
    assert Exchanged(scored, s1, s2, 1, 7) == Rescored;
    var r := ProcessRound(g).1;
    assert r.Success? && r.value.received1 == 1 && r.value.received2 == 7;
  }

  /** A selection that completes the round stores the resolved match. */
  lemma SelectStoresResolution(h: Hub, c: ClientId, choice: int, room: Room)
    requires Lookup(h, ClientOf(h, c).gameId).Some?
    requires h.games[ClientOf(h, c).gameId.value].Pending(ClientOf(h, c).team).Some?
    requires SelectionCompletes(SelectBlock(h.games[ClientOf(h, c).gameId.value], ClientOf(h, c).team, choice),
                                ClientOf(h, c).team)
    ensures var id := ClientOf(h, c).gameId.value;
      HandleSelect(h, c, choice, room).hub.games ==
        h.games[id := ProcessRound(SelectBlock(h.games[id], ClientOf(h, c).team, choice)).0]
  {
    var id := ClientOf(h, c).gameId.value;
    var g1 := SelectBlock(h.games[id], ClientOf(h, c).team, choice);
    assert h.games[id := g1][id := ProcessRound(g1).0] == h.games[id := ProcessRound(g1).0];
  }

  lemma SecondSelectionScoresAgain()
    ensures 0 in Run(Stage(FirstSelected), Say(2, Select(2))).hub.games
    ensures Run(Stage(FirstSelected), Say(2, Select(2))).hub.games[0] == Rescored
  {
    var h := Stage(FirstSelected);
    assert ClientOf(h, 2) == Client("b", Some(0), Team2);
    assert Run(h, Say(2, Select(2))) == HandleSelect(h, 2, 2, map[]);
    SelectStoresResolution(h, 2, 2, map[]);
    SecondResolution();
  }

  /** Both teams spend their hidden chance, so the round waits for late
      selections. Team1's selection resolves the round while team2's choice
      is still missing: the resolution fails, but only after the point went
      to team1. Team2's selection then resolves the same round again and
      team1 scores a second time, so after one round team1 has two points. */
  lemma DoubleHiddenScoresTwice()
    ensures Wf(Stage(Opening))
    ensures Run(Stage(Opening), Say(1, SubmitPair(6, 7, true, 0))).hub == Stage(FirstHidden)
    ensures Run(Stage(FirstHidden), Say(2, SubmitPair(1, 2, true, 0))).hub == Stage(BothHidden)
    ensures Run(Stage(BothHidden), Say(1, Select(1))).hub == Stage(FirstSelected)
    ensures FirstSelected.score1 == 1 && FirstSelected.round == 1
    ensures 0 in Run(Stage(FirstSelected), Say(2, Select(2))).hub.games
    ensures Run(Stage(FirstSelected), Say(2, Select(2))).hub.games[0] == Rescored
    ensures Rescored.score1 == 2 && Rescored.round == 2 && !ScoresBounded(Rescored)
  {
    OpeningWf();
    Team1SubmitsHidden();
    Team2SubmitsHidden();
    FirstSelectionFails();
    SecondSelectionScoresAgain();
  }

  /** Team1 holds six points when both hidden chances are spent. Its late
      selection resolves the round while team2's choice is missing: the
      resolution fails after handing team1 its seventh point, so the match
      has passed the score limit, yet nobody is told and it stays
      registered. */
  lemma FailedRoundPassesScoreLimit()
    ensures var e := Run(Stage(BothHidden.(score1 := 6, round := 7)), Say(1, Select(1)));
      && !e.crashed && e.out == []
      && 0 in e.hub.registry && 0 in e.hub.games
      && IsGameOver(e.hub.games[0]) == ScoreLimit
  {
    var g0 := BothHidden.(score1 := 6, round := 7);
    var h := Stage(g0);
    assert ClientOf(h, 1) == Client("a", Some(0), Team1);
    var g := SelectBlock(g0, Team1, 1);
    assert ProcessRound(g).1 == Failure(MustSelect(Team2));
    assert Run(h, Say(1, Select(1))) == Resolve(Quiet(h.(games := h.games[0 := g])), map[], 0, g);
  }

  /** Nothing stops a client from joining twice: a client whose own match
      is waiting lands in it again, is seated as both teams, and the match
      starts. */
  lemma JoinTwiceTakesBothTeams()
    ensures var h1 := Run(EmptyHub, Input(Register(7), map[], false, false)).hub;
      var h2 := Run(h1, Say(7, Join("a", NoTeam))).hub;
      var h3 := Run(h2, Say(7, Join("a", NoTeam))).hub;
      && 0 in h3.registry && 0 in h3.games
      && h3.games[0].players == [Seat(Team1, 7), Seat(Team2, 7)]
      && h3.games[0].ready
  {
    var h1 := Run(EmptyHub, Input(Register(7), map[], false, false)).hub;
    assert h1 == EmptyHub.(live := {7}, clients := map[7 := NewClient]);
    assert Run(h1, Say(7, Join("a", NoTeam))) == HandleJoin(h1, 7, "a", NoTeam, map[], false, false);
    var h2 := Run(h1, Say(7, Join("a", NoTeam))).hub;
    assert AddPlayer(NewGame(0), 7, NoTeam, false).0.players == [Seat(Team1, 7)];
    assert h2.waiting == Some(0) && h2.games[0].players == [Seat(Team1, 7)];
    assert 7 in h2.clients;
    assert Run(h2, Say(7, Join("a", NoTeam))) == HandleJoin(h2, 7, "a", NoTeam, map[], false, false);
    assert JoinGame(h2) == h2.games[0];
  }
}
