/** The Nine Dragons tile duel (server/game.go): each colour plays each tile
    value 1..9 at most once, the larger tile takes the round except that a 1
    beats a 9, and the match ends at five wins or after nine rounds. */
module TileGame {
  import opened Common

  /** The two player colours. */
  datatype Color = Blue | Red

  function Opponent(c: Color): (o: Color)
    ensures o != c
  {
    if c == Blue then Red else Blue
  }

  const MinTile := 1
  const MaxTile := 9
  /** Round wins that end the match at once. */
  const WinsToFinish := 5
  /** The last regular round; the match is over once the round counter passes it. */
  const LastRound := 9

  /** One match. `players`, `used` and `roundTiles` are the server's
      colour-keyed maps; a colour with no `used` entry has used no tile. */
  datatype Game = Game(
    id: GameId,
    players: map<Color, ClientId>,
    round: int,
    blueWins: int,
    redWins: int,
    used: map<Color, seq<int>>,
    current: Color,
    roundTiles: map<Color, int>,
    ready: bool)
  {
    function Used(c: Color): seq<int> {
      if c in used then used[c] else []
    }

    function Wins(c: Color): int {
      if c == Blue then blueWins else redWins
    }

    /** Both colours have a tile down this round. */
    predicate RoundFull() {
      Blue in roundTiles && Red in roundTiles
    }
  }

  /** Why a seat or a tile is refused. `NotStarted` is raised only by the
      readiness-checking variant of tile play. */
  datatype TileError = ColorTaken | OutOfRange | TileReused | AlreadyPlayed | NotYourTurn | NotStarted

  /** A fresh match: round 1, no wins, nobody seated, Blue moves first. */
  function NewGame(id: GameId): (g: Game)
    ensures g.id == id && g.round == 1 && g.blueWins == 0 && g.redWins == 0
    ensures g.players == map[] && g.roundTiles == map[] && !g.ready
    ensures g.Used(Blue) == [] && g.Used(Red) == [] && g.current == Blue
  {
    Game(id, map[], 1, 0, 0, map[], Blue, map[], false)
  }

  /** A colour-keyed map has two entries exactly when both colours are keys. */
  lemma BothSeated<V>(m: map<Color, V>)
    ensures |m| == 2 <==> Blue in m && Red in m
  {
    forall c | c in m.Keys
      ensures c == Blue || c == Red
    {
      match c
      case Blue =>
      case Red =>
    }
    if Blue in m && Red in m {
      assert m.Keys == {Blue, Red};
    } else if Blue in m {
      assert m.Keys == {Blue};
    } else if Red in m {
      assert m.Keys == {Red};
    } else {
      assert m.Keys == {};
    }
  }

  /** Seat `client` as `color`. Seating the second colour makes the match
      ready and starts both used-tile lists afresh; tiles already down this
      round are kept. */
  function AddPlayer(g: Game, client: ClientId, color: Color): (r: Result<Game, TileError>)
    ensures r.Failure? <==> color in g.players
    ensures r.Failure? ==> r.error == ColorTaken
    ensures r.Success? ==>
      && r.value.players == g.players[color := client]
      && r.value.roundTiles == g.roundTiles
      && r.value.(players := g.players, ready := g.ready, used := g.used) == g
    ensures r.Success? && Blue in r.value.players && Red in r.value.players ==>
      r.value.ready && r.value.Used(Blue) == [] && r.value.Used(Red) == []
    ensures r.Success? && !(Blue in r.value.players && Red in r.value.players) ==>
      r.value.ready == g.ready && r.value.used == g.used
  {
    if color in g.players then Failure(ColorTaken)
    else
      var seated := g.players[color := client];
      BothSeated(seated);
      if |seated| == 2 then
        Success(g.(players := seated, ready := true, used := g.used[Blue := []][Red := []]))
      else
        Success(g.(players := seated))
  }

  /** Put `tile` down for `color`. It must be in 1..9, unused by that colour,
      the colour's first tile this round, and either the colour is the one
      to move first or the opponent already has a tile down. */
  function PlayTile(g: Game, color: Color, tile: int): (r: Result<Game, TileError>)
    ensures !(MinTile <= tile <= MaxTile) ==> r == Failure(OutOfRange)
    ensures MinTile <= tile <= MaxTile && tile in g.Used(color) ==> r == Failure(TileReused)
    ensures MinTile <= tile <= MaxTile && tile !in g.Used(color) && color in g.roundTiles ==>
      r == Failure(AlreadyPlayed)
    ensures (MinTile <= tile <= MaxTile && tile !in g.Used(color) && color !in g.roundTiles &&
             g.current != color && Opponent(color) !in g.roundTiles) ==> r == Failure(NotYourTurn)
    ensures r.Success? <==>
      && MinTile <= tile <= MaxTile
      && tile !in g.Used(color)
      && color !in g.roundTiles
      && (g.current == color || Opponent(color) in g.roundTiles)
    ensures r.Success? ==>
      && r.value.roundTiles == g.roundTiles[color := tile]
      && r.value.Used(color) == g.Used(color) + [tile]
      && r.value.Used(Opponent(color)) == g.Used(Opponent(color))
      && r.value.(roundTiles := g.roundTiles, used := g.used) == g
  {
    if tile < MinTile || tile > MaxTile then Failure(OutOfRange)
    else if tile in g.Used(color) then Failure(TileReused)
    else if color in g.roundTiles then Failure(AlreadyPlayed)
    else if g.current != color && Opponent(color) !in g.roundTiles then Failure(NotYourTurn)
    else Success(g.(roundTiles := g.roundTiles[color := tile],
                    used := g.used[color := g.Used(color) + [tile]]))
  }

  /** Tile `x` takes the round from tile `y`: the 1-beats-9 upset, or the
      strictly larger tile unless that is a 9 facing a 1. */
  predicate Beats(x: int, y: int) {
    (x == 1 && y == 9) || (x > y && !(x == 9 && y == 1))
  }

  /** The round's winning colour for Blue's and Red's tiles; None is a draw. */
  function DetermineWinner(blueTile: int, redTile: int): (w: Option<Color>)
    ensures w == None <==> blueTile == redTile
    ensures w == Some(Blue) <==> Beats(blueTile, redTile)
    ensures w == Some(Red) <==> Beats(redTile, blueTile)
  {
    if blueTile == redTile then None
    else if blueTile == 1 && redTile == 9 then Some(Blue)
    else if redTile == 1 && blueTile == 9 then Some(Red)
    else if blueTile > redTile then Some(Blue)
    else Some(Red)
  }

  function Swap(w: Option<Color>): Option<Color> {
    match w
    case None => None
    case Some(c) => Some(Opponent(c))
  }

  /** Exchanging the two tiles exchanges the winner; a draw stays a draw. */
  lemma DetermineWinnerSwap(a: int, b: int)
    ensures DetermineWinner(b, a) == Swap(DetermineWinner(a, b))
    ensures a != b ==> DetermineWinner(a, b) != DetermineWinner(b, a)
  {
  }

  /** No tile beats one that beats it. */
  lemma BeatsAsymmetric(x: int, y: int)
    ensures !(Beats(x, y) && Beats(y, x))
    ensures x != y ==> Beats(x, y) || Beats(y, x)
  {
  }

  datatype RoundOutcome = Incomplete | Complete(winner: Option<Color>)

  /** Resolve the round once both colours have a tile down: score the
      winner, advance the round, clear the tiles, and hand the first move to
      a non-draw winner. */
  function ProcessRound(g: Game): (r: (Game, RoundOutcome))
    ensures r.1.Incomplete? <==> !g.RoundFull()
    ensures r.1.Incomplete? ==> r.0 == g
    ensures r.1.Complete? ==>
      && r.1.winner == DetermineWinner(g.roundTiles[Blue], g.roundTiles[Red])
      && r.0.round == g.round + 1
      && r.0.roundTiles == map[]
      && r.0.blueWins == g.blueWins + (if r.1.winner == Some(Blue) then 1 else 0)
      && r.0.redWins == g.redWins + (if r.1.winner == Some(Red) then 1 else 0)
      && r.0.current == r.1.winner.GetOr(g.current)
      && r.0.(round := g.round, roundTiles := g.roundTiles, blueWins := g.blueWins,
              redWins := g.redWins, current := g.current) == g
  {
    if Blue !in g.roundTiles || Red !in g.roundTiles then (g, Incomplete)
    else
      var winner := DetermineWinner(g.roundTiles[Blue], g.roundTiles[Red]);
      var blueWins := if winner == Some(Blue) then g.blueWins + 1 else g.blueWins;
      var redWins := if winner == Some(Red) then g.redWins + 1 else g.redWins;
      var current := if winner.Some? then winner.value else g.current;
      (g.(blueWins := blueWins, redWins := redWins, round := g.round + 1,
          roundTiles := map[], current := current), Complete(winner))
  }

  datatype Verdict = Continues | Over(winner: Option<Color>)

  /** Five wins end the match for that colour (Blue is looked at first);
      otherwise the match ends once the round counter passes nine, the
      colour with more wins taking it and equal wins a draw. */
  function IsGameOver(g: Game): (v: Verdict)
    ensures v == Over(Some(Blue)) <==>
      g.blueWins >= WinsToFinish || (g.redWins < WinsToFinish && g.round > LastRound && g.blueWins > g.redWins)
    ensures v == Over(Some(Red)) <==>
      g.blueWins < WinsToFinish &&
      (g.redWins >= WinsToFinish || (g.round > LastRound && g.redWins > g.blueWins))
    ensures v == Over(None) <==>
      g.blueWins < WinsToFinish && g.redWins < WinsToFinish && g.round > LastRound && g.blueWins == g.redWins
  {
    if g.blueWins >= WinsToFinish then Over(Some(Blue))
    else if g.redWins >= WinsToFinish then Over(Some(Red))
    else if g.round > LastRound then
      if g.blueWins > g.redWins then Over(Some(Blue))
      else if g.redWins > g.blueWins then Over(Some(Red))
      else Over(None)
    else Continues
  }

  /** The colour the clients are told to wait for: the first mover until it
      has a tile down, then its opponent. */
  function GetNextPlayer(g: Game): (c: Color)
    ensures g.current !in g.roundTiles ==> c == g.current
    ensures g.current in g.roundTiles ==> c == Opponent(g.current)
  {
    if g.current in g.roundTiles then Opponent(g.current) else g.current
  }

  /** While a round is open, the colour named as next may move: it has no
      tile down and the turn rule lets it play. */
  lemma NextPlayerMayPlay(g: Game, tile: int)
    requires !g.RoundFull()
    requires MinTile <= tile <= MaxTile && tile !in g.Used(GetNextPlayer(g))
    ensures PlayTile(g, GetNextPlayer(g), tile).Success?
  {
  }

  /** The match is decided once the round counter passes nine. */
  lemma OverAfterLastRound(g: Game)
    requires g.round > LastRound
    ensures IsGameOver(g).Over?
  {
  }

  /** A decided match names a colour that either reached five wins or led
      after nine rounds; a drawn match had equal wins after nine rounds. */
  lemma VerdictJustified(g: Game)
    ensures IsGameOver(g) == Over(None) ==> g.round > LastRound && g.blueWins == g.redWins
    ensures forall c :: IsGameOver(g) == Over(Some(c)) ==>
      g.Wins(c) >= WinsToFinish || (g.round > LastRound && g.Wins(c) > g.Wins(Opponent(c)))
  {
  }

  // ---------------------------------------------------------------------
  // Used tiles stay a duplicate-free list of values in 1..9.

  predicate TilesValid(s: seq<int>) {
    && (forall i :: 0 <= i < |s| ==> MinTile <= s[i] <= MaxTile)
    && (forall i, j :: 0 <= i < j < |s| ==> s[i] != s[j])
  }

  predicate UsedValid(g: Game) {
    TilesValid(g.Used(Blue)) && TilesValid(g.Used(Red))
  }

  lemma NewGameUsedValid(id: GameId)
    ensures UsedValid(NewGame(id))
  {
  }

  /** Seating a player keeps the used lists valid (they are either kept or
      started afresh). */
  lemma AddPlayerKeepsUsedValid(g: Game, client: ClientId, color: Color)
    requires UsedValid(g)
    requires AddPlayer(g, client, color).Success?
    ensures UsedValid(AddPlayer(g, client, color).value)
  {
  }

  /** A successful tile keeps both used lists duplicate-free and in range. */
  lemma PlayTileKeepsUsedValid(g: Game, color: Color, tile: int)
    requires UsedValid(g)
    requires PlayTile(g, color, tile).Success?
    ensures UsedValid(PlayTile(g, color, tile).value)
  {
    var g' := PlayTile(g, color, tile).value;
    var s := g.Used(color);
    var s' := g'.Used(color);
    assert s' == s + [tile];
    forall i, j | 0 <= i < j < |s'|
      ensures s'[i] != s'[j]
    {
      if j == |s| {
        assert s'[i] == s[i];
        assert s[i] in s;
      }
    }
  }

  lemma ProcessRoundKeepsUsedValid(g: Game)
    requires UsedValid(g)
    ensures UsedValid(ProcessRound(g).0)
  {
  }

  /** A duplicate-free list whose entries all lie in `values` is no longer
      than `values` is large. */
  lemma {:induction false} DistinctWithin(s: seq<int>, values: set<int>)
    requires forall i :: 0 <= i < |s| ==> s[i] in values
    requires forall i, j :: 0 <= i < j < |s| ==> s[i] != s[j]
    ensures |s| <= |values|
  {
    if |s| > 0 {
      var last := s[|s| - 1];
      var t := s[..|s| - 1];
      forall i | 0 <= i < |t|
        ensures t[i] in values - {last}
      {
        assert t[i] == s[i] && s[i] != s[|s| - 1];
      }
      DistinctWithin(t, values - {last});
    }
  }

  /** A valid used list holds at most nine tiles: a colour can play at most
      nine times in a match. */
  lemma TilesValidAtMostNine(s: seq<int>)
    requires TilesValid(s)
    ensures |s| <= MaxTile
  {
    var tiles := {1, 2, 3, 4, 5, 6, 7, 8, 9};
    forall i | 0 <= i < |s|
      ensures s[i] in tiles
    {
    }
    DistinctWithin(s, tiles);
  }

  // ---------------------------------------------------------------------
  // Win counts: at most one win per resolved round.

  predicate WinsBounded(g: Game) {
    0 <= g.blueWins && 0 <= g.redWins && g.blueWins + g.redWins <= g.round - 1
  }

  /** Resolving a round adds at most one win and exactly one round, so the
      wins never outnumber the rounds played. */
  lemma ProcessRoundKeepsWinsBounded(g: Game)
    requires WinsBounded(g)
    ensures WinsBounded(ProcessRound(g).0)
    ensures ProcessRound(g).0.round >= g.round
  {
  }

  // ---------------------------------------------------------------------
  // Every tile down this round is recorded as used by its colour.

  /** The tiles down this round are recorded in their colour's used list,
      and a match that is not ready has no tile down. */
  predicate TilesRecorded(g: Game) {
    && (!g.ready ==> g.roundTiles == map[])
    && (forall c :: c in g.roundTiles ==> g.roundTiles[c] in g.Used(c))
  }

  /** A tile played only once the match is ready stays recorded. */
  lemma PlayTileReadyKeepsRecorded(g: Game, color: Color, tile: int)
    requires TilesRecorded(g) && g.ready
    requires PlayTile(g, color, tile).Success?
    ensures TilesRecorded(PlayTile(g, color, tile).value)
  {
    var g' := PlayTile(g, color, tile).value;
    forall c | c in g'.roundTiles
      ensures g'.roundTiles[c] in g'.Used(c)
    {
      if c != color {
        assert c == Opponent(color);
      }
    }
  }

  /** Seating a player into a match that is not yet ready keeps the round
      tiles recorded, because such a match has none. */
  lemma AddPlayerKeepsRecorded(g: Game, client: ClientId, color: Color)
    requires TilesRecorded(g) && !g.ready
    requires AddPlayer(g, client, color).Success?
    ensures TilesRecorded(AddPlayer(g, client, color).value)
  {
  }

  lemma ProcessRoundKeepsRecorded(g: Game)
    requires TilesRecorded(g)
    ensures TilesRecorded(ProcessRound(g).0)
  {
  }

  /** Each tile down this round is the last entry of its colour's used
      list, which is where the round report reads it from. */
  predicate TilesLast(g: Game) {
    forall c :: c in g.roundTiles ==> |g.Used(c)| > 0 && g.Used(c)[|g.Used(c)| - 1] == g.roundTiles[c]
  }

  /** An accepted tile becomes the last used entry of its colour and
      leaves the other colour's list and tile alone. */
  lemma PlayTileKeepsTilesLast(g: Game, color: Color, tile: int)
    requires TilesLast(g) && PlayTile(g, color, tile).Success?
    ensures TilesLast(PlayTile(g, color, tile).value)
  {
    var g1 := PlayTile(g, color, tile).value;
    forall c | c in g1.roundTiles
      ensures |g1.Used(c)| > 0 && g1.Used(c)[|g1.Used(c)| - 1] == g1.roundTiles[c]
    {
      if c == color {
        assert g1.Used(c) == g.Used(c) + [tile];
      } else {
        assert c == Opponent(color);
      }
    }
  }

  // ---------------------------------------------------------------------
  // Tile play before the match is ready

  /** Tile play does not look at readiness. A tile the first player puts
      down while waiting survives the second player's arrival, but the
      arrival empties both used lists, so after that round resolves the
      same tile is accepted from the same colour again. */
  lemma PlayBeforeReadyReusesTile()
    ensures AddPlayer(NewGame(0), 1, Blue).Success?
    ensures var g0 := AddPlayer(NewGame(0), 1, Blue).value;
      && !g0.ready
      && PlayTile(g0, Blue, 5).Success?
      && var g1 := PlayTile(g0, Blue, 5).value;
      && AddPlayer(g1, 2, Red).Success?
      && var g2 := AddPlayer(g1, 2, Red).value;
      && g2.ready && g2.roundTiles[Blue] == 5 && 5 !in g2.Used(Blue)
      && !TilesRecorded(g2)
      && PlayTile(g2, Red, 3).Success?
      && var g3 := ProcessRound(PlayTile(g2, Red, 3).value).0;
      && g3.round == 2 && g3.blueWins == 1
      && PlayTile(g3, Blue, 5).Success?
  {
    var g0 := AddPlayer(NewGame(0), 1, Blue).value;
    var g1 := PlayTile(g0, Blue, 5).value;
    var g2 := AddPlayer(g1, 2, Red).value;
    assert Blue in g2.roundTiles && g2.roundTiles[Blue] !in g2.Used(Blue);
    var g3 := ProcessRound(PlayTile(g2, Red, 3).value).0;
    assert DetermineWinner(5, 3) == Some(Blue);
    assert g3.Used(Blue) == [];
  }

  /** Tile play that first requires the match to be ready. */
  function PlayTileWhenReady(g: Game, color: Color, tile: int): (r: Result<Game, TileError>)
    ensures !g.ready ==> r == Failure(NotStarted)
    ensures g.ready ==> r == PlayTile(g, color, tile)
    ensures TilesRecorded(g) && r.Success? ==> TilesRecorded(r.value)
  {
    if !g.ready then Failure(NotStarted)
    else
      var r := PlayTile(g, color, tile);
      if r.Success? && TilesRecorded(g) then
        PlayTileReadyKeepsRecorded(g, color, tile);
        r
      else r
  }

  /** With readiness checked, every operation of the match (seating being
      possible only before it is ready) keeps each tile down this round in
      its colour's used list, so the used lists (which
      hold no repeats) account for every tile played and none is played
      twice. */
  lemma CheckedPlayKeepsRecorded(g: Game, client: ClientId, seat: Color, color: Color, tile: int)
    requires TilesRecorded(g)
    ensures TilesRecorded(NewGame(g.id))
    ensures !g.ready && AddPlayer(g, client, seat).Success? ==> TilesRecorded(AddPlayer(g, client, seat).value)
    ensures PlayTileWhenReady(g, color, tile).Success? ==> TilesRecorded(PlayTileWhenReady(g, color, tile).value)
    ensures TilesRecorded(ProcessRound(g).0)
  {
    if !g.ready && AddPlayer(g, client, seat).Success? {
      AddPlayerKeepsRecorded(g, client, seat);
    }
    ProcessRoundKeepsRecorded(g);
  }
}
