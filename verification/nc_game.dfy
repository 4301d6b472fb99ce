/** The Number Change block exchange (server/nc_game.go): each team starts
    with two blocks of each value 1..7, submits a pair every round, the
    larger pair total scores a point, and each team receives one block of the
    opponent's pair. The match ends at seven points or after twelve rounds. */
module NcGame {
  import opened Common
  import opened Blocks

  /** Team labels are the client's free-form preference string; only the two
      standard labels own blocks. "" means no team. */
  type TeamColor = string

  const Team1: TeamColor := "team1"
  const Team2: TeamColor := "team2"
  const NoTeam: TeamColor := ""

  /** The team a flip hands the turn to: Team2 after Team1, Team1 after
      anything else. */
  function OtherTeam(t: TeamColor): (o: TeamColor)
    ensures o == Team1 || o == Team2
    ensures t == Team1 || t == Team2 ==> o != t
  {
    if t == Team1 then Team2 else Team1
  }

  const ScoreToWin := 7
  const LastRound := 12
  const HighestBlock := 7


  /** A seated client. The seat list stands for the server's team-keyed
      player map, in insertion order. */
  datatype Seat = Seat(team: TeamColor, client: ClientId)

  /** One team's pending move: its pair, whether it spends its hidden
      chance, and which of the opponent's blocks it takes (0 = none yet). */
  datatype Submit = Submit(block1: int, block2: int, useHidden: bool, choice: int)

  datatype Game = Game(
    id: GameId,
    players: seq<Seat>,
    round: int,
    score1: int,
    score2: int,
    blocks1: seq<int>,
    blocks2: seq<int>,
    submit1: Option<Submit>,
    submit2: Option<Submit>,
    hidden1: bool,
    hidden2: bool,
    currentTeam: TeamColor,
    ready: bool)
  {
    /** The inventory of `team`; a non-standard label owns nothing. */
    function Inventory(team: TeamColor): seq<int> {
      if team == Team1 then blocks1 else if team == Team2 then blocks2 else []
    }

    function Pending(team: TeamColor): Option<Submit> {
      if team == Team1 then submit1 else if team == Team2 then submit2 else None
    }

    function HiddenUsed(team: TeamColor): bool {
      (team == Team1 && hidden1) || (team == Team2 && hidden2)
    }
  }

  datatype NcError =
    | InvalidBlocks
    | HiddenAlreadyUsed
    | InvalidChoice
    | AwaitingSubmissions
    | MustSelect(team: TeamColor)
    | BadChoice

  /** The client seated as `team`, if any (the first such seat). */
  function Occupant(ps: seq<Seat>, team: TeamColor): (r: Option<ClientId>)
    ensures r.None? <==> forall i :: 0 <= i < |ps| ==> ps[i].team != team
    ensures r.Some? ==> Seat(team, r.value) in ps
  {
    if ps == [] then None
    else if ps[0].team == team then Some(ps[0].client)
    else
      var r := Occupant(ps[1..], team);
      assert forall i :: 1 <= i < |ps| ==> ps[i] == ps[1..][i - 1];
      r
  }

  /** No team label is seated twice: the seat list is a map. */
  predicate DistinctTeams(ps: seq<Seat>) {
    forall i, j :: 0 <= i < j < |ps| ==> ps[i].team != ps[j].team
  }

  /** A fresh match: round 1, no points, no pending moves, no hidden chance
      spent, and two blocks of each value 1..7 per team. */
  function NewGame(id: GameId): (g: Game)
    ensures g.id == id && g.round == 1 && g.score1 == 0 && g.score2 == 0
    ensures g.players == [] && !g.ready && g.currentTeam == NoTeam
    ensures g.submit1 == None && g.submit2 == None && !g.hidden1 && !g.hidden2
    ensures |g.blocks1| == 14 && |g.blocks2| == 14
    ensures forall v :: multiset(g.blocks1)[v] == (if 1 <= v <= HighestBlock then 2 else 0)
    ensures g.blocks2 == g.blocks1
  {
    StartingBlocksCounts();
    Game(id, [], 1, 0, 0, StartingBlocks, StartingBlocks, None, None, false, false, NoTeam, false)
  }

  /** The values 1..n in increasing order. */
  function UpTo(n: nat): (s: seq<int>)
    ensures |s| == n
  {
    if n == 0 then [] else UpTo(n - 1) + [n]
  }

  lemma {:induction false} UpToCount(n: nat, v: int)
    ensures multiset(UpTo(n))[v] == if 1 <= v <= n then 1 else 0
  {
    if n > 0 {
      UpToCount(n - 1, v);
      assert multiset(UpTo(n)) == multiset(UpTo(n - 1)) + multiset{n};
    }
  }

  /** The starting inventory of each team: 1..7 twice over. */
  const StartingBlocks: seq<int> := UpTo(HighestBlock) + UpTo(HighestBlock)

  /** The same list as the server writes it out. */
  lemma StartingBlocksLiteral()
    ensures StartingBlocks == [1, 2, 3, 4, 5, 6, 7, 1, 2, 3, 4, 5, 6, 7]
  {
  }

  /** The starting inventory holds exactly two blocks of each value 1..7. */
  lemma StartingBlocksCounts()
    ensures forall v :: multiset(StartingBlocks)[v] == (if 1 <= v <= HighestBlock then 2 else 0)
  {
    forall v
      ensures multiset(StartingBlocks)[v] == (if 1 <= v <= HighestBlock then 2 else 0)
    {
      UpToCount(HighestBlock, v);
    }
  }

  /** Seat `client`. A non-empty preferred label that is free is taken as
      given, whatever it is; otherwise the first free of Team1, Team2. When
      both are taken nobody is seated and the label `coinTeam1` picks is
      returned (the server draws it at random). */
  function AddPlayer(g: Game, client: ClientId, preferred: TeamColor, coinTeam1: bool): (r: (Game, TeamColor))
    ensures preferred != NoTeam && Occupant(g.players, preferred).None? ==>
      r.1 == preferred
    ensures !(preferred != NoTeam && Occupant(g.players, preferred).None?) ==>
      if Occupant(g.players, Team1).None? then r.1 == Team1
      else if Occupant(g.players, Team2).None? then r.1 == Team2
      else r.1 == (if coinTeam1 then Team1 else Team2)
    ensures Occupant(g.players, r.1).None? ==>
      r.0.players == g.players + [Seat(r.1, client)]
    ensures Occupant(g.players, r.1).Some? ==>
      r.0.players == g.players && r.1 in {Team1, Team2}
    ensures r.0.(players := g.players) == g
    ensures DistinctTeams(g.players) ==> DistinctTeams(r.0.players)
  {
    if preferred != NoTeam && Occupant(g.players, preferred).None? then
      (g.(players := g.players + [Seat(preferred, client)]), preferred)
    else if Occupant(g.players, Team1).None? then
      (g.(players := g.players + [Seat(Team1, client)]), Team1)
    else if Occupant(g.players, Team2).None? then
      (g.(players := g.players + [Seat(Team2, client)]), Team2)
    else
      (g, if coinTeam1 then Team1 else Team2)
  }

  /** Two seats are taken. */
  predicate IsReady(g: Game) {
    |g.players| == 2
  }

  /** Seating into a match with at most one seat taken makes it ready
      exactly when it already had one: a first arrival always finds a free
      team, and so does a second. */
  lemma SecondSeatMakesReady(g: Game, client: ClientId, preferred: TeamColor, coinTeam1: bool)
    requires |g.players| <= 1
    ensures IsReady(AddPlayer(g, client, preferred, coinTeam1).0) <==> |g.players| == 1
  {
    var team := AddPlayer(g, client, preferred, coinTeam1).1;
    if g.players != [] && g.players[0].team == Team1 {
      assert Occupant(g.players, Team2).None?;
    } else {
      assert Occupant(g.players, Team1).None?;
    }
    assert Occupant(g.players, team).None?;
  }

  /** Mark the match started; `coinTeam1` stands for the server's coin toss
      for the first team. */
  function Start(g: Game, coinTeam1: bool): (g': Game)
    ensures g'.ready
    ensures g'.currentTeam == Team1 || g'.currentTeam == Team2
    ensures g'.(ready := g.ready, currentTeam := g.currentTeam) == g
  {
    g.(ready := true, currentTeam := if coinTeam1 then Team1 else Team2)
  }

  /** Record `team`'s pair. Both blocks must be in its inventory (membership
      only), the hidden chance must be unspent when requested, and the choice
      must be 0, 1 or 2. A success replaces any pending move of the team. */
  function SubmitBlocks(g: Game, team: TeamColor, block1: int, block2: int, useHidden: bool, choice: int)
    : (r: Result<Game, NcError>)
    ensures r.Failure? <==>
      || block1 !in g.Inventory(team)
      || block2 !in g.Inventory(team)
      || (useHidden && g.HiddenUsed(team))
      || choice !in {0, 1, 2}
    ensures block1 !in g.Inventory(team) || block2 !in g.Inventory(team) ==> r == Failure(InvalidBlocks)
    ensures block1 in g.Inventory(team) && block2 in g.Inventory(team) && useHidden && g.HiddenUsed(team) ==>
      r == Failure(HiddenAlreadyUsed)
    ensures (block1 in g.Inventory(team) && block2 in g.Inventory(team) && !(useHidden && g.HiddenUsed(team)) &&
             choice !in {0, 1, 2}) ==> r == Failure(InvalidChoice)
    ensures r.Success? ==>
      && (team == Team1 || team == Team2)
      && r.value.Pending(team) == Some(Submit(block1, block2, useHidden, choice))
      && r.value.Pending(OtherTeam(team)) == g.Pending(OtherTeam(team))
      && r.value.(submit1 := g.submit1, submit2 := g.submit2) == g
  {
    if !HasBlock(g.Inventory(team), block1) || !HasBlock(g.Inventory(team), block2) then
      Failure(InvalidBlocks)
    else if useHidden && ((team == Team1 && g.hidden1) || (team == Team2 && g.hidden2)) then
      Failure(HiddenAlreadyUsed)
    else if choice != 0 && choice != 1 && choice != 2 then
      Failure(InvalidChoice)
    else
      var s := Submit(block1, block2, useHidden, choice);
      if team == Team1 then Success(g.(submit1 := Some(s)))
      else Success(g.(submit2 := Some(s)))
  }

  /** The block a team receives from the opponent's pair: the larger one,
      unless the opponent spent its hidden chance, in which case the team's
      choice 1 or 2 names the block and any other choice is an error. */
  function Received(own: Submit, opponent: Submit, team: TeamColor): (r: Result<int, NcError>)
    ensures !opponent.useHidden ==>
      r.Success? && r.value >= opponent.block1 && r.value >= opponent.block2 &&
      (r.value == opponent.block1 || r.value == opponent.block2)
    ensures opponent.useHidden ==>
      && (r.Success? <==> own.choice == 1 || own.choice == 2)
      && (own.choice == 1 ==> r.value == opponent.block1)
      && (own.choice == 2 ==> r.value == opponent.block2)
      && (own.choice == 0 ==> r.error == MustSelect(team))
      && (own.choice !in {0, 1, 2} ==> r.error == BadChoice)
  {
    if opponent.useHidden then
      if own.choice == 0 then Failure(MustSelect(team))
      else if own.choice == 1 then Success(opponent.block1)
      else if own.choice == 2 then Success(opponent.block2)
      else Failure(BadChoice)
    else Success(Max(opponent.block1, opponent.block2))
  }

  /** What a resolved round reports. */
  datatype RoundResult = RoundResult(
    round: int,
    total1: int,
    total2: int,
    winner: Option<TeamColor>,
    score1: int,
    score2: int,
    received1: int,
    received2: int,
    nextTeam: TeamColor)

  /** The scoring step, which the server performs before it checks the
      selections: a point for the strictly larger total, and hidden chances
      spent in this round recorded. */
  function Scored(g: Game, s1: Submit, s2: Submit): (g': Game)
    ensures g'.score1 == g.score1 + (if s1.block1 + s1.block2 > s2.block1 + s2.block2 then 1 else 0)
    ensures g'.score2 == g.score2 + (if s2.block1 + s2.block2 > s1.block1 + s1.block2 then 1 else 0)
    ensures g'.hidden1 == (g.hidden1 || s1.useHidden) && g'.hidden2 == (g.hidden2 || s2.useHidden)
    ensures g'.(score1 := g.score1, score2 := g.score2, hidden1 := g.hidden1, hidden2 := g.hidden2) == g
  {
    var total1 := s1.block1 + s1.block2;
    var total2 := s2.block1 + s2.block2;
    var score1 := if total1 > total2 then g.score1 + 1 else g.score1;
    var score2 := if total2 > total1 then g.score2 + 1 else g.score2;
    g.(score1 := score1, score2 := score2,
       hidden1 := g.hidden1 || s1.useHidden, hidden2 := g.hidden2 || s2.useHidden)
  }

  /** The exchange step once both received blocks are known: each team loses
      its submitted pair and gains its received block, the round advances,
      pending moves clear and the turn flips. */
  function Exchanged(g: Game, s1: Submit, s2: Submit, received1: int, received2: int): (g': Game)
    ensures g'.blocks1 == RemoveBlocks(g.blocks1, s1.block1, s1.block2) + [received1]
    ensures g'.blocks2 == RemoveBlocks(g.blocks2, s2.block1, s2.block2) + [received2]
    ensures g'.round == g.round + 1 && g'.submit1 == None && g'.submit2 == None
    ensures g'.currentTeam == OtherTeam(g.currentTeam)
    ensures g'.(blocks1 := g.blocks1, blocks2 := g.blocks2, round := g.round, submit1 := g.submit1,
                submit2 := g.submit2, currentTeam := g.currentTeam) == g
  {
    g.(blocks1 := RemoveBlocks(g.blocks1, s1.block1, s1.block2) + [received1],
       blocks2 := RemoveBlocks(g.blocks2, s2.block1, s2.block2) + [received2],
       round := g.round + 1,
       submit1 := None,
       submit2 := None,
       currentTeam := OtherTeam(g.currentTeam))
  }

  /** The team with the strictly larger total; none on a tie. */
  function Winner(total1: int, total2: int): (w: Option<TeamColor>)
    ensures w == Some(Team1) <==> total1 > total2
    ensures w == Some(Team2) <==> total2 > total1
    ensures w == None <==> total1 == total2
  {
    if total1 > total2 then Some(Team1) else if total2 > total1 then Some(Team2) else None
  }

  /** Resolve the round as the server does: with a move missing nothing
      changes; otherwise the point and the hidden flags are written first,
      and only then are the selections checked, so a selection error leaves
      the point and the flags behind. */
  function ProcessRound(g: Game): (r: (Game, Result<RoundResult, NcError>))
    ensures g.submit1.None? || g.submit2.None? ==> r == (g, Failure(AwaitingSubmissions))
    ensures g.submit1.Some? && g.submit2.Some? ==>
      var s1 := g.submit1.value;
      var s2 := g.submit2.value;
      && r.0.score1 == Scored(g, s1, s2).score1
      && r.0.score2 == Scored(g, s1, s2).score2
      && r.0.hidden1 == (g.hidden1 || s1.useHidden)
      && r.0.hidden2 == (g.hidden2 || s2.useHidden)
      && (r.1.Success? <==> Received(s1, s2, Team1).Success? && Received(s2, s1, Team2).Success?)
      && (r.1.Failure? ==> r.0 == Scored(g, s1, s2))
      && (r.1.Success? ==>
            && r.0 == Exchanged(Scored(g, s1, s2), s1, s2, r.1.value.received1, r.1.value.received2)
            && Received(s1, s2, Team1) == Success(r.1.value.received1)
            && Received(s2, s1, Team2) == Success(r.1.value.received2)
            && r.1.value.round == g.round
            && r.1.value.winner == Winner(s1.block1 + s1.block2, s2.block1 + s2.block2)
            && r.1.value.nextTeam == OtherTeam(g.currentTeam))
  {
    if g.submit1.None? || g.submit2.None? then (g, Failure(AwaitingSubmissions))
    else
      var s1 := g.submit1.value;
      var s2 := g.submit2.value;
      var total1 := s1.block1 + s1.block2;
      var total2 := s2.block1 + s2.block2;
      var scored := Scored(g, s1, s2);
      match Received(s1, s2, Team1)
      case Failure(e) => (scored, Failure(e))
      case Success(received1) =>
        match Received(s2, s1, Team2)
        case Failure(e) => (scored, Failure(e))
        case Success(received2) =>
          var g' := Exchanged(scored, s1, s2, received1, received2);
          (g', Success(RoundResult(g.round, total1, total2, Winner(total1, total2),
                                   g'.score1, g'.score2, received1, received2, g'.currentTeam)))
  }

  datatype Ending = Playing | ScoreLimit | RoundsComplete

  /** Seven points for either team end the match ("score_limit"); otherwise
      it ends once the round counter passes twelve ("rounds_complete"). */
  function IsGameOver(g: Game): (e: Ending)
    ensures e == ScoreLimit <==> g.score1 >= ScoreToWin || g.score2 >= ScoreToWin
    ensures e == RoundsComplete <==> g.score1 < ScoreToWin && g.score2 < ScoreToWin && g.round > LastRound
  {
    if g.score1 >= ScoreToWin then ScoreLimit
    else if g.score2 >= ScoreToWin then ScoreLimit
    else if g.round > LastRound then RoundsComplete
    else Playing
  }

  /** The team with more points; None on equal points. */
  function GetWinner(g: Game): (w: Option<TeamColor>)
    ensures w == Some(Team1) <==> g.score1 > g.score2
    ensures w == Some(Team2) <==> g.score2 > g.score1
    ensures w == None <==> g.score1 == g.score2
  {
    if g.score1 > g.score2 then Some(Team1)
    else if g.score2 > g.score1 then Some(Team2)
    else None
  }

  /** A round that ends a match at the score limit always names a winner:
      a resolved round gives at most one point, so the team that reaches
      seven points leads the other, which had fewer than seven. */
  lemma ScoreLimitNamesWinner(g: Game)
    requires IsGameOver(g) == Playing
    requires ProcessRound(g).1.Success?
    requires IsGameOver(ProcessRound(g).0) == ScoreLimit
    ensures GetWinner(ProcessRound(g).0).Some?
    ensures GetWinner(ProcessRound(g).0) == Some(Team1) <==> ProcessRound(g).0.score1 >= ScoreToWin
  {
    var s1 := g.submit1.value;
    var s2 := g.submit2.value;
    PointToLargerTotal(g);
  }

  /** Once the rounds run out the match can end level, with no winner. */
  lemma RoundsCompleteMayTie()
    ensures var g := NewGame(0).(round := LastRound + 1, score1 := 3, score2 := 3);
      IsGameOver(g) == RoundsComplete && GetWinner(g) == None
  {
  }

  // ---------------------------------------------------------------------
  // Properties of a resolved round.

  /** Exactly the team with the strictly larger pair total gains one point;
      equal totals give none. */
  lemma PointToLargerTotal(g: Game)
    requires g.submit1.Some? && g.submit2.Some?
    ensures var r := ProcessRound(g).0;
      var t1 := g.submit1.value.block1 + g.submit1.value.block2;
      var t2 := g.submit2.value.block1 + g.submit2.value.block2;
      && (t1 > t2 ==> r.score1 == g.score1 + 1 && r.score2 == g.score2)
      && (t2 > t1 ==> r.score2 == g.score2 + 1 && r.score1 == g.score1)
      && (t1 == t2 ==> r.score1 == g.score1 && r.score2 == g.score2)
  {
  }

  /** A spent hidden chance stays spent, whatever a submission or a round
      does. */
  lemma HiddenNeverReset(g: Game, team: TeamColor, block1: int, block2: int, useHidden: bool, choice: int)
    ensures var r := ProcessRound(g).0; (g.hidden1 ==> r.hidden1) && (g.hidden2 ==> r.hidden2)
    ensures var r := SubmitBlocks(g, team, block1, block2, useHidden, choice);
      r.Success? ==> r.value.hidden1 == g.hidden1 && r.value.hidden2 == g.hidden2
  {
  }

  /** Once a team's hidden chance is spent, asking for it again is refused. */
  lemma HiddenOnlyOnce(g: Game, team: TeamColor, block1: int, block2: int, choice: int)
    requires g.HiddenUsed(team)
    ensures SubmitBlocks(g, team, block1, block2, true, choice).Failure?
  {
  }

  /** The blocks of a pair are owned, counting copies. */
  predicate Owns(blocks: seq<int>, s: Submit) {
    multiset{s.block1, s.block2} <= multiset(blocks)
  }

  /** When each team owns the pair it submitted, a resolved round takes the
      pair out of its inventory and puts the received block in: the bag
      shrinks by exactly one. */
  lemma ExchangeShrinksByOne(g: Game)
    requires g.submit1.Some? && g.submit2.Some?
    requires Owns(g.blocks1, g.submit1.value) && Owns(g.blocks2, g.submit2.value)
    requires ProcessRound(g).1.Success?
    ensures var r := ProcessRound(g);
      && multiset(r.0.blocks1) == multiset(g.blocks1) - multiset{g.submit1.value.block1, g.submit1.value.block2}
                                  + multiset{r.1.value.received1}
      && multiset(r.0.blocks2) == multiset(g.blocks2) - multiset{g.submit2.value.block1, g.submit2.value.block2}
                                  + multiset{r.1.value.received2}
      && |r.0.blocks1| == |g.blocks1| - 1
      && |r.0.blocks2| == |g.blocks2| - 1
  {
    var s1 := g.submit1.value;
    var s2 := g.submit2.value;
    RemoveBlocksOwnedPair(g.blocks1, s1.block1, s1.block2);
    RemoveBlocksOwnedPair(g.blocks2, s2.block1, s2.block2);
  }

  // ---------------------------------------------------------------------
  // Points never outnumber rounds (each round scores at most once).

  predicate ScoresBounded(g: Game) {
    0 <= g.score1 && 0 <= g.score2 && g.score1 + g.score2 <= g.round - 1
  }

  /** Submitting never touches the points. */
  lemma SubmitKeepsScoresBounded(g: Game, team: TeamColor, block1: int, block2: int, useHidden: bool, choice: int)
    requires ScoresBounded(g)
    requires SubmitBlocks(g, team, block1, block2, useHidden, choice).Success?
    ensures ScoresBounded(SubmitBlocks(g, team, block1, block2, useHidden, choice).value)
  {
  }

  /** A failing resolution still hands out the point: with both hidden
      chances spent and Team2's choice missing, the call reports an error
      but Team1 has scored and the round has not advanced. */
  lemma ProcessRoundErrorKeepsPoint()
    ensures var g := Game(0, [], 1, 0, 0, [6, 7], [1, 2], Some(Submit(7, 6, true, 1)),
                          Some(Submit(1, 2, true, 0)), false, false, Team1, true);
      var r := ProcessRound(g);
      && ScoresBounded(g)
      && r.1 == Failure(MustSelect(Team2))
      && r.0.score1 == 1 && r.0.round == 1
      && !ScoresBounded(r.0)
  {
  }

  /** The corrected resolution: the selections are
      checked before anything is written, so an error leaves the match as
      it was; a success is the server's success. */
  function ProcessRoundChecked(g: Game): (r: (Game, Result<RoundResult, NcError>))
    ensures r.1.Failure? ==> r.0 == g
    ensures r.1.Success? ==> r == ProcessRound(g)
    ensures r.1.Success? <==> ProcessRound(g).1.Success?
  {
    if g.submit1.None? || g.submit2.None? then (g, Failure(AwaitingSubmissions))
    else
      var s1 := g.submit1.value;
      var s2 := g.submit2.value;
      match Received(s1, s2, Team1)
      case Failure(e) => (g, Failure(e))
      case Success(_) =>
        match Received(s2, s1, Team2)
        case Failure(e) => (g, Failure(e))
        case Success(_) => ProcessRound(g)
  }

  /** With the checked resolution a round is scored at most once, so points
      never outnumber the rounds played. */
  lemma CheckedKeepsScoresBounded(g: Game)
    requires ScoresBounded(g)
    ensures ScoresBounded(ProcessRoundChecked(g).0)
  {
  }

  // ---------------------------------------------------------------------
  // Ownership is checked by membership, not by count.

  /** The membership check lets a team submit two copies of a value it owns
      once; the round then removes only one copy, so its inventory keeps its
      size instead of shrinking by one. */
  lemma SingleCopySubmittedTwice()
    ensures var g := Game(0, [], 1, 0, 0, [4, 5], [1, 2], None, Some(Submit(1, 2, false, 0)), false, false, Team1, true);
      var s := SubmitBlocks(g, Team1, 4, 4, false, 0);
      && s.Success?
      && !Owns(g.blocks1, Submit(4, 4, false, 0))
      && ProcessRound(s.value).1.Success?
      && |ProcessRound(s.value).0.blocks1| == |g.blocks1|
  {
    var g := Game(0, [], 1, 0, 0, [4, 5], [1, 2], None, Some(Submit(1, 2, false, 0)), false, false, Team1, true);
    assert multiset(g.blocks1)[4] == 1;
    var s := SubmitBlocks(g, Team1, 4, 4, false, 0).value;
    assert RemoveBlocks([4, 5], 4, 4) == [5];
  }

  /** The corrected submission: the pair must be owned counting
      copies. Otherwise it is the server's submission. */
  function SubmitBlocksOwned(g: Game, team: TeamColor, block1: int, block2: int, useHidden: bool, choice: int)
    : (r: Result<Game, NcError>)
    ensures r.Success? ==> Owns(g.Inventory(team), Submit(block1, block2, useHidden, choice))
    ensures r.Success? ==> r == SubmitBlocks(g, team, block1, block2, useHidden, choice)
    ensures r.Failure? <==>
      !Owns(g.Inventory(team), Submit(block1, block2, useHidden, choice)) ||
      SubmitBlocks(g, team, block1, block2, useHidden, choice).Failure?
  {
    if !(multiset{block1, block2} <= multiset(g.Inventory(team))) then Failure(InvalidBlocks)
    else SubmitBlocks(g, team, block1, block2, useHidden, choice)
  }

  /** Pending moves made through the owned-pair check are owned. */
  predicate PendingOwned(g: Game) {
    && (g.submit1.Some? ==> Owns(g.blocks1, g.submit1.value))
    && (g.submit2.Some? ==> Owns(g.blocks2, g.submit2.value))
  }

  /** The owned-pair check keeps every pending move owned, so every round
      resolved afterwards shrinks each inventory by exactly one. */
  lemma OwnedSubmitKeepsPendingOwned(g: Game, team: TeamColor, block1: int, block2: int, useHidden: bool, choice: int)
    requires PendingOwned(g)
    requires SubmitBlocksOwned(g, team, block1, block2, useHidden, choice).Success?
    ensures PendingOwned(SubmitBlocksOwned(g, team, block1, block2, useHidden, choice).value)
    ensures var g' := SubmitBlocksOwned(g, team, block1, block2, useHidden, choice).value;
      g'.submit1.Some? && g'.submit2.Some? && ProcessRound(g').1.Success? ==>
        |ProcessRound(g').0.blocks1| == |g'.blocks1| - 1 && |ProcessRound(g').0.blocks2| == |g'.blocks2| - 1
  {
    var g' := SubmitBlocksOwned(g, team, block1, block2, useHidden, choice).value;
    if g'.submit1.Some? && g'.submit2.Some? && ProcessRound(g').1.Success? {
      ExchangeShrinksByOne(g');
    }
  }

  // ---------------------------------------------------------------------
  // Late selection

  /** Overwrite the choice of `team`'s pending move, without checking it;
      a team with no pending move changes nothing. */
  function SelectBlock(g: Game, team: TeamColor, choice: int): (g': Game)
    ensures g.Pending(team).None? ==> g' == g
    ensures g.Pending(team).Some? ==>
      && g'.Pending(team) == Some(g.Pending(team).value.(choice := choice))
      && g'.Pending(OtherTeam(team)) == g.Pending(OtherTeam(team))
    ensures g'.(submit1 := g.submit1, submit2 := g.submit2) == g
  {
    if team == Team1 && g.submit1.Some? then g.(submit1 := Some(g.submit1.value.(choice := choice)))
    else if team == Team2 && g.submit2.Some? then g.(submit2 := Some(g.submit2.value.(choice := choice)))
    else g
  }

  // ---------------------------------------------------------------------
  // Team labels outside team1/team2

  /** A label other than team1 and team2 owns no blocks, so its holder can
      never submit. */
  lemma UnlistedLabelNeverSubmits(g: Game, team: TeamColor, block1: int, block2: int, useHidden: bool, choice: int)
    requires team != Team1 && team != Team2
    ensures SubmitBlocks(g, team, block1, block2, useHidden, choice) == Failure(InvalidBlocks)
  {
  }

  /** Any free non-empty label is honoured: a first player asking for
      "purple" is seated under it, the second player takes team1, and the
      match counts as ready with team2 empty. Neither seat can ever submit
      for team2, and the purple seat can submit nothing, so no round of the
      started match can resolve. */
  lemma UnlistedLabelStartsMatch()
    ensures var g0 := AddPlayer(NewGame(0), 1, "purple", true);
      var g1 := AddPlayer(g0.0, 2, Team1, true);
      && g0.1 == "purple" && g1.1 == Team1
      && IsReady(g1.0)
      && Occupant(g1.0.players, Team2).None?
  {
    var g0 := AddPlayer(NewGame(0), 1, "purple", true);
    assert g0.0.players == [Seat("purple", 1)];
    assert Occupant(g0.0.players, Team1).None?;
    var g1 := AddPlayer(g0.0, 2, Team1, true);
    assert g1.0.players == [Seat("purple", 1), Seat(Team1, 2)];
  }

  /** Every seat holds team1 or team2. */
  predicate ListedLabels(ps: seq<Seat>) {
    forall i :: 0 <= i < |ps| ==> ps[i].team == Team1 || ps[i].team == Team2
  }

  /** The corrected seating: a preference is honoured only when it
      names team1 or team2; any other label is treated as no preference. */
  function AddPlayerListed(g: Game, client: ClientId, preferred: TeamColor, coinTeam1: bool): (r: (Game, TeamColor))
    ensures r.1 == Team1 || r.1 == Team2
    ensures ListedLabels(g.players) ==> ListedLabels(r.0.players)
    ensures preferred == Team1 || preferred == Team2 ==> r == AddPlayer(g, client, preferred, coinTeam1)
    ensures preferred != Team1 && preferred != Team2 ==> r == AddPlayer(g, client, NoTeam, coinTeam1)
  {
    AddPlayer(g, client, if preferred == Team1 || preferred == Team2 then preferred else NoTeam, coinTeam1)
  }

  /** With listed labels only, two distinct seats are exactly team1 and
      team2, so a ready match has a player for each inventory. */
  lemma ListedReadyHasBothTeams(ps: seq<Seat>)
    requires ListedLabels(ps) && DistinctTeams(ps) && |ps| == 2
    ensures Occupant(ps, Team1).Some? && Occupant(ps, Team2).Some?
  {
    assert ps[0].team != ps[1].team;
    if ps[0].team == Team1 {
      assert ps[1].team == Team2;
    } else {
      assert ps[1].team == Team1;
    }
  }
}
