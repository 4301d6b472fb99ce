# Nine Dragons game server — a Dafny model

This project models the two game engines of the Nine Dragons back end. It also models
the two hubs that run them, one event at a time.

- **Nine Dragons tile duel** (`server/game.go`, `server/hub.go`). Blue and Red each
  play every tile 1..9 at most once. Each round the larger tile wins, except that a 1
  beats a 9. The match ends at five round wins or after nine rounds.
- **Number Change** (`server/nc_game.go`, `server/nc_hub.go`). Each team starts with two
  blocks of each value 1..7 and submits a pair of blocks every round. The larger pair
  total scores a point, and each team receives one block of the opponent's pair. That
  block is the larger one, unless the opponent spent its one-time *hidden chance*; then
  the receiving team picks block 1 or 2. The match ends at seven points or after
  twelve rounds.

Each hub keeps a registry of live clients, matches and one waiting match. A join claims
the waiting match or creates a fresh one. A disconnect tears the match down for
everyone. Outbound messages go through a bounded queue per client: a client whose queue
is full is evicted, meaning its queue is closed and it leaves the live set.

## Layout

| file | module | models |
|---|---|---|
| `common.dfy` | `Common` | ids, `Option`, `Result`, message envelopes, the queue-overflow schedule, the emit-or-evict delivery rule |
| `tile_game.dfy` | `TileGame` | the tile match: seating, tile play, round resolution, verdict |
| `tile_hub.dfy` | `TileHub` | the tile hub's event loop, join, tile play, disconnect and broadcast |
| `blocks.dfy` | `Blocks` | block-list helpers of Number Change: membership, pair removal, max |
| `nc_game.dfy` | `NcGame` | the Number Change match: seating, submission, round resolution, verdict |
| `nc_hub.dfy` | `NcHub` | the Number Change hub's event loop, join, submit, late selection, disconnect |

Conventions of the model:

- The Go heap is explicit. A hub holds:
  - `games`, every match object ever created (it never shrinks);
  - `registry`, the ids listed in the server's match map;
  - `waiting`, the waiting pointer;
  - `nextId`, which stands for the UUID source.
  A pointer that outlives its registry entry therefore still names its object, as in
  the server.
- Each handler returns an `Effect`: the next hub, the messages queued in order, and a
  `crashed` flag. The flag records a write to an already closed queue, which panics in
  Go and stops the process.
- When queues fill up is an input, a `Room` per event. A client listed with `n` finds
  its queue full for every write made once the event has queued `n` messages; an
  unlisted client never does. The first overflow evicts the client, so this covers
  every choice of which writes find the queue full. A client is *reachable* in an event
  when it is live and unlisted; the contracts promise messages to reachable clients.
- Each hub carries a `checked` flag. The server as written has it off. With it on, a
  send first checks that the recipient is still live and skips it otherwise.
- Random draws are inputs too: the label for a client arriving at a full Number Change
  match, and the first team. `RunAll` runs the loop over a sequence of inputs and stops
  at the first fault.

The model is total: error paths are `Result`/`Option` values and no handler has a
precondition. On top of it sit two registry invariants (`TileHub.Wf`, `NcHub.Wf`),
proved to hold for every run of the event loop.

Behaviour of the code worth knowing:

- A client evicted for a full queue is not torn down as a disconnect would be
  (server/hub.go:320-333). The code only closes its queue and deletes it from the client
  set. The unregistration that follows finds it gone and does nothing
  (server/hub.go:54-60), so its match is never torn down.
- A Number Change team label is not checked to be "team1" or "team2"
  (server/nc_game.go:29-49). Any free non-empty label is honoured.
- Number Change round resolution writes the point and the hidden flags
  (server/nc_game.go:115-135) before it checks the selections
  (server/nc_game.go:143-170). A selection error therefore leaves them behind.
- The Number Change hub defers resolution whenever either team spent its hidden chance
  (server/nc_hub.go:240-252), not only when the submitter's opponent did. A late
  selection is stored without validation (server/nc_hub.go:305-307).
- Block ownership is checked by membership only, not by count (server/nc_game.go:268-275).
- Tile play does not check that the match is ready (server/game.go:44-78). Seating the
  second player empties both used-tile lists (server/game.go:34-37).

## Model

| member | source | states |
|---|---|---|
| Common.Deliver | server/hub.go:320-333 | a write faults exactly when the recipient's queue is closed; a full queue evicts the recipient and drops the message; otherwise exactly one message is queued and the live set is unchanged |
| Common.DeliverChecked | server/nc_hub.go:357-370 | the corrected send never faults: it skips a recipient that is no longer live and otherwise behaves as the unchecked send |
| TileGame.Opponent | server/game.go:63-66 | the other colour differs from the given one |
| TileGame.NewGame | server/game.go:10-22 | a fresh match is at round 1 with no wins, no players, no used or played tiles, not ready, Blue to move |
| TileGame.BothSeated | server/game.go:33-35 | a colour-keyed map has two entries exactly when both colours are keys, so the size test means both seats are taken |
| TileGame.AddPlayer | server/game.go:25-41 | seating fails exactly when the colour is taken; otherwise only that seat is added; seating the second colour makes the match ready and empties both used lists; nothing else changes |
| TileGame.PlayTile | server/game.go:44-78 | each refusal (out of range, reused, already played, not your turn) is raised in the source's order, and a tile is accepted exactly when it is in 1..9, unused by that colour, the colour's first this round, and the colour moves first or the opponent has played; success records it in the round and appends it to that colour's used list only |
| TileGame.DetermineWinner | server/game.go:81-103 | equal tiles draw; Blue wins exactly when its tile beats Red's under the 1-beats-9 rule, and symmetrically for Red |
| TileGame.DetermineWinnerSwap | server/game.go:81-103 | exchanging the two tiles exchanges the winner, and distinct tiles never give the same answer both ways |
| TileGame.BeatsAsymmetric | server/game.go:81-103 | the beats relation is asymmetric and total on distinct tiles |
| TileGame.ProcessRound | server/game.go:106-132 | a round resolves exactly when both colours have played; then the winner is credited one win, the round advances, the tiles clear, a non-draw winner moves first, and nothing else changes |
| TileGame.IsGameOver | server/game.go:135-156 | Blue takes the match exactly at five wins, or after round nine with more wins while Red has fewer than five; likewise Red; a draw needs equal wins after round nine |
| TileGame.GetNextPlayer | server/game.go:159-168 | the first mover is named until it has played, then its opponent |
| TileGame.NextPlayerMayPlay | server/game.go:63-71 | in an open round, the colour named as next may play any unused tile in range |
| TileGame.OverAfterLastRound | server/game.go:145-155 | the match is always decided once the round counter passes nine |
| TileGame.VerdictJustified | server/game.go:135-156 | a drawn verdict had equal wins after round nine, and a decided one names a colour with five wins or the lead after round nine |
| TileGame.NewGameUsedValid | server/game.go:10-22 | a fresh match has valid used lists |
| TileGame.AddPlayerKeepsUsedValid | server/game.go:25-41 | seating keeps each used list duplicate-free and within 1..9 |
| TileGame.PlayTileKeepsUsedValid | server/game.go:44-78 | an accepted tile keeps each used list duplicate-free and within 1..9 |
| TileGame.ProcessRoundKeepsUsedValid | server/game.go:106-132 | resolving a round keeps the used lists valid |
| TileGame.DistinctWithin | server/game.go:51-55 | a duplicate-free list drawn from a set is no longer than the set |
| TileGame.TilesValidAtMostNine | server/game.go:46-55 | a valid used list holds at most nine tiles, so a colour plays at most nine times |
| TileGame.ProcessRoundKeepsWinsBounded | server/game.go:106-132 | wins never outnumber the rounds resolved |
| TileGame.PlayTileReadyKeepsRecorded | server/game.go:44-78 | in a ready match an accepted tile keeps every tile down this round in its colour's used list |
| TileGame.AddPlayerKeepsRecorded | server/game.go:25-41 | seating into a match that is not ready keeps the round tiles recorded |
| TileGame.ProcessRoundKeepsRecorded | server/game.go:106-132 | resolving a round keeps the round tiles recorded |
| TileGame.PlayTileKeepsTilesLast | server/game.go:44-78 | an accepted tile becomes the last used entry of its colour and keeps every round tile the last entry of its colour's used list |
| TileGame.PlayBeforeReadyReusesTile | server/game.go:44-78 | a tile played while waiting survives the second player's arrival unrecorded, and after the round resolves the same colour is allowed the same tile again |
| TileGame.PlayTileWhenReady | server/game.go:44-78 | the corrected tile play refuses a match that is not ready, equals the source's play otherwise, and keeps the round tiles recorded |
| TileGame.CheckedPlayKeepsRecorded | server/game.go:10-132 | with readiness checked, creation, seating, tile play and round resolution all keep every tile down this round recorded as used |
| TileHub.Lookup | server/hub.go:221-230 | a client's game is found exactly when its id is registered, and it is the stored object |
| TileHub.Send | server/hub.go:320-333 | a send changes only the live set and queues at most the one message; it faults exactly when the recipient was not live and the hub does not check; a live recipient whose queue is full is evicted and gets nothing; any other live recipient gets the message and nothing else changes |
| TileHub.SendDelivers | server/hub.go:320-333 | the hub's send applies the shared delivery rule, checked or unchecked as the hub is |
| TileHub.Tell | server/hub.go:335-341 | one colour's player, when seated, is the only possible recipient, and gets the message when reachable |
| TileHub.Broadcast | server/hub.go:335-341 | a broadcast keeps the earlier messages, queues only the given message and only to seated players, gives it to every reachable seated player, changes only the live set, and evicts no reachable client; with the checked send it never faults |
| TileHub.NotifyLeft | server/hub.go:73-80 | a seat not held by the leaver is the only possible recipient of an opponent-left error, and gets it when reachable; the leaver is never told |
| TileHub.LeaverSeats | server/hub.go:73-83 | after the loop exactly the leaver's own seats remain |
| TileHub.NotifyOthers | server/hub.go:72-84 | every reachable seat not held by the leaver is told that the opponent left, earlier messages are kept, and only opponent-left errors to others are queued; a live client leaves the live set only when its own queue fills |
| TileHub.HandleDisconnect | server/hub.go:68-94 | a leaver without a registered game changes nothing; otherwise the game leaves the registry and the waiting slot, only the leaver's seats remain, every other reachable seated player is told, and every message is an opponent-left error not sent to the leaver; with the checked send it never faults; a live client leaves the live set only when its own queue fills |
| TileHub.ChooseColor | server/hub.go:131-157 | the first player gets its preference or Blue; later players get a free colour, and none only when both are taken |
| TileHub.ClaimSlot | server/hub.go:118-127 | with no waiting game a fresh one is created, registered and parked; otherwise the slot is cleared; either way the client points at the claimed game |
| TileHub.Enter | server/hub.go:118-170 | a join that seats the client claims the slot, stores the seated game under the claimed id, and records the client's name, game id and colour; the live set is untouched |
| TileHub.Greet | server/hub.go:196-206 | one colour's player, when seated and reachable, is told the first mover, its own colour and both names |
| TileHub.AnnounceStart | server/hub.go:183-207 | earlier messages are kept; only start notices naming the first mover and both players go out, only to seated players; every reachable seated player gets the notice with its own colour |
| TileHub.Acknowledge | server/hub.go:173-180 | a reachable joiner gets exactly the joined notice with its colour and game id, and nothing else changes |
| TileHub.Waiting | server/hub.go:173-215 | a joiner left waiting is the only recipient, and when reachable gets the joined notice followed by the waiting notice; a live client leaves the live set only when its own queue fills |
| TileHub.Starting | server/hub.go:173-207 | a joiner that fills the match gets the joined notice first when reachable; every other message is a start notice to a seated player; every reachable seated player gets its own; a live client leaves the live set only when its own queue fills |
| TileHub.Welcome | server/hub.go:173-216 | the joined notice comes first; a match still waiting tells only the joiner to wait; a match that is ready is announced to every reachable seated player; a live client leaves the live set only when its own queue fills |
| TileHub.HandleJoin | server/hub.go:105-218 | the join claims the slot and names the client's game even when it is then refused; a refusal changes no game and answers a reachable client with exactly one game-full error; a seat stores only the client's record and the seated game; the joined notice comes first, a waiting joiner alone is told to wait, and a match that fills is announced with both names to every reachable seat; with the checked send it never faults; a live client leaves the live set only when its own queue fills |
| TileHub.ReportRound | server/hub.go:296-316 | only the round report and, when the round decided the match, the closing notice go out, to seated players; every reachable seat gets each of them; the game leaves the registry exactly when the match is decided |
| TileHub.OverNotice | server/hub.go:302-316 | the closing notice carries the final win counts, names a winner only when five wins or the lead after round nine back it, and a decided match with no winner was level after round nine |
| TileHub.PlayedAnnouncesTile | server/hub.go:249-263 | after an accepted tile the tile notice names the colour, the tile and the round it was played in, flags that colour as having played, shows both flags exactly when the round is complete, and otherwise hands the move to the opponent |
| TileHub.RoundNoticeReportsRound | server/hub.go:268-294 | when each round tile is the last of its colour's used list, the round report shows the completed round, the two tiles played in it, the winner of those tiles, the counts after scoring and the colour moving next |
| TileHub.AfterTile | server/hub.go:250-316 | after an accepted tile the game is stored resolved, and it leaves the registry exactly when the round completed and the match is over; every message goes to a seated player and is the tile notice, or the round report after a completed round, or the closing notice once the match is decided; every reachable seat gets each of those that apply; a live client leaves the live set only when its own queue fills |
| TileHub.HandlePlayTile | server/hub.go:220-318 | a missing game (or a client without a colour) is answered to the sender alone with a game-not-found error, and a refused tile with exactly the error the match raised; either way nothing but the sender's own liveness changes, and a reachable sender always gets the error; an accepted tile is stored with its round resolved and reported as `AfterTile` states, and a finished match leaves the registry; a live client leaves the live set only when its own queue fills |
| TileHub.Run | server/hub.go:47-66 | a registration makes the client live and known, keeps an existing client's record, gives a new one the empty record, changes nothing else and queues nothing; an unregistration tears down only a client that is still live; a request from a known client goes to its handler, one from an unknown client changes nothing; with the checked send no turn faults; a live client other than one unregistering leaves the live set only when its own queue fills |
| TileHub.HandleGameMessage | server/hub.go:96-103 | a join request goes to the join handler, a tile to the tile handler, and any other kind changes nothing and sends nothing; a live client leaves the live set only when its own queue fills |
| TileHub.RunAll | server/hub.go:47-66 | an empty run changes nothing; the first turn's messages come first, in order; a turn that faults ends the run with nothing after it |
| TileHub.CheckedRunAllNeverCrashes | server/hub.go:320-333 | with the checked send no run of the loop faults, whatever queues overflow and whenever |
| TileHub.EmptyHubWf | server/hub.go:36-45 | the empty hub satisfies the registry invariant |
| TileHub.JoinSeats | server/hub.go:131-169 | under the invariant a join always seats the client: the first takes its preference or Blue and waits, the second takes the free colour and the match becomes ready |
| TileHub.SeatedFreshWf | server/hub.go:118-180 | seating the first player of a fresh game keeps the invariant |
| TileHub.SeatedWaitingWf | server/hub.go:118-180 | seating the second player of the waiting game keeps the invariant |
| TileHub.JoinStoresSeat | server/hub.go:105-180 | a join that finds a free colour leaves the registry with the client seated under it, up to evicted clients |
| TileHub.JoinKeepsWf | server/hub.go:105-218 | a join keeps the registry invariant |
| TileHub.PlayKeepsWf | server/hub.go:220-318 | tile play keeps the registry invariant, including valid used lists and bounded wins in every stored game |
| TileHub.AfterTileKeepsWf | server/hub.go:250-316 | storing and reporting an accepted tile keeps the registry invariant when the game keeps its tile and win invariants and, if it is the waiting game, stays open |
| TileHub.DisconnectKeepsWf | server/hub.go:68-94 | a disconnect keeps the registry invariant |
| TileHub.RunKeepsWf | server/hub.go:47-66 | every turn of the event loop keeps the registry invariant |
| TileHub.RunAllKeepsWf | server/hub.go:47-66 | every run of the event loop from a well-formed hub ends well-formed |
| TileHub.LeftGameIsGone | server/hub.go:54-94 | after a player leaves, its game is unregistered, and a later tile from anyone pointing at it is answered with an error to the sender alone, which a reachable sender always gets as a game-not-found error, and changes nothing |
| TileHub.PlayerHasColor | server/hub.go:236-237 | under the invariant a client with a registered game has a colour |
| TileHub.BlueHasPlayedWf | server/hub.go:36-45 | the mid-round hub used in the eviction trace satisfies the invariant |
| TileHub.EvictedPlayerCrashes | server/hub.go:320-333 | when one player's queue is full, its opponent's tile evicts it with the tile notice, and the round result that follows is written to the closed queue and stops the server |
| TileHub.LateOverflowEvictsQuietly | server/hub.go:320-333 | when the player's queue fills only after the tile notice, the round result evicts it and, being its last write of the event, nothing faults |
| TileHub.JoinTwiceTakesBothSeats | server/hub.go:105-218 | a client whose own game is waiting can join again and is seated as both colours of a match that starts |
| Blocks.HasBlock | server/nc_game.go:268-275 | a block is found exactly when at least one copy is in the list |
| Blocks.Max | server/nc_game.go:300-305 | the result is one of the two blocks and at least both |
| Blocks.RemoveFirst | server/nc_game.go:278-297 | removing a value takes out one copy when present and nothing otherwise |
| Blocks.RemoveScan | server/nc_game.go:278-297 | the server's single-pass removal loop equals removing the first block, then the second, each at most once |
| Blocks.RemoveBlocks | server/nc_game.go:278-297 | removing a pair takes out one copy of each block that is present, in order, and nothing else |
| Blocks.RemoveBlocksOwnedPair | server/nc_game.go:278-297 | when the list holds both blocks counting copies, exactly two blocks go |
| NcGame.OtherTeam | server/nc_game.go:209-215 | the turn passes to team1 or team2, and a standard label passes it to the other one |
| NcGame.Occupant | server/nc_game.go:29-49 | a label has an occupant exactly when some seat holds it, and the occupant is seated under it |
| NcGame.NewGame | server/nc_game.go:11-26 | a fresh match is at round 1 with no points, no moves and no hidden chance spent, and each team holds two blocks of each value 1..7 |
| NcGame.StartingBlocksLiteral | server/nc_game.go:19-20 | the starting inventory is the list the server writes out |
| NcGame.StartingBlocksCounts | server/nc_game.go:19-20 | the starting inventory holds exactly two blocks of each value 1..7 and nothing else |
| NcGame.AddPlayer | server/nc_game.go:29-49 | a free non-empty preference is honoured as given; otherwise the first free of team1 and team2; with both taken nobody is seated and the coin picks the label; only the seat list changes and labels stay distinct |
| NcGame.SecondSeatMakesReady | server/nc_game.go:29-54 | seating into a match with at most one seat taken always adds a seat, so the match is ready exactly when it already had one player |
| NcGame.Start | server/nc_game.go:57-67 | a started match is ready, team1 or team2 moves first, and nothing else changes |
| NcGame.SubmitBlocks | server/nc_game.go:70-103 | a pair is refused exactly when a block is missing, a spent hidden chance is requested, or the choice is not 0, 1 or 2, with the source's error for each in the source's order; success stores this team's move only |
| NcGame.Received | server/nc_game.go:140-174 | without a hidden chance the receiving team gets the larger block of the opponent's pair; with one it gets the block its choice 1 or 2 names, and choice 0 or any other value is an error |
| NcGame.Scored | server/nc_game.go:115-135 | the strictly larger total scores one point, spent hidden chances are recorded, and nothing else changes |
| NcGame.Exchanged | server/nc_game.go:176-215 | each team loses its submitted pair and gains its received block, the round advances, moves clear and the turn flips |
| NcGame.ProcessRound | server/nc_game.go:106-237 | with a move missing nothing changes; otherwise the score and hidden flags are written first, the round succeeds exactly when both received blocks are valid, a failure keeps those writes, and a success exchanges the blocks and reports the round, winner, received blocks and next team |
| NcGame.IsGameOver | server/nc_game.go:240-255 | the match ends by score exactly when a team has seven points, and by rounds exactly when neither has and the round counter passed twelve |
| NcGame.GetWinner | server/nc_game.go:258-265 | the team with more points wins, and equal points name none |
| NcGame.Winner | server/nc_game.go:117-127 | the round goes to team1 exactly when its total is larger, to team2 exactly when its total is larger, and to nobody on equal totals |
| NcGame.ScoreLimitNamesWinner | server/nc_game.go:240-265 | a successful round that ends a match at the score limit always names a winner, the team that reached seven points |
| NcGame.RoundsCompleteMayTie | server/nc_game.go:240-265 | a match that runs out of rounds level ends with no winner |
| NcGame.PointToLargerTotal | server/nc_game.go:115-127 | exactly the strictly larger total gains one point, and equal totals give none |
| NcGame.HiddenNeverReset | server/nc_game.go:129-135 | a spent hidden chance stays spent through submission and resolution |
| NcGame.HiddenOnlyOnce | server/nc_game.go:77-83 | asking again for a spent hidden chance is refused |
| NcGame.ExchangeShrinksByOne | server/nc_game.go:176-182 | when each team owns its pair, a resolved round takes the pair out and puts the received block in, so each inventory shrinks by one |
| NcGame.SubmitKeepsScoresBounded | server/nc_game.go:70-103 | submitting never touches the points |
| NcGame.ProcessRoundErrorKeepsPoint | server/nc_game.go:115-162 | with both hidden chances spent and team2's choice missing, resolution reports an error, yet team1 has scored and the round has not advanced |
| NcGame.ProcessRoundChecked | server/nc_game.go:106-237 | the corrected resolution leaves the match unchanged on every error and equals the source's resolution on success |
| NcGame.CheckedKeepsScoresBounded | server/nc_game.go:106-237 | with the corrected resolution, points never outnumber the rounds played |
| NcGame.SingleCopySubmittedTwice | server/nc_game.go:268-275 | a team holding one 4 can submit the pair 4+4, and the round removes a single copy, so the inventory keeps its size |
| NcGame.SubmitBlocksOwned | server/nc_game.go:70-103 | the corrected submission succeeds only for a pair owned counting copies, and then equals the source's submission |
| NcGame.OwnedSubmitKeepsPendingOwned | server/nc_game.go:70-103 | owned submissions keep every pending move owned, so a resolved round shrinks each inventory by exactly one |
| NcGame.SelectBlock | server/nc_hub.go:304-306 | a late selection overwrites only the choice of this team's pending move, unvalidated; with no pending move nothing changes |
| NcGame.UnlistedLabelNeverSubmits | server/nc_game.go:268-275 | a label other than team1 and team2 owns no blocks, so every submission under it is refused |
| NcGame.UnlistedLabelStartsMatch | server/nc_game.go:29-54 | a first player asking for "purple" is seated under it, the second takes team1, and the match counts as ready with nobody in team2 |
| NcGame.AddPlayerListed | server/nc_game.go:29-49 | the corrected seating hands out only team1 or team2, keeps seat lists listed, and treats any other preference as none |
| NcGame.ListedReadyHasBothTeams | server/nc_game.go:52-54 | with listed, distinct labels a ready match has a player for each team |
| NcHub.Lookup | server/nc_hub.go:191-200 | a client's match is found exactly when its id is registered, and it is the stored object |
| NcHub.Send | server/nc_hub.go:357-370 | a send changes only the live set and queues at most the one message; it faults exactly when the recipient was not live and the hub does not check; a live recipient whose queue is full is evicted and gets nothing; any other live recipient gets the message and nothing else changes |
| NcHub.SendDelivers | server/nc_hub.go:357-370 | the hub's send applies the shared delivery rule, checked or unchecked as the hub is |
| NcHub.Broadcast | server/nc_hub.go:372-378 | a broadcast keeps the earlier messages, queues only the given message and only to seated clients, gives it to every reachable seat, changes only the live set, and evicts no reachable client; with the checked send it never faults |
| NcHub.Kept | server/nc_hub.go:70-96 | after teardown exactly the leaver's own seats remain |
| NcHub.NotifyOthers | server/nc_hub.go:70-96 | every other reachable seat is told the opponent left, and nothing else is queued |
| NcHub.HandleDisconnect | server/nc_hub.go:70-96 | a leaver without a registered match changes nothing; otherwise the match leaves the registry and the waiting slot, only the leaver's seats remain, every other reachable seat is told, and only opponent-left errors are queued; with the checked send it never faults; a live client leaves the live set only when its own queue fills |
| NcHub.ClaimSlot | server/nc_hub.go:122-132 | with no waiting match a fresh one is created, registered and parked; otherwise the slot is cleared; either way the client points at the claimed match |
| NcHub.Enter | server/nc_hub.go:109-177 | a join claims the slot, records the client's name, match id and label, stores the match seated, and starts it exactly when it now has two seats and was not started; the live set is untouched |
| NcHub.AnnounceStart | server/nc_hub.go:152-177 | earlier messages are kept; only start notices naming the first team and both names go out, only to seated clients; every reachable seat gets the notice with its own label |
| NcHub.Acknowledge | server/nc_hub.go:142-149 | a reachable joiner gets exactly the joined notice with its label and match id, and nothing else changes |
| NcHub.Waiting | server/nc_hub.go:142-187 | a joiner left waiting is the only recipient, and when reachable gets the joined notice followed by the waiting notice; a live client leaves the live set only when its own queue fills |
| NcHub.Starting | server/nc_hub.go:142-177 | a joiner that starts the match gets the joined notice first when reachable; every other message is a start notice to a seat; every reachable seat gets its own; a live client leaves the live set only when its own queue fills |
| NcHub.Welcome | server/nc_hub.go:142-187 | the joined notice comes first; a match that does not start tells only the joiner to wait; a match that starts is announced to every reachable seat; a live client leaves the live set only when its own queue fills |
| NcHub.HandleJoin | server/nc_hub.go:109-188 | the join claims the slot and stores only the client's new record (label included, even when nobody was seated) and the match; the match is started exactly when it now has two seats and was not started before; the joined notice comes first, a joiner whose match does not start alone is told to wait, and a match that starts is announced with both names to every reachable seat; with the checked send it never faults; a live client leaves the live set only when its own queue fills |
| NcHub.Report | server/nc_hub.go:261-284 | only the round report and, when the match is over, the closing notice with winner, points and reason go out, to seats; every reachable seat gets each of them; the match leaves the registry exactly when it is over; a live client leaves the live set only when its own queue fills |
| NcHub.OverNotice | server/nc_hub.go:267-277 | the closing notice carries the final points and why the match ended, and names the team ahead, none when level |
| NcHub.ScoreLimitNoticeNamesWinner | server/nc_hub.go:267-277 | a round that takes a match in play to the score limit is announced as a score-limit end won by the team that reached seven |
| NcHub.Resolve | server/nc_hub.go:255-285 | resolution always stores the match as the round leaves it, even on error; an error queues nothing and never ends the match; a success is reported as `Report` states, and a match that is over leaves the registry; a live client leaves the live set only when its own queue fills |
| NcHub.NotifyHidden | server/nc_hub.go:220-238 | a spent hidden chance is announced only to the opponent, at most once, and a reachable opponent always gets it with the registry untouched; a live client leaves the live set only when its own queue fills |
| NcHub.AfterSubmit | server/nc_hub.go:240-285 | the round resolves at once only when both moves are in and neither spent a hidden chance; otherwise nothing changes |
| NcHub.Stored | server/nc_hub.go:217-238 | the submission is stored; without a hidden chance nothing is sent; with one only the opponent can be told, and a reachable opponent is told exactly once; a live client leaves the live set only when its own queue fills |
| NcHub.Submitted | server/nc_hub.go:217-285 | a stored submission either resolves the round (a plain one exactly as `Resolve` does) or is stored as is, with only the hidden notice queued; a reachable opponent of a team that spent its hidden chance gets that notice first, and as the only message when the round waits; only the matches, the registry and the live set change; a live client leaves the live set only when its own queue fills |
| NcHub.HandleSubmit | server/nc_hub.go:190-286 | a missing match is answered to the sender alone with a game-not-found error, and a refused pair with exactly the error the match raised; either way nothing but the sender's own liveness changes, and a reachable sender always gets the error; an accepted pair resolves the round at once when both moves are in and no hidden chance was spent, otherwise it is stored and a reachable opponent of a spent hidden chance is told, and nothing else is sent; a live client leaves the live set only when its own queue fills |
| NcHub.HandleSelect | server/nc_hub.go:288-355 | a missing match is answered to the sender alone with a game-not-found error, which a reachable sender always gets; a client with no pending move changes nothing; otherwise the choice is overwritten, and the round is resolved exactly when both moves are in and the opponent spent its hidden chance; a live client leaves the live set only when its own queue fills |
| NcHub.Run | server/nc_hub.go:49-68 | a registration makes the client live and known, keeps an existing client's record, gives a new one the empty record, changes nothing else and queues nothing; an unregistration tears down only a client that is still live; a request from a known client goes to its handler, one from an unknown client changes nothing; with the checked send no turn faults; a live client other than one unregistering leaves the live set only when its own queue fills |
| NcHub.HandleGameMessage | server/nc_hub.go:98-107 | a join, a submission and a selection each go to their handler, and any other kind changes nothing and sends nothing; a live client leaves the live set only when its own queue fills |
| NcHub.RunAll | server/nc_hub.go:49-68 | an empty run changes nothing; the first turn's messages come first, in order; a turn that faults ends the run with nothing after it |
| NcHub.CheckedRunAllNeverCrashes | server/nc_hub.go:357-370 | with the checked send no run of the loop faults, whatever queues overflow and whenever |
| NcHub.EmptyHubWf | server/nc_hub.go:38-47 | the empty hub satisfies the registry invariant |
| NcHub.JoinSeats | server/nc_hub.go:137-150 | under the invariant a join always seats the client: the first takes its preference or team1 and waits; the second takes its preference when it differs from the first label, else a free standard label, and the match becomes ready to start |
| NcHub.JoinedWf | server/nc_hub.go:122-177 | the hub right after a join seats the client satisfies the invariant |
| NcHub.JoinKeepsWf | server/nc_hub.go:109-188 | a join keeps the registry invariant |
| NcHub.StoreKeepsWf | server/nc_hub.go:190-355 | storing a match, shrinking the registry and dropping live clients keep the invariant while the waiting match stays open |
| NcHub.SubmittedKeepsWf | server/nc_hub.go:217-285 | storing a submission keeps the invariant |
| NcHub.SubmitKeepsWf | server/nc_hub.go:190-286 | submitting a pair keeps the registry invariant |
| NcHub.SelectKeepsWf | server/nc_hub.go:288-355 | a late selection keeps the registry invariant |
| NcHub.DisconnectKeepsWf | server/nc_hub.go:70-96 | a disconnect keeps the registry invariant |
| NcHub.RunKeepsWf | server/nc_hub.go:49-68 | every turn of the event loop keeps the registry invariant |
| NcHub.RunAllKeepsWf | server/nc_hub.go:49-68 | every run of the event loop from a well-formed hub ends well-formed |
| NcHub.LeftGameIsGone | server/nc_hub.go:56-96 | after a player leaves, its match is unregistered, and a later submission from anyone pointing at it is answered with an error to the sender alone, which a reachable sender always gets as a game-not-found error, and changes nothing |
| NcHub.SelectStoresResolution | server/nc_hub.go:304-326 | a selection that completes the round stores the match as resolution leaves it |
| NcHub.OpeningWf | server/nc_hub.go:38-47 | the opening hub of the double-scoring trace satisfies the invariant |
| NcHub.Team1SubmitsHidden | server/nc_hub.go:190-252 | team1's hidden submission is stored and the round waits |
| NcHub.Team2SubmitsHidden | server/nc_hub.go:190-252 | team2's hidden submission is stored, and with both in the round still waits for selections |
| NcHub.FirstSelectionFails | server/nc_hub.go:304-326 | team1's selection resolves the round while team2's choice is missing: the resolution fails but its point is stored |
| NcHub.SecondResolution | server/nc_game.go:106-237 | resolving the same round again after team2's selection scores team1 a second time |
| NcHub.SecondSelectionScoresAgain | server/nc_hub.go:304-326 | team2's selection stores that second resolution |
| NcHub.DoubleHiddenScoresTwice | server/nc_hub.go:190-355 | with both hidden chances spent, two late selections resolve one round twice, and team1 ends it with two points, more than the rounds played |
| NcHub.FailedRoundPassesScoreLimit | server/nc_hub.go:304-326 | a failing resolution that hands team1 its seventh point leaves the match over by score yet registered, with nothing sent |
| NcHub.JoinTwiceTakesBothTeams | server/nc_hub.go:109-188 | a client whose own match is waiting can join again, is seated as both team1 and team2, and the match starts |

## Left out

- Transport: the WebSocket read and write pumps, JSON encoding and decoding, and the HTTP upgrade are not modelled. A handler receives a decoded action, and an unknown message type becomes `Other`, which does nothing.
- Concurrency: the hub's channels are one sequence of events handled one at a time, as the single hub goroutine does. Closing a queue is the client leaving the live set, and a later write to it is the `crashed` flag. Later consequences of the panic are not modelled.
- Randomness: the coin for the label of a client arriving at a full Number Change match, and the coin for the first team, are inputs. The UUIDs of matches are a counter.
- Map iteration order: the tile hub visits Blue before Red. The Number Change hub visits seats in insertion order. Go leaves both orders unspecified.
- Logging and `RoundHistory` are not modelled; nothing reads them back.
- The tile hub's `TilePlayed` message carries the next player once. The source sends it twice under two field names.
- Registering a client that is already known keeps its stored record. A game message from a client that was never registered is ignored.
- `GameAt` falls back to a fresh game object when the waiting id names no stored match. This is an artefact of the model's explicit heap; the server's waiting pointer always names an object, and the registry invariants show the case never arises.
- TileHub.HandlePlayTile: a client without a colour is answered with a not-found error. The source would index its maps with the empty colour, and `PlayerHasColor` shows that case is unreachable under the invariant.

## Findings

| source | as written | input that shows it | evidently intended | confidence | as-written member | corrected member |
|---|---|---|---|---|---|---|
| server/game.go:44-78 | tile play never checks that the match is ready; seating the second player empties both used lists but keeps tiles already down | Blue joins and plays 5, Red joins, Red plays 3; in round 2 Blue may play 5 again | tiles are accepted only once the match is ready, so every tile down is recorded as used | not executed | TileGame.PlayBeforeReadyReusesTile | TileGame.PlayTileWhenReady |
| server/hub.go:320-333 | a full queue closes the client's queue and deletes it, but later writes in the same handler still target the closed queue, which panics | Blue's queue is full when Red plays the tile that completes round 1: the tile notice evicts Blue, and the round result is then written to Blue's closed queue | a send skips a client that is no longer live, so one slow client cannot stop the server | not executed | TileHub.EvictedPlayerCrashes | TileHub.CheckedRunAllNeverCrashes |
| server/nc_game.go:106-174 | resolution scores the point and records hidden flags before checking the selections, and returns an error without undoing them | both teams use their hidden chance; team1 selects first, so resolution fails on team2's missing choice after scoring; team2's selection then resolves the round again, and team1 has 2 points after one round | selections are checked before anything is written, so points never outnumber rounds | not executed | NcHub.DoubleHiddenScoresTwice | NcGame.ProcessRoundChecked |
| server/nc_game.go:268-275 | a pair is accepted when each block occurs at least once, so a single copy can be submitted twice | team1 holds [4, 5] and submits 4+4; the round removes one 4 and adds the received block, so the inventory keeps its size | a pair must be owned counting copies, so every round shrinks each inventory by one | not executed | NcGame.SingleCopySubmittedTwice | NcGame.SubmitBlocksOwned |
| server/nc_game.go:29-49 | any free non-empty label is honoured, though only team1 and team2 own blocks | a first player asks for "purple", a second is given team1; the match starts with no team2, and no round can resolve | a preference other than team1 or team2 is treated as none | not executed | NcGame.UnlistedLabelStartsMatch | NcGame.AddPlayerListed |
