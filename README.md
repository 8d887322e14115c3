# Bommen Barend — a verified model of the game core

Bommen Barend is a two-player Bomberman-style game. It runs on a 13 × 11 tile grid with a fixed lattice of
indestructible walls on every (odd, odd) cell. About 40 % of the other cells hold destructible blocks. The two
spawn corners are always kept clear.

- **Players.** Each player steps from tile to tile. A player carries a bomb allowance, a blast range, a
  speed level (1..3) and a number of lives.
- **Bombs.** A bomb ticks down for three seconds. It then explodes in a cross, up to its range. The cross stops
  at the edge of the grid or at a wall. It also stops at the first block it meets, and that block is destroyed.
- **Power-ups.** A destroyed block may leave a power-up behind: a bomb, a range, a speed, or the "unox" combo.
  The combo also shows an advertisement banner.
- **Explosions.** Each explosion tile lasts half a second. A player standing on one loses a life and is then
  immune for three seconds. When the last life is gone, the opponent wins.

The game exists in two copies, and this project models both.

* **The authoritative server room** (`server/rooms/BomberRoom.ts`). This is a Colyseus room whose state is
  updated in place by a 30 Hz tick and by message handlers: input, rematch, emoji and chat. It is modelled
  as the class `Server.BomberRoom` in `bomber_room.dfy`.
  - Every method is proved against a specification function, either from `RoomRules` (one tick of the room)
    or from `Arena` (the rules both copies share).
  - The class invariant `Valid()` is preserved by every handler. It says the players have distinct ids, a
    started game is `Sound` and a lobby is clean, and chat holds at most 20 messages.
* **The peer-to-peer copy** (`utils/gameLogic.ts`). This copy computes the next state from the previous one.
  It is modelled as value methods with loops in `GameLogic` (`game_logic.dfy`). They are proved against the
  specification functions in `PeerRules`.

Module layout:

| file | module | contents |
|---|---|---|
| `types.dfy` | `Types` | the constants and the entities: tiles, players, bombs, explosions, power-ups, inputs, chat messages, game state |
| `arena.dfy` | `Arena` | rules the two copies share, as functions: grid generation, the movement gate, stepping and gliding, bomb placement, power-up collection, the blast rays and detonation |
| `invariants.dfy` | `Invariants` | the state invariant `Sound`, and lemmas that every shared rule preserves it and describe the shape of a blast |
| `room_rules.dfy` | `RoomRules` | one server tick as functions, with its lemmas |
| `peer_rules.dfy` | `PeerRules` | one peer update as functions, with its lemmas; also where the two copies agree and where they differ |
| `bomber_room.dfy` | `Server` | the room class |
| `game_logic.dfy` | `GameLogic` | the peer update as loops |

`Sound(g)` is the invariant both copies keep. It says:

- the wall lattice is intact;
- both spawn cells are free ground;
- every player, bomb, explosion and power-up stands on free ground inside the grid;
- no two bombs and no two power-ups share a cell;
- player ids are distinct;
- each player's pixel target is the centre of its cell, and the player is off-target along at most one axis;
- speed is within 1..3, and bombs out are within the allowance;
- each player's `activeBombs` is exactly the number of live bombs it owns.

Where the two copies differ, the difference is proved as a lemma in `PeerRules`:

* **Damage.** The server damages a player by the tile under its pixel position. The peer copy uses the logical
  cell, which a moving player has already committed to. `MidStepHitDiffers` gives a state where only the peer
  copy hits.
* **Movement.** The server drops the horizontal part of a diagonal input. The peer copy keeps both parts
  (`DiagonalStepDiffers`).
* **Dead players.** The server skips dead players entirely. The peer copy keeps gliding them and counting down
  their immunity (`DeadPlayerKeepsMoving`).
* **The winner.**
  - The server names the last other player still alive.
  - The peer copy names the first other key, alive or not.
  - `DoubleKnockoutWinners` gives a double knock-out where the two copies name different winners. The peer's
    winner there has no lives left.
* **Detonation order.** The peer copy removes a detonated bomb before laying the blast. The server removes it
  after. This ordering turns out not to matter (`PeerFuseStepAgrees`, `PeerFusesAgree`).

## Model

| member | source | states |
|---|---|---|
| Types.SetTile | server/rooms/BomberRoom.ts:440 | the updated grid holds the new tile at the given cell and every other cell is unchanged |
| Types.Remove | utils/gameLogic.ts:175 | `splice(i, 1)`: the result is one shorter, elements before `i` are kept and later ones move down by one |
| Types.IndexOf | server/rooms/BomberRoom.ts:141 | a found index holds the id and no earlier player has it; "none" means no player has the id |
| Arena.PlaceBomb | server/rooms/BomberRoom.ts:331-343 | placing a bomb changes only player `j` (its id and lives kept) and the bomb list; grid, explosions, power-ups, winner and banner are untouched |
| Arena.FirstPowerupAt | utils/gameLogic.ts:141 | `findIndex`: the result is a power-up on the cell with none before it, or "none" when no power-up lies on the cell |
| Arena.LastPowerupAt | server/rooms/BomberRoom.ts:380-382 | the backwards scan: the result is a power-up on the cell with none after it, or "none" when none lies there |
| Arena.PickUp | server/rooms/BomberRoom.ts:383-392 | collecting changes only the collecting player (id, lives and cell kept); grid, explosions, bombs and winner are untouched |
| Arena.PickUpFound | server/rooms/BomberRoom.ts:380-395 | the pick-up step, found or not, changes only the collecting player among the players (its cell kept), and never the grid, explosions, bombs or winner |
| Arena.Ray | server/rooms/BomberRoom.ts:430-444 | a blast ray never touches players, bombs, the winner or the banner |
| Arena.Rays | server/rooms/BomberRoom.ts:428-445 | the four rays together never touch players, bombs, the winner or the banner |
| Arena.ReleaseOwner | server/rooms/BomberRoom.ts:422-423 | returning a bomb to its owner changes players' bomb counts and nothing else about them |
| Arena.Detonate | server/rooms/BomberRoom.ts:421-445 | a detonation leaves the bomb list, the winner and the banner alone and changes only players' bomb counts |
| Arena.FuseStep | server/rooms/BomberRoom.ts:418-448 | one fuse step keeps the bombs before `i` (not yet visited by the backwards loop) and changes only players' bomb counts |
| Arena.Fuses | server/rooms/BomberRoom.ts:416-449 | the whole bomb phase changes only players' bomb counts among the players, and never the winner or banner |
| Invariants.GeneratedGridLayout | server/rooms/BomberRoom.ts:276-304 | the generated grid has a wall exactly on every (odd, odd) cell; a cell is a block exactly when it is not a wall, its roll is below 0.4 and it lies outside both spawn zones |
| Invariants.SpawnCellsOpen | server/rooms/BomberRoom.ts:296-298 | both spawn cells of any generated grid are free ground |
| Invariants.OwnedAppend | server/rooms/BomberRoom.ts:341-342 | appending a bomb raises its owner's bomb count by one and no one else's |
| Invariants.OwnedRemove | server/rooms/BomberRoom.ts:447 | splicing bomb `i` out lowers exactly its owner's count by one |
| Invariants.OwnedReplace | server/rooms/BomberRoom.ts:419 | rewriting a bomb's timer keeps every player's count |
| Invariants.ReplacePlayerSound | server/rooms/BomberRoom.ts:326-414 | replacing a player by one with the same id and bomb count, consistent and on free ground, keeps the state sound |
| Invariants.StepNeverOntoBomb | server/rooms/BomberRoom.ts:306-318 | a real step that the movement gate allows never enters a cell holding a bomb |
| Invariants.StartStepCommits | server/rooms/BomberRoom.ts:354-365 | a standing player with a non-zero step the gate allows commits to the neighbouring cell, targets its centre and keeps its pixel position; otherwise nothing changes |
| Invariants.StartStepSound | server/rooms/BomberRoom.ts:354-365 | an axis-aligned step keeps the player consistent and on free ground |
| Invariants.GlideShape | server/rooms/BomberRoom.ts:367-400 | interpolation keeps the player consistent and never changes its logical cell |
| Invariants.DistIsEuclidean | server/rooms/BomberRoom.ts:370-372 | on a consistent player the modelled distance is non-negative and its square is dx² + dy², so it is the Euclidean distance |
| Invariants.CollectCapsSpeed | server/rooms/BomberRoom.ts:383-389 | collecting never lowers an attribute and never takes speed above 3; the combo adds one bomb and one range even at full speed |
| Invariants.CollectShape | server/rooms/BomberRoom.ts:383-391 | collecting keeps the player consistent, in the same cell, with the same id and bombs out |
| Invariants.PickUpSound | server/rooms/BomberRoom.ts:380-395 | picking up any found power-up (or none) keeps the state sound |
| Invariants.PickUpSearchesAgree | utils/gameLogic.ts:141 | with at most one power-up per cell, the peer's forward search and the server's backward search find the same power-up |
| Invariants.PlaceBombSound | server/rooms/BomberRoom.ts:331-345 | bomb placement keeps the state sound, including one bomb per cell and each count matching the bombs owned |
| Invariants.ClearBlockSpatial | server/rooms/BomberRoom.ts:439-441 | clearing a block keeps every entity on free ground, and no power-up lay on the block |
| Invariants.RaySpatial | server/rooms/BomberRoom.ts:430-444 | a ray keeps the layout invariant: explosions and power-ups land only on free ground inside the grid |
| Invariants.RaysSpatial | server/rooms/BomberRoom.ts:428-445 | the four rays keep the layout invariant |
| Invariants.FuseTimerSound | server/rooms/BomberRoom.ts:419 | counting a bomb's timer down keeps the state sound |
| Invariants.ReleaseAccounted | server/rooms/BomberRoom.ts:422-423 | after returning bomb `i` to its owner, every count matches the bombs owned once `i` is removed; players keep their cells and consistency |
| Invariants.RemoveBombSpatial | server/rooms/BomberRoom.ts:447 | removing a bomb keeps the layout invariant |
| Invariants.DetonateSpatial | server/rooms/BomberRoom.ts:421-445 | a detonation on free ground keeps the layout invariant and changes the players exactly as releasing the owner does |
| Invariants.FuseStepReleases | server/rooms/BomberRoom.ts:418-448 | a bomb whose fuse runs out leaves the list and its owner (the first player with its id) gets one bomb back; a bomb still burning stays at its index with the shorter fuse and no player changes |
| Invariants.FuseStepSound | server/rooms/BomberRoom.ts:418-448 | one fuse step, exploding or not, keeps the state sound |
| Invariants.DetonateRemoveSound | server/rooms/BomberRoom.ts:421-447 | detonating bomb `i` and then splicing it out keeps the state sound |
| Invariants.FusesSound | server/rooms/BomberRoom.ts:416-449 | the whole bomb phase keeps the state sound |
| Invariants.ReachShape | server/rooms/BomberRoom.ts:430-444 | a ray reaches at most `range` tiles, all inside the grid and none a wall, all but the last free ground; it stops short only at a block, the edge or a wall |
| Invariants.CorridorReach | server/rooms/BomberRoom.ts:430-437 | along a corridor of free ground a ray reaches exactly `range` tiles |
| Invariants.RayCovers | server/rooms/BomberRoom.ts:430-444 | a ray appends one explosion per tile it reaches, in order of distance, each with the full explosion timer, and keeps the earlier explosions |
| Invariants.RayCoversStep | server/rooms/BomberRoom.ts:437 | one free tile extends the explosions appended by the rest of the ray by exactly that tile |
| Invariants.RayClears | server/rooms/BomberRoom.ts:439-443 | a ray changes the grid only when its last tile is a block; that block becomes free ground and gains the power-up its roll draws, if any; otherwise grid and power-ups are unchanged |
| Invariants.RayIgnoresBombs | server/rooms/BomberRoom.ts:430-444 | a ray never reads the bomb list |
| Invariants.RaysIgnoreBombs | server/rooms/BomberRoom.ts:428-445 | the four rays never read the bomb list |
| Invariants.DetonateIgnoresBombs | utils/gameLogic.ts:175-220 | a detonation never reads the bomb list, so splicing the bomb before or after it gives the same state |
| Invariants.StartSound | server/rooms/BomberRoom.ts:218-222 | laying a fresh grid under a clean lobby with distinct ids gives a sound game |
| Invariants.SpawnedShape | server/rooms/BomberRoom.ts:172-190 | a spawned player is consistent and carries no bombs |
| Invariants.RemovePlayerIds | server/rooms/BomberRoom.ts:214 | deleting a player keeps the remaining ids distinct and leaves no player with the deleted id |
| Invariants.RemovePlayerLobby | server/rooms/BomberRoom.ts:214 | deleting a player before the start keeps the room a clean lobby |
| Invariants.RemovePlayerSound | server/rooms/BomberRoom.ts:214 | deleting a player keeps the state sound |
| RoomRules.Normalise | server/rooms/BomberRoom.ts:347-352 | the step is axis-aligned: a vertical request wins and drops the horizontal part, otherwise the horizontal request is kept |
| RoomRules.Advance | server/rooms/BomberRoom.ts:367-400 | interpolation changes only player `j` (its bomb count and logical cell kept) and never the grid, explosions, bombs or winner |
| RoomRules.Move | server/rooms/BomberRoom.ts:347-400 | the move phase changes only player `j`, never its bomb count, the grid, explosions, bombs or winner |
| RoomRules.Turn | server/rooms/BomberRoom.ts:327-413 | one player's turn changes only that player, and never the grid, explosions or winner |
| RoomRules.Turns | server/rooms/BomberRoom.ts:326-414 | the player phase keeps every player's id and lives, the grid, explosions and winner |
| RoomRules.LastSurvivorNames | server/rooms/BomberRoom.ts:473-477 | the scan names the last other living player when there is one; otherwise the winner is unchanged |
| RoomRules.Hit | server/rooms/BomberRoom.ts:460-480 | checking one player against one explosion changes only players and winner |
| RoomRules.Damage | server/rooms/BomberRoom.ts:460-480 | one explosion's damage pass changes only players and winner and keeps the player count |
| RoomRules.Burn | server/rooms/BomberRoom.ts:453-481 | one explosion step keeps the explosions before `i` and the player count |
| RoomRules.Burns | server/rooms/BomberRoom.ts:451-482 | the explosion phase keeps the player count |
| RoomRules.TurnPlacement | server/rooms/BomberRoom.ts:328-345 | a living player with an input requesting a bomb on a bomb-free cell within its allowance appends exactly that bomb and raises its count by one; otherwise bombs and count are unchanged |
| RoomRules.TurnConsumesRequest | server/rooms/BomberRoom.ts:344 | a living player's bomb request is cleared after its turn; a dead player's input and all other inputs are untouched |
| RoomRules.MoveSound | server/rooms/BomberRoom.ts:354-400 | an axis-aligned move keeps the state sound |
| RoomRules.StepSound | server/rooms/BomberRoom.ts:354-365 | starting an axis-aligned step keeps the state sound |
| RoomRules.AdvanceSound | server/rooms/BomberRoom.ts:367-400 | interpolation with pick-up on arrival keeps the state sound |
| RoomRules.TockSound | server/rooms/BomberRoom.ts:402-413 | running the immunity and emoji timers down keeps the state sound |
| RoomRules.MovePicksAtMostOne | server/rooms/BomberRoom.ts:380-395 | a move removes at most one power-up: the last one on the arrival cell |
| RoomRules.TurnSound | server/rooms/BomberRoom.ts:327-413 | a player's turn keeps the state sound |
| RoomRules.TurnsSound | server/rooms/BomberRoom.ts:326-414 | the player phase keeps the state sound |
| RoomRules.AtMostOneHitTrans | server/rooms/BomberRoom.ts:451-482 | "each player lost at most one life and was then made immune" composes across passes |
| RoomRules.HitsKeepSound | server/rooms/BomberRoom.ts:467-469 | losing lives and gaining immunity keeps the state sound |
| RoomRules.HitNamesSurvivor | server/rooms/BomberRoom.ts:467-477 | a hit that takes a player's last life makes the last other living player the winner when there is one; otherwise the winner is unchanged |
| RoomRules.DamageAtMostOnce | server/rooms/BomberRoom.ts:460-480 | one explosion hits each player at most once, and every hit sets immunity |
| RoomRules.BurnSound | server/rooms/BomberRoom.ts:453-481 | one explosion step keeps the state sound |
| RoomRules.BurnsSound | server/rooms/BomberRoom.ts:451-482 | the explosion phase keeps the state sound |
| RoomRules.TickSound | server/rooms/BomberRoom.ts:320-488 | a whole tick keeps the state sound |
| RoomRules.TickOneHit | server/rooms/BomberRoom.ts:451-482 | in one tick a player loses at most one life, since the first hit grants immunity, whatever the number of overlapping explosions |
| RoomRules.BurnsAtMostOnce | server/rooms/BomberRoom.ts:451-482 | the whole explosion phase hits each player at most once |
| RoomRules.DamageStrikes | server/rooms/BomberRoom.ts:460-479 | a living player without immunity whose pixel position lies in the explosion's tile is hit by the damage pass: one life less and three seconds of immunity |
| RoomRules.BurnsStrike | server/rooms/BomberRoom.ts:451-482 | such a player, under an explosion that still burns after this step's countdown, loses exactly one life in the explosion phase and ends it immune |
| RoomRules.TickStrikes | server/rooms/BomberRoom.ts:451-482 | the lower bound beside TickOneHit: a player that reaches the explosion phase alive, not immune and under a still-burning explosion ends the tick with exactly one life less than it started with, and immune |
| PeerRules.StartingPlayers | utils/gameLogic.ts:57-62 | the players literal: ids distinct, the client spawned bottom-right, the host spawned top-left only when its id differs from the client's |
| PeerRules.PeerPlace | utils/gameLogic.ts:98-112 | peer placement changes only player `j` and the bomb list |
| PeerRules.PeerStart | utils/gameLogic.ts:115-126 | a peer step start changes only player `j`, keeping its bomb count |
| PeerRules.PeerAdvance | utils/gameLogic.ts:129-158 | peer interpolation changes only player `j` (its bomb count kept) and never the grid, explosions, bombs or winner |
| PeerRules.PeerTurn | utils/gameLogic.ts:94-163 | one peer turn changes only player `j`, never the grid, explosions or winner |
| PeerRules.PeerTurns | utils/gameLogic.ts:93-164 | the peer player phase keeps ids, lives, grid, explosions and winner |
| PeerRules.PeerFuseStep | utils/gameLogic.ts:168-221 | a peer fuse step keeps the bombs before `i` |
| PeerRules.PeerFuseStepAgrees | utils/gameLogic.ts:172-175 | splicing the bomb before detonating (the peer copy) gives the same state as splicing it after (the server) |
| PeerRules.PeerFusesAgree | utils/gameLogic.ts:166-222 | the peer bomb phase equals the server bomb phase |
| PeerRules.FirstOther | utils/gameLogic.ts:239 | `find` on the keys: "none" means every key is the victim's id; otherwise the first key that differs from it |
| PeerRules.PeerHit | utils/gameLogic.ts:232-243 | one peer hit check changes only players and winner |
| PeerRules.PeerDamage | utils/gameLogic.ts:232-243 | a peer damage pass changes only players and winner, keeping the player count |
| PeerRules.PeerBurn | utils/gameLogic.ts:226-244 | a peer explosion step keeps the explosions before `i` and the player count |
| PeerRules.PeerBurns | utils/gameLogic.ts:224-245 | the peer explosion phase keeps the player count |
| PeerRules.PeerTurnSound | utils/gameLogic.ts:94-163 | with axis-aligned inputs a peer turn keeps the state sound |
| PeerRules.PeerStartSound | utils/gameLogic.ts:98-126 | peer placement then step start keep the state sound |
| PeerRules.PeerAdvanceSound | utils/gameLogic.ts:129-158 | peer interpolation and pick-up keep the state sound |
| PeerRules.PeerTurnsSound | utils/gameLogic.ts:93-164 | the peer player phase keeps the state sound |
| PeerRules.PeerHitNamesOther | utils/gameLogic.ts:237-241 | a last-life hit names the first other key as winner when there is a non-empty one, never the victim; otherwise the winner is unchanged |
| PeerRules.FirstOtherIds | utils/gameLogic.ts:239 | the winner search depends only on the ids, not on lives or positions |
| PeerRules.PeerTurnPlacement | utils/gameLogic.ts:98-112 | a living player requesting a bomb on a bomb-free cell within its allowance appends exactly that bomb and raises its count; otherwise bombs and count are unchanged |
| PeerRules.PeerAdvanceArrives | utils/gameLogic.ts:129-158 | interpolation keeps the player's cell; an arriving player ends at rest on its target (the cell's centre for a shaped player) and takes the first power-up on the cell if there is one, none otherwise; a player not arriving keeps its motion flag and the power-ups |
| PeerRules.PeerTurnPicksAtMostOne | utils/gameLogic.ts:141-152 | a peer turn removes at most one power-up: the first one on the arrival cell |
| PeerRules.PeerDamageAtMostOnce | utils/gameLogic.ts:232-243 | one explosion hits each player at most once in the peer copy |
| PeerRules.PeerBurnSound | utils/gameLogic.ts:226-244 | a peer explosion step keeps the state sound |
| PeerRules.PeerBurnsSound | utils/gameLogic.ts:224-245 | the peer explosion phase keeps the state sound |
| PeerRules.PeerStepSound | utils/gameLogic.ts:87-251 | with axis-aligned inputs a whole peer update keeps the state sound |
| PeerRules.PeerBurnsAtMostOnce | utils/gameLogic.ts:224-245 | the peer explosion phase hits each player at most once |
| PeerRules.PeerStepOneHit | utils/gameLogic.ts:87-251 | in one peer update a player loses at most one life, and then is immune |
| PeerRules.PeerDamageStrikes | utils/gameLogic.ts:232-243 | a living player without immunity on the explosion's logical cell is hit by the peer damage pass: one life less and three seconds of immunity |
| PeerRules.PeerBurnsStrike | utils/gameLogic.ts:224-245 | such a player, on an explosion that still burns after the countdown by `dt`, loses exactly one life in the peer explosion phase and ends it immune |
| PeerRules.PeerStepStrikes | utils/gameLogic.ts:87-251 | the lower bound beside PeerStepOneHit: with no winner yet, a player that reaches the explosion phase alive, not immune and on a still-burning explosion ends the update with exactly one life less, and immune |
| PeerRules.PeerHitByCell | utils/gameLogic.ts:233-235 | the peer copy hits a living, non-immune player exactly when its logical cell is the explosion's, taking one life and setting three seconds of immunity |
| PeerRules.ServerHitByPixel | server/rooms/BomberRoom.ts:461-469 | the server hits a living, non-immune player exactly when the tile under its pixel position is the explosion's |
| PeerRules.MidStepHitDiffers | utils/gameLogic.ts:233 | a player that has committed to the next cell but not yet left its own is hit by the peer copy and not by the server |
| PeerRules.DiagonalStepDiffers | utils/gameLogic.ts:115-126 | a diagonal input the gate allows moves the peer copy's player diagonally, while the server keeps its column |
| PeerRules.PeerDiagonalStep | utils/gameLogic.ts:115-126 | a standing, living player whose diagonal input the gate allows ends the peer turn committed to the diagonal neighbour |
| PeerRules.ServerDiagonalStep | server/rooms/BomberRoom.ts:347-365 | on the server any input with a vertical part leaves the player's column unchanged |
| PeerRules.DeadPlayerKeepsMoving | utils/gameLogic.ts:128-163 | the server leaves a dead player's turn untouched, while the peer copy still glides it and counts down its immunity |
| PeerRules.DoubleKnockoutWinners | utils/gameLogic.ts:239-240 | two players knocked out by one explosion: the server names the second, the peer copy the first, who has no lives left |
| Server.Utf16Length | server/rooms/BomberRoom.ts:151 | JavaScript's string `length` in UTF-16 code units: between the number of characters and twice it, and equal to it when every character is in the Basic Multilingual Plane |
| Server.AllAstral | server/rooms/BomberRoom.ts:151 | a string of characters outside the Basic Multilingual Plane has twice as many code units as characters |
| Server.AstralCharCountsTwice | server/rooms/BomberRoom.ts:151 | one emoji outside the Basic Multilingual Plane is two code units, so 51 of them (102 units) are over the limit |
| Server.Recent | server/rooms/BomberRoom.ts:160-163 | the kept log is at most 20 messages, a suffix of the full log, all of it when it fits, and exactly 20 otherwise |
| Server.RespawnedLobby | server/rooms/BomberRoom.ts:240-270 | respawning every player of a cleared field gives a clean lobby with distinct ids |
| Server.BomberRoom.constructor | server/rooms/BomberRoom.ts:106-112 | a fresh room holds no players, no field, no winner, no chat, no votes and no inputs, and is valid |
| Server.BomberRoom.InitializeGrid | server/rooms/BomberRoom.ts:276-304 | the nested loops leave exactly the generated grid and change nothing else |
| Server.BomberRoom.FindBombAt | server/rooms/BomberRoom.ts:332 | the scan finds a bomb exactly when a bomb lies on the cell |
| Server.BomberRoom.CanMoveTo | server/rooms/BomberRoom.ts:306-318 | the gate allows entering the cell exactly when it is inside the grid, neither wall nor block, with no bomb on it unless it is the player's own cell |
| Server.BomberRoom.PickUpPowerup | server/rooms/BomberRoom.ts:380-395 | the backward loop collects the last power-up on the player's cell, if any |
| Server.BomberRoom.ProcessPlayer | server/rooms/BomberRoom.ts:327-413 | one player's turn, including the consumed bomb request, is the specified turn |
| Server.BomberRoom.MovePlayer | server/rooms/BomberRoom.ts:354-400 | the step start and interpolation are the specified move |
| Server.BomberRoom.BeginStep | server/rooms/BomberRoom.ts:354-365 | only player `j` changes, to the specified step start |
| Server.BomberRoom.RunTimers | server/rooms/BomberRoom.ts:402-413 | the immunity and emoji timers are counted down as specified |
| Server.BomberRoom.Interpolate | server/rooms/BomberRoom.ts:367-400 | interpolation is the specified glide with pick-up on arrival |
| Server.BomberRoom.ProcessPlayers | server/rooms/BomberRoom.ts:326-414 | the `forEach` over players is the specified player phase, inputs included |
| Server.BomberRoom.CreateExplosion | server/rooms/BomberRoom.ts:490-497 | appends one explosion with the full timer on the cell |
| Server.BomberRoom.MaybeSpawnPowerup | server/rooms/BomberRoom.ts:499-516 | appends the power-up the roll draws, if any, on the cell |
| Server.BomberRoom.SpreadRay | server/rooms/BomberRoom.ts:430-444 | the inner loop is the specified ray |
| Server.BomberRoom.Explode | server/rooms/BomberRoom.ts:421-445 | the detonation is the specified one |
| Server.BomberRoom.ProcessBombs | server/rooms/BomberRoom.ts:416-449 | the backward loop over bombs is the specified bomb phase |
| Server.BomberRoom.BurnFuse | server/rooms/BomberRoom.ts:418-448 | one iteration of the bomb loop is the specified fuse step |
| Server.BomberRoom.DeclareWinner | server/rooms/BomberRoom.ts:473-477 | sets the winner to the last other living player, or keeps it |
| Server.BomberRoom.DamagePlayers | server/rooms/BomberRoom.ts:460-480 | the `forEach` over players is the specified damage pass |
| Server.BomberRoom.ProcessExplosions | server/rooms/BomberRoom.ts:451-482 | the backward loop over explosions is the specified explosion phase |
| Server.BomberRoom.OnTick | server/rooms/BomberRoom.ts:320-488 | keeps the room valid; before the start or after a win nothing changes; otherwise the room becomes the specified tick |
| Server.BomberRoom.OnJoin | server/rooms/BomberRoom.ts:169-200 | the first joiner spawns top-left and the second bottom-right with an idle input; the game starts, with a generated grid, exactly when two have joined; nothing else in the state changes (the lobby keeps its grid); the room stays valid |
| Server.BomberRoom.OnLeave | server/rooms/BomberRoom.ts:202-216 | leaving mid-game names the last other living player as winner, otherwise keeps the winner; the player and its input are gone; the other players stay, in order and unchanged, and the rest of the state is as it was; the room stays valid |
| Server.BomberRoom.RestartGame | server/rooms/BomberRoom.ts:224-274 | votes, chat and field are cleared, a generated grid laid, every player respawned in order at its spawn point with an idle input, other inputs kept; the room stays valid |
| Server.BomberRoom.RespawnPlayers | server/rooms/BomberRoom.ts:241-270 | the reset loop respawns every player in map order with an idle input, keeps every other input and changes nothing else |
| Server.BomberRoom.OnRematch | server/rooms/BomberRoom.ts:121-137 | ignored before a win or on a repeated vote; a first vote is recorded and pending; the second vote restarts the game as `RestartGame` does: votes, chat, bombs, explosions, power-ups, winner and banner cleared, players respawned in order with idle inputs, a fresh grid |
| Server.BomberRoom.OnInput | server/rooms/BomberRoom.ts:117-119 | stores the input under the sender's id and changes nothing else |
| Server.BomberRoom.OnEmoji | server/rooms/BomberRoom.ts:140-146 | a known sender shows the emoji for two seconds; an unknown sender changes nothing |
| Server.BomberRoom.OnChat | server/rooms/BomberRoom.ts:149-164 | ignored before a win, for an empty message or one over 100 UTF-16 code units; otherwise the message is appended and only the last 20 kept |
| Server.BomberRoom.KeepRecent | server/rooms/BomberRoom.ts:161-163 | the `shift` loop leaves exactly the last 20 messages |
| GameLogic.GenerateGrid | utils/gameLogic.ts:12-36 | the nested loops build exactly the generated grid |
| GameLogic.CreateInitialState | utils/gameLogic.ts:11-69 | a generated grid, the starting players, an empty field, no winner and no banner, and the state is sound |
| GameLogic.CanMoveTo | utils/gameLogic.ts:73-85 | the peer gate agrees with the shared movement gate on every input |
| GameLogic.FindBomb | utils/gameLogic.ts:99 | the scan finds a bomb exactly when one lies on the cell |
| GameLogic.FindPowerup | utils/gameLogic.ts:141 | the scan returns the first power-up on the cell |
| GameLogic.PlaceRequested | utils/gameLogic.ts:98-112 | the placement block is the specified peer placement |
| GameLogic.StartRequested | utils/gameLogic.ts:115-126 | the movement block is the specified peer step start |
| GameLogic.Interpolate | utils/gameLogic.ts:129-158 | the interpolation block is the specified peer glide and pick-up |
| GameLogic.GlidePlayer | utils/gameLogic.ts:129-157 | the pixel interpolation is the specified glide, and it reports arrival exactly when this step covers the remaining distance |
| GameLogic.PickUpPowerup | utils/gameLogic.ts:141-152 | collects the first power-up on the player's cell, if any |
| GameLogic.UpdatePlayer | utils/gameLogic.ts:94-163 | the body of the `forEach` is the specified peer turn |
| GameLogic.UpdatePlayers | utils/gameLogic.ts:93-164 | the `forEach` over players is the specified peer player phase |
| GameLogic.SpreadRay | utils/gameLogic.ts:191-219 | the inner loop is the specified ray |
| GameLogic.BurnFuse | utils/gameLogic.ts:168-221 | one iteration of the bomb loop is the specified peer fuse step |
| GameLogic.UpdateBombs | utils/gameLogic.ts:166-222 | the backward loop over bombs is the specified peer bomb phase |
| GameLogic.FindOther | utils/gameLogic.ts:239 | the key search returns the first other key |
| GameLogic.StrikePlayers | utils/gameLogic.ts:232-243 | the `forEach` over players is the specified peer damage pass |
| GameLogic.UpdateExplosions | utils/gameLogic.ts:224-245 | the backward loop over explosions is the specified peer explosion phase |
| GameLogic.UpdateGame | utils/gameLogic.ts:87-251 | a decided game is returned unchanged; otherwise the result is the specified peer update, and it is sound |

## Left out

- Colyseus plumbing is outside the model. This covers the schema classes, `setState`, `maxClients`, `lock`, the clock interval and message dispatch. The tick becomes the method `OnTick`; each message becomes a method that takes the sender's id.
- Server.BomberRoom.OnJoin: requires that the game has not started and that the id is new. In the source, `maxClients = 2`, `lock()` and unique session ids guarantee both; the model states these guarantees instead of modelling the framework.
- Console logging is left out (it has no effect on state).
- Randomness enters as parameters:
  - `Math.random()` for blocks becomes a roll per cell, `rolls(x, y)`;
  - the power-up roll is a per-cell roll for the current detonation (a block is destroyed at most once per tick);
  - the roll that hides the banner is a single real, `adRoll`.
- `Date.now()` becomes the parameter `now` of `OnChat`.
- Entity ids are left out. Bombs, explosions and power-ups get random ids that no logic reads.
- Positions and timers are exact reals, not IEEE doubles. The tick length is exactly 1/30 s; rounding is not modelled.
- `Math.sqrt` is modelled as the axis distance |dx| + |dy|. `Invariants.DistIsEuclidean` proves this equals the Euclidean distance in every sound state. The source divides by a zero distance only for a moving player that does not arrive, which needs `speed * dt <= 0`. On the server `dt` is 1/30 s and speed is at least 1, so it cannot happen there.
- The input offsets `dx` and `dy` are whole numbers (`int` in `Types.InputPayload`), while `types.ts` declares them as `number`. The client builds only -1, 0 and 1 (`App.tsx`:277-291 and 334-338), but the server stores and adds whatever it receives without validating it. A fractional offset would pass the bounds test, read no tile, and put a player on a non-integer cell; the model does not represent that, and `RoomRules.TickSound` and `PeerRules.PeerStepSound` rely on whole-number offsets.
- GameLogic.UpdateGame: requires a sound state and axis-aligned inputs. This is a modelling choice: the peer copy has no caller in the source, so nothing there restricts its inputs. For a diagonal input the source does not keep the state sound: the player would be off-target along two axes.
- GameLogic.UpdateGame: accepts any `dt`, as the source does. For `dt <= 0` a moving player standing exactly on its target does not arrive, and the source then divides 0 by 0 and sets its position to NaN; the model leaves the player in place (`Arena.Glide`). A negative `dt` moves players backwards in both.
- The peer update's shallow copy `{ ...state }` mutates the caller's nested players, bombs and grid. The model returns a new value and does not capture that aliasing.
- Players are modelled as a sequence in join order. JavaScript orders integer-like object keys first, which the model does not capture.
- If the host and client ids are equal, the players literal in `createInitialState` holds one entry. The model keeps only the client's player.
- Before the game starts, the server's grid is an empty list. The model holds an all-empty grid; nothing reads it before the start.
- The chat handler's `substring(0, 100)` is modelled as a prefix of at most 100 characters. After the length check it never shortens the message, since a message of at most 100 code units has at most 100 characters.
- The `isBot`, `direction` and pixel `x`/`y` fields of bombs and explosions are never read by the logic, so they are not modelled.
- The rendering and networking files are not part of this model: `App.tsx`, `components/GameCanvas.tsx`, `components/Lobby.tsx` and `server/index.ts`.
