# Battleship engine, modelled in Dafny

This project models the engine of a two-player console Battleship game written
in C++ (`lb3/`). The model leaves out the terminal loop. It covers six parts:

- **Ships and segments.** A ship has a length of 1 to 4 and is split into
  segments. Each segment goes one way only: Intact, then Damaged, then
  Destroyed. Health is the sum over segments of 2, 1 or 0.
- **The playing field.** A grid of 3 to 25 cells each way, with:
  - a bounds check;
  - a placement check;
  - placement itself, which marks the occupied cells, links each to its
    segment and marks a one-sided adjacency band;
  - attacks.
- **Ship pools.** Each side has a free pool and an active pool. Ships move
  from free to active. The pools count alive and destroyed ships.
- **The three abilities** (DoubleDamage, Scanner, Bombardment) and the FIFO
  queue that holds them.
- **The turn machine.** A round counter and three turn flags, one ability
  granted per enemy ship lost, win and loss detection, and the fixed opening
  and bot re-stocking layouts.
- **Saving and loading.** A game becomes a flat `Snapshot` and back. Loading
  re-places every ship and replays 0, 1 or 2 attacks for an Intact, Damaged
  or Destroyed segment.

Objects that the source updates in place are Dafny classes: `Ship`,
`GameField`, `ShipManager`, `AbilityManager` and `Game`. A cell refers to its
segment as a `SegRef(ship, index)`, which keeps the aliasing between field
cells and the ship objects in the pools.

Randomness (`rand()`) becomes explicit parameters: a `nat` roll, or a
`nat -> nat` sequence of rolls. The console prompts of a turn become a
`TurnInput` value.

Exceptions become `Outcome` or `Result` values. Their `Error` names the C++
exception:

| `Error` | C++ exception |
|---|---|
| `OutOfRange` | `std::out_of_range` |
| `InvalidShipSize`, `InvalidFieldSize` | `std::logic_error` |
| `OutOfFieldAttack` | `OutOfFieldAttackException` |
| `NoAvailableAbilities` | `NoAvailableAbilitiesException` |
| `InvalidShipData`, `UnknownAbilityName` | `std::runtime_error` |
| `LengthError` | `std::length_error` |

Files, one module each:

| file | module | models |
|---|---|---|
| `errors.dfy` | `Errors` | the error kinds, `Option`, `Result`, `Outcome` |
| `ship.dfy` | `Ships` | `Ship.h`, `Ship.cpp` |
| `game_field.dfy` | `Fields` | `GameField.h`, `GameField.cpp` |
| `ship_manager.dfy` | `ShipManagers` | `ShipManager.cpp` |
| `abilities.dfy` | `Abilities` | `DoubleDamage.cpp`, `Scanner.cpp`, `Bombardment.cpp` |
| `ability_manager.dfy` | `AbilityManagers` | `AbilityManager.cpp` |
| `game.dfy` | `Games` | `Game.h`, `Game.cpp` |
| `game_state.dfy` | `GameStates` | `GameState.cpp` |

### Behaviour modelled as written

- **Orientation Unknown.** The field places a ship with orientation Unknown
  horizontally (`AxisCell`). The ship itself lays such a ship's segment
  coordinates out vertically (`SegmentCoords`). Loading also replays an
  Unknown entry vertically. Both are modelled as written. So a loaded ship's
  statuses are proved equal to the saved ones only when every entry is
  Horizontal or Vertical.
- **Health.** `Ship::damageSegment` recomputes health through
  `getCurrentHealth`. In the source, the segment back-pointers are not
  refreshed after a pool move, so that recomputation can run on another ship
  object. The model keeps a `health` field that is updated on the ship that
  owns the segment. `IsAlive` reads the statuses, as the source does.
- **Reloaded statuses.** Loading replays the saved segment statuses as
  attacks, so every cell of a hit segment shows Ship after a reload. This
  includes a segment hit only by Bombardment, whose cell kept its status
  in the saved game.
- **Failed DoubleDamage.** A DoubleDamage aimed outside the field throws
  `OutOfFieldAttackException`, which is a `runtime_error`. `playerTurn`
  catches only `NoAvailableAbilitiesException` and `logic_error`. So in the
  model that turn ends with the error.

## Model

| member | source | states |
|---|---|---|
| Ships.SegmentStatusOfCode | lb3/include/Ship.h:17 | decoding a segment-status code gives the status whose code it is (Intact=0, Damaged=1, Destroyed=2) |
| Ships.OrientationOfCode | lb3/include/Ship.h:19 | decoding an orientation code gives the orientation whose code it is (Horizontal=0, Vertical=1, Unknown=2) |
| Ships.CodesRoundTrip | lb3/include/Ship.h:17-19 | status and orientation codes round-trip: decoding the code of a value gives back that value |
| Ships.SetStatus | lb3/include/Ship.h:28-34 | setStatus sets the status and leaves the segment's coordinates alone |
| Ships.HealthBounds | lb3/source/Ship.cpp:81-92 | the recomputed health is at most twice the number of segments |
| Ships.HealthUpdate | lb3/source/Ship.cpp:81-92 | replacing one segment changes the health by the difference of the two segments' contributions |
| Ships.HealthZeroIffAllDestroyed | lb3/source/Ship.cpp:116-129 | health is 0 exactly when no segment is alive (isDestroyed agrees with !isAlive) |
| Ships.HealthFullIffAllIntact | lb3/source/Ship.cpp:123-125 | health equals 2·length exactly when every segment is Intact (isUnharmed) |
| Ships.Damage | lb3/source/Ship.cpp:152-159 | a status never moves back; a status other than Destroyed strictly advances; the result is Destroyed iff the segment was already hit or the amount is at least 2 |
| Ships.TwoSingleHitsEqualOneDouble | lb3/source/Ship.cpp:152-159 | two hits of 1 on an Intact segment equal one hit of 2 (Destroyed); Destroyed stays Destroyed |
| Ships.DamageLowersHealth | lb3/source/Ship.cpp:152-160 | damaging a segment never raises health, and lowers it when the segment was not Destroyed |
| Ships.WornDownTransitive | lb3/source/Ship.cpp:152-160 | "worn down" (every status at least as advanced) composes across successive damage |
| Ships.WornDownKeepsDead | lb3/source/Ship.cpp:116-121 | a worn-down ship is alive only if it was alive before, and its health is no higher |
| Ships.Resize | lb3/source/Ship.cpp:95-104 | the resized segment list has n entries, keeping the old ones and padding with default segments |
| Ships.Ship.New | lb3/source/Ship.cpp:14-23 | Ship(n) fails with logic_error iff n is outside 1..4; otherwise length n, max health and health 2n, orientation Unknown, origin (-1,-1), no segments, and not alive |
| Ships.Ship.GetCurrentHealth | lb3/source/Ship.cpp:81-92 | stores and returns the sum of segment contributions, between 0 and 2·|segments| |
| Ships.Ship.IsAlive | lb3/source/Ship.cpp:116-121 | alive iff health of the statuses is positive; an unplaced ship is never alive |
| Ships.Ship.IsUnharmed | lb3/source/Ship.cpp:123-125 | with health up to date, unharmed iff every segment is Intact |
| Ships.Ship.IsDestroyed | lb3/source/Ship.cpp:127-129 | with health up to date, destroyed iff not alive |
| Ships.Ship.SetShipCoordinates | lb3/source/Ship.cpp:131-149 | exactly `length` segments, segment i at (x+i, y) for Horizontal and (x, y+i) otherwise, earlier statuses kept, new ones Intact |
| Ships.Ship.DamageSegment | lb3/source/Ship.cpp:152-161 | only the indexed segment changes, by Damage; no status moves back; health drops when that segment was not Destroyed |
| Ships.Ship.GetSegmentByIndex | lb3/source/Ship.cpp:164-166 | the segment for an index in [0, length), nothing (null) otherwise |
| Ships.Ship.SetSegmentByIndex | lb3/source/Ship.cpp:168-175 | replaces the indexed segment; an index outside [0, length) throws out_of_range and changes nothing |
| Ships.Ship.SetLengthAndHealth | lb3/source/Ship.cpp:95-104 | a length outside 1..4 throws and changes nothing; otherwise length, max health and health are set and the segments resized |
| Fields.StatusOfCode | lb3/include/GameField.h:11 | decoding a cell-status code gives the status whose code it is (Unknown=0, Empty=1, Ship=2) |
| Fields.DefaultGrid | lb3/include/GameField.h:13-19 | height rows of width default cells (unoccupied, unmarked, Unknown, no segment, not missed) |
| Fields.AxisCellOnAxis | lb3/source/GameField.cpp:125-136 | the i-th axis cell lies on the ship's axis at index i and inside the band, and agrees with the ship's own segment coordinates for Horizontal and Vertical |
| Fields.BandIsOneSided | lb3/source/GameField.cpp:138-149 | the adjacency band covers the cell before the ship but not the cell after it, nor the row or column past its far side |
| Fields.GameField.New | lb3/source/GameField.cpp:11-18 | a size outside 3..25 throws logic_error; otherwise a fresh field of that size with only default cells and no ships |
| Fields.GameField.Assign | lb3/source/GameField.cpp:32-42 | the copy assignment takes over the size, the grid and the referenced ships, and keeps the links valid |
| Fields.GameField.GetCellAt | lb3/source/GameField.cpp:56-68 | the cell at (x, y), stored as field[y][x]; out_of_range outside the field |
| Fields.GameField.GetCellStatus | lb3/source/GameField.cpp:193-198 | the cell's status; out_of_range outside the field |
| Fields.GameField.IsShipHere | lb3/source/GameField.cpp:217-222 | whether the cell refers to a segment; out_of_range outside the field |
| Fields.GameField.IsShipHereDestroyed | lb3/source/GameField.cpp:207-215 | whether the cell refers to a Destroyed segment; out_of_range outside the field |
| Fields.GameField.SetCellStatus | lb3/source/GameField.cpp:200-205 | only that cell's status changes; out_of_range outside the field, with nothing changed |
| Fields.GameField.ResizeSize | lb3/source/GameField.cpp:113-118 | sets width and height and refills the grid with default cells; a negative size throws length_error |
| Fields.GameField.ShipCoordinatesCorrect | lb3/source/GameField.cpp:91-111 | true iff every cell along the axis (y for Vertical, x otherwise) is inside, unoccupied and not marked |
| Fields.GameField.PlaceShip | lb3/source/GameField.cpp:120-150 | fails with out_of_range, changing nothing, iff the check fails; otherwise the ship gets its coordinates, the axis cells are occupied and linked to its segments, the one-sided band is marked, and no other cell changes |
| Fields.GameField.PlaceSegments | lb3/source/GameField.cpp:125-136 | exactly the axis cells become occupied and refer to the segment at their axis index |
| Fields.GameField.MarkBand | lb3/source/GameField.cpp:138-149 | exactly the unoccupied cells of the band become adjacency-marked |
| Fields.GameField.AttackCell | lb3/source/GameField.cpp:152-164 | out_of_range outside the field with no change; on an occupied cell the status becomes Ship and the segment takes a hit of 1; elsewhere the status becomes Empty and the miss flag is set |
| ShipManagers.AlivePlusDestroyed | lb3/source/ShipManager.cpp:9-39 | alive plus destroyed active ships is the number of active ships |
| ShipManagers.NoneAlive | lb3/source/ShipManager.cpp:9-17 | the alive count is 0 iff no active ship is alive |
| ShipManagers.Lengths | lb3/source/ShipManager.cpp:68-74 | the ships' lengths, in order |
| ShipManagers.ShipManager.New | lb3/source/ShipManager.cpp:3-7 | an invalid size throws logic_error; otherwise one fresh unplaced free ship per size, in order, and no active ship |
| ShipManagers.ShipManager.Assign | lb3/source/Game.cpp:25-26 | the pool assignment takes over both pools |
| ShipManagers.ShipManager.MoveShipToActive | lb3/source/ShipManager.cpp:59-66 | a valid index appends that free ship to the active pool and removes it from the free pool, keeping the others in order; an invalid index throws out_of_range and changes neither; the total is constant |
| ShipManagers.ShipManager.GetFreeShip | lb3/source/ShipManager.cpp:41-46 | the free ship at the index; out_of_range outside the free pool |
| ShipManagers.ShipManager.GetActiveShip | lb3/source/ShipManager.cpp:48-53 | the active ship at the index; out_of_range outside the active pool |
| ShipManagers.ShipManager.GetAliveShipsNumber | lb3/source/ShipManager.cpp:9-17 | the number of alive active ships; free ships never count |
| ShipManagers.ShipManager.GetDestroyedShipsNumber | lb3/source/ShipManager.cpp:19-27 | the number of active ships that are not alive |
| ShipManagers.ShipManager.GetShipSizes | lb3/source/ShipManager.cpp:68-74 | the active ships' lengths in active order |
| Abilities.KindOfName | lb3/source/GameState.cpp:169-183 | a recognised name is the name of the kind it maps to |
| Abilities.NamesRoundTrip | lb3/source/DoubleDamage.cpp:16-18 | each kind's name maps back to that kind, and distinct kinds have distinct names (also Scanner.cpp:14-16, Bombardment.cpp:24-26) |
| Abilities.ApplyDoubleDamage | lb3/source/DoubleDamage.cpp:4-14 | outside the field: OutOfFieldAttackException and no change; on a ship the segment takes a hit of 2 and the status becomes Ship; elsewhere the status becomes Empty and the miss flag is left alone; nothing else changes |
| Abilities.DoubleDamageDestroys | lb3/source/DoubleDamage.cpp:7-10 | a hit of 2 always destroys; a hit of 1 destroys exactly a segment already hit |
| Abilities.FoundAmong | lb3/source/Scanner.cpp:4-12 | keeps exactly the given cells that are inside and occupied, in their order |
| Abilities.Scan | lb3/source/Scanner.cpp:4-12 | reports exactly the in-field occupied cells of the 2x2 block at the target, row by row, at most four; off-field cells are skipped without error |
| Abilities.RowMajorLength | lb3/source/Scanner.cpp:5-9 | a strictly row-ordered list of cells of one 2x2 block has at most four entries |
| Abilities.PosGrows | lb3/source/Scanner.cpp:5-6 | the i-th entry of such a list sits at block position i or later |
| Abilities.BombardTarget | lb3/source/Bombardment.cpp:11-20 | the first of at most `length` random picks that is not Destroyed, or none when every pick is Destroyed |
| Abilities.BombardSkip | lb3/source/Bombardment.cpp:11-20 | picks that land on Destroyed segments are skipped |
| Abilities.BombardOnlyAlive | lb3/source/Bombardment.cpp:16 | a ship with no live segment is never damaged |
| Abilities.ApplyBombardment | lb3/source/Bombardment.cpp:6-22 | with no active ship nothing changes; otherwise at most one segment of the picked ship takes a hit of 1; no cell and no other ship changes |
| Abilities.Apply | lb3/source/AbilityManager.cpp:58-60 | runs the effect of the given kind |
| AbilityManagers.Pick | lb3/source/AbilityManager.cpp:40-51 | the granted kind comes from the catalog |
| AbilityManagers.EveryKindGrantable | lb3/source/AbilityManager.cpp:40-51 | every kind can be granted by some roll |
| AbilityManagers.AbilityManager.constructor | lb3/source/AbilityManager.cpp:9-17 | the catalog of the three kinds and a queue of exactly one granted ability |
| AbilityManagers.AbilityManager.FromQueue | lb3/source/AbilityManager.cpp:31-38 | keeps the given queue and builds the same catalog; nothing is granted |
| AbilityManagers.AbilityManager.GrantRandomAbility | lb3/source/AbilityManager.cpp:40-51 | with a non-empty catalog the picked kind joins the back, earlier entries untouched |
| AbilityManagers.AbilityManager.Assign | lb3/source/AbilityManager.cpp:23-29 | the assignment takes over the queue and the catalog |
| AbilityManagers.AbilityManager.AddAbility | lb3/source/AbilityManager.cpp:63-65 | appends at the back only |
| AbilityManagers.AbilityManager.GetQueue | lb3/source/AbilityManager.cpp:86-88 | the queue, front first |
| AbilityManagers.AbilityManager.ApplyAbility | lb3/source/AbilityManager.cpp:53-61 | an empty queue throws NoAvailableAbilities and changes nothing; otherwise the front is used up, even when its effect fails, and its effect is applied |
| AbilityManagers.FirstInFirstOut | lb3/source/AbilityManager.cpp:40-65 | adding A then B and applying once applies A and leaves [B] |
| Games.CountAliveMarked | lb3/source/ShipManager.cpp:9-17 | counting the alive ships equals counting the members of a set holding exactly the alive ones |
| Games.CountAliveBound | lb3/source/ShipManager.cpp:9-17 | the alive count is at most the count of any set covering the alive ships |
| Games.AfterUse | lb3/source/Game.cpp:176-190 | using an ability with a non-empty queue drops its front; otherwise the queue stays |
| Games.Granted | lb3/source/Game.cpp:206-213 | one picked kind per lost ship, in order |
| Games.CopyValid | lb3/source/Game.cpp:103 | a copy of a valid game into distinct member objects is valid |
| Games.Game.constructor | lb3/source/Game.cpp:13-16 | two 10x10 default fields, two pools of free ships of sizes 2 and 1, one granted ability, round 0, the player to move and no action taken |
| Games.Game.Of | lb3/include/Game.h:32-44 | the reconstruction constructor stores exactly what it is given |
| Games.Game.Assign | lb3/source/Game.cpp:103 | `*this = other` copies every member and the counter and flags |
| Games.Game.InitializeGame | lb3/source/Game.cpp:18-61 | round 0; fresh 10x10 fields and pools of sizes 2 and 1; the player's ships at (2,1) and (3,4) horizontal, the bot's at (6,3) horizontal and (7,7) vertical; every placement succeeds and each side has two alive active ships |
| Games.Game.ResetEnemy | lb3/source/Game.cpp:71-88 | only the bot side is replaced: ships of sizes 2, 3, 1 at (6,0) and (2,4) horizontal and (7,9) vertical, all active and alive |
| Games.Game.PassStep | lb3/source/Game.cpp:241-242 | the step returns to the player and the attack flag is cleared |
| Games.Game.SetFlags | lb3/source/Game.cpp:140-215 | the round counter and the three turn flags take the given values, made once per turn from what the steps report, and the game stays valid |
| Games.Game.PlayerTurn | lb3/source/Game.cpp:139-216 | the round counter grows by one; a DoubleDamage aimed outside the field ends the turn with that error, the bot's grid untouched and the player still to move; otherwise the bot's grid ends as TurnGrid says (the DoubleDamage cell, then the attacked cell), an outside attack with no ability changes no cell, and an attack inside lands as attackCell says (Struck) when no ability ran; isPlayerDoAttack iff the target is inside; isPlayerUseAbility iff an ability was used and no ship was lost; one ability per ship lost and the count lowered; the step passes to the bot |
| Games.Game.EnemyTurn | lb3/source/Game.cpp:219-243 | one attack at (r1 mod width, r2 mod height), always inside; the player's count is lowered to the alive number; then the step returns to the player and the attack flag is cleared |
| Games.Game.Exchange | lb3/source/Game.cpp:249-258 | one player turn and, unless the bot lost, one bot turn; a win ends before the bot moves |
| Games.Game.PlayerHalf | lb3/source/Game.cpp:250-253 | the player's turn, then the win check on the enemy's alive count |
| Games.Game.BotHalf | lb3/source/Game.cpp:255-258 | the bot's turn, then the loss check on the player's alive count |
| Games.Game.PlayRound | lb3/source/Game.cpp:245-265 | returns a win as soon as the enemy has no alive ship after a player turn, a loss as soon as the player has none after a bot turn; alive counts never grow |
| Games.Layout | lb3/source/Game.cpp:31-54 | one placement per ship, in order |
| Games.FixedLayouts | lb3/source/Game.cpp:31-54 | the three fixed layouts fit in a 10x10 field and keep their ships apart, so every placement succeeds |
| Games.ClearWhenAllFree | lb3/source/Game.cpp:22-26 | on a fresh field every cell of a fitting layout is free |
| Games.NewSide | lb3/source/Game.cpp:13-16 | a fresh 10x10 default field and a fresh pool of free ships of the given sizes |
| Games.SeqShift | lb3/source/Game.cpp:31-38 | placing the first ship of a plan and then the rest places the whole plan |
| Games.PlaceAll | lb3/source/Game.cpp:31-54 | placing a plan on a clear field activates every ship at its planned place, each alive |
| Games.PlaceLegal | lb3/source/Game.cpp:32-34 | one placement of a clear plan succeeds and leaves the rest clear |
| Games.PlaceFree | lb3/source/Game.cpp:32-34 | the first free ship is placed and activated; only band cells stop being free |
| Games.Sizes | lb3/source/Game.cpp:20 | the ship sizes of a layout, in order |
| Games.Deploy | lb3/source/Game.cpp:22-54 | a fresh field and pool, every ship of the layout placed and active |
| Games.Restock | lb3/source/Game.cpp:22-26 | a fresh empty 10x10 field and a fresh pool of the layout's sizes |
| Games.RestockField | lb3/source/Game.cpp:22-23 | the field becomes a fresh 10x10 grid of free cells with no ships |
| Games.RestockPool | lb3/source/Game.cpp:25-26 | the pool becomes fresh unplaced free ships of the given sizes |
| Games.PlaceAndActivate | lb3/source/Game.cpp:32-34 | the first free ship is placed and moved to the back of the active pool; a failed placement changes nothing |
| Games.Activate | lb3/source/ShipManager.cpp:59-66 | the placed first free ship moves to the back of the active pool |
| Games.PlayerMoves | lb3/source/Game.cpp:176-213 | the ability step, the attack and the reward on the bot's side: fails iff a DoubleDamage is aimed outside, with the grid untouched; otherwise the grid is TurnGrid of the old one, the attack flag is set iff the target is inside, a landed attack with no ability is Struck, the queue is AfterUse then Granted, and the count is Lowered |
| Games.AttackAndReward | lb3/source/Game.cpp:192-213 | the grid becomes AttackedGrid of the old one (so an attack outside changes nothing), a landed attack is Struck and Revealed, then one ability per ship lost and the count lowered |
| Games.Reward | lb3/source/Game.cpp:206-213 | one ability per ship lost, and the count lowered to the alive number |
| Games.AbilityStep | lb3/source/Game.cpp:176-190 | the optional ability use: the queue is AfterUse; it fails iff a DoubleDamage is aimed outside, changing no cell; a used ability has its kind's Applied effect; otherwise no ship changes; on success the grid is AbilityGrid of the old one |
| Games.AbilityOnSide | lb3/source/Game.cpp:183 | applyAbility on one side: the front is popped, the error is NoAvailableAbilities on an empty queue and OutOfFieldAttack for a DoubleDamage aimed outside, with no cell changed; a popped ability has its Applied effect; ships are only worn and the side stays valid |
| Games.AttackStep | lb3/source/Game.cpp:197 | attackCell on one side; the other side is untouched |
| Games.AttackOnSide | lb3/source/Game.cpp:197 | attackCell keeps the side valid and only wears ships down |
| Games.GrantAbilities | lb3/source/Game.cpp:208-211 | n grants append n picked kinds |
| Games.AttackedCells | lb3/source/GameField.cpp:152-164 | an attack changes the aimed cell alone: an occupied cell shows Ship and keeps its miss flag, any other shows Empty and is marked missed; outside the grid nothing changes |
| Games.DoubleDamagedCells | lb3/source/DoubleDamage.cpp:4-14 | DoubleDamage changes the aimed cell alone, to Ship or Empty as an attack would, and never sets the miss flag; outside the grid nothing changes |
| Games.QuietTurn | lb3/source/Game.cpp:192-204 | with no ability used, an attack outside the field leaves the bot's grid as it was, and one inside changes no cell other than the target |
| Games.LayoutAt | lb3/source/Game.cpp:31-54 | entry k of the layout is ship k's length, origin and orientation |
| Games.WornLayout | lb3/source/Game.cpp:176-204 | ships that kept their length, origin and orientation keep their layout, so attacks and abilities never move a ship |
| GameStates.SaveField | lb3/source/GameState.cpp:42-52 | height rows of width codes; entry [y][x] is the code of cell (x, y)'s status |
| GameStates.StatusCodes | lb3/source/GameState.cpp:63-68 | one status code per segment, in segment order |
| GameStates.SaveShip | lb3/source/GameState.cpp:58-71 | a complete entry: origin, orientation code and one status code per segment |
| GameStates.SaveShips | lb3/source/GameState.cpp:55-73 | one complete entry per active ship, in active order |
| GameStates.SaveAbilities | lb3/source/GameState.cpp:76-82 | one name per queued ability, in queue order, each naming its kind |
| GameStates.Capture | lb3/source/GameState.cpp:5-29 | the counter, the flags, both fields' sizes and grids, both ship lists and the ability names |
| GameStates.LoadedCell | lb3/source/GameState.cpp:101-107 | a loaded cell holds no ship, no segment and no band mark |
| GameStates.LoadField | lb3/source/GameState.cpp:97-111 | an invalid size throws logic_error and an entry outside the field throws out_of_range; otherwise a fresh field of that size whose cells take the saved statuses, with the miss flag exactly on Empty |
| GameStates.SavedFieldReloads | lb3/source/GameState.cpp:97-111 | a saved grid fits its field and reloads with the same statuses |
| GameStates.Kinds | lb3/source/GameState.cpp:169-183 | the kinds the names stand for, in order |
| GameStates.LoadAbilities | lb3/source/GameState.cpp:169-183 | an unknown name throws runtime_error; otherwise a fresh manager whose queue holds the named kinds in order |
| GameStates.SavedAbilitiesReload | lb3/source/GameState.cpp:76-82 | saved ability names are all known and reload to the same queue |
| GameStates.Replayed | lb3/source/GameState.cpp:155-162 | replaying never moves a status back, and an Intact segment ends with exactly the saved status |
| GameStates.AttackedTwice | lb3/source/GameState.cpp:155-162 | a second attack on the same cell changes nothing more, so Destroyed's two attacks leave the grid as one |
| GameStates.RestampKeepsLayout | lb3/source/GameField.cpp:152-164 | changing a cell's status or miss flag keeps the grid's occupancy and links |
| GameStates.Strike | lb3/source/GameField.cpp:152-164 | an attack makes the grid AttackedGrid of the old one (the cell shows Ship on a segment, Empty and missed elsewhere), keeps the layout and hits the referenced segment once |
| GameStates.ReplaySegment | lb3/source/GameState.cpp:155-162 | code 0 changes nothing; otherwise the grid is AttackedGrid of the old one (one or two attacks alike), the segment on that cell ends with its replayed status, and it fails with out_of_range exactly when the cell is outside |
| GameStates.LayoutKeepsShips | lb3/source/GameState.cpp:144-163 | a ship laid out on a grid stays laid out after attacks |
| GameStates.ReplayShip | lb3/source/GameState.cpp:144-163 | fails with out_of_range iff some segment with a nonzero code lies outside; on success the layout is kept and, for a ship laid out along its axis, it ends with exactly its saved statuses, exactly the cells of its hit segments show Ship, every other cell keeps its status and no miss flag or other ship changes |
| GameStates.ReplayKeepsLayout | lb3/source/GameState.cpp:144-163 | replaying any prefix of the codes keeps the grid's occupancy and links |
| GameStates.ReplayFitsPrefix | lb3/source/GameState.cpp:144-163 | a replay that stays inside has every prefix staying inside |
| GameStates.ReplayFitsEvery | lb3/source/GameState.cpp:144-163 | a replay stays inside iff every segment with a nonzero code lies inside the field |
| GameStates.ReplayedStatuses | lb3/source/GameState.cpp:155-162 | replaying n codes of a Horizontal or Vertical ship on occupied cells turns exactly the cells of its hit segments into Ship, keeps every other status and every miss flag |
| GameStates.ReplayCodes | lb3/source/GameState.cpp:144-163 | the segment loop: succeeds iff the replay stays inside, and the grid is the replayed grid |
| GameStates.ReplayStep | lb3/source/GameState.cpp:145-162 | one segment: fails iff its code is nonzero and its cell is outside, changing nothing; otherwise the grid moves on by that segment |
| GameStates.LoadRecord | lb3/source/GameState.cpp:128-164 | succeeds iff the ship can be placed at the entry's origin and orientation and its replay stays inside; then the first free ship is placed and moved to the back of the active pool, exactly its band's cells become taken, and for a Horizontal or Vertical entry it carries the saved statuses and exactly its hit cells show Ship |
| GameStates.PlaceRecord | lb3/source/GameState.cpp:130-140 | succeeds iff the ship can be placed; then the ship stands as recorded, Intact, exactly its band's cells become taken and no status or miss flag changes |
| GameStates.PlacedTaken | lb3/source/GameField.cpp:120-150 | placing a ship takes exactly the cells of its band and changes no status or miss flag |
| GameStates.ReplayRecord | lb3/source/GameState.cpp:143-163 | succeeds iff the replay stays inside; the layout is kept and, for a Horizontal or Vertical entry, the ship carries the saved statuses and exactly its hit cells show Ship |
| GameStates.ShipDataError | lb3/source/GameState.cpp:118-125 | no error iff every entry has all three keys and a valid number of segments |
| GameStates.CollectSizes | lb3/source/GameState.cpp:118-123 | runtime_error iff some entry lacks a key; otherwise the segment counts, in order |
| GameStates.LoadingDone | lb3/source/GameState.cpp:128-164 | when every entry is placed the side is rebuilt |
| GameStates.MarkedStep | lb3/source/GameState.cpp:128-164 | loading entry i moves the taken cells and the statuses of the first i entries on to the first i + 1 |
| GameStates.PlaceableIff | lb3/source/GameState.cpp:130-140 | after the first i entries, entry i's ship can be placed iff its cells lie inside and off the bands of the earlier entries |
| GameStates.LoadNext | lb3/source/GameState.cpp:129-163 | one pass of the placing loop: it succeeds exactly when entry i is complete, its cells lie inside and off the bands of the earlier entries, and its replay stays inside; then the loop's bookkeeping moves on to i + 1 |
| GameStates.LoadShipManager | lb3/source/GameState.cpp:114-167 | bad entries throw before anything is built; past them it succeeds iff the entries settle one after the other, failing with out_of_range otherwise; on success entry i gave active ship i, placed as recorded, the taken cells are the entries' bands, and with every entry Horizontal or Vertical the ships carry the saved statuses and each cell shows Ship on a hit segment and its loaded status elsewhere |
| GameStates.LoadShips | lb3/source/GameState.cpp:128-164 | the placing loop succeeds iff the entries settle one after the other, failing with out_of_range otherwise |
| GameStates.LoadSide | lb3/source/GameState.cpp:191-194 | fails exactly as SideError says, with its error; on success a new field of the saved size and a pool rebuilt from the entries |
| GameStates.SideError | lb3/source/GameState.cpp:191-194 | a side's error, in load's order: the field's, then the entries', then out_of_range when the entries do not settle; none exactly when every step passes |
| GameStates.LoadableShips | lb3/source/GameState.cpp:118-125 | a rebuilt side's entries pass the entry checks |
| GameStates.Assemble | lb3/source/GameState.cpp:203-204 | the loaded members form a valid game that holds what the snapshot records |
| GameStates.Load | lb3/source/GameState.cpp:185-205 | fails exactly as LoadError says, with its error (player side, then ability names, then bot side); on success a fresh valid game that holds the snapshot's counter, flags, sizes, grids, ships and abilities |
| GameStates.LoadError | lb3/source/GameState.cpp:185-205 | the first failing step's error: the player side, then an unknown ability name, then the bot side; none exactly when none fails |
| GameStates.RestoredCopy | lb3/source/Game.cpp:103 | a game whose members hold what a restored game's hold is restored too |
| GameStates.Replace | lb3/source/Game.cpp:103 | after `*this = state.load()` the game is valid and holds what the snapshot records |
| GameStates.LoadGame | lb3/source/Game.cpp:100-112 | returns true exactly when the snapshot loads (LoadError is None), and then the game is replaced; otherwise nothing changes |
| GameStates.SavedAxial | lb3/source/GameState.cpp:55-73 | ships placed Horizontal or Vertical are saved as such |
| GameStates.ReloadedShips | lb3/source/GameState.cpp:125-163 | ships rebuilt from saved entries stand where the saved ships stood and, with replayed statuses, are damaged alike |
| GameStates.RebuiltFromSaved | lb3/source/GameState.cpp:114-167 | a side rebuilt from saved ships matches them in layout, and in damage when none is Unknown |
| GameStates.CaptureLoadable | lb3/source/GameState.cpp:5-29 | a valid game's snapshot, after any number of turns, passes every size, key and name check of load |
| GameStates.CaptureLoadsIff | lb3/source/GameState.cpp:185-205 | a valid game's snapshot loads exactly when each side's saved ships settle again, in order, on a field of its size |
| GameStates.CaptureRestores | lb3/source/GameState.cpp:185-205 | loading a valid game's snapshot restores its counter, flags, field sizes, ability queue and ship layouts, and the ships' damage when no ship is Unknown |
| GameStates.SavedCellsReload | lb3/source/GameState.cpp:97-164 | a grid loaded from a saved field and rebuilt from saved ships has exactly their bands taken and, when none is Unknown, shows Ship on every hit segment and the saved status elsewhere, with the miss flag exactly on Empty |
| GameStates.CaptureRestoresCells | lb3/source/GameState.cpp:185-205 | after loading a valid game's snapshot both grids are as SavedCellsReload says: taken cells are the saved ships' bands, and on a side with no Unknown ship hit segments show Ship and every other cell the saved status |

## Left out

- File input and output are not modelled: `FileHandler`, `GameState(const string&)`, `save`, the stream operators and `Game::saveGame`. Neither is the JSON text itself. A `Snapshot` value stands for the parsed document.
- A JSON integer outside an enum's range, a missing top-level key and a wrongly typed value cannot be written in a `Snapshot`. The enum fields are the subset type `Code` (0..2).
- Printing and prompts are not modelled: `print_field`, `printAbilities`, `print_info`, the `cout` in `Scanner::apply`, and the load and save offers at the start of `playerTurn`. Prompt answers come in as `TurnInput`.
- `startGame`'s restart loop, `main.cpp`, `for_json.cpp` and `main7.cpp` (a single-file copy of the same sources) are not modelled.
- `srand` and `rand` are parameters.
- `Games.Game.EnemyTurn`: the retry loop around the bot's attack is not modelled. The target is always inside the field, so the first attack succeeds.
- `Games.Game.PlayRound`: `while (true)` runs over a finite sequence of turn inputs. Running out of inputs returns `OutOfTurns`.
- C++ copy and move semantics are not modelled. The members are distinct objects joined by reference. A copy shares the ship objects, and no dangling `ship_pointer` arises.
- `GameStates.LoadShipManager`: only called on a field without ships (`field.Ships == {}`), which is the only way `load` calls it.
- `GameStates.LoadShipManager` guarantees the replayed statuses only when every entry is Horizontal or Vertical. An Unknown entry is placed horizontally and replayed vertically, so its attacks land on other cells.
- `GameStates.CaptureLoadable` covers the size, key and name checks of `load`, not the placements and replays. `GameStates.CaptureLoadsIff` says a valid game's snapshot loads exactly when its ships settle again. That they do is not proved: the game keeps no record that each ship was placed off the bands of the ships placed before it.
- `GameStates.CaptureRestores` and `GameStates.CaptureRestoresCells` take a successful reload (`Restored`) as given, for the reason above.
- `GameStates.LoadRecord`, `GameStates.ReplayShip` and `GameStates.ReplayRecord` state no cell status for an Unknown entry, for the reason given for `LoadShipManager`.
- `AbilityManagers.AbilityManager.ApplyAbility` applies the effect first and then pops the front. The source pops first. The final state is the same because failures are returned, not thrown.
- The getters (`getWidth`, `getLength` and the like) return a stored field. The Dafny fields are read directly.
