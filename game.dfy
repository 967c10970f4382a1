/** The game engine (lb3/include/Game.h, lb3/source/Game.cpp): the player's
    and the bot's fields and ship pools, the player's ability queue, a round
    counter and three turn flags. A round alternates a player turn and a
    bot turn until one side has no alive ship left. */
module Games {
  import opened Errors
  import opened Ships
  import opened Fields
  import opened ShipManagers
  import opened Abilities
  import opened AbilityManagers

  const FieldSize: int := 10

  /** One side of a game: a field of a valid size whose occupied cells refer
      exactly to the active ships of the pool, each of them well formed and
      placed. */
  ghost predicate SideValid(field: GameField, manager: ShipManager)
    reads field, field.Ships, manager
  {
    && ValidFieldSize(field.width, field.height)
    && field.Linked() && field.Ships == ActiveSet(manager)
    && AllPlaced(manager) && (forall s :: s in manager.active ==> s.Valid())
  }

  /** Two sides that share no field, pool or ship. */
  ghost predicate Sides(pf: GameField, pm: ShipManager, ef: GameField, em: ShipManager)
    reads pf, pf.Ships, pm, ef, ef.Ships, em
  {
    && pf != ef && pm != em
    && SideValid(pf, pm) && SideValid(ef, em)
    && pf.Ships !! ef.Ships
  }

  /** The ship objects of a pool's active part. */
  ghost function ActiveSet(m: ShipManager): set<Ship>
    reads m
  {
    set s | s in m.active
  }

  /** The alive ships among `ships`. */
  ghost function AliveSet(ships: seq<Ship>): set<Ship>
    reads ships
  {
    set s | s in ships && s.IsAlive()
  }

  /** How many entries of `ships` lie in `marked`. */
  function CountMarked(ships: seq<Ship>, marked: set<Ship>): nat {
    if |ships| == 0 then 0
    else CountMarked(ships[..|ships| - 1], marked) + (if ships[|ships| - 1] in marked then 1 else 0)
  }

  /** Counting the alive ships is counting the members of a set that holds
      exactly the alive ones. */
  lemma {:induction false} CountAliveMarked(ships: seq<Ship>, marked: set<Ship>)
    requires forall i :: 0 <= i < |ships| ==> (ships[i] in marked <==> ships[i].IsAlive())
    ensures CountAlive(ships) == CountMarked(ships, marked)
  {
    if |ships| > 0 {
      CountAliveMarked(ships[..|ships| - 1], marked);
    }
  }

  /** When every alive ship lies in `marked`, there are at most as many
      alive ships as marked ones. */
  lemma {:induction false} CountAliveBound(ships: seq<Ship>, marked: set<Ship>)
    requires forall i :: 0 <= i < |ships| && ships[i].IsAlive() ==> ships[i] in marked
    ensures CountAlive(ships) <= CountMarked(ships, marked)
  {
    if |ships| > 0 {
      CountAliveBound(ships[..|ships| - 1], marked);
    }
  }

  /** The field went from the old state to this one by one attackCell on
      `c`, a cell inside the field: an occupied cell shows ShipHit and its
      segment took a hit of 1, any other cell shows Empty and is marked
      missed; no other cell changed. */
  twostate predicate Struck(field: GameField, c: Coords)
    reads field, field.Ships
  {
    && old(field.Valid() && field.InField(c)) && field.Ships == old(field.Ships)
    && (old(field.At(c)).shipHere ==>
          field.field == old(field.With(c, field.At(c).(status := ShipHit))) &&
          old(field.At(c)).segment.value.ship.Hit(old(field.At(c)).segment.value.index, 1))
    && (!old(field.At(c)).shipHere ==>
          field.field == old(field.With(c, field.At(c).(status := Empty, missed := true))))
  }

  /** The ability step of a player turn throws past the turn: the front
      ability is a DoubleDamage aimed outside the field. */
  predicate AbilityThrows(queue: seq<AbilityKind>, input: TurnInput, field: GameField)
    reads field
  {
    input.useAbility && queue != [] && queue[0] == DoubleDamage && !field.InField(input.abilityTarget)
  }

  /** What the prompts of one round ask for, and the rand() values it
      draws: whether and where the player uses an ability, where the player
      attacks, the rolls of a bombardment and of the ability grants, and the
      two rolls of the bot's attack. */
  datatype TurnInput = TurnInput(useAbility: bool, abilityTarget: Coords, attackTarget: Coords,
                                 shipRoll: nat, segmentRolls: nat -> nat, grantRolls: nat -> nat,
                                 botRollX: nat, botRollY: nat)

  /** How playRound ends: the player or the bot has no alive ship left,
      an uncaught exception ends the game, or the input runs out first. */
  datatype RoundOutcome = PlayerWon | PlayerLost | Aborted(error: Error) | OutOfTurns

  /** The queue after the ability step: the front is used up when the player
      asked to use an ability and one was available. */
  function AfterUse(queue: seq<AbilityKind>, useAbility: bool): (q: seq<AbilityKind>)
    ensures useAbility && queue != [] ==> |q| == |queue| - 1 && forall i :: 0 <= i < |q| ==> q[i] == queue[i + 1]
    ensures !(useAbility && queue != []) ==> q == queue
  {
    if useAbility && queue != [] then queue[1..] else queue
  }

  /** The `n` abilities granted with the rolls `rolls(0)`, ..., `rolls(n - 1)`. */
  function Granted(rolls: nat -> nat, n: nat): (g: seq<AbilityKind>)
    ensures |g| == n && forall i :: 0 <= i < n ==> g[i] == Pick(Catalog, rolls(i))
  {
    if n == 0 then [] else Granted(rolls, n - 1) + [Pick(Catalog, rolls(n - 1))]
  }

  /** The ship count a turn passes on: lowered to the alive count when that
      dropped below it. */
  function Lowered(count: int, alive: int): int {
    if count > alive then alive else count
  }

  /** `c` names a cell of the grid. */
  predicate OnGridAt(grid: seq<seq<Cell>>, c: Coords) {
    0 <= c.y < |grid| && 0 <= c.x < |grid[c.y]|
  }

  /** The grid after attackCell on `c`: an occupied cell shows ShipHit, any
      other shows Empty and is marked missed; outside the grid nothing
      changes. */
  function AttackedGrid(grid: seq<seq<Cell>>, c: Coords): seq<seq<Cell>> {
    if OnGridAt(grid, c) then
      var cell := grid[c.y][c.x];
      grid[c.y := grid[c.y][c.x := if cell.shipHere then cell.(status := ShipHit) else cell.(status := Empty, missed := true)]]
    else grid
  }

  /** An attack keeps the grid's shape and changes the cell it aims at
      alone: an occupied cell then shows ShipHit and keeps its miss flag,
      any other cell shows Empty and is marked missed. */
  lemma AttackedCells(grid: seq<seq<Cell>>, c: Coords)
    ensures var g := AttackedGrid(grid, c);
            && |g| == |grid| && (forall y :: 0 <= y < |g| ==> |g[y]| == |grid[y]|)
            && (forall y, x :: 0 <= y < |grid| && 0 <= x < |grid[y]| && Coords(x, y) != c ==> g[y][x] == grid[y][x])
            && (OnGridAt(grid, c) ==> g[c.y][c.x] == grid[c.y][c.x].(status := if grid[c.y][c.x].shipHere then ShipHit else Empty,
                                                                    missed := grid[c.y][c.x].missed || !grid[c.y][c.x].shipHere))
            && (!OnGridAt(grid, c) ==> g == grid)
  {
  }

  /** The grid after DoubleDamage::apply on `c`: as an attack, except that a
      miss leaves the miss flag as it was. */
  function DoubleDamagedGrid(grid: seq<seq<Cell>>, c: Coords): seq<seq<Cell>> {
    if OnGridAt(grid, c) then
      var cell := grid[c.y][c.x];
      grid[c.y := grid[c.y][c.x := if cell.shipHere then cell.(status := ShipHit) else cell.(status := Empty)]]
    else grid
  }

  /** DoubleDamage changes the cell it aims at alone, and its status as an
      attack would, but leaves every miss flag as it was. */
  lemma DoubleDamagedCells(grid: seq<seq<Cell>>, c: Coords)
    ensures var g := DoubleDamagedGrid(grid, c);
            && |g| == |grid| && (forall y :: 0 <= y < |g| ==> |g[y]| == |grid[y]|)
            && (forall y, x :: 0 <= y < |grid| && 0 <= x < |grid[y]| && Coords(x, y) != c ==> g[y][x] == grid[y][x])
            && (OnGridAt(grid, c) ==> g[c.y][c.x] == grid[c.y][c.x].(status := if grid[c.y][c.x].shipHere then ShipHit else Empty))
            && (!OnGridAt(grid, c) ==> g == grid)
  {
  }

  /** The bot's grid after the ability step of a player turn: of the three
      kinds only DoubleDamage changes cells, and only when one is used. */
  function AbilityGrid(queue: seq<AbilityKind>, input: TurnInput, grid: seq<seq<Cell>>): seq<seq<Cell>> {
    if input.useAbility && queue != [] && queue[0] == DoubleDamage then DoubleDamagedGrid(grid, input.abilityTarget)
    else grid
  }

  /** The bot's grid after a player turn that passes: the ability step, then
      the attack. */
  function TurnGrid(queue: seq<AbilityKind>, input: TurnInput, grid: seq<seq<Cell>>): seq<seq<Cell>> {
    AttackedGrid(AbilityGrid(queue, input, grid), input.attackTarget)
  }

  /** A turn that uses no ability and attacks outside the field leaves the
      bot's grid as it was; one that attacks inside changes that cell alone. */
  lemma QuietTurn(queue: seq<AbilityKind>, input: TurnInput, grid: seq<seq<Cell>>)
    requires !input.useAbility
    ensures !OnGridAt(grid, input.attackTarget) ==> TurnGrid(queue, input, grid) == grid
    ensures forall y, x :: 0 <= y < |grid| && 0 <= x < |grid[y]| && Coords(x, y) != input.attackTarget ==>
              TurnGrid(queue, input, grid)[y][x] == grid[y][x]
  {
  }

  /** Each member of `g` holds what the matching member of `h` holds, and
      the counters and flags agree. */
  ghost predicate Copies(g: Game, h: Game)
    reads g, g.playerField, g.enemyField, g.playerShips, g.enemyShips, g.abilities
    reads h, h.playerField, h.enemyField, h.playerShips, h.enemyShips, h.abilities
  {
    && g.playerField.width == h.playerField.width && g.playerField.height == h.playerField.height
    && g.playerField.field == h.playerField.field && g.playerField.Ships == h.playerField.Ships
    && g.enemyField.width == h.enemyField.width && g.enemyField.height == h.enemyField.height
    && g.enemyField.field == h.enemyField.field && g.enemyField.Ships == h.enemyField.Ships
    && g.playerShips.free == h.playerShips.free && g.playerShips.active == h.playerShips.active
    && g.enemyShips.free == h.enemyShips.free && g.enemyShips.active == h.enemyShips.active
    && g.abilities.queue == h.abilities.queue && g.abilities.catalog == h.abilities.catalog
    && g.roundCounter == h.roundCounter && g.isPlayerStep == h.isPlayerStep
    && g.isPlayerUseAbility == h.isPlayerUseAbility && g.isPlayerDoAttack == h.isPlayerDoAttack
  }

  /** A copy of a valid game whose fields and pools are distinct objects is
      valid: validity speaks only of what the members hold. */
  lemma CopyValid(g: Game, h: Game)
    requires Copies(g, h) && h.Valid()
    requires g.playerField != g.enemyField && g.playerShips != g.enemyShips
    ensures g.Valid()
  {
  }

  class Game {
    const playerField: GameField
    const enemyField: GameField
    const playerShips: ShipManager
    const enemyShips: ShipManager
    const abilities: AbilityManager
    var roundCounter: int
    var isPlayerStep: bool
    var isPlayerUseAbility: bool
    var isPlayerDoAttack: bool

    /** Each side has its own field of a valid size whose occupied cells
        refer exactly to that side's active ships, all of which are well
        formed and placed; no ship belongs to both sides, and the ability
        catalog is the fixed one. */
    ghost predicate Valid()
      reads playerField, enemyField, playerShips, enemyShips, abilities`catalog
      reads playerField.Ships, enemyField.Ships
    {
      Sides(playerField, playerShips, enemyField, enemyShips) && abilities.catalog == Catalog
    }

    /** Game(): two empty 10 x 10 fields, two pools of free ships of sizes
        2 and 1, an ability manager holding one granted ability, round 0,
        the player to move and no action taken. */
    constructor (abilityRoll: nat)
      ensures Valid()
      ensures fresh(playerField) && fresh(enemyField) && fresh(playerShips) && fresh(enemyShips) && fresh(abilities)
      ensures playerField.width == playerField.height == enemyField.width == enemyField.height == FieldSize
      ensures forall c :: playerField.InField(c) ==> playerField.At(c) == DefaultCell && enemyField.At(c) == DefaultCell
      ensures Lengths(playerShips.free) == Lengths(enemyShips.free) == [2, 1]
      ensures playerShips.active == enemyShips.active == []
      ensures abilities.queue == [Pick(Catalog, abilityRoll)]
      ensures roundCounter == 0 && isPlayerStep && !isPlayerUseAbility && !isPlayerDoAttack
    {
      var pf, pm := NewSide([2, 1]);
      var ef, em := NewSide([2, 1]);
      playerField, playerShips, enemyField, enemyShips := pf, pm, ef, em;
      abilities := new AbilityManager(abilityRoll);
      roundCounter := 0;
      isPlayerStep := true;
      isPlayerUseAbility := false;
      isPlayerDoAttack := false;
    }

    /** The reconstruction constructor: stores exactly what it is given. */
    constructor Of(playerField: GameField, enemyField: GameField, playerShips: ShipManager,
                   enemyShips: ShipManager, abilities: AbilityManager, roundCounter: int,
                   isPlayerStep: bool, isPlayerUseAbility: bool, isPlayerDoAttack: bool)
      ensures this.playerField == playerField && this.enemyField == enemyField
      ensures this.playerShips == playerShips && this.enemyShips == enemyShips
      ensures this.abilities == abilities && this.roundCounter == roundCounter
      ensures this.isPlayerStep == isPlayerStep && this.isPlayerUseAbility == isPlayerUseAbility
      ensures this.isPlayerDoAttack == isPlayerDoAttack
    {
      this.playerField := playerField;
      this.enemyField := enemyField;
      this.playerShips := playerShips;
      this.enemyShips := enemyShips;
      this.abilities := abilities;
      this.roundCounter := roundCounter;
      this.isPlayerStep := isPlayerStep;
      this.isPlayerUseAbility := isPlayerUseAbility;
      this.isPlayerDoAttack := isPlayerDoAttack;
    }

    /** The objects that stand for the game's value members. */
    function Members(): set<object> {
      {playerField, enemyField, playerShips, enemyShips, abilities}
    }

    /** The copy assignment `*this = other`: every member of `other` is
        copied into the matching member, and the counter and flags are
        taken over. The two games share no member object. */
    method Assign(other: Game)
      requires playerField != enemyField && playerShips != enemyShips
      requires Members() !! other.Members()
      modifies this`roundCounter, this`isPlayerStep, this`isPlayerUseAbility, this`isPlayerDoAttack
      modifies playerField, enemyField, playerShips, enemyShips, abilities
      ensures Copies(this, other)
    {
      playerField.Assign(other.playerField);
      enemyField.Assign(other.enemyField);
      playerShips.Assign(other.playerShips);
      enemyShips.Assign(other.enemyShips);
      abilities.Assign(other.abilities);
      roundCounter, isPlayerStep := other.roundCounter, other.isPlayerStep;
      isPlayerUseAbility, isPlayerDoAttack := other.isPlayerUseAbility, other.isPlayerDoAttack;
    }

    /** initializeGame: round 0, both field members reassigned to fresh
        10 x 10 fields and both pool members to fresh pools of sizes 2 and
        1, then the fixed layout: the player's ships at (2,1) and (3,4),
        both horizontal, the bot's at (6,3) horizontal and (7,7) vertical.
        Every placement succeeds (so the try blocks around them never
        catch), and each side ends with two alive active ships and no free
        one. The ability queue and the turn flags are kept. The members are
        distinct objects, as the source's value members are. */
    method InitializeGame()
      requires playerField != enemyField && playerShips != enemyShips && abilities.catalog == Catalog
      modifies this`roundCounter, playerField, playerShips, enemyField, enemyShips
      ensures Valid() && roundCounter == 0
      ensures Deployed(playerField, playerShips, PlayerLayout)
      ensures Deployed(enemyField, enemyShips, BotLayout)
    {
      roundCounter := 0;
      Deploy(playerField, playerShips, PlayerLayout);
      Deploy(enemyField, enemyShips, BotLayout);
      FixedLayouts();
    }

    /** resetEnemy: the bot side alone is reassigned to a fresh 10 x 10
        field and fresh ships of sizes 2, 3 and 1 at (6,0) horizontal, (2,4)
        horizontal and (7,9) vertical; all three placements succeed, so the
        bot has three alive active ships. The player side is untouched. */
    method ResetEnemy()
      requires Valid()
      modifies enemyField, enemyShips
      ensures Valid() && Deployed(enemyField, enemyShips, ResetLayout)
    {
      Deploy(enemyField, enemyShips, ResetLayout);
      FixedLayouts();
    }

    /** Sets the round counter and the three turn flags at once. */
    method SetFlags(rc: int, step: bool, use: bool, attack: bool)
      requires Valid()
      modifies this`roundCounter, this`isPlayerStep, this`isPlayerUseAbility, this`isPlayerDoAttack
      ensures Valid()
      ensures roundCounter == rc && isPlayerStep == step && isPlayerUseAbility == use && isPlayerDoAttack == attack
    {
      roundCounter := rc;
      isPlayerStep := step;
      isPlayerUseAbility := use;
      isPlayerDoAttack := attack;
    }

    /** The end of enemyTurn: the step passes back to the player and
        isPlayerDoAttack is cleared. */
    method PassStep()
      requires Valid()
      modifies this`isPlayerStep, this`isPlayerDoAttack
      ensures Valid() && isPlayerStep && !isPlayerDoAttack
    {
      isPlayerStep, isPlayerDoAttack := true, false;
    }

    /** playerTurn, without the load and save offers: the round counter
        grows by one and the ability step and the attack run on the bot's
        side; then, if alive enemy ships dropped below `enemyShipCount`, one
        ability is granted per ship lost and the count is lowered, and the
        step passes to the bot. isPlayerUseAbility ends set only when an
        ability completed and no ship was lost, isPlayerDoAttack when the
        attack landed. A DoubleDamage aimed outside the field throws a
        runtime_error that the turn does not catch: the turn ends there with
        that error, the player still to move and both action flags clear.
        The bot's grid ends as TurnGrid says; when no ability acted, an
        attack inside the field lands as attackCell says and one outside it
        changes no cell.
        The flags are set once, from what the steps report: no step reads
        them, so their values in between are not observable. */
    method PlayerTurn(input: TurnInput, enemyShipCount: int) returns (r: Outcome, count: int)
      requires Valid()
      modifies this`roundCounter, this`isPlayerStep, this`isPlayerUseAbility, this`isPlayerDoAttack
      modifies abilities`queue, enemyField`field, enemyField.Ships
      ensures Valid() && roundCounter == old(roundCounter) + 1
      ensures CountAlive(enemyShips.active) <= old(CountAlive(enemyShips.active))
      ensures CountAlive(playerShips.active) == old(CountAlive(playerShips.active))
      ensures r.Fail? <==> old(AbilityThrows(abilities.queue, input, enemyField))
      ensures r.Fail? ==> && r.error == OutOfFieldAttack && count == enemyShipCount
                          && isPlayerStep && !isPlayerUseAbility && !isPlayerDoAttack
                          && abilities.queue == old(abilities.queue)[1..]
                          && enemyField.field == old(enemyField.field)
      ensures r.Pass? ==> !isPlayerStep && (isPlayerDoAttack <==> enemyField.InField(input.attackTarget))
      ensures r.Pass? ==> count == Lowered(enemyShipCount, CountAlive(enemyShips.active))
      ensures r.Pass? ==> abilities.queue == AfterUse(old(abilities.queue), input.useAbility)
                                             + Granted(input.grantRolls, enemyShipCount - count)
      ensures r.Pass? ==> (isPlayerUseAbility <==> input.useAbility && old(abilities.queue) != [] && count == enemyShipCount)
      ensures r.Pass? && enemyField.InField(input.attackTarget) ==> Revealed(enemyField, input.attackTarget)
      ensures r.Pass? ==> enemyField.field == TurnGrid(old(abilities.queue), input, old(enemyField.field))
      ensures r.Pass? && !input.useAbility && !enemyField.InField(input.attackTarget) ==>
                enemyField.field == old(enemyField.field)
      ensures r.Pass? && !(input.useAbility && old(abilities.queue) != []) && enemyField.InField(input.attackTarget) ==>
                Struck(enemyField, input.attackTarget)
    {
      var used, attacked;
      r, used, attacked, count := PlayerMoves(abilities, enemyField, enemyShips, playerField, playerShips,
                                              input, enemyShipCount);
      SetFlags(roundCounter + 1, r.Fail?, used && count == enemyShipCount, attacked);
    }

    /** enemyTurn: the bot attacks the player's field at (rollX % width,
        rollY % height), which always lies inside the field, so its first
        attack lands as attackCell says. The player's count drops to the
        alive count when that is lower, and the step passes back to the
        player with isPlayerDoAttack cleared. */
    method EnemyTurn(rollX: nat, rollY: nat, playerShipCount: int) returns (count: int)
      requires Valid()
      modifies this`isPlayerStep, this`isPlayerDoAttack, playerField`field, playerField.Ships
      ensures Valid() && isPlayerStep && !isPlayerDoAttack
      ensures Struck(playerField, Coords(rollX % playerField.width, rollY % playerField.height))
      ensures CountAlive(playerShips.active) <= old(CountAlive(playerShips.active))
      ensures CountAlive(enemyShips.active) == old(CountAlive(enemyShips.active))
      ensures count == Lowered(playerShipCount, CountAlive(playerShips.active))
    {
      var x := rollX % playerField.width;
      var y := rollY % playerField.height;
      var r := AttackStep(playerField, playerShips, enemyField, enemyShips, Coords(x, y));
      PassStep();
      count := playerShipCount;
      var alive := CountAlive(playerShips.active);
      if playerShipCount > alive {
        count := alive;
      }
    }

    /** One pass of playRound's loop: the player's half, then, unless it
        ended the round, the bot's half. */
    method Exchange(input: TurnInput, playerShipCount: int, enemyShipCount: int)
        returns (outcome: Option<RoundOutcome>, pc: int, ec: int)
      requires Valid()
      requires playerShipCount == CountAlive(playerShips.active) && enemyShipCount == CountAlive(enemyShips.active)
      modifies this`roundCounter, this`isPlayerStep, this`isPlayerUseAbility, this`isPlayerDoAttack
      modifies abilities`queue, playerField`field, playerField.Ships, enemyField`field, enemyField.Ships
      ensures Valid() && roundCounter == old(roundCounter) + 1
      ensures CountAlive(playerShips.active) <= playerShipCount && CountAlive(enemyShips.active) <= enemyShipCount
      ensures !(outcome.Some? && outcome.value.Aborted?) ==> pc == CountAlive(playerShips.active) && ec == CountAlive(enemyShips.active)
      ensures outcome == Some(PlayerWon) ==> ec == 0 && !isPlayerStep
      ensures outcome == Some(PlayerLost) ==> pc == 0 && ec > 0 && isPlayerStep
      ensures outcome.Some? && outcome.value.Aborted? ==> outcome.value.error == OutOfFieldAttack
      ensures outcome.Some? ==> !outcome.value.OutOfTurns?
      ensures outcome.None? ==> pc > 0 && ec > 0
    {
      pc := playerShipCount;
      outcome, ec := PlayerHalf(input, enemyShipCount);
      if outcome.Some? {
        return;
      }
      outcome, pc := BotHalf(input, playerShipCount);
    }

    /** The first half of a pass: playerTurn, then the win test on the
        enemy's alive count; an uncaught exception ends the round. */
    method PlayerHalf(input: TurnInput, enemyShipCount: int) returns (outcome: Option<RoundOutcome>, ec: int)
      requires Valid() && enemyShipCount == CountAlive(enemyShips.active)
      modifies this`roundCounter, this`isPlayerStep, this`isPlayerUseAbility, this`isPlayerDoAttack
      modifies abilities`queue, enemyField`field, enemyField.Ships
      ensures Valid() && roundCounter == old(roundCounter) + 1
      ensures CountAlive(playerShips.active) == old(CountAlive(playerShips.active))
      ensures CountAlive(enemyShips.active) <= enemyShipCount
      ensures outcome.Some? ==> outcome == Some(PlayerWon) || outcome == Some(Aborted(OutOfFieldAttack))
      ensures outcome == Some(PlayerWon) ==> ec == 0 && CountAlive(enemyShips.active) == 0 && !isPlayerStep
      ensures outcome.None? ==> ec == CountAlive(enemyShips.active) > 0
    {
      var r;
      r, ec := PlayerTurn(input, enemyShipCount);
      if r.Fail? {
        return Some(Aborted(r.error)), ec;
      }
      outcome := if ec == 0 then Some(PlayerWon) else None;
    }

    /** The second half of a pass: enemyTurn, then the loss test on the
        player's alive count. */
    method BotHalf(input: TurnInput, playerShipCount: int) returns (outcome: Option<RoundOutcome>, pc: int)
      requires Valid() && playerShipCount == CountAlive(playerShips.active)
      modifies this`isPlayerStep, this`isPlayerDoAttack, playerField`field, playerField.Ships
      ensures Valid() && isPlayerStep
      ensures CountAlive(enemyShips.active) == old(CountAlive(enemyShips.active))
      ensures pc == CountAlive(playerShips.active) <= playerShipCount
      ensures outcome.Some? ==> outcome == Some(PlayerLost)
      ensures outcome.Some? <==> pc == 0
    {
      pc := EnemyTurn(input.botRollX, input.botRollY, playerShipCount);
      outcome := if pc == 0 then Some(PlayerLost) else None;
    }

    method PlayRound(inputs: seq<TurnInput>) returns (outcome: RoundOutcome, turns: nat)
      requires Valid()
      modifies this`roundCounter, this`isPlayerStep, this`isPlayerUseAbility, this`isPlayerDoAttack
      modifies abilities`queue, playerField`field, playerField.Ships, enemyField`field, enemyField.Ships
      ensures Valid() && turns <= |inputs| && roundCounter == old(roundCounter) + turns
      ensures CountAlive(playerShips.active) <= old(CountAlive(playerShips.active))
      ensures CountAlive(enemyShips.active) <= old(CountAlive(enemyShips.active))
      ensures outcome == PlayerWon ==> turns > 0 && CountAlive(enemyShips.active) == 0 && !isPlayerStep
      ensures outcome == PlayerLost ==> && turns > 0 && CountAlive(playerShips.active) == 0
                                        && CountAlive(enemyShips.active) > 0 && isPlayerStep
      ensures outcome == OutOfTurns ==>
                && turns == |inputs|
                && (turns > 0 ==> CountAlive(playerShips.active) > 0 && CountAlive(enemyShips.active) > 0)
      ensures outcome.Aborted? ==> turns > 0 && outcome.error == OutOfFieldAttack
    {
      var playerShipCount := playerShips.GetAliveShipsNumber();
      var enemyShipCount := enemyShips.GetAliveShipsNumber();
      turns := 0;
      while turns < |inputs|
        invariant Valid() && 0 <= turns <= |inputs| && roundCounter == old(roundCounter) + turns
        invariant playerShipCount == CountAlive(playerShips.active) <= old(CountAlive(playerShips.active))
        invariant enemyShipCount == CountAlive(enemyShips.active) <= old(CountAlive(enemyShips.active))
        invariant turns > 0 ==> playerShipCount > 0 && enemyShipCount > 0
      {
        var o;
        o, playerShipCount, enemyShipCount := Exchange(inputs[turns], playerShipCount, enemyShipCount);
        turns := turns + 1;
        if o.Some? {
          return o.value, turns;
        }
      }
      return OutOfTurns, turns;
    }
  }

  /** Length, origin and orientation of each ship, in order. */
  ghost function Layout(ships: seq<Ship>): (r: seq<Placement>)
    reads ships
    ensures |r| == |ships|
  {
    if |ships| == 0 then []
    else
      var last := ships[|ships| - 1];
      Layout(ships[..|ships| - 1]) + [Placement(last.length, last.topLeft, last.orientation)]
  }

  /** Entry k of the layout describes ship k. */
  lemma {:induction false} LayoutAt(ships: seq<Ship>)
    ensures forall k :: 0 <= k < |ships| ==>
              Layout(ships)[k] == Placement(ships[k].length, ships[k].topLeft, ships[k].orientation)
  {
    if |ships| > 0 {
      LayoutAt(ships[..|ships| - 1]);
    }
  }

  /** A ship's length, origin and orientation. */
  datatype Placement = Placement(length: int, topLeft: Coords, orientation: Orientation)

  /** The fixed layouts of initializeGame and resetEnemy. */
  const PlayerLayout: seq<Placement> := [Placement(2, Coords(2, 1), Horizontal), Placement(1, Coords(3, 4), Horizontal)]
  const BotLayout: seq<Placement> := [Placement(2, Coords(6, 3), Horizontal), Placement(1, Coords(7, 7), Vertical)]
  const ResetLayout: seq<Placement> :=
    [Placement(2, Coords(6, 0), Horizontal), Placement(3, Coords(2, 4), Horizontal), Placement(1, Coords(7, 9), Vertical)]

  /** Every ship of `plan` would land on free cells of `field`. */
  ghost predicate Clear(field: GameField, plan: seq<Placement>)
    reads field
    requires field.Valid()
  {
    forall k :: 0 <= k < |plan| ==> field.CanPlace(plan[k].topLeft, plan[k].orientation, plan[k].length)
  }

  /** No ship of `plan` has a cell in the band of a ship placed before it. */
  predicate Spread(plan: seq<Placement>) {
    forall j, k, i :: 0 <= j < k < |plan| && 0 <= i < plan[k].length ==>
      !InBand(plan[j].topLeft, plan[j].orientation, plan[j].length, AxisCell(plan[k].topLeft, plan[k].orientation, i))
  }

  /** The free pool holds, in order, ships of the lengths `plan` places. */
  ghost predicate Awaiting(manager: ShipManager, plan: seq<Placement>)
    reads manager, manager.free
  {
    |manager.free| == |plan| && forall k :: 0 <= k < |plan| ==> manager.free[k].length == plan[k].length
  }

  /** Every cell of every ship of `plan` lies in a `width` x `height` field. */
  predicate Inside(plan: seq<Placement>, width: int, height: int) {
    forall k, i :: 0 <= k < |plan| && 0 <= i < plan[k].length ==>
      var c := AxisCell(plan[k].topLeft, plan[k].orientation, i);
      0 <= c.x < width && 0 <= c.y < height
  }

  /** The ships of `plan` can be placed on an empty `width` x `height` field
      one after the other: each lies inside the field and off the bands of
      the ships before it. */
  predicate Legal(plan: seq<Placement>, width: int, height: int) {
    Spread(plan) && Inside(plan, width, height)
  }

  /** The fixed layouts fit a 10 x 10 field and keep every ship off the
      bands of the ships placed before it. */
  lemma FixedLayouts()
    ensures Spread(PlayerLayout) && Inside(PlayerLayout, FieldSize, FieldSize)
    ensures Spread(BotLayout) && Inside(BotLayout, FieldSize, FieldSize)
    ensures Spread(ResetLayout) && Inside(ResetLayout, FieldSize, FieldSize)
  {
  }

  /** On a field whose every cell is free, any plan that lies inside the
      field fits. */
  lemma ClearWhenAllFree(field: GameField, plan: seq<Placement>)
    requires field.Valid() && forall c :: field.InField(c) ==> field.Free(c)
    requires Inside(plan, field.width, field.height)
    ensures Clear(field, plan)
  {
  }

  /** A side set up with `layout`: a 10 x 10 field, no free ship, and the
      active ships laid out as given, every one of them alive. */
  ghost predicate Deployed(field: GameField, manager: ShipManager, layout: seq<Placement>)
    reads field, field.Ships, manager
  {
    && field.width == field.height == FieldSize
    && field.Ships == ActiveSet(manager) && manager.free == []
    && Layout(manager.active) == layout && CountAlive(manager.active) == |layout|
  }

  /** A side being set up: valid, its ships well formed and each in one
      pool once, and the free ships without segments yet. */
  ghost predicate Building(field: GameField, manager: ShipManager)
    reads field, field.Ships, manager, manager.Fleet()
  {
    && SideValid(field, manager) && manager.Valid()
    && forall s :: s in manager.free ==> s.segments == []
  }

  /** A fresh empty 10 x 10 field and a fresh pool holding one unplaced
      ship per size, in order. */
  method NewSide(sizes: seq<int>) returns (field: GameField, manager: ShipManager)
    requires forall i :: 0 <= i < |sizes| ==> ValidLength(sizes[i])
    ensures fresh(field) && fresh(manager) && fresh(manager.Fleet())
    ensures Building(field, manager) && field.width == field.height == FieldSize
    ensures forall c :: field.InField(c) ==> field.At(c) == DefaultCell && field.Free(c)
    ensures manager.active == [] && |manager.free| == |sizes|
    ensures forall i :: 0 <= i < |sizes| ==> manager.free[i].length == sizes[i]
  {
    var f := GameField.New(FieldSize, FieldSize);
    var m := ShipManager.New(sizes);
    field, manager := f.value, m.value;
    forall s | s in manager.free ensures s.segments == [] {
      var k :| 0 <= k < |manager.free| && manager.free[k] == s;
    }
  }

  /** Appending the head and then the tail appends the whole plan. */
  lemma SeqShift(a: seq<Placement>, plan: seq<Placement>)
    requires |plan| > 0
    ensures a + [plan[0]] + plan[1..] == a + plan
  {
  }

  /** Places the ships of a plan that fits one after the other, each
      with a placement step; the free pool ends empty. */
  method PlaceAll(field: GameField, manager: ShipManager, plan: seq<Placement>)
    requires Building(field, manager) && Awaiting(manager, plan)
    requires Clear(field, plan) && Spread(plan)
    modifies field`field, field`Ships, manager, manager.Fleet()
    ensures Building(field, manager) && manager.Fleet() == old(manager.Fleet()) && manager.free == []
    ensures Layout(manager.active) == old(Layout(manager.active)) + plan
    ensures CountAlive(manager.active) == old(CountAlive(manager.active)) + |plan|
    decreases |plan|
  {
    if |plan| > 0 {
      ghost var before := Layout(manager.active);
      PlaceLegal(field, manager, plan);
      PlaceAll(field, manager, plan[1..]);
      SeqShift(before, plan);
    }
  }

  /** A placement step of a plan whose ships all fit: free ship 0 lands
      unhit as `plan[0]` says and becomes the last active ship, and the
      rest of the plan still fits the changed field. */
  method PlaceLegal(field: GameField, manager: ShipManager, plan: seq<Placement>)
    requires Building(field, manager) && |plan| > 0 && Awaiting(manager, plan)
    requires Clear(field, plan) && Spread(plan)
    modifies field`field, field`Ships, manager, manager.Fleet()
    ensures Building(field, manager) && manager.Fleet() == old(manager.Fleet())
    ensures Awaiting(manager, plan[1..]) && Clear(field, plan[1..]) && Spread(plan[1..])
    ensures Layout(manager.active) == old(Layout(manager.active)) + [plan[0]]
    ensures CountAlive(manager.active) == old(CountAlive(manager.active)) + 1
  {
    assert field.CanPlace(plan[0].topLeft, plan[0].orientation, plan[0].length);
    PlaceFree(field, manager, plan[0]);
    forall k | 1 <= k < |plan|
      ensures field.CanPlace(plan[k].topLeft, plan[k].orientation, plan[k].length)
    {
      forall i | 0 <= i < plan[k].length
        ensures field.Free(AxisCell(plan[k].topLeft, plan[k].orientation, i))
      {
        assert old(field.Free(AxisCell(plan[k].topLeft, plan[k].orientation, i)));
      }
    }
  }

  /** A placement step whose cells are known to be free: free ship 0 lands
      unhit as `p` says and becomes the last active ship, the other ships
      keep their state and no free cell outside the new ship's band
      changes. */
  method PlaceFree(field: GameField, manager: ShipManager, p: Placement)
    requires Building(field, manager)
    requires |manager.free| > 0 && manager.free[0].length == p.length
    requires field.CanPlace(p.topLeft, p.orientation, p.length)
    modifies field`field, field`Ships, manager, manager.Fleet()
    ensures Building(field, manager) && manager.Fleet() == old(manager.Fleet())
    ensures manager.free == old(manager.free[1..])
    ensures forall i :: 0 <= i < |manager.free| ==> unchanged(manager.free[i])
    ensures Layout(manager.active) == old(Layout(manager.active)) + [p]
    ensures CountAlive(manager.active) == old(CountAlive(manager.active)) + 1
    ensures forall c :: old(field.Free(c)) && !InBand(p.topLeft, p.orientation, p.length, c) ==> field.Free(c)
  {
    ghost var ship := manager.free[0];
    ghost var all := manager.free + manager.active;
    assert ship.Valid();
    forall i | 0 <= i < |manager.active| ensures manager.active[i] != ship {
      assert all[|manager.free| + i] == manager.active[i] && all[0] == ship;
    }
    forall i | 1 <= i < |manager.free| ensures manager.free[i] != ship {
      assert all[i] == manager.free[i] && all[0] == ship;
    }
    var placed := PlaceAndActivate(field, manager, p.topLeft, p.orientation);
    assert ship.Placed() && ship.segments[0].status == Intact;
    assert manager.active[..|manager.active| - 1] == old(manager.active);
  }

  /** The ship lengths a layout asks for, in order. */
  function Sizes(layout: seq<Placement>): (sizes: seq<int>)
    ensures |sizes| == |layout| && forall i :: 0 <= i < |layout| ==> sizes[i] == layout[i].length
  {
    if layout == [] then [] else Sizes(layout[..|layout| - 1]) + [layout[|layout| - 1].length]
  }

  /** One side's part of initializeGame and resetEnemy: the field member
      becomes a fresh empty 10 x 10 field and the pool member a fresh pool
      of unplaced ships of the lengths the layout asks for; then each free
      ship in turn is placed as the layout says and moved to the active
      pool. Every placement succeeds. */
  method Deploy(field: GameField, manager: ShipManager, layout: seq<Placement>)
    requires layout == PlayerLayout || layout == BotLayout || layout == ResetLayout
    modifies field, manager
    ensures fresh(field.Ships)
    ensures SideValid(field, manager) && Deployed(field, manager, layout)
  {
    Restock(field, manager, layout);
    PlaceAll(field, manager, layout);
  }

  /** The reassignments of Deploy: an empty 10 x 10 field, and a pool of
      fresh unplaced ships that the layout fits. */
  method Restock(field: GameField, manager: ShipManager, layout: seq<Placement>)
    requires layout == PlayerLayout || layout == BotLayout || layout == ResetLayout
    modifies field, manager
    ensures fresh(manager.Fleet()) && Building(field, manager) && Awaiting(manager, layout)
    ensures Clear(field, layout) && Spread(layout)
    ensures field.width == field.height == FieldSize && manager.active == []
  {
    RestockField(field);
    RestockPool(manager, Sizes(layout));
    FixedLayouts();
    ClearWhenAllFree(field, layout);
  }

  /** `field = GameField(10, 10)`: the field member becomes an empty
      10 x 10 field. */
  method RestockField(field: GameField)
    modifies field
    ensures field.Linked() && field.Ships == {} && field.width == field.height == FieldSize
    ensures forall c :: field.InField(c) ==> field.Free(c)
  {
    var blank := GameField.New(FieldSize, FieldSize);
    field.Assign(blank.value);
  }

  /** `manager = ShipManager(sizes)`: the pool member holds fresh unplaced
      free ships of the given sizes, in order, and no active ship. */
  method RestockPool(manager: ShipManager, sizes: seq<int>)
    requires forall i :: 0 <= i < |sizes| ==> ValidLength(sizes[i])
    modifies manager
    ensures fresh(manager.Fleet()) && manager.Valid() && manager.active == []
    ensures |manager.free| == |sizes| && forall i :: 0 <= i < |sizes| ==> manager.free[i].length == sizes[i]
    ensures forall s :: s in manager.free ==> s.segments == []
  {
    var pool := ShipManager.New(sizes);
    manager.Assign(pool.value);
    forall s | s in manager.free ensures s.segments == [] {
      var k :| 0 <= k < |manager.free| && manager.free[k] == s;
    }
  }

  /** One placement step of initializeGame and resetEnemy: take free ship 0,
      place it on the field at `tl`, then move it to the active pool. With
      no free ship getFreeShip throws out_of_range; a failed placement
      throws out_of_range and changes nothing. */
  method PlaceAndActivate(field: GameField, manager: ShipManager, tl: Coords, o: Orientation) returns (r: Outcome)
    requires field.Linked() && manager.Valid() && field.Ships == ActiveSet(manager)
    requires forall s :: s in manager.free ==> s.segments == []
    modifies field`field, field`Ships, manager, manager.Fleet()
    ensures field.Linked() && manager.Valid() && field.Ships == ActiveSet(manager)
    ensures manager.Fleet() == old(manager.Fleet())
    ensures forall s :: s in manager.free ==> s.segments == []
    ensures r.Pass? <==> old(|manager.free| > 0 && field.CanPlace(tl, o, manager.free[0].length))
    ensures r.Fail? ==> r.error == OutOfRange && field.field == old(field.field) &&
                        manager.free == old(manager.free) && manager.active == old(manager.active)
    ensures r.Fail? ==> forall s :: s in old(manager.Fleet()) ==> unchanged(s)
    ensures r.Pass? ==> manager.active == old(manager.active) + [old(manager.free[0])]
    ensures r.Pass? ==> manager.free == old(manager.free[1..])
    ensures r.Pass? ==> forall s :: s in old(manager.Fleet()) && s != old(manager.free[0]) ==> unchanged(s)
    ensures r.Pass? ==> var ship := old(manager.free[0]);
              && ship.length == old(manager.free[0].length)
              && ship.Placed() && ship.orientation == o && ship.topLeft == tl
              && (forall i :: 0 <= i < ship.length ==> ship.segments[i].status == Intact)
              && forall y, x :: 0 <= y < field.height && 0 <= x < field.width ==>
                   field.field[y][x] == PlacedCell(old(field.field[y][x]), ship, tl, o, ship.length, Coords(x, y))
  {
    var free := manager.GetFreeShip(0);
    if free.Err? {
      return Fail(free.error);
    }
    var ship := free.value;
    assert ship in manager.Fleet();
    forall i | 1 <= i < |manager.free| ensures manager.free[i] != ship {
      assert (manager.free + manager.active)[i] == manager.free[i];
      assert (manager.free + manager.active)[0] == ship;
    }
    r := field.PlaceShip(ship, tl, o);
    if r.Fail? {
      return;
    }
    Activate(field, manager);
  }

  /** The end of a placement step: free ship 0, now on the field, moves to
      the back of the active pool. */
  method Activate(field: GameField, manager: ShipManager)
    requires manager.Valid() && |manager.free| > 0
    requires field.Ships == ActiveSet(manager) + {manager.free[0]}
    requires forall i :: 1 <= i < |manager.free| ==> manager.free[i].segments == []
    modifies manager
    ensures manager.Valid() && manager.Fleet() == old(manager.Fleet()) && field.Ships == ActiveSet(manager)
    ensures manager.active == old(manager.active) + [old(manager.free[0])]
    ensures manager.free == old(manager.free[1..])
    ensures forall s :: s in manager.free ==> s.segments == []
  {
    var moved := manager.MoveShipToActive(0);
    assert manager.free == old(manager.free[1..]);
    forall s | s in manager.free ensures s.segments == [] {
      var k :| 0 <= k < |manager.free| && manager.free[k] == s;
      assert s == old(manager.free[k + 1]);
    }
  }

  /** The attacked cell now shows what it holds: ShipHit when a ship
      occupies it, Empty otherwise. */
  predicate Revealed(field: GameField, c: Coords)
    reads field
    requires field.Valid() && field.InField(c)
  {
    field.At(c).status == if field.At(c).shipHere then ShipHit else Empty
  }

  /** The moves of playerTurn on the bot's side (field, manager), the
      player's side (otherField, otherManager) looking on: the ability step,
      the attack, and the grants for the ships lost. `used` says whether an
      ability completed and `attacked` whether the attack landed. The bot's
      grid ends as TurnGrid says, and when no ability acted the attack
      lands as attackCell says. The player's side does not change, and the
      bot's alive count does not grow. */
  method PlayerMoves(am: AbilityManager, field: GameField, manager: ShipManager,
                     otherField: GameField, otherManager: ShipManager, input: TurnInput, enemyShipCount: int)
      returns (r: Outcome, used: bool, attacked: bool, count: int)
    requires Sides(field, manager, otherField, otherManager) && am.catalog == Catalog
    modifies am`queue, field`field, field.Ships
    ensures Sides(field, manager, otherField, otherManager)
    ensures CountAlive(manager.active) <= old(CountAlive(manager.active))
    ensures CountAlive(otherManager.active) == old(CountAlive(otherManager.active))
    ensures r.Fail? <==> old(AbilityThrows(am.queue, input, field))
    ensures r.Fail? ==> && r.error == OutOfFieldAttack && count == enemyShipCount && !used && !attacked
                        && am.queue == old(am.queue)[1..] && field.field == old(field.field)
    ensures used <==> r.Pass? && input.useAbility && old(am.queue) != []
    ensures r.Pass? ==> (attacked <==> field.InField(input.attackTarget))
    ensures r.Pass? ==> count == Lowered(enemyShipCount, CountAlive(manager.active))
    ensures r.Pass? ==> am.queue == AfterUse(old(am.queue), input.useAbility)
                                    + Granted(input.grantRolls, enemyShipCount - count)
    ensures r.Pass? && attacked ==> Revealed(field, input.attackTarget)
    ensures r.Pass? ==> field.field == TurnGrid(old(am.queue), input, old(field.field))
    ensures r.Pass? && !(input.useAbility && old(am.queue) != []) && attacked ==> Struck(field, input.attackTarget)
    ensures Layout(manager.active) == old(Layout(manager.active))
  {
    count, attacked := enemyShipCount, false;
    var found;
    r, used, found := AbilityStep(am, field, manager, otherField, otherManager, input);
    if r.Fail? {
      return;
    }
    attacked, count := AttackAndReward(am, field, manager, otherField, otherManager, input, enemyShipCount);
  }

  /** The attack of playerTurn and the grants that follow it: the attack
      lands as attackCell says, or, outside the field, fails and changes no
      cell; then one ability is granted per ship lost. */
  method AttackAndReward(am: AbilityManager, field: GameField, manager: ShipManager,
                         otherField: GameField, otherManager: ShipManager, input: TurnInput, enemyShipCount: int)
      returns (attacked: bool, count: int)
    requires Sides(field, manager, otherField, otherManager) && am.catalog == Catalog
    modifies am`queue, field`field, field.Ships
    ensures Sides(field, manager, otherField, otherManager)
    ensures CountAlive(manager.active) <= old(CountAlive(manager.active))
    ensures CountAlive(otherManager.active) == old(CountAlive(otherManager.active))
    ensures attacked <==> field.InField(input.attackTarget)
    ensures count == Lowered(enemyShipCount, CountAlive(manager.active))
    ensures am.queue == old(am.queue) + Granted(input.grantRolls, enemyShipCount - count)
    ensures attacked ==> Revealed(field, input.attackTarget) && Struck(field, input.attackTarget)
    ensures field.field == AttackedGrid(old(field.field), input.attackTarget)
    ensures Layout(manager.active) == old(Layout(manager.active))
  {
    var hit := AttackStep(field, manager, otherField, otherManager, input.attackTarget);
    attacked := hit.Pass?;
    count := Reward(am, CountAlive(manager.active), enemyShipCount, input.grantRolls);
  }

  /** The end of playerTurn: one ability per ship lost, and the lowered count. */
  method Reward(am: AbilityManager, alive: int, enemyShipCount: int, rolls: nat -> nat) returns (count: int)
    requires am.catalog == Catalog
    modifies am`queue
    ensures count == Lowered(enemyShipCount, alive)
    ensures am.queue == old(am.queue) + Granted(rolls, enemyShipCount - count)
  {
    count := enemyShipCount;
    if enemyShipCount > alive {
      GrantAbilities(am, enemyShipCount - alive, rolls);
      count := alive;
    } else {
      assert am.queue + Granted(rolls, 0) == am.queue;
    }
  }

  /** The ability step of playerTurn on the bot's side: when asked for,
      applyAbility runs and the front ability acts as Applied says.
      NoAvailableAbilities is caught, so the step passes without using or
      changing anything; a DoubleDamage outside the field throws past the
      turn. `used` says whether an ability completed and `found` is what a
      scanner reported. The side stays valid, its alive count does not
      grow, and the other side does not change. */
  method AbilityStep(am: AbilityManager, field: GameField, manager: ShipManager,
                     otherField: GameField, otherManager: ShipManager, input: TurnInput)
      returns (r: Outcome, used: bool, found: seq<Coords>)
    requires Sides(field, manager, otherField, otherManager)
    modifies am`queue, field`field, field.Ships
    ensures Sides(field, manager, otherField, otherManager)
    ensures CountAlive(manager.active) <= old(CountAlive(manager.active))
    ensures CountAlive(otherManager.active) == old(CountAlive(otherManager.active))
    ensures am.queue == AfterUse(old(am.queue), input.useAbility)
    ensures r.Fail? <==> old(AbilityThrows(am.queue, input, field))
    ensures r.Fail? ==> r.error == OutOfFieldAttack && field.field == old(field.field)
    ensures used <==> r.Pass? && input.useAbility && old(am.queue) != []
    ensures input.useAbility && old(am.queue) != [] ==>
              Applied(old(am.queue)[0], field, manager, input.abilityTarget, input.shipRoll, input.segmentRolls, r, found)
    ensures !(input.useAbility && old(am.queue) != []) ==>
              r == Pass && unchanged(field) && unchanged(old(field.Ships))
    ensures r.Pass? ==> field.field == AbilityGrid(old(am.queue), input, old(field.field))
    ensures Layout(manager.active) == old(Layout(manager.active))
  {
    r, used, found := Pass, false, [];
    if input.useAbility {
      ghost var alive := AliveSet(manager.active);
      CountAliveMarked(manager.active, alive);
      var res;
      res, found := AbilityOnSide(am, field, manager, input.abilityTarget, input.shipRoll, input.segmentRolls);
      forall i | 0 <= i < |manager.active| && manager.active[i].IsAlive() ensures manager.active[i] in alive {
        WornDownKeepsDead(old(manager.active[i].segments), manager.active[i].segments);
      }
      CountAliveBound(manager.active, alive);
      if res.Fail? && res.error == OutOfFieldAttack {
        return res, false, found;
      }
      used := res.Pass?;
    }
  }

  /** applyAbility on one side: the front ability, if any, acts on the
      side's field and ships as Applied says and leaves the queue; `found`
      is what a scanner reports. The side stays valid and its ships are at
      most worn down. An empty queue fails with NoAvailableAbilities and
      changes nothing, and only a DoubleDamage outside the field fails
      otherwise; a failure changes no cell. */
  method AbilityOnSide(am: AbilityManager, field: GameField, manager: ShipManager, c: Coords,
                       shipRoll: nat, segmentRolls: nat -> nat) returns (r: Outcome, found: seq<Coords>)
    requires SideValid(field, manager)
    modifies am`queue, field`field, field.Ships
    ensures SideValid(field, manager)
    ensures forall s :: s in old(field.Ships) ==> s.Worn()
    ensures am.queue == if old(am.queue) == [] then old(am.queue) else old(am.queue[1..])
    ensures r.Fail? <==> old(am.queue == [] || (am.queue[0] == DoubleDamage && !field.InField(c)))
    ensures r.Fail? ==> field.field == old(field.field)
    ensures r.Fail? ==> r.error == if old(am.queue) == [] then NoAvailableAbilities else OutOfFieldAttack
    ensures old(am.queue) == [] ==> forall s :: s in old(field.Ships) ==> unchanged(s)
    ensures old(am.queue) != [] ==> Applied(old(am.queue)[0], field, manager, c, shipRoll, segmentRolls, r, found)
    ensures Layout(manager.active) == old(Layout(manager.active))
  {
    ghost var touched := field.RefShips(c) + BombardedShip(manager, shipRoll);
    ghost var before := Layout(manager.active);
    LayoutAt(manager.active);
    r, found := am.ApplyAbility(field, manager, c, shipRoll, segmentRolls);
    forall s | s in manager.active
      ensures s.Placed() && s.length >= 1 && s.Valid()
      ensures s.length == old(s.length) && s.topLeft == old(s.topLeft) && s.orientation == old(s.orientation)
    {
      assert old(s.Placed() && s.length >= 1 && s.Valid());
      if s in touched {
        assert s.Worn();
      }
    }
    WornLayout(manager, before);
  }

  /** One attackCell on the side (field, manager), the other side looking
      on: outside the field it fails with out_of_range and changes no cell;
      inside it lands as attackCell says, and the cell shows what it holds.
      The side stays valid, its alive count does not grow, and the other
      side does not change. */
  method AttackStep(field: GameField, manager: ShipManager, otherField: GameField, otherManager: ShipManager,
                    c: Coords) returns (r: Outcome)
    requires Sides(field, manager, otherField, otherManager)
    modifies field`field, field.Ships
    ensures Sides(field, manager, otherField, otherManager)
    ensures CountAlive(manager.active) <= old(CountAlive(manager.active))
    ensures CountAlive(otherManager.active) == old(CountAlive(otherManager.active))
    ensures r.Pass? <==> field.InField(c)
    ensures r.Pass? ==> Struck(field, c) && Revealed(field, c)
    ensures r.Fail? ==> r.error == OutOfRange && field.field == old(field.field)
    ensures Layout(manager.active) == old(Layout(manager.active))
  {
    ghost var alive := AliveSet(manager.active);
    CountAliveMarked(manager.active, alive);
    r := AttackOnSide(field, manager, c);
    forall i | 0 <= i < |manager.active| && manager.active[i].IsAlive() ensures manager.active[i] in alive {
      WornDownKeepsDead(old(manager.active[i].segments), manager.active[i].segments);
    }
    CountAliveBound(manager.active, alive);
  }

  /** Ships that kept their length, origin and orientation keep the layout
      they had. */
  lemma WornLayout(manager: ShipManager, before: seq<Placement>)
    requires |before| == |manager.active|
    requires forall k :: 0 <= k < |before| ==>
               before[k] == Placement(manager.active[k].length, manager.active[k].topLeft, manager.active[k].orientation)
    ensures Layout(manager.active) == before
  {
    LayoutAt(manager.active);
  }

  /** attackCell on a side's field, keeping the side valid. */
  method AttackOnSide(field: GameField, manager: ShipManager, c: Coords) returns (r: Outcome)
    requires SideValid(field, manager)
    modifies field`field, field.Ships
    ensures SideValid(field, manager)
    ensures forall s :: s in old(field.Ships) ==> s.Worn()
    ensures r.Pass? <==> field.InField(c)
    ensures r.Pass? ==> Struck(field, c) && Revealed(field, c)
    ensures r.Fail? ==> r.error == OutOfRange && field.field == old(field.field)
    ensures Layout(manager.active) == old(Layout(manager.active))
  {
    ghost var before := Layout(manager.active);
    LayoutAt(manager.active);
    r := field.AttackCell(c);
    WornLayout(manager, before);
  }

  /** The grant loop of playerTurn: `n` abilities join the back of the
      queue, the i-th one picked with the roll `rolls(i)`. */
  method GrantAbilities(am: AbilityManager, n: int, rolls: nat -> nat)
    requires am.catalog == Catalog && n >= 0
    modifies am`queue
    ensures am.queue == old(am.queue) + Granted(rolls, n)
  {
    var i := 0;
    while i < n
      invariant 0 <= i <= n
      invariant am.queue == old(am.queue) + Granted(rolls, i)
    {
      am.GrantRandomAbility(rolls(i));
      i := i + 1;
    }
  }
}
