/** Saving and loading a game (lb3/include/GameState.h,
    lb3/source/GameState.cpp). A saved game is a JSON document; here it is
    the Snapshot value that document holds, one field per key. Saving reads
    a game into a snapshot; loading rebuilds fields, ship pools and the
    ability queue from one, replaying the recorded damage as attacks. */
module GameStates {
  import opened Errors
  import opened Ships
  import opened Fields
  import opened ShipManagers
  import opened Abilities
  import opened AbilityManagers
  import opened Games

  // ---------------------------------------------------------------- the document

  /** One entry of "player_ship_data" or "bot_ship_data": the origin, the
      orientation code and one status code per segment. A key the entry
      lacks is None. */
  datatype ShipRecord = ShipRecord(coords: Option<Coords>, orientation: Option<Code>,
                                   segments: Option<seq<Code>>)

  /** The keys of a saved game. Field rows are indexed [y][x] and hold
      status codes. */
  datatype Snapshot = Snapshot(
    roundCounter: int, isPlayerStep: bool, isPlayerUseAbility: bool, isPlayerDoAttack: bool,
    playerFieldWidth: int, playerFieldHeight: int, playerField: seq<seq<Code>>,
    botFieldWidth: int, botFieldHeight: int, botField: seq<seq<Code>>,
    playerShipData: seq<ShipRecord>, botShipData: seq<ShipRecord>,
    playerAbilityManager: seq<string>)

  /** The entry has all three keys. */
  predicate Complete(rec: ShipRecord) {
    rec.coords.Some? && rec.orientation.Some? && rec.segments.Some?
  }

  /** A complete entry whose orientation is Horizontal or Vertical. */
  predicate Axial(rec: ShipRecord) {
    Complete(rec) && OrientationOfCode(rec.orientation.value) != Orientation.Unknown
  }

  /** The orientation a complete entry records. */
  function Facing(rec: ShipRecord): Orientation
    requires Complete(rec)
  {
    OrientationOfCode(rec.orientation.value)
  }

  predicate AllAxial(data: seq<ShipRecord>) {
    forall k :: 0 <= k < |data| ==> Axial(data[k])
  }

  // ---------------------------------------------------------------- saving

  /** saveFieldToJson: `height` rows of `width` entries, entry [y][x] being
      the code of the status of cell (x, y). */
  function SaveField(field: GameField): (rows: seq<seq<Code>>)
    reads field
    requires field.Valid()
    ensures |rows| == field.height
    ensures forall y :: 0 <= y < field.height ==> |rows[y]| == field.width
    ensures forall y, x :: 0 <= y < field.height && 0 <= x < field.width ==>
              StatusOfCode(rows[y][x]) == field.field[y][x].status
  {
    seq(field.height, y reads field requires 0 <= y < field.height && field.Valid() =>
      seq(field.width, x reads field requires 0 <= x < field.width && 0 <= y < field.height && field.Valid() =>
        StatusCode(field.field[y][x].status)))
  }

  /** The status codes of a ship's segments, first to last. */
  function StatusCodes(segs: seq<Segment>): (codes: seq<Code>)
    ensures |codes| == |segs|
    ensures forall j :: 0 <= j < |segs| ==> SegmentStatusOfCode(codes[j]) == segs[j].status
  {
    seq(|segs|, j requires 0 <= j < |segs| => SegmentStatusCode(segs[j].status))
  }

  /** The entry saveShipsToJson writes for a ship: its origin, its
      orientation and the status of each of its `length` segments. The
      source reads the segments through pointers, so the ship must have
      been placed. */
  function SaveShip(ship: Ship): (rec: ShipRecord)
    reads ship
    requires ship.Placed()
    ensures Complete(rec) && |rec.segments.value| == ship.length
  {
    ShipRecord(Some(ship.topLeft), Some(OrientationCode(ship.orientation)), Some(StatusCodes(ship.segments)))
  }

  /** saveShipsToJson: one entry per active ship, in the pool's order. */
  function SaveShips(ships: seq<Ship>): (data: seq<ShipRecord>)
    reads ships
    requires forall i :: 0 <= i < |ships| ==> ships[i].Placed()
    ensures |data| == |ships|
    ensures forall i :: 0 <= i < |ships| ==> Complete(data[i]) && |data[i].segments.value| == ships[i].length
  {
    seq(|ships|, i reads ships requires 0 <= i < |ships| && ships[i].Placed() => SaveShip(ships[i]))
  }

  /** saveAbilityManagerToJson: the names of the queued abilities, front first. */
  function SaveAbilities(queue: seq<AbilityKind>): (names: seq<string>)
    ensures |names| == |queue| && forall i :: 0 <= i < |queue| ==> KindOfName(names[i]) == Some(queue[i])
  {
    if queue == [] then []
    else
      NamesRoundTrip(queue[|queue| - 1], queue[|queue| - 1]);
      SaveAbilities(queue[..|queue| - 1]) + [Name(queue[|queue| - 1])]
  }

  /** GameState(Game&): the counter and the three flags, each field's
      dimensions and grid, each side's ship entries and the player's ability
      names. */
  function Capture(g: Game): (s: Snapshot)
    reads g, g.playerField, g.enemyField, g.playerShips, g.enemyShips, g.abilities
    reads g.playerShips.active, g.enemyShips.active
    requires g.playerField.Valid() && g.enemyField.Valid()
    requires forall i :: 0 <= i < |g.playerShips.active| ==> g.playerShips.active[i].Placed()
    requires forall i :: 0 <= i < |g.enemyShips.active| ==> g.enemyShips.active[i].Placed()
    ensures s.playerFieldWidth == g.playerField.width && s.playerFieldHeight == g.playerField.height
    ensures s.botFieldWidth == g.enemyField.width && s.botFieldHeight == g.enemyField.height
    ensures |s.playerShipData| == |g.playerShips.active| && |s.botShipData| == |g.enemyShips.active|
    ensures |s.playerAbilityManager| == |g.abilities.queue|
  {
    Snapshot(g.roundCounter, g.isPlayerStep, g.isPlayerUseAbility, g.isPlayerDoAttack,
             g.playerField.width, g.playerField.height, SaveField(g.playerField),
             g.enemyField.width, g.enemyField.height, SaveField(g.enemyField),
             SaveShips(g.playerShips.active), SaveShips(g.enemyShips.active),
             SaveAbilities(g.abilities.queue))
  }

  // ---------------------------------------------------------------- loading a field

  /** Every saved entry lies inside a width x height field: a row is empty,
      or it is one of the first `height` rows and has at most `width`
      entries. */
  predicate Fits(width: int, height: int, rows: seq<seq<Code>>) {
    forall y :: 0 <= y < |rows| ==> |rows[y]| == 0 || (y < height && |rows[y]| <= width)
  }

  /** The cell loadFieldFromJson leaves at (x, y): a default cell that takes
      the saved status, and the miss flag when that status is Empty. A cell
      the rows do not reach stays a default cell. */
  function LoadedCell(rows: seq<seq<Code>>, x: int, y: int): (cell: Cell)
    ensures cell.segment == None && !cell.shipHere && !cell.shipNearly
  {
    if 0 <= y < |rows| && 0 <= x < |rows[y]| then
      DefaultCell.(status := StatusOfCode(rows[y][x]), missed := StatusOfCode(rows[y][x]) == Empty)
    else DefaultCell
  }

  /** What loading a field fails with, if anything. */
  function FieldError(width: int, height: int, rows: seq<seq<Code>>): Option<Error> {
    if !ValidFieldSize(width, height) then Some(InvalidFieldSize)
    else if !Fits(width, height, rows) then Some(OutOfRange)
    else None
  }

  /** loadFieldFromJson: a new width x height field (InvalidFieldSize for a
      size out of range) whose cells take the saved statuses row by row;
      an entry outside the field throws out_of_range. */
  method LoadField(width: int, height: int, rows: seq<seq<Code>>) returns (r: Result<GameField>)
    ensures r.Err? <==> FieldError(width, height, rows).Some?
    ensures r.Err? ==> r.error == FieldError(width, height, rows).value
    ensures r.Ok? ==> fresh(r.value) && r.value.Linked() && r.value.Ships == {}
    ensures r.Ok? ==> r.value.width == width && r.value.height == height
    ensures r.Ok? ==> forall y, x :: 0 <= y < height && 0 <= x < width ==>
              r.value.field[y][x] == LoadedCell(rows, x, y)
  {
    var made := GameField.New(width, height);
    if made.Err? {
      return Err(made.error);
    }
    var field := made.value;
    var y := 0;
    while y < |rows|
      invariant 0 <= y <= |rows|
      invariant fresh(field) && field.Valid() && field.Ships == {}
      invariant field.width == width && field.height == height
      invariant forall k :: 0 <= k < y ==> |rows[k]| == 0 || (k < height && |rows[k]| <= width)
      invariant forall cy, cx :: 0 <= cy < height && 0 <= cx < width ==>
                  field.field[cy][cx] == if cy < y then LoadedCell(rows, cx, cy) else DefaultCell
    {
      var x := 0;
      while x < |rows[y]|
        invariant 0 <= x <= |rows[y]|
        invariant field.Valid() && field.Ships == {}
        invariant field.width == width && field.height == height
        invariant x > 0 ==> y < height && x <= width
        invariant forall cy, cx :: 0 <= cy < height && 0 <= cx < width ==>
                    field.field[cy][cx] ==
                      if cy < y || (cy == y && cx < x) then LoadedCell(rows, cx, cy) else DefaultCell
      {
        var status := StatusOfCode(rows[y][x]);
        var written := field.SetCellStatus(Coords(x, y), status);
        if written.Fail? {
          assert !(|rows[y]| == 0 || (y < height && |rows[y]| <= width));
          return Err(written.error);
        }
        if status == Empty {
          field.field := field.With(Coords(x, y), field.At(Coords(x, y)).(missed := true));
        }
        x := x + 1;
      }
      y := y + 1;
    }
    return Ok(field);
  }

  /** A field that reloads its own saved rows gets back every cell's status;
      the miss flag then marks exactly the Empty cells. */
  lemma SavedFieldReloads(field: GameField)
    requires field.Valid()
    ensures FieldError(field.width, field.height, SaveField(field)) ==
              if ValidFieldSize(field.width, field.height) then None else Some(InvalidFieldSize)
    ensures forall y, x :: 0 <= y < field.height && 0 <= x < field.width ==>
              LoadedCell(SaveField(field), x, y).status == field.field[y][x].status &&
              (LoadedCell(SaveField(field), x, y).missed <==> field.field[y][x].status == Empty)
  {
  }

  // ---------------------------------------------------------------- loading abilities

  /** Every name is one of the three ability names. */
  predicate KnownNames(names: seq<string>) {
    forall i :: 0 <= i < |names| ==> KindOfName(names[i]).Some?
  }

  /** The abilities known names stand for, in order. */
  function Kinds(names: seq<string>): (kinds: seq<AbilityKind>)
    requires KnownNames(names)
    ensures |kinds| == |names| && forall i :: 0 <= i < |names| ==> Name(kinds[i]) == names[i]
  {
    seq(|names|, i requires 0 <= i < |names| && KnownNames(names) => KindOfName(names[i]).value)
  }

  /** loadAbilityManagerFromJson: the named abilities, in order, in a new
      manager with the usual catalog; an unknown name throws. */
  method LoadAbilities(names: seq<string>) returns (r: Result<AbilityManager>)
    ensures r.Ok? <==> KnownNames(names)
    ensures r.Err? ==> r.error == UnknownAbilityName
    ensures r.Ok? ==> fresh(r.value) && r.value.catalog == Catalog && r.value.queue == Kinds(names)
  {
    var kinds: seq<AbilityKind> := [];
    var i := 0;
    while i < |names|
      invariant 0 <= i <= |names| && |kinds| == i
      invariant KnownNames(names[..i])
      invariant forall k :: 0 <= k < i ==> Some(kinds[k]) == KindOfName(names[k])
    {
      var kind := KindOfName(names[i]);
      if kind.None? {
        return Err(UnknownAbilityName);
      }
      kinds := kinds + [kind.value];
      i := i + 1;
    }
    assert names[..i] == names;
    var manager := new AbilityManager.FromQueue(kinds);
    return Ok(manager);
  }

  /** The saved names of a queue are all known and load back as that queue. */
  lemma {:induction false} SavedAbilitiesReload(queue: seq<AbilityKind>)
    ensures KnownNames(SaveAbilities(queue)) && Kinds(SaveAbilities(queue)) == queue
  {
    var names := SaveAbilities(queue);
    forall i | 0 <= i < |queue| ensures Kinds(names)[i] == queue[i] {
      NamesRoundTrip(Kinds(names)[i], queue[i]);
    }
  }

  // ---------------------------------------------------------------- loading ships

  /** The status a segment has after the replay of a saved status code:
      no attack for Intact, one attack for Damaged, two for Destroyed. On
      a fresh, Intact segment the replay restores the saved status. */
  function Replayed(s: SegmentStatus, code: Code): (r: SegmentStatus)
    ensures SegmentStatusCode(s) <= SegmentStatusCode(r)
    ensures s == Intact ==> r == SegmentStatusOfCode(code)
  {
    if code == 0 then s else if code == 1 then Damage(s, 1) else Damage(Damage(s, 1), 1)
  }

  /** Two grids of the same shape whose cells differ at most in their
      status and miss flag: what attacks change. */
  ghost predicate SameLayout(a: seq<seq<Cell>>, b: seq<seq<Cell>>) {
    && |a| == |b|
    && (forall y :: 0 <= y < |a| ==> |a[y]| == |b[y]|)
    && forall y, x :: 0 <= y < |a| && 0 <= x < |a[y]| ==>
         a[y][x].shipHere == b[y][x].shipHere && a[y][x].shipNearly == b[y][x].shipNearly &&
         a[y][x].segment == b[y][x].segment
  }

  /** Since the old state the ship kept its length, maximum health,
      orientation, origin and number of segments. */
  twostate predicate Kept(s: Ship)
    reads s
  {
    && s.length == old(s.length) && s.maxHealth == old(s.maxHealth)
    && s.orientation == old(s.orientation) && s.topLeft == old(s.topLeft)
    && |s.segments| == old(|s.segments|)
  }

  /** Restamping a cell's status and miss flag keeps the layout. */
  lemma RestampKeepsLayout(a: seq<seq<Cell>>, y: int, x: int, cell: Cell)
    requires 0 <= y < |a| && 0 <= x < |a[y]|
    requires cell.shipHere == a[y][x].shipHere && cell.shipNearly == a[y][x].shipNearly
    requires cell.segment == a[y][x].segment
    ensures SameLayout(a, a[y := a[y][x := cell]])
  {
  }

  /** One attackCell on `c` during a replay: the grid becomes what an
      attack on `c` makes of it (an occupied cell shows ShipHit, another
      shows Empty and is marked missed), so the layout stays, and a segment
      at `c` takes a hit of 1. Only a cell outside the field fails. */
  method Strike(field: GameField, c: Coords) returns (r: Outcome)
    requires field.Linked()
    modifies field`field, field.RefShips(c)
    ensures field.Linked() && field.Ships == old(field.Ships) && SameLayout(old(field.field), field.field)
    ensures field.field == AttackedGrid(old(field.field), c)
    ensures field.RefShips(c) == old(field.RefShips(c))
    ensures forall s :: s in old(field.RefShips(c)) ==> s.Worn()
    ensures r.Pass? <==> field.InField(c)
    ensures r.Fail? ==> r.error == OutOfRange
    ensures old(field.InField(c) && field.At(c).segment.Some?) ==>
              (var ref := old(field.At(c).segment.value);
               ref.ship.segments == old(DamageAt(ref.ship.segments, ref.index, 1)))
  {
    ghost var before := field.field;
    r := field.AttackCell(c);
    if r.Pass? {
      RestampKeepsLayout(before, c.y, c.x, field.At(c));
      assert field.field == before[c.y := before[c.y][c.x := field.At(c)]];
    }
  }

  /** A second attack on the same cell changes nothing more. */
  lemma AttackedTwice(grid: seq<seq<Cell>>, c: Coords)
    ensures AttackedGrid(AttackedGrid(grid, c), c) == AttackedGrid(grid, c)
  {
    if OnGridAt(grid, c) {
      var once: seq<seq<Cell>> := AttackedGrid(grid, c);
      assert once[c.y][c.x].shipHere == grid[c.y][c.x].shipHere;
      assert AttackedGrid(once, c)[c.y] == once[c.y];
    }
  }

  /** The replay of one saved segment status at `c`: attackCell once for
      Damaged and twice for Destroyed, which leaves the grid as one attack
      does. It fails exactly when `c` is outside the field and the code
      asks for an attack. When `c` holds a segment, that segment alone
      moves on as Replayed says. */
  method ReplaySegment(field: GameField, c: Coords, code: Code) returns (r: Outcome)
    requires field.Linked()
    modifies field`field, field.RefShips(c)
    ensures field.Linked() && field.Ships == old(field.Ships) && SameLayout(old(field.field), field.field)
    ensures field.field == if code == 0 then old(field.field) else AttackedGrid(old(field.field), c)
    ensures forall s :: s in old(field.RefShips(c)) ==> s.Worn()
    ensures r.Fail? <==> code != 0 && !field.InField(c)
    ensures r.Fail? ==> r.error == OutOfRange
    ensures code == 0 ==> unchanged(old(field.RefShips(c)))
    ensures old(field.InField(c) && field.At(c).segment.Some?) ==>
              (var ref := old(field.At(c).segment.value);
               ref.ship.segments == old(ref.ship.segments[ref.index := SetStatus(ref.ship.segments[ref.index],
                                                             Replayed(ref.ship.segments[ref.index].status, code))]))
  {
    r := Pass;
    if code == 1 {
      r := Strike(field, c);
    } else if code == 2 {
      ghost var before := field.field;
      r := Strike(field, c);
      if r.Pass? {
        r := Strike(field, c);
        AttackedTwice(before, c);
      }
    }
  }

  /** On the grid, the cell of each of the `n` segments of a ship with
      origin `tl` and orientation `o` (Horizontal or Vertical) exists and
      refers to that segment of `ship`. */
  ghost predicate OnGrid(grid: seq<seq<Cell>>, ship: Ship, tl: Coords, o: Orientation, n: int) {
    && o != Orientation.Unknown
    && forall j :: 0 <= j < n ==>
         var c := SegmentCoords(o, tl, j);
         0 <= c.y < |grid| && 0 <= c.x < |grid[c.y]| && grid[c.y][c.x].segment == Some(SegRef(ship, j))
  }

  /** Attacks keep every ship where it stands. */
  lemma LayoutKeepsShips(a: seq<seq<Cell>>, b: seq<seq<Cell>>, ship: Ship, tl: Coords, o: Orientation, n: int)
    requires SameLayout(a, b) && OnGrid(a, ship, tl, o, n)
    ensures OnGrid(b, ship, tl, o, n)
  {
  }

  /** The grid after the replay of the first `n` saved segment statuses
      of a ship with origin `tl` and orientation `o`: segment j's cell,
      the origin moved j cells along x for Horizontal and along y
      otherwise, takes one attack unless its code is 0. */
  function ReplayedGrid(grid: seq<seq<Cell>>, tl: Coords, o: Orientation, codes: seq<Code>, n: nat): (g: seq<seq<Cell>>)
    requires n <= |codes|
  {
    if n == 0 then grid
    else
      var prior := ReplayedGrid(grid, tl, o, codes, n - 1);
      if codes[n - 1] == 0 then prior else AttackedGrid(prior, SegmentCoords(o, tl, n - 1))
  }

  /** Attacks change statuses and miss flags only, so a replay keeps the
      layout. */
  lemma {:induction false} ReplayKeepsLayout(grid: seq<seq<Cell>>, tl: Coords, o: Orientation, codes: seq<Code>, n: nat)
    requires n <= |codes|
    ensures SameLayout(grid, ReplayedGrid(grid, tl, o, codes, n))
  {
    if n > 0 {
      ReplayKeepsLayout(grid, tl, o, codes, n - 1);
    }
  }

  /** The replay of the first `n` codes of a ship stays inside a width x
      height field: each segment whose code asks for an attack lies in it. */
  predicate ReplayFits(width: int, height: int, tl: Coords, o: Orientation, codes: seq<Code>, n: nat)
    requires n <= |codes|
  {
    n == 0 || (ReplayFits(width, height, tl, o, codes, n - 1) && (codes[n - 1] == 0 || SegmentFits(width, height, tl, o, n - 1)))
  }

  /** A replay that fits has every prefix fitting too. */
  lemma {:induction false} ReplayFitsPrefix(width: int, height: int, tl: Coords, o: Orientation, codes: seq<Code>, m: nat, n: nat)
    requires m <= n <= |codes|
    ensures ReplayFits(width, height, tl, o, codes, n) ==> ReplayFits(width, height, tl, o, codes, m)
    decreases n - m
  {
    if m < n {
      ReplayFitsPrefix(width, height, tl, o, codes, m, n - 1);
    }
  }

  /** ReplayFits asks exactly that every segment with a nonzero code lie in
      the field. */
  lemma {:induction false} ReplayFitsEvery(width: int, height: int, tl: Coords, o: Orientation, codes: seq<Code>, n: nat)
    requires n <= |codes|
    ensures ReplayFits(width, height, tl, o, codes, n) <==>
              forall j :: 0 <= j < n && codes[j] != 0 ==> SegmentFits(width, height, tl, o, j)
  {
    if n > 0 {
      ReplayFitsEvery(width, height, tl, o, codes, n - 1);
    }
  }

  /** Segment j of a ship at `tl` lies inside a width x height field. */
  predicate SegmentFits(width: int, height: int, tl: Coords, o: Orientation, j: int) {
    0 <= SegmentCoords(o, tl, j).x < width && 0 <= SegmentCoords(o, tl, j).y < height
  }

  /** `c` is the cell of one of the first `n` segments of a Horizontal or
      Vertical ship at `tl`, and that segment's code asks for an attack. */
  predicate ReplayHit(tl: Coords, o: Orientation, codes: seq<Code>, n: nat, c: Coords)
    requires n <= |codes|
  {
    OnAxis(tl, o, n, c) && codes[AxisIndex(tl, o, c)] != 0
  }

  /** Replaying the codes of a Horizontal or Vertical ship whose cells are
      all occupied turns exactly the cells of its hit segments into ShipHit
      and leaves every other status, and every miss flag, as it was. */
  lemma {:induction false} ReplayedStatuses(grid: seq<seq<Cell>>, tl: Coords, o: Orientation, codes: seq<Code>, n: nat)
    requires o != Orientation.Unknown && n <= |codes|
    requires forall j :: 0 <= j < |codes| ==>
               OnGridAt(grid, AxisCell(tl, o, j)) && grid[AxisCell(tl, o, j).y][AxisCell(tl, o, j).x].shipHere
    ensures SameLayout(grid, ReplayedGrid(grid, tl, o, codes, n))
    ensures forall y, x :: 0 <= y < |grid| && 0 <= x < |grid[y]| ==>
              && ReplayedGrid(grid, tl, o, codes, n)[y][x].status ==
                   (if ReplayHit(tl, o, codes, n, Coords(x, y)) then ShipHit else grid[y][x].status)
              && ReplayedGrid(grid, tl, o, codes, n)[y][x].missed == grid[y][x].missed
  {
    if n > 0 {
      ReplayedStatuses(grid, tl, o, codes, n - 1);
      ReplayKeepsLayout(grid, tl, o, codes, n);
      var prior: seq<seq<Cell>> := ReplayedGrid(grid, tl, o, codes, n - 1);
      var c := AxisCell(tl, o, n - 1);
      AxisCellOnAxis(tl, o, n, n - 1);
      assert c == SegmentCoords(o, tl, n - 1);
      assert prior[c.y][c.x].shipHere;
      forall y, x | 0 <= y < |grid| && 0 <= x < |grid[y]|
        ensures ReplayHit(tl, o, codes, n, Coords(x, y)) <==>
                  ReplayHit(tl, o, codes, n - 1, Coords(x, y)) || (Coords(x, y) == c && codes[n - 1] != 0)
      {
      }
    }
  }

  /** The replay of `ship`'s saved statuses has done its first `j`
      segments: the ship still stands on the grid, those segments carry
      their saved statuses and the others are Intact. */
  ghost predicate Replaying(grid: seq<seq<Cell>>, ship: Ship, tl: Coords, o: Orientation, codes: seq<Code>, j: int)
    reads ship
  {
    && OnGrid(grid, ship, tl, o, |codes|) && ship.length == |codes| && ship.Placed()
    && forall k :: 0 <= k < |codes| ==>
         ship.segments[k].status == if k < j then SegmentStatusOfCode(codes[k]) else Intact
  }

  /** The replay of a saved ship's segments (the inner loop of
      loadShipManagerFromJson): segment j's status is replayed at the
      origin moved j cells along x for Horizontal and along y otherwise.
      It fails exactly when a segment that asks for an attack lies outside
      the field, and on success leaves the grid as ReplayedGrid says; every
      ship on the field keeps its shape. When the ship stands there with all
      segments Intact, the replay succeeds, gives each segment its saved
      status, shows ShipHit on the cells of its hit segments, keeps every
      other status and every miss flag, and leaves every other ship alone. */
  method ReplayShip(field: GameField, tl: Coords, o: Orientation, codes: seq<Code>, ghost ship: Ship)
      returns (r: Outcome)
    requires field.Linked()
    modifies field`field, field.Ships
    ensures field.Linked() && field.Ships == old(field.Ships)
    ensures forall s :: s in old(field.Ships) ==> Kept(s)
    ensures r.Pass? <==> ReplayFits(field.width, field.height, tl, o, codes, |codes|)
    ensures r.Fail? ==> r.error == OutOfRange
    ensures r.Pass? ==> field.field == ReplayedGrid(old(field.field), tl, o, codes, |codes|)
    ensures r.Pass? ==> SameLayout(old(field.field), field.field)
    ensures old(Replaying(field.field, ship, tl, o, codes, 0)) ==>
              && r == Pass && Replaying(field.field, ship, tl, o, codes, |codes|)
              && forall s :: s in old(field.Ships) && s != ship ==> unchanged(s)
    ensures old(Replaying(field.field, ship, tl, o, codes, 0)) ==>
              forall y, x :: 0 <= y < field.height && 0 <= x < field.width ==>
                && field.field[y][x].status ==
                     (if ReplayHit(tl, o, codes, |codes|, Coords(x, y)) then ShipHit else old(field.field[y][x].status))
                && field.field[y][x].missed == old(field.field[y][x].missed)
  {
    ghost var standing := Replaying(field.field, ship, tl, o, codes, 0);
    ghost var start := field.field;
    r := ReplayCodes(field, tl, o, codes, ship);
    ReplayKeepsLayout(start, tl, o, codes, |codes|);
    if standing {
      forall i | 0 <= i < |codes|
        ensures OnGridAt(start, AxisCell(tl, o, i)) && start[AxisCell(tl, o, i).y][AxisCell(tl, o, i).x].shipHere
      {
        AxisCellOnAxis(tl, o, |codes|, i);
      }
      ReplayedStatuses(start, tl, o, codes, |codes|);
    }
  }

  /** The loop of ReplayShip. */
  method ReplayCodes(field: GameField, tl: Coords, o: Orientation, codes: seq<Code>, ghost ship: Ship)
      returns (r: Outcome)
    requires field.Linked()
    modifies field`field, field.Ships
    ensures field.Linked() && field.Ships == old(field.Ships)
    ensures forall s :: s in old(field.Ships) ==> Kept(s)
    ensures r.Pass? <==> ReplayFits(field.width, field.height, tl, o, codes, |codes|)
    ensures r.Fail? ==> r.error == OutOfRange
    ensures r.Pass? ==> field.field == ReplayedGrid(old(field.field), tl, o, codes, |codes|)
    ensures old(Replaying(field.field, ship, tl, o, codes, 0)) ==>
              && r == Pass && Replaying(field.field, ship, tl, o, codes, |codes|)
              && forall s :: s in old(field.Ships) && s != ship ==> unchanged(s)
  {
    ghost var standing := Replaying(field.field, ship, tl, o, codes, 0);
    ghost var start := field.field;
    ghost var width, height := field.width, field.height;
    r := Pass;
    var j := 0;
    while j < |codes|
      invariant 0 <= j <= |codes|
      invariant field.Linked() && field.Ships == old(field.Ships)
      invariant forall s :: s in old(field.Ships) ==> Kept(s)
      invariant r == Pass && field.field == ReplayedGrid(start, tl, o, codes, j)
      invariant ReplayFits(width, height, tl, o, codes, j)
      invariant standing ==> Replaying(field.field, ship, tl, o, codes, j)
      invariant standing ==> forall s :: s in old(field.Ships) && s != ship ==> unchanged(s)
    {
      r := ReplayStep(field, tl, o, codes, j, start, ship);
      if r.Fail? {
        ReplayFitsPrefix(width, height, tl, o, codes, j + 1, |codes|);
        return;
      }
      j := j + 1;
    }
  }

  /** One pass of the replay loop, on segment `j`. */
  method ReplayStep(field: GameField, tl: Coords, o: Orientation, codes: seq<Code>, j: nat,
                    ghost start: seq<seq<Cell>>, ghost ship: Ship) returns (r: Outcome)
    requires j < |codes| && field.Linked() && field.field == ReplayedGrid(start, tl, o, codes, j)
    modifies field`field, field.Ships
    ensures field.Linked() && field.Ships == old(field.Ships)
    ensures forall s :: s in old(field.Ships) ==> Kept(s)
    ensures r.Fail? <==> codes[j] != 0 && !SegmentFits(field.width, field.height, tl, o, j)
    ensures r.Fail? ==> r.error == OutOfRange && field.field == old(field.field)
    ensures r.Pass? ==> field.field == ReplayedGrid(start, tl, o, codes, j + 1)
    ensures old(Replaying(field.field, ship, tl, o, codes, j)) ==>
              && r == Pass && Replaying(field.field, ship, tl, o, codes, j + 1)
              && forall s :: s in old(field.Ships) && s != ship ==> unchanged(s)
  {
    var c := if o == Horizontal then Coords(tl.x + j, tl.y) else Coords(tl.x, tl.y + j);
    assert c == SegmentCoords(o, tl, j);
    ghost var grid := field.field;
    ghost var standing := Replaying(field.field, ship, tl, o, codes, j);
    if standing {
      assert field.InField(c) && field.At(c).segment == Some(SegRef(ship, j));
    }
    r := ReplaySegment(field, c, codes[j]);
    if r.Fail? {
      return;
    }
    if standing {
      LayoutKeepsShips(grid, field.field, ship, tl, o, |codes|);
    }
  }

  /** The ship stands where its entry says: the same origin, orientation
      and number of segments, and it has been placed. */
  ghost predicate PlacedAsRecorded(ship: Ship, rec: ShipRecord)
    reads ship
  {
    && Complete(rec) && ship.Placed()
    && ship.topLeft == rec.coords.value && ship.orientation == OrientationOfCode(rec.orientation.value)
    && ship.length == |rec.segments.value|
  }

  /** ... and each of its segments has the status its entry records. */
  ghost predicate DamagedAsRecorded(ship: Ship, rec: ShipRecord)
    reads ship
  {
    && PlacedAsRecorded(ship, rec)
    && forall j :: 0 <= j < ship.length ==> ship.segments[j].status == SegmentStatusOfCode(rec.segments.value[j])
  }

  /** A cell is taken when a ship stands on it or it lies in a ship's band:
      either way no new ship may be placed on it. */
  predicate Taken(cell: Cell) {
    cell.shipHere || cell.shipNearly
  }

  /** One pass of the placing loop of loadShipManagerFromJson: free ship 0
      is placed at the entry's origin and orientation and moved to the
      active pool, then the entry's statuses are replayed. It succeeds
      exactly when the ship's cells are all free and every segment the
      replay attacks lies inside the field; any failure is out_of_range.
      Then the new active ship stands where its entry says, the cells of
      its band are taken besides those taken before, and, for a Horizontal
      or Vertical entry, the ship has the recorded statuses, the cells of
      its hit segments show ShipHit, every other status and every miss flag
      is kept, and the ships already active stay as they were. */
  method LoadRecord(field: GameField, manager: ShipManager, rec: ShipRecord) returns (r: Outcome)
    requires Complete(rec)
    requires field.Linked() && manager.Valid() && field.Ships == ActiveSet(manager) && AllPlaced(manager)
    requires forall s :: s in manager.free ==> s.segments == []
    requires |manager.free| > 0 && manager.free[0].length == |rec.segments.value|
    modifies field`field, field`Ships, manager, manager.Fleet()
    ensures field.Linked() && manager.Valid() && field.Ships == ActiveSet(manager) && AllPlaced(manager)
    ensures manager.Fleet() == old(manager.Fleet())
    ensures forall s :: s in manager.free ==> s.segments == []
    ensures r.Pass? <==> old(field.CanPlace(rec.coords.value, Facing(rec), |rec.segments.value|)) &&
                         ReplayFits(field.width, field.height, rec.coords.value, Facing(rec), rec.segments.value, |rec.segments.value|)
    ensures r.Fail? ==> r.error == OutOfRange
    ensures r.Pass? ==> manager.active == old(manager.active) + [old(manager.free[0])]
    ensures r.Pass? ==> manager.free == old(manager.free[1..])
    ensures r.Pass? ==> forall s :: s in old(manager.free[1..]) ==> Kept(s)
    ensures r.Pass? ==> PlacedAsRecorded(old(manager.free[0]), rec)
    ensures r.Pass? && Axial(rec) ==> DamagedAsRecorded(old(manager.free[0]), rec)
    ensures r.Pass? ==> forall s :: s in old(manager.active) ==> Kept(s)
    ensures r.Pass? && Axial(rec) ==> forall s :: s in old(manager.active) ==> unchanged(s)
    ensures r.Pass? ==> forall y, x :: 0 <= y < field.height && 0 <= x < field.width ==>
              Taken(field.field[y][x]) == (old(Taken(field.field[y][x])) ||
                                           InBand(rec.coords.value, Facing(rec), |rec.segments.value|, Coords(x, y)))
    ensures r.Pass? && Axial(rec) ==> forall y, x :: 0 <= y < field.height && 0 <= x < field.width ==>
              && field.field[y][x].status ==
                   (if ReplayHit(rec.coords.value, Facing(rec), rec.segments.value, |rec.segments.value|, Coords(x, y))
                    then ShipHit else old(field.field[y][x].status))
              && field.field[y][x].missed == old(field.field[y][x].missed)
  {
    r := PlaceRecord(field, manager, rec);
    if r.Fail? {
      return;
    }
    r := ReplayRecord(field, manager, rec);
  }

  /** The placing half of LoadRecord: it succeeds exactly when the ship's
      cells are all free, and then takes the cells of the ship's band and
      changes no status or miss flag. */
  /** Placing a ship takes exactly the cells of its band and leaves every
      status and miss flag as it was. */
  lemma PlacedTaken(before: seq<seq<Cell>>, after: seq<seq<Cell>>, width: int, height: int,
                    ship: Ship, tl: Coords, o: Orientation, len: int)
    requires |before| == |after| == height
    requires forall y :: 0 <= y < height ==> |before[y]| == |after[y]| == width
    requires forall y, x :: 0 <= y < height && 0 <= x < width ==>
               after[y][x] == PlacedCell(before[y][x], ship, tl, o, len, Coords(x, y))
    ensures forall y, x :: 0 <= y < height && 0 <= x < width ==>
              && Taken(after[y][x]) == (Taken(before[y][x]) || InBand(tl, o, len, Coords(x, y)))
              && after[y][x].status == before[y][x].status
              && after[y][x].missed == before[y][x].missed
  {
  }

  method PlaceRecord(field: GameField, manager: ShipManager, rec: ShipRecord) returns (r: Outcome)
    requires Complete(rec)
    requires field.Linked() && manager.Valid() && field.Ships == ActiveSet(manager) && AllPlaced(manager)
    requires forall s :: s in manager.free ==> s.segments == []
    requires |manager.free| > 0 && manager.free[0].length == |rec.segments.value|
    modifies field`field, field`Ships, manager, manager.Fleet()
    ensures field.Linked() && manager.Valid() && field.Ships == ActiveSet(manager) && AllPlaced(manager)
    ensures manager.Fleet() == old(manager.Fleet())
    ensures forall s :: s in manager.free ==> s.segments == []
    ensures r.Pass? <==> old(field.CanPlace(rec.coords.value, Facing(rec), |rec.segments.value|))
    ensures r.Fail? ==> r.error == OutOfRange
    ensures r.Pass? ==> manager.active == old(manager.active) + [old(manager.free[0])]
    ensures r.Pass? ==> manager.free == old(manager.free[1..])
    ensures r.Pass? ==> forall s :: s in old(manager.Fleet()) && s != old(manager.free[0]) ==> unchanged(s)
    ensures r.Pass? ==> var ship := old(manager.free[0]);
              && PlacedAsRecorded(ship, rec)
              && (forall j :: 0 <= j < ship.length ==> ship.segments[j].status == Intact)
              && (Axial(rec) ==> OnGrid(field.field, ship, rec.coords.value, ship.orientation, ship.length))
    ensures r.Pass? ==> forall y, x :: 0 <= y < field.height && 0 <= x < field.width ==>
              && Taken(field.field[y][x]) == (old(Taken(field.field[y][x])) ||
                                              InBand(rec.coords.value, Facing(rec), |rec.segments.value|, Coords(x, y)))
              && field.field[y][x].status == old(field.field[y][x].status)
              && field.field[y][x].missed == old(field.field[y][x].missed)
  {
    var tl := rec.coords.value;
    var o := OrientationOfCode(rec.orientation.value);
    ghost var ship := manager.free[0];
    ghost var before := field.field;
    r := PlaceAndActivate(field, manager, tl, o);
    forall s | s in manager.active ensures s.Placed() && s.length >= 1 {
      assert s in manager.Fleet();
      if s != ship {
        assert s in old(manager.active);
      }
    }
    if r.Fail? {
      return;
    }
    PlacedTaken(before, field.field, field.width, field.height, ship, tl, o, ship.length);
    if o != Orientation.Unknown {
      forall j | 0 <= j < ship.length
        ensures var c := SegmentCoords(o, tl, j);
                0 <= c.y < |field.field| && 0 <= c.x < |field.field[c.y]| &&
                field.field[c.y][c.x].segment == Some(SegRef(ship, j))
      {
        AxisCellOnAxis(tl, o, ship.length, j);
      }
    }
  }

  /** The replaying half of LoadRecord, for the ship just moved to the
      back of the active pool. */
  method ReplayRecord(field: GameField, manager: ShipManager, rec: ShipRecord) returns (r: Outcome)
    requires Complete(rec)
    requires field.Linked() && manager.Valid() && field.Ships == ActiveSet(manager) && AllPlaced(manager)
    requires forall s :: s in manager.free ==> s.segments == []
    requires |manager.active| > 0
    requires var ship := manager.active[|manager.active| - 1];
             && PlacedAsRecorded(ship, rec)
             && (forall j :: 0 <= j < ship.length ==> ship.segments[j].status == Intact)
             && (Axial(rec) ==> OnGrid(field.field, ship, rec.coords.value, ship.orientation, ship.length))
    modifies field`field, field.Ships
    ensures field.Linked() && manager.Valid() && field.Ships == ActiveSet(manager) && AllPlaced(manager)
    ensures forall s :: s in manager.free ==> s.segments == []
    ensures r.Fail? ==> r.error == OutOfRange
    ensures forall s :: s in old(manager.active) ==> Kept(s)
    ensures PlacedAsRecorded(manager.active[|manager.active| - 1], rec)
    ensures r.Pass? && Axial(rec) ==> DamagedAsRecorded(manager.active[|manager.active| - 1], rec)
    ensures r.Pass? && Axial(rec) ==> forall s :: s in old(manager.active) && s != manager.active[|manager.active| - 1] ==> unchanged(s)
    ensures r.Pass? <==> ReplayFits(field.width, field.height, rec.coords.value, Facing(rec), rec.segments.value, |rec.segments.value|)
    ensures r.Pass? ==> SameLayout(old(field.field), field.field)
    ensures r.Pass? && Axial(rec) ==> forall y, x :: 0 <= y < field.height && 0 <= x < field.width ==>
              && field.field[y][x].status ==
                   (if ReplayHit(rec.coords.value, Facing(rec), rec.segments.value, |rec.segments.value|, Coords(x, y))
                    then ShipHit else old(field.field[y][x].status))
              && field.field[y][x].missed == old(field.field[y][x].missed)
  {
    ghost var ship := manager.active[|manager.active| - 1];
    var tl := rec.coords.value;
    var o := OrientationOfCode(rec.orientation.value);
    r := ReplayShip(field, tl, o, rec.segments.value, ship);
    forall s | s in manager.free + manager.active ensures s.Valid() {
      assert s in manager.Fleet();
    }
  }

  /** What loading a ship pool fails with before anything is placed: an
      entry without one of its keys, then a segment count that is not a
      valid ship length. */
  function ShipDataError(data: seq<ShipRecord>): (e: Option<Error>)
    ensures e.None? <==> forall i :: 0 <= i < |data| ==> Complete(data[i]) && ValidLength(|data[i].segments.value|)
  {
    if exists i :: 0 <= i < |data| && !Complete(data[i]) then Some(InvalidShipData)
    else if exists i :: 0 <= i < |data| && !ValidLength(|data[i].segments.value|) then Some(InvalidShipSize)
    else None
  }

  /** The first loop of loadShipManagerFromJson: every entry must have the
      three keys (otherwise runtime_error, before anything is built), and
      the ship sizes are the entries' segment counts, in order. */
  method CollectSizes(data: seq<ShipRecord>) returns (r: Result<seq<int>>)
    ensures r.Ok? <==> forall i :: 0 <= i < |data| ==> Complete(data[i])
    ensures r.Err? ==> r.error == InvalidShipData
    ensures r.Ok? ==> |r.value| == |data| && forall i :: 0 <= i < |data| ==> r.value[i] == |data[i].segments.value|
  {
    var sizes: seq<int> := [];
    var i := 0;
    while i < |data|
      invariant 0 <= i <= |data| && |sizes| == i
      invariant forall k :: 0 <= k < i ==> Complete(data[k]) && sizes[k] == |data[k].segments.value|
    {
      if !(data[i].coords.Some? && data[i].orientation.Some? && data[i].segments.Some?) {
        return Err(InvalidShipData);
      }
      sizes := sizes + [|data[i].segments.value|];
      i := i + 1;
    }
    return Ok(sizes);
  }

  /** `c` lies in the band of one of the first `n` complete entries. */
  predicate Banded(data: seq<ShipRecord>, n: nat, c: Coords)
    requires n <= |data|
  {
    n > 0 && (Banded(data, n - 1, c) ||
              (Complete(data[n - 1]) && InBand(data[n - 1].coords.value, Facing(data[n - 1]), |data[n - 1].segments.value|, c)))
  }

  /** `c` is the cell of a hit segment of one of the first `n` entries
      that are Horizontal or Vertical. */
  predicate Hits(data: seq<ShipRecord>, n: nat, c: Coords)
    requires n <= |data|
  {
    n > 0 && (Hits(data, n - 1, c) ||
              (Axial(data[n - 1]) &&
               ReplayHit(data[n - 1].coords.value, Facing(data[n - 1]), data[n - 1].segments.value,
                         |data[n - 1].segments.value|, c)))
  }

  /** Entry k can be loaded once the entries before it are: it is complete,
      each cell of its ship lies inside the field and outside the bands of
      the earlier entries, and its replay stays inside the field. */
  predicate EntryFits(width: int, height: int, data: seq<ShipRecord>, k: nat)
    requires k < |data|
  {
    && Complete(data[k])
    && (forall j :: 0 <= j < |data[k].segments.value| ==>
          && 0 <= AxisCell(data[k].coords.value, Facing(data[k]), j).x < width
          && 0 <= AxisCell(data[k].coords.value, Facing(data[k]), j).y < height
          && !Banded(data, k, AxisCell(data[k].coords.value, Facing(data[k]), j)))
    && ReplayFits(width, height, data[k].coords.value, Facing(data[k]), data[k].segments.value, |data[k].segments.value|)
  }

  /** The first `n` entries can be loaded one after the other on an empty
      width x height field. */
  predicate Settles(width: int, height: int, data: seq<ShipRecord>, n: nat)
    requires n <= |data|
  {
    forall k :: 0 <= k < n ==> EntryFits(width, height, data, k)
  }

  /** After the first `i` entries, a grid loaded from `rows` has exactly the
      cells of their bands taken, and, when those entries are all
      Horizontal or Vertical, shows ShipHit on the cells of their hit
      segments and the saved status elsewhere, with the saved miss flags. */
  ghost predicate Marked(grid: seq<seq<Cell>>, width: int, height: int, rows: seq<seq<Code>>,
                         data: seq<ShipRecord>, i: nat)
    requires i <= |data|
  {
    && |grid| == height && (forall y :: 0 <= y < height ==> |grid[y]| == width)
    && (forall y, x :: 0 <= y < height && 0 <= x < width ==> Taken(grid[y][x]) == Banded(data, i, Coords(x, y)))
    && (AllAxial(data[..i]) ==>
          forall y, x :: 0 <= y < height && 0 <= x < width ==>
            && grid[y][x].status == (if Hits(data, i, Coords(x, y)) then ShipHit else LoadedCell(rows, x, y).status)
            && grid[y][x].missed == LoadedCell(rows, x, y).missed)
  }

  /** The first i + 1 entries are all Horizontal or Vertical exactly when
      the first i are and entry i is. */
  lemma AxialPrefix(data: seq<ShipRecord>, i: nat)
    requires i < |data|
    ensures AllAxial(data[..i + 1]) <==> AllAxial(data[..i]) && Axial(data[i])
  {
    assert data[..i + 1] == data[..i] + [data[i]];
  }

  /** Loading entry i as LoadRecord does moves Marked on to i + 1. */
  lemma MarkedStep(before: seq<seq<Cell>>, after: seq<seq<Cell>>, width: int, height: int, rows: seq<seq<Code>>,
                   data: seq<ShipRecord>, i: nat)
    requires i < |data| && Complete(data[i]) && Marked(before, width, height, rows, data, i)
    requires |after| == height && forall y :: 0 <= y < height ==> |after[y]| == width
    requires forall y, x :: 0 <= y < height && 0 <= x < width ==>
               Taken(after[y][x]) == (Taken(before[y][x]) ||
                                      InBand(data[i].coords.value, Facing(data[i]), |data[i].segments.value|, Coords(x, y)))
    requires Axial(data[i]) ==> forall y, x :: 0 <= y < height && 0 <= x < width ==>
               && after[y][x].status ==
                    (if ReplayHit(data[i].coords.value, Facing(data[i]), data[i].segments.value, |data[i].segments.value|, Coords(x, y))
                     then ShipHit else before[y][x].status)
               && after[y][x].missed == before[y][x].missed
    ensures Marked(after, width, height, rows, data, i + 1)
  {
    AxialPrefix(data, i);
  }

  /** On a grid marked after the first `i` entries, the ship of entry i can
      be placed exactly when each of its cells lies inside the field and
      outside the bands of the earlier entries. */
  lemma PlaceableIff(field: GameField, rows: seq<seq<Code>>, data: seq<ShipRecord>, i: nat)
    requires field.Valid() && i < |data| && Complete(data[i])
    requires Marked(field.field, field.width, field.height, rows, data, i)
    ensures field.CanPlace(data[i].coords.value, Facing(data[i]), |data[i].segments.value|) <==>
              forall j :: 0 <= j < |data[i].segments.value| ==>
                && 0 <= AxisCell(data[i].coords.value, Facing(data[i]), j).x < field.width
                && 0 <= AxisCell(data[i].coords.value, Facing(data[i]), j).y < field.height
                && !Banded(data, i, AxisCell(data[i].coords.value, Facing(data[i]), j))
  {
  }

  /** A side rebuilt from its field rows and ship entries: a valid side
      whose pool has no free ship and one active ship per entry, in order,
      each standing where its entry says; the taken cells are those of the
      entries' bands. When every entry is Horizontal or Vertical each ship
      also has the recorded statuses and each cell shows ShipHit on a hit
      segment and its saved status elsewhere. */
  ghost predicate Rebuilt(field: GameField, manager: ShipManager, rows: seq<seq<Code>>, data: seq<ShipRecord>)
    reads field, field.Ships, manager, manager.Fleet()
  {
    && SideValid(field, manager) && manager.Valid()
    && manager.free == [] && |manager.active| == |data|
    && (forall k :: 0 <= k < |data| ==> PlacedAsRecorded(manager.active[k], data[k]))
    && (AllAxial(data) ==> forall k :: 0 <= k < |data| ==> DamagedAsRecorded(manager.active[k], data[k]))
    && Marked(field.field, field.width, field.height, rows, data, |data|)
  }

  /** The placing loop of loadShipManagerFromJson has handled the first
      `i` entries: the pool's ships, in creation order, are `ships`; the
      first `i` are active, stand where their entries say and, when those
      entries are all Horizontal or Vertical, carry the recorded statuses;
      the rest are free, unplaced and of the entries' sizes. */
  ghost predicate Loading(field: GameField, manager: ShipManager, data: seq<ShipRecord>, ships: seq<Ship>, i: int)
    reads field, field.Ships, manager, manager.Fleet(), ships
  {
    && 0 <= i <= |data| == |ships|
    && ValidFieldSize(field.width, field.height)
    && field.Linked() && manager.Valid() && field.Ships == ActiveSet(manager) && AllPlaced(manager)
    && (forall s :: s in manager.free ==> s.segments == [])
    && manager.active == ships[..i] && manager.free == ships[i..]
    && (forall k :: i <= k < |data| ==> Complete(data[k]) && ships[k].length == |data[k].segments.value|)
    && (forall k :: 0 <= k < i ==> PlacedAsRecorded(ships[k], data[k]))
    && (AllAxial(data[..i]) ==> forall k :: 0 <= k < i ==> DamagedAsRecorded(ships[k], data[k]))
  }

  /** Once every entry is handled, the side is rebuilt. */
  lemma LoadingDone(field: GameField, manager: ShipManager, rows: seq<seq<Code>>, data: seq<ShipRecord>, ships: seq<Ship>)
    requires Loading(field, manager, data, ships, |data|)
    requires Marked(field.field, field.width, field.height, rows, data, |data|)
    ensures Rebuilt(field, manager, rows, data)
  {
    assert data[..|data|] == data && ships[..|data|] == ships;
  }

  /** One pass of the placing loop, on entry `i`: it succeeds exactly when
      the entry fits after the earlier ones. */
  method LoadNext(field: GameField, manager: ShipManager, data: seq<ShipRecord>, ghost ships: seq<Ship>, i: int,
                  ghost rows: seq<seq<Code>>)
      returns (r: Outcome)
    requires Loading(field, manager, data, ships, i) && i < |data|
    requires Marked(field.field, field.width, field.height, rows, data, i)
    modifies field`field, field`Ships, manager, manager.Fleet()
    ensures manager.Fleet() == old(manager.Fleet())
    ensures r.Pass? <==> EntryFits(field.width, field.height, data, i)
    ensures r.Fail? ==> r.error == OutOfRange
    ensures r.Pass? ==> Loading(field, manager, data, ships, i + 1)
    ensures r.Pass? ==> Marked(field.field, field.width, field.height, rows, data, i + 1)
  {
    PlaceableIff(field, rows, data, i);
    ghost var before := field.field;
    label pre:
    r := LoadRecord(field, manager, data[i]);
    if r.Fail? {
      return;
    }
    MarkedStep(before, field.field, field.width, field.height, rows, data, i);
    assert ships[..i + 1] == ships[..i] + [ships[i]];
    forall k | 0 <= k < i ensures PlacedAsRecorded(ships[k], data[k]) {
      assert ships[k] in old@pre(manager.active);
      assert Kept@pre(ships[k]);
    }
    forall k | i + 1 <= k < |data| ensures ships[k].length == |data[k].segments.value| {
      assert ships[k] in old@pre(manager.free[1..]);
      assert Kept@pre(ships[k]);
    }
    AxialPrefix(data, i);
    if AllAxial(data[..i + 1]) {
      forall k | 0 <= k < i ensures DamagedAsRecorded(ships[k], data[k]) {
        assert old@pre(DamagedAsRecorded(ships[k], data[k]));
        assert ships[k] in old@pre(manager.active);
        assert unchanged@pre(ships[k]);
      }
    }
  }

  /** loadShipManagerFromJson on a field freshly loaded from `rows`: the
      sizes are collected first (InvalidShipData for an entry without a key,
      InvalidShipSize for a bad segment count, the field untouched either
      way); then, entry by entry, a new ship is placed, activated and
      damaged as recorded, any failure being out_of_range. Past the first
      checks it succeeds exactly when the entries settle on the field. */
  method LoadShipManager(data: seq<ShipRecord>, field: GameField, ghost rows: seq<seq<Code>>) returns (r: Result<ShipManager>)
    requires ValidFieldSize(field.width, field.height) && field.Linked() && field.Ships == {}
    requires forall y, x :: 0 <= y < field.height && 0 <= x < field.width ==> field.field[y][x] == LoadedCell(rows, x, y)
    modifies field`field, field`Ships
    ensures ShipDataError(data).Some? ==> r == Err(ShipDataError(data).value) && unchanged(field)
    ensures ShipDataError(data).None? ==> (r.Ok? <==> Settles(field.width, field.height, data, |data|))
    ensures ShipDataError(data).None? && r.Err? ==> r.error == OutOfRange
    ensures r.Ok? ==> fresh(r.value) && fresh(r.value.Fleet()) && Rebuilt(field, r.value, rows, data)
  {
    var sizes := CollectSizes(data);
    if sizes.Err? {
      return Err(sizes.error);
    }
    var made := ShipManager.New(sizes.value);
    if made.Err? {
      return Err(made.error);
    }
    var manager := made.value;
    ghost var ships := manager.free;
    assert ships[..0] == [] && ships[0..] == ships;
    assert AllAxial(data[..0]);
    var placed := LoadShips(field, manager, data, ships, rows);
    if placed.Fail? {
      return Err(placed.error);
    }
    LoadingDone(field, manager, rows, data, ships);
    return Ok(manager);
  }

  /** The placing loop of loadShipManagerFromJson: it succeeds exactly when
      the entries settle on the field. */
  method LoadShips(field: GameField, manager: ShipManager, data: seq<ShipRecord>, ghost ships: seq<Ship>,
                   ghost rows: seq<seq<Code>>)
      returns (r: Outcome)
    requires Loading(field, manager, data, ships, 0)
    requires Marked(field.field, field.width, field.height, rows, data, 0)
    modifies field`field, field`Ships, manager, manager.Fleet()
    ensures manager.Fleet() == old(manager.Fleet())
    ensures r.Pass? <==> Settles(field.width, field.height, data, |data|)
    ensures r.Fail? ==> r.error == OutOfRange
    ensures r.Pass? ==> Loading(field, manager, data, ships, |data|)
    ensures r.Pass? ==> Marked(field.field, field.width, field.height, rows, data, |data|)
  {
    r := Pass;
    var i := 0;
    while i < |data|
      invariant manager.Fleet() == old(manager.Fleet()) && r == Pass
      invariant Loading(field, manager, data, ships, i)
      invariant Marked(field.field, field.width, field.height, rows, data, i)
      invariant Settles(field.width, field.height, data, i)
    {
      r := LoadNext(field, manager, data, ships, i, rows);
      if r.Fail? {
        return;
      }
      i := i + 1;
    }
  }

  // ---------------------------------------------------------------- loading a game

  /** Every step of loading can succeed on the snapshot's data, except
      perhaps the placements and replays, which depend on where the ships
      fall. */
  predicate Loadable(s: Snapshot) {
    && FieldError(s.playerFieldWidth, s.playerFieldHeight, s.playerField).None?
    && FieldError(s.botFieldWidth, s.botFieldHeight, s.botField).None?
    && ShipDataError(s.playerShipData).None? && ShipDataError(s.botShipData).None?
    && KnownNames(s.playerAbilityManager)
  }

  /** The game holds what the snapshot records: the counter and the flags,
      both fields' dimensions, both sides rebuilt from their rows and
      entries, and the named abilities in order. */
  ghost predicate Restored(g: Game, s: Snapshot)
    reads g, g.playerField, g.playerField.Ships, g.playerShips, g.playerShips.Fleet()
    reads g.enemyField, g.enemyField.Ships, g.enemyShips, g.enemyShips.Fleet(), g.abilities
  {
    && g.roundCounter == s.roundCounter && g.isPlayerStep == s.isPlayerStep
    && g.isPlayerUseAbility == s.isPlayerUseAbility && g.isPlayerDoAttack == s.isPlayerDoAttack
    && g.playerField.width == s.playerFieldWidth && g.playerField.height == s.playerFieldHeight
    && g.enemyField.width == s.botFieldWidth && g.enemyField.height == s.botFieldHeight
    && Rebuilt(g.playerField, g.playerShips, s.playerField, s.playerShipData)
    && Rebuilt(g.enemyField, g.enemyShips, s.botField, s.botShipData)
    && KnownNames(s.playerAbilityManager) && g.abilities.queue == Kinds(s.playerAbilityManager)
  }

  /** A field and the ship pool that goes with it. */
  datatype Side = Side(field: GameField, ships: ShipManager)

  /** What loading one side fails with, if anything: the field's error,
      then the entries' error, then out_of_range when the ships do not
      settle on the field. */
  predicate SideFails(width: int, height: int, rows: seq<seq<Code>>, data: seq<ShipRecord>) {
    FieldError(width, height, rows).Some? || ShipDataError(data).Some? || !Settles(width, height, data, |data|)
  }

  function SideError(width: int, height: int, rows: seq<seq<Code>>, data: seq<ShipRecord>): (e: Option<Error>)
    ensures e.Some? <==> SideFails(width, height, rows, data)
  {
    if FieldError(width, height, rows).Some? then FieldError(width, height, rows)
    else if ShipDataError(data).Some? then ShipDataError(data)
    else if !Settles(width, height, data, |data|) then Some(OutOfRange)
    else None
  }

  /** One side of GameState::load: loadFieldFromJson, then
      loadShipManagerFromJson on that field. It fails exactly as SideError
      says; on success both are new, the field has the saved dimensions and
      the side is rebuilt from its rows and entries. */
  method LoadSide(width: int, height: int, rows: seq<seq<Code>>, data: seq<ShipRecord>) returns (r: Result<Side>)
    ensures r.Err? <==> SideError(width, height, rows, data).Some?
    ensures r.Err? ==> r.error == SideError(width, height, rows, data).value
    ensures r.Ok? ==> && fresh(r.value.field) && fresh(r.value.ships) && fresh(r.value.ships.Fleet())
                      && r.value.field.width == width && r.value.field.height == height
                      && Rebuilt(r.value.field, r.value.ships, rows, data)
  {
    var field := LoadField(width, height, rows);
    if field.Err? {
      return Err(field.error);
    }
    var ships := LoadShipManager(data, field.value, rows);
    if ships.Err? {
      return Err(ships.error);
    }
    return Ok(Side(field.value, ships.value));
  }

  /** A side rebuilt from its entries had no entry without a key and no
      bad segment count. */
  lemma LoadableShips(field: GameField, manager: ShipManager, rows: seq<seq<Code>>, data: seq<ShipRecord>)
    requires Rebuilt(field, manager, rows, data)
    ensures ShipDataError(data).None?
  {
    forall i | 0 <= i < |data| ensures Complete(data[i]) && ValidLength(|data[i].segments.value|) {
      assert manager.active[i] in manager.Fleet();
    }
  }

  /** The construction that ends GameState::load: a new game holding the
      two loaded sides, the loaded abilities and the saved counter and
      flags. Sides that share no field, pool or ship make a valid game. */
  method Assemble(player: Side, bot: Side, abilities: AbilityManager, s: Snapshot) returns (g: Game)
    requires player.field != bot.field && player.ships != bot.ships && player.field.Ships !! bot.field.Ships
    requires Rebuilt(player.field, player.ships, s.playerField, s.playerShipData)
    requires Rebuilt(bot.field, bot.ships, s.botField, s.botShipData)
    requires player.field.width == s.playerFieldWidth && player.field.height == s.playerFieldHeight
    requires bot.field.width == s.botFieldWidth && bot.field.height == s.botFieldHeight
    requires abilities.catalog == Catalog
    requires KnownNames(s.playerAbilityManager) && abilities.queue == Kinds(s.playerAbilityManager)
    ensures fresh(g) && g.Valid() && Restored(g, s)
    ensures g.playerField == player.field && g.enemyField == bot.field && g.abilities == abilities
    ensures g.playerShips == player.ships && g.enemyShips == bot.ships
  {
    g := new Game.Of(player.field, bot.field, player.ships, bot.ships, abilities,
                     s.roundCounter, s.isPlayerStep, s.isPlayerUseAbility, s.isPlayerDoAttack);
  }

  /** What GameState::load fails with, if anything: the player's side,
      then the ability names, then the bot's side. */
  function LoadError(s: Snapshot): (e: Option<Error>)
    ensures e.Some? <==> SideFails(s.playerFieldWidth, s.playerFieldHeight, s.playerField, s.playerShipData) ||
                         !KnownNames(s.playerAbilityManager) ||
                         SideFails(s.botFieldWidth, s.botFieldHeight, s.botField, s.botShipData)
  {
    var player := SideError(s.playerFieldWidth, s.playerFieldHeight, s.playerField, s.playerShipData);
    if player.Some? then player
    else if !KnownNames(s.playerAbilityManager) then Some(UnknownAbilityName)
    else SideError(s.botFieldWidth, s.botFieldHeight, s.botField, s.botShipData)
  }

  /** GameState::load: the counter and flags, then the player's field, the
      player's ships, the abilities, the bot's field and the bot's ships, in
      that order, the first failure ending the load with its exception, as
      LoadError says; on success a new valid game holds what the snapshot
      records. */
  method Load(s: Snapshot) returns (r: Result<Game>)
    ensures r.Ok? ==> && fresh(r.value) && fresh(r.value.playerField) && fresh(r.value.enemyField)
                      && fresh(r.value.playerShips) && fresh(r.value.enemyShips) && fresh(r.value.abilities)
    ensures r.Ok? ==> r.value.Valid() && Restored(r.value, s) && Loadable(s)
    ensures r.Err? <==> LoadError(s).Some?
    ensures r.Err? ==> r.error == LoadError(s).value
  {
    var player := LoadSide(s.playerFieldWidth, s.playerFieldHeight, s.playerField, s.playerShipData);
    if player.Err? {
      return Err(player.error);
    }
    var am := LoadAbilities(s.playerAbilityManager);
    if am.Err? {
      return Err(am.error);
    }
    var bot := LoadSide(s.botFieldWidth, s.botFieldHeight, s.botField, s.botShipData);
    if bot.Err? {
      return Err(bot.error);
    }
    assert player.value.field.Ships !! bot.value.field.Ships by {
      assert bot.value.field.Ships <= bot.value.ships.Fleet();
    }
    var g := Assemble(player.value, bot.value, am.value, s);
    return Ok(g);
  }

  /** Restored speaks only of what the members hold, so a game whose
      members hold the same as those of a restored game is restored too. */
  lemma RestoredCopy(h: Game, g: Game, s: Snapshot)
    requires Restored(h, s)
    requires Copies(g, h)
    ensures Restored(g, s)
  {
  }

  /** The assignment `*this = state.load()` of Game::loadGame: the game
      takes over what a restored game holds, and is then restored itself. */
  method Replace(game: Game, h: Game, s: Snapshot)
    requires game.playerField != game.enemyField && game.playerShips != game.enemyShips
    requires game.Members() !! h.Members()
    requires h.Valid() && Restored(h, s)
    modifies game`roundCounter, game`isPlayerStep, game`isPlayerUseAbility, game`isPlayerDoAttack
    modifies game.playerField, game.enemyField, game.playerShips, game.enemyShips, game.abilities
    ensures game.Valid() && Restored(game, s)
  {
    game.Assign(h);
    assert unchanged(h, h.playerField, h.enemyField, h.playerShips, h.enemyShips, h.abilities);
    assert unchanged(h.playerField.Ships, h.playerShips.Fleet(), h.enemyField.Ships, h.enemyShips.Fleet());
    CopyValid(game, h);
    RestoredCopy(h, game, s);
  }

  /** Game::loadGame: a snapshot that loads (LoadError finds nothing)
      replaces the whole game, which is then valid and holds what the
      snapshot records; one that fails to load leaves the game as it was and
      reports false. */
  method LoadGame(game: Game, s: Snapshot) returns (ok: bool)
    requires game.playerField != game.enemyField && game.playerShips != game.enemyShips
    modifies game`roundCounter, game`isPlayerStep, game`isPlayerUseAbility, game`isPlayerDoAttack
    modifies game.playerField, game.enemyField, game.playerShips, game.enemyShips, game.abilities
    ensures !ok ==> unchanged(game, game.playerField, game.enemyField, game.playerShips, game.enemyShips, game.abilities)
    ensures ok <==> LoadError(s).None?
    ensures ok ==> game.Valid() && Restored(game, s)
    ensures !Loadable(s) ==> !ok
  {
    var r := Load(s);
    if r.Err? {
      return false;
    }
    Replace(game, r.value, s);
    return true;
  }

  // ---------------------------------------------------------------- saving, then loading

  /** Two ship sequences of the same length whose ships pairwise stand at
      the same origin, with the same orientation and length. */
  ghost predicate SameLayouts(a: seq<Ship>, b: seq<Ship>)
    reads a, b
  {
    && |a| == |b|
    && forall k :: 0 <= k < |a| ==>
         a[k].topLeft == b[k].topLeft && a[k].orientation == b[k].orientation && a[k].length == b[k].length
  }

  /** ... and whose placed ships pairwise carry the same segment statuses. */
  ghost predicate SameDamage(a: seq<Ship>, b: seq<Ship>)
    reads a, b
  {
    && |a| == |b|
    && forall k, j :: 0 <= k < |a| && 0 <= j < a[k].length && 0 <= j < b[k].length && a[k].Placed() && b[k].Placed() ==>
         a[k].segments[j].status == b[k].segments[j].status
  }

  /** The entries saved for ships none of which has the Unknown orientation
      are all Horizontal or Vertical. */
  lemma SavedAxial(ships: seq<Ship>)
    requires forall i :: 0 <= i < |ships| ==> ships[i].Placed() && ships[i].orientation != Orientation.Unknown
    ensures AllAxial(SaveShips(ships))
  {
    var data := SaveShips(ships);
    forall k | 0 <= k < |data| ensures Axial(data[k]) {
      CodesRoundTrip(Intact, ships[k].orientation);
    }
  }

  /** Ships rebuilt from the entries saved for placed ships stand where those
      ships stood, and when they carry the entries' statuses they are damaged
      as those ships were. */
  lemma {:induction false} ReloadedShips(saved: seq<Ship>, loaded: seq<Ship>)
    requires forall i :: 0 <= i < |saved| ==> saved[i].Placed()
    requires |loaded| == |saved|
    requires forall k :: 0 <= k < |loaded| ==> PlacedAsRecorded(loaded[k], SaveShips(saved)[k])
    ensures SameLayouts(loaded, saved)
    ensures (forall k :: 0 <= k < |loaded| ==> DamagedAsRecorded(loaded[k], SaveShips(saved)[k])) ==>
              SameDamage(loaded, saved)
  {
    var data := SaveShips(saved);
    forall k | 0 <= k < |loaded|
      ensures loaded[k].topLeft == saved[k].topLeft && loaded[k].orientation == saved[k].orientation
      ensures loaded[k].length == saved[k].length
    {
      assert data[k] == SaveShip(saved[k]);
      CodesRoundTrip(Intact, saved[k].orientation);
    }
    if forall k :: 0 <= k < |loaded| ==> DamagedAsRecorded(loaded[k], data[k]) {
      forall k, j | 0 <= k < |loaded| && 0 <= j < loaded[k].length
        ensures loaded[k].segments[j].status == saved[k].segments[j].status
      {
        assert data[k] == SaveShip(saved[k]);
        assert data[k].segments.value == StatusCodes(saved[k].segments);
      }
    }
  }

  /** A side rebuilt from the entries saved for placed ships holds, in its
      active pool, ships laid out as those were, and damaged as those were
      when none of them has the Unknown orientation. */
  lemma RebuiltFromSaved(field: GameField, manager: ShipManager, rows: seq<seq<Code>>, saved: seq<Ship>)
    requires forall i :: 0 <= i < |saved| ==> saved[i].Placed()
    requires Rebuilt(field, manager, rows, SaveShips(saved))
    ensures SameLayouts(manager.active, saved)
    ensures (forall k :: 0 <= k < |saved| ==> saved[k].orientation != Orientation.Unknown) ==>
              SameDamage(manager.active, saved)
  {
    ReloadedShips(saved, manager.active);
    if forall k :: 0 <= k < |saved| ==> saved[k].orientation != Orientation.Unknown {
      SavedAxial(saved);
    }
  }

  /** `grid` is what loading makes of a saved field and saved ships: it has
      the field's size and exactly the bands of the saved ships taken; when
      none of them is Unknown, each cell shows Ship on a hit segment and the
      field's status elsewhere, with the miss flag exactly on Empty. */
  ghost predicate GridReloaded(grid: seq<seq<Cell>>, field: GameField, saved: seq<Ship>)
    reads field, saved
  {
    && (forall i :: 0 <= i < |saved| ==> saved[i].Placed())
    && |grid| == field.height && (forall y :: 0 <= y < field.height ==> |grid[y]| == field.width)
    && |field.field| == field.height && (forall y :: 0 <= y < field.height ==> |field.field[y]| == field.width)
    && (forall y, x :: 0 <= y < field.height && 0 <= x < field.width ==>
          Taken(grid[y][x]) == Banded(SaveShips(saved), |saved|, Coords(x, y)))
    && ((forall k :: 0 <= k < |saved| ==> saved[k].orientation != Orientation.Unknown) ==>
          forall y, x :: 0 <= y < field.height && 0 <= x < field.width ==>
            && grid[y][x].status ==
                 (if Hits(SaveShips(saved), |saved|, Coords(x, y)) then ShipHit else field.field[y][x].status)
            && (grid[y][x].missed <==> field.field[y][x].status == Empty))
  }

  /** A grid marked after every saved entry, on the rows of a saved field,
      is that field reloaded. */
  lemma SavedCellsReload(grid: seq<seq<Cell>>, field: GameField, saved: seq<Ship>)
    requires field.Valid() && forall i :: 0 <= i < |saved| ==> saved[i].Placed()
    requires Marked(grid, field.width, field.height, SaveField(field), SaveShips(saved), |saved|)
    ensures GridReloaded(grid, field, saved)
  {
    SavedFieldReloads(field);
    var data := SaveShips(saved);
    if forall k :: 0 <= k < |saved| ==> saved[k].orientation != Orientation.Unknown {
      SavedAxial(saved);
      assert data[..|data|] == data;
    }
  }

  /** The same, for a side rebuilt as loading rebuilds it. */
  lemma SideCellsReload(loaded: GameField, manager: ShipManager, rows: seq<seq<Code>>, field: GameField, saved: seq<Ship>)
    requires field.Valid() && forall i :: 0 <= i < |saved| ==> saved[i].Placed()
    requires loaded.width == field.width && loaded.height == field.height && rows == SaveField(field)
    requires Rebuilt(loaded, manager, rows, SaveShips(saved))
    ensures GridReloaded(loaded.field, field, saved)
  {
    SavedCellsReload(loaded.field, field, saved);
  }

  /** Loading a valid game's snapshot rebuilds both grids as GridReloaded
      says: the taken cells are the bands of the saved ships and, on a side
      with no Unknown ship, every cell shows Ship on a hit segment and the
      saved game's status elsewhere, with the miss flag exactly on Empty. */
  lemma CaptureRestoresCells(g: Game, h: Game)
    requires g.Valid()
    requires Restored(h, Capture(g))
    ensures GridReloaded(h.playerField.field, g.playerField, g.playerShips.active)
    ensures GridReloaded(h.enemyField.field, g.enemyField, g.enemyShips.active)
  {
    assert forall i :: 0 <= i < |g.playerShips.active| ==> g.playerShips.active[i] in g.playerShips.active;
    assert forall i :: 0 <= i < |g.enemyShips.active| ==> g.enemyShips.active[i] in g.enemyShips.active;
    var s := Capture(g);
    assert s.playerShipData == SaveShips(g.playerShips.active) && s.botShipData == SaveShips(g.enemyShips.active);
    assert s.playerField == SaveField(g.playerField) && s.botField == SaveField(g.enemyField);
    SideCellsReload(h.playerField, h.playerShips, s.playerField, g.playerField, g.playerShips.active);
    SideCellsReload(h.enemyField, h.enemyShips, s.botField, g.enemyField, g.enemyShips.active);
  }

  /** What GameState(Game&) takes from a valid game passes every check of
      GameState::load: the field sizes are valid and every saved entry lies
      inside its field, every ship entry is complete and of a valid size, and
      every ability name is known. */
  lemma CaptureLoadable(g: Game)
    requires g.Valid()
    ensures Loadable(Capture(g))
  {
    var s := Capture(g);
    forall i | 0 <= i < |s.playerShipData| ensures ValidLength(|s.playerShipData[i].segments.value|) {
      assert g.playerShips.active[i] in g.playerShips.active;
    }
    forall i | 0 <= i < |s.botShipData| ensures ValidLength(|s.botShipData[i].segments.value|) {
      assert g.enemyShips.active[i] in g.enemyShips.active;
    }
    SavedAbilitiesReload(g.abilities.queue);
  }

  /** A snapshot of a valid game loads exactly when each side's entries
      settle again, in order, on a field of its saved size: every other
      check of GameState::load passes. */
  lemma CaptureLoadsIff(g: Game)
    requires g.Valid()
    ensures var s := Capture(g);
            LoadError(s).None? <==>
              && Settles(s.playerFieldWidth, s.playerFieldHeight, s.playerShipData, |s.playerShipData|)
              && Settles(s.botFieldWidth, s.botFieldHeight, s.botShipData, |s.botShipData|)
  {
    CaptureLoadable(g);
  }

  /** Saving a valid game and loading the snapshot restores it: the loaded
      game has the same counter, flags, field sizes and ability queue, its
      ships stand where the saved game's ships stood, in the same order, and,
      when no saved ship has the Unknown orientation, they are damaged as the
      saved ones were. */
  lemma {:induction false} CaptureRestores(g: Game, h: Game)
    requires g.Valid()
    requires Restored(h, Capture(g))
    ensures h.roundCounter == g.roundCounter && h.isPlayerStep == g.isPlayerStep
    ensures h.isPlayerUseAbility == g.isPlayerUseAbility && h.isPlayerDoAttack == g.isPlayerDoAttack
    ensures h.playerField.width == g.playerField.width && h.playerField.height == g.playerField.height
    ensures h.enemyField.width == g.enemyField.width && h.enemyField.height == g.enemyField.height
    ensures h.abilities.queue == g.abilities.queue
    ensures SameLayouts(h.playerShips.active, g.playerShips.active)
    ensures SameLayouts(h.enemyShips.active, g.enemyShips.active)
    ensures (forall k :: 0 <= k < |g.playerShips.active| ==> g.playerShips.active[k].orientation != Orientation.Unknown) ==>
              SameDamage(h.playerShips.active, g.playerShips.active)
    ensures (forall k :: 0 <= k < |g.enemyShips.active| ==> g.enemyShips.active[k].orientation != Orientation.Unknown) ==>
              SameDamage(h.enemyShips.active, g.enemyShips.active)
  {
    SavedAbilitiesReload(g.abilities.queue);
    assert forall i :: 0 <= i < |g.playerShips.active| ==> g.playerShips.active[i] in g.playerShips.active;
    assert forall i :: 0 <= i < |g.enemyShips.active| ==> g.enemyShips.active[i] in g.enemyShips.active;
    var s := Capture(g);
    assert s.playerShipData == SaveShips(g.playerShips.active) && s.botShipData == SaveShips(g.enemyShips.active);
    RebuiltFromSaved(h.playerField, h.playerShips, s.playerField, g.playerShips.active);
    RebuiltFromSaved(h.enemyField, h.enemyShips, s.botField, g.enemyShips.active);
  }
}
