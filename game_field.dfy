/** The playing field (lb3/include/GameField.h, lb3/source/GameField.cpp):
    a height x width grid of cells indexed [y][x]. A cell records whether a
    ship occupies it, whether it lies in the adjacency band of a placed ship,
    the status an attack revealed, a miss flag and a reference to the ship
    segment it holds. */
module Fields {
  import opened Errors
  import opened Ships

  const MinFieldSize: int := 3
  const MaxFieldSize: int := 25

  predicate ValidFieldSize(width: int, height: int) {
    MinFieldSize <= width <= MaxFieldSize && MinFieldSize <= height <= MaxFieldSize
  }

  /** What an attack revealed about a cell (the source's Status::Ship is
      called ShipHit here). */
  datatype Status = Unknown | Empty | ShipHit

  function StatusCode(s: Status): Code {
    match s
    case Unknown => 0
    case Empty => 1
    case ShipHit => 2
  }

  function StatusOfCode(c: Code): (s: Status)
    ensures StatusCode(s) == c
  {
    if c == 0 then Status.Unknown else if c == 1 then Empty else ShipHit
  }

  /** A cell's reference to a ship segment: the owning Ship object and the
      segment's index in it. */
  datatype SegRef = SegRef(ship: Ship, index: nat)

  datatype Cell = Cell(shipHere: bool, shipNearly: bool, status: Status,
                       segment: Option<SegRef>, missed: bool)

  /** A default cell: unoccupied, not in any band, Unknown, no segment, no miss. */
  const DefaultCell: Cell := Cell(false, false, Status.Unknown, None, false)

  /** `height` rows of `width` default cells. */
  function DefaultGrid(width: nat, height: nat): (g: seq<seq<Cell>>)
    ensures |g| == height
    ensures forall y :: 0 <= y < height ==> |g[y]| == width
    ensures forall y, x :: 0 <= y < height && 0 <= x < width ==> g[y][x] == DefaultCell
  {
    seq(height, _ => seq(width, _ => DefaultCell))
  }

  /** The i-th cell along a ship's axis: y grows for Vertical, x otherwise
      (the field treats Unknown as horizontal). */
  function AxisCell(tl: Coords, o: Orientation, i: int): Coords {
    if o == Vertical then Coords(tl.x, tl.y + i) else Coords(tl.x + i, tl.y)
  }

  /** Position of `c` along the axis of a ship with origin `tl`. */
  function AxisIndex(tl: Coords, o: Orientation, c: Coords): int {
    if o == Vertical then c.y - tl.y else c.x - tl.x
  }

  /** `c` is one of the `len` cells a ship at `tl` covers. */
  predicate OnAxis(tl: Coords, o: Orientation, len: int, c: Coords) {
    (if o == Vertical then c.x == tl.x else c.y == tl.y) && 0 <= AxisIndex(tl, o, c) < len
  }

  /** The rectangle placeShip marks: x in [tl.x - 1, tl.x + offset_x] and
      y in [tl.y - 1, tl.y + offset_y], where the offset is len - 1 along
      the axis and 0 across it. It covers the row above and the column to
      the left of the ship, not the row below or the column to the right. */
  predicate InBand(tl: Coords, o: Orientation, len: int, c: Coords) {
    var offX := if o == Vertical then 0 else len - 1;
    var offY := if o == Vertical then len - 1 else 0;
    tl.x - 1 <= c.x <= tl.x + offX && tl.y - 1 <= c.y <= tl.y + offY
  }

  /** The cell at `c` after a ship of length `len` is placed at `tl`: a cell
      on the axis becomes occupied and refers to its segment; any other
      unoccupied cell of the band becomes adjacency-marked. */
  ghost function PlacedCell(old0: Cell, ship: Ship, tl: Coords, o: Orientation, len: int, c: Coords): Cell {
    if OnAxis(tl, o, len, c) then old0.(shipHere := true, segment := Some(SegRef(ship, AxisIndex(tl, o, c))))
    else if InBand(tl, o, len, c) && !old0.shipHere then old0.(shipNearly := true)
    else old0
  }

  /** The axis cells, the axis index and the ship's own segment layout agree
      for Horizontal and Vertical ships. */
  lemma AxisCellOnAxis(tl: Coords, o: Orientation, len: int, i: int)
    requires 0 <= i < len
    ensures OnAxis(tl, o, len, AxisCell(tl, o, i)) && AxisIndex(tl, o, AxisCell(tl, o, i)) == i
    ensures InBand(tl, o, len, AxisCell(tl, o, i))
    ensures o != Orientation.Unknown ==> AxisCell(tl, o, i) == SegmentCoords(o, tl, i)
  {
  }

  /** The band is one-sided: the cell just past a ship's far end and the
      cell just across its axis on the far side are left unmarked, so a later
      ship may be placed touching them. */
  lemma BandIsOneSided(tl: Coords, o: Orientation, len: int)
    requires 1 <= len
    ensures !InBand(tl, o, len, AxisCell(tl, o, len))
    ensures !InBand(tl, o, len, if o == Vertical then Coords(tl.x + 1, tl.y) else Coords(tl.x, tl.y + 1))
    ensures InBand(tl, o, len, AxisCell(tl, o, -1))
  {
  }

  class GameField {
    var width: int
    var height: int
    var field: seq<seq<Cell>>
    /** The ships whose segments cells may refer to. */
    ghost var Ships: set<Ship>

    /** The grid has `height` rows of `width` cells, and a cell is occupied
        exactly when it refers to a segment of one of `Ships`. */
    ghost predicate Valid()
      reads this
    {
      && 0 <= width && 0 <= height
      && |field| == height
      && (forall y :: 0 <= y < height ==> |field[y]| == width)
      && (forall y, x :: 0 <= y < height && 0 <= x < width ==>
            (field[y][x].shipHere <==> field[y][x].segment.Some?) &&
            (field[y][x].segment.Some? ==> field[y][x].segment.value.ship in Ships))
    }

    /** Every segment reference points at an existing segment. */
    ghost predicate Linked()
      reads this, Ships
    {
      Valid() &&
      forall y, x :: 0 <= y < height && 0 <= x < width && field[y][x].segment.Some? ==>
        field[y][x].segment.value.index < |field[y][x].segment.value.ship.segments|
    }

    /** coordinatsInField. */
    predicate InField(c: Coords)
      reads this
    {
      0 <= c.x < width && 0 <= c.y < height
    }

    function At(c: Coords): Cell
      reads this
      requires Valid() && InField(c)
    {
      field[c.y][c.x]
    }

    /** The grid with the cell at `c` replaced. */
    function With(c: Coords, cell: Cell): seq<seq<Cell>>
      reads this
      requires Valid() && InField(c)
    {
      field[c.y := field[c.y][c.x := cell]]
    }

    /** Free for a new ship: in the field, not occupied, not in a band. */
    predicate Free(c: Coords)
      reads this
      requires Valid()
    {
      InField(c) && !At(c).shipHere && !At(c).shipNearly
    }

    /** Every one of the `size` cells along the axis is free. */
    predicate CanPlace(tl: Coords, o: Orientation, size: int)
      reads this
      requires Valid()
    {
      forall i :: 0 <= i < size ==> Free(AxisCell(tl, o, i))
    }

    /** The ship referenced by the cell at `c`, if any: what an attack on
        `c` may change besides the field. */
    function RefShips(c: Coords): set<Ship>
      reads this
      requires Valid()
    {
      if InField(c) && At(c).segment.Some? then {At(c).segment.value.ship} else {}
    }

    /** Every cell is a default cell. */
    predicate Blank()
      reads this
    {
      && |field| == height
      && (forall y :: 0 <= y < height ==> |field[y]| == width)
      && forall y, x :: 0 <= y < height && 0 <= x < width ==> field[y][x] == DefaultCell
    }

    /** Sets up an empty `width` x `height` grid; `New` checks the size first. */
    constructor Sized(width: nat, height: nat)
      ensures Valid() && this.width == width && this.height == height
      ensures Blank() && Ships == {}
    {
      this.width := width;
      this.height := height;
      field := DefaultGrid(width, height);
      Ships := {};
    }

    /** GameField(width, height): throws logic_error unless both sizes lie
        in [3, 25]; otherwise every cell is a default cell. */
    static method New(width: int, height: int) returns (r: Result<GameField>)
      ensures r.Ok? <==> ValidFieldSize(width, height)
      ensures r.Err? ==> r.error == InvalidFieldSize
      ensures r.Ok? ==> fresh(r.value) && r.value.Valid() && r.value.Linked()
      ensures r.Ok? ==> r.value.width == width && r.value.height == height
      ensures r.Ok? ==> r.value.Blank() && r.value.Ships == {}
    {
      if !ValidFieldSize(width, height) {
        return Err(InvalidFieldSize);
      }
      var f := new GameField.Sized(width, height);
      return Ok(f);
    }

    /** Reassigning a field member (`playerField = GameField(10, 10)`):
        this field takes the other's size and cells, and the cells keep
        referring to the same ship objects. */
    method Assign(other: GameField)
      modifies this
      ensures width == old(other.width) && height == old(other.height)
      ensures field == old(other.field) && Ships == old(other.Ships)
      ensures old(other.Linked()) ==> Linked()
    {
      width, height, field := other.width, other.height, other.field;
      Ships := other.Ships;
    }

    /** getCellAt: the cell, or out_of_range outside the field. */
    function GetCellAt(c: Coords): (r: Result<Cell>)
      reads this
      requires Valid()
      ensures r.Ok? <==> InField(c)
      ensures r.Err? ==> r.error == OutOfRange
      ensures r.Ok? ==> r.value == field[c.y][c.x]
    {
      if InField(c) then Ok(At(c)) else Err(OutOfRange)
    }

    /** getCellStatus: the cell's attack status, or out_of_range. */
    function GetCellStatus(c: Coords): (r: Result<Status>)
      reads this
      requires Valid()
      ensures r.Ok? <==> InField(c)
      ensures r.Err? ==> r.error == OutOfRange
      ensures r.Ok? ==> r.value == field[c.y][c.x].status
    {
      if InField(c) then Ok(At(c).status) else Err(OutOfRange)
    }

    /** isShipHere: whether a ship occupies the cell, or out_of_range. */
    function IsShipHere(c: Coords): (r: Result<bool>)
      reads this
      requires Valid()
      ensures r.Ok? <==> InField(c)
      ensures r.Err? ==> r.error == OutOfRange
      ensures r.Ok? ==> (r.value <==> field[c.y][c.x].segment.Some?)
    {
      if InField(c) then Ok(At(c).shipHere) else Err(OutOfRange)
    }

    /** isShipHereDestroyed: whether the cell holds a Destroyed segment, or
        out_of_range. */
    function IsShipHereDestroyed(c: Coords): (r: Result<bool>)
      reads this, Ships
      requires Linked()
      ensures r.Ok? <==> InField(c)
      ensures r.Err? ==> r.error == OutOfRange
      ensures r.Ok? ==> (r.value <==> (field[c.y][c.x].segment.Some? &&
                                       var ref := field[c.y][c.x].segment.value;
                                       ref.ship.segments[ref.index].status == Destroyed))
    {
      if !InField(c) then Err(OutOfRange)
      else if At(c).shipHere && At(c).segment.Some? then
        var ref := At(c).segment.value;
        Ok(ref.ship.segments[ref.index].status == Destroyed)
      else Ok(false)
    }

    /** setCellStatus: changes only that cell's status; out_of_range (and no
        change) outside the field. */
    method SetCellStatus(c: Coords, s: Status) returns (r: Outcome)
      requires Valid()
      modifies this`field
      ensures Valid()
      ensures r.Pass? <==> InField(c)
      ensures r.Fail? ==> r.error == OutOfRange && field == old(field)
      ensures r.Pass? ==> field == old(With(c, At(c).(status := s)))
    {
      if !InField(c) {
        return Fail(OutOfRange);
      }
      field := With(c, At(c).(status := s));
      return Pass;
    }

    /** resizeSize: takes the new sizes unchecked and refills the grid with
        default cells. A negative size makes std::vector throw length_error
        after the sizes were stored and the grid cleared. */
    method ResizeSize(width: int, height: int) returns (r: Outcome)
      modifies this`width, this`height, this`field
      ensures this.width == width && this.height == height
      ensures r.Pass? <==> width >= 0 && height >= 0
      ensures r.Pass? ==> Valid() && Blank()
      ensures r.Fail? ==> r.error == LengthError && field == []
    {
      this.width := width;
      this.height := height;
      field := [];
      if width < 0 || height < 0 {
        return Fail(LengthError);
      }
      field := DefaultGrid(width, height);
      return Pass;
    }

    /** shipCoordinatesCorrect: walks the `size` cells along the axis and
        fails at the first one that is outside the field, occupied or in a
        band. */
    method ShipCoordinatesCorrect(tl: Coords, o: Orientation, size: int) returns (ok: bool)
      requires Valid()
      ensures ok == CanPlace(tl, o, size)
    {
      var cell := tl;
      var i := 0;
      while i < size
        invariant 0 <= i && (i <= size || i == 0)
        invariant i > 0 ==> cell == AxisCell(tl, o, i - 1)
        invariant i == 0 ==> cell == tl
        invariant forall k :: 0 <= k < i ==> Free(AxisCell(tl, o, k))
      {
        if o == Vertical {
          cell := cell.(y := tl.y + i);
        } else {
          cell := cell.(x := tl.x + i);
        }
        assert cell == AxisCell(tl, o, i);
        if !InField(cell) {
          assert !Free(AxisCell(tl, o, i));
          return false;
        }
        if field[cell.y][cell.x].shipHere || field[cell.y][cell.x].shipNearly {
          assert !Free(AxisCell(tl, o, i));
          return false;
        }
        i := i + 1;
      }
      return true;
    }

    /** placeShip: if the axis cells are not all free, throws out_of_range
        and changes nothing. Otherwise gives the ship its coordinates, makes
        the i-th axis cell occupied and refer to segment i, and marks the
        unoccupied cells of the band; no other cell changes. */
    method PlaceShip(ship: Ship, tl: Coords, o: Orientation) returns (r: Outcome)
      requires Valid() && ship.Valid()
      modifies this`field, this`Ships, ship`orientation, ship`topLeft, ship`segments
      ensures r.Pass? <==> old(CanPlace(tl, o, ship.length))
      ensures r.Fail? ==> r.error == OutOfRange && unchanged(this) && unchanged(ship)
      ensures Valid() && ship.Valid()
      ensures r.Pass? ==> Ships == old(Ships) + {ship} && ship.Placed()
      ensures r.Pass? ==> ship.orientation == o && ship.topLeft == tl
      ensures r.Pass? ==> forall i :: 0 <= i < ship.length ==> ship.segments[i].coords == SegmentCoords(o, tl, i)
      ensures r.Pass? ==> forall i :: 0 <= i < ship.length ==>
                ship.segments[i].status == if i < |old(ship.segments)| then old(ship.segments)[i].status else Intact
      ensures r.Pass? ==> forall y, x :: 0 <= y < height && 0 <= x < width ==>
                field[y][x] == PlacedCell(old(field)[y][x], ship, tl, o, ship.length, Coords(x, y))
      ensures r.Pass? && old(Linked()) ==> Linked()
    {
      var ok := ShipCoordinatesCorrect(tl, o, ship.length);
      if !ok {
        return Fail(OutOfRange);
      }
      ship.SetShipCoordinates(o, tl);
      PlaceSegments(ship, tl, o);
      MarkBand(tl, o, ship.length);
      Ships := Ships + {ship};
      return Pass;
    }

    /** First loop of placeShip: occupy the axis cells. */
    method PlaceSegments(ship: Ship, tl: Coords, o: Orientation)
      requires Valid() && ship.Valid() && ship.orientation == o
      requires CanPlace(tl, o, ship.length)
      modifies this`field
      ensures |field| == height && forall y :: 0 <= y < height ==> |field[y]| == width
      ensures forall y, x :: 0 <= y < height && 0 <= x < width ==>
                field[y][x] == if OnAxis(tl, o, ship.length, Coords(x, y))
                               then old(field)[y][x].(shipHere := true, segment := Some(SegRef(ship, AxisIndex(tl, o, Coords(x, y)))))
                               else old(field)[y][x]
    {
      var cell := tl;
      var i := 0;
      while i < ship.length
        invariant 0 <= i <= ship.length
        invariant if o == Vertical then cell.x == tl.x else cell.y == tl.y
        invariant |field| == height && forall y :: 0 <= y < height ==> |field[y]| == width
        invariant forall y, x :: 0 <= y < height && 0 <= x < width ==>
                    field[y][x] == if OnAxis(tl, o, i, Coords(x, y))
                                   then old(field)[y][x].(shipHere := true, segment := Some(SegRef(ship, AxisIndex(tl, o, Coords(x, y)))))
                                   else old(field)[y][x]
      {
        if ship.orientation == Vertical {
          cell := cell.(y := tl.y + i);
        } else {
          cell := cell.(x := tl.x + i);
        }
        assert cell == AxisCell(tl, o, i) && old(Free(cell));
        var c := field[cell.y][cell.x].(shipHere := true, segment := Some(SegRef(ship, i)));
        field := field[cell.y := field[cell.y][cell.x := c]];
        i := i + 1;
      }
    }

    /** Second loop of placeShip: mark the unoccupied cells of the band. */
    method MarkBand(tl: Coords, o: Orientation, len: int)
      requires |field| == height && forall y :: 0 <= y < height ==> |field[y]| == width
      modifies this`field
      ensures |field| == height && forall y :: 0 <= y < height ==> |field[y]| == width
      ensures forall y, x :: 0 <= y < height && 0 <= x < width ==>
                field[y][x] == if InBand(tl, o, len, Coords(x, y)) && !old(field)[y][x].shipHere
                               then old(field)[y][x].(shipNearly := true)
                               else old(field)[y][x]
    {
      var offX := if o == Vertical then 0 else len - 1;
      var offY := if o == Vertical then len - 1 else 0;
      var x := tl.x - 1;
      while x <= tl.x + offX
        invariant tl.x - 1 <= x && (x <= tl.x + offX + 1 || x == tl.x - 1)
        invariant |field| == height && forall y :: 0 <= y < height ==> |field[y]| == width
        invariant forall yy, xx :: 0 <= yy < height && 0 <= xx < width ==>
                    field[yy][xx] == if InBand(tl, o, len, Coords(xx, yy)) && xx < x && !old(field)[yy][xx].shipHere
                                     then old(field)[yy][xx].(shipNearly := true)
                                     else old(field)[yy][xx]
      {
        var y := tl.y - 1;
        while y <= tl.y + offY
          invariant tl.y - 1 <= y && (y <= tl.y + offY + 1 || y == tl.y - 1)
          invariant |field| == height && forall y :: 0 <= y < height ==> |field[y]| == width
          invariant forall yy, xx :: 0 <= yy < height && 0 <= xx < width ==>
                      field[yy][xx] == if InBand(tl, o, len, Coords(xx, yy)) && (xx < x || (xx == x && yy < y)) && !old(field)[yy][xx].shipHere
                                       then old(field)[yy][xx].(shipNearly := true)
                                       else old(field)[yy][xx]
        {
          if InField(Coords(x, y)) {
            if !field[y][x].shipHere {
              field := field[y := field[y][x := field[y][x].(shipNearly := true)]];
            }
          }
          y := y + 1;
        }
        x := x + 1;
      }
    }

    /** attackCell: out_of_range (and no change) outside the field. On an
        occupied cell the status becomes ShipHit and the referenced segment
        takes one damage; otherwise the status becomes Empty and the miss
        flag is set. Nothing else changes. */
    method AttackCell(c: Coords) returns (r: Outcome)
      requires Linked()
      modifies this`field, RefShips(c)
      ensures Linked() && Ships == old(Ships)
      ensures forall s :: s in old(RefShips(c)) ==> s.Worn()
      ensures r.Pass? <==> InField(c)
      ensures r.Fail? ==> r.error == OutOfRange && field == old(field)
      ensures r.Pass? && old(At(c)).shipHere ==>
                field == old(With(c, At(c).(status := ShipHit))) &&
                old(At(c)).segment.value.ship.Hit(old(At(c)).segment.value.index, 1)
      ensures r.Pass? && !old(At(c)).shipHere ==>
                field == old(With(c, At(c).(status := Empty, missed := true)))
    {
      if !InField(c) {
        return Fail(OutOfRange);
      }
      if field[c.y][c.x].shipHere {
        field := With(c, At(c).(status := ShipHit));
        var ref := At(c).segment.value;
        ref.ship.DamageSegment(ref.index, 1);
      } else {
        field := With(c, At(c).(status := Empty, missed := true));
      }
      return Pass;
    }
  }
}
