/** Ships and their segments (lb3/include/Ship.h, lb3/source/Ship.cpp).
    A ship of length 1 to 4 owns one segment per cell it covers; every
    segment moves one way only, Intact -> Damaged -> Destroyed, and the
    ship's health is recomputed from the segment statuses. */
module Ships {
  import opened Errors

  const MinShipLength: int := 1
  const MaxShipLength: int := 4

  predicate ValidLength(n: int) {
    MinShipLength <= n <= MaxShipLength
  }

  /** Zero-based grid coordinate; x is the column, y the row. */
  datatype Coords = Coords(x: int, y: int)

  datatype SegmentStatus = Intact | Damaged | Destroyed

  datatype Orientation = Horizontal | Vertical | Unknown

  /** The integer an enum value is saved as (its position in the enum). */
  type Code = c: int | 0 <= c <= 2

  function SegmentStatusCode(s: SegmentStatus): Code {
    match s
    case Intact => 0
    case Damaged => 1
    case Destroyed => 2
  }

  function SegmentStatusOfCode(c: Code): (s: SegmentStatus)
    ensures SegmentStatusCode(s) == c
  {
    if c == 0 then Intact else if c == 1 then Damaged else Destroyed
  }

  function OrientationCode(o: Orientation): Code {
    match o
    case Horizontal => 0
    case Vertical => 1
    case Unknown => 2
  }

  function OrientationOfCode(c: Code): (o: Orientation)
    ensures OrientationCode(o) == c
  {
    if c == 0 then Horizontal else if c == 1 then Vertical else Unknown
  }

  /** Saving a status or an orientation as its code and reading it back
      gives the same value: the codes are a bijection onto 0..2. */
  lemma CodesRoundTrip(s: SegmentStatus, o: Orientation)
    ensures SegmentStatusOfCode(SegmentStatusCode(s)) == s
    ensures OrientationOfCode(OrientationCode(o)) == o
  {
  }

  /** One unit of a ship. The owning-ship back-reference of the source is
      implicit: a segment belongs to the Ship object whose sequence holds it. */
  datatype Segment = Segment(coords: Coords, status: SegmentStatus)

  /** The element `std::vector::resize` appends: an Intact segment at (0,0). */
  const FillerSegment: Segment := Segment(Coords(0, 0), Intact)

  /** ShipSegment::setStatus: the status becomes `s`, the coordinate stays. */
  function SetStatus(seg: Segment, s: SegmentStatus): (r: Segment)
    ensures r.status == s && r.coords == seg.coords
  {
    seg.(status := s)
  }

  /** How much health a segment is worth. */
  function SegmentHealth(s: SegmentStatus): nat {
    match s
    case Intact => 2
    case Damaged => 1
    case Destroyed => 0
  }

  /** The health of a ship: the sum of its segments' worth, first to last. */
  function Health(segs: seq<Segment>): nat {
    if segs == [] then 0
    else Health(segs[..|segs| - 1]) + SegmentHealth(segs[|segs| - 1].status)
  }

  /** Health is between 0 and twice the segment count. */
  lemma {:induction false} HealthBounds(segs: seq<Segment>)
    ensures Health(segs) <= 2 * |segs|
  {
    if segs != [] {
      HealthBounds(segs[..|segs| - 1]);
    }
  }

  /** Replacing one segment changes the health by the difference of the
      two segments' worth and by nothing else. */
  lemma {:induction false} HealthUpdate(segs: seq<Segment>, i: int, seg: Segment)
    requires 0 <= i < |segs|
    ensures Health(segs[i := seg]) + SegmentHealth(segs[i].status)
         == Health(segs) + SegmentHealth(seg.status)
  {
    var n := |segs|;
    var t := segs[i := seg];
    assert t[..n - 1] == if i < n - 1 then segs[..n - 1][i := seg] else segs[..n - 1];
    if i < n - 1 {
      HealthUpdate(segs[..n - 1], i, seg);
    }
  }

  /** Some segment is not yet Destroyed. */
  predicate AnyAlive(segs: seq<Segment>) {
    exists i :: 0 <= i < |segs| && segs[i].status != Destroyed
  }

  /** A health of zero means exactly that every segment is Destroyed. */
  lemma {:induction false} HealthZeroIffAllDestroyed(segs: seq<Segment>)
    ensures Health(segs) == 0 <==> !AnyAlive(segs)
  {
    if segs != [] {
      var p := segs[..|segs| - 1];
      HealthZeroIffAllDestroyed(p);
      assert forall k :: 0 <= k < |p| ==> p[k] == segs[k];
      if AnyAlive(segs) && segs[|segs| - 1].status == Destroyed {
        var i :| 0 <= i < |segs| && segs[i].status != Destroyed;
        assert p[i] == segs[i];
      }
    }
  }

  /** Full health means exactly that every segment is Intact. */
  lemma {:induction false} HealthFullIffAllIntact(segs: seq<Segment>)
    ensures Health(segs) == 2 * |segs| <==> forall i :: 0 <= i < |segs| ==> segs[i].status == Intact
  {
    if segs != [] {
      var p := segs[..|segs| - 1];
      HealthFullIffAllIntact(p);
      HealthBounds(p);
      if Health(segs) == 2 * |segs| {
        forall i | 0 <= i < |segs| ensures segs[i].status == Intact {
          if i < |segs| - 1 { assert p[i] == segs[i]; }
        }
      }
      if forall i :: 0 <= i < |segs| ==> segs[i].status == Intact {
        assert forall i :: 0 <= i < |p| ==> p[i] == segs[i];
      }
    }
  }

  /** The status a segment takes after a hit of `amount`: Destroyed stays
      Destroyed, Damaged becomes Destroyed whatever the amount, Intact
      becomes Destroyed for an amount of at least 2 and Damaged otherwise. */
  function Damage(s: SegmentStatus, amount: int): (r: SegmentStatus)
    ensures SegmentStatusCode(s) <= SegmentStatusCode(r)
    ensures s != Destroyed ==> SegmentStatusCode(s) < SegmentStatusCode(r)
    ensures r == Destroyed <==> s != Intact || amount >= 2
  {
    match s
    case Destroyed => Destroyed
    case Damaged => Destroyed
    case Intact => if amount >= 2 then Destroyed else Damaged
  }

  /** Two hits of 1 on an Intact segment equal one hit of 2, and a
      Destroyed segment absorbs every further hit. */
  lemma TwoSingleHitsEqualOneDouble(amount: int)
    ensures Damage(Damage(Intact, 1), 1) == Damage(Intact, 2) == Destroyed
    ensures Damage(Destroyed, amount) == Destroyed
  {
  }

  /** The segment sequence after segment `i` takes a hit of `amount`. */
  function DamageAt(segs: seq<Segment>, i: int, amount: int): seq<Segment>
    requires 0 <= i < |segs|
  {
    segs[i := SetStatus(segs[i], Damage(segs[i].status, amount))]
  }

  /** A hit never raises the recomputed health, and lowers it unless the
      segment was already Destroyed. */
  lemma DamageLowersHealth(segs: seq<Segment>, i: int, amount: int)
    requires 0 <= i < |segs|
    ensures Health(DamageAt(segs, i, amount)) <= Health(segs)
    ensures segs[i].status != Destroyed ==> Health(DamageAt(segs, i, amount)) < Health(segs)
  {
    HealthUpdate(segs, i, SetStatus(segs[i], Damage(segs[i].status, amount)));
  }

  /** `b` is `a` worn down: the same segments at the same places, each at
      least as damaged as before. */
  predicate WornDown(a: seq<Segment>, b: seq<Segment>) {
    |a| == |b| &&
    forall i :: 0 <= i < |a| ==>
      a[i].coords == b[i].coords && SegmentStatusCode(a[i].status) <= SegmentStatusCode(b[i].status)
  }

  /** Wear accumulates: worn down twice is worn down. */
  lemma WornDownTransitive(a: seq<Segment>, b: seq<Segment>, c: seq<Segment>)
    requires WornDown(a, b) && WornDown(b, c)
    ensures WornDown(a, c)
  {
  }

  /** Wear never revives a ship nor raises its health. */
  lemma {:induction false} WornDownKeepsDead(a: seq<Segment>, b: seq<Segment>)
    requires WornDown(a, b)
    ensures AnyAlive(b) ==> AnyAlive(a)
    ensures Health(b) <= Health(a)
  {
    if AnyAlive(b) {
      var i :| 0 <= i < |b| && b[i].status != Destroyed;
      assert a[i].status != Destroyed;
    }
    if |a| > 0 {
      WornDownKeepsDead(a[..|a| - 1], b[..|b| - 1]);
    }
  }

  /** The coordinate of segment `i` of a ship with origin `tl`: along x when
      Horizontal, along y otherwise (Unknown counts as vertical here). */
  function SegmentCoords(o: Orientation, tl: Coords, i: int): Coords {
    if o == Horizontal then Coords(tl.x + i, tl.y) else Coords(tl.x, tl.y + i)
  }

  /** `std::vector::resize(n, filler)`: keep the first n elements, pad with
      the filler. */
  function Resize(s: seq<Segment>, n: nat, filler: Segment): (r: seq<Segment>)
    ensures |r| == n
    ensures forall i :: 0 <= i < n ==> r[i] == if i < |s| then s[i] else filler
  {
    if n <= |s| then s[..n] else s + seq(n - |s|, _ => filler)
  }

  class Ship {
    var length: int
    var orientation: Orientation
    var topLeft: Coords
    var maxHealth: int
    var health: int
    var segments: seq<Segment>

    /** A ship built by `Ship(int)`: a valid length, the health bound tied
        to it, and either no segments yet or exactly `length` of them. */
    ghost predicate Valid()
      reads this
    {
      ValidLength(length) && maxHealth == 2 * length &&
      (|segments| == 0 || |segments| == length)
    }

    /** The ship has been given its coordinates. */
    predicate Placed()
      reads this
    {
      |segments| == length
    }

    /** Sets the fields of `Ship(int)`; `New` checks the length first. */
    constructor Unplaced(n: int)
      ensures length == n && maxHealth == 2 * n && health == 2 * n
      ensures orientation == Unknown && topLeft == Coords(-1, -1) && segments == []
    {
      length := n;
      orientation := Unknown;
      topLeft := Coords(-1, -1);
      maxHealth := 2 * n;
      health := 2 * n;
      segments := [];
    }

    /** Ship(int): throws logic_error unless 1 <= n <= 4. */
    static method New(n: int) returns (r: Result<Ship>)
      ensures r.Ok? <==> ValidLength(n)
      ensures r.Err? ==> r.error == InvalidShipSize
      ensures r.Ok? ==> fresh(r.value) && r.value.Valid() && !r.value.IsAlive()
      ensures r.Ok? ==> r.value.length == n && r.value.maxHealth == 2 * n && r.value.health == 2 * n
      ensures r.Ok? ==> r.value.orientation == Unknown && r.value.topLeft == Coords(-1, -1)
      ensures r.Ok? ==> r.value.segments == []
    {
      if !ValidLength(n) {
        return Err(InvalidShipSize);
      }
      var s := new Ship.Unplaced(n);
      return Ok(s);
    }

    /** getCurrentHealth: recomputes `health` from the segments and returns it. */
    method GetCurrentHealth() returns (h: int)
      modifies this`health
      ensures h == health == Health(segments)
      ensures 0 <= h <= 2 * |segments|
    {
      var sum := 0;
      var i := 0;
      while i < |segments|
        invariant 0 <= i <= |segments|
        invariant sum == Health(segments[..i])
      {
        assert segments[..i + 1][..i] == segments[..i];
        sum := sum + SegmentHealth(segments[i].status);
        i := i + 1;
      }
      assert segments[..i] == segments;
      HealthBounds(segments);
      health := sum;
      h := health;
    }

    /** isAlive: some segment is not Destroyed; a ship without segments
        (not yet placed) is not alive. */
    predicate IsAlive()
      reads this
      ensures IsAlive() <==> Health(segments) > 0
      ensures IsAlive() ==> |segments| > 0
    {
      HealthZeroIffAllDestroyed(segments);
      AnyAlive(segments)
    }

    /** isUnharmed: the stored health equals the maximum. */
    predicate IsUnharmed()
      reads this
      ensures Valid() && Placed() && health == Health(segments) ==>
                (IsUnharmed() <==> forall i :: 0 <= i < |segments| ==> segments[i].status == Intact)
    {
      HealthFullIffAllIntact(segments);
      health == maxHealth
    }

    /** isDestroyed: the stored health is zero; once health has been
        recomputed this is the same as not being alive. */
    predicate IsDestroyed()
      reads this
      ensures health == Health(segments) ==> (IsDestroyed() <==> !IsAlive())
    {
      health == 0
    }

    /** setShipCoordinates: records orientation and origin, resizes the
        segments to `length` when their count differs (keeping the existing
        ones) and lays them out from the origin along the axis. */
    method SetShipCoordinates(o: Orientation, tl: Coords)
      requires Valid()
      modifies this`orientation, this`topLeft, this`segments
      ensures Valid() && Placed()
      ensures orientation == o && topLeft == tl
      ensures forall i :: 0 <= i < length ==> segments[i].coords == SegmentCoords(o, tl, i)
      ensures forall i :: 0 <= i < length ==>
                segments[i].status == if i < |old(segments)| then old(segments)[i].status else Intact
    {
      orientation := o;
      topLeft := tl;
      if |segments| != length {
        segments := Resize(segments, length, FillerSegment);
      }
      ghost var before := segments;
      var i := 0;
      while i < length
        invariant 0 <= i <= length == |segments|
        invariant orientation == o && topLeft == tl
        invariant forall k :: 0 <= k < length ==> segments[k].status == before[k].status
        invariant forall k :: 0 <= k < i ==> segments[k].coords == SegmentCoords(o, tl, k)
      {
        var c := if orientation == Horizontal then Coords(topLeft.x + i, topLeft.y)
                 else Coords(topLeft.x, topLeft.y + i);
        segments := segments[i := segments[i].(coords := c)];
        i := i + 1;
      }
    }

    /** The ship went from the old state to this one by one damageSegment
        call on segment `index`: only that segment's status and the stored
        health changed, and health was recomputed unless the segment was
        already Destroyed (that call returns early). */
    twostate predicate Hit(index: int, amount: int)
      reads this
    {
      && 0 <= index < |old(segments)|
      && segments == DamageAt(old(segments), index, amount)
      && length == old(length) && maxHealth == old(maxHealth)
      && orientation == old(orientation) && topLeft == old(topLeft)
      && health == if old(segments[index].status) == Destroyed then old(health) else Health(segments)
    }

    /** Since the old state the ship has at most been worn down: its length,
        maximum health, orientation, origin and segment positions are the
        same, and no segment is healthier. */
    twostate predicate Worn()
      reads this
    {
      && length == old(length) && maxHealth == old(maxHealth)
      && orientation == old(orientation) && topLeft == old(topLeft)
      && WornDown(old(segments), segments)
    }

    /** damageSegment: moves segment `index` on by one hit of `amount`; a
        Destroyed segment returns early, otherwise health is recomputed and
        has dropped. */
    method DamageSegment(index: int, amount: int)
      requires 0 <= index < |segments|
      modifies this`segments, this`health
      ensures Hit(index, amount) && Worn()
      ensures old(segments[index].status) != Destroyed ==> health < old(Health(segments))
    {
      DamageLowersHealth(segments, index, amount);
      var s := segments[index].status;
      if s == Destroyed {
        return;
      } else if s == Damaged {
        segments := segments[index := SetStatus(segments[index], Destroyed)];
      } else {
        segments := segments[index := SetStatus(segments[index], if amount >= 2 then Destroyed else Damaged)];
      }
      var _ := GetCurrentHealth();
    }

    /** getSegmentByIndex: the segment for an index in [0, length), and
        no segment (a null pointer) for any other index. */
    function GetSegmentByIndex(index: int): (r: Option<Segment>)
      reads this
      requires 0 <= index < length ==> index < |segments|
      ensures r.Some? <==> 0 <= index < length
      ensures r.Some? ==> r.value == segments[index]
    {
      if 0 <= index < length then Some(segments[index]) else None
    }

    /** setSegmentByIndex: replaces segment `index`; an index outside
        [0, length) throws out_of_range and changes nothing. */
    method SetSegmentByIndex(index: int, seg: Segment) returns (r: Outcome)
      requires 0 <= index < length ==> index < |segments|
      modifies this`segments
      ensures r.Pass? <==> 0 <= index < length
      ensures r.Fail? ==> r.error == OutOfRange && segments == old(segments)
      ensures r.Pass? ==> segments == old(segments)[index := seg]
    {
      if 0 <= index < length {
        segments := segments[index := seg];
        return Pass;
      }
      return Fail(OutOfRange);
    }

    /** setLength_and_health: an invalid length throws logic_error and
        changes nothing; otherwise length and both healths are reset and the
        segments are resized to the new length. */
    method SetLengthAndHealth(n: int) returns (r: Outcome)
      modifies this`length, this`maxHealth, this`health, this`segments
      ensures r.Pass? <==> ValidLength(n)
      ensures r.Fail? ==> r.error == InvalidShipSize && unchanged(this)
      ensures r.Pass? ==> Valid() && Placed() && length == n && maxHealth == 2 * n && health == 2 * n
      ensures r.Pass? ==> segments == Resize(old(segments), n, FillerSegment)
    {
      if !ValidLength(n) {
        return Fail(InvalidShipSize);
      }
      length := n;
      maxHealth := length * 2;
      health := maxHealth;
      segments := Resize(segments, length, FillerSegment);
      return Pass;
    }
  }
}
