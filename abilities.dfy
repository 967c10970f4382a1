/** The three special abilities (lb3/source/DoubleDamage.cpp,
    lb3/source/Scanner.cpp, lb3/source/Bombardment.cpp). Each acts on the
    opponent's field and ship pool at a target cell; the scanner only
    reports what it finds, and the bombardment ignores its target. */
module Abilities {
  import opened Errors
  import opened Ships
  import opened Fields
  import opened ShipManagers

  datatype AbilityKind = DoubleDamage | Scanner | Bombardment

  /** getName of each ability. */
  function Name(k: AbilityKind): string {
    match k
    case DoubleDamage => "DoubleDamage"
    case Scanner => "Scanner"
    case Bombardment => "Bombardment"
  }

  /** The ability a saved name stands for; any other name is unknown. */
  function KindOfName(name: string): (r: Option<AbilityKind>)
    ensures r.Some? ==> Name(r.value) == name
  {
    if name == "DoubleDamage" then Some(DoubleDamage)
    else if name == "Scanner" then Some(Scanner)
    else if name == "Bombardment" then Some(Bombardment)
    else None
  }

  /** Names identify abilities: every ability's name maps back to it, and
      no two abilities share a name. */
  lemma NamesRoundTrip(k: AbilityKind, k': AbilityKind)
    ensures KindOfName(Name(k)) == Some(k)
    ensures Name(k) == Name(k') ==> k == k'
  {
    assert Name(DoubleDamage)[0] == 'D' && Name(Scanner)[0] == 'S' && Name(Bombardment)[0] == 'B';
  }

  // ---------------------------------------------------------------- DoubleDamage

  /** The effect of DoubleDamage::apply on `field`: a target outside the
      field throws OutOfFieldAttackException and changes nothing; on an
      occupied cell the referenced segment takes a hit of 2 and the status
      becomes ShipHit; otherwise the status becomes Empty and the miss flag
      is left as it was. Only the target cell and its segment change. */
  twostate predicate DoubleDamaged(field: GameField, c: Coords, r: Outcome)
    reads field, field.Ships
  {
    && old(field.Valid()) && field.Ships == old(field.Ships)
    && field.width == old(field.width) && field.height == old(field.height)
    && (r.Pass? <==> old(field.InField(c)))
    && (r.Fail? ==> r.error == OutOfFieldAttack && field.field == old(field.field))
    && (r.Pass? && old(field.At(c)).shipHere ==>
          field.field == old(field.With(c, field.At(c).(status := ShipHit))) &&
          old(field.At(c)).segment.value.ship.Hit(old(field.At(c)).segment.value.index, 2))
    && (r.Pass? && !old(field.At(c)).shipHere ==>
          field.field == old(field.With(c, field.At(c).(status := Empty))))
  }

  /** DoubleDamage::apply. */
  method ApplyDoubleDamage(field: GameField, c: Coords) returns (r: Outcome)
    requires field.Linked()
    modifies field`field, field.RefShips(c)
    ensures field.Linked()
    ensures forall s :: s in old(field.RefShips(c)) ==> s.Worn()
    ensures DoubleDamaged(field, c, r)
  {
    if !field.InField(c) {
      return Fail(OutOfFieldAttack);
    }
    var cell := field.field[c.y][c.x];
    if cell.shipHere {
      var ref := cell.segment.value;
      ref.ship.DamageSegment(ref.index, 2);
      field.field := field.With(c, cell.(status := ShipHit));
    } else {
      field.field := field.With(c, cell.(status := Empty));
    }
    return Pass;
  }

  /** Two hits of DoubleDamage's strength always destroy a segment; a
      plain attack needs two hits on an Intact segment. */
  lemma DoubleDamageDestroys(s: SegmentStatus)
    ensures Damage(s, 2) == Destroyed
    ensures Damage(s, 1) == Destroyed <==> s != Intact
  {
  }

  // ---------------------------------------------------------------- Scanner

  /** The 2 x 2 block the scanner inspects, in the order it visits it:
      rows (y) outer, columns (x) inner. */
  function Block(c: Coords): seq<Coords> {
    [Coords(c.x, c.y), Coords(c.x + 1, c.y), Coords(c.x, c.y + 1), Coords(c.x + 1, c.y + 1)]
  }

  /** Row-major order on coordinates. */
  predicate Before(p: Coords, q: Coords) {
    p.y < q.y || (p.y == q.y && p.x < q.x)
  }

  predicate RowMajor(cells: seq<Coords>) {
    forall i, j :: 0 <= i < j < |cells| ==> Before(cells[i], cells[j])
  }

  /** The scanner reports `p`: it lies in the field and a ship occupies it. */
  predicate Found(field: GameField, p: Coords)
    reads field
    requires field.Valid()
  {
    field.InField(p) && field.At(p).shipHere
  }

  /** The cells of `cells` the scanner reports, in their order. */
  function FoundAmong(field: GameField, cells: seq<Coords>): (r: seq<Coords>)
    reads field
    requires field.Valid()
    ensures forall p :: p in r <==> p in cells && Found(field, p)
    ensures RowMajor(cells) ==> RowMajor(r)
  {
    if cells == [] then []
    else
      var rest := FoundAmong(field, cells[1..]);
      assert RowMajor(cells) ==> RowMajor(cells[1..]) && forall q :: q in rest ==> Before(cells[0], q);
      (if Found(field, cells[0]) then [cells[0]] else []) + rest
  }

  /** Scanner::apply: the occupied cells of the 2 x 2 block at `c`, in the
      order visited. Block cells outside the field are skipped without an
      error, and nothing changes. */
  function Scan(field: GameField, c: Coords): (r: seq<Coords>)
    reads field
    requires field.Valid()
    ensures forall p :: p in r <==> c.x <= p.x <= c.x + 1 && c.y <= p.y <= c.y + 1 && Found(field, p)
    ensures RowMajor(r) && |r| <= 4
  {
    var b := Block(c);
    assert forall p :: p in b <==> c.x <= p.x <= c.x + 1 && c.y <= p.y <= c.y + 1;
    var r := FoundAmong(field, b);
    RowMajorLength(r, c);
    r
  }

  /** At most four distinct cells fit in a 2 x 2 block. */
  lemma RowMajorLength(r: seq<Coords>, c: Coords)
    requires RowMajor(r)
    requires forall p :: p in r ==> c.x <= p.x <= c.x + 1 && c.y <= p.y <= c.y + 1
    ensures |r| <= 4
  {
    if |r| > 4 {
      PosGrows(r, c, 4);
      assert false;
    }
  }

  /** Position of a block cell in the scanner's visiting order. */
  function Pos(p: Coords, c: Coords): int {
    2 * (p.y - c.y) + (p.x - c.x)
  }

  lemma {:induction false} PosGrows(r: seq<Coords>, c: Coords, i: int)
    requires RowMajor(r)
    requires forall p :: p in r ==> c.x <= p.x <= c.x + 1 && c.y <= p.y <= c.y + 1
    requires 0 <= i < |r|
    ensures i <= Pos(r[i], c) <= 3
  {
    assert r[i] in r;
    if i > 0 {
      PosGrows(r, c, i - 1);
      assert r[i - 1] in r && Before(r[i - 1], r[i]);
    }
  }

  // ---------------------------------------------------------------- Bombardment

  /** The segment Bombardment::apply damages, trying picks `segmentRolls(t)
      % |segs|` for attempts t = a, a + 1, ... below |segs|: the first pick
      that is not Destroyed, or none if every attempt hit a Destroyed
      segment. */
  function BombardTarget(segs: seq<Segment>, segmentRolls: nat -> nat, a: nat): (r: Option<nat>)
    requires |segs| >= 1
    decreases |segs| - a
    ensures r.Some? ==> r.value < |segs| && segs[r.value].status != Destroyed
    ensures r.Some? ==> exists t :: (a <= t < |segs| && r.value == segmentRolls(t) % |segs| &&
                                     forall u :: a <= u < t ==> segs[segmentRolls(u) % |segs|].status == Destroyed)
    ensures r.None? <==> forall t :: a <= t < |segs| ==> segs[segmentRolls(t) % |segs|].status == Destroyed
  {
    if a >= |segs| then None
    else
      var k := segmentRolls(a) % |segs|;
      if segs[k].status != Destroyed then Some(k)
      else
        var r := BombardTarget(segs, segmentRolls, a + 1);
        assert r.Some? ==> exists t :: (a <= t < |segs| && r.value == segmentRolls(t) % |segs| &&
                                        forall u :: a <= u < t ==> segs[segmentRolls(u) % |segs|].status == Destroyed);
        r
  }

  /** Skipping attempts that hit Destroyed segments does not change the
      outcome. */
  lemma {:induction false} BombardSkip(segs: seq<Segment>, segmentRolls: nat -> nat, a: nat)
    requires |segs| >= 1 && a <= |segs|
    requires forall u :: 0 <= u < a ==> segs[segmentRolls(u) % |segs|].status == Destroyed
    ensures BombardTarget(segs, segmentRolls, 0) == BombardTarget(segs, segmentRolls, a)
  {
    if a > 0 {
      BombardSkip(segs, segmentRolls, a - 1);
    }
  }

  /** A ship with no alive segment is never damaged, and a bombardment
      that damages picks an alive one. */
  lemma BombardOnlyAlive(segs: seq<Segment>, segmentRolls: nat -> nat)
    requires |segs| >= 1
    ensures !AnyAlive(segs) ==> BombardTarget(segs, segmentRolls, 0).None?
    ensures BombardTarget(segs, segmentRolls, 0).Some? ==> AnyAlive(segs)
  {
  }

  /** The active ships' segment counts match their lengths. */
  predicate AllPlaced(manager: ShipManager)
    reads manager, manager.active
  {
    forall s :: s in manager.active ==> s.Placed() && s.length >= 1
  }

  /** The ship a bombardment may change: the picked active ship, if any. */
  function BombardedShip(manager: ShipManager, shipRoll: nat): set<Ship>
    reads manager
  {
    if |manager.active| == 0 then {} else {manager.active[shipRoll % |manager.active|]}
  }

  /** The effect of Bombardment::apply: with no active ship nothing
      changes; otherwise the active ship `shipRoll % |active|` is picked and
      the segment chosen by BombardTarget, if any, takes a hit of 1. No
      other ship and no cell of any field changes. */
  twostate predicate Bombarded(manager: ShipManager, shipRoll: nat, segmentRolls: nat -> nat)
    reads manager, BombardedShip(manager, shipRoll)
  {
    && manager.active == old(manager.active) && manager.free == old(manager.free)
    && (|manager.active| > 0 ==>
          var ship := manager.active[shipRoll % |manager.active|];
          && old(ship.Placed() && ship.length >= 1)
          && match BombardTarget(old(ship.segments), segmentRolls, 0)
             case Some(k) => ship.Hit(k, 1)
             case None => ship.segments == old(ship.segments) && ship.health == old(ship.health))
  }

  /** Bombardment::apply; `shipRoll` and `segmentRolls` stand for the
      successive rand() values. */
  method ApplyBombardment(manager: ShipManager, shipRoll: nat, segmentRolls: nat -> nat)
    requires AllPlaced(manager)
    modifies BombardedShip(manager, shipRoll)
    ensures forall s :: s in BombardedShip(manager, shipRoll) ==> s.Worn()
    ensures Bombarded(manager, shipRoll, segmentRolls)
  {
    if |manager.active| == 0 {
      return;
    }
    var ship := manager.active[shipRoll % |manager.active|];
    var maxAttempts := ship.length;
    var t := 0;
    while maxAttempts > 0
      invariant unchanged(ship) && ship.Placed() && ship.length >= 1
      invariant 0 <= maxAttempts && t == ship.length - maxAttempts
      invariant forall u :: 0 <= u < t ==> ship.segments[segmentRolls(u) % |ship.segments|].status == Destroyed
    {
      maxAttempts := maxAttempts - 1;
      var k := segmentRolls(t) % ship.length;
      var segment := ship.GetSegmentByIndex(k);
      if segment.Some? && segment.value.status != Destroyed {
        BombardSkip(ship.segments, segmentRolls, t);
        ship.DamageSegment(k, 1);
        return;
      }
      t := t + 1;
    }
    BombardSkip(ship.segments, segmentRolls, t);
  }

  // ---------------------------------------------------------------- dispatch

  /** The effect of `ability->apply(field, manager, c)` for an ability of
      kind `kind`; `found` holds what a scanner reports and is empty for
      the other kinds. Each kind leaves alone what the others change. */
  twostate predicate Applied(kind: AbilityKind, field: GameField, manager: ShipManager, c: Coords,
                             shipRoll: nat, segmentRolls: nat -> nat, r: Outcome, found: seq<Coords>)
    reads field, field.Ships, manager, BombardedShip(manager, shipRoll)
  {
    && old(field.Valid()) && field.Ships == old(field.Ships)
    && manager.active == old(manager.active) && manager.free == old(manager.free)
    && match kind
       case DoubleDamage =>
         && DoubleDamaged(field, c, r) && found == []
         && forall s :: s in old(BombardedShip(manager, shipRoll) - field.RefShips(c)) ==> unchanged(s)
       case Scanner =>
         && r == Pass && found == old(Scan(field, c)) && field.field == old(field.field)
         && unchanged(old(BombardedShip(manager, shipRoll)))
         && forall s :: s in old(field.RefShips(c)) ==> unchanged(s)
       case Bombardment =>
         && r == Pass && found == [] && field.field == old(field.field)
         && Bombarded(manager, shipRoll, segmentRolls)
         && forall s :: s in old(field.RefShips(c)) - BombardedShip(manager, shipRoll) ==> unchanged(s)
  }

  /** Ability::apply, dispatched on the kind of ability. */
  method Apply(kind: AbilityKind, field: GameField, manager: ShipManager, c: Coords,
               shipRoll: nat, segmentRolls: nat -> nat) returns (r: Outcome, found: seq<Coords>)
    requires field.Linked() && AllPlaced(manager)
    modifies field`field, field.RefShips(c), BombardedShip(manager, shipRoll)
    ensures field.Linked()
    ensures forall s :: s in old(field.RefShips(c) + BombardedShip(manager, shipRoll)) ==> s.Worn()
    ensures Applied(kind, field, manager, c, shipRoll, segmentRolls, r, found)
  {
    found := [];
    match kind
    case DoubleDamage =>
      r := ApplyDoubleDamage(field, c);
    case Scanner =>
      found := Scan(field, c);
      r := Pass;
    case Bombardment =>
      ApplyBombardment(manager, shipRoll, segmentRolls);
      r := Pass;
  }
}
