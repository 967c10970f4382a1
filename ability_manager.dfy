/** The player's ability queue (lb3/source/AbilityManager.cpp): abilities are
    granted at the back and used from the front. */
module AbilityManagers {
  import opened Errors
  import opened Ships
  import opened Fields
  import opened ShipManagers
  import opened Abilities

  /** The catalog both constructors build, in order. */
  const Catalog: seq<AbilityKind> := [DoubleDamage, Scanner, Bombardment]

  /** The kind `rand() % |catalog|` picks from a catalog. */
  function Pick(catalog: seq<AbilityKind>, roll: nat): (k: AbilityKind)
    requires |catalog| > 0
    ensures k in catalog
  {
    catalog[roll % |catalog|]
  }

  /** Every kind can be granted: some roll picks it from the catalog. */
  lemma EveryKindGrantable(k: AbilityKind)
    ensures exists roll: nat :: Pick(Catalog, roll) == k
  {
    var roll: nat := match k case DoubleDamage => 0 case Scanner => 1 case Bombardment => 2;
    assert Pick(Catalog, roll) == k;
  }

  class AbilityManager {
    var queue: seq<AbilityKind>
    var catalog: seq<AbilityKind>

    /** AbilityManager(): the catalog of all three kinds, and one ability
        granted with the roll `roll`. */
    constructor (roll: nat)
      ensures catalog == Catalog
      ensures |queue| == 1 && queue == [Pick(Catalog, roll)]
    {
      catalog := Catalog;
      queue := [];
      new;
      GrantRandomAbility(roll);
    }

    /** AbilityManager(queue): keeps the given queue as it is and builds the
        same catalog; nothing is granted. */
    constructor FromQueue(initial: seq<AbilityKind>)
      ensures queue == initial && catalog == Catalog
    {
      queue := initial;
      catalog := Catalog;
    }

    /** grantRandomAbility: with a non-empty catalog, a fresh ability of the
        picked kind joins the back of the queue. */
    method GrantRandomAbility(roll: nat)
      modifies this`queue
      ensures |catalog| > 0 ==> queue == old(queue) + [Pick(catalog, roll)]
      ensures |catalog| == 0 ==> queue == old(queue)
    {
      if |catalog| > 0 {
        var index := roll % |catalog|;
        queue := queue + [catalog[index]];
      }
    }

    /** The copy assignment: the queue and the catalog of `other`. */
    method Assign(other: AbilityManager)
      modifies this
      ensures queue == old(other.queue) && catalog == old(other.catalog)
    {
      queue, catalog := other.queue, other.catalog;
    }

    /** addAbility: appends at the back. */
    method AddAbility(k: AbilityKind)
      modifies this`queue
      ensures queue == old(queue) + [k]
    {
      queue := queue + [k];
    }

    /** getQueue. */
    function GetQueue(): (q: seq<AbilityKind>)
      reads this
      ensures q == queue
    {
      queue
    }

    /** applyAbility: with an empty queue, throws NoAvailableAbilities and
        changes nothing. Otherwise the front ability acts and leaves the
        queue, and it is used up even when its effect fails. (The source
        pops the front before the effect runs so that an exception from the
        effect cannot keep it; here a failed effect returns its error, and
        popping after it ends in the same state.) */
    method ApplyAbility(field: GameField, manager: ShipManager, c: Coords,
                        shipRoll: nat, segmentRolls: nat -> nat) returns (r: Outcome, found: seq<Coords>)
      requires field.Linked() && AllPlaced(manager)
      modifies this`queue, field`field, field.RefShips(c), BombardedShip(manager, shipRoll)
      ensures field.Linked()
      ensures forall s :: s in old(field.RefShips(c) + BombardedShip(manager, shipRoll)) ==> s.Worn()
      ensures old(queue) == [] ==> r == Fail(NoAvailableAbilities) && found == [] && queue == old(queue)
      ensures old(queue) == [] ==>
                field.field == old(field.field) && unchanged(old(field.RefShips(c))) &&
                unchanged(BombardedShip(manager, shipRoll))
      ensures old(queue) != [] ==> queue == old(queue)[1..]
      ensures old(queue) != [] ==> Applied(old(queue)[0], field, manager, c, shipRoll, segmentRolls, r, found)
    {
      if queue == [] {
        return Fail(NoAvailableAbilities), [];
      }
      var ability := queue[0];
      r, found := Apply(ability, field, manager, c, shipRoll, segmentRolls);
      queue := queue[1..];
    }
  }

  /** The queue is first in, first out: on a queue that starts empty,
      adding A and then B and using one ability applies A and leaves [B]. */
  method FirstInFirstOut(a: AbilityKind, b: AbilityKind, field: GameField, manager: ShipManager, c: Coords,
                         shipRoll: nat, segmentRolls: nat -> nat) returns (m: AbilityManager, r: Outcome, found: seq<Coords>)
    requires field.Linked() && AllPlaced(manager)
    modifies field`field, field.RefShips(c), BombardedShip(manager, shipRoll)
    ensures m.queue == [b]
    ensures Applied(a, field, manager, c, shipRoll, segmentRolls, r, found)
  {
    m := new AbilityManager.FromQueue([]);
    m.AddAbility(a);
    m.AddAbility(b);
    r, found := m.ApplyAbility(field, manager, c, shipRoll, segmentRolls);
  }
}
