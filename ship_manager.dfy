/** A side's ship pools (lb3/source/ShipManager.cpp): ships are created into
    the free pool and moved, one way, into the active pool once placed. */
module ShipManagers {
  import opened Errors
  import opened Ships

  /** No ship object appears twice. */
  ghost predicate Distinct(ships: seq<Ship>) {
    forall i, j :: 0 <= i < j < |ships| ==> ships[i] != ships[j]
  }

  /** The number of alive ships in `ships`. */
  function CountAlive(ships: seq<Ship>): nat
    reads ships
  {
    if |ships| == 0 then 0
    else CountAlive(ships[..|ships| - 1]) + (if ships[|ships| - 1].IsAlive() then 1 else 0)
  }

  /** The number of ships in `ships` that are not alive. */
  function CountDestroyed(ships: seq<Ship>): nat
    reads ships
  {
    if |ships| == 0 then 0
    else CountDestroyed(ships[..|ships| - 1]) + (if ships[|ships| - 1].IsAlive() then 0 else 1)
  }

  /** Every ship is either alive or destroyed. */
  lemma {:induction false} AlivePlusDestroyed(ships: seq<Ship>)
    ensures CountAlive(ships) + CountDestroyed(ships) == |ships|
  {
    if |ships| > 0 {
      AlivePlusDestroyed(ships[..|ships| - 1]);
    }
  }

  /** No ship is alive exactly when every ship is not alive. */
  lemma {:induction false} NoneAlive(ships: seq<Ship>)
    ensures CountAlive(ships) == 0 <==> forall i :: 0 <= i < |ships| ==> !ships[i].IsAlive()
  {
    if |ships| > 0 {
      var p := ships[..|ships| - 1];
      NoneAlive(p);
      assert forall i :: 0 <= i < |p| ==> p[i] == ships[i];
    }
  }

  /** The lengths of `ships`, in order. */
  function Lengths(ships: seq<Ship>): (r: seq<int>)
    reads ships
    ensures |r| == |ships| && forall i :: 0 <= i < |ships| ==> r[i] == ships[i].length
  {
    seq(|ships|, i reads set s | s in ships requires 0 <= i < |ships| => ships[i].length)
  }

  class ShipManager {
    var free: seq<Ship>
    var active: seq<Ship>

    /** The ship objects of both pools. */
    ghost function Fleet(): set<Ship>
      reads this
    {
      (set s | s in free) + (set s | s in active)
    }

    /** Every ship is well formed, and each ship object is in one pool once. */
    ghost predicate Valid()
      reads this, Fleet()
    {
      && (forall s :: s in Fleet() ==> s.Valid())
      && Distinct(free + active)
    }

    constructor Holding(ships: seq<Ship>)
      ensures free == ships && active == []
    {
      free := ships;
      active := [];
    }

    /** ShipManager(sizes): one fresh, unplaced free ship per size, in order,
        and no active ship; the first invalid size propagates the ship
        constructor's logic_error. */
    static method New(sizes: seq<int>) returns (r: Result<ShipManager>)
      ensures r.Ok? <==> forall i :: 0 <= i < |sizes| ==> ValidLength(sizes[i])
      ensures r.Err? ==> r.error == InvalidShipSize
      ensures r.Ok? ==> fresh(r.value) && r.value.Valid() && r.value.active == []
      ensures r.Ok? ==> Lengths(r.value.free) == sizes
      ensures r.Ok? ==> forall i :: 0 <= i < |sizes| ==>
                fresh(r.value.free[i]) && r.value.free[i].segments == [] && r.value.free[i].orientation == Unknown
    {
      var ships: seq<Ship> := [];
      var i := 0;
      while i < |sizes|
        invariant 0 <= i <= |sizes| && |ships| == i
        invariant forall k :: 0 <= k < i ==> ValidLength(sizes[k])
        invariant forall k :: 0 <= k < i ==>
                    fresh(ships[k]) && ships[k].Valid() && ships[k].length == sizes[k] &&
                    ships[k].segments == [] && ships[k].orientation == Unknown
        invariant Distinct(ships)
      {
        var s := Ship.New(sizes[i]);
        if s.Err? {
          return Err(s.error);
        }
        ships := ships + [s.value];
        i := i + 1;
      }
      var m := new ShipManager.Holding(ships);
      assert m.free + m.active == ships;
      return Ok(m);
    }

    /** Reassigning a pool member (`playerShipManager = ShipManager(sizes)`):
        this pool takes the other's free and active ships. */
    method Assign(other: ShipManager)
      modifies this
      ensures free == old(other.free) && active == old(other.active)
      ensures Fleet() == old(other.Fleet()) && (old(other.Valid()) ==> Valid())
    {
      free, active := other.free, other.active;
    }

    /** moveShipToActive: the i-th free ship goes to the back of the active
        pool and leaves the free pool, which keeps its order; an index
        outside the free pool throws out_of_range and changes nothing. */
    method MoveShipToActive(index: int) returns (r: Outcome)
      requires Valid()
      modifies this
      ensures r.Pass? <==> 0 <= index < old(|free|)
      ensures r.Fail? ==> r.error == OutOfRange && free == old(free) && active == old(active)
      ensures r.Pass? ==> active == old(active) + [old(free)[index]]
      ensures r.Pass? ==> free == old(free)[..index] + old(free)[index + 1..]
      ensures |free| + |active| == old(|free| + |active|)
      ensures Fleet() == old(Fleet()) && Valid()
    {
      if !(0 <= index < |free|) {
        return Fail(OutOfRange);
      }
      ghost var all := free + active;
      var s := free[index];
      active := active + [s];
      free := free[..index] + free[index + 1..];
      assert free + active == all[..index] + all[index + 1..] + [all[index]];
      assert Fleet() == old(Fleet()) by {
        forall x | x in old(Fleet()) ensures x in Fleet() {
          if x in old(free) {
            var k :| 0 <= k < |old(free)| && old(free)[k] == x;
            if k < index { assert free[k] == x; }
            else if k > index { assert free[k - 1] == x; }
          }
        }
      }
      assert Distinct(free + active) by {
        var n := all[..index] + all[index + 1..] + [all[index]];
        forall i, j | 0 <= i < j < |n| ensures n[i] != n[j] {
          var oi := if i < index then i else if i < |all| - 1 then i + 1 else index;
          var oj := if j < index then j else if j < |all| - 1 then j + 1 else index;
          assert n[i] == all[oi] && n[j] == all[oj] && oi != oj;
        }
      }
      return Pass;
    }

    /** getFreeShip: the i-th free ship, or out_of_range. */
    function GetFreeShip(index: int): (r: Result<Ship>)
      reads this
      ensures r.Ok? <==> 0 <= index < |free|
      ensures r.Err? ==> r.error == OutOfRange
      ensures r.Ok? ==> r.value == free[index]
    {
      if 0 <= index < |free| then Ok(free[index]) else Err(OutOfRange)
    }

    /** getActiveShip: the i-th active ship, or out_of_range. */
    function GetActiveShip(index: int): (r: Result<Ship>)
      reads this
      ensures r.Ok? <==> 0 <= index < |active|
      ensures r.Err? ==> r.error == OutOfRange
      ensures r.Ok? ==> r.value == active[index]
    {
      if 0 <= index < |active| then Ok(active[index]) else Err(OutOfRange)
    }

    /** getAliveShipsNumber: counts the alive active ships; free ships never
        count. */
    method GetAliveShipsNumber() returns (n: int)
      ensures n == CountAlive(active)
      ensures 0 <= n <= |active|
    {
      n := 0;
      var i := 0;
      while i < |active|
        invariant 0 <= i <= |active|
        invariant n == CountAlive(active[..i])
      {
        assert active[..i + 1][..i] == active[..i];
        if active[i].IsAlive() {
          n := n + 1;
        }
        i := i + 1;
      }
      assert active[..i] == active;
      AlivePlusDestroyed(active);
    }

    /** getDestroyedShipsNumber: counts the active ships that are not alive. */
    method GetDestroyedShipsNumber() returns (n: int)
      ensures n == CountDestroyed(active)
      ensures n == |active| - CountAlive(active)
    {
      n := 0;
      var i := 0;
      while i < |active|
        invariant 0 <= i <= |active|
        invariant n == CountDestroyed(active[..i])
      {
        assert active[..i + 1][..i] == active[..i];
        if !active[i].IsAlive() {
          n := n + 1;
        }
        i := i + 1;
      }
      assert active[..i] == active;
      AlivePlusDestroyed(active);
    }

    /** getShipSizes: the active ships' lengths, in active order. */
    method GetShipSizes() returns (sizes: seq<int>)
      ensures |sizes| == |active|
      ensures forall i :: 0 <= i < |active| ==> sizes[i] == active[i].length
    {
      sizes := [];
      var i := 0;
      while i < |active|
        invariant 0 <= i <= |active| && |sizes| == i
        invariant forall k :: 0 <= k < i ==> sizes[k] == active[k].length
      {
        sizes := sizes + [active[i].length];
        i := i + 1;
      }
    }
  }
}
