/**
 * The record store the service talks to (a JPA repository): records in
 * iteration order, ids unique, and a counter that hands out fresh ids.
 */
module Repository {
  import opened Wrappers
  import opened Ships

  predicate UniqueIds(ships: seq<Ship>) {
    forall i, j | 0 <= i < j < |ships| :: ships[i].id != ships[j].id
  }

  /** The position of the first record with identifier `id`, if any. */
  function IndexOf(ships: seq<Ship>, id: int): (r: Option<nat>)
    ensures r.Some? ==> r.value < |ships| && ships[r.value].id == id
    ensures r.Some? ==> forall j | 0 <= j < r.value :: ships[j].id != id
    ensures r.None? <==> forall j | 0 <= j < |ships| :: ships[j].id != id
  {
    if ships == [] then None
    else if ships[0].id == id then Some(0)
    else
      match IndexOf(ships[1..], id)
      case None => None
      case Some(k) => Some(k + 1)
  }

  /** Under unique ids, the position of a record is determined by its id. */
  lemma IndexOfUnique(ships: seq<Ship>, k: nat)
    requires UniqueIds(ships) && k < |ships|
    ensures IndexOf(ships, ships[k].id) == Some(k)
  {
  }

  /**
   * Removing the record at position `i` keeps the others' ids unique and
   * in range, and no remaining record has the removed id.
   */
  lemma RemovalKeepsIds(ships: seq<Ship>, i: nat, bound: int, rest: seq<Ship>)
    requires i < |ships| && UniqueIds(ships)
    requires forall j | 0 <= j < |ships| :: 1 <= ships[j].id < bound
    requires rest == ships[..i] + ships[i + 1..]
    ensures UniqueIds(rest)
    ensures forall j | 0 <= j < |rest| :: 1 <= rest[j].id < bound
    ensures forall j | 0 <= j < |rest| :: rest[j].id != ships[i].id
  {
    forall j | 0 <= j < |rest|
      ensures rest[j] == ships[if j < i then j else j + 1]
    {
    }
  }

  class ShipRepository {
    var ships: seq<Ship>
    var nextId: int

    ghost predicate Valid()
      reads this
    {
      && 1 <= nextId
      && UniqueIds(ships)
      && forall i | 0 <= i < |ships| :: 1 <= ships[i].id < nextId
    }

    constructor ()
      ensures Valid()
      ensures ships == [] && nextId == 1
    {
      ships := [];
      nextId := 1;
    }

    /** `findById`. */
    function FindById(id: int): (r: Option<Ship>)
      reads this
      ensures r.Some? <==> IndexOf(ships, id).Some?
      ensures r.Some? ==> r.value == ships[IndexOf(ships, id).value]
    {
      match IndexOf(ships, id)
      case None => None
      case Some(i) => Some(ships[i])
    }

    /** `findAll`. */
    method FindAll() returns (all: seq<Ship>)
      ensures all == ships
    {
      all := ships;
    }

    /** `save` of a record that has no id yet: it is stored with a fresh one. */
    method SaveNew(s: Ship) returns (saved: Ship)
      requires Valid()
      modifies this
      ensures Valid()
      ensures saved == s.(id := old(nextId))
      ensures IndexOf(old(ships), saved.id).None?
      ensures ships == old(ships) + [saved]
      ensures nextId == old(nextId) + 1
    {
      saved := s.(id := nextId);
      ships := ships + [saved];
      nextId := nextId + 1;
    }

    /** `save` of a record whose id is stored: it replaces that record in place. */
    method SaveExisting(s: Ship)
      requires Valid()
      requires IndexOf(ships, s.id).Some?
      modifies this
      ensures Valid()
      ensures ships == old(ships)[old(IndexOf(ships, s.id)).value := s]
      ensures nextId == old(nextId)
    {
      var i := IndexOf(ships, s.id).value;
      ships := ships[i := s];
    }

    /** `deleteById`; the service calls it only for an id it has just found. */
    method DeleteById(id: int)
      requires Valid()
      requires IndexOf(ships, id).Some?
      modifies this
      ensures Valid()
      ensures ships == old(ships[..IndexOf(ships, id).value] + ships[IndexOf(ships, id).value + 1..])
      ensures IndexOf(ships, id).None?
      ensures nextId == old(nextId)
    {
      var i := IndexOf(ships, id).value;
      RemovalKeepsIds(ships, i, nextId, ships[..i] + ships[i + 1..]);
      ships := ships[..i] + ships[i + 1..];
    }
  }
}
