/**
 * ShipService: listing, counting, lookup, creation, partial update and
 * deletion of ship records over the record store.
 */
module Service {
  import opened Wrappers
  import opened Calendar
  import opened Ships
  import opened Validation
  import opened Filter
  import opened Repository

  /** The HTTP outcome of a request: 200 with a body, 400 or 404. */
  datatype Outcome<T> = Ok(value: T) | BadRequest | NotFound {

    function StatusCode(): (code: int)
      ensures code == 200 <==> Ok?
      ensures code == 400 <==> BadRequest?
      ensures code == 404 <==> NotFound?
    {
      match this
      case Ok(_) => 200
      case BadRequest => 400
      case NotFound => 404
    }

    /** The same failure with a different body type. */
    function Propagate<U>(): (r: Outcome<U>)
      requires !Ok?
      ensures !r.Ok? && r.StatusCode() == StatusCode()
    {
      if BadRequest? then BadRequest else NotFound
    }
  }

  /**
   * A configured `PagedListHolder`: the list it pages over, the sort key it
   * orders by (ascending, case-sensitive), the page and the page size.
   */
  datatype PagedList = PagedList(source: seq<Ship>, sort: Option<ShipOrder>, page: int, pageSize: int)

  const DefaultPage: int := 0
  const DefaultPageSize: int := 3

  class ShipService {
    const repository: ShipRepository

    /** The store is consistent and every stored record is well formed. */
    ghost predicate Valid()
      reads this, repository
    {
      && repository.Valid()
      && AllWellFormed(repository.ships)
    }

    constructor (repository: ShipRepository)
      requires repository.Valid() && AllWellFormed(repository.ships)
      ensures this.repository == repository
      ensures Valid()
    {
      this.repository := repository;
    }

    /** `getShipsByFilter`: one pass over the store, skipping every record that fails a given parameter. */
    method GetShipsByFilter(f: Filter) returns (result: seq<Ship>)
      ensures result == Select(repository.ships, f)
    {
      var all := repository.FindAll();
      if IsUnfiltered(f) {
        SelectUnfiltered(all, f);
        return all;
      }
      result := [];
      for i := 0 to |all|
        invariant result == Select(all[..i], f)
      {
        var ship := all[i];
        SelectStep(all, i, f);
        var keep := Passes(f, ship);
        if !keep { continue; }
        result := result + [ship];
      }
      assert all[..|all|] == all;
    }

    /** `getShipsCount`: the number of records the same filter lists. */
    method GetShipsCount(f: Filter) returns (count: int)
      ensures count == |Select(repository.ships, f)|
      ensures 0 <= count <= |repository.ships|
    {
      var filtered := GetShipsByFilter(f);
      SelectIsSubsequence(repository.ships, f);
      count := |filtered|;
    }

    /**
     * `findAll`: the filtered list wrapped for paging, with the sort key if
     * one is given, page 0 and page size 3 unless given.
     */
    method FindAll(f: Filter, order: Option<ShipOrder>, pageNumber: Option<int>, pageSize: Option<int>)
      returns (list: PagedList)
      ensures list.source == Select(repository.ships, f)
      ensures list.sort == order
      ensures pageNumber.None? ==> list.page == DefaultPage
      ensures pageNumber.Some? ==> list.page == pageNumber.value
      ensures pageSize.None? ==> list.pageSize == DefaultPageSize
      ensures pageSize.Some? ==> list.pageSize == pageSize.value
    {
      var filtered := GetShipsByFilter(f);
      list := PagedList(filtered, None, 0, 10);
      if order.Some? {
        list := list.(sort := order);
      }
      if pageNumber.Some? {
        list := list.(page := pageNumber.value);
      } else {
        list := list.(page := DefaultPage);
      }
      if pageSize.Some? {
        list := list.(pageSize := pageSize.value);
      } else {
        list := list.(pageSize := DefaultPageSize);
      }
    }

    /**
     * `getShipById`: 400 for an id below 1 (the store is not consulted),
     * 404 when no record has the id, otherwise 200 with the stored record.
     */
    function GetShipById(id: int): (r: Outcome<Ship>)
      reads this, repository
      ensures r.BadRequest? <==> id < 1
      ensures r.NotFound? <==> 1 <= id && forall j | 0 <= j < |repository.ships| :: repository.ships[j].id != id
      ensures r.Ok? ==> IndexOf(repository.ships, id).Some?
      ensures r.Ok? ==> r.value == repository.ships[IndexOf(repository.ships, id).value] && r.value.id == id
    {
      if id < 1 then BadRequest
      else
        match repository.FindById(id)
        case Some(s) => Ok(s)
        case None => NotFound
    }

    /**
     * `createShip`: 400 and nothing saved unless the request is accepted;
     * otherwise the new record is appended to the store under a fresh id and
     * returned.
     */
    method CreateShip(req: ShipRequest) returns (r: Outcome<Ship>)
      requires Valid()
      modifies repository
      ensures Valid()
      ensures r.Ok? <==> CreateAccepted(req)
      ensures !r.Ok? ==> r == BadRequest && unchanged(repository)
      ensures r.Ok? ==> r.value == NewShip(req, old(repository.nextId))
      ensures r.Ok? ==> IndexOf(old(repository.ships), r.value.id).None?
      ensures r.Ok? ==> repository.ships == old(repository.ships) + [r.value]
      ensures r.Ok? ==> repository.nextId == old(repository.nextId) + 1
    {
      var name, planet, shipType, prodDate := req.name, req.planet, req.shipType, req.prodDate;
      var isUsed, speed, crewSize := req.isUsed, req.speed, req.crewSize;

      if name.None? || name.value == "" || planet.None? || shipType.None? || prodDate.None?
         || speed.None? || crewSize.None? {
        return BadRequest;
      }

      if Utf16Length(name.value) > MaxTextLength || Utf16Length(planet.value) > MaxTextLength
         || prodDate.value.time < StartProdDate || prodDate.value.time > EndProdDate
         || speed.value < MinSpeed || speed.value > MaxSpeed
         || crewSize.value < MinCrewSize || crewSize.value > MaxCrewSize {
        return BadRequest;
      }

      var used: bool;
      if isUsed.None? {
        used := false;
      } else {
        used := isUsed.value;
      }

      var rating := RatingOf(speed.value, used, prodDate.value);
      // the id is a placeholder: the store assigns the real one
      var ship := Ship(0, name.value, planet.value, shipType.value, prodDate.value,
                       used, speed.value, crewSize.value, rating);
      assert CreateAccepted(req);
      assert ship.(id := repository.nextId) == NewShip(req, repository.nextId);
      AllWellFormedAppend(repository.ships, ship.(id := repository.nextId));
      var saved := repository.SaveNew(ship);
      r := Ok(saved);
    }

    /**
     * `updateShip`: the lookup's 400 or 404 first; then 400, with nothing
     * changed, if a present field is invalid; otherwise the merged record
     * replaces the stored one in place and is returned.
     */
    method UpdateShip(id: int, req: ShipRequest) returns (r: Outcome<Ship>)
      requires Valid()
      modifies repository
      ensures Valid()
      ensures repository.nextId == old(repository.nextId)
      ensures !old(GetShipById(id)).Ok? ==> r == old(GetShipById(id)) && unchanged(repository)
      ensures old(GetShipById(id)).Ok? && !UpdateAccepted(req) ==> r == BadRequest && unchanged(repository)
      ensures old(GetShipById(id)).Ok? && UpdateAccepted(req) ==>
                && r == Ok(Merge(old(GetShipById(id)).value, req))
                && repository.ships == old(repository.ships)[old(IndexOf(repository.ships, id)).value := r.value]
    {
      var lookup := GetShipById(id);
      if lookup.StatusCode() != 200 {
        return lookup;
      }
      var updatable := lookup.value;
      ghost var k := IndexOf(repository.ships, id).value;
      assert WellFormed(repository.ships[k]);

      var name, planet, shipType, prodDate := req.name, req.planet, req.shipType, req.prodDate;
      var isUsed, speed, crewSize := req.isUsed, req.speed, req.crewSize;

      if name.Some? && (Utf16Length(name.value) == 0 || Utf16Length(name.value) > MaxTextLength) {
        return BadRequest;
      }
      assert TextUpdateOk(name);
      if planet.Some? && (planet.value == "" || Utf16Length(planet.value) > MaxTextLength) {
        return BadRequest;
      }
      assert TextUpdateOk(planet);
      if prodDate.Some? && (prodDate.value.time < StartProdDate || prodDate.value.time > EndProdDate) {
        return BadRequest;
      }
      if speed.Some? && (speed.value < MinSpeed || speed.value > MaxSpeed) {
        return BadRequest;
      }
      if crewSize.Some? && (crewSize.value < MinCrewSize || crewSize.value > MaxCrewSize) {
        return BadRequest;
      }

      assert prodDate.Some? ==> InProductionWindow(prodDate.value);
      assert UpdateAccepted(req);
      updatable := ApplyRequest(updatable, req);
      assert WellFormed(updatable);
      AllWellFormedReplace(repository.ships, k, updatable);
      repository.SaveExisting(updatable);
      r := Ok(updatable);
    }

    /**
     * The setters of `updateShip`: each field present in the request
     * overwrites the stored one, then the rating is recomputed from the
     * merged speed, isUsed and production date.
     */
    method ApplyRequest(stored: Ship, req: ShipRequest) returns (updatable: Ship)
      requires UpdateAccepted(req) && InProductionWindow(stored.prodDate)
      ensures updatable == Merge(stored, req)
    {
      var name, planet, shipType, prodDate := stored.name, stored.planet, stored.shipType, stored.prodDate;
      var isUsed, speed, crewSize := stored.isUsed, stored.speed, stored.crewSize;
      if req.name.Some? { name := req.name.value; }
      if req.planet.Some? { planet := req.planet.value; }
      if req.shipType.Some? { shipType := req.shipType.value; }
      if req.prodDate.Some? { prodDate := req.prodDate.value; }
      if req.isUsed.Some? { isUsed := req.isUsed.value; }
      if req.speed.Some? { speed := req.speed.value; }
      if req.crewSize.Some? { crewSize := req.crewSize.value; }
      updatable := Ship(stored.id, name, planet, shipType, prodDate, isUsed, speed, crewSize,
                        RatingOf(speed, isUsed, prodDate));
      ghost var merged := Overwrite(stored, req);
      assert updatable == merged.(rating := updatable.rating);
      assert Merge(stored, req) == merged.(rating := RatingOf(merged.speed, merged.isUsed, merged.prodDate));
    }

    /**
     * `deleteShip`: the lookup's 400 or 404 with nothing changed; otherwise
     * exactly the record with that id is removed, the rest stay in order,
     * and a later lookup of the id finds nothing.
     */
    method DeleteShip(id: int) returns (r: Outcome<()>)
      requires Valid()
      modifies repository
      ensures Valid()
      ensures !old(GetShipById(id)).Ok? ==> r == old(GetShipById(id)).Propagate() && unchanged(repository)
      ensures old(GetShipById(id)).Ok? ==>
                && r == Ok(())
                && repository.ships == old(repository.ships[..IndexOf(repository.ships, id).value]
                                           + repository.ships[IndexOf(repository.ships, id).value + 1..])
                && GetShipById(id) == NotFound
      ensures repository.nextId == old(repository.nextId)
    {
      var lookup := GetShipById(id);
      if lookup.StatusCode() != 200 {
        return lookup.Propagate();
      }
      ghost var before := repository.ships;
      ghost var k := IndexOf(before, id).value;
      AllWellFormedRemove(before, k);
      repository.DeleteById(id);
      r := Ok(());
    }
  }
}
