/**
 * The validator and the record construction of ShipService.createShip and
 * ShipService.updateShip, as pure functions. The service's methods follow
 * them step by step.
 */
module Validation {
  import opened Wrappers
  import opened Calendar
  import opened Rating
  import opened Ships

  // ---------------------------------------------------------------------
  // Create
  // ---------------------------------------------------------------------

  /** Every field createShip insists on is present (isUsed is optional). */
  predicate RequiredPresent(req: ShipRequest) {
    && req.name.Some? && req.name.value != ""
    && req.planet.Some? && req.shipType.Some? && req.prodDate.Some?
    && req.speed.Some? && req.crewSize.Some?
  }

  /** The two guards of createShip: presence, then lengths and ranges. */
  predicate CreateAccepted(req: ShipRequest) {
    && RequiredPresent(req)
    && Utf16Length(req.name.value) <= MaxTextLength
    && Utf16Length(req.planet.value) <= MaxTextLength
    && InProductionWindow(req.prodDate.value)
    && SpeedInBounds(req.speed.value)
    && CrewSizeInBounds(req.crewSize.value)
  }

  /**
   * The record createShip saves for an accepted request, once the store has
   * given it `id`: a missing isUsed becomes false and the rating is computed
   * from the request's speed, isUsed and production year.
   */
  function NewShip(req: ShipRequest, id: int): (s: Ship)
    requires CreateAccepted(req)
    ensures WellFormed(s)
    ensures s.id == id
    ensures RequestOf(s) == req.(isUsed := Some(req.isUsed == Some(true)))
  {
    var isUsed := req.isUsed.GetOr(false);
    Ship(id, req.name.value, req.planet.value, req.shipType.value, req.prodDate.value,
         isUsed, req.speed.value, req.crewSize.value,
         RatingOf(req.speed.value, isUsed, req.prodDate.value))
  }

  /**
   * Creation round trip: a request describing a well-formed record is
   * accepted, and creates exactly that record.
   */
  lemma CreateRoundTrip(s: Ship)
    requires WellFormed(s)
    ensures CreateAccepted(RequestOf(s))
    ensures NewShip(RequestOf(s), s.id) == s
  {
  }

  /** Each rejection case of createShip, one per clause. */
  lemma CreateRejections(req: ShipRequest)
    ensures req.name.None? || req.name == Some("") ==> !CreateAccepted(req)
    ensures req.planet.None? || req.shipType.None? || req.prodDate.None? ==> !CreateAccepted(req)
    ensures req.speed.None? || req.crewSize.None? ==> !CreateAccepted(req)
    ensures req.name.Some? && Utf16Length(req.name.value) > 50 ==> !CreateAccepted(req)
    ensures req.planet.Some? && Utf16Length(req.planet.value) > 50 ==> !CreateAccepted(req)
    ensures req.prodDate.Some? && (req.prodDate.value.time < StartProdDate || req.prodDate.value.time > EndProdDate)
            ==> !CreateAccepted(req)
    ensures req.speed.Some? && (req.speed.value < 0.01 || req.speed.value > 0.99) ==> !CreateAccepted(req)
    ensures req.crewSize.Some? && (req.crewSize.value < 1 || req.crewSize.value > 9999) ==> !CreateAccepted(req)
  {
  }

  /**
   * Lengths are UTF-16 code units: a name of 26 or more supplementary
   * characters is 52 or more units long, so both validators reject it
   * even when it has fewer than 50 characters.
   */
  lemma SupplementaryNameRejected(req: ShipRequest)
    requires req.name.Some? && |req.name.value| >= 26
    requires forall i | 0 <= i < |req.name.value| :: req.name.value[i] as int >= 0x1_0000
    ensures !CreateAccepted(req)
    ensures !UpdateAccepted(req)
  {
    Utf16LengthOfSupplementary(req.name.value);
  }

  // ---------------------------------------------------------------------
  // Update
  // ---------------------------------------------------------------------

  /** A present name or planet must have 1 to 50 UTF-16 code units. */
  predicate TextUpdateOk(text: Option<string>) {
    text.Some? ==> text.value != "" && Utf16Length(text.value) <= MaxTextLength
  }

  /** The five guards of updateShip; absent fields are not checked. */
  predicate UpdateAccepted(req: ShipRequest) {
    && TextUpdateOk(req.name)
    && TextUpdateOk(req.planet)
    && (req.prodDate.Some? ==> InProductionWindow(req.prodDate.value))
    && (req.speed.Some? ==> SpeedInBounds(req.speed.value))
    && (req.crewSize.Some? ==> CrewSizeInBounds(req.crewSize.value))
  }

  /**
   * The record updateShip saves: the present fields of `req` overwrite those
   * of `stored`, and the rating is recomputed from the merged speed, isUsed
   * and production date.
   */
  function Merge(stored: Ship, req: ShipRequest): (s: Ship)
    requires UpdateAccepted(req)
    requires InProductionWindow(stored.prodDate)
    ensures s.id == stored.id
    ensures s.name == req.name.GetOr(stored.name)
    ensures s.planet == req.planet.GetOr(stored.planet)
    ensures s.shipType == req.shipType.GetOr(stored.shipType)
    ensures s.prodDate == req.prodDate.GetOr(stored.prodDate)
    ensures s.isUsed == req.isUsed.GetOr(stored.isUsed)
    ensures s.speed == req.speed.GetOr(stored.speed)
    ensures s.crewSize == req.crewSize.GetOr(stored.crewSize)
    ensures InProductionWindow(s.prodDate) && s.rating == RatingOf(s.speed, s.isUsed, s.prodDate)
    ensures WellFormed(stored) ==> WellFormed(s)
  {
    var merged := Overwrite(stored, req);
    merged.(rating := RatingOf(merged.speed, merged.isUsed, merged.prodDate))
  }

  /** `stored` with each field present in `req` overwritten; the rating is left as it was. */
  function Overwrite(stored: Ship, req: ShipRequest): Ship {
    stored.(
      name := req.name.GetOr(stored.name),
      planet := req.planet.GetOr(stored.planet),
      shipType := req.shipType.GetOr(stored.shipType),
      prodDate := req.prodDate.GetOr(stored.prodDate),
      isUsed := req.isUsed.GetOr(stored.isUsed),
      speed := req.speed.GetOr(stored.speed),
      crewSize := req.crewSize.GetOr(stored.crewSize))
  }

  /** An update that carries no field saves the well-formed record unchanged. */
  lemma MergeEmpty(stored: Ship)
    requires WellFormed(stored)
    ensures Merge(stored, EmptyRequest) == stored
  {
  }

  /** An update that carries every field replaces all but the id. */
  lemma MergeFull(stored: Ship, s: Ship)
    requires InProductionWindow(stored.prodDate)
    requires WellFormed(s) && s.planet != ""
    ensures UpdateAccepted(RequestOf(s))
    ensures Merge(stored, RequestOf(s)) == s.(id := stored.id)
  {
  }

  /** Applying the same update twice saves the same record as applying it once. */
  lemma MergeIdempotent(stored: Ship, req: ShipRequest)
    requires UpdateAccepted(req)
    requires InProductionWindow(stored.prodDate)
    ensures Merge(Merge(stored, req), req) == Merge(stored, req)
  {
  }

  /**
   * createShip accepts an empty planet, but updateShip refuses to set one:
   * the two validators differ on this field only.
   */
  lemma EmptyPlanetAsymmetry(s: Ship)
    requires WellFormed(s) && s.planet == ""
    ensures CreateAccepted(RequestOf(s))
    ensures !UpdateAccepted(RequestOf(s))
    ensures UpdateAccepted(RequestOf(s).(planet := None))
  {
  }
}
