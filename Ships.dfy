/**
 * The ship record, the request body that creates or updates one, and the
 * constraints every stored record satisfies.
 */
module Ships {
  import opened Wrappers
  import opened Calendar
  import opened Rating

  /** The ship categories. The enum itself is not part of this model. */
  datatype ShipType = Transport | Military | Merchant

  /** The sort keys a listing can be ordered by. The enum itself is not part of this model. */
  datatype ShipOrder = ById | BySpeed | ByProdDate | ByRating

  datatype Ship = Ship(
    id: int,
    name: string,
    planet: string,
    shipType: ShipType,
    prodDate: ProdDate,
    isUsed: bool,
    speed: real,
    crewSize: int,
    rating: real)

  /**
   * A request body. `None` is a field the client left out (Java's `null`);
   * the body's id and rating are never read by the service.
   */
  datatype ShipRequest = ShipRequest(
    name: Option<string>,
    planet: Option<string>,
    shipType: Option<ShipType>,
    prodDate: Option<ProdDate>,
    isUsed: Option<bool>,
    speed: Option<real>,
    crewSize: Option<int>)

  const MaxTextLength: int := 50
  const MinSpeed: real := 0.01
  const MaxSpeed: real := 0.99
  const MinCrewSize: int := 1
  const MaxCrewSize: int := 9999

  /**
   * The length of `s` in UTF-16 code units, which is what Java's
   * `String.length()` counts: a character outside the Basic Multilingual
   * Plane takes a surrogate pair.
   */
  function Utf16Length(s: string): (n: nat)
    ensures |s| <= n <= 2 * |s|
    ensures n == 0 <==> s == []
  {
    if s == [] then 0
    else (if s[0] as int >= 0x1_0000 then 2 else 1) + Utf16Length(s[1..])
  }

  /** A text of Basic Multilingual Plane characters has one code unit per character. */
  lemma {:induction false} Utf16LengthOfBmp(s: string)
    requires forall i | 0 <= i < |s| :: s[i] as int < 0x1_0000
    ensures Utf16Length(s) == |s|
  {
    if s != [] {
      assert forall i | 0 <= i < |s[1..]| :: s[1..][i] == s[i + 1];
      Utf16LengthOfBmp(s[1..]);
    }
  }

  /**
   * A text of supplementary characters (emoji, say) takes two code units per
   * character, so 26 of them already exceed the 50-unit limit.
   */
  lemma {:induction false} Utf16LengthOfSupplementary(s: string)
    requires forall i | 0 <= i < |s| :: s[i] as int >= 0x1_0000
    ensures Utf16Length(s) == 2 * |s|
  {
    if s != [] {
      assert forall i | 0 <= i < |s[1..]| :: s[1..][i] == s[i + 1];
      Utf16LengthOfSupplementary(s[1..]);
    }
  }

  predicate SpeedInBounds(speed: real) {
    MinSpeed <= speed <= MaxSpeed
  }

  predicate CrewSizeInBounds(crewSize: int) {
    MinCrewSize <= crewSize <= MaxCrewSize
  }

  /** The rating of the given speed, usage flag and accepted production date. */
  function RatingOf(speed: real, isUsed: bool, prodDate: ProdDate): real
    requires InProductionWindow(prodDate)
  {
    ProductionWindowYears(prodDate);
    ShipRating(speed, isUsed, prodDate.year)
  }

  /**
   * What holds of every record the service writes: the validator's bounds
   * (an empty planet passes, as createShip does not reject one) and a rating
   * consistent with the other fields.
   */
  predicate WellFormed(s: Ship) {
    && s.name != "" && Utf16Length(s.name) <= MaxTextLength
    && Utf16Length(s.planet) <= MaxTextLength
    && InProductionWindow(s.prodDate)
    && SpeedInBounds(s.speed)
    && CrewSizeInBounds(s.crewSize)
    && s.rating == RatingOf(s.speed, s.isUsed, s.prodDate)
  }

  /** Every record of the store is well formed. */
  predicate AllWellFormed(ships: seq<Ship>) {
    forall i | 0 <= i < |ships| :: WellFormed(ships[i])
  }

  lemma AllWellFormedReplace(ships: seq<Ship>, k: nat, s: Ship)
    requires AllWellFormed(ships) && k < |ships| && WellFormed(s)
    ensures AllWellFormed(ships[k := s])
  {
  }

  lemma AllWellFormedAppend(ships: seq<Ship>, s: Ship)
    requires AllWellFormed(ships) && WellFormed(s)
    ensures AllWellFormed(ships + [s])
  {
  }

  lemma AllWellFormedRemove(ships: seq<Ship>, k: nat)
    requires AllWellFormed(ships) && k < |ships|
    ensures AllWellFormed(ships[..k] + ships[k + 1..])
  {
    var rest := ships[..k] + ships[k + 1..];
    forall j | 0 <= j < |rest|
      ensures rest[j] == ships[if j < k then j else j + 1]
    {
    }
  }

  /** The request that carries every client-settable field of `s`. */
  function RequestOf(s: Ship): ShipRequest {
    ShipRequest(Some(s.name), Some(s.planet), Some(s.shipType), Some(s.prodDate),
                Some(s.isUsed), Some(s.speed), Some(s.crewSize))
  }

  /** The request with every field left out. */
  const EmptyRequest: ShipRequest := ShipRequest(None, None, None, None, None, None, None)
}
