/**
 * The filter engine of ShipService.getShipsByFilter: twelve optional
 * predicates, all of which a record must pass, applied in one pass over the
 * store. `Select` is the specification of that pass.
 */
module Filter {
  import opened Wrappers
  import opened Ships

  /** The twelve query parameters; `None` is a parameter that was not given. */
  datatype Filter = Filter(
    name: Option<string>,
    planet: Option<string>,
    shipType: Option<ShipType>,
    after: Option<int>,
    before: Option<int>,
    isUsed: Option<bool>,
    minSpeed: Option<real>,
    maxSpeed: Option<real>,
    minCrewSize: Option<int>,
    maxCrewSize: Option<int>,
    minRating: Option<real>,
    maxRating: Option<real>)

  /** No parameter was given. */
  predicate IsUnfiltered(f: Filter) {
    && f.name.None? && f.planet.None? && f.shipType.None?
    && f.after.None? && f.before.None? && f.isUsed.None?
    && f.minSpeed.None? && f.maxSpeed.None?
    && f.minCrewSize.None? && f.maxCrewSize.None?
    && f.minRating.None? && f.maxRating.None?
  }

  /** `text` occurs in `s` as a contiguous, case-sensitive substring. */
  predicate Contains(s: string, text: string) {
    exists i | 0 <= i <= |s| :: OccursAt(s, text, i)
  }

  /** `text` occurs in `s` starting at index `i`. */
  predicate OccursAt(s: string, text: string, i: int) {
    0 <= i && i + |text| <= |s| && s[i..i + |text|] == text
  }

  /** Every string contains the empty string, as Java's `contains("")` says. */
  lemma ContainsEmpty(s: string)
    ensures Contains(s, "")
  {
    assert OccursAt(s, "", 0);
  }

  /**
   * An empty name or planet parameter keeps every record: the result is
   * that of the same query without the parameter.
   */
  lemma EmptyTextIgnored(ships: seq<Ship>, f: Filter)
    ensures Select(ships, f.(name := Some(""))) == Select(ships, f.(name := None))
    ensures Select(ships, f.(planet := Some(""))) == Select(ships, f.(planet := None))
  {
    forall s: Ship ensures Contains(s.name, "") && Contains(s.planet, "") {
      ContainsEmpty(s.name);
      ContainsEmpty(s.planet);
    }
    SelectEquivalent(ships, f.(name := Some("")), f.(name := None));
    SelectEquivalent(ships, f.(planet := Some("")), f.(planet := None));
  }

  /**
   * A range parameter pair, with the branch structure of the source: both
   * bounds, else a lone min, else a lone max. Each bound that is given
   * excludes values on its own side, itself included.
   */
  function InRange(v: real, min: Option<real>, max: Option<real>): (r: bool)
    ensures r <==> (min.None? || min.value < v) && (max.None? || v < max.value)
  {
    if min.Some? && max.Some? then
      !(v <= min.value || v >= max.value)
    else if min.Some? || max.Some? then
      if min.Some? then !(v <= min.value)
      else !(v >= max.value)
    else
      true
  }

  /** The same branch structure over the integer crew-size bounds. */
  function InIntRange(v: int, min: Option<int>, max: Option<int>): (r: bool)
    ensures r <==> (min.None? || min.value < v) && (max.None? || v < max.value)
  {
    if min.Some? && max.Some? then
      !(v <= min.value || v >= max.value)
    else if min.Some? || max.Some? then
      if min.Some? then !(v <= min.value)
      else !(v >= max.value)
    else
      true
  }

  /**
   * The production-date window: applied only when both `after` and `before`
   * are given, and then exclusive at both ends.
   */
  predicate DateMatches(f: Filter, t: int) {
    f.after.Some? && f.before.Some? ==> f.after.value < t < f.before.value
  }

  /** `s` passes every parameter of `f` that is given. */
  predicate Matches(f: Filter, s: Ship) {
    && (f.name.Some? ==> Contains(s.name, f.name.value))
    && (f.planet.Some? ==> Contains(s.planet, f.planet.value))
    && (f.shipType.Some? ==> s.shipType == f.shipType.value)
    && DateMatches(f, s.prodDate.time)
    && (f.isUsed.Some? ==> s.isUsed == f.isUsed.value)
    && InRange(s.speed, f.minSpeed, f.maxSpeed)
    && InIntRange(s.crewSize, f.minCrewSize, f.maxCrewSize)
    && InRange(s.rating, f.minRating, f.maxRating)
  }

  /**
   * The checks of one iteration of `getShipsByFilter`, in the source's
   * order: the first failing check skips the record.
   */
  method Passes(f: Filter, ship: Ship) returns (keep: bool)
    ensures keep == Matches(f, ship)
  {
    if f.name.Some? && !Contains(ship.name, f.name.value) { return false; }
    if f.planet.Some? && !Contains(ship.planet, f.planet.value) { return false; }
    if f.shipType.Some? && ship.shipType != f.shipType.value { return false; }
    if f.after.Some? && f.before.Some? {
      if ship.prodDate.time <= f.after.value || ship.prodDate.time >= f.before.value { assert !DateMatches(f, ship.prodDate.time); return false; }
    }
    if f.isUsed.Some? && ship.isUsed != f.isUsed.value { return false; }
    if f.minSpeed.Some? && f.maxSpeed.Some? {
      if ship.speed <= f.minSpeed.value || ship.speed >= f.maxSpeed.value { assert !InRange(ship.speed, f.minSpeed, f.maxSpeed); return false; }
    } else if f.minSpeed.Some? || f.maxSpeed.Some? {
      if f.minSpeed.Some? {
        if ship.speed <= f.minSpeed.value { assert !InRange(ship.speed, f.minSpeed, f.maxSpeed); return false; }
      } else if f.maxSpeed.Some? {
        if ship.speed >= f.maxSpeed.value { assert !InRange(ship.speed, f.minSpeed, f.maxSpeed); return false; }
      }
    }
    if f.minCrewSize.Some? && f.maxCrewSize.Some? {
      if ship.crewSize <= f.minCrewSize.value || ship.crewSize >= f.maxCrewSize.value { assert !InIntRange(ship.crewSize, f.minCrewSize, f.maxCrewSize); return false; }
    } else if f.minCrewSize.Some? || f.maxCrewSize.Some? {
      if f.minCrewSize.Some? {
        if ship.crewSize <= f.minCrewSize.value { assert !InIntRange(ship.crewSize, f.minCrewSize, f.maxCrewSize); return false; }
      } else if f.maxCrewSize.Some? {
        if ship.crewSize >= f.maxCrewSize.value { assert !InIntRange(ship.crewSize, f.minCrewSize, f.maxCrewSize); return false; }
      }
    }
    if f.minRating.Some? && f.maxRating.Some? {
      if ship.rating <= f.minRating.value || ship.rating >= f.maxRating.value { assert !InRange(ship.rating, f.minRating, f.maxRating); return false; }
    } else if f.minRating.Some? || f.maxRating.Some? {
      if f.minRating.Some? {
        if ship.rating <= f.minRating.value { assert !InRange(ship.rating, f.minRating, f.maxRating); return false; }
      } else if f.maxRating.Some? {
        if ship.rating >= f.maxRating.value { assert !InRange(ship.rating, f.minRating, f.maxRating); return false; }
      }
    }
    assert InRange(ship.speed, f.minSpeed, f.maxSpeed);
    assert InIntRange(ship.crewSize, f.minCrewSize, f.maxCrewSize);
    assert InRange(ship.rating, f.minRating, f.maxRating);
    return true;
  }

  /** The records of `ships` that match `f`, in store order. */
  function Select(ships: seq<Ship>, f: Filter): seq<Ship> {
    if ships == [] then []
    else
      var last := ships[|ships| - 1];
      Select(ships[..|ships| - 1], f) + (if Matches(f, last) then [last] else [])
  }

  /** One more record of the store: it is appended to the result exactly when it matches. */
  lemma SelectStep(ships: seq<Ship>, i: nat, f: Filter)
    requires i < |ships|
    ensures Matches(f, ships[i]) ==> Select(ships[..i + 1], f) == Select(ships[..i], f) + [ships[i]]
    ensures !Matches(f, ships[i]) ==> Select(ships[..i + 1], f) == Select(ships[..i], f)
  {
    assert ships[..i + 1][..i] == ships[..i];
  }

  /** `a` is `b` with some elements left out, order kept. */
  ghost predicate IsSubsequence<T>(a: seq<T>, b: seq<T>) {
    if a == [] then true
    else if b == [] then false
    else
      (a[|a| - 1] == b[|b| - 1] && IsSubsequence(a[..|a| - 1], b[..|b| - 1]))
      || IsSubsequence(a, b[..|b| - 1])
  }

  lemma {:induction false} SubsequenceLength<T>(a: seq<T>, b: seq<T>)
    requires IsSubsequence(a, b)
    ensures |a| <= |b|
  {
    if a != [] {
      if a[|a| - 1] == b[|b| - 1] && IsSubsequence(a[..|a| - 1], b[..|b| - 1]) {
        SubsequenceLength(a[..|a| - 1], b[..|b| - 1]);
      } else {
        SubsequenceLength(a, b[..|b| - 1]);
      }
    }
  }

  /** Filtering keeps records of the store, in the store's order. */
  lemma {:induction false} SelectIsSubsequence(ships: seq<Ship>, f: Filter)
    ensures IsSubsequence(Select(ships, f), ships)
    ensures |Select(ships, f)| <= |ships|
  {
    if ships != [] {
      var init := ships[..|ships| - 1];
      var last := ships[|ships| - 1];
      SelectIsSubsequence(init, f);
      assert ships == init + [last];
      if Matches(f, last) {
        var r := Select(ships, f);
        assert r[..|r| - 1] == Select(init, f);
        assert r[|r| - 1] == last;
      } else {
        assert Select(ships, f) == Select(init, f);
        SubsequenceAppend(Select(init, f), init, last);
      }
    }
    SubsequenceLength(Select(ships, f), ships);
  }

  lemma {:induction false} SubsequenceAppend<T>(a: seq<T>, b: seq<T>, x: T)
    requires IsSubsequence(a, b)
    ensures IsSubsequence(a, b + [x])
  {
    if a != [] {
      assert (b + [x])[..|b|] == b;
    }
  }

  /**
   * A record is in the result exactly when it is in the store and passes
   * every given parameter: kept records match, left-out records fail one.
   */
  lemma {:induction false} SelectMembership(ships: seq<Ship>, f: Filter, s: Ship)
    ensures s in Select(ships, f) <==> s in ships && Matches(f, s)
  {
    if ships != [] {
      var init := ships[..|ships| - 1];
      SelectMembership(init, f, s);
      assert ships == init + [ships[|ships| - 1]];
    }
  }

  /** With no parameter given every record passes. */
  lemma UnfilteredMatchesAll(f: Filter, s: Ship)
    requires IsUnfiltered(f)
    ensures Matches(f, s)
  {
  }

  /** With no parameter given the result is the store itself, in order. */
  lemma {:induction false} SelectUnfiltered(ships: seq<Ship>, f: Filter)
    requires IsUnfiltered(f)
    ensures Select(ships, f) == ships
  {
    if ships != [] {
      SelectUnfiltered(ships[..|ships| - 1], f);
      UnfilteredMatchesAll(f, ships[|ships| - 1]);
    }
  }

  /** Two filters that accept the same records select the same result. */
  lemma {:induction false} SelectEquivalent(ships: seq<Ship>, f: Filter, g: Filter)
    requires forall s :: Matches(f, s) <==> Matches(g, s)
    ensures Select(ships, f) == Select(ships, g)
  {
    if ships != [] {
      SelectEquivalent(ships[..|ships| - 1], f, g);
    }
  }

  /**
   * A lone `after` or a lone `before` is ignored: the result is that of the
   * same query without either date bound.
   */
  lemma LoneDateBoundIgnored(ships: seq<Ship>, f: Filter)
    requires f.after.None? || f.before.None?
    ensures Select(ships, f) == Select(ships, f.(after := None, before := None))
  {
    SelectEquivalent(ships, f, f.(after := None, before := None));
  }

  /** Filtering a filtered list again changes nothing. */
  lemma {:induction false} SelectIdempotent(ships: seq<Ship>, f: Filter)
    ensures Select(Select(ships, f), f) == Select(ships, f)
  {
    if ships != [] {
      var init := ships[..|ships| - 1];
      var last := ships[|ships| - 1];
      SelectIdempotent(init, f);
      if Matches(f, last) {
        var r := Select(init, f) + [last];
        assert r == Select(ships, f);
        assert r[..|r| - 1] == Select(init, f) && r[|r| - 1] == last;
        assert Select(r, f) == Select(r[..|r| - 1], f) + [last];
      } else {
        assert Select(ships, f) == Select(init, f);
      }
    }
  }

}
