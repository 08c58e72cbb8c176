# Cosmoport ShipService in Dafny

A model of `ShipService`, the service of the cosmoport application. It keeps
a catalogue of space ships. Each ship record has:

- an id, a name and a planet;
- a ship type;
- a production date;
- a used flag, a speed and a crew size;
- a rating derived from the speed, the used flag and the production year.

The service does six things:

- lists ships through twelve optional filter parameters, with paging
  defaults and an optional sort key;
- counts the listed ships;
- looks a ship up by id;
- creates a ship after validating the request and computing its rating;
- updates the fields present in a request and recomputes the rating;
- deletes a ship by id.

Lookup, create and update answer with an HTTP outcome: 200 with the record,
400 (bad request) or 404 (not found). Delete answers with the same codes, but
its 200 carries no body. Listing returns the configured page holder and
counting returns a plain number.

Modules, in dependency order:

- `Wrappers`: `Option`.
- `Calendar`: production dates. A date is a millisecond timestamp paired
  with its calendar year (proleptic Gregorian, UTC). A subset type ties the
  two together. The accepted window runs from 1 January 2800 to 1 January
  3019, both included, and `ProductionWindowYears` proves which years it
  contains.
- `Rating`: the rating formula `80 * speed * (used ? 0.5 : 1) /
  (3019 - year + 1)` over `real`, rounded to two decimals (`Round2`).
- `Ships`: the `Ship` record and the request body `ShipRequest`, where every
  field is optional. `WellFormed` is the invariant every stored record keeps.
  Text lengths are counted in UTF-16 code units (`Utf16Length`), as Java's
  `String.length()` counts them.
- `Validation`: the two validators and the records they build, as pure
  functions. Create has `CreateAccepted` and `NewShip`; update has
  `UpdateAccepted` and `Merge`.
- `Filter`: the twelve filter parameters. `Matches` is the meaning of a
  filter, `Passes` is the source's chain of checks, and `Select` specifies
  one pass over the store.
- `Repository`: the record store as a class. It holds a sequence of records
  with unique ids and the next id to hand out.
- `Service`: the class `ShipService` with the six operations. State-changing
  operations are methods with `modifies repository`. Each one is proved to
  keep the store consistent and every record well formed, and its result is
  tied to the functions above.

## Model

| member | source | states |
|---|---|---|
| Calendar.StartOfYear | src/main/java/com/space/service/ShipService.java:89-90 | defines the first instant of a year as a UTC millisecond timestamp; with it, the window ends built at :89-90 and :126-127 are fixed |
| Calendar.InProductionWindow | src/main/java/com/space/service/ShipService.java:92-93 | defines the accepted date window: from the start of 2800 to the start of 3019, both ends included (also :135) |
| Calendar.ProductionWindowYears | src/main/java/com/space/service/ShipService.java:89-93 | a date lies in the accepted window exactly when its year is 2800 to 3018 or it is the first instant of 3019; so an accepted year is 2800 to 3019 and the rating denominator is 1 to 220 |
| Calendar.ProdDateBoundsValues | src/main/java/com/space/service/ShipService.java:89-90 | the window ends are start-of-year 2800 and 3019 as UTC millisecond timestamps, 26192246400000 and 33103209600000 |
| Rating.Round2 | src/main/java/com/space/service/ShipService.java:101-103 | the rounded rating has at most two decimals and is within 0.005 of the exact value; strictly within it unless the value is halfway between two hundredths, and then the even hundredth is chosen (half-even rounding) |
| Rating.Round2OfCents | src/main/java/com/space/service/ShipService.java:101-103 | a value that already has two decimals is unchanged by rounding |
| Rating.Round2AtMost | src/main/java/com/space/service/ShipService.java:101-103 | rounding never moves a value above a two-decimal bound it is below |
| Rating.Round2AtLeast | src/main/java/com/space/service/ShipService.java:101-103 | rounding never moves a value below a two-decimal bound it is above |
| Rating.UsageFactor | src/main/java/com/space/service/ShipService.java:102 | defines the halving factor for a used ship: 0.5 if used, otherwise 1 |
| Rating.RawRating | src/main/java/com/space/service/ShipService.java:102-103 | defines the unrounded formula `80 * speed * factor / (3019 - year + 1)`, whose denominator is at least 1 for years up to 3019 |
| Rating.ShipRating | src/main/java/com/space/service/ShipService.java:101-103 | defines the stored rating as the formula rounded to two decimals |
| Rating.RatingRange | src/main/java/com/space/service/ShipService.java:101-103 | for an accepted speed and year the rating is between 0 and 79.2 |
| Rating.RatingExample | src/main/java/com/space/service/ShipService.java:101-103 | a new ship of speed 0.5 made in 3019 rates exactly 40 |
| Ships.Utf16Length | src/main/java/com/space/service/ShipService.java:92 | the length `String.length()` reports, in UTF-16 code units: between one and two per character, and zero exactly for the empty string |
| Ships.Utf16LengthOfBmp | src/main/java/com/space/service/ShipService.java:92 | a text of Basic Multilingual Plane characters has one code unit per character |
| Ships.Utf16LengthOfSupplementary | src/main/java/com/space/service/ShipService.java:92 | a text of supplementary characters has two code units per character |
| Ships.SpeedInBounds | src/main/java/com/space/service/ShipService.java:93 | defines the accepted speed range [0.01, 0.99], both ends included (also :138) |
| Ships.CrewSizeInBounds | src/main/java/com/space/service/ShipService.java:93 | defines the accepted crew-size range [1, 9999], both ends included (also :141) |
| Ships.RatingOf | src/main/java/com/space/service/ShipService.java:102-103 | defines the rating of a speed, usage flag and accepted date as `ShipRating` of the date's year (also :160-161) |
| Ships.WellFormed | src/main/java/com/space/service/ShipService.java:85-103 | defines what every saved record satisfies: a non-empty name of at most 50 code units and a planet of at most 50 code units, an accepted date, speed and crew size, and the rating the formula gives for its fields |
| Ships.AllWellFormedReplace | src/main/java/com/space/service/ShipService.java:164 | replacing one record by a well-formed record keeps every stored record well formed |
| Ships.AllWellFormedAppend | src/main/java/com/space/service/ShipService.java:105 | appending a well-formed record keeps every stored record well formed |
| Ships.AllWellFormedRemove | src/main/java/com/space/service/ShipService.java:174 | removing one record keeps every remaining record well formed |
| Validation.RequiredPresent | src/main/java/com/space/service/ShipService.java:85-87 | defines the first create guard: name present and non-empty, and planet, type, date, speed and crew size present; isUsed may be absent |
| Validation.CreateAccepted | src/main/java/com/space/service/ShipService.java:85-94 | defines the create guards: every required field present, a non-empty name, name and planet at most 50 code units, date, speed and crew size in range |
| Validation.NewShip | src/main/java/com/space/service/ShipService.java:96-107 | the created record is well formed and carries the given id; it holds the request's fields, a missing isUsed is false, and the rating is computed from them |
| Validation.CreateRoundTrip | src/main/java/com/space/service/ShipService.java:85-107 | the request that describes a well-formed record is accepted and creates exactly that record |
| Validation.CreateRejections | src/main/java/com/space/service/ShipService.java:85-94 | each rejection case is rejected: a missing or empty name; a missing planet, type, date, speed or crew size; a name or planet over 50 UTF-16 code units; a date outside the window; a speed outside [0.01, 0.99]; a crew size outside [1, 9999] |
| Validation.SupplementaryNameRejected | src/main/java/com/space/service/ShipService.java:92-94 | a name of 26 or more supplementary characters is rejected by both create and update, even when it has fewer than 50 characters |
| Validation.TextUpdateOk | src/main/java/com/space/service/ShipService.java:129-133 | defines the update guard on a name or planet: if present, non-empty and at most 50 code units |
| Validation.UpdateAccepted | src/main/java/com/space/service/ShipService.java:129-142 | defines the five update guards; an absent field is not checked |
| Validation.Merge | src/main/java/com/space/service/ShipService.java:144-162 | each present request field overwrites the stored one; each absent field and the id stay; the rating is the formula applied to the merged speed, isUsed and date; the merge of a well-formed record is well formed |
| Validation.Overwrite | src/main/java/com/space/service/ShipService.java:144-157 | defines the effect of the setters: each field present in the request replaces the stored one, the rest of the record is kept |
| Validation.MergeEmpty | src/main/java/com/space/service/ShipService.java:144-162 | an update with no fields leaves a well-formed record unchanged |
| Validation.MergeFull | src/main/java/com/space/service/ShipService.java:129-162 | an update carrying every field of a well-formed record with a non-empty planet is accepted and yields that record under the stored id |
| Validation.MergeIdempotent | src/main/java/com/space/service/ShipService.java:144-162 | applying the same accepted update twice yields the same record as applying it once |
| Validation.EmptyPlanetAsymmetry | src/main/java/com/space/service/ShipService.java:85-94 | for a well-formed record with an empty planet, create accepts its request but update rejects it; update accepts the request once the planet is dropped (:132) |
| Filter.IsUnfiltered | src/main/java/com/space/service/ShipService.java:185-187 | defines the early-return condition: none of the twelve parameters is given |
| Filter.Contains | src/main/java/com/space/service/ShipService.java:203 | defines substring containment: the text occurs at some position of the string |
| Filter.ContainsEmpty | src/main/java/com/space/service/ShipService.java:202-206 | every string contains the empty string |
| Filter.EmptyTextIgnored | src/main/java/com/space/service/ShipService.java:202-206 | an empty name or planet parameter gives the same result as leaving it out |
| Filter.DateMatches | src/main/java/com/space/service/ShipService.java:212-213 | defines the date window: applied only when both bounds are given, and then strict at both ends |
| Filter.Matches | src/main/java/com/space/service/ShipService.java:202-251 | defines a match as the conjunction of every given parameter's test: substrings, equal type and usage, the date window, and the three ranges |
| Filter.InRange | src/main/java/com/space/service/ShipService.java:221-229 | the branch chain on speed bounds (also used for rating) keeps a value exactly when it is above a given min and below a given max, both strict; a lone max filters too |
| Filter.InIntRange | src/main/java/com/space/service/ShipService.java:231-239 | the same for the crew-size bounds |
| Filter.Passes | src/main/java/com/space/service/ShipService.java:193-253 | the sequence of checks in one loop iteration keeps the record exactly when it matches every given parameter |
| Filter.Select | src/main/java/com/space/service/ShipService.java:189-257 | defines the result as the matching records of the store, in store order |
| Filter.SelectStep | src/main/java/com/space/service/ShipService.java:191-253 | one more record of the store is appended to the result exactly when it matches |
| Filter.SubsequenceLength | src/main/java/com/space/service/ShipService.java:189-257 | a subsequence is no longer than the sequence it is taken from |
| Filter.SelectIsSubsequence | src/main/java/com/space/service/ShipService.java:189-257 | the result is an order-preserving subsequence of the store, and no longer than it |
| Filter.SubsequenceAppend | src/main/java/com/space/service/ShipService.java:189-257 | a subsequence stays one when the larger sequence grows |
| Filter.SelectMembership | src/main/java/com/space/service/ShipService.java:189-257 | a record is in the result exactly when it is in the store and matches; every record left out fails a given parameter |
| Filter.UnfilteredMatchesAll | src/main/java/com/space/service/ShipService.java:185-187 | with no parameter given every record matches |
| Filter.SelectUnfiltered | src/main/java/com/space/service/ShipService.java:183-187 | with no parameter given the result is the store's list unchanged |
| Filter.SelectEquivalent | src/main/java/com/space/service/ShipService.java:189-257 | two filters that accept the same records give the same result |
| Filter.LoneDateBoundIgnored | src/main/java/com/space/service/ShipService.java:212-213 | a lone after or a lone before does not change the result |
| Filter.SelectIdempotent | src/main/java/com/space/service/ShipService.java:189-257 | filtering the result again with the same parameters changes nothing |
| Repository.IndexOf | src/main/java/com/space/service/ShipService.java:65 | the position of the first record with the id; none exactly when no record has it |
| Repository.IndexOfUnique | src/main/java/com/space/service/ShipService.java:65 | with unique ids, looking up a stored record's id finds that record's position |
| Repository.RemovalKeepsIds | src/main/java/com/space/service/ShipService.java:174 | removing one record keeps ids unique and in range, and its id is no longer found |
| Repository.ShipRepository.FindById | src/main/java/com/space/service/ShipService.java:65 | returns the stored record at the id's position, and is empty exactly when no record has the id |
| Repository.ShipRepository.FindAll | src/main/java/com/space/service/ShipService.java:183 | returns the stored records in store order |
| Repository.ShipRepository.SaveNew | src/main/java/com/space/service/ShipService.java:105 | stores the record under a fresh id at the end and returns it with that id |
| Repository.ShipRepository.SaveExisting | src/main/java/com/space/service/ShipService.java:164 | replaces the record with the same id in place; nothing else changes |
| Repository.ShipRepository.DeleteById | src/main/java/com/space/service/ShipService.java:174 | removes exactly the record with the id, keeps the others in order, and the id is no longer found |
| Service.Outcome.StatusCode | src/main/java/com/space/service/ShipService.java:114 | 200 exactly for Ok, 400 exactly for BadRequest, 404 exactly for NotFound |
| Service.Outcome.Propagate | src/main/java/com/space/service/ShipService.java:171-172 | a failure passed on keeps its status code |
| Service.ShipService.constructor | src/main/java/com/space/service/ShipService.java:20-21 | the service over a consistent store of well-formed records is valid |
| Service.ShipService.GetShipsByFilter | src/main/java/com/space/service/ShipService.java:179-258 | the loop returns exactly `Select` of the store: the unfiltered list, or the matching records in store order |
| Service.ShipService.GetShipsCount | src/main/java/com/space/service/ShipService.java:51-57 | the count is the length of the filtered list, between 0 and the store's size |
| Service.ShipService.FindAll | src/main/java/com/space/service/ShipService.java:23-49 | the holder pages over exactly the filtered list, records the given sort key, and uses page 0 and page size 3 unless they are given |
| Service.ShipService.GetShipById | src/main/java/com/space/service/ShipService.java:59-73 | BadRequest exactly when id < 1; NotFound exactly when id >= 1 and no record has it; otherwise Ok with the stored record of that id; reads the store only |
| Service.ShipService.CreateShip | src/main/java/com/space/service/ShipService.java:75-108 | Ok exactly when the request is accepted; otherwise BadRequest with nothing saved; on success the returned record is `NewShip` under a fresh id, it is appended to the store, and the id counter advances |
| Service.ShipService.UpdateShip | src/main/java/com/space/service/ShipService.java:110-167 | the lookup's failure is returned with nothing changed; a present invalid field gives BadRequest with nothing changed; otherwise the result is `Merge` of the stored record and only that record is replaced |
| Service.ShipService.ApplyRequest | src/main/java/com/space/service/ShipService.java:144-162 | the setters applied to the stored record, then the rating recomputation, yield `Merge` of the record and the request |
| Service.ShipService.DeleteShip | src/main/java/com/space/service/ShipService.java:169-177 | the lookup's failure is returned with nothing changed; otherwise exactly the record with the id is removed, the rest keep their order, a later lookup gives NotFound, and the id counter is kept |

Notes on the code:

- A lone `maxSpeed`, `maxCrewSize` or `maxRating` does filter
  (ShipService.java:227-228, 237-238, 249-250). `InRange` and `InIntRange`
  follow that code.
- `DecimalFormat("#.##")` rounds half to even by default, so `Round2` breaks
  ties towards the even hundredth, not upwards.
- `createShip` accepts an empty planet, but `updateShip` rejects one
  (`EmptyPlanetAsymmetry`).
- Create and update always overwrite the rating the body carries
  (:102-103, :160-162).

## Left out

- `ShipController`: HTTP routing, parameter binding and its null-body check
  are not part of this model. The filter parameters arrive as a `Filter`
  value and the body as a `ShipRequest`.
- Paging and sorting inside Spring's `PagedListHolder` and
  `MutableSortDefinition` are library code that is not shown. The page
  slicing, the clamping of out-of-range pages and the property comparator
  are left out.
- Service.ShipService.FindAll: states only the configuration of the page
  holder (list, sort key, page and page size), not the page it would hand
  out.
- Rating.Round2: rounds exact reals. It does not model IEEE double
  arithmetic, the binary representation of the formula's result, the
  `DecimalFormat` string, its locale, or the `,` to `.` replacement.
- Speed and rating are `real`, not `double`. Crew size and timestamps are
  unbounded integers, not 32-bit `Integer` and 64-bit `Long`.
  - No overflow can occur at the accepted values, so width is not modelled.
- `java.util.Date` is a millisecond timestamp plus the year it falls in.
  - The default time zone is taken to be UTC.
  - The proleptic Gregorian calendar is used throughout.
  - The Julian calendar that `Date` applies before 1582 is not modelled. No
    accepted date falls there.
- A client-supplied id on create is not modelled. `createShip` passes the
  body, with whatever id it carries, to `save` (:105). The model's save always
  assigns a fresh id.
- Java strings may hold unpaired surrogates; Dafny characters are Unicode
  scalar values and cannot. Substring search is over characters. For strings
  without unpaired surrogates this agrees with Java's search over code units.
- Persistence through JPA is modelled as a sequence of records and a
  counter for fresh ids. Transactions and id generation strategy are not
  modelled.
  - `updateShip` mutates the entity that the lookup returned. The model
    works on values, so aliasing between that entity and the stored record
    is not captured.
  - Only the saved result is modelled.
- Repository.ShipRepository.DeleteById: requires the id to be stored. The
  service calls it only after a successful lookup, so the exception the
  real repository throws for an absent id is not modelled.
- A null id makes `getShipById` throw. The model's ids are always present
  integers, so this case is not modelled.
- `ShipType` and `ShipOrder` are opaque finite datatypes. Their source files
  are not part of this model, and neither is the field name that
  `getFieldName` returns for a sort key.
