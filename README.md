# Cosmoport ship records in Dafny

A model of the record-handling core of the cosmoport REST service: a flat
`Ship` record of nine nullable fields, kept in a store keyed by id, with
the controller's field validators and acceptance rules, the service's
create / get / partial-update / delete operations, and the derived rating
`round_half_up_2(speed * k * 80 / (3019 - year + 1))`, k being 0.5 for a
used ship and 1.0 otherwise.

Files:

- `wrappers.dfy` — `Option`, standing for a nullable Java reference.
- `rounding.dfy` — BigDecimal `setScale(2, HALF_UP)` on exact reals.
- `ship.dfy` — the `Ship` entity: the value `ShipRecord` and the class
  `Ship` with its two constructors, getters and setters.
- `service.dfy` — the rating formula, the partial merge of an update, and
  the class `ShipServiceImpl` over a store `rows: map<int, ShipRecord>`.
  Its invariant `Valid()` says every row sits under its own positive id and
  carries a rating that agrees with the formula; create, update and delete
  keep it.
- `controller.dfy` — the validators, the all-required rule of create, the
  present-fields-only rule of update, and the four endpoints as a status
  (400, 404, 200) plus a body.

Where the code and the catalogue's written description differ, the model
follows the code:

- The date check compares whole timestamps with "now, with the year set to
  2800" and "now, with the year set to 3019", strictly on both sides. A date
  in the year 2800 that falls later in the year than the current moment is
  accepted, and so is a date in 3019 earlier in the year. The description
  says "year strictly after 2800". The model takes the two boundary
  timestamps as parameters `from` and `to`.
- The speed is checked after rounding, but it is stored as given, not
  rounded.
- Update never checks shipType or isUsed, and it copies isUsed and shipType
  from the patch whenever they are non-null.

Year extraction (`toInstant().atZone(ZoneId.systemDefault()).getYear()`)
is the service's constant `yearOf: int -> int`. The controller's methods
require `YearCalendar(yearOf, from, to)`: later timestamps never fall in
earlier years, `from` lies in 2800 and `to` in 3019. From this,
`ValidDateYear` derives that an accepted date has a year of at most 3019,
which the rating needs.

## Model

| member | source | states |
|---|---|---|
| Rounding.Hundredths | src/main/java/com/space/service/ShipServiceImpl.java:137-140 | half-up rounding to hundredths gives the integer nearest to 100·x; a tie rounds away from zero; the sign is kept |
| Rounding.Round2 | src/main/java/com/space/controller/ShipsController.java:155 | the value rounded to two places lies within 0.005 of the input |
| Rounding.HundredthsUnique | src/main/java/com/space/service/ShipServiceImpl.java:139 | any integer in the nearest-with-ties-away window is the rounded value, so the window defines the rounding |
| Rounding.HundredthsMonotone | src/main/java/com/space/service/ShipServiceImpl.java:139 | rounding preserves order |
| Rounding.Round2Idempotent | src/main/java/com/space/service/ShipServiceImpl.java:139 | rounding an already rounded value changes nothing |
| ShipModel.Ship.constructor | src/main/java/com/space/model/Ship.java:41-42 | the no-argument constructor leaves all nine fields null |
| ShipModel.Ship.Init | src/main/java/com/space/model/Ship.java:44-54 | the nine-argument constructor puts each argument in its own field |
| ShipModel.Ship.GetId | src/main/java/com/space/model/Ship.java:56-58 | returns the id field |
| ShipModel.Ship.SetId | src/main/java/com/space/model/Ship.java:60-62 | changes id and leaves the other eight fields unchanged |
| ShipModel.Ship.GetName | src/main/java/com/space/model/Ship.java:64-66 | returns the name field |
| ShipModel.Ship.SetName | src/main/java/com/space/model/Ship.java:68-70 | changes name and leaves the other eight fields unchanged |
| ShipModel.Ship.GetPlanet | src/main/java/com/space/model/Ship.java:72-74 | returns the planet field |
| ShipModel.Ship.SetPlanet | src/main/java/com/space/model/Ship.java:76-78 | changes planet and leaves the other eight fields unchanged |
| ShipModel.Ship.GetShipType | src/main/java/com/space/model/Ship.java:80-82 | returns the shipType field |
| ShipModel.Ship.SetShipType | src/main/java/com/space/model/Ship.java:84-86 | changes shipType and leaves the other eight fields unchanged |
| ShipModel.Ship.GetProdDate | src/main/java/com/space/model/Ship.java:88-90 | returns the prodDate field |
| ShipModel.Ship.SetProdDate | src/main/java/com/space/model/Ship.java:92-94 | changes prodDate and leaves the other eight fields unchanged |
| ShipModel.Ship.GetUsed | src/main/java/com/space/model/Ship.java:96-98 | returns the isUsed field |
| ShipModel.Ship.SetUsed | src/main/java/com/space/model/Ship.java:100-102 | changes isUsed and leaves the other eight fields unchanged |
| ShipModel.Ship.GetSpeed | src/main/java/com/space/model/Ship.java:104-106 | returns the speed field |
| ShipModel.Ship.SetSpeed | src/main/java/com/space/model/Ship.java:108-110 | changes speed and leaves the other eight fields unchanged |
| ShipModel.Ship.GetCrewSize | src/main/java/com/space/model/Ship.java:112-114 | returns the crewSize field |
| ShipModel.Ship.SetCrewSize | src/main/java/com/space/model/Ship.java:116-118 | changes crewSize and leaves the other eight fields unchanged |
| ShipModel.Ship.GetRating | src/main/java/com/space/model/Ship.java:120-122 | returns the rating field |
| ShipModel.Ship.SetRating | src/main/java/com/space/model/Ship.java:124-126 | changes rating and leaves the other eight fields unchanged |
| ShipModel.SetUsedThenGetUsed | src/main/java/com/space/model/Ship.java:96-102 | getUsed right after setUsed(b) returns b, because both use the isUsed field |
| ShipService.RatingNearFormula | src/main/java/com/space/service/ShipServiceImpl.java:135-140 | the rating is the exact formula rounded half-up to hundredths, so it lies within 0.005 of the exact value |
| ShipService.RatingExamples | src/main/java/com/space/service/ShipServiceImpl.java:135-140 | speed 10 in year 3018 rates 400.00 when new and 200.00 when used |
| ShipService.UsedRatesNoHigher | src/main/java/com/space/service/ShipServiceImpl.java:135 | with k = 0.5, a used ship never rates above the same ship new |
| ShipService.WithRatingOnlyRating | src/main/java/com/space/service/ShipServiceImpl.java:141 | setting the rating makes it agree with the formula and changes no other field |
| ShipService.RatingNoDrift | src/main/java/com/space/service/ShipServiceImpl.java:134-142 | recomputing a rating that already agrees with the formula gives the same record |
| ShipService.Merge | src/main/java/com/space/service/ShipServiceImpl.java:87-93 | each non-null patch field among name, planet, shipType, prodDate, isUsed, speed and crewSize replaces the stored one; each null one leaves it; id and rating come from the stored record |
| ShipService.MergeRateable | src/main/java/com/space/service/ShipServiceImpl.java:87-95 | a merge of a rateable record with a patch whose date year is at most 3019 is rateable |
| ShipService.UpdatedConsistent | src/main/java/com/space/service/ShipServiceImpl.java:95-96 | after an update the stored rating equals the formula on the merged speed, isUsed and year, and the id is kept |
| ShipService.UpdateIdempotent | src/main/java/com/space/service/ShipServiceImpl.java:87-96 | applying the same patch twice stores the same record as applying it once |
| ShipService.UpdateNoFields | src/main/java/com/space/service/ShipServiceImpl.java:87-96 | an all-null patch changes nothing but the rating, which recomputes to the formula; a consistent record is left as it was |
| ShipService.CreateThenUpdateScenario | src/main/java/com/space/service/ShipServiceImpl.java:87-96 | speed 0.55, used, year 3000 rates 1.10; setting isUsed to false re-rates it to 2.20 and crewSize stays 50 |
| ShipService.CopyPresentFields | src/main/java/com/space/service/ShipServiceImpl.java:87-93 | the setter calls guarded by non-null patch fields leave the target holding the merge |
| ShipService.ShipServiceImpl.constructor | src/main/java/com/space/service/ShipServiceImpl.java:30-33 | a service over an empty store satisfies the store invariant |
| ShipService.ShipServiceImpl.CalculateAndSetRating | src/main/java/com/space/service/ShipServiceImpl.java:134-142 | writes the formula's rating into the passed ship and changes nothing else |
| ShipService.ShipServiceImpl.CreateShip | src/main/java/com/space/service/ShipServiceImpl.java:72-75 | stores the ship under a positive id not in the store; every non-rating field is kept as given and the rating is set by the formula; returns the same ship; the invariant is kept |
| ShipService.ShipServiceImpl.GetShip | src/main/java/com/space/service/ShipServiceImpl.java:78-80 | returns the stored record, or null when the id is absent |
| ShipService.ShipServiceImpl.UpdateShip | src/main/java/com/space/service/ShipServiceImpl.java:83-99 | an absent id gives null and an unchanged store; otherwise the row becomes the merge with the rating recomputed, is returned, and no other row changes |
| ShipService.ShipServiceImpl.DeleteShip | src/main/java/com/space/service/ShipServiceImpl.java:102-104 | removes the id and leaves every other row unchanged |
| ShipService.CreateThenGet | src/main/java/com/space/service/ShipServiceImpl.java:72-80 | after create, get with the new id returns every field as given, plus the new id and the formula's rating |
| ShipsController.DefaultUsed | src/main/java/com/space/controller/ShipsController.java:124 | a null isUsed becomes false; a present one is kept |
| ShipsController.ValidDateYear | src/main/java/com/space/controller/ShipsController.java:164-174 | a date strictly between the boundaries has a year from 2800 to 3019 |
| ShipsController.SpeedValidRange | src/main/java/com/space/controller/ShipsController.java:154-157 | the rounded speed is in [0.01, 0.99] exactly when the speed is in [0.005, 0.995) |
| ShipsController.SpeedValidBoundaries | src/main/java/com/space/controller/ShipsController.java:154-157 | 0.005, 0.99 and 0.994 are accepted; 0.004 and 0.995 are rejected |
| ShipsController.CrewSizeBoundaries | src/main/java/com/space/controller/ShipsController.java:160-162 | crew sizes 1 and 9999 are accepted; 0 and 10000 are rejected |
| ShipsController.StringBoundaries | src/main/java/com/space/controller/ShipsController.java:150-152 | the empty string and 51 characters are rejected; 1 and 50 characters are accepted |
| ShipsController.CreateAcceptedRateable | src/main/java/com/space/controller/ShipsController.java:116-125 | a body accepted for create, with isUsed defaulted, has everything the rating needs |
| ShipsController.UpdateAcceptedPatchRateable | src/main/java/com/space/controller/ShipsController.java:134-144 | a body accepted for update keeps the merged record rateable |
| ShipsController.CreateAcceptedUpdateAccepted | src/main/java/com/space/controller/ShipsController.java:116-139 | a body accepted for create is accepted for update under any positive id |
| ShipsController.UpdateAbsentFieldsAccepted | src/main/java/com/space/controller/ShipsController.java:134-139 | an all-null body is accepted, nulling a field never causes rejection, and shipType, isUsed, id and rating never matter |
| ShipsController.GetShip | src/main/java/com/space/controller/ShipsController.java:89-99 | 400 exactly when the id is missing or not positive; 404 exactly when it has no row; otherwise 200 with the stored record |
| ShipsController.DeleteShip | src/main/java/com/space/controller/ShipsController.java:101-112 | 400 and 404 as for get, and then the store is unchanged; otherwise the row is removed and the answer is 200 |
| ShipsController.CreateShip | src/main/java/com/space/controller/ShipsController.java:114-129 | 200 exactly when the body passes the all-required rule; then the record is stored under a fresh id with isUsed defaulted and the rating set; otherwise 400 with the store and the body unchanged |
| ShipsController.UpdateShip | src/main/java/com/space/controller/ShipsController.java:131-148 | 400 exactly when the present-fields-only rule fails; 404 exactly when it holds and the id has no row; in both cases the store is unchanged; otherwise 200 with the merged and re-rated record stored under the id |

## Left out

- Listing and counting (`getShipsList`, `getShipsCount` in the controller and the service): they only forward their arguments to `ShipRepository.find` and `getCount`. The filtering, sorting and paging happen there, and ShipRepository is not part of this model.
- Spring, JPA and HTTP plumbing: annotations, request binding, `ResponseEntity` (modelled as `Response`), `@Transactional`, and store failures.
- IEEE doubles: speed and rating are exact reals. The difference between `new BigDecimal(double)` and `BigDecimal.valueOf(double)` is not modelled.
- The clock: the date boundaries are the parameters `from` and `to`. The time zone's year extraction is the function `yearOf`. Both are related only through `YearCalendar`.
- Id generation by the database is an identity counter `lastId`. Ids are positive, never reused, and always fresh for the store.
- ShipType's source is not part of this model: the enumeration has the three members TRANSPORT, MILITARY and MERCHANT.
- ShipOrder and the ShipService interface: no behaviour of their own.
- String length counts characters, where Java counts UTF-16 code units.
- Ids and crew sizes are unbounded integers; the source only compares them, so 64-bit and 32-bit widths do not matter here.
- ShipService.Rating: requires a production year of at most 3019. For year 3020 the source divides by zero and BigDecimal throws; beyond that it computes a negative rating. The controller's date check excludes both.
- ShipService.ShipServiceImpl.CalculateAndSetRating: requires speed, isUsed and prodDate to be non-null. With one of them null, unboxing it throws in the source, which is not modelled. The controller ensures all three on create, and the store invariant ensures them on update.
- ShipService.ShipServiceImpl.CreateShip: always saves under a fresh id, even when the create body carries an id. What the persistence layer does with a pre-set id is not in the shown code.
- ShipService.ShipServiceImpl.DeleteShip: removing an absent id is a no-op in the model. The repository's own behaviour for an absent id is not shown, and the controller only deletes ids that exist.
- ShipService.ShipServiceImpl.UpdateShip: the entity loaded from the store is a fresh object. The persistence context's sharing of managed instances between calls is not modelled.
