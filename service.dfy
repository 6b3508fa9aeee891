/**
  The record service: the rating formula, the partial merge of an update,
  and a store of ship rows keyed by id. The store stands for the database
  table behind the repository; rows are values, and the entities handed to
  and returned by the service are `Ship` objects.
*/
module ShipService {
  import opened Wrappers
  import opened Rounding
  import opened ShipModel

  /** k in the rating formula: 0.5 for a used ship, 1.0 otherwise. */
  function UsageFactor(isUsed: bool): real
  {
    if isUsed then 0.5 else 1.0
  }

  /** The rating: speed * k * 80 / (3019 - year + 1), rounded half-up to two
      decimal places. A production year up to 3019 keeps the divisor at
      least 1. */
  function Rating(speed: real, isUsed: bool, year: int): real
    requires year <= 3019
  {
    Round2(speed * UsageFactor(isUsed) * 80.0 / (3019 - year + 1) as real)
  }

  /** The rating lies within half a hundredth of the exact formula's value
      and is a whole number of hundredths. */
  lemma RatingNearFormula(speed: real, isUsed: bool, year: int)
    requires year <= 3019
    ensures var exact := speed * UsageFactor(isUsed) * 80.0 / (3019 - year + 1) as real;
            -0.005 <= Rating(speed, isUsed, year) - exact <= 0.005
            && Rating(speed, isUsed, year) == Hundredths(exact) as real / 100.0
  {
  }

  /** Ten units of speed, produced in 3018: 400.00 new, 200.00 used. */
  lemma RatingExamples()
    ensures Rating(10.0, false, 3018) == 400.0
    ensures Rating(10.0, true, 3018) == 200.0
  {
  }

  /** A used ship never rates above the same ship new. */
  lemma UsedRatesNoHigher(speed: real, year: int)
    requires speed >= 0.0 && year <= 3019
    ensures Rating(speed, true, year) <= Rating(speed, false, year)
  {
    var d := (3019 - year + 1) as real;
    assert speed * 0.5 * 80.0 / d <= speed * 1.0 * 80.0 / d;
    HundredthsMonotone(speed * 0.5 * 80.0 / d, speed * 1.0 * 80.0 / d);
  }

  /** A record the rating can be computed for: the fields the formula unboxes
      are present and the production year keeps the divisor positive. */
  predicate Rateable(s: ShipRecord, yearOf: int -> int)
  {
    s.speed.Some? && s.isUsed.Some? && s.prodDate.Some? && yearOf(s.prodDate.value) <= 3019
  }

  /** s with its rating set from its speed, isUsed and production year. */
  function WithRating(s: ShipRecord, yearOf: int -> int): ShipRecord
    requires Rateable(s, yearOf)
  {
    s.(rating := Some(Rating(s.speed.value, s.isUsed.value, yearOf(s.prodDate.value))))
  }

  /** The rating agrees with the formula applied to the record's own fields. */
  predicate RatingConsistent(s: ShipRecord, yearOf: int -> int)
  {
    Rateable(s, yearOf) && s.rating == Some(Rating(s.speed.value, s.isUsed.value, yearOf(s.prodDate.value)))
  }

  /** Setting the rating makes it consistent and changes no other field. */
  lemma WithRatingOnlyRating(s: ShipRecord, yearOf: int -> int)
    requires Rateable(s, yearOf)
    ensures RatingConsistent(WithRating(s, yearOf), yearOf)
    ensures WithRating(s, yearOf).(rating := s.rating) == s
  {
  }

  /** A consistent rating recomputes to itself: no drift. */
  lemma RatingNoDrift(s: ShipRecord, yearOf: int -> int)
    requires RatingConsistent(s, yearOf)
    ensures WithRating(s, yearOf) == s
  {
  }

  /** The value a patch field leaves behind: the patch's when it is non-null,
      the stored one otherwise. */
  function Overwrite<T>(patch: Option<T>, current: Option<T>): Option<T>
  {
    if patch.Some? then patch else current
  }

  /** The partial merge of an update: each non-null field of the patch among
      name, planet, shipType, prodDate, isUsed, speed and crewSize replaces
      the stored value; id and rating are never taken from the patch. */
  function Merge(stored: ShipRecord, patch: ShipRecord): (r: ShipRecord)
    ensures r.id == stored.id && r.rating == stored.rating
    ensures patch.name.Some? ==> r.name == patch.name
    ensures patch.name.None? ==> r.name == stored.name
    ensures patch.planet.Some? ==> r.planet == patch.planet
    ensures patch.planet.None? ==> r.planet == stored.planet
    ensures patch.shipType.Some? ==> r.shipType == patch.shipType
    ensures patch.shipType.None? ==> r.shipType == stored.shipType
    ensures patch.prodDate.Some? ==> r.prodDate == patch.prodDate
    ensures patch.prodDate.None? ==> r.prodDate == stored.prodDate
    ensures patch.isUsed.Some? ==> r.isUsed == patch.isUsed
    ensures patch.isUsed.None? ==> r.isUsed == stored.isUsed
    ensures patch.speed.Some? ==> r.speed == patch.speed
    ensures patch.speed.None? ==> r.speed == stored.speed
    ensures patch.crewSize.Some? ==> r.crewSize == patch.crewSize
    ensures patch.crewSize.None? ==> r.crewSize == stored.crewSize
  {
    stored.(
      name := Overwrite(patch.name, stored.name),
      planet := Overwrite(patch.planet, stored.planet),
      shipType := Overwrite(patch.shipType, stored.shipType),
      prodDate := Overwrite(patch.prodDate, stored.prodDate),
      isUsed := Overwrite(patch.isUsed, stored.isUsed),
      speed := Overwrite(patch.speed, stored.speed),
      crewSize := Overwrite(patch.crewSize, stored.crewSize))
  }

  /** A patch whose production date, if any, keeps the rating computable. */
  predicate PatchRateable(patch: ShipRecord, yearOf: int -> int)
  {
    patch.prodDate.Some? ==> yearOf(patch.prodDate.value) <= 3019
  }

  lemma MergeRateable(stored: ShipRecord, patch: ShipRecord, yearOf: int -> int)
    requires Rateable(stored, yearOf) && PatchRateable(patch, yearOf)
    ensures Rateable(Merge(stored, patch), yearOf)
  {
  }

  /** The record an update stores: the merge, with the rating recomputed. */
  function Updated(stored: ShipRecord, patch: ShipRecord, yearOf: int -> int): ShipRecord
    requires Rateable(stored, yearOf) && PatchRateable(patch, yearOf)
  {
    MergeRateable(stored, patch, yearOf);
    WithRating(Merge(stored, patch), yearOf)
  }

  /** The stored record after an update has a rating consistent with its
      merged speed, isUsed and year, and keeps its id. */
  lemma UpdatedConsistent(stored: ShipRecord, patch: ShipRecord, yearOf: int -> int)
    requires Rateable(stored, yearOf) && PatchRateable(patch, yearOf)
    ensures RatingConsistent(Updated(stored, patch, yearOf), yearOf)
    ensures Updated(stored, patch, yearOf).id == stored.id
  {
  }

  /** Applying the same patch twice stores what applying it once stores. */
  lemma UpdateIdempotent(stored: ShipRecord, patch: ShipRecord, yearOf: int -> int)
    requires Rateable(stored, yearOf) && PatchRateable(patch, yearOf)
    ensures var once := Updated(stored, patch, yearOf);
            Rateable(once, yearOf) && Updated(once, patch, yearOf) == once
  {
  }

  /** An all-null patch changes no field but the rating, which recomputes to
      the formula's value; a record whose rating was consistent is unchanged. */
  lemma UpdateNoFields(stored: ShipRecord, yearOf: int -> int)
    requires Rateable(stored, yearOf)
    ensures Updated(stored, NoFields, yearOf) == WithRating(stored, yearOf)
    ensures RatingConsistent(stored, yearOf) ==> Updated(stored, NoFields, yearOf) == stored
  {
  }

  /** Copies onto target every field among name, planet, shipType, prodDate,
      isUsed, speed and crewSize that is non-null in patch, one setter at a
      time; target then holds the merge. */
  method CopyPresentFields(patch: Ship, target: Ship)
    requires patch != target
    modifies target
    ensures target.Record() == Merge(old(target.Record()), patch.Record())
  {
    ghost var p, t := patch.Record(), target.Record();
    if patch.GetName().Some? { target.SetName(patch.GetName()); }
    if patch.GetPlanet().Some? { target.SetPlanet(patch.GetPlanet()); }
    assert target.Record() == t.(name := Overwrite(p.name, t.name),
                                 planet := Overwrite(p.planet, t.planet));
    if patch.GetShipType().Some? { target.SetShipType(patch.GetShipType()); }
    if patch.GetProdDate().Some? { target.SetProdDate(patch.GetProdDate()); }
    assert target.Record() == t.(name := Overwrite(p.name, t.name),
                                 planet := Overwrite(p.planet, t.planet),
                                 shipType := Overwrite(p.shipType, t.shipType),
                                 prodDate := Overwrite(p.prodDate, t.prodDate));
    if patch.GetUsed().Some? { target.SetUsed(patch.GetUsed()); }
    if patch.GetSpeed().Some? { target.SetSpeed(patch.GetSpeed()); }
    if patch.GetCrewSize().Some? { target.SetCrewSize(patch.GetCrewSize()); }
  }

  /** A ship of speed 0.55, used, crew 50, produced in 3000 rates 1.10; an
      update that only sets isUsed to false re-rates it to 2.20 and leaves
      the crew size at 50. */
  lemma CreateThenUpdateScenario(date: int, yearOf: int -> int)
    requires yearOf(date) == 3000
    ensures var created := WithRating(NoFields.(prodDate := Some(date), isUsed := Some(true),
                                                speed := Some(0.55), crewSize := Some(50)), yearOf);
            && created.rating == Some(1.1)
            && Updated(created, NoFields.(isUsed := Some(false)), yearOf).rating == Some(2.2)
            && Updated(created, NoFields.(isUsed := Some(false)), yearOf).crewSize == Some(50)
  {
  }

  /** The service over the store. `rows` is the table keyed by id; `lastId`
      is the last id the identity column handed out; `yearOf` is the year of
      a timestamp in the system time zone. */
  class ShipServiceImpl {
    var rows: map<int, ShipRecord>
    var lastId: nat
    const yearOf: int -> int

    /** Every row sits under its own positive id, no later than the last id
        handed out, and carries a rating consistent with the formula. */
    ghost predicate Valid()
      reads this
    {
      forall id | id in rows :: 0 < id <= lastId && rows[id].id == Some(id) && RatingConsistent(rows[id], yearOf)
    }

    constructor (yearOf: int -> int)
      ensures Valid() && rows == map[] && lastId == 0 && this.yearOf == yearOf
    {
      rows := map[];
      lastId := 0;
      this.yearOf := yearOf;
    }

    /** Writes the rating into the ship and changes nothing else. */
    method CalculateAndSetRating(ship: Ship)
      requires Rateable(ship.Record(), yearOf)
      modifies ship
      ensures ship.Record() == WithRating(old(ship.Record()), yearOf)
    {
      var k := if ship.GetUsed().value then 0.5 else 1.0;
      var shipProdYear := yearOf(ship.GetProdDate().value);
      var rating := Round2(ship.GetSpeed().value * k * 80.0 / (3019 - shipProdYear + 1) as real);
      ship.SetRating(Some(rating));
    }

    /** Rates the ship and saves it under a fresh id, which is written into
        the ship; the ship itself is returned. */
    method CreateShip(ship: Ship) returns (saved: Ship)
      requires Valid() && Rateable(ship.Record(), yearOf)
      modifies this, ship
      ensures Valid() && saved == ship
      ensures ship.id.Some? && ship.id.value > 0 && ship.id.value !in old(rows)
      ensures ship.Record() == WithRating(old(ship.Record()), yearOf).(id := ship.id)
      ensures rows == old(rows)[ship.id.value := ship.Record()]
      ensures old(lastId) < lastId
    {
      CalculateAndSetRating(ship);
      lastId := lastId + 1;
      ship.SetId(Some(lastId));
      rows := rows[lastId := ship.Record()];
      saved := ship;
    }

    /** The stored record under id, or None (null) when there is none. */
    function GetShip(id: int): (r: Option<ShipRecord>)
      reads this
      ensures r.Some? <==> id in rows
      ensures r.Some? ==> r.value == rows[id]
    {
      if id in rows then Some(rows[id]) else None
    }

    /** Loads the stored entity, overwrites each field the patch has non-null,
        recomputes the rating and saves; null when id has no row. */
    method UpdateShip(id: int, newShip: Ship) returns (r: Ship?)
      requires Valid() && PatchRateable(newShip.Record(), yearOf)
      modifies this
      ensures Valid() && lastId == old(lastId)
      ensures id !in old(rows) ==> r == null && rows == old(rows)
      ensures id in old(rows) ==>
                r != null && fresh(r)
                && r.Record() == Updated(old(rows)[id], newShip.Record(), yearOf)
                && rows == old(rows)[id := r.Record()]
    {
      if id !in rows {
        return null;
      }
      var row := rows[id];
      var oldShip := new Ship.Init(row.id, row.name, row.planet, row.shipType, row.prodDate,
                                   row.isUsed, row.speed, row.crewSize, row.rating);
      ghost var patch := newShip.Record();
      CopyPresentFields(newShip, oldShip);
      MergeRateable(row, newShip.Record(), yearOf);
      CalculateAndSetRating(oldShip);
      assert newShip.Record() == patch;
      assert oldShip.Record() == Updated(row, patch, yearOf);
      rows := rows[id := oldShip.Record()];
      r := oldShip;
    }

    /** Hard removal of the row under id; every other row stays as it was. */
    method DeleteShip(id: int)
      requires Valid()
      modifies this
      ensures Valid() && lastId == old(lastId)
      ensures rows == old(rows) - {id}
    {
      rows := rows - {id};
    }
  }

  /** Creating a ship and then looking its id up gives back every field as
      given, with the rating set by the formula. */
  method CreateThenGet(service: ShipServiceImpl, ship: Ship) returns (found: Option<ShipRecord>)
    requires service.Valid() && Rateable(ship.Record(), service.yearOf)
    modifies service, ship
    ensures service.Valid()
    ensures ship.id.Some? && ship.id.value > 0 && ship.id.value !in old(service.rows)
    ensures found == Some(WithRating(old(ship.Record()), service.yearOf).(id := ship.id))
  {
    var saved := service.CreateShip(ship);
    found := service.GetShip(saved.id.value);
  }
}
