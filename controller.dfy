/**
  The request boundary: field validators, the acceptance rules of create and
  update, and the mapping of each request to a status (400, 404, 200) and a
  body. The date check's boundaries `from` and `to` are parameters; the
  source builds them from the clock as "now, with the year set to 2800" and
  "now, with the year set to 3019".
*/
module ShipsController {
  import opened Wrappers
  import opened Rounding
  import opened ShipModel
  import opened ShipService

  datatype Status = Ok | BadRequest | NotFound {
    /** The HTTP status code the outcome is answered with. */
    function Code(): int
    {
      match this
      case Ok => 200
      case BadRequest => 400
      case NotFound => 404
    }
  }

  /** A response: its status and the ship it carries, if any. */
  datatype Response = Response(status: Status, body: Option<ShipRecord>)

  predicate IsStringValid(param: string)
  {
    |param| != 0 && |param| <= 50
  }

  /** The speed rounded half-up to two places lies in [0.01, 0.99]. */
  predicate IsSpeedValid(speed: real)
  {
    var result := Round2(speed);
    result >= 0.01 && result <= 0.99
  }

  predicate IsCrewSizeValid(size: int)
  {
    size > 0 && size < 10000
  }

  /** The timestamp is positive and strictly between the two boundaries. */
  predicate IsDateValid(date: int, from: int, to: int)
  {
    date > 0 && date > from && date < to
  }

  /** The all-required rule of create: a body is present and each of name,
      planet, shipType, prodDate, speed and crewSize is non-null and valid. */
  predicate CreateAccepted(body: Option<ShipRecord>, from: int, to: int)
  {
    && body.Some?
    && body.value.name.Some? && IsStringValid(body.value.name.value)
    && body.value.planet.Some? && IsStringValid(body.value.planet.value)
    && body.value.shipType.Some?
    && body.value.prodDate.Some? && IsDateValid(body.value.prodDate.value, from, to)
    && body.value.speed.Some? && IsSpeedValid(body.value.speed.value)
    && body.value.crewSize.Some? && IsCrewSizeValid(body.value.crewSize.value)
  }

  /** The present-fields-only rule of update: a positive id, a body, and each
      of name, planet, prodDate, speed and crewSize valid where it is
      non-null. shipType and isUsed are not checked. */
  predicate UpdateAccepted(id: Option<int>, body: Option<ShipRecord>, from: int, to: int)
  {
    && id.Some? && id.value > 0
    && body.Some?
    && (body.value.name.Some? ==> IsStringValid(body.value.name.value))
    && (body.value.planet.Some? ==> IsStringValid(body.value.planet.value))
    && (body.value.prodDate.Some? ==> IsDateValid(body.value.prodDate.value, from, to))
    && (body.value.speed.Some? ==> IsSpeedValid(body.value.speed.value))
    && (body.value.crewSize.Some? ==> IsCrewSizeValid(body.value.crewSize.value))
  }

  /** An accepted create body with a null isUsed gets false; a present isUsed
      is kept. */
  function DefaultUsed(s: ShipRecord): (r: ShipRecord)
    ensures r.isUsed.Some?
    ensures s.isUsed.Some? ==> r == s
    ensures s.isUsed.None? ==> r == s.(isUsed := Some(false))
  {
    if s.isUsed.None? then s.(isUsed := Some(false)) else s
  }

  /** How the date boundaries relate to the year of a timestamp: later
      timestamps never fall in earlier years, `from` lies in the year 2800
      and `to` in the year 3019. */
  ghost predicate YearCalendar(yearOf: int -> int, from: int, to: int)
  {
    && (forall a: int, b: int :: a <= b ==> yearOf(a) <= yearOf(b))
    && yearOf(from) == 2800
    && yearOf(to) == 3019
  }

  /** A date that passes the check was produced between the years 2800 and
      3019, so the rating's divisor is at least 1. */
  lemma ValidDateYear(date: int, from: int, to: int, yearOf: int -> int)
    requires YearCalendar(yearOf, from, to) && IsDateValid(date, from, to)
    ensures 2800 <= yearOf(date) <= 3019
  {
  }

  /** Speed validity in terms of the unrounded speed: exactly the speeds in
      [0.005, 0.995) round into [0.01, 0.99]. */
  lemma SpeedValidRange(speed: real)
    ensures IsSpeedValid(speed) <==> 0.005 <= speed < 0.995
  {
  }

  lemma SpeedValidBoundaries()
    ensures IsSpeedValid(0.005) && !IsSpeedValid(0.004)
    ensures IsSpeedValid(0.99) && IsSpeedValid(0.994) && !IsSpeedValid(0.995)
  {
  }

  lemma CrewSizeBoundaries()
    ensures IsCrewSizeValid(1) && IsCrewSizeValid(9999)
    ensures !IsCrewSizeValid(0) && !IsCrewSizeValid(10000)
  {
  }

  lemma StringBoundaries(s: string)
    ensures !IsStringValid("")
    ensures |s| == 1 || |s| == 50 ==> IsStringValid(s)
    ensures |s| == 51 ==> !IsStringValid(s)
  {
  }

  /** A body accepted for create, after isUsed defaults, has everything the
      rating needs. */
  lemma CreateAcceptedRateable(body: ShipRecord, from: int, to: int, yearOf: int -> int)
    requires YearCalendar(yearOf, from, to) && CreateAccepted(Some(body), from, to)
    ensures Rateable(DefaultUsed(body), yearOf)
  {
  }

  /** A body accepted for update keeps the rating computable after the merge. */
  lemma UpdateAcceptedPatchRateable(id: Option<int>, body: ShipRecord, from: int, to: int, yearOf: int -> int)
    requires YearCalendar(yearOf, from, to) && UpdateAccepted(id, Some(body), from, to)
    ensures PatchRateable(body, yearOf)
  {
  }

  /** Create is stricter than update: a body accepted for create is accepted
      for update under any positive id. */
  lemma CreateAcceptedUpdateAccepted(id: int, body: ShipRecord, from: int, to: int)
    requires id > 0 && CreateAccepted(Some(body), from, to)
    ensures UpdateAccepted(Some(id), Some(body), from, to)
  {
  }

  /** Absent fields never cause an update to be rejected, and shipType,
      isUsed, id and rating are never looked at. */
  lemma UpdateAbsentFieldsAccepted(id: Option<int>, body: ShipRecord, from: int, to: int,
                                   shipType: Option<ShipType>, isUsed: Option<bool>,
                                   bodyId: Option<int>, rating: Option<real>)
    ensures id.Some? && id.value > 0 ==> UpdateAccepted(id, Some(NoFields), from, to)
    ensures UpdateAccepted(id, Some(body), from, to) ==>
              UpdateAccepted(id, Some(body.(name := None)), from, to)
              && UpdateAccepted(id, Some(body.(planet := None)), from, to)
              && UpdateAccepted(id, Some(body.(prodDate := None)), from, to)
              && UpdateAccepted(id, Some(body.(speed := None)), from, to)
              && UpdateAccepted(id, Some(body.(crewSize := None)), from, to)
    ensures UpdateAccepted(id, Some(body), from, to) ==
              UpdateAccepted(id, Some(body.(shipType := shipType, isUsed := isUsed, id := bodyId, rating := rating)), from, to)
  {
  }

  /** GET /ships/{id}: 400 for a missing or non-positive id, 404 when no row
      has that id, otherwise 200 with the stored record. */
  function GetShip(service: ShipServiceImpl, id: Option<int>): (r: Response)
    reads service
    ensures r.status == BadRequest <==> id.None? || id.value <= 0
    ensures r.status == NotFound <==> id.Some? && id.value > 0 && id.value !in service.rows
    ensures r.status == Ok <==> r.body.Some?
    ensures r.status == Ok ==> id.Some? && id.value in service.rows && r.body.value == service.rows[id.value]
  {
    if id.None? || id.value <= 0 then
      Response(BadRequest, None)
    else
      match service.GetShip(id.value)
      case None => Response(NotFound, None)
      case Some(ship) => Response(Ok, Some(ship))
  }

  /** DELETE /ships/{id}: 400 for a missing or non-positive id, 404 when no row
      has that id (the store is left alone), otherwise the row is removed and
      the answer is 200. */
  method DeleteShip(service: ShipServiceImpl, id: Option<int>) returns (r: Response)
    requires service.Valid()
    modifies service
    ensures service.Valid()
    ensures r.body == None
    ensures r.status == BadRequest <==> id.None? || id.value <= 0
    ensures r.status == NotFound <==> id.Some? && id.value > 0 && id.value !in old(service.rows)
    ensures r.status == Ok ==> service.rows == old(service.rows) - {id.value}
    ensures r.status != Ok ==> service.rows == old(service.rows)
  {
    if id.None? || id.value <= 0 {
      return Response(BadRequest, None);
    }
    if service.GetShip(id.value).Some? {
      service.DeleteShip(id.value);
      r := Response(Ok, None);
    } else {
      r := Response(NotFound, None);
    }
  }

  /** POST /ships: 400 unless the body passes the all-required rule, in which
      case nothing is changed; otherwise a null isUsed becomes false in the
      body itself, the service rates and saves it under a fresh id, and the
      answer is 200 with the saved ship. */
  method CreateShip(service: ShipServiceImpl, ship: Ship?, from: int, to: int) returns (r: Response)
    requires service.Valid() && YearCalendar(service.yearOf, from, to)
    modifies service, ship
    ensures service.Valid()
    ensures r.status == Ok || r.status == BadRequest
    ensures r.status == Ok <==> ship != null && CreateAccepted(Some(old(ship.Record())), from, to)
    ensures r.status == BadRequest ==>
              r.body == None && service.rows == old(service.rows)
              && (ship != null ==> ship.Record() == old(ship.Record()))
    ensures r.status == Ok ==>
              ship != null && ship.id.Some? && ship.id.value > 0 && ship.id.value !in old(service.rows)
              && Rateable(DefaultUsed(old(ship.Record())), service.yearOf)
              && ship.Record() == WithRating(DefaultUsed(old(ship.Record())), service.yearOf).(id := ship.id)
              && service.rows == old(service.rows)[ship.id.value := ship.Record()]
              && r.body == Some(ship.Record())
  {
    if ship != null && CreateAccepted(Some(ship.Record()), from, to) {
      CreateAcceptedRateable(ship.Record(), from, to, service.yearOf);
      if ship.GetUsed() == None {
        ship.SetUsed(Some(false));
      }
      var saved := service.CreateShip(ship);
      return Response(Ok, Some(saved.Record()));
    }
    r := Response(BadRequest, None);
  }

  /** POST /ships/{id}: 400 unless the present-fields-only rule holds, 404
      when no row has the id; in both cases the store is left alone.
      Otherwise the row becomes the merge of the stored record and the body,
      with the rating recomputed, and the answer is 200 with that record. */
  method UpdateShip(service: ShipServiceImpl, id: Option<int>, ship: Ship?, from: int, to: int) returns (r: Response)
    requires service.Valid() && YearCalendar(service.yearOf, from, to)
    modifies service
    ensures service.Valid()
    ensures r.status == BadRequest <==> !UpdateAccepted(id, if ship == null then None else Some(ship.Record()), from, to)
    ensures r.status == NotFound <==>
              UpdateAccepted(id, if ship == null then None else Some(ship.Record()), from, to)
              && id.value !in old(service.rows)
    ensures r.status != Ok ==> r.body == None && service.rows == old(service.rows)
    ensures r.status == Ok ==>
              ship != null && id.Some? && id.value in old(service.rows)
              && PatchRateable(ship.Record(), service.yearOf)
              && r.body == Some(Updated(old(service.rows)[id.value], ship.Record(), service.yearOf))
              && service.rows == old(service.rows)[id.value := r.body.value]
  {
    if ship == null || !UpdateAccepted(id, Some(ship.Record()), from, to) {
      return Response(BadRequest, None);
    }
    UpdateAcceptedPatchRateable(id, ship.Record(), from, to, service.yearOf);
    var updated := service.UpdateShip(id.value, ship);
    if updated == null {
      r := Response(NotFound, None);
    } else {
      r := Response(Ok, Some(updated.Record()));
    }
  }
}
