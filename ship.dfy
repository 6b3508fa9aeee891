/**
  The Ship entity: one flat record of nine nullable fields. `ShipRecord` is
  the value of those nine fields (a row of the store, a response body); the
  class `Ship` is the mutable entity whose setters change one field in place.
*/
module ShipModel {
  import opened Wrappers

  /** The kind of a ship; the enumeration's source is not part of this model,
      so its members are taken from the catalogue's data model. */
  datatype ShipType = TRANSPORT | MILITARY | MERCHANT

  /** The nine fields of a ship, each of which may be null (None).
      prodDate is a timestamp in milliseconds since the epoch; speed and
      rating are exact reals standing for the source's doubles. */
  datatype ShipRecord = ShipRecord(
    id: Option<int>,
    name: Option<string>,
    planet: Option<string>,
    shipType: Option<ShipType>,
    prodDate: Option<int>,
    isUsed: Option<bool>,
    speed: Option<real>,
    crewSize: Option<int>,
    rating: Option<real>)

  /** A record with every field null. */
  const NoFields: ShipRecord :=
    ShipRecord(None, None, None, None, None, None, None, None, None)

  class Ship {
    var id: Option<int>
    var name: Option<string>
    var planet: Option<string>
    var shipType: Option<ShipType>
    var prodDate: Option<int>
    var isUsed: Option<bool>
    var speed: Option<real>
    var crewSize: Option<int>
    var rating: Option<real>

    /** The current values of the nine fields. */
    function Record(): ShipRecord
      reads this
    {
      ShipRecord(id, name, planet, shipType, prodDate, isUsed, speed, crewSize, rating)
    }

    /** The no-argument constructor: every field null. */
    constructor ()
      ensures Record() == NoFields
    {
      id, name, planet, shipType, prodDate := None, None, None, None, None;
      isUsed, speed, crewSize, rating := None, None, None, None;
    }

    /** The nine-argument constructor: each argument goes to its own field. */
    constructor Init(id: Option<int>, name: Option<string>, planet: Option<string>,
                     shipType: Option<ShipType>, prodDate: Option<int>, isUsed: Option<bool>,
                     speed: Option<real>, crewSize: Option<int>, rating: Option<real>)
      ensures Record() == ShipRecord(id, name, planet, shipType, prodDate, isUsed, speed, crewSize, rating)
    {
      this.id, this.name, this.planet := id, name, planet;
      this.shipType, this.prodDate, this.isUsed := shipType, prodDate, isUsed;
      this.speed, this.crewSize, this.rating := speed, crewSize, rating;
    }

    function GetId(): (r: Option<int>)
      reads this
      ensures r == Record().id
    {
      id
    }

    method SetId(v: Option<int>)
      modifies this
      ensures Record() == old(Record()).(id := v)
    {
      id := v;
    }

    function GetName(): (r: Option<string>)
      reads this
      ensures r == Record().name
    {
      name
    }

    method SetName(v: Option<string>)
      modifies this
      ensures Record() == old(Record()).(name := v)
    {
      name := v;
    }

    function GetPlanet(): (r: Option<string>)
      reads this
      ensures r == Record().planet
    {
      planet
    }

    method SetPlanet(v: Option<string>)
      modifies this
      ensures Record() == old(Record()).(planet := v)
    {
      planet := v;
    }

    function GetShipType(): (r: Option<ShipType>)
      reads this
      ensures r == Record().shipType
    {
      shipType
    }

    method SetShipType(v: Option<ShipType>)
      modifies this
      ensures Record() == old(Record()).(shipType := v)
    {
      shipType := v;
    }

    function GetProdDate(): (r: Option<int>)
      reads this
      ensures r == Record().prodDate
    {
      prodDate
    }

    method SetProdDate(v: Option<int>)
      modifies this
      ensures Record() == old(Record()).(prodDate := v)
    {
      prodDate := v;
    }

    /** The getter of the isUsed field (named getUsed in the source). */
    function GetUsed(): (r: Option<bool>)
      reads this
      ensures r == Record().isUsed
    {
      isUsed
    }

    /** The setter of the isUsed field (named setUsed in the source). */
    method SetUsed(v: Option<bool>)
      modifies this
      ensures Record() == old(Record()).(isUsed := v)
    {
      isUsed := v;
    }

    function GetSpeed(): (r: Option<real>)
      reads this
      ensures r == Record().speed
    {
      speed
    }

    method SetSpeed(v: Option<real>)
      modifies this
      ensures Record() == old(Record()).(speed := v)
    {
      speed := v;
    }

    function GetCrewSize(): (r: Option<int>)
      reads this
      ensures r == Record().crewSize
    {
      crewSize
    }

    method SetCrewSize(v: Option<int>)
      modifies this
      ensures Record() == old(Record()).(crewSize := v)
    {
      crewSize := v;
    }

    function GetRating(): (r: Option<real>)
      reads this
      ensures r == Record().rating
    {
      rating
    }

    method SetRating(v: Option<real>)
      modifies this
      ensures Record() == old(Record()).(rating := v)
    {
      rating := v;
    }
  }

  /** getUsed right after setUsed(b) gives b back, and only isUsed changed:
      the two accessors share the isUsed field despite their names. */
  method SetUsedThenGetUsed(s: Ship, b: Option<bool>) returns (r: Option<bool>)
    modifies s
    ensures r == b
    ensures s.Record() == old(s.Record()).(isUsed := b)
  {
    s.SetUsed(b);
    r := s.GetUsed();
  }
}
