/**
 * The location store as a value: the coordinates, country-part and location tables
 * with their next-id counters, the invariant the operations keep, and each operation
 * of storage/data-logic.go as a function from the old tables to the new tables and
 * what the call returns. The class Storage.OrmDatabase runs the same steps in place.
 */
module LocationStore {
  import opened Records
  import opened Queries

  /** The three tables, each with the id its next insert receives. */
  datatype Db = Db(
    coordinates: map<Id, Coordinates>, nextCoordinates: Id,
    countryParts: map<Id, CountryPart>, nextCountryPart: Id,
    locations: map<Id, Location>, nextLocation: Id)

  const EMPTY_DB := Db(map[], 1, map[], 1, map[], 1)

  // ---------------------------------------------------------------- invariant

  /** Every row sits under its own id, and ids are positive and below the counter. */
  ghost predicate Keyed(db: Db)
  {
    && db.nextCoordinates >= 1 && db.nextCountryPart >= 1 && db.nextLocation >= 1
    && (forall k :: k in db.coordinates ==> 1 <= k < db.nextCoordinates && db.coordinates[k].id == k)
    && (forall k :: k in db.countryParts ==> 1 <= k < db.nextCountryPart && db.countryParts[k].id == k)
    && (forall k :: k in db.locations ==> 1 <= k < db.nextLocation && db.locations[k].id == k)
  }

  /** No two country-part rows share a triple. */
  ghost predicate NoDuplicateTriples(parts: map<Id, CountryPart>)
  {
    forall i, j :: i in parts && j in parts && i != j ==> !parts[i].SameTriple(parts[j])
  }

  /** The blank part is never stored. */
  ghost predicate NoBlankParts(parts: map<Id, CountryPart>)
  {
    forall k :: k in parts ==> !parts[k].IsEmpty()
  }

  /**
   * Every location names an existing coordinates row, and either no country part
   * or an existing one.
   */
  ghost predicate ReferencesResolve(db: Db)
  {
    forall k :: k in db.locations ==>
      && db.locations[k].coordinatesReferer in db.coordinates
      && (db.locations[k].countrypartReferer == NO_ID || db.locations[k].countrypartReferer in db.countryParts)
  }

  /** A coordinates row belongs to one location only. */
  ghost predicate CoordinatesOwned(locations: map<Id, Location>)
  {
    forall i, j :: i in locations && j in locations && i != j ==>
      locations[i].coordinatesReferer != locations[j].coordinatesReferer
  }

  /** Location rows hold their columns only. */
  ghost predicate ColumnsOnly(locations: map<Id, Location>)
  {
    forall k :: k in locations ==> locations[k] == Columns(locations[k])
  }

  ghost predicate Valid(db: Db)
  {
    && Keyed(db)
    && NoDuplicateTriples(db.countryParts)
    && NoBlankParts(db.countryParts)
    && ReferencesResolve(db)
    && CoordinatesOwned(db.locations)
    && ColumnsOnly(db.locations)
  }

  /** Some stored row carries part's triple. */
  ghost predicate HasTriple(parts: map<Id, CountryPart>, part: CountryPart)
  {
    exists k :: k in parts && parts[k].SameTriple(part)
  }

  // ---------------------------------------------------------------- inserts (d.db.Create)

  /** Create on the coordinates table: the row gets the next id. */
  function InsertCoordinates(db: Db, c: Coordinates): Db
  {
    db.(coordinates := db.coordinates[db.nextCoordinates := c.(id := db.nextCoordinates)],
        nextCoordinates := db.nextCoordinates + 1)
  }

  /** Create on the country-part table. */
  function InsertCountryPart(db: Db, part: CountryPart): Db
  {
    db.(countryParts := db.countryParts[db.nextCountryPart := part.(id := db.nextCountryPart)],
        nextCountryPart := db.nextCountryPart + 1)
  }

  /** Create on the location table: the row keeps the columns only. */
  function InsertLocation(db: Db, l: Location): Db
  {
    db.(locations := db.locations[db.nextLocation := Columns(l.(id := db.nextLocation))],
        nextLocation := db.nextLocation + 1)
  }

  /** Save on the location table: the row under l's id is replaced by l's columns. */
  function SaveLocation(db: Db, l: Location): Db
  {
    db.(locations := db.locations[l.id := Columns(l)])
  }

  // ---------------------------------------------------------------- getCountryPart

  /** getCountryPart: the id of the first row with part's triple, or NO_ID when none has it. */
  function GetCountryPart(db: Db, part: CountryPart): (r: Id)
    ensures Keyed(db) ==> (r == NO_ID <==> !HasTriple(db.countryParts, part))
    ensures r != NO_ID ==> r in db.countryParts && db.countryParts[r].SameTriple(part)
  {
    FirstMatching(db.countryParts, part, 1, db.nextCountryPart)
  }

  /** Without duplicates, the row getCountryPart finds is the only one with the triple. */
  lemma {:induction false} GetCountryPartUnique(db: Db, part: CountryPart, k: Id)
    requires Valid(db)
    requires k in db.countryParts && db.countryParts[k].SameTriple(part)
    ensures GetCountryPart(db, part) == k
  {
    var r := GetCountryPart(db, part);
    assert r != NO_ID;
    assert db.countryParts[r].SameTriple(db.countryParts[k]);
  }

  // ---------------------------------------------------------------- resolveCountryPart

  datatype Resolved = Resolved(db: Db, id: Id)

  /**
   * resolveCountryPart: NO_ID for the blank part; otherwise the id of the row with the
   * triple, inserting one when none exists; NO_ID when that insert is refused.
   */
  function ResolveCountryPart(db: Db, part: CountryPart, insertOk: bool): (r: Resolved)
    ensures part.IsEmpty() ==> r == Resolved(db, NO_ID)
    ensures r.id != NO_ID ==> r.id in r.db.countryParts && r.db.countryParts[r.id].SameTriple(part)
    ensures r.db == db.(countryParts := r.db.countryParts, nextCountryPart := r.db.nextCountryPart)
    ensures r.db == db || r.db == InsertCountryPart(db, part)
    ensures !insertOk ==> r.db == db
    ensures Keyed(db) && HasTriple(db.countryParts, part) && !part.IsEmpty() ==> r.db == db && r.id != NO_ID
    ensures Keyed(db) && !HasTriple(db.countryParts, part) && !part.IsEmpty() ==>
              if insertOk then r.id == db.nextCountryPart && r.id !in db.countryParts && r.db == InsertCountryPart(db, part)
              else r == Resolved(db, NO_ID)
  {
    if !part.IsEmpty() then
      var comboId := GetCountryPart(db, part);
      if comboId == NO_ID then
        if !insertOk then Resolved(db, NO_ID)
        else Resolved(InsertCountryPart(db, part), db.nextCountryPart)
      else Resolved(db, comboId)
    else Resolved(db, NO_ID)
  }

  /** Inserting a part whose triple is new, and not blank, keeps the invariant. */
  lemma InsertFreshPartValid(db: Db, part: CountryPart)
    requires Valid(db)
    requires !part.IsEmpty() && !HasTriple(db.countryParts, part)
    ensures Valid(InsertCountryPart(db, part))
  {
    var db' := InsertCountryPart(db, part);
    var n := db.nextCountryPart;
    forall i, j | i in db'.countryParts && j in db'.countryParts && i != j
      ensures !db'.countryParts[i].SameTriple(db'.countryParts[j])
    {
      if i == n {
        assert db.countryParts[j].SameTriple(part) ==> HasTriple(db.countryParts, part);
      } else if j == n {
        assert db.countryParts[i].SameTriple(part) ==> HasTriple(db.countryParts, part);
      }
    }
  }

  /** resolveCountryPart keeps the invariant: at most one row per triple, none blank. */
  lemma ResolvePreservesValid(db: Db, part: CountryPart, insertOk: bool)
    requires Valid(db)
    ensures Valid(ResolveCountryPart(db, part, insertOk).db)
  {
    var r := ResolveCountryPart(db, part, insertOk);
    if r.db != db {
      InsertFreshPartValid(db, part);
    }
  }

  /**
   * After a resolve that returned an id, that id is the one and only row with the
   * triple.
   */
  lemma ResolveLeavesOneRow(db: Db, part: CountryPart, insertOk: bool)
    requires Valid(db)
    requires ResolveCountryPart(db, part, insertOk).id != NO_ID
    ensures var r := ResolveCountryPart(db, part, insertOk);
            forall k :: k in r.db.countryParts ==> (r.db.countryParts[k].SameTriple(part) <==> k == r.id)
  {
    var r := ResolveCountryPart(db, part, insertOk);
    ResolvePreservesValid(db, part, insertOk);
    forall k | k in r.db.countryParts && r.db.countryParts[k].SameTriple(part)
      ensures k == r.id
    {
      assert r.db.countryParts[k].SameTriple(r.db.countryParts[r.id]);
    }
  }

  /**
   * Resolving the same triple again, after a resolve that returned an id, returns
   * that id and inserts nothing, whether or not the store would accept an insert.
   * The second part may carry any id: only its triple matters.
   */
  lemma ResolveIdempotent(db: Db, part: CountryPart, other: CountryPart, insertOk: bool, againOk: bool)
    requires Valid(db)
    requires other.SameTriple(part)
    requires ResolveCountryPart(db, part, insertOk).id != NO_ID
    ensures var r := ResolveCountryPart(db, part, insertOk);
            ResolveCountryPart(r.db, other, againOk) == r
  {
    var r := ResolveCountryPart(db, part, insertOk);
    ResolvePreservesValid(db, part, insertOk);
    GetCountryPartUnique(r.db, other, r.id);
  }

  // ---------------------------------------------------------------- CreateLocation

  /** What an operation leaves: the tables, the location it returns, and its error. */
  datatype Reply = Reply(db: Db, location: Location, err: Error)

  const COORDINATES_MESSAGE := "Unable to store coordinates"
  const CREATE_MESSAGE := "Could not create the location"

  /**
   * CreateLocation: store the coordinates, resolve the country part, then store the
   * location with both foreign keys set. A refused coordinates insert stops before
   * anything else; a refused location insert leaves the coordinates row (and a part
   * the resolve may have added) behind.
   */
  function CreateLocation(db: Db, location: Location, coordinatesOk: bool, countryPartOk: bool, locationOk: bool): (r: Reply)
    ensures r.err == NoError <==> coordinatesOk && locationOk
    ensures r.err != NoError ==> r.location == location && r.err.Cause() == WriteRejected
    ensures !coordinatesOk ==> r.db == db && r.err == Wrapped(COORDINATES_MESSAGE, WriteRejected)
    ensures coordinatesOk ==>
              && r.db.coordinates == db.coordinates[db.nextCoordinates := location.coordinates.(id := db.nextCoordinates)]
              && r.db.nextCoordinates == db.nextCoordinates + 1
              && r.db.locations.Keys <= db.locations.Keys + {db.nextLocation}
    ensures coordinatesOk ==>
              var resolved := ResolveCountryPart(InsertCoordinates(db, location.coordinates), location.countryPart, countryPartOk);
              r.db.countryParts == resolved.db.countryParts && r.db.nextCountryPart == resolved.db.nextCountryPart
    ensures r.db.nextLocation == if r.err == NoError then db.nextLocation + 1 else db.nextLocation
    ensures coordinatesOk && !locationOk ==> r.db.locations == db.locations && r.err == Wrapped(CREATE_MESSAGE, WriteRejected)
    ensures r.err == NoError ==>
              && r.location.id == db.nextLocation
              && r.location.coordinatesReferer == db.nextCoordinates
              && r.location.coordinates == location.coordinates.(id := db.nextCoordinates)
              && r.location.countrypartReferer == ResolveCountryPart(db, location.countryPart, countryPartOk).id
              && r.location == location.(id := r.location.id, coordinates := r.location.coordinates,
                                         coordinatesReferer := r.location.coordinatesReferer,
                                         countrypartReferer := r.location.countrypartReferer, deleted := false)
              && r.db.locations == db.locations[r.location.id := Columns(r.location)]
  {
    if !coordinatesOk then
      Reply(db, location, Wrap(WriteRejected, COORDINATES_MESSAGE))
    else
      var afterCoordinates := InsertCoordinates(db, location.coordinates);
      var stored := location.coordinates.(id := db.nextCoordinates);
      var resolved := ResolveCountryPart(afterCoordinates, location.countryPart, countryPartOk);
      var mapped := location.(coordinates := stored, coordinatesReferer := stored.id,
                              countrypartReferer := resolved.id, deleted := false);
      if !locationOk then
        Reply(resolved.db, location, Wrap(WriteRejected, CREATE_MESSAGE))
      else
        var created := mapped.(id := resolved.db.nextLocation);
        Reply(InsertLocation(resolved.db, mapped), created, NoError)
  }

  /** Adding a coordinates row keeps the invariant: no location refers to it yet. */
  lemma InsertCoordinatesValid(db: Db, c: Coordinates)
    requires Valid(db)
    ensures Valid(InsertCoordinates(db, c))
  {
  }

  /** CreateLocation keeps the invariant, on every path. */
  lemma CreateLocationPreservesValid(db: Db, location: Location, coordinatesOk: bool, countryPartOk: bool, locationOk: bool)
    requires Valid(db)
    ensures Valid(CreateLocation(db, location, coordinatesOk, countryPartOk, locationOk).db)
  {
    if coordinatesOk {
      var afterCoordinates := InsertCoordinates(db, location.coordinates);
      InsertCoordinatesValid(db, location.coordinates);
      ResolvePreservesValid(afterCoordinates, location.countryPart, countryPartOk);
      var resolved := ResolveCountryPart(afterCoordinates, location.countryPart, countryPartOk);
      if locationOk {
        var c := db.nextCoordinates;
        assert forall k :: k in resolved.db.locations ==> resolved.db.locations[k].coordinatesReferer != c;
        var mapped := location.(coordinates := location.coordinates.(id := c), coordinatesReferer := c,
                                countrypartReferer := resolved.id, deleted := false);
        assert CreateLocation(db, location, coordinatesOk, countryPartOk, locationOk).db == InsertLocation(resolved.db, mapped);
      }
    }
  }

  /**
   * Two locations created one after the other with the same triple refer to the same
   * country-part row, and that row is the only one with the triple.
   */
  lemma CreateTwiceSharesCountryPart(db: Db, first: Location, second: Location, firstPartOk: bool, secondPartOk: bool)
    requires Valid(db)
    requires second.countryPart.SameTriple(first.countryPart)
    requires CreateLocation(db, first, true, firstPartOk, true).location.countrypartReferer != NO_ID
    ensures var r1 := CreateLocation(db, first, true, firstPartOk, true);
            var r2 := CreateLocation(r1.db, second, true, secondPartOk, true);
            && r2.location.countrypartReferer == r1.location.countrypartReferer
            && r2.db.countryParts == r1.db.countryParts
            && forall k :: k in r2.db.countryParts ==>
                 (r2.db.countryParts[k].SameTriple(second.countryPart) <==> k == r1.location.countrypartReferer)
  {
    var r1 := CreateLocation(db, first, true, firstPartOk, true);
    var afterCoordinates := InsertCoordinates(db, first.coordinates);
    InsertCoordinatesValid(db, first.coordinates);
    ResolveLeavesOneRow(afterCoordinates, first.countryPart, firstPartOk);
    CreateLocationPreservesValid(db, first, true, firstPartOk, true);
    var p := r1.location.countrypartReferer;
    assert p in r1.db.countryParts && r1.db.countryParts[p].SameTriple(second.countryPart);
    var again := InsertCoordinates(r1.db, second.coordinates);
    InsertCoordinatesValid(r1.db, second.coordinates);
    GetCountryPartUnique(again, second.countryPart, p);
  }

  // ---------------------------------------------------------------- UpdateLocation

  const UPDATE_MESSAGE := "Unable to update a user"

  /** The record First(&existingLocation, ID) leaves: the row, or a blank one when there is none. */
  function FirstLocation(db: Db, id: Id): (r: Location)
    ensures id in db.locations ==> r == db.locations[id]
    ensures id !in db.locations ==> r == BLANK_LOCATION
    ensures Valid(db) ==> (r.coordinatesReferer in db.coordinates <==> id in db.locations)
    ensures Valid(db) ==> r == Columns(r)
    ensures Valid(db) && id in db.locations ==> r.id == id
  {
    if id in db.locations then db.locations[id] else BLANK_LOCATION
  }

  /** The country part UpdateLocation resolves: the input's triple under no id. */
  function PartOf(location: Location): (r: CountryPart)
    ensures r.id == NO_ID && r.SameTriple(location.countryPart)
    ensures r.IsEmpty() <==> location.countryPart.IsEmpty()
  {
    CountryPart(NO_ID, location.countryPart.areaName, location.countryPart.postalCode, location.countryPart.countryPart)
  }

  /**
   * UpdateLocation: load the row (a failed load is ignored), resolve the input's
   * triple, load the row's coordinates, and save the row with the new country-part
   * reference. Nothing else of the input reaches the store.
   */
  function UpdateLocation(db: Db, id: Id, location: Location, countryPartOk: bool, saveOk: bool): (r: Reply)
    ensures var resolved := ResolveCountryPart(db, PartOf(location), countryPartOk);
            && r.db.countryParts == resolved.db.countryParts && r.db.nextCountryPart == resolved.db.nextCountryPart
            && (r.err == NoError ==> r.location.countrypartReferer == resolved.id)
            && (Valid(db) && id in db.locations ==> r.location.countrypartReferer == resolved.id)
    ensures r.db.coordinates == db.coordinates && r.db.nextCoordinates == db.nextCoordinates
    ensures r.db.nextLocation == db.nextLocation
    ensures Keyed(db) ==> r.db.locations.Keys == db.locations.Keys
    ensures Valid(db) ==> forall k :: k in db.locations ==>
              r.db.locations[k] == db.locations[k].(countrypartReferer := r.db.locations[k].countrypartReferer)
    ensures Valid(db) && id !in db.locations ==>
              r.err == RecordNotFound && r.location == location && r.db.locations == db.locations
    ensures Valid(db) && id in db.locations ==>
              && r.location == db.locations[id].(countrypartReferer := r.location.countrypartReferer)
              && (r.err == NoError <==> saveOk)
              && (saveOk ==> r.db.locations == db.locations[id := r.location])
              && (!saveOk ==> r.db.locations == db.locations && r.err == Wrapped(UPDATE_MESSAGE, WriteRejected))
  {
    var existing := FirstLocation(db, id);
    var resolved := ResolveCountryPart(db, PartOf(location), countryPartOk);
    if existing.coordinatesReferer !in resolved.db.coordinates then
      Reply(resolved.db, location, RecordNotFound)
    else
      var updated := existing.(countrypartReferer := resolved.id);
      if !saveOk then Reply(resolved.db, updated, Wrap(WriteRejected, UPDATE_MESSAGE))
      else Reply(SaveLocation(resolved.db, updated), updated, NoError)
  }

  /** UpdateLocation keeps the invariant. */
  lemma UpdateLocationPreservesValid(db: Db, id: Id, location: Location, countryPartOk: bool, saveOk: bool)
    requires Valid(db)
    ensures Valid(UpdateLocation(db, id, location, countryPartOk, saveOk).db)
  {
    ResolvePreservesValid(db, PartOf(location), countryPartOk);
  }

  /**
   * Whatever coordinates the input carries, every location keeps the coordinates
   * row it had, with the longitude and latitude it had.
   */
  lemma UpdateKeepsCoordinates(db: Db, id: Id, location: Location, countryPartOk: bool, saveOk: bool, k: Id)
    requires Valid(db) && k in db.locations
    ensures var r := UpdateLocation(db, id, location, countryPartOk, saveOk);
            && k in r.db.locations
            && r.db.locations[k].coordinatesReferer == db.locations[k].coordinatesReferer
            && r.db.coordinates[r.db.locations[k].coordinatesReferer] == db.coordinates[db.locations[k].coordinatesReferer]
  {
  }

  /**
   * Updating a freshly created location with the triple it was created with keeps
   * its country-part reference and adds no CountryPart row, whatever the input's
   * part id and whether or not the store would accept an insert.
   */
  lemma CreateThenUpdateKeepsPart(db: Db, location: Location, input: Location, partOk: bool, againOk: bool, saveOk: bool)
    requires Valid(db)
    requires input.countryPart.SameTriple(location.countryPart)
    requires CreateLocation(db, location, true, partOk, true).location.countrypartReferer != NO_ID
    ensures var created := CreateLocation(db, location, true, partOk, true);
            var updated := UpdateLocation(created.db, created.location.id, input, againOk, saveOk);
            && updated.location.countrypartReferer == created.location.countrypartReferer
            && updated.db.countryParts == created.db.countryParts
            && updated.db.nextCountryPart == created.db.nextCountryPart
  {
    var created := CreateLocation(db, location, true, partOk, true);
    var afterCoordinates := InsertCoordinates(db, location.coordinates);
    InsertCoordinatesValid(db, location.coordinates);
    ResolveIdempotent(afterCoordinates, location.countryPart, PartOf(input), partOk, againOk);
    CreateLocationPreservesValid(db, location, true, partOk, true);
  }

  // ---------------------------------------------------------------- DeleteLocation

  const GET_MESSAGE := "Unable to get location"
  const DELETE_MESSAGE := "Cannot delete a user we cannot find"

  datatype Deleted = Deleted(db: Db, err: Error)

  /** DeleteLocation: a soft delete of a row that exists; the row stays in the table. */
  function DeleteLocation(db: Db, id: Id, deleteOk: bool): (r: Deleted)
    ensures r.db == db.(locations := r.db.locations)
    ensures r.db.locations.Keys == db.locations.Keys
    ensures id !in db.locations ==>
              r.db == db && r.err.Cause() == RecordNotFound && r.err == Wrapped(DELETE_MESSAGE, Wrapped(GET_MESSAGE, RecordNotFound))
    ensures id in db.locations ==> (r.err == NoError <==> deleteOk)
    ensures id in db.locations && deleteOk ==> r.db.locations == db.locations[id := db.locations[id].(deleted := true)]
    ensures id in db.locations && !deleteOk ==> r.db == db && r.err == WriteRejected
  {
    var err := Wrap(if id in db.locations then NoError else RecordNotFound, GET_MESSAGE);
    if err != NoError then Deleted(db, Wrap(err, DELETE_MESSAGE))
    else if !deleteOk then Deleted(db, WriteRejected)
    else Deleted(db.(locations := db.locations[id := db.locations[id].(deleted := true)]), NoError)
  }

  /** DeleteLocation keeps the invariant. */
  lemma DeleteLocationPreservesValid(db: Db, id: Id, deleteOk: bool)
    requires Valid(db)
    ensures Valid(DeleteLocation(db, id, deleteOk).db)
  {
  }

  // ---------------------------------------------------------------- GetLocation

  datatype Fetched = Fetched(location: Location, err: Error)

  /** GetLocation: the stored row, or a blank location and a wrapped "record not found". */
  function GetLocation(db: Db, id: Id): (r: Fetched)
    ensures r.err == NoError <==> id in db.locations
    ensures id in db.locations ==> r.location == db.locations[id]
    ensures id !in db.locations ==> r.location == BLANK_LOCATION && r.err == Wrapped(GET_MESSAGE, RecordNotFound)
    ensures Valid(db) && id in db.locations ==>
              && r.location.id == id
              && r.location.coordinatesReferer in db.coordinates
              && r.location.coordinates == BLANK_COORDINATES && r.location.countryPart == BLANK_COUNTRY_PART
  {
    var loc := FirstLocation(db, id);
    var err := Wrap(if id in db.locations then NoError else RecordNotFound, GET_MESSAGE);
    Fetched(loc, err)
  }

  /**
   * A soft delete keeps the row readable: GetLocation still returns it, with the
   * deleted marker set and every other column as it was.
   */
  lemma DeleteThenGet(db: Db, id: Id)
    requires Valid(db) && id in db.locations
    ensures var r := GetLocation(DeleteLocation(db, id, true).db, id);
            r.err == NoError && r.location == db.locations[id].(deleted := true)
  {
  }

  // ---------------------------------------------------------------- LocationSearchByName

  /**
   * LocationSearchByName: every stored location whose name starts with the
   * lower-cased query, and no other, in id order.
   */
  function LocationSearchByName(db: Db, name: string): (r: seq<Location>)
    requires Keyed(db)
    ensures forall l :: l in r <==> l in db.locations.Values && ToLower(name) <= l.name
    ensures forall i, j :: 0 <= i < j < |r| ==> r[i].id < r[j].id
  {
    FindByNamePrefix(db.locations, ToLower(name), 1, db.nextLocation)
  }
}
