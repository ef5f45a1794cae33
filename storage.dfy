/**
 * OrmDatabase of storage/data-logic.go over an in-memory store: three tables kept as
 * maps from id to row, with a next-id counter each. The gorm calls the location code
 * makes (Create, First, Where(...).First, Related, Save, Delete, Where(...).Find) are
 * the primitive methods below; the location operations run the source's steps on
 * them, in its order, and each is proved to leave the tables LocationStore describes.
 * Whether the store accepts a write is the caller-chosen flag passed with it.
 */
module Storage {
  import opened Records
  import opened Queries
  import LocationStore

  class OrmDatabase {
    var coordinates: map<Id, Coordinates>
    var nextCoordinates: Id
    var countryParts: map<Id, CountryPart>
    var nextCountryPart: Id
    var locations: map<Id, Location>
    var nextLocation: Id

    /** The tables as a value. */
    ghost function Snapshot(): LocationStore.Db
      reads this
    {
      LocationStore.Db(coordinates, nextCoordinates, countryParts, nextCountryPart, locations, nextLocation)
    }

    ghost predicate Valid()
      reads this
    {
      LocationStore.Valid(Snapshot())
    }

    /** A store with three empty tables. */
    constructor ()
      ensures Valid() && Snapshot() == LocationStore.EMPTY_DB
    {
      coordinates, nextCoordinates := map[], 1;
      countryParts, nextCountryPart := map[], 1;
      locations, nextLocation := map[], 1;
    }

    // ------------------------------------------------------------ store primitives

    /**
     * d.db.Create(&coordinates): the row gets the next id, written back into the record.
     * A step of the location operations: it does not keep Valid() on its own and is
     * not meant to be called by itself.
     */
    method CreateCoordinates(c: Coordinates, ok: bool) returns (saved: Coordinates, err: Error)
      modifies this
      ensures saved == if ok then c.(id := old(nextCoordinates)) else c
      ensures err == if ok then NoError else WriteRejected
      ensures Snapshot() == if ok then LocationStore.InsertCoordinates(old(Snapshot()), c) else old(Snapshot())
    {
      if !ok {
        return c, WriteRejected;
      }
      saved := c.(id := nextCoordinates);
      coordinates := coordinates[nextCoordinates := saved];
      nextCoordinates := nextCoordinates + 1;
      err := NoError;
    }

    /**
     * d.db.Create(&part) on the country-part table.
     * A step of the location operations: it does not keep Valid() on its own and is
     * not meant to be called by itself.
     */
    method CreateCountryPart(part: CountryPart, ok: bool) returns (saved: CountryPart, err: Error)
      modifies this
      ensures saved == if ok then part.(id := old(nextCountryPart)) else part
      ensures err == if ok then NoError else WriteRejected
      ensures Snapshot() == if ok then LocationStore.InsertCountryPart(old(Snapshot()), part) else old(Snapshot())
    {
      if !ok {
        return part, WriteRejected;
      }
      saved := part.(id := nextCountryPart);
      countryParts := countryParts[nextCountryPart := saved];
      nextCountryPart := nextCountryPart + 1;
      err := NoError;
    }

    /**
     * d.db.Create(&location) on the location table, which keeps the columns.
     * A step of the location operations: it does not keep Valid() on its own and is
     * not meant to be called by itself.
     */
    method CreateLocationRow(l: Location, ok: bool) returns (saved: Location, err: Error)
      modifies this
      ensures saved == if ok then l.(id := old(nextLocation)) else l
      ensures err == if ok then NoError else WriteRejected
      ensures Snapshot() == if ok then LocationStore.InsertLocation(old(Snapshot()), l) else old(Snapshot())
    {
      if !ok {
        return l, WriteRejected;
      }
      saved := l.(id := nextLocation);
      locations := locations[nextLocation := Columns(saved)];
      nextLocation := nextLocation + 1;
      err := NoError;
    }

    /** d.db.First(&loc, id): the row, or a blank record and "record not found". */
    method First(id: Id) returns (loc: Location, err: Error)
      ensures loc == LocationStore.FirstLocation(Snapshot(), id)
      ensures err == if id in locations then NoError else RecordNotFound
      ensures Valid() ==> (err == NoError <==> loc.coordinatesReferer in coordinates)
    {
      if id in locations {
        return locations[id], NoError;
      }
      return BLANK_LOCATION, RecordNotFound;
    }

    /**
     * d.db.Where("area_name = ? AND postal_code = ? AND country_part = ?", ...).First(&dbPart):
     * the row with the lowest id carrying part's triple.
     */
    method FirstWithTriple(part: CountryPart) returns (dbPart: CountryPart, err: Error)
      requires Valid()
      ensures err == NoError <==> LocationStore.HasTriple(countryParts, part)
      ensures err == NoError ==> dbPart.id == LocationStore.GetCountryPart(Snapshot(), part)
      ensures err == NoError ==> dbPart.id in countryParts && countryParts[dbPart.id] == dbPart
      ensures err != NoError ==> dbPart == BLANK_COUNTRY_PART && err == RecordNotFound
    {
      var k := FirstMatching(countryParts, part, 1, nextCountryPart);
      if k == NO_ID {
        return BLANK_COUNTRY_PART, RecordNotFound;
      }
      return countryParts[k], NoError;
    }

    /** d.db.Model(&l).Related(&c, "Coordinates"): the row l.coordinatesReferer names. */
    method Related(l: Location) returns (c: Coordinates, err: Error)
      ensures l.coordinatesReferer in coordinates ==> c == coordinates[l.coordinatesReferer] && err == NoError
      ensures l.coordinatesReferer !in coordinates ==> c == BLANK_COORDINATES && err == RecordNotFound
      ensures Valid() && l in locations.Values ==> err == NoError && c.id == l.coordinatesReferer
    {
      if l.coordinatesReferer in coordinates {
        return coordinates[l.coordinatesReferer], NoError;
      }
      return BLANK_COORDINATES, RecordNotFound;
    }

    /**
     * d.db.Save(&l): the row under l's id gets l's columns.
     * A step of the location operations: it does not keep Valid() on its own and is
     * not meant to be called by itself.
     */
    method Save(l: Location, ok: bool) returns (err: Error)
      modifies this
      ensures err == if ok then NoError else WriteRejected
      ensures Snapshot() == if ok then LocationStore.SaveLocation(old(Snapshot()), l) else old(Snapshot())
    {
      if !ok {
        return WriteRejected;
      }
      locations := locations[l.id := Columns(l)];
      err := NoError;
    }

    /**
     * d.db.Delete(&l): a soft delete, marking the row under l's id as deleted.
     * A step of the location operations: it does not keep Valid() on its own and is
     * not meant to be called by itself.
     */
    method Delete(l: Location, ok: bool) returns (err: Error)
      modifies this
      ensures err == if ok then NoError else WriteRejected
      ensures ok && l.id in old(locations) ==>
                Snapshot() == old(Snapshot()).(locations := old(locations)[l.id := old(locations)[l.id].(deleted := true)])
      ensures !ok || l.id !in old(locations) ==> Snapshot() == old(Snapshot())
    {
      if !ok {
        return WriteRejected;
      }
      if l.id in locations {
        locations := locations[l.id := locations[l.id].(deleted := true)];
      }
      err := NoError;
    }

    /**
     * d.db.Where("name LIKE ?", prefix + "%").Find(&locations). The query has no ORDER BY;
     * returning the rows in id order is this model's choice.
     */
    method FindByName(prefix: string) returns (rows: seq<Location>)
      requires Valid()
      ensures rows == FindByNamePrefix(locations, prefix, 1, nextLocation)
      ensures forall l :: l in rows <==> l in locations.Values && prefix <= l.name
    {
      rows := FindByNamePrefix(locations, prefix, 1, nextLocation);
    }

    // ------------------------------------------------------------ location operations

    /** getCountryPart: the id of the row with part's triple, 0 when there is none. */
    method GetCountryPart(part: CountryPart) returns (id: Id)
      requires Valid()
      ensures id == LocationStore.GetCountryPart(Snapshot(), part)
      ensures id == NO_ID <==> !LocationStore.HasTriple(countryParts, part)
      ensures id != NO_ID ==> id in countryParts && countryParts[id].SameTriple(part)
    {
      var dbPart, err := FirstWithTriple(part);
      if err != NoError {
        return NO_ID;
      }
      return dbPart.id;
    }

    /** resolveCountryPart: reuse the row with part's triple, or insert one. */
    method ResolveCountryPart(part: CountryPart, insertOk: bool) returns (id: Id)
      requires Valid()
      modifies this
      ensures Valid()
      ensures var r := LocationStore.ResolveCountryPart(old(Snapshot()), part, insertOk);
              Snapshot() == r.db && id == r.id
    {
      ghost var before := Snapshot();
      LocationStore.ResolvePreservesValid(before, part, insertOk);
      if !part.IsEmpty() {
        var comboId := GetCountryPart(part);
        if comboId == NO_ID {
          var saved, err := CreateCountryPart(part, insertOk);
          if err != NoError {
            return NO_ID;
          }
          return saved.id;
        }
        return comboId;
      }
      return NO_ID;
    }

    /**
     * CreateLocation: the coordinates first, then the country part, then the location
     * row carrying both references.
     */
    method CreateLocation(location: Location, coordinatesOk: bool, countryPartOk: bool, locationOk: bool)
      returns (created: Location, err: Error)
      requires Valid()
      modifies this
      ensures Valid()
      ensures var r := LocationStore.CreateLocation(old(Snapshot()), location, coordinatesOk, countryPartOk, locationOk);
              Snapshot() == r.db && created == r.location && err == r.err
    {
      ghost var before := Snapshot();
      LocationStore.CreateLocationPreservesValid(before, location, coordinatesOk, countryPartOk, locationOk);
      var mappedLocation := location.(deleted := false);

      var stored, e := CreateCoordinates(mappedLocation.coordinates, coordinatesOk);
      if e != NoError {
        return location, Wrap(e, LocationStore.COORDINATES_MESSAGE);
      }
      mappedLocation := mappedLocation.(coordinates := stored);
      LocationStore.InsertCoordinatesValid(before, location.coordinates);

      var partId := ResolveCountryPart(mappedLocation.countryPart, countryPartOk);

      mappedLocation := mappedLocation.(coordinatesReferer := mappedLocation.coordinates.id);
      mappedLocation := mappedLocation.(countrypartReferer := partId);

      var saved;
      saved, e := CreateLocationRow(mappedLocation, locationOk);
      if e != NoError {
        return location, Wrap(e, LocationStore.CREATE_MESSAGE);
      }
      return saved, NoError;
    }

    /**
     * UpdateLocation: only the country-part reference of the stored row changes; the
     * coordinates row and the other columns keep what they had.
     */
    method UpdateLocation(id: Id, location: Location, countryPartOk: bool, saveOk: bool)
      returns (updated: Location, err: Error)
      requires Valid()
      modifies this
      ensures Valid()
      ensures var r := LocationStore.UpdateLocation(old(Snapshot()), id, location, countryPartOk, saveOk);
              Snapshot() == r.db && updated == r.location && err == r.err
      ensures coordinates == old(coordinates)
    {
      ghost var before := Snapshot();
      LocationStore.UpdateLocationPreservesValid(before, id, location, countryPartOk, saveOk);
      var existingLocation, _ := First(id);

      var newCountryPart := CountryPart(NO_ID, location.countryPart.areaName, location.countryPart.postalCode,
                                        location.countryPart.countryPart);
      var partId := ResolveCountryPart(newCountryPart, countryPartOk);

      var coords, e := Related(existingLocation);
      if e != NoError {
        return location, e;
      }
      // the loaded record is overwritten with the ones First left on the location; it is never saved
      coords := coords.(longitude := existingLocation.coordinates.longitude,
                        lattitude := existingLocation.coordinates.lattitude);

      existingLocation := existingLocation.(countrypartReferer := partId);

      e := Save(existingLocation, saveOk);
      return existingLocation, Wrap(e, LocationStore.UPDATE_MESSAGE);
    }

    /** DeleteLocation: soft-delete the row under id, if there is one. */
    method DeleteLocation(id: Id, deleteOk: bool) returns (err: Error)
      requires Valid()
      modifies this
      ensures Valid()
      ensures var r := LocationStore.DeleteLocation(old(Snapshot()), id, deleteOk);
              Snapshot() == r.db && err == r.err
    {
      ghost var before := Snapshot();
      LocationStore.DeleteLocationPreservesValid(before, id, deleteOk);
      var loc, e := First(id);
      e := Wrap(e, LocationStore.GET_MESSAGE);
      loc := loc.(id := id);
      if e != NoError {
        return Wrap(e, LocationStore.DELETE_MESSAGE);
      }
      err := Delete(loc, deleteOk);
    }

    /** LocationSearchByName: the locations whose name starts with the lower-cased query. */
    method LocationSearchByName(name: string) returns (found: seq<Location>, err: Error)
      requires Valid()
      ensures found == LocationStore.LocationSearchByName(Snapshot(), name)
      ensures err == NoError
      ensures forall l :: l in found <==> l in locations.Values && ToLower(name) <= l.name
    {
      var rows := FindByName(ToLower(name));
      return rows, NoError;
    }

    /** GetLocation: the stored row, or a blank one with a wrapped "record not found". */
    method GetLocation(id: Id) returns (loc: Location, err: Error)
      ensures LocationStore.GetLocation(Snapshot(), id) == LocationStore.Fetched(loc, err)
      ensures err == NoError <==> id in locations
      ensures id in locations ==> loc == locations[id]
      ensures id !in locations ==> loc == BLANK_LOCATION && err.Cause() == RecordNotFound
    {
      var e;
      loc, e := First(id);
      err := Wrap(e, LocationStore.GET_MESSAGE);
      if err != NoError {
        return loc, err;
      }
      return loc, NoError;
    }
  }
}
