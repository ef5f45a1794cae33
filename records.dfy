/** Rows of the three location tables and the error values the store reports. */
module Records {

  /** Primary keys; the store hands out positive ones, and 0 means "no row". */
  type Id = nat

  const NO_ID: Id := 0

  /** A longitude or latitude. The store only copies these, it never computes with them. */
  type Degrees = real

  /** A row of the coordinates table (DbCoordinates). */
  datatype Coordinates = Coordinates(id: Id, longitude: Degrees, lattitude: Degrees)

  /** A row of the country-part table (DbCountryPart); its identity is the triple. */
  datatype CountryPart = CountryPart(id: Id, areaName: string, postalCode: string, countryPart: string)
  {
    /** The blank part, meaning "no country-part association". */
    predicate IsEmpty(): (r: bool)
      ensures r <==> SameTriple(CountryPart(NO_ID, "", "", ""))
    {
      areaName == "" && postalCode == "" && countryPart == ""
    }

    /** Same (AreaName, PostalCode, CountryPart) triple; the ids play no part. */
    predicate SameTriple(other: CountryPart)
    {
      areaName == other.areaName && postalCode == other.postalCode && countryPart == other.countryPart
    }
  }

  /**
   * A location (DbLocation): its own columns, the two foreign keys, the soft-delete
   * marker, and the embedded sub-records the caller fills in before a create.
   */
  datatype Location = Location(
    id: Id,
    name: string,
    coordinates: Coordinates,
    coordinatesReferer: Id,
    countryPart: CountryPart,
    countrypartReferer: Id,
    deleted: bool)

  const BLANK_COORDINATES := Coordinates(NO_ID, 0.0, 0.0)
  const BLANK_COUNTRY_PART := CountryPart(NO_ID, "", "", "")
  const BLANK_LOCATION := Location(NO_ID, "", BLANK_COORDINATES, NO_ID, BLANK_COUNTRY_PART, NO_ID, false)

  /**
   * What the location table keeps of a location: the embedded sub-records live in
   * their own tables, so a row read back with First has them blank.
   */
  function Columns(l: Location): Location
  {
    l.(coordinates := BLANK_COORDINATES, countryPart := BLANK_COUNTRY_PART)
  }

  /**
   * The error values: nil, gorm's "record not found", a write the store refused,
   * and a message put in front of a cause by errors.Wrap.
   */
  datatype Error = NoError | RecordNotFound | WriteRejected | Wrapped(message: string, cause: Error)
  {
    /** The innermost error, as errors.Cause unwraps it. */
    function Cause(): Error
    {
      if Wrapped? then cause.Cause() else this
    }
  }

  /** errors.Wrap: nil stays nil; any other error gets the message in front of it. */
  function Wrap(e: Error, message: string): (r: Error)
    ensures r == NoError <==> e == NoError
    ensures r.Cause() == e.Cause()
    ensures r != NoError ==> r.Wrapped? && r.message == message
  {
    if e == NoError then NoError else Wrapped(message, e)
  }
}
