# Location store of the flight logger, in Dafny

This project models the location part of the flight logger's persistence layer
(`OrmDatabase` in `storage/data-logic.go`). A location is an aggregate of three rows:

- a Coordinates row that the location owns;
- a CountryPart row, shared by every location with the same
  (AreaName, PostalCode, CountryPart) triple and never stored twice;
- the Location row itself, which points at both through `CoordinatesReferer` and
  `CountrypartReferer`.

The relational database is replaced by an in-memory store: three tables, each a map from
id to row, and a next-id counter per table. Ids are positive, and `0` means "no row".
gorm's `Create` becomes an insert under the next id, with the id written back into the
record. `First` and `Where(...).First` become lookups that return the lowest matching id.
`Related` looks up the row a foreign key names. `Save` replaces a row. `Delete` sets the
soft-delete marker. `Where("name LIKE ?").Find` lists the matching rows. The query has no
`ORDER BY`, so the database promises no order; listing them in id order is this model's choice.

Whether the store accepts a write is a flag the caller passes with the operation
(`coordinatesOk`, `countryPartOk`, `locationOk`, `saveOk`, `deleteOk`). That flag is
how the failure branches of the source are reached.

Files:

- `records.dfy` (module `Records`): the three row types, the blank records, and the error
  values. `Wrap` behaves like `errors.Wrap`, so a nil error stays nil.
- `queries.dfy` (module `Queries`): the two read queries, proved against their meaning.
  One is the first row with a given triple. The other is every row whose name has a given
  prefix, in id order. Also the ASCII `ToLower` the search applies to its query.
- `location_store.dfy` (module `LocationStore`): the tables as a value `Db`. `Valid` is
  the invariant the operations keep:
  - ids are positive and below their counter;
  - no two CountryPart rows share a triple;
  - no blank CountryPart is stored;
  - every location's references resolve;
  - no coordinates row is shared;
  - location rows hold columns only.

  Each location operation is also a function from the old tables to the new tables and
  the call's result. The lemmas there cover de-duplication, idempotence and invariant
  preservation.
- `storage.dfy` (module `Storage`): class `OrmDatabase`. It holds the tables as fields.
  The gorm calls are primitive methods. The operations run the source's steps in the
  source's order. Each operation ensures that the new tables and its results are the
  ones `LocationStore` gives for the old tables, and that `Valid()` still holds.
  Each operation method is specified by the `LocationStore` function of the same name.
  There are nine primitive methods:
  - The three creates and `Save` are specified by `LocationStore`'s `InsertCoordinates`,
    `InsertCountryPart`, `InsertLocation` and `SaveLocation`. `Delete` states its new
    tables in its own ensures. These five write, and they are steps of the operations
    rather than calls that keep `Valid()` on their own.
  - `First` is specified by `LocationStore.FirstLocation`. `Related`, `FirstWithTriple` and
    `FindByName` carry their own ensures. These four only read, so they cannot break
    `Valid()`.

Three behaviours of the code are easy to miss:

- `UpdateLocation` on an id with no row does not carry on with a blank record to the end.
  The blank record's `CoordinatesReferer` is 0. `Related` therefore finds no coordinates
  and the call returns "record not found". But it has already resolved the country part,
  and that may have inserted a CountryPart row.
- The search matches the lower-cased query as a plain prefix of the stored name.
  Because of that, a query such as "oslo" does not find "Oslo Vest" in this model.
  A case-insensitive match would come only from the database's collation, which is not
  modelled.
- gorm's soft-delete scoping is not modelled, so reads also see soft-deleted rows
  (see "Left out"). With gorm's scoping, deleted rows would be hidden from `GetLocation`
  and search.

## Model

| member | source | states |
|---|---|---|
| Records.Wrap | storage/data-logic.go:305 | A nil error stays nil, and any other error keeps its cause and gets the message in front of it. |
| Records.CountryPart.IsEmpty | storage/data-logic.go:233 | True exactly when AreaName, PostalCode and CountryPart are all empty; the id plays no part. |
| Queries.FirstMatching | storage/data-logic.go:257 | The result is 0 exactly when no row in the id range has the triple. Otherwise it is a row with that triple, and no lower id has it. |
| Queries.FindByNamePrefix | storage/data-logic.go:323 | Every row in the result is stored under its id and has the prefix. Every stored row with the prefix is in the result. Ids strictly increase. |
| Queries.ToLower | storage/data-logic.go:323 | The length is kept and no upper-case ASCII letter is left. Other characters are unchanged, and each upper-case letter becomes its lower-case letter. |
| LocationStore.GetCountryPart | storage/data-logic.go:255-264 | In a keyed store the result is 0 exactly when no row has the triple. A non-zero result names a row with all three fields equal. |
| LocationStore.GetCountryPartUnique | storage/data-logic.go:255-264 | In a valid store, the id found is the only row with the triple. |
| LocationStore.ResolveCountryPart | storage/data-logic.go:231-252 | A blank part gives 0 and no change. A triple already stored gives that row's id and no change. A new triple gets one inserted row under the next id, which is returned. A refused insert gives 0 and no change. Only the CountryPart table can change. |
| LocationStore.InsertFreshPartValid | storage/data-logic.go:239-246 | Inserting a non-blank part whose triple is not stored keeps the invariant. |
| LocationStore.ResolvePreservesValid | storage/data-logic.go:231-252 | resolveCountryPart keeps the invariant, so there is at most one row per triple. |
| LocationStore.ResolveLeavesOneRow | storage/data-logic.go:236-249 | After a resolve that returns an id, that id is the one and only row with the triple. |
| LocationStore.ResolveIdempotent | storage/data-logic.go:236-249 | After a resolve that returns an id, a second resolve of any part with the same triple, whatever its id, returns the same id and inserts nothing, whether or not an insert would be accepted. |
| LocationStore.CreateLocation | storage/data-logic.go:204-228 | The call succeeds exactly when both the coordinates insert and the location insert succeed. A refused coordinates insert changes nothing and returns the input with the wrapped error. Otherwise exactly one Coordinates row is added under the next id. On success the new location has the next location id, references that Coordinates row and the resolved part, keeps the input's other fields, and is the one row added. A refused location insert adds no location row. After the coordinates insert, the CountryPart table (zero or one new row) is exactly what resolving the input's triple gives. The location counter moves by one on success and not otherwise. |
| LocationStore.InsertCoordinatesValid | storage/data-logic.go:208-212 | Storing a coordinates row keeps the invariant. |
| LocationStore.CreateLocationPreservesValid | storage/data-logic.go:204-228 | CreateLocation keeps the invariant on every path, including the orphaned-coordinates path. |
| LocationStore.CreateTwiceSharesCountryPart | storage/data-logic.go:214-218 | When both creates succeed and the first one gets a non-zero CountryPart id, two locations created in turn with the same triple reference the same CountryPart id. The second create adds no CountryPart row, and exactly one row has the triple. |
| LocationStore.FirstLocation | storage/data-logic.go:270 | First leaves the stored row, or a blank record when there is none. In a valid store the row's CoordinatesReferer names a stored coordinates row exactly when the id is stored, which is why `Related` fails for an unknown id, and the row holds columns only, with blank sub-records. |
| LocationStore.PartOf | storage/data-logic.go:272-276 | The part UpdateLocation resolves has no id and the input's triple, and it is blank exactly when the input's part is. |
| LocationStore.UpdateLocation | storage/data-logic.go:267-298 | The coordinates table never changes. The CountryPart table changes as resolving the input's triple says. No location row is added or removed, and a row can only get a new CountrypartReferer. An unknown id gives "record not found" and no location change. A known id gives its stored row with the resolved reference, whether or not the save is accepted. A save replaces that row; a refused save returns the wrapped error. |
| LocationStore.UpdateLocationPreservesValid | storage/data-logic.go:267-298 | UpdateLocation keeps the invariant. |
| LocationStore.CreateThenUpdateKeepsPart | storage/data-logic.go:267-298 | Updating a location just created with the triple it was created with keeps its CountryPart reference and adds no CountryPart row, whatever the input's part id and the flags, as long as the create got a non-zero part id. |
| LocationStore.UpdateKeepsCoordinates | storage/data-logic.go:281-295 | Whatever coordinates the input carries, every location keeps its coordinates row, with the same longitude and latitude. |
| LocationStore.DeleteLocation | storage/data-logic.go:301-316 | An unknown id gives the twice-wrapped "record not found" and no change. For a known id the call succeeds exactly when the delete is accepted, and then only that row's deleted marker is set. No row is ever removed. |
| LocationStore.DeleteLocationPreservesValid | storage/data-logic.go:301-316 | DeleteLocation keeps the invariant. |
| LocationStore.GetLocation | storage/data-logic.go:333-343 | There is no error exactly when the id is stored, and then the result is the stored row. In a valid store that row has its id and a resolvable coordinates reference, and its sub-records are not loaded. An unknown id gives a blank location and the wrapped "record not found". |
| LocationStore.DeleteThenGet | storage/data-logic.go:315 | After a delete, GetLocation still returns the row, with the deleted marker set and every other column unchanged. |
| LocationStore.LocationSearchByName | storage/data-logic.go:319-330 | A location is in the result exactly when it is stored and its name starts with the lower-cased query. The result is in increasing id order. |
| Storage.OrmDatabase.constructor | storage/data-logic.go:15-18 | A new store has three empty tables and is valid. |
| Storage.OrmDatabase.CreateCoordinates | storage/data-logic.go:208 | An accepted insert puts the record under the next id and writes that id back. A refused one changes nothing. |
| Storage.OrmDatabase.CreateCountryPart | storage/data-logic.go:240 | The same, for the CountryPart table. |
| Storage.OrmDatabase.CreateLocationRow | storage/data-logic.go:221 | The same, for the Location table, which stores the columns only. |
| Storage.OrmDatabase.First | storage/data-logic.go:270 | The stored row and no error, or a blank record and "record not found". In a valid store the load succeeds exactly when the row it leaves references a stored coordinates row. |
| Storage.OrmDatabase.FirstWithTriple | storage/data-logic.go:257 | It finds a row exactly when one has the triple, and then returns the stored row with the lowest such id. |
| Storage.OrmDatabase.Related | storage/data-logic.go:284 | The coordinates row the location's CoordinatesReferer names, or "record not found". In a valid store, a stored location always finds its coordinates row, whose id is that reference. |
| Storage.OrmDatabase.Save | storage/data-logic.go:297 | An accepted save replaces the row under the record's id with its columns. A refused one changes nothing. |
| Storage.OrmDatabase.Delete | storage/data-logic.go:315 | An accepted delete sets the deleted marker of the row under the record's id and changes nothing else. |
| Storage.OrmDatabase.FindByName | storage/data-logic.go:323 | Exactly the stored locations whose name has the prefix, in id order. |
| Storage.OrmDatabase.GetCountryPart | storage/data-logic.go:255-264 | 0 exactly when no row has the triple. Otherwise the id of a row with that triple. |
| Storage.OrmDatabase.ResolveCountryPart | storage/data-logic.go:231-252 | Leaves the tables and returns the id that LocationStore.ResolveCountryPart gives, and keeps the store valid. |
| Storage.OrmDatabase.CreateLocation | storage/data-logic.go:204-228 | Runs coordinates, then country part, then location, and ends in LocationStore.CreateLocation's tables, location and error. Keeps the store valid. |
| Storage.OrmDatabase.UpdateLocation | storage/data-logic.go:267-298 | Ends in LocationStore.UpdateLocation's tables, location and error, with the coordinates table untouched. Keeps the store valid. |
| Storage.OrmDatabase.DeleteLocation | storage/data-logic.go:301-316 | Ends in LocationStore.DeleteLocation's tables and error. Keeps the store valid. |
| Storage.OrmDatabase.LocationSearchByName | storage/data-logic.go:319-330 | Exactly the stored locations whose name starts with the lower-cased query, and no error. |
| Storage.OrmDatabase.GetLocation | storage/data-logic.go:333-343 | The stored row and no error, or a blank location whose error's cause is "record not found". |

## Left out

- `MigrateDatabase` and `CreateConnection` (schema set-up and opening a MySQL connection) are I/O and configuration. The store starts from empty tables instead. The in-memory store does not enforce the foreign keys the migration adds (storage/data-logic.go:72-73): a location whose `CountrypartReferer` is 0, after a blank or refused part, is stored, and a refusal by the database is reached only through `locationOk` or `saveOk` being false.
- The user queries (`CreateUser`, `GetAllUsers`, `GetUser`, `UpdateUser`, `DeleteUser`) are not part of this model.
- None of the `panic("not implemented")` stubs is modelled (waypoints, user groups, files, flights, incidents, wings, start sites).
- `mapLocation`, `demapLocation` and `demapLocations` are not part of this model. They are taken as plain copies: the caller's location is the stored record type, and a mapped location is not yet soft-deleted.
- Ids a caller puts on the records it passes in are ignored, because every insert takes the next id. gorm would keep a non-zero primary key the caller supplied.
- The model does not apply gorm's soft-delete scoping, which lives in gorm rather than this file. `First` and `Find` see soft-deleted rows too. So `GetLocation`, `LocationSearchByName`, `UpdateLocation` and `DeleteLocation` all still find a deleted row.
- The model does not include gorm's automatic saving of the embedded `Coordinates` and `CountryPart` when a location is created or saved. That is gorm behaviour the file does not show. Here `Create` and `Save` write the location row only.
- gorm's `Save` falls back to an insert when the primary key is zero. That case is not modelled: `UpdateLocation` can only reach `Save` with a stored row's id, as long as the store is valid.
- `isEmpty` is defined outside storage/data-logic.go; it is taken to mean that all three fields of the triple are empty (`Records.CountryPart.IsEmpty`).
- SQL `LIKE` details are not modelled: wildcards (`%`, `_`) inside the query, and case folding by the collation. The search is a plain prefix match.
- `getCountryPart`'s `=` comparisons (storage/data-logic.go:257) are modelled as exact string equality (`SameTriple`). The connection string (storage/data-logic.go:83) selects MySQL with utf8, whose default collation ignores case and trailing spaces. There "OSLO" equals "Oslo", so the program would reuse a row where the model inserts a new one, and the at-most-one-row-per-triple invariant holds only up to exact equality.
- Queries.ToLower: models `strings.ToLower` for ASCII letters only, not for other Unicode letters.
- Reads fail only with "record not found"; other read failures, such as a dropped connection, are not modelled. `getCountryPart` would treat such a failure as a miss. The error branch of `LocationSearchByName` (storage/data-logic.go:325-327) is never taken.
- Concurrency and transactions are left out, so calls are sequential. The lookup-then-insert race in `resolveCountryPart` is therefore outside the model.
- The `log.Printf` and `log.Println` calls are output only.
- Ids are unbounded naturals. The model ignores `uint` overflow and any auto-increment ids that a failed insert may use up. A refused insert does not advance the counter.
- Longitude and latitude are `real` values that are only copied, never computed with. The CreatedAt and UpdatedAt timestamps are not modelled.
