/**
 * The read queries the location store sends: Where(...).First on the country-part
 * table, and the name search Where("name LIKE ?", ...).Find on the location table.
 * First returns the lowest matching primary key. Find has no ORDER BY, so the database
 * promises no order; listing its rows in primary-key order is this model's choice.
 */
module Queries {
  import opened Records

  /**
   * The smallest key k in [lo, hi) whose row has part's triple, or NO_ID when there
   * is none: Where("area_name = ? AND postal_code = ? AND country_part = ?").First.
   */
  function FirstMatching(parts: map<Id, CountryPart>, part: CountryPart, lo: Id, hi: Id): (r: Id)
    requires lo >= 1
    decreases hi - lo
    ensures r == NO_ID <==> forall k :: lo <= k < hi && k in parts ==> !parts[k].SameTriple(part)
    ensures r != NO_ID ==> lo <= r < hi && r in parts && parts[r].SameTriple(part)
    ensures r != NO_ID ==> forall k :: lo <= k < r && k in parts ==> !parts[k].SameTriple(part)
  {
    if lo >= hi then NO_ID
    else if lo in parts && parts[lo].SameTriple(part) then lo
    else FirstMatching(parts, part, lo + 1, hi)
  }

  /** Every row of the location table sits under its own id. */
  ghost predicate KeyedById(rows: map<Id, Location>)
  {
    forall k :: k in rows ==> rows[k].id == k
  }

  /**
   * The rows with keys in [lo, hi) whose name starts with prefix, in key order:
   * Where("name LIKE ?", prefix + "%").Find.
   */
  function FindByNamePrefix(rows: map<Id, Location>, prefix: string, lo: Id, hi: Id): (r: seq<Location>)
    requires KeyedById(rows)
    decreases hi - lo
    ensures forall i :: 0 <= i < |r| ==>
              lo <= r[i].id < hi && r[i].id in rows && rows[r[i].id] == r[i] && prefix <= r[i].name
    ensures forall i, j :: 0 <= i < j < |r| ==> r[i].id < r[j].id
    ensures forall k :: lo <= k < hi && k in rows && prefix <= rows[k].name ==> rows[k] in r
  {
    if lo >= hi then []
    else if lo in rows && prefix <= rows[lo].name then [rows[lo]] + FindByNamePrefix(rows, prefix, lo + 1, hi)
    else FindByNamePrefix(rows, prefix, lo + 1, hi)
  }

  predicate IsUpper(c: char)
  {
    'A' <= c <= 'Z'
  }

  function LowerChar(c: char): char
  {
    if IsUpper(c) then (c as int - 'A' as int + 'a' as int) as char else c
  }

  /**
   * strings.ToLower, for the ASCII letters: every upper-case letter becomes its
   * lower-case form and every other character stays.
   */
  function ToLower(s: string): (r: string)
    ensures |r| == |s|
    ensures forall i :: 0 <= i < |s| ==> !IsUpper(r[i])
    ensures forall i :: 0 <= i < |s| && !IsUpper(s[i]) ==> r[i] == s[i]
    ensures forall i :: 0 <= i < |s| && IsUpper(s[i]) ==> 'a' <= r[i] <= 'z' && r[i] as int - s[i] as int == 32
  {
    seq(|s|, i requires 0 <= i < |s| => LowerChar(s[i]))
  }
}
