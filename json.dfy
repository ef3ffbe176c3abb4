/**
 * The JSON objects that `Codable` types are encoded to and decoded from,
 * as far as the coding-key tables are concerned: an object maps keys to
 * values. How a `Date` or a `UUID` is written out is the encoder's
 * business; each is kept as a leaf value of its own.
 */
module Json {
  import opened Common

  datatype Value =
    | Null
    | Bool(b: bool)
    | Int(i: int)
    | Str(s: string)
    | DateValue(date: Date)
    | UuidValue(uuid: Uuid)
    | Object(fields: map<string, Value>)

  type Fields = map<string, Value>

  // A required field decodes only from a present value of its type.

  function StringAt(o: Fields, key: string): (r: Option<string>)
    ensures r.Some? <==> key in o && o[key].Str?
    ensures r.Some? ==> o[key] == Str(r.value)
  {
    if key in o && o[key].Str? then Some(o[key].s) else None
  }

  function BoolAt(o: Fields, key: string): (r: Option<bool>)
    ensures r.Some? <==> key in o && o[key].Bool?
    ensures r.Some? ==> o[key] == Bool(r.value)
  {
    if key in o && o[key].Bool? then Some(o[key].b) else None
  }

  function IntAt(o: Fields, key: string): (r: Option<int>)
    ensures r.Some? <==> key in o && o[key].Int?
    ensures r.Some? ==> o[key] == Int(r.value)
  {
    if key in o && o[key].Int? then Some(o[key].i) else None
  }

  function DateAt(o: Fields, key: string): (r: Option<Date>)
    ensures r.Some? <==> key in o && o[key].DateValue?
    ensures r.Some? ==> o[key] == DateValue(r.value)
  {
    if key in o && o[key].DateValue? then Some(o[key].date) else None
  }

  function UuidAt(o: Fields, key: string): (r: Option<Uuid>)
    ensures r.Some? <==> key in o && o[key].UuidValue?
    ensures r.Some? ==> o[key] == UuidValue(r.value)
  {
    if key in o && o[key].UuidValue? then Some(o[key].uuid) else None
  }

  function ObjectAt(o: Fields, key: string): (r: Option<Fields>)
    ensures r.Some? <==> key in o && o[key].Object?
    ensures r.Some? ==> o[key] == Object(r.value)
  {
    if key in o && o[key].Object? then Some(o[key].fields) else None
  }

  // An optional field (`decodeIfPresent`) is nil when its key is missing or
  // null, and fails only on a value of another type; it is encoded only
  // when present (`encodeIfPresent`).

  function OptionalDateAt(o: Fields, key: string): (r: Option<Option<Date>>)
    ensures r == Some(None) <==> key !in o || o[key] == Null
    ensures r.Some? && r.value.Some? <==> key in o && o[key].DateValue?
  {
    if key !in o || o[key] == Null then Some(None)
    else if o[key].DateValue? then Some(Some(o[key].date))
    else None
  }

  function OptionalUuidAt(o: Fields, key: string): (r: Option<Option<Uuid>>)
    ensures r == Some(None) <==> key !in o || o[key] == Null
    ensures r.Some? && r.value.Some? <==> key in o && o[key].UuidValue?
  {
    if key !in o || o[key] == Null then Some(None)
    else if o[key].UuidValue? then Some(Some(o[key].uuid))
    else None
  }

  function WithDate(o: Fields, key: string, d: Option<Date>): (r: Fields)
    ensures OptionalDateAt(r, key) == Some(d)
    ensures forall k :: k != key ==> (k in r <==> k in o) && (k in o ==> r[k] == o[k])
    ensures key in r <==> d.Some?
  {
    if d.Some? then o[key := DateValue(d.value)] else o - {key}
  }

  function WithUuid(o: Fields, key: string, u: Option<Uuid>): (r: Fields)
    ensures OptionalUuidAt(r, key) == Some(u)
    ensures forall k :: k != key ==> (k in r <==> k in o) && (k in o ==> r[k] == o[k])
    ensures key in r <==> u.Some?
  {
    if u.Some? then o[key := UuidValue(u.value)] else o - {key}
  }
}
