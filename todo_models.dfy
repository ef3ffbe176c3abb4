/**
 * The to-do list's types: the `PlanType` choice, the insert and response
 * records with their coding-key tables, and the `CodableParent` /
 * `CodableChild` coding example.
 */
module TodoModels {
  import opened Common
  import opened Json

  // ---------------------------------------------------------------------
  // `PlanType`
  // ---------------------------------------------------------------------

  datatype PlanType = Daily | Event

  /** `allCases`, in declaration order. */
  const AllPlanTypes: seq<PlanType> := [Daily, Event]

  function RawValue(p: PlanType): string {
    match p
    case Daily => "Daily"
    case Event => "Event"
  }

  /** `id`, which is the raw value: each plan type has its own, and it names the type back. */
  function PlanId(p: PlanType): (id: string)
    ensures forall q :: RawValue(q) == id ==> q == p
    ensures PlanTypeOf(id) == Some(p)
  {
    RawValue(p)
  }

  /** `PlanType(rawValue:)`. */
  function PlanTypeOf(raw: string): (r: Option<PlanType>)
    ensures r.Some? ==> RawValue(r.value) == raw
  {
    if raw == "Daily" then Some(Daily)
    else if raw == "Event" then Some(Event)
    else None
  }

  /** Every plan type is listed once, and its raw value names it back. */
  lemma PlanTypeRoundTrip(p: PlanType)
    ensures PlanTypeOf(RawValue(p)) == Some(p)
    ensures p in AllPlanTypes
  {
  }

  /** A raw value names a plan type exactly when it is one of the two raw values. */
  lemma PlanTypeOfIff(raw: string)
    ensures PlanTypeOf(raw).Some? <==> raw == "Daily" || raw == "Event"
  {
  }

  // ---------------------------------------------------------------------
  // `TodoInsert`: the id, `completed` and `createdAt` are the server's.
  // ---------------------------------------------------------------------

  datatype TodoInsert = TodoInsert(title: string, content: string, isAlarm: bool, alarmTime: Option<Date>)

  /** The `CodingKeys` of `TodoInsert`. */
  datatype TodoInsertKey = InsertTitle | InsertContent | InsertIsAlarm | InsertAlarmTime

  function TodoInsertKeyName(k: TodoInsertKey): string {
    match k
    case InsertTitle => "title"
    case InsertContent => "content"
    case InsertIsAlarm => "is_alarm"
    case InsertAlarmTime => "alarm_time"
  }

  lemma TodoInsertKeysDistinct(a: TodoInsertKey, b: TodoInsertKey)
    ensures TodoInsertKeyName(a) == TodoInsertKeyName(b) <==> a == b
  {
  }

  function EncodeTodoInsert(t: TodoInsert): (o: Fields)
    ensures o.Keys == {"title", "content", "is_alarm"} + (if t.alarmTime.Some? then {"alarm_time"} else {})
  {
    var base := map[
      TodoInsertKeyName(InsertTitle) := Str(t.title),
      TodoInsertKeyName(InsertContent) := Str(t.content),
      TodoInsertKeyName(InsertIsAlarm) := Bool(t.isAlarm)];
    WithDate(base, TodoInsertKeyName(InsertAlarmTime), t.alarmTime)
  }

  function DecodeTodoInsert(o: Fields): Option<TodoInsert> {
    var title := StringAt(o, TodoInsertKeyName(InsertTitle));
    var content := StringAt(o, TodoInsertKeyName(InsertContent));
    var isAlarm := BoolAt(o, TodoInsertKeyName(InsertIsAlarm));
    var alarmTime := OptionalDateAt(o, TodoInsertKeyName(InsertAlarmTime));
    if title.Some? && content.Some? && isAlarm.Some? && alarmTime.Some? then
      Some(TodoInsert(title.value, content.value, isAlarm.value, alarmTime.value))
    else None
  }

  lemma TodoInsertRoundTrip(t: TodoInsert)
    ensures DecodeTodoInsert(EncodeTodoInsert(t)) == Some(t)
  {
  }

  /** The insert leaves the id, the completion flag and the creation time to the server. */
  lemma TodoInsertOmitsServerFields(t: TodoInsert)
    ensures "id" !in EncodeTodoInsert(t) && "completed" !in EncodeTodoInsert(t)
    ensures "created_at" !in EncodeTodoInsert(t) && "user_id" !in EncodeTodoInsert(t)
  {
  }

  // ---------------------------------------------------------------------
  // `TodoResponse`
  // ---------------------------------------------------------------------

  datatype TodoResponse = TodoResponse(
    id: Uuid,
    title: string,
    content: string,
    isAlarm: bool,
    alarmTime: Option<Date>,
    completed: bool,
    createdAt: Option<Date>,
    userID: Uuid)

  /** The `CodingKeys` of `TodoResponse`. */
  datatype TodoResponseKey =
    | ResponseId | ResponseTitle | ResponseContent | ResponseIsAlarm
    | ResponseAlarmTime | ResponseCompleted | ResponseCreatedAt | ResponseUserID

  function TodoResponseKeyName(k: TodoResponseKey): string {
    match k
    case ResponseId => "id"
    case ResponseTitle => "title"
    case ResponseContent => "content"
    case ResponseIsAlarm => "is_alarm"
    case ResponseAlarmTime => "alarm_time"
    case ResponseCompleted => "completed"
    case ResponseCreatedAt => "created_at"
    case ResponseUserID => "user_id"
  }

  lemma TodoResponseKeysDistinct(a: TodoResponseKey, b: TodoResponseKey)
    ensures TodoResponseKeyName(a) == TodoResponseKeyName(b) <==> a == b
  {
  }

  /** The fields a response always has. */
  function TodoResponseRequired(t: TodoResponse): Fields {
    map[
      TodoResponseKeyName(ResponseId) := UuidValue(t.id),
      TodoResponseKeyName(ResponseTitle) := Str(t.title),
      TodoResponseKeyName(ResponseContent) := Str(t.content),
      TodoResponseKeyName(ResponseIsAlarm) := Bool(t.isAlarm),
      TodoResponseKeyName(ResponseCompleted) := Bool(t.completed),
      TodoResponseKeyName(ResponseUserID) := UuidValue(t.userID)]
  }

  function EncodeTodoResponse(t: TodoResponse): Fields {
    WithDate(WithDate(TodoResponseRequired(t), TodoResponseKeyName(ResponseAlarmTime), t.alarmTime),
             TodoResponseKeyName(ResponseCreatedAt), t.createdAt)
  }

  function DecodeTodoResponse(o: Fields): Option<TodoResponse> {
    var id := UuidAt(o, TodoResponseKeyName(ResponseId));
    var title := StringAt(o, TodoResponseKeyName(ResponseTitle));
    var content := StringAt(o, TodoResponseKeyName(ResponseContent));
    var isAlarm := BoolAt(o, TodoResponseKeyName(ResponseIsAlarm));
    var alarmTime := OptionalDateAt(o, TodoResponseKeyName(ResponseAlarmTime));
    var completed := BoolAt(o, TodoResponseKeyName(ResponseCompleted));
    var createdAt := OptionalDateAt(o, TodoResponseKeyName(ResponseCreatedAt));
    var userID := UuidAt(o, TodoResponseKeyName(ResponseUserID));
    if id.Some? && title.Some? && content.Some? && isAlarm.Some? && alarmTime.Some?
      && completed.Some? && createdAt.Some? && userID.Some? then
      Some(TodoResponse(id.value, title.value, content.value, isAlarm.value, alarmTime.value,
                        completed.value, createdAt.value, userID.value))
    else None
  }

  lemma TodoResponseRoundTrip(t: TodoResponse)
    ensures DecodeTodoResponse(EncodeTodoResponse(t)) == Some(t)
  {
    EncodedIds(t);
    EncodedTexts(t);
    EncodedFlags(t);
    EncodedDates(t);
  }

  // The encoded response, field by field.

  /** The two optional dates leave every other field as the required fields have it. */
  lemma EncodedKeepsRequired(t: TodoResponse, k: string)
    requires k != TodoResponseKeyName(ResponseAlarmTime) && k != TodoResponseKeyName(ResponseCreatedAt)
    ensures k in EncodeTodoResponse(t) <==> k in TodoResponseRequired(t)
    ensures k in TodoResponseRequired(t) ==> EncodeTodoResponse(t)[k] == TodoResponseRequired(t)[k]
  {
  }

  lemma RequiredLookups(t: TodoResponse)
    ensures var o := TodoResponseRequired(t);
      && o[TodoResponseKeyName(ResponseId)] == UuidValue(t.id)
      && o[TodoResponseKeyName(ResponseUserID)] == UuidValue(t.userID)
      && o[TodoResponseKeyName(ResponseTitle)] == Str(t.title)
      && o[TodoResponseKeyName(ResponseContent)] == Str(t.content)
      && o[TodoResponseKeyName(ResponseIsAlarm)] == Bool(t.isAlarm)
      && o[TodoResponseKeyName(ResponseCompleted)] == Bool(t.completed)
  {
  }

  lemma EncodedIds(t: TodoResponse)
    ensures UuidAt(EncodeTodoResponse(t), TodoResponseKeyName(ResponseId)) == Some(t.id)
    ensures UuidAt(EncodeTodoResponse(t), TodoResponseKeyName(ResponseUserID)) == Some(t.userID)
  {
    RequiredLookups(t);
    EncodedKeepsRequired(t, TodoResponseKeyName(ResponseId));
    EncodedKeepsRequired(t, TodoResponseKeyName(ResponseUserID));
  }

  lemma EncodedTexts(t: TodoResponse)
    ensures StringAt(EncodeTodoResponse(t), TodoResponseKeyName(ResponseTitle)) == Some(t.title)
    ensures StringAt(EncodeTodoResponse(t), TodoResponseKeyName(ResponseContent)) == Some(t.content)
  {
    RequiredLookups(t);
    EncodedKeepsRequired(t, TodoResponseKeyName(ResponseTitle));
    EncodedKeepsRequired(t, TodoResponseKeyName(ResponseContent));
  }

  lemma EncodedFlags(t: TodoResponse)
    ensures BoolAt(EncodeTodoResponse(t), TodoResponseKeyName(ResponseIsAlarm)) == Some(t.isAlarm)
    ensures BoolAt(EncodeTodoResponse(t), TodoResponseKeyName(ResponseCompleted)) == Some(t.completed)
  {
    RequiredLookups(t);
    EncodedKeepsRequired(t, TodoResponseKeyName(ResponseIsAlarm));
    EncodedKeepsRequired(t, TodoResponseKeyName(ResponseCompleted));
  }

  lemma EncodedDates(t: TodoResponse)
    ensures OptionalDateAt(EncodeTodoResponse(t), TodoResponseKeyName(ResponseAlarmTime)) == Some(t.alarmTime)
    ensures OptionalDateAt(EncodeTodoResponse(t), TodoResponseKeyName(ResponseCreatedAt)) == Some(t.createdAt)
  {
  }

  /** A response row without a creation time decodes with `createdAt` nil, and one without an id does not decode. */
  lemma TodoResponseMissingFields(o: Fields)
    ensures "id" !in o ==> DecodeTodoResponse(o) == None
    ensures DecodeTodoResponse(o).Some? && "created_at" !in o ==> DecodeTodoResponse(o).value.createdAt == None
  {
  }

  // ---------------------------------------------------------------------
  // `CodableParent` and `CodableChild`
  // ---------------------------------------------------------------------

  datatype CodableChild = CodableChild(name: string, age: int, birthTime: Date)
  datatype CodableParent = CodableParent(name: string, age: int, birthTime: Date, child: CodableChild)

  datatype ChildKey = ChildName | ChildAge | ChildBirthTime
  datatype ParentKey = ParentName | ParentAge | ParentBirthTime | ParentChild

  function ChildKeyName(k: ChildKey): string {
    match k
    case ChildName => "name"
    case ChildAge => "parent_age"
    case ChildBirthTime => "birth_time"
  }

  function ParentKeyName(k: ParentKey): string {
    match k
    case ParentName => "name"
    case ParentAge => "age"
    case ParentBirthTime => "birth_time"
    case ParentChild => "child"
  }

  lemma CodableKeysDistinct(a: ChildKey, b: ChildKey, c: ParentKey, d: ParentKey)
    ensures ChildKeyName(a) == ChildKeyName(b) <==> a == b
    ensures ParentKeyName(c) == ParentKeyName(d) <==> c == d
  {
  }

  function EncodeChild(c: CodableChild): (o: Fields)
    ensures o.Keys == {"name", "parent_age", "birth_time"}
  {
    map[
      ChildKeyName(ChildName) := Str(c.name),
      ChildKeyName(ChildAge) := Int(c.age),
      ChildKeyName(ChildBirthTime) := DateValue(c.birthTime)]
  }

  function DecodeChild(o: Fields): Option<CodableChild> {
    var name := StringAt(o, ChildKeyName(ChildName));
    var age := IntAt(o, ChildKeyName(ChildAge));
    var birthTime := DateAt(o, ChildKeyName(ChildBirthTime));
    if name.Some? && age.Some? && birthTime.Some? then Some(CodableChild(name.value, age.value, birthTime.value))
    else None
  }

  /** The parent's age is under "age", and its child, nested under "child", keeps its age under "parent_age". */
  function EncodeParent(p: CodableParent): (o: Fields)
    ensures o.Keys == {"name", "age", "birth_time", "child"}
    ensures o["age"] == Int(p.age) && o["child"] == Object(EncodeChild(p.child))
    ensures "parent_age" in o["child"].fields && "age" !in o["child"].fields
  {
    map[
      ParentKeyName(ParentName) := Str(p.name),
      ParentKeyName(ParentAge) := Int(p.age),
      ParentKeyName(ParentBirthTime) := DateValue(p.birthTime),
      ParentKeyName(ParentChild) := Object(EncodeChild(p.child))]
  }

  function DecodeParent(o: Fields): Option<CodableParent> {
    var name := StringAt(o, ParentKeyName(ParentName));
    var age := IntAt(o, ParentKeyName(ParentAge));
    var birthTime := DateAt(o, ParentKeyName(ParentBirthTime));
    var child := ObjectAt(o, ParentKeyName(ParentChild));
    if name.Some? && age.Some? && birthTime.Some? && child.Some? then
      var c := DecodeChild(child.value);
      if c.Some? then Some(CodableParent(name.value, age.value, birthTime.value, c.value)) else None
    else None
  }

  lemma ChildRoundTrip(c: CodableChild)
    ensures DecodeChild(EncodeChild(c)) == Some(c)
  {
  }

  lemma ParentRoundTrip(p: CodableParent)
    ensures DecodeParent(EncodeParent(p)) == Some(p)
  {
    ChildRoundTrip(p.child);
  }
}
