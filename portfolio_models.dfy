/**
 * The portfolio records and their coding-key tables: what the app inserts
 * into the `portfolio` table and what it reads back.
 */
module PortfolioModels {
  import opened Common
  import opened Json

  /** A new portfolio node; `parentId` is nil for a top-level node. */
  datatype PortfolioInsert = PortfolioInsert(title: string, content: string, parentId: Option<Uuid>)

  /** A stored portfolio node. */
  datatype PortfolioResponse = PortfolioResponse(
    id: Uuid,
    title: string,
    content: string,
    parentId: Option<Uuid>,
    userId: string)

  /** The `CodingKeys` of `PortfolioInsert`. */
  datatype InsertKey = InsertTitle | InsertContent | InsertParentId

  function InsertKeyName(k: InsertKey): string {
    match k
    case InsertTitle => "title"
    case InsertContent => "content"
    case InsertParentId => "parent_id"
  }

  /** The `CodingKeys` of `PortfolioResponse`. */
  datatype ResponseKey = ResponseId | ResponseTitle | ResponseContent | ResponseParentId | ResponseUserId

  function ResponseKeyName(k: ResponseKey): string {
    match k
    case ResponseId => "id"
    case ResponseTitle => "title"
    case ResponseContent => "content"
    case ResponseParentId => "parent_id"
    case ResponseUserId => "user_id"
  }

  lemma PortfolioKeysDistinct(a: InsertKey, b: InsertKey, c: ResponseKey, d: ResponseKey)
    ensures InsertKeyName(a) == InsertKeyName(b) <==> a == b
    ensures ResponseKeyName(c) == ResponseKeyName(d) <==> c == d
  {
  }

  /** A top-level node is sent without a "parent_id" key. */
  function EncodeInsert(p: PortfolioInsert): (o: Fields)
    ensures o.Keys == {"title", "content"} + (if p.parentId.Some? then {"parent_id"} else {})
  {
    var base := map[
      InsertKeyName(InsertTitle) := Str(p.title),
      InsertKeyName(InsertContent) := Str(p.content)];
    WithUuid(base, InsertKeyName(InsertParentId), p.parentId)
  }

  function DecodeInsert(o: Fields): Option<PortfolioInsert> {
    var title := StringAt(o, InsertKeyName(InsertTitle));
    var content := StringAt(o, InsertKeyName(InsertContent));
    var parentId := OptionalUuidAt(o, InsertKeyName(InsertParentId));
    if title.Some? && content.Some? && parentId.Some? then
      Some(PortfolioInsert(title.value, content.value, parentId.value))
    else None
  }

  function EncodeResponse(p: PortfolioResponse): Fields {
    var base := map[
      ResponseKeyName(ResponseId) := UuidValue(p.id),
      ResponseKeyName(ResponseTitle) := Str(p.title),
      ResponseKeyName(ResponseContent) := Str(p.content),
      ResponseKeyName(ResponseUserId) := Str(p.userId)];
    WithUuid(base, ResponseKeyName(ResponseParentId), p.parentId)
  }

  function DecodeResponse(o: Fields): Option<PortfolioResponse> {
    var id := UuidAt(o, ResponseKeyName(ResponseId));
    var title := StringAt(o, ResponseKeyName(ResponseTitle));
    var content := StringAt(o, ResponseKeyName(ResponseContent));
    var parentId := OptionalUuidAt(o, ResponseKeyName(ResponseParentId));
    var userId := StringAt(o, ResponseKeyName(ResponseUserId));
    if id.Some? && title.Some? && content.Some? && parentId.Some? && userId.Some? then
      Some(PortfolioResponse(id.value, title.value, content.value, parentId.value, userId.value))
    else None
  }

  lemma InsertRoundTrip(p: PortfolioInsert)
    ensures DecodeInsert(EncodeInsert(p)) == Some(p)
  {
  }

  lemma ResponseRoundTrip(p: PortfolioResponse)
    ensures DecodeResponse(EncodeResponse(p)) == Some(p)
  {
  }

  /** A stored row with no or a null "parent_id" reads back as a top-level node. */
  lemma MissingParentIsTopLevel(o: Fields)
    requires "parent_id" !in o || o["parent_id"] == Null
    ensures DecodeResponse(o).Some? ==> DecodeResponse(o).value.parentId == None
  {
  }
}
