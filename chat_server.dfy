/**
 * The Socket.IO chat relay: the `chat` event handler, which stores a
 * message and then either reports an error to its sender or broadcasts the
 * stored row, the `disconnect` handler, and the `/past-message` endpoint.
 *
 * The database is not modelled: what an insert or a query returns is an
 * input. The connected sockets are an input too; the server keeps no list
 * of its own. What the transport delivers is modelled as one outbox of
 * events per socket.
 */
module ChatServer {
  import opened Common
  import opened SeqUtil

  /** A socket, by its `socket.id`. */
  type SocketId = nat

  /**
   * The fields of an incoming `chat` payload; `None` when the client left
   * one out. A missing or null payload itself is `None` where the handler
   * takes an `Option<ChatMessage>`.
   */
  datatype ChatMessage = ChatMessage(content: Option<string>, username: Option<string>, roomId: Option<string>)

  /** The object passed to `insert` on the `message` table. */
  datatype InsertRecord = InsertRecord(
    content: Option<string>,
    username: Option<string>,
    roomId: string,
    userId: Option<string>)

  /** A row of the `message` table, as `.select()` returns it after the insert. */
  datatype StoredRow = StoredRow(
    id: int,
    content: Option<string>,
    username: Option<string>,
    roomId: string,
    userId: Option<string>,
    createdAt: int)

  /** What the store answers to the insert: an error, or the inserted rows. */
  datatype InsertOutcome = InsertFailed | Inserted(rows: seq<StoredRow>)

  /** An event emitted to one socket; `ChatEvent(None)` is an emit of `data[0]` when `data` is empty. */
  datatype Event = ErrorEvent(message: string) | ChatEvent(row: Option<StoredRow>)

  const SaveFailed: string := "failed to save message"
  const PublicRoom: string := "public"

  /** `socket.user_id || null`: an absent or empty id becomes null. */
  function UserIdOf(socketUserId: Option<string>): (r: Option<string>)
    ensures r.Some? <==> socketUserId.Some? && socketUserId.value != ""
    ensures r.Some? ==> r == socketUserId
  {
    if socketUserId.Some? && socketUserId.value != "" then socketUserId else None
  }

  /** The record the handler inserts for `message` from a socket whose `user_id` is `socketUserId`. */
  function RecordFor(message: ChatMessage, socketUserId: Option<string>): (r: InsertRecord)
    ensures r.roomId == PublicRoom
    ensures r.content == message.content && r.username == message.username
    ensures r.userId == UserIdOf(socketUserId)
  {
    InsertRecord(message.content, message.username, PublicRoom, UserIdOf(socketUserId))
  }

  /** The room the client asks for makes no difference to what is stored. */
  lemma RoomIsIgnored(message: ChatMessage, room: Option<string>, socketUserId: Option<string>)
    ensures RecordFor(message.(roomId := room), socketUserId) == RecordFor(message, socketUserId)
  {
  }

  /** `data[0]`: the first returned row, if any. */
  function FirstRow(rows: seq<StoredRow>): (r: Option<StoredRow>)
    ensures r.Some? <==> |rows| > 0
    ensures r.Some? ==> r.value == rows[0]
  {
    if |rows| > 0 then Some(rows[0]) else None
  }

  /**
   * The events one `chat` call delivers to socket `s`, `connected` being the
   * sockets still connected when the insert returns. The sender may have
   * disconnected while the insert was awaited; an emit to it is then lost.
   */
  function Delivered(sender: SocketId, connected: set<SocketId>, outcome: InsertOutcome, s: SocketId): (events: seq<Event>)
    ensures outcome.InsertFailed? ==>
      (s == sender && s in connected ==> events == [ErrorEvent(SaveFailed)])
      && (s != sender || s !in connected ==> events == [])
    ensures outcome.Inserted? ==>
      (s in connected ==> events == [ChatEvent(FirstRow(outcome.rows))]) && (s !in connected ==> events == [])
  {
    match outcome
    case InsertFailed => if s == sender && sender in connected then [ErrorEvent(SaveFailed)] else []
    case Inserted(rows) => if s in connected then [ChatEvent(FirstRow(rows))] else []
  }

  /** A failed insert reaches the sender alone, if it is still connected, and nobody gets a `chat` event. */
  lemma FailureIsPrivate(sender: SocketId, connected: set<SocketId>, s: SocketId)
    ensures |Delivered(sender, connected, InsertFailed, s)| == (if s == sender && s in connected then 1 else 0)
    ensures forall e :: e in Delivered(sender, connected, InsertFailed, s) ==> !e.ChatEvent?
  {
  }

  /**
   * A successful insert reaches exactly the connected sockets, the sender
   * included when it is still connected, and nobody gets an error.
   */
  lemma SuccessIsBroadcast(sender: SocketId, connected: set<SocketId>, rows: seq<StoredRow>, s: SocketId)
    ensures s in connected <==> ChatEvent(FirstRow(rows)) in Delivered(sender, connected, Inserted(rows), s)
    ensures sender in connected ==> Delivered(sender, connected, Inserted(rows), sender) != []
    ensures forall e :: e in Delivered(sender, connected, Inserted(rows), s) ==> !e.ErrorEvent?
  {
  }

  /** What the relay has done so far: the records sent to the store, and the events each socket has received. */
  class ChatRelay {
    var inserts: seq<InsertRecord>
    var outboxes: map<SocketId, seq<Event>>

    /** The events socket `s` has received. */
    function Outbox(s: SocketId): seq<Event>
      reads this
    {
      if s in outboxes then outboxes[s] else []
    }

    constructor()
      ensures inserts == [] && forall s :: Outbox(s) == []
    {
      inserts := [];
      outboxes := map[];
    }

    /**
     * The `chat` handler of socket `sender`. A missing or null payload
     * (`message == None`) throws at the destructuring, before anything is
     * inserted or emitted. Otherwise it inserts the record; then on an error
     * it emits one error event to the sender and stops, and otherwise emits
     * the first stored row to every socket connected at that point.
     */
    method OnChat(sender: SocketId, connected: set<SocketId>, socketUserId: Option<string>,
                  message: Option<ChatMessage>, outcome: InsertOutcome)
      modifies this
      ensures message.None? ==> inserts == old(inserts) && outboxes == old(outboxes)
      ensures message.Some? ==> inserts == old(inserts) + [RecordFor(message.value, socketUserId)]
      ensures message.Some? ==> forall s :: Outbox(s) == old(Outbox(s)) + Delivered(sender, connected, outcome, s)
    {
      if message.None? {
        return;
      }
      inserts := inserts + [RecordFor(message.value, socketUserId)];
      if outcome.InsertFailed? {
        if sender in connected {
          outboxes := outboxes[sender := Outbox(sender) + [ErrorEvent(SaveFailed)]];
        }
        return;
      }
      var event := ChatEvent(FirstRow(outcome.rows));
      outboxes := map s | s in outboxes.Keys + connected :: Outbox(s) + (if s in connected then [event] else []);
    }

    /** The `disconnect` handler only logs. */
    method OnDisconnect(s: SocketId)
      ensures inserts == old(inserts) && outboxes == old(outboxes)
    {
    }
  }

  // ---------------------------------------------------------------------
  // `/past-message`
  // ---------------------------------------------------------------------

  /** A row of the history query: the columns `content, username, created_at`. */
  datatype HistoryRow = HistoryRow(content: Option<string>, username: Option<string>, createdAt: int)

  const HistoryLimit: nat := 50

  function CreatedAt(row: StoredRow): int {
    row.createdAt
  }

  function Columns(row: StoredRow): HistoryRow {
    HistoryRow(row.content, row.username, row.createdAt)
  }

  function ColumnsOf(rows: seq<StoredRow>): (r: seq<HistoryRow>)
    ensures |r| == |rows|
    ensures forall i :: 0 <= i < |rows| ==> r[i] == Columns(rows[i])
  {
    if rows == [] then [] else [Columns(rows[0])] + ColumnsOf(rows[1..])
  }

  /** The rows the query picks: ordered by `created_at` ascending, then the first 50. */
  function OldestRows(table: seq<StoredRow>): seq<StoredRow> {
    Take(SortBy(table, CreatedAt), HistoryLimit)
  }

  /** The history query over the table's rows. */
  function HistoryQuery(table: seq<StoredRow>): seq<HistoryRow> {
    ColumnsOf(OldestRows(table))
  }

  /** The picked rows are a prefix of the table sorted by time, and the rest of it holds the rows left out. */
  lemma OldestRowsSplit(table: seq<StoredRow>)
    ensures var sorted := SortBy(table, CreatedAt);
      && |sorted| == |table|
      && sorted == OldestRows(table) + sorted[|OldestRows(table)|..]
      && multiset(table) == multiset(OldestRows(table)) + multiset(sorted[|OldestRows(table)|..])
  {
    var sorted := SortBy(table, CreatedAt);
    SortByLength(table, CreatedAt);
    var picked := OldestRows(table);
    assert sorted == picked + sorted[|picked|..];
  }

  /** The query picks min(|table|, 50) rows of the table, in ascending time. */
  lemma OldestRowsShape(table: seq<StoredRow>)
    ensures multiset(OldestRows(table)) <= multiset(table)
    ensures |OldestRows(table)| == if |table| < HistoryLimit then |table| else HistoryLimit
    ensures SortedBy(OldestRows(table), CreatedAt)
  {
    OldestRowsSplit(table);
  }

  /** The query returns the oldest messages, not the latest: no row left out is older than one picked. */
  lemma OldestRowsAreOldest(table: seq<StoredRow>)
    ensures forall x, y :: x in OldestRows(table) && y in multiset(table) - multiset(OldestRows(table)) ==>
      x.createdAt <= y.createdAt
  {
    OldestRowsSplit(table);
    var sorted := SortBy(table, CreatedAt);
    var picked := OldestRows(table);
    assert multiset(table) - multiset(picked) == multiset(sorted[|picked|..]);
    SplitSorted(sorted, |picked|);
  }

  /** In a list sorted by time, no row after position `k` is older than one before it. */
  lemma SplitSorted(sorted: seq<StoredRow>, k: nat)
    requires SortedBy(sorted, CreatedAt) && k <= |sorted|
    ensures forall x, y :: x in sorted[..k] && y in multiset(sorted[k..]) ==> x.createdAt <= y.createdAt
  {
    forall x, y | x in sorted[..k] && y in multiset(sorted[k..])
      ensures x.createdAt <= y.createdAt
    {
      var i :| 0 <= i < k && sorted[..k][i] == x;
      var j :| 0 <= j < |sorted| - k && sorted[k..][j] == y;
      assert sorted[i] == x && sorted[k + j] == y;
    }
  }

  /** The history comes in ascending `created_at`, at most 50 rows. */
  lemma HistoryQueryShape(table: seq<StoredRow>)
    ensures var h := HistoryQuery(table);
      |h| <= HistoryLimit && forall i, j :: 0 <= i < j < |h| ==> h[i].createdAt <= h[j].createdAt
  {
    OldestRowsShape(table);
  }

  /** What the query answers: an error, or `data`, which may be null. */
  datatype QueryOutcome = QueryFailed | Answered(data: Option<seq<HistoryRow>>)

  /** The endpoint's response: `res.json(...)` with status 200, or status 500 with an error object. */
  datatype Response = Rows(rows: seq<HistoryRow>) | ServerError(status: int, error: string)

  const ServerErrorText: string := "서버 오류"

  /** `/past-message`: `data || []` on success, status 500 on a query error. */
  function PastMessages(outcome: QueryOutcome): (r: Response)
    ensures outcome.QueryFailed? <==> r == ServerError(500, ServerErrorText)
    ensures outcome.Answered? && outcome.data.Some? ==> r == Rows(outcome.data.value)
    ensures outcome == Answered(None) ==> r == Rows([])
  {
    match outcome
    case QueryFailed => ServerError(500, ServerErrorText)
    case Answered(data) => Rows(data.GetOr([]))
  }

  /** When the query answers, the endpoint returns the oldest 50 messages in ascending time. */
  lemma PastMessagesOfTable(table: seq<StoredRow>)
    ensures PastMessages(Answered(Some(HistoryQuery(table)))) == Rows(HistoryQuery(table))
    ensures |PastMessages(Answered(Some(HistoryQuery(table)))).rows| <= HistoryLimit
  {
    HistoryQueryShape(table);
  }
}
