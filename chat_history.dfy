/**
 * The chat-history store: two tables, sessions and messages, each with an
 * AUTOINCREMENT primary key, kept here in memory. Rows are only ever
 * inserted. Attachments are stored as a list of {name, mimetype, data}
 * records whose data is the base64 encoding of the file's bytes.
 */
module ChatHistory {
  import opened Wrappers
  import Base64
  import opened Uploads

  /** A row of the sessions table. */
  datatype SessionRow = SessionRow(id: int, name: string, createdAt: string)

  /** A row of the result of get_sessions: (id, name). */
  datatype SessionSummary = SessionSummary(id: int, name: string)

  /** One stored attachment, as serialised into the files column. */
  datatype FileRecord = FileRecord(name: string, mimetype: string, data: string)

  /** A row of the messages table; `files` is NULL (None) when the message has no attachment. */
  datatype MessageRow = MessageRow(
    id: int, sessionId: int, role: string, name: string, content: string,
    files: Option<seq<FileRecord>>, timestamp: string)

  /** A message as fetch_chat_history returns it. */
  datatype HistoryEntry = HistoryEntry(role: string, name: string, content: string, files: seq<FileRecord>, timestamp: string)

  // ---------------------------------------------------------------------
  // Attachments
  // ---------------------------------------------------------------------

  /** The stored record of one uploaded file. */
  function ToRecord(file: UploadedFile): (r: FileRecord)
    ensures r.name == file.name && r.mimetype == file.mimeType
    ensures Base64.Decode(r.data) == Some(file.content)
  {
    Base64.DecodeEncode(file.content);
    FileRecord(file.name, file.mimeType, Base64.Encode(file.content))
  }

  /**
   * The value of the files column for a message: NULL when there is no file
   * list or it is empty, otherwise one record per file in the given order,
   * each keeping the name and type and decoding back to the file's bytes.
   */
  function SerializeFiles(files: Option<seq<UploadedFile>>): (stored: Option<seq<FileRecord>>)
    ensures stored.None? <==> files.None? || files.value == []
    ensures stored.Some? ==> |stored.value| == |files.value|
    ensures stored.Some? ==> forall i :: 0 <= i < |files.value| ==>
      && stored.value[i].name == files.value[i].name
      && stored.value[i].mimetype == files.value[i].mimeType
      && Base64.Decode(stored.value[i].data) == Some(files.value[i].content)
  {
    match files
    case None => None
    case Some(fs) =>
      if fs == [] then None
      else Some(seq(|fs|, i requires 0 <= i < |fs| => ToRecord(fs[i])))
  }

  /** A fetched row's attachments: the stored records, or none when the column is NULL. */
  function FetchedFiles(stored: Option<seq<FileRecord>>): seq<FileRecord> {
    if stored.Some? then stored.value else []
  }

  function Entry(row: MessageRow): HistoryEntry {
    HistoryEntry(row.role, row.name, row.content, FetchedFiles(row.files), row.timestamp)
  }

  /**
   * A message saved with some files is fetched back with no record when it
   * had none, and otherwise with one record per file, in order, holding the
   * file's name, type and exact bytes.
   */
  lemma FilesRoundTrip(files: Option<seq<UploadedFile>>)
    ensures var fetched := FetchedFiles(SerializeFiles(files));
      && |fetched| == |FileList(files)|
      && forall i :: 0 <= i < |fetched| ==>
           && fetched[i].name == FileList(files)[i].name
           && fetched[i].mimetype == FileList(files)[i].mimeType
           && Base64.Decode(fetched[i].data) == Some(FileList(files)[i].content)
  {
  }

  // ---------------------------------------------------------------------
  // ORDER BY created_at DESC
  // ---------------------------------------------------------------------

  /**
   * The order of TEXT values under SQLite's BINARY collation: UTF-8 bytes
   * compared lexicographically, which is the lexicographic order of code points.
   */
  predicate TextLe(a: string, b: string)
    decreases |a|
  {
    a == [] || (b != [] && (a[0] < b[0] || (a[0] == b[0] && TextLe(a[1..], b[1..]))))
  }

  lemma {:induction false} TextLeTotal(a: string, b: string)
    ensures TextLe(a, b) || TextLe(b, a)
    decreases |a|
  {
    if a != [] && b != [] && a[0] == b[0] {
      TextLeTotal(a[1..], b[1..]);
    }
  }

  lemma {:induction false} TextLeTransitive(a: string, b: string, c: string)
    requires TextLe(a, b) && TextLe(b, c)
    ensures TextLe(a, c)
    decreases |a|
  {
    if a != [] && b != [] && c != [] && a[0] == b[0] && b[0] == c[0] {
      TextLeTransitive(a[1..], b[1..], c[1..]);
    }
  }

  /** Most recently created first: created_at never increases along the sequence. */
  ghost predicate NewestFirst(rows: seq<SessionRow>) {
    forall i, j :: 0 <= i < j < |rows| ==> TextLe(rows[j].createdAt, rows[i].createdAt)
  }

  function Insert(row: SessionRow, sorted: seq<SessionRow>): seq<SessionRow>
    decreases |sorted|
  {
    if sorted == [] then [row]
    else if TextLe(sorted[0].createdAt, row.createdAt) then [row] + sorted
    else [sorted[0]] + Insert(row, sorted[1..])
  }

  /** The sessions in the order of ORDER BY created_at DESC (rows with equal created_at keep one fixed order). */
  function SortNewestFirst(rows: seq<SessionRow>): seq<SessionRow>
    decreases |rows|
  {
    if rows == [] then [] else Insert(rows[0], SortNewestFirst(rows[1..]))
  }

  lemma {:induction false} InsertPermutes(row: SessionRow, sorted: seq<SessionRow>)
    ensures multiset(Insert(row, sorted)) == multiset(sorted) + multiset{row}
    decreases |sorted|
  {
    if sorted != [] && !TextLe(sorted[0].createdAt, row.createdAt) {
      InsertPermutes(row, sorted[1..]);
      assert sorted == [sorted[0]] + sorted[1..];
    }
  }

  lemma {:induction false} InsertOrders(row: SessionRow, sorted: seq<SessionRow>)
    requires NewestFirst(sorted)
    ensures NewestFirst(Insert(row, sorted))
    decreases |sorted|
  {
    if sorted == [] {
    } else if TextLe(sorted[0].createdAt, row.createdAt) {
      var out := [row] + sorted;
      forall i, j | 0 <= i < j < |out| ensures TextLe(out[j].createdAt, out[i].createdAt) {
        if i == 0 {
          if j > 1 {
            TextLeTransitive(sorted[j - 1].createdAt, sorted[0].createdAt, row.createdAt);
          }
        }
      }
    } else {
      TextLeTotal(sorted[0].createdAt, row.createdAt);
      var rest := Insert(row, sorted[1..]);
      InsertOrders(row, sorted[1..]);
      InsertPermutes(row, sorted[1..]);
      var out := [sorted[0]] + rest;
      forall i, j | 0 <= i < j < |out| ensures TextLe(out[j].createdAt, out[i].createdAt) {
        if i == 0 {
          var x := out[j];
          assert x in multiset(rest);
          if x != row {
            assert x in multiset(sorted[1..]);
            var k :| 0 <= k < |sorted[1..]| && sorted[1..][k] == x;
            assert sorted[k + 1] == x;
          }
        }
      }
    }
  }

  /** get_sessions returns every session exactly once. */
  lemma {:induction false} SortNewestFirstPermutes(rows: seq<SessionRow>)
    ensures multiset(SortNewestFirst(rows)) == multiset(rows)
    decreases |rows|
  {
    if rows != [] {
      SortNewestFirstPermutes(rows[1..]);
      InsertPermutes(rows[0], SortNewestFirst(rows[1..]));
      assert rows == [rows[0]] + rows[1..];
    }
  }

  /** get_sessions returns the most recently created session first. */
  lemma {:induction false} SortNewestFirstOrders(rows: seq<SessionRow>)
    ensures NewestFirst(SortNewestFirst(rows))
    decreases |rows|
  {
    if rows != [] {
      SortNewestFirstOrders(rows[1..]);
      InsertOrders(rows[0], SortNewestFirst(rows[1..]));
    }
  }

  function Summaries(rows: seq<SessionRow>): (summaries: seq<SessionSummary>)
    ensures |summaries| == |rows|
    ensures forall i :: 0 <= i < |rows| ==> summaries[i] == SessionSummary(rows[i].id, rows[i].name)
  {
    seq(|rows|, i requires 0 <= i < |rows| => SessionSummary(rows[i].id, rows[i].name))
  }

  // ---------------------------------------------------------------------
  // WHERE session_id = ? ORDER BY id ASC
  // ---------------------------------------------------------------------

  /** The rows of one session, in the order they were inserted. */
  function Select(rows: seq<MessageRow>, sessionId: int): seq<MessageRow>
    decreases |rows|
  {
    if rows == [] then []
    else
      var last := rows[|rows| - 1];
      Select(rows[..|rows| - 1], sessionId) + (if last.sessionId == sessionId then [last] else [])
  }

  ghost predicate SessionIdsAscending(rows: seq<SessionRow>) {
    forall i, j :: 0 <= i < j < |rows| ==> rows[i].id < rows[j].id
  }

  ghost predicate MessageIdsAscending(rows: seq<MessageRow>) {
    forall i, j :: 0 <= i < j < |rows| ==> rows[i].id < rows[j].id
  }

  /** A session's history holds exactly the rows with its session_id. */
  lemma {:induction false} SelectMembers(rows: seq<MessageRow>, sessionId: int)
    ensures forall r :: r in Select(rows, sessionId) <==> r in rows && r.sessionId == sessionId
    decreases |rows|
  {
    if rows != [] {
      var init := rows[..|rows| - 1];
      SelectMembers(init, sessionId);
      assert rows == init + [rows[|rows| - 1]];
    }
  }

  /**
   * A session's history is in ascending id order, which is insertion order,
   * whatever the timestamps; so no row appears twice.
   */
  lemma {:induction false} SelectAscending(rows: seq<MessageRow>, sessionId: int)
    requires MessageIdsAscending(rows)
    ensures MessageIdsAscending(Select(rows, sessionId))
    decreases |rows|
  {
    if rows != [] {
      var init := rows[..|rows| - 1];
      var last := rows[|rows| - 1];
      SelectAscending(init, sessionId);
      SelectMembers(init, sessionId);
      var selected := Select(init, sessionId);
      if last.sessionId == sessionId {
        forall i | 0 <= i < |selected| ensures selected[i].id < last.id {
          assert selected[i] in init;
        }
      }
    }
  }

  /** A session id that no row carries, known or not, has an empty history. */
  lemma SelectUnknown(rows: seq<MessageRow>, sessionId: int)
    requires forall r :: r in rows ==> r.sessionId != sessionId
    ensures Select(rows, sessionId) == []
  {
    SelectMembers(rows, sessionId);
    if Select(rows, sessionId) != [] {
      assert Select(rows, sessionId)[0] in Select(rows, sessionId);
    }
  }

  /** Appending a row adds it to the end of its own session's history and to no other. */
  lemma SelectAppend(rows: seq<MessageRow>, row: MessageRow, sessionId: int)
    ensures Select(rows + [row], sessionId)
         == Select(rows, sessionId) + (if row.sessionId == sessionId then [row] else [])
  {
    assert (rows + [row])[..|rows|] == rows;
  }

  // ---------------------------------------------------------------------
  // The store
  // ---------------------------------------------------------------------

  /** The database file: the two tables and the AUTOINCREMENT counters of sqlite_sequence. */
  class Store {
    var sessions: seq<SessionRow>
    var messages: seq<MessageRow>
    var lastSessionId: int
    var lastMessageId: int

    ghost predicate Valid()
      reads this
    {
      && 0 <= lastSessionId && 0 <= lastMessageId
      && SessionIdsAscending(sessions)
      && MessageIdsAscending(messages)
      && (forall i :: 0 <= i < |sessions| ==> 0 < sessions[i].id <= lastSessionId)
      && (forall i :: 0 <= i < |messages| ==> 0 < messages[i].id <= lastMessageId)
    }

    /** init_db on a new database file: both tables exist and are empty. */
    constructor InitDb()
      ensures Valid()
      ensures sessions == [] && messages == []
    {
      sessions, messages := [], [];
      lastSessionId, lastMessageId := 0, 0;
    }

    /**
     * create_session: inserts one session with the given name (not checked
     * for uniqueness) and the given creation time, or the current one, and
     * returns its new id, greater than that of every existing session.
     */
    method CreateSession(name: string, timestamp: Option<string>, now: string) returns (sessionId: int)
      requires Valid()
      modifies this
      ensures Valid()
      ensures sessions == old(sessions) + [SessionRow(sessionId, name, if timestamp.Some? then timestamp.value else now)]
      ensures forall s :: s in old(sessions) ==> s.id < sessionId
      ensures messages == old(messages)
      ensures lastSessionId == sessionId && lastMessageId == old(lastMessageId)
    {
      var createdAt := if timestamp.Some? then timestamp.value else now;
      sessionId := lastSessionId + 1;
      lastSessionId := sessionId;
      sessions := sessions + [SessionRow(sessionId, name, createdAt)];
    }

    /**
     * get_sessions: (id, name) of every session, most recently created first.
     * Rows with equal created_at may come in any order.
     */
    method GetSessions() returns (rows: seq<SessionSummary>)
      requires Valid()
      ensures exists ordered :: multiset(ordered) == multiset(sessions) && NewestFirst(ordered) && rows == Summaries(ordered)
      ensures |rows| == |sessions|
      ensures forall s :: s in sessions ==> SessionSummary(s.id, s.name) in rows
    {
      var ordered := SortNewestFirst(sessions);
      SortNewestFirstPermutes(sessions);
      SortNewestFirstOrders(sessions);
      rows := Summaries(ordered);
      assert |ordered| == |multiset(ordered)| == |multiset(sessions)| == |sessions|;
      forall s | s in sessions ensures SessionSummary(s.id, s.name) in rows {
        assert s in multiset(ordered);
        var k :| 0 <= k < |ordered| && ordered[k] == s;
        assert rows[k] == SessionSummary(s.id, s.name);
      }
    }

    /**
     * save_message: appends exactly one message row, with its attachments
     * serialised, and the given timestamp or the current one. The session id
     * is stored as given, whether or not such a session exists.
     */
    method SaveMessage(sessionId: int, role: string, name: string, content: string,
                       timestamp: Option<string>, now: string, files: Option<seq<UploadedFile>>)
      requires Valid()
      modifies this
      ensures Valid()
      ensures messages == old(messages) + [MessageRow(lastMessageId, sessionId, role, name, content,
                                                      SerializeFiles(files), if timestamp.Some? then timestamp.value else now)]
      ensures lastMessageId == old(lastMessageId) + 1
      ensures sessions == old(sessions) && lastSessionId == old(lastSessionId)
    {
      var filesJson: Option<seq<FileRecord>> := None;
      if files.Some? && files.value != [] {
        var fs := files.value;
        filesJson := Some(seq(|fs|, i requires 0 <= i < |fs| => ToRecord(fs[i])));
      }
      var stamp := if timestamp.Some? then timestamp.value else now;
      lastMessageId := lastMessageId + 1;
      messages := messages + [MessageRow(lastMessageId, sessionId, role, name, content, filesJson, stamp)];
    }

    /**
     * fetch_chat_history: the messages of one session in ascending id order,
     * with their attachment lists decoded (none when the column is NULL).
     */
    method FetchChatHistory(sessionId: int) returns (history: seq<HistoryEntry>)
      requires Valid()
      ensures |history| == |Select(messages, sessionId)|
      ensures forall i :: 0 <= i < |history| ==> history[i] == Entry(Select(messages, sessionId)[i])
    {
      var rows: seq<MessageRow> := [];
      var i := 0;
      while i < |messages|
        invariant 0 <= i <= |messages|
        invariant rows == Select(messages[..i], sessionId)
      {
        assert messages[..i + 1][..i] == messages[..i];
        if messages[i].sessionId == sessionId {
          rows := rows + [messages[i]];
        }
        i := i + 1;
      }
      assert messages[..|messages|] == messages;
      history := seq(|rows|, k requires 0 <= k < |rows| => Entry(rows[k]));
    }
  }

  /**
   * Saving a message and then fetching its session gives the earlier history
   * followed by the new message, with its attachments intact; every other
   * session's history is unchanged.
   */
  lemma FetchAfterSave(rows: seq<MessageRow>, id: int, sessionId: int, role: string, name: string, content: string,
                       timestamp: string, files: Option<seq<UploadedFile>>, other: int)
    requires other != sessionId
    ensures var row := MessageRow(id, sessionId, role, name, content, SerializeFiles(files), timestamp);
      && Select(rows + [row], sessionId) == Select(rows, sessionId) + [row]
      && Select(rows + [row], other) == Select(rows, other)
      && Entry(row) == HistoryEntry(role, name, content, FetchedFiles(SerializeFiles(files)), timestamp)
  {
    var row := MessageRow(id, sessionId, role, name, content, SerializeFiles(files), timestamp);
    SelectAppend(rows, row, sessionId);
    SelectAppend(rows, row, other);
  }
}
