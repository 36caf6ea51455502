/** The message service's database: its four tables and the SQL statements over
    them, each statement one atomic step. */
module Tables {
  import opened Ordering
  import opened Wrappers
  import opened Messages

  datatype MessageRow = MessageRow(id: int, chatId: int, sender: Login, kind: string, text: Option<string>,
                                   addedAt: int)

  datatype AttachmentRow = AttachmentRow(messageId: int, fileId: FileId, filename: string, mime: string, size: int,
                                         kind: string)

  /** What the service hands to CreateFileMessage for each file. */
  datatype FileRecord = FileRecord(fileId: FileId, filename: string, mime: string, size: int, kind: string)

  /** `attachments` is kept in insertion order, which is the order of its serial id. */
  datatype Tables = Tables(maxMembers: map<int, int>, members: map<int, set<Login>>,
                           messages: seq<MessageRow>, attachments: seq<AttachmentRow>)

  function Members(t: Tables, chat: int): set<Login> {
    if chat in t.members then t.members[chat] else {}
  }

  ghost function MessageIds(t: Tables): set<int> {
    set row | row in t.messages :: row.id
  }

  /** The table constraints, and the capacity rule AddUserToChat enforces. */
  ghost predicate WellFormed(t: Tables) {
    && (forall i, j :: 0 <= i < j < |t.messages| ==> t.messages[i].id != t.messages[j].id)
    && (forall row :: row in t.messages ==> 0 < row.id <= MAX_INT4 && row.chatId in t.maxMembers)
    && (forall a :: a in t.attachments ==>
          a.messageId in MessageIds(t) && (a.kind == KIND_FILE || a.kind == KIND_IMAGE))
    && (forall i, j :: 0 <= i < j < |t.attachments| && t.attachments[i].messageId == t.attachments[j].messageId ==>
          t.attachments[i].fileId != t.attachments[j].fileId)
    && (forall chat :: chat in t.members ==> chat in t.maxMembers && |t.members[chat]| <= t.maxMembers[chat])
    && (forall chat :: chat in t.maxMembers ==> 0 <= t.maxMembers[chat])
  }

  // ---- inserts -------------------------------------------------------------

  /** insert into chat ... returning id; `chat` is the fresh serial value. */
  function CreateChat(t: Tables, chat: int, max: nat): Option<Tables> {
    if chat in t.maxMembers then None else Some(t.(maxMembers := t.maxMembers[chat := max]))
  }

  /** The insert guarded by "count(*) < max_members": a missing chat compares with
      null, and a login already present violates the primary key. */
  function AddUserToChat(t: Tables, chat: int, login: Login): Option<Tables> {
    if chat in t.maxMembers && |Members(t, chat)| < t.maxMembers[chat] && login !in Members(t, chat) then
      Some(t.(members := t.members[chat := Members(t, chat) + {login}]))
    else
      None
  }

  /** One row into message; `id` and `now` are the serial value and the clock. */
  function InsertMessage(t: Tables, row: MessageRow): Option<Tables> {
    if row.chatId in t.maxMembers && 0 < row.id <= MAX_INT4 && (forall m <- t.messages :: m.id != row.id) then
      Some(t.(messages := t.messages + [row]))
    else
      None
  }

  /** One row into message_attachment: foreign key, kind and size checks, unique pair. */
  function InsertAttachment(t: Tables, a: AttachmentRow): Option<Tables> {
    if && (exists m <- t.messages :: m.id == a.messageId)
       && (a.kind == KIND_FILE || a.kind == KIND_IMAGE)
       && 0 <= a.size
       && (forall b <- t.attachments :: b.messageId != a.messageId || b.fileId != a.fileId)
    then
      Some(t.(attachments := t.attachments + [a]))
    else
      None
  }

  function RowFor(messageId: int, r: FileRecord): AttachmentRow {
    AttachmentRow(messageId, r.fileId, r.filename, r.mime, r.size, r.kind)
  }

  function RowsFor(messageId: int, records: seq<FileRecord>): seq<AttachmentRow> {
    seq(|records|, i requires 0 <= i < |records| => RowFor(messageId, records[i]))
  }

  /** Whether every attachment of one new message passes the table's checks. */
  predicate Storable(records: seq<FileRecord>) {
    && (forall r <- records :: (r.kind == KIND_FILE || r.kind == KIND_IMAGE) && 0 <= r.size)
    && (forall i, j :: 0 <= i < j < |records| ==> records[i].fileId != records[j].fileId)
  }

  /** A chat is created exactly if its id is new, and with the given capacity. */
  lemma CreateExactly(t: Tables, chat: int, max: nat)
    ensures CreateChat(t, chat, max).Some? <==> chat !in t.maxMembers
    ensures chat !in t.maxMembers ==>
              CreateChat(t, chat, max).value ==
              Tables(t.maxMembers[chat := max], t.members, t.messages, t.attachments)
  {
  }

  /** A user joins exactly if the chat exists, has a seat left, and does not have the user;
      then its members are those before and the user. */
  lemma JoinExactly(t: Tables, chat: int, login: Login)
    ensures var before := if chat in t.members then t.members[chat] else {};
            && (AddUserToChat(t, chat, login).Some? <==>
                  chat in t.maxMembers && login !in before && |before| < t.maxMembers[chat])
            && (AddUserToChat(t, chat, login).Some? ==>
                  AddUserToChat(t, chat, login).value ==
                  Tables(t.maxMembers, t.members[chat := before + {login}], t.messages, t.attachments))
  {
  }

  lemma CreateChatKeepsWellFormed(t: Tables, chat: int, max: nat)
    requires WellFormed(t) && CreateChat(t, chat, max).Some?
    ensures WellFormed(CreateChat(t, chat, max).value)
  {
  }

  lemma AddUserKeepsWellFormed(t: Tables, chat: int, user: Login)
    requires WellFormed(t) && AddUserToChat(t, chat, user).Some?
    ensures WellFormed(AddUserToChat(t, chat, user).value)
  {
  }

  // ---- reads ---------------------------------------------------------------

  function AttachmentsOf(rows: seq<AttachmentRow>, messageId: int): seq<Attachment> {
    if rows == [] then []
    else
      var a := rows[|rows| - 1];
      var front := AttachmentsOf(rows[..|rows| - 1], messageId);
      if a.messageId == messageId then front + [Attachment(a.fileId, a.filename, a.mime, a.size, a.kind, "", "")]
      else front
  }

  /** A message's attachments are its rows in insertion order, field by field, without links. */
  lemma {:induction false} AttachmentsOfExactly(rows: seq<AttachmentRow>, id: int) returns (ps: seq<nat>)
    ensures |ps| == |AttachmentsOf(rows, id)| && forall i, j :: 0 <= i < j < |ps| ==> ps[i] < ps[j]
    ensures forall p :: p in ps <==> 0 <= p < |rows| && rows[p].messageId == id
    ensures forall k :: 0 <= k < |ps| ==>
              && 0 <= ps[k] < |rows|
              && var a, r := AttachmentsOf(rows, id)[k], rows[ps[k]];
                 && a.fileId == r.fileId && a.filename == r.filename && a.mime == r.mime && a.size == r.size
                 && a.kind == r.kind && a.contentUrl == "" && a.downloadUrl == ""
  {
    ps := [];
    if rows != [] {
      var n := |rows| - 1;
      ps := AttachmentsOfExactly(rows[..n], id);
      if rows[n].messageId == id { ps := ps + [n]; }
    }
  }

  function TextOf(text: Option<string>): string {
    match text case Some(s) => s case None => ""
  }

  /** The message a row stands for, with its attachments in insertion order. */
  function StoredMessage(t: Tables, row: MessageRow): Message {
    Message(row.id, row.chatId, row.sender, row.kind, TextOf(row.text), AttachmentsOf(t.attachments, row.id),
            row.addedAt)
  }

  function StoredMessages(t: Tables, rows: seq<MessageRow>): seq<Message> {
    seq(|rows|, i requires 0 <= i < |rows| => StoredMessage(t, rows[i]))
  }

  function RowKey(row: MessageRow): Key {
    Key(row.addedAt, row.id)
  }

  function RowsOf(rows: seq<MessageRow>, chat: int): seq<MessageRow> {
    if rows == [] then []
    else
      var front := RowsOf(rows[..|rows| - 1], chat);
      if rows[|rows| - 1].chatId == chat then front + [rows[|rows| - 1]] else front
  }

  lemma {:induction false} RowsOfElements(rows: seq<MessageRow>, chat: int)
    ensures forall r :: r in RowsOf(rows, chat) <==> r in rows && r.chatId == chat
  {
    if rows != [] {
      RowsOfElements(rows[..|rows| - 1], chat);
      assert rows == rows[..|rows| - 1] + [rows[|rows| - 1]];
    }
  }

  lemma {:induction false} RowsOfDistinct(rows: seq<MessageRow>, chat: int)
    requires forall i, j :: 0 <= i < j < |rows| ==> rows[i].id != rows[j].id
    ensures DistinctKeys(RowKey, RowsOf(rows, chat))
  {
    if rows != [] {
      RowsOfDistinct(rows[..|rows| - 1], chat);
      RowsOfElements(rows[..|rows| - 1], chat);
    }
  }

  /** The whole history of a chat in server order: what paging has to reproduce. */
  function RawHistory(t: Tables, chat: int): seq<Message> {
    StoredMessages(t, SortBy(RowKey, RowsOf(t.messages, chat)))
  }

  /** The same history as the service sends it. */
  function History(t: Tables, chat: int): seq<Message> {
    EnrichAll(RawHistory(t, chat))
  }

  lemma SortedRows(t: Tables, chat: int)
    requires WellFormed(t)
    ensures Ascending(RowKey, SortBy(RowKey, RowsOf(t.messages, chat)))
    ensures forall r :: r in SortBy(RowKey, RowsOf(t.messages, chat)) <==> r in t.messages && r.chatId == chat
  {
    RowsOfDistinct(t.messages, chat);
    RowsOfElements(t.messages, chat);
    SortByElements(RowKey, RowsOf(t.messages, chat));
    SortByAscending(RowKey, RowsOf(t.messages, chat));
  }

  /** The enriched item for one row. */
  function Item(t: Tables, row: MessageRow): Message {
    Enrich(StoredMessage(t, row))
  }

  /** What a history shows of a row: its fields, and the attachments that name its id with
      their two links. */
  lemma ItemFields(t: Tables, row: MessageRow)
    ensures var m, stored := Item(t, row), AttachmentsOf(t.attachments, row.id);
            && m.id == row.id && m.chatId == row.chatId && m.sender == row.sender && m.createdAt == row.addedAt
            && m.kind == (if row.kind == "" then "text" else row.kind)
            && m.content == (if row.kind == "file" || row.text.None? then "" else row.text.value)
            && |m.attachments| == |stored|
            && forall i :: 0 <= i < |stored| ==>
                 m.attachments[i] == stored[i].(contentUrl := "/files/" + stored[i].fileId + "/content",
                                                downloadUrl := "/files/" + stored[i].fileId + "/download")
  {
  }

  lemma HistoryElements(t: Tables, chat: int)
    requires WellFormed(t)
    ensures Ascending(ServerKey, RawHistory(t, chat))
    ensures Ascending(ServerKey, History(t, chat))
    ensures forall m :: m in History(t, chat) <==> exists r :: r in t.messages && r.chatId == chat && m == Item(t, r)
  {
    SortedRows(t, chat);
    var rows := SortBy(RowKey, RowsOf(t.messages, chat));
    forall m | m in History(t, chat)
      ensures exists r :: r in t.messages && r.chatId == chat && m == Item(t, r)
    {
      var i :| 0 <= i < |History(t, chat)| && History(t, chat)[i] == m;
      assert rows[i] in t.messages && m == Item(t, rows[i]);
    }
    forall r | r in t.messages && r.chatId == chat
      ensures Item(t, r) in History(t, chat)
    {
      var i :| 0 <= i < |rows| && rows[i] == r;
      assert History(t, chat)[i] == Item(t, r);
    }
  }

  /** The join behind UserHasAccessToFile. */
  ghost predicate UserHasAccessToFile(t: Tables, login: Login, file: FileId) {
    exists a, m :: a in t.attachments && m in t.messages && a.fileId == file && m.id == a.messageId &&
                   login in Members(t, m.chatId)
  }
}
