/** Storing a message, and the agreement between the payload pushed at save time
    and the item any later history page shows for it. */
module Saving {
  import opened Wrappers
  import opened Messages
  import opened Tables

  /** A message about to be stored. `id` and `now` come from the database. */
  datatype Draft = TextDraft(chat: int, sender: Login, content: string)
                 | FileDraft(chat: int, sender: Login, records: seq<FileRecord>)

  /** A file message is stored with a null text. */
  function RowOf(d: Draft, id: int, now: int): MessageRow {
    match d
    case TextDraft(chat, sender, content) => MessageRow(id, chat, sender, KIND_TEXT, Some(content), now)
    case FileDraft(chat, sender, records) => MessageRow(id, chat, sender, KIND_FILE, None, now)
  }

  function RecordsOf(d: Draft): seq<FileRecord> {
    if d.FileDraft? then d.records else []
  }

  function RecordPayload(r: FileRecord): Attachment {
    Attachment(r.fileId, r.filename, r.mime, r.size, ToLower(r.kind), "", "")
  }

  function RecordPayloads(records: seq<FileRecord>): seq<Attachment> {
    seq(|records|, i requires 0 <= i < |records| => RecordPayload(records[i]))
  }

  /** The payload built from the arguments, without reading the row back. */
  function PayloadOf(d: Draft, id: int, now: int): Message {
    match d
    case TextDraft(chat, sender, content) => Message(id, chat, sender, KIND_TEXT, content, [], now)
    case FileDraft(chat, sender, records) =>
      Message(id, chat, sender, KIND_FILE, "", RecordPayloads(records), now)
  }

  /** All-or-nothing: the message row and every attachment row, or no change. */
  function Save(t: Tables, d: Draft, id: int, now: int): Option<Tables> {
    match InsertMessage(t, RowOf(d, id, now))
    case None => None
    case Some(t1) =>
      if Storable(RecordsOf(d)) then Some(t1.(attachments := t.attachments + RowsFor(id, RecordsOf(d)))) else None
  }

  /** A message is stored exactly if its chat exists, its id is new and in range, and its
      attachments have distinct files, a known kind and a size. */
  lemma SaveExactly(t: Tables, d: Draft, id: int, now: int)
    ensures Save(t, d, id, now).Some? <==>
            && d.chat in t.maxMembers && 0 < id <= 0x7FFF_FFFF && (forall row :: row in t.messages ==> row.id != id)
            && (d.FileDraft? ==>
                  && (forall r :: r in d.records ==> r.kind in {"file", "image"} && r.size >= 0)
                  && (forall i, j :: 0 <= i < j < |d.records| ==> d.records[i].fileId != d.records[j].fileId))
  {
  }

  /** And then exactly one message row is added, and one attachment row per record, in order. */
  lemma SaveStores(t: Tables, d: Draft, id: int, now: int)
    requires Save(t, d, id, now).Some?
    ensures var t', n := Save(t, d, id, now).value, if d.FileDraft? then |d.records| else 0;
            && t'.maxMembers == t.maxMembers && t'.members == t.members
            && t'.messages == t.messages + [MessageRow(id, d.chat, d.sender, if d.TextDraft? then "text" else "file",
                                                       if d.TextDraft? then Some(d.content) else None, now)]
            && |t'.attachments| == |t.attachments| + n && t'.attachments[..|t.attachments|] == t.attachments
            && forall i :: 0 <= i < n ==>
                 var r := d.records[i];
                 t'.attachments[|t.attachments| + i] ==
                 AttachmentRow(id, r.fileId, r.filename, r.mime, r.size, r.kind)
  {
  }

  lemma {:induction false} AttachmentsOfAppend(a: seq<AttachmentRow>, b: seq<AttachmentRow>, id: int)
    ensures AttachmentsOf(a + b, id) == AttachmentsOf(a, id) + AttachmentsOf(b, id)
  {
    if b == [] {
      assert a + b == a;
    } else {
      assert (a + b)[..|a + b| - 1] == a + b[..|b| - 1];
      AttachmentsOfAppend(a, b[..|b| - 1], id);
    }
  }

  lemma {:induction false} AttachmentsOfOthers(b: seq<AttachmentRow>, id: int)
    requires forall a :: a in b ==> a.messageId != id
    ensures AttachmentsOf(b, id) == []
  {
    if b != [] { AttachmentsOfOthers(b[..|b| - 1], id); }
  }

  lemma {:induction false} AttachmentsOfRecords(id: int, records: seq<FileRecord>)
    requires forall r :: r in records ==> r.kind == KIND_FILE || r.kind == KIND_IMAGE
    ensures AttachmentsOf(RowsFor(id, records), id) == RecordPayloads(records)
  {
    if records != [] {
      var n := |records| - 1;
      assert RowsFor(id, records)[..n] == RowsFor(id, records[..n]);
      AttachmentsOfRecords(id, records[..n]);
      KindsAreLowerCase(records[n].kind);
    }
  }

  lemma SaveKeepsWellFormed(t: Tables, d: Draft, id: int, now: int)
    requires WellFormed(t) && Save(t, d, id, now).Some?
    ensures WellFormed(Save(t, d, id, now).value)
  {
  }

  lemma NoAttachmentsYet(t: Tables, id: int)
    requires WellFormed(t) && forall m :: m in t.messages ==> m.id != id
    ensures AttachmentsOf(t.attachments, id) == []
  {
    forall a | a in t.attachments ensures a.messageId != id {
      var row :| row in t.messages && row.id == a.messageId;
    }
    AttachmentsOfOthers(t.attachments, id);
  }

  lemma SavedAttachments(t: Tables, d: Draft, id: int, now: int)
    requires WellFormed(t) && Save(t, d, id, now).Some?
    ensures AttachmentsOf(Save(t, d, id, now).value.attachments, id) == RecordPayloads(RecordsOf(d))
  {
    AttachmentsOfAppend(t.attachments, RowsFor(id, RecordsOf(d)), id);
    NoAttachmentsYet(t, id);
    AttachmentsOfRecords(id, RecordsOf(d));
  }

  /** Live and stored views agree: the pushed payload is the stored item ... */
  lemma SavedItem(t: Tables, d: Draft, id: int, now: int)
    requires WellFormed(t) && Save(t, d, id, now).Some?
    ensures Item(Save(t, d, id, now).value, RowOf(d, id, now)) == Enrich(PayloadOf(d, id, now))
  {
    SavedAttachments(t, d, id, now);
    var stored := StoredMessage(Save(t, d, id, now).value, RowOf(d, id, now));
    assert stored.attachments == PayloadOf(d, id, now).attachments;
    assert stored == PayloadOf(d, id, now);
  }

  /** ... and no other message's item changes. */
  lemma OtherItems(t: Tables, d: Draft, id: int, now: int, row: MessageRow)
    requires WellFormed(t) && Save(t, d, id, now).Some? && row in t.messages
    ensures Item(Save(t, d, id, now).value, row) == Item(t, row)
  {
    var rows := RowsFor(id, RecordsOf(d));
    AttachmentsOfAppend(t.attachments, rows, row.id);
    AttachmentsOfOthers(rows, row.id);
  }

  /** A save adds exactly its own payload to its chat's history. */
  lemma SaveExtendsHistory(t: Tables, d: Draft, id: int, now: int, chat: int)
    requires WellFormed(t) && Save(t, d, id, now).Some?
    ensures var t' := Save(t, d, id, now).value;
            forall m :: m in History(t', chat) <==>
                        m in History(t, chat) || (chat == d.chat && m == Enrich(PayloadOf(d, id, now)))
  {
    var t' := Save(t, d, id, now).value;
    var row := RowOf(d, id, now);
    SaveKeepsWellFormed(t, d, id, now);
    HistoryElements(t, chat);
    HistoryElements(t', chat);
    SavedItem(t, d, id, now);
    forall r | r in t.messages ensures Item(t', r) == Item(t, r) && r in t'.messages {
      OtherItems(t, d, id, now, r);
    }
    assert row in t'.messages;
  }
}
