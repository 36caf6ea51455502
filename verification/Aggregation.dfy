/** The flat rows of the history query and the fold that turns them back into messages. */
module Aggregation {
  import opened Wrappers
  import opened Messages

  datatype HistoryRow = HistoryRow(messageId: int, chatId: int, sender: Login, kind: string, content: string,
                                   createdAt: int, fileId: Option<FileId>, filename: Option<string>,
                                   mime: Option<string>, size: Option<int>, attachmentKind: Option<string>)

  // ---- the left join -------------------------------------------------------

  function BareRow(m: Message): HistoryRow {
    HistoryRow(m.id, m.chatId, m.sender, m.kind, m.content, m.createdAt, None, None, None, None, None)
  }

  function AttachedRow(m: Message, a: Attachment): HistoryRow {
    BareRow(m).(fileId := Some(a.fileId), filename := Some(a.filename), mime := Some(a.mime), size := Some(a.size),
                attachmentKind := Some(a.kind))
  }

  /** One message left-joined with its attachments: a row each, or one row of nulls. */
  function JoinOne(m: Message): seq<HistoryRow> {
    if m.attachments == [] then [BareRow(m)]
    else seq(|m.attachments|, i requires 0 <= i < |m.attachments| => AttachedRow(m, m.attachments[i]))
  }

  function LeftJoin(messages: seq<Message>): seq<HistoryRow> {
    if messages == [] then []
    else LeftJoin(messages[..|messages| - 1]) + JoinOne(messages[|messages| - 1])
  }

  // ---- the aggregation -------------------------------------------------------

  function GetOr<T>(o: Option<T>, default: T): T {
    match o case Some(v) => v case None => default
  }

  function AttachmentOf(r: HistoryRow): Attachment
    requires r.fileId.Some?
  {
    Attachment(r.fileId.value, GetOr(r.filename, ""), GetOr(r.mime, ""), GetOr(r.size, 0),
               GetOr(r.attachmentKind, ""), "", "")
  }

  predicate ContainsAttachment(attachments: seq<Attachment>, file: FileId) {
    exists a <- attachments :: a.fileId == file
  }

  function Opened(row: HistoryRow): Message {
    Message(row.messageId, row.chatId, row.sender, row.kind, row.content, [], row.createdAt)
  }

  function Absorb(m: Message, row: HistoryRow): Message {
    if row.fileId.Some? && !ContainsAttachment(m.attachments, row.fileId.value)
    then m.(attachments := m.attachments + [AttachmentOf(row)]) else m
  }

  /** The index of the entry for a message id, or the length if there is none. */
  function Position(history: seq<Message>, id: int): (p: nat)
    ensures p <= |history|
    ensures p < |history| ==> history[p].id == id
    ensures forall k :: 0 <= k < p ==> history[k].id != id
  {
    if history == [] || history[0].id == id then 0 else 1 + Position(history[1..], id)
  }

  function Step(history: seq<Message>, row: HistoryRow): seq<Message> {
    var p := Position(history, row.messageId);
    if p < |history| then history[p := Absorb(history[p], row)] else history + [Absorb(Opened(row), row)]
  }

  function Aggregated(rows: seq<HistoryRow>): seq<Message> {
    if rows == [] then [] else Step(Aggregated(rows[..|rows| - 1]), rows[|rows| - 1])
  }

  lemma AggregatedAppend(rows: seq<HistoryRow>, row: HistoryRow)
    ensures Aggregated(rows + [row]) == Step(Aggregated(rows), row)
  {
  }

  /** The attachment half of the loop body: skip null rows and files already there. */
  method AddAttachment(m: Message, row: HistoryRow) returns (r: Message)
    ensures r == Absorb(m, row)
  {
    r := m;
    if row.fileId.Some? {
      var attachment := AttachmentOf(row);
      if !ContainsAttachment(r.attachments, attachment.fileId) {
        r := r.(attachments := r.attachments + [attachment]);
      }
    }
  }

  /** The map gives the index of each entry's message id. */
  ghost predicate Indexed(history: seq<Message>, byMessageId: map<int, nat>) {
    && (forall id :: id in byMessageId ==> byMessageId[id] < |history| && history[byMessageId[id]].id == id)
    && (forall k :: 0 <= k < |history| ==> history[k].id in byMessageId && byMessageId[history[k].id] == k)
  }

  /** The loop body: open an entry if the message is new, then add the row's attachment. */
  method AddRow(history: seq<Message>, byMessageId: map<int, nat>, row: HistoryRow)
    returns (history': seq<Message>, byMessageId': map<int, nat>)
    requires Indexed(history, byMessageId)
    ensures history' == Step(history, row) && Indexed(history', byMessageId')
  {
    ghost var p := Position(history, row.messageId);
    assert p == if row.messageId in byMessageId then byMessageId[row.messageId] else |history|;
    history', byMessageId' := history, byMessageId;
    if row.messageId !in byMessageId' {
      history' := history' + [Message(row.messageId, row.chatId, row.sender, row.kind, row.content, [], row.createdAt)];
      byMessageId' := byMessageId'[row.messageId := |history'| - 1];
    }
    var index := byMessageId'[row.messageId];
    var entry := AddAttachment(history'[index], row);
    history' := history'[index := entry];
  }

  /** The source's single pass: a slice of messages and a map from id to its index. */
  method AggregateHistoryRows(rows: seq<HistoryRow>) returns (history: seq<Message>)
    ensures history == Aggregated(rows)
  {
    history := [];
    var byMessageId: map<int, nat> := map[];
    for i := 0 to |rows|
      invariant history == Aggregated(rows[..i])
      invariant Indexed(history, byMessageId)
    {
      assert rows[..i + 1] == rows[..i] + [rows[i]];
      AggregatedAppend(rows[..i], rows[i]);
      history, byMessageId := AddRow(history, byMessageId, rows[i]);
    }
    assert rows[..|rows|] == rows;
  }

  // ---- what the aggregation means -------------------------------------------

  ghost predicate Increasing(ps: seq<nat>) {
    forall i, j :: 0 <= i < j < |ps| ==> ps[i] < ps[j]
  }

  /** Row `p` is the first one of its message. */
  ghost predicate OpensMessage(rows: seq<HistoryRow>, p: nat) {
    p < |rows| && forall q :: 0 <= q < p ==> rows[q].messageId != rows[p].messageId
  }

  ghost predicate Carries(r: HistoryRow, id: int, file: Option<FileId>) {
    r.messageId == id && r.fileId == file
  }

  /** Row `p` carries an attachment of message `id` that no earlier row of it carries. */
  ghost predicate OpensAttachment(rows: seq<HistoryRow>, id: int, p: nat) {
    && p < |rows| && rows[p].messageId == id && rows[p].fileId.Some?
    && forall q :: 0 <= q < p ==> !Carries(rows[q], id, rows[p].fileId)
  }

  /** The attachments of one message id: first row per file id, in row order. */
  function AttachmentsIn(rows: seq<HistoryRow>, id: int): seq<Attachment> {
    if rows == [] then []
    else
      var front, r := AttachmentsIn(rows[..|rows| - 1], id), rows[|rows| - 1];
      if r.messageId == id && r.fileId.Some? && !ContainsAttachment(front, r.fileId.value) then
        front + [AttachmentOf(r)]
      else front
  }

  lemma {:induction false} ContainsIff(rows: seq<HistoryRow>, id: int, file: FileId)
    ensures ContainsAttachment(AttachmentsIn(rows, id), file) <==>
            exists q :: 0 <= q < |rows| && Carries(rows[q], id, Some(file))
  {
    if rows != [] {
      var n := |rows| - 1;
      ContainsIff(rows[..n], id, file);
      assert forall q :: 0 <= q < n ==> rows[..n][q] == rows[q];
      var front := AttachmentsIn(rows[..n], id);
      if Carries(rows[n], id, Some(file)) && !ContainsAttachment(front, file) {
        assert AttachmentOf(rows[n]) in AttachmentsIn(rows, id);
      }
      assert forall a :: a in front ==> a in AttachmentsIn(rows, id);
    }
  }

  lemma LastOpens(rows: seq<HistoryRow>, id: int)
    requires rows != []
    ensures var r := rows[|rows| - 1];
            OpensAttachment(rows, id, |rows| - 1) <==>
            && r.messageId == id && r.fileId.Some?
            && !ContainsAttachment(AttachmentsIn(rows[..|rows| - 1], id), r.fileId.value)
  {
    var n := |rows| - 1;
    assert forall q :: 0 <= q < n ==> rows[..n][q] == rows[q];
    if rows[n].fileId.Some? { ContainsIff(rows[..n], id, rows[n].fileId.value); }
  }

  /** The attachments of an entry: one per file id, in order of first appearance. */
  lemma {:induction false} AttachmentAppearances(rows: seq<HistoryRow>, id: int) returns (ps: seq<nat>)
    ensures Increasing(ps) && |ps| == |AttachmentsIn(rows, id)|
    ensures forall p :: p in ps <==> OpensAttachment(rows, id, p)
    ensures forall k :: 0 <= k < |ps| ==>
      ps[k] < |rows| && rows[ps[k]].fileId.Some? && AttachmentsIn(rows, id)[k] == AttachmentOf(rows[ps[k]])
  {
    if rows == [] {
      ps := [];
    } else {
      var n := |rows| - 1;
      ps := AttachmentAppearances(rows[..n], id);
      forall p: nat | p < n ensures OpensAttachment(rows, id, p) <==> OpensAttachment(rows[..n], id, p) {}
      LastOpens(rows, id);
      if OpensAttachment(rows, id, n) { ps := ps + [n]; }
    }
  }

  /** Entry `m` is the message entered by row `p`, with that message's attachments. */
  ghost predicate EntryOf(rows: seq<HistoryRow>, p: nat, m: Message) {
    p < |rows| && m == Opened(rows[p]).(attachments := AttachmentsIn(rows, rows[p].messageId))
  }

  lemma EntryGrows(rows: seq<HistoryRow>, row: HistoryRow, p: nat, m: Message)
    requires EntryOf(rows, p, m)
    ensures EntryOf(rows + [row], p, if m.id == row.messageId then Absorb(m, row) else m)
  {
  }

  lemma EntryOpens(rows: seq<HistoryRow>, row: HistoryRow)
    requires OpensMessage(rows + [row], |rows|)
    ensures EntryOf(rows + [row], |rows|, Absorb(Opened(row), row))
  {
    assert (rows + [row])[..|rows|] == rows;
    assert forall q :: 0 <= q < |rows| ==> (rows + [row])[q] == rows[q];
    NoAttachmentsOf(rows, row.messageId);
  }

  lemma {:induction false} NoAttachmentsOf(rows: seq<HistoryRow>, id: int)
    requires forall q :: 0 <= q < |rows| ==> rows[q].messageId != id
    ensures AttachmentsIn(rows, id) == []
  {
    if rows != [] { NoAttachmentsOf(rows[..|rows| - 1], id); }
  }

  lemma {:induction false} Opener(rows: seq<HistoryRow>, q: nat) returns (p: nat)
    requires q < |rows|
    ensures p <= q && OpensMessage(rows, p) && rows[p].messageId == rows[q].messageId
  {
    if OpensMessage(rows, q) {
      p := q;
    } else {
      var q' :| 0 <= q' < q && rows[q'].messageId == rows[q].messageId;
      p := Opener(rows, q');
    }
  }

  /** For any rows, contiguous or not: one entry per message id, in order of first
      appearance, with the fields of the row that entered it and its attachments. */
  lemma {:induction false} FirstAppearances(rows: seq<HistoryRow>) returns (ps: seq<nat>)
    ensures Increasing(ps) && |ps| == |Aggregated(rows)|
    ensures forall p :: p in ps <==> OpensMessage(rows, p)
    ensures forall k :: 0 <= k < |ps| ==> EntryOf(rows, ps[k], Aggregated(rows)[k])
  {
    if rows == [] {
      ps := [];
    } else {
      var n := |rows| - 1;
      var front, row := rows[..n], rows[n];
      assert rows == front + [row];
      ps := FirstAppearances(front);
      forall p: nat | p < n ensures OpensMessage(rows, p) <==> OpensMessage(front, p) {}
      forall k | 0 <= k < |ps|
        ensures var m := Aggregated(front)[k]; EntryOf(rows, ps[k], if m.id == row.messageId then Absorb(m, row) else m)
      {
        EntryGrows(front, row, ps[k], Aggregated(front)[k]);
      }
      var at := Position(Aggregated(front), row.messageId);
      if at == |ps| {
        OpensLast(front, row, ps);
        EntryOpens(front, row);
        ps := ps + [n];
      } else {
        UniqueEntries(front, ps);
        assert rows[ps[at]].messageId == row.messageId;
      }
    }
  }

  lemma OpensLast(front: seq<HistoryRow>, row: HistoryRow, ps: seq<nat>)
    requires |ps| == |Aggregated(front)| && forall p :: p in ps <==> OpensMessage(front, p)
    requires forall k :: 0 <= k < |ps| ==> EntryOf(front, ps[k], Aggregated(front)[k])
    requires forall k :: 0 <= k < |ps| ==> Aggregated(front)[k].id != row.messageId
    ensures OpensMessage(front + [row], |front|)
  {
    forall q | 0 <= q < |front| ensures front[q].messageId != row.messageId {
      var p := Opener(front, q);
      var k :| 0 <= k < |ps| && ps[k] == p;
      assert EntryOf(front, ps[k], Aggregated(front)[k]);
    }
  }

  lemma UniqueEntries(rows: seq<HistoryRow>, ps: seq<nat>)
    requires Increasing(ps) && |ps| == |Aggregated(rows)| && forall p :: p in ps ==> OpensMessage(rows, p)
    requires forall k :: 0 <= k < |ps| ==> EntryOf(rows, ps[k], Aggregated(rows)[k])
    ensures forall i, j :: 0 <= i < j < |ps| ==> Aggregated(rows)[i].id != Aggregated(rows)[j].id
  {
    forall i, j | 0 <= i < j < |ps| ensures Aggregated(rows)[i].id != Aggregated(rows)[j].id {
      assert ps[j] in ps && ps[i] < ps[j];
      assert EntryOf(rows, ps[i], Aggregated(rows)[i]) && EntryOf(rows, ps[j], Aggregated(rows)[j]);
    }
  }

  // ---- aggregation inverts the join -----------------------------------------

  /** A message as the query can return it: no file twice, links not filled in yet. */
  ghost predicate Joinable(m: Message) {
    && (forall i, j :: 0 <= i < j < |m.attachments| ==> m.attachments[i].fileId != m.attachments[j].fileId)
    && (forall a :: a in m.attachments ==> a.contentUrl == "" && a.downloadUrl == "")
  }

  lemma AbsorbNext(m: Message, k: nat)
    requires Joinable(m) && k < |m.attachments|
    ensures Absorb(m.(attachments := m.attachments[..k]), JoinOne(m)[k]) == m.(attachments := m.attachments[..k + 1])
    ensures k == 0 ==> Opened(JoinOne(m)[0]) == m.(attachments := m.attachments[..0])
  {
  }

  lemma StepOpens(history: seq<Message>, row: HistoryRow)
    requires forall k :: 0 <= k < |history| ==> history[k].id != row.messageId
    ensures Step(history, row) == history + [Absorb(Opened(row), row)]
  {
  }

  lemma StepContinues(history: seq<Message>, last: Message, row: HistoryRow)
    requires last.id == row.messageId && forall k :: 0 <= k < |history| ==> history[k].id != row.messageId
    ensures Step(history + [last], row) == history + [Absorb(last, row)]
  {
    assert (history + [last])[|history|].id == row.messageId;
  }

  /** The first `k` rows of a joined message, after rows of other messages. */
  lemma {:induction false} AggregateBlock(rows: seq<HistoryRow>, history: seq<Message>, m: Message, k: nat)
    requires Joinable(m) && 1 <= k <= |m.attachments|
    requires history == Aggregated(rows) && forall i :: 0 <= i < |history| ==> history[i].id != m.id
    ensures Aggregated(rows + JoinOne(m)[..k]) == history + [m.(attachments := m.attachments[..k])]
  {
    var before, row := rows + JoinOne(m)[..k - 1], JoinOne(m)[k - 1];
    assert rows + JoinOne(m)[..k] == before + [row];
    AggregatedAppend(before, row);
    AbsorbNext(m, k - 1);
    if k == 1 {
      assert before == rows;
      StepOpens(history, row);
    } else {
      AggregateBlock(rows, history, m, k - 1);
      StepContinues(history, m.(attachments := m.attachments[..k - 1]), row);
    }
  }

  lemma WholeBlock(rows: seq<HistoryRow>, history: seq<Message>, m: Message)
    requires Joinable(m) && history == Aggregated(rows) && forall i :: 0 <= i < |history| ==> history[i].id != m.id
    ensures Aggregated(rows + JoinOne(m)) == history + [m]
  {
    if m.attachments == [] {
      AggregatedAppend(rows, BareRow(m));
      StepOpens(history, BareRow(m));
    } else {
      AggregateBlock(rows, history, m, |m.attachments|);
      assert JoinOne(m)[..|m.attachments|] == JoinOne(m);
      assert m.attachments[..|m.attachments|] == m.attachments;
    }
  }

  /** The round trip: joining messages with their attachments and folding the flat rows
      back gives the messages, for any number of attachments each. */
  lemma {:induction false} AggregateInvertsJoin(messages: seq<Message>)
    requires forall i :: 0 <= i < |messages| ==> Joinable(messages[i])
    requires forall i, j :: 0 <= i < j < |messages| ==> messages[i].id != messages[j].id
    ensures Aggregated(LeftJoin(messages)) == messages
  {
    if messages != [] {
      var n := |messages| - 1;
      var front, m := messages[..n], messages[n];
      assert messages == front + [m];
      assert Aggregated(LeftJoin(front)) == front by {
        forall i | 0 <= i < n ensures Joinable(front[i]) { assert Joinable(messages[i]); }
        AggregateInvertsJoin(front);
      }
      assert Joinable(m);
      WholeBlock(LeftJoin(front), front, m);
      assert LeftJoin(messages) == LeftJoin(front) + JoinOne(m);
    }
  }
}
