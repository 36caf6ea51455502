/** The message service's storage object and its history handler, proved against the
    table functions and the page contract. */
module MessageStorage {
  import opened Ordering
  import opened Wrappers
  import opened Messages
  import opened Tables
  import opened Saving
  import opened Aggregation
  import opened Paging

  // ---- the history query ------------------------------------------------------

  predicate RowBelow(r: MessageRow, before: Option<Key>) {
    before.None? || Less(RowKey(r), before.value)
  }

  function FilterBelow(rows: seq<MessageRow>, before: Option<Key>): seq<MessageRow> {
    if rows == [] then []
    else
      var front := FilterBelow(rows[..|rows| - 1], before);
      if RowBelow(rows[|rows| - 1], before) then front + [rows[|rows| - 1]] else front
  }

  /** The paged_messages subquery: filter, order by added_at desc, id desc, limit n. */
  function PagedRows(t: Tables, chat: int, before: Option<Key>, n: nat): seq<MessageRow> {
    var desc := Reverse(SortBy(RowKey, FilterBelow(RowsOf(t.messages, chat), before)));
    desc[..if |desc| < n then |desc| else n]
  }

  /** The page left-joined with its attachments; the limit applies before the join. */
  function HistoryQuery(t: Tables, chat: int, before: Option<Key>, n: nat): seq<HistoryRow> {
    LeftJoin(StoredMessages(t, PagedRows(t, chat, before, n)))
  }

  lemma {:induction false} FilterBelowElements(rows: seq<MessageRow>, before: Option<Key>)
    requires DistinctKeys(RowKey, rows)
    ensures forall r :: r in FilterBelow(rows, before) <==>
                        r in rows && RowBelow(r, before)
    ensures DistinctKeys(RowKey, FilterBelow(rows, before))
  {
    if rows != [] {
      var n := |rows| - 1;
      FilterBelowElements(rows[..n], before);
      assert rows == rows[..n] + [rows[n]];
      forall r | r in FilterBelow(rows[..n], before) ensures RowKey(r) != RowKey(rows[n]) {
        assert r in rows[..n];
      }
    }
  }

  /** Filtering before sorting keeps a prefix of the sorted rows. */
  lemma FilterIsPrefix(rows: seq<MessageRow>, before: Option<Key>, sorted: seq<MessageRow>, n: nat)
    requires DistinctKeys(RowKey, rows) && Ascending(RowKey, sorted) && forall r :: r in sorted <==> r in rows
    requires n <= |sorted| && forall i :: 0 <= i < |sorted| ==> (i < n <==> RowBelow(sorted[i], before))
    ensures SortBy(RowKey, FilterBelow(rows, before)) == sorted[..n]
  {
    var below := FilterBelow(rows, before);
    FilterBelowElements(rows, before);
    SortByElements(RowKey, below);
    SortByAscending(RowKey, below);
    forall r ensures r in SortBy(RowKey, below) <==> r in sorted[..n] {
      if r in below {
        var i :| 0 <= i < |sorted| && sorted[i] == r;
        assert RowBelow(sorted[i], before);
        assert sorted[..n][i] == r;
      }
      if r in sorted[..n] {
        var i :| 0 <= i < n && sorted[i] == r;
        assert RowBelow(sorted[i], before);
      }
    }
    AscendingUnique(RowKey, SortBy(RowKey, below), sorted[..n]);
  }

  lemma CountedRows(t: Tables, chat: int, before: Option<Key>)
    requires WellFormed(t)
    ensures var sorted, n := SortBy(RowKey, RowsOf(t.messages, chat)), CountBelow(RawHistory(t, chat), before);
            n <= |sorted| && forall i :: 0 <= i < |sorted| ==> (i < n <==> RowBelow(sorted[i], before))
  {
    var sorted := SortBy(RowKey, RowsOf(t.messages, chat));
    HistoryElements(t, chat);
    OlderIsBelow(RawHistory(t, chat), before);
    assert forall i :: 0 <= i < |sorted| ==> RawHistory(t, chat)[i] == StoredMessage(t, sorted[i]);
  }

  lemma SortedFilter(t: Tables, chat: int, before: Option<Key>)
    requires WellFormed(t)
    ensures SortBy(RowKey, FilterBelow(RowsOf(t.messages, chat), before)) ==
            SortBy(RowKey, RowsOf(t.messages, chat))[..CountBelow(RawHistory(t, chat), before)]
  {
    var rows := RowsOf(t.messages, chat);
    CountedRows(t, chat, before);
    SortedRows(t, chat);
    RowsOfDistinct(t.messages, chat);
    SortByElements(RowKey, rows);
    FilterIsPrefix(rows, before, SortBy(RowKey, rows), CountBelow(RawHistory(t, chat), before));
  }

  lemma TakeReversed(t: Tables, sorted: seq<MessageRow>, c: nat, n: nat)
    requires c <= |sorted|
    ensures var k := if c < n then c else n;
            && |Reverse(sorted[..c])| == c
            && StoredMessages(t, Reverse(sorted[..c])[..k]) == Reverse(StoredMessages(t, sorted)[..c][c - k..])
  {
  }

  /** The query returns the newest messages below the cursor, newest first. */
  lemma QueryIsWindow(t: Tables, chat: int, before: Option<Key>, n: nat)
    requires WellFormed(t)
    ensures var older := Older(RawHistory(t, chat), before);
            var k := if |older| < n then |older| else n;
            StoredMessages(t, PagedRows(t, chat, before, n)) == Reverse(older[|older| - k..])
  {
    SortedFilter(t, chat, before);
    TakeReversed(t, SortBy(RowKey, RowsOf(t.messages, chat)), CountBelow(RawHistory(t, chat), before), n);
  }

  lemma {:induction false} AttachmentsJoinable(rows: seq<AttachmentRow>, id: int)
    requires forall i, j :: 0 <= i < j < |rows| && rows[i].messageId == rows[j].messageId ==>
               rows[i].fileId != rows[j].fileId
    ensures var s := AttachmentsOf(rows, id);
            && (forall a :: a in s ==> a.contentUrl == "" && a.downloadUrl == "")
            && (forall a :: a in s ==> exists r :: r in rows && r.messageId == id && r.fileId == a.fileId)
            && (forall i, j :: 0 <= i < j < |s| ==> s[i].fileId != s[j].fileId)
  {
    if rows != [] {
      var n := |rows| - 1;
      AttachmentsJoinable(rows[..n], id);
      assert rows == rows[..n] + [rows[n]];
      assert forall r :: r in rows[..n] ==> r in rows;
      assert rows[n] in rows;
    }
  }

  /** Folding the query's rows gives the queried messages back. */
  lemma AggregatedQuery(t: Tables, chat: int, before: Option<Key>, n: nat)
    requires WellFormed(t)
    ensures Aggregated(HistoryQuery(t, chat, before, n)) == StoredMessages(t, PagedRows(t, chat, before, n))
  {
    var messages := StoredMessages(t, PagedRows(t, chat, before, n));
    QueriedDistinct(t, chat, before, n);
    forall i | 0 <= i < |messages| ensures Joinable(messages[i]) {
      assert messages[i] == StoredMessage(t, PagedRows(t, chat, before, n)[i]);
      StoredJoinable(t, PagedRows(t, chat, before, n)[i]);
    }
    AggregateInvertsJoin(messages);
  }

  lemma StoredJoinable(t: Tables, row: MessageRow)
    requires WellFormed(t)
    ensures Joinable(StoredMessage(t, row))
  {
    AttachmentsJoinable(t.attachments, row.id);
  }

  lemma QueriedDistinct(t: Tables, chat: int, before: Option<Key>, n: nat)
    requires WellFormed(t)
    ensures var messages := StoredMessages(t, PagedRows(t, chat, before, n));
            forall i, j :: 0 <= i < j < |messages| ==> messages[i].id != messages[j].id
  {
    QueryIsWindow(t, chat, before, n);
    SortedRowIds(t, chat);
    var older := Older(RawHistory(t, chat), before);
    var messages := StoredMessages(t, PagedRows(t, chat, before, n));
    assert forall i :: 0 <= i < |messages| ==> messages[i] == RawHistory(t, chat)[|older| - 1 - i];
  }

  lemma SortedRowIds(t: Tables, chat: int)
    requires WellFormed(t)
    ensures var h := RawHistory(t, chat);
            forall i, j :: 0 <= i < j < |h| ==> h[i].id != h[j].id
  {
    var sorted := SortBy(RowKey, RowsOf(t.messages, chat));
    SortedRows(t, chat);
    forall i, j | 0 <= i < j < |sorted| ensures sorted[i].id != sorted[j].id {
      assert sorted[i] in t.messages && sorted[j] in t.messages && sorted[i] != sorted[j];
    }
  }

  /** The two-index swap loop. */
  method ReverseHistory(history: array<Message>)
    modifies history
    ensures history[..] == Reverse(old(history[..]))
  {
    var left, right := 0, history.Length - 1;
    while left < right
      invariant 0 <= left <= history.Length && left + right == history.Length - 1
      invariant forall k :: 0 <= k < left ==>
        history[k] == old(history[history.Length - 1 - k]) && history[history.Length - 1 - k] == old(history[k])
      invariant forall k :: left <= k <= right ==> history[k] == old(history[k])
      invariant left <= right + 2
    {
      history[left], history[right] := history[right], history[left];
      left, right := left + 1, right - 1;
    }
    assert forall k :: 0 <= k < history.Length ==> history[k] == old(history[history.Length - 1 - k]);
  }

  /** The page slice is one array, reversed where it lies. */
  method Reversed(history: seq<Message>) returns (items: seq<Message>)
    ensures items == Reverse(history)
  {
    var slice := new Message[|history|](i requires 0 <= i < |history| => history[i]);
    assert slice[..] == history;
    ReverseHistory(slice);
    items := slice[..];
  }

  datatype StorageError = Unavailable | Rejected

  /** Which call of the CreateFileMessage transaction fails, if any. */
  datatype TxFaults = TxFaults(begin: bool, message: bool, attachment: Option<nat>, commit: bool)

  predicate NoFault(f: TxFaults, attachments: nat) {
    !f.begin && !f.message && !f.commit && (f.attachment.None? || f.attachment.value >= attachments)
  }

  lemma StorablePrefix(records: seq<FileRecord>, i: nat)
    requires i < |records|
    ensures Storable(records) ==> Storable(records[..i + 1])
    ensures Storable(records[..i + 1]) <==>
            && Storable(records[..i])
            && (records[i].kind == KIND_FILE || records[i].kind == KIND_IMAGE) && 0 <= records[i].size
            && forall k :: 0 <= k < i ==> records[k].fileId != records[i].fileId
  {
  }

  /** Within the transaction the next insert passes exactly when the records so far are storable. */
  lemma NextInsertable(t: Tables, base: seq<AttachmentRow>, id: int, records: seq<FileRecord>, i: nat)
    requires i < |records| && t.attachments == base + RowsFor(id, records[..i])
    requires (exists m :: m in t.messages && m.id == id) && forall a :: a in base ==> a.messageId != id
    requires Storable(records[..i])
    ensures InsertAttachment(t, RowFor(id, records[i])).Some? <==> Storable(records[..i + 1])
  {
    StorablePrefix(records, i);
    var done := RowsFor(id, records[..i]);
    forall k | 0 <= k < i ensures done[k] in t.attachments && done[k].fileId == records[k].fileId {
      assert t.attachments[|base| + k] == done[k];
    }
    forall b | b in t.attachments ensures b in base || exists k :: 0 <= k < i && b == done[k] {}
  }

  /** Cutting off the look-ahead row and reversing gives the page. */
  lemma PageFromQuery(t: Tables, chat: int, before: Option<Key>, l: nat, q: seq<Message>)
    requires WellFormed(t) && l > 0 && q == Aggregated(HistoryQuery(t, chat, before, l + 1))
    ensures var items := Reverse(if |q| > l then q[..l] else q);
            PageOf(RawHistory(t, chat), before, l) ==
            Page(items, if |q| > l then Some(ServerKey(items[0])) else None, |q| > l)
  {
    AggregatedQuery(t, chat, before, l + 1);
    QueryIsWindow(t, chat, before, l + 1);
    PageFromCut(RawHistory(t, chat), before, l, q);
  }

  lemma PageFromCut(history: seq<Message>, before: Option<Key>, l: nat, q: seq<Message>)
    requires l > 0
    requires var older := Older(history, before);
             q == Reverse(older[|older| - (if |older| < l + 1 then |older| else l + 1)..])
    ensures var items := Reverse(if |q| > l then q[..l] else q);
            PageOf(history, before, l) == Page(items, if |q| > l then Some(ServerKey(items[0])) else None, |q| > l)
  {
  }

  class Database {
    var maxMembers: map<int, int>
    var members: map<int, set<Login>>
    var messages: seq<MessageRow>
    var attachments: seq<AttachmentRow>

    function View(): Tables
      reads this
    {
      Tables(maxMembers, members, messages, attachments)
    }

    constructor ()
      ensures View() == Tables(map[], map[], [], []) && WellFormed(View())
    {
      maxMembers, members, messages, attachments := map[], map[], [], [];
    }

    /** One guarded insert; no row inserted means an error. */
    method AddUser(chat: int, login: Login) returns (ok: bool)
      requires WellFormed(View())
      modifies this`members
      ensures ok == AddUserToChat(old(View()), chat, login).Some?
      ensures View() == if ok then AddUserToChat(old(View()), chat, login).value else old(View())
      ensures WellFormed(View())
      // exactly when the chat exists, has a seat left and does not have the user; then it has
      ensures ok <==>
              && chat in maxMembers && !(chat in old(members) && login in old(members)[chat])
              && (if chat in old(members) then |old(members)[chat]| else 0) < maxMembers[chat]
      ensures ok ==>
                members == old(members)[chat := (if chat in old(members) then old(members)[chat] else {}) + {login}]
      ensures !ok ==> members == old(members)
    {
      JoinExactly(View(), chat, login);
      ok := chat in maxMembers && |Members(View(), chat)| < maxMembers[chat] && login !in Members(View(), chat);
      if ok {
        members := members[chat := Members(View(), chat) + {login}];
      }
    }

    /** A text message: one insert returning id and added_at. */
    method SaveMessage(chat: int, sender: Login, content: string, id: int, now: int, fault: bool)
      returns (r: Result<Message, StorageError>)
      requires WellFormed(View())
      modifies this`messages
      ensures r.Success? <==> !fault && Save(old(View()), TextDraft(chat, sender, content), id, now).Some?
      ensures r.Success? ==> View() == Save(old(View()), TextDraft(chat, sender, content), id, now).value
      ensures r.Success? ==> r.value == PayloadOf(TextDraft(chat, sender, content), id, now)
      ensures r.Failure? ==> View() == old(View())
      ensures WellFormed(View())
      // exactly without a fault, in an existing chat, under a new id in range; then one row is added
      ensures r.Success? <==>
              && !fault && chat in maxMembers && 0 < id <= 0x7FFF_FFFF
              && forall row :: row in old(messages) ==> row.id != id
      ensures r.Success? ==> messages == old(messages) + [MessageRow(id, chat, sender, "text", Some(content), now)]
      ensures r.Success? ==> r.value == Message(id, chat, sender, "text", content, [], now)
    {
      ghost var d := TextDraft(chat, sender, content);
      SaveExactly(View(), d, id, now);
      var inserted := InsertMessage(View(), MessageRow(id, chat, sender, KIND_TEXT, Some(content), now));
      if fault || inserted.None? {
        return Failure(if fault then Unavailable else Rejected);
      }
      messages := inserted.value.messages;
      assert View() == Save(old(View()), d, id, now).value by {
        assert attachments + RowsFor(id, []) == attachments;
      }
      SaveKeepsWellFormed(old(View()), d, id, now);
      r := Success(Message(id, chat, sender, KIND_TEXT, content, [], now));
    }

    /** The loop of single-row inserts; stops at the first error. */
    method CreateAttachmentsTx(id: int, records: seq<FileRecord>, fault: Option<nat>) returns (ok: bool)
      requires exists m :: m in messages && m.id == id
      requires forall a :: a in attachments ==> a.messageId != id
      modifies this`attachments
      ensures ok <==> (fault.None? || fault.value >= |records|) && Storable(records)
      ensures ok ==> attachments == old(attachments) + RowsFor(id, records)
      ensures ok <==> && (fault.None? || fault.value >= |records|)
                      && (forall r :: r in records ==> r.kind in {"file", "image"} && r.size >= 0)
                      && (forall i, j :: 0 <= i < j < |records| ==> records[i].fileId != records[j].fileId)
      ensures ok ==> && |attachments| == |old(attachments)| + |records|
                     && attachments[..|old(attachments)|] == old(attachments)
      ensures ok ==> forall i :: 0 <= i < |records| ==>
                       attachments[|old(attachments)| + i] ==
                       AttachmentRow(id, records[i].fileId, records[i].filename, records[i].mime, records[i].size,
                                     records[i].kind)
    {
      ok := InsertAttachments(id, records, fault);
    }

    method InsertAttachments(id: int, records: seq<FileRecord>, fault: Option<nat>) returns (ok: bool)
      requires exists m :: m in messages && m.id == id
      requires forall a :: a in attachments ==> a.messageId != id
      modifies this`attachments
      ensures ok <==> (fault.None? || fault.value >= |records|) && Storable(records)
      ensures ok ==> attachments == old(attachments) + RowsFor(id, records)
    {
      for i := 0 to |records|
        invariant fault.None? || fault.value >= i
        invariant Storable(records[..i])
        invariant attachments == old(attachments) + RowsFor(id, records[..i])
      {
        var inserted := InsertAttachment(View(), RowFor(id, records[i]));
        StorablePrefix(records, i);
        NextInsertable(View(), old(attachments), id, records, i);
        if fault == Some(i) || inserted.None? { return false; }
        assert RowsFor(id, records[..i + 1]) == RowsFor(id, records[..i]) + [RowFor(id, records[i])];
        attachments := inserted.value.attachments;
      }
      assert records[..|records|] == records;
      ok := true;
    }

    /** The message and its attachments in one transaction, rolled back on any error. */
    method CreateFileMessage(chat: int, sender: Login, records: seq<FileRecord>, id: int, now: int, faults: TxFaults)
      returns (r: Result<Message, StorageError>)
      requires WellFormed(View())
      modifies this`messages, this`attachments
      ensures r.Success? <==>
              NoFault(faults, |records|) && Save(old(View()), FileDraft(chat, sender, records), id, now).Some?
      ensures r.Success? ==> View() == Save(old(View()), FileDraft(chat, sender, records), id, now).value
      ensures r.Success? ==> r.value == PayloadOf(FileDraft(chat, sender, records), id, now)
      ensures r.Failure? ==> View() == old(View())
      ensures WellFormed(View())
      // exactly when no call fails and the tables admit the rows; then one row and those rows are added
      ensures r.Success? <==>
              && !faults.begin && !faults.message && !faults.commit
              && (faults.attachment.None? || faults.attachment.value >= |records|)
              && chat in maxMembers && 0 < id <= 0x7FFF_FFFF && (forall row :: row in old(messages) ==> row.id != id)
              && (forall x :: x in records ==> x.kind in {"file", "image"} && x.size >= 0)
              && (forall i, j :: 0 <= i < j < |records| ==> records[i].fileId != records[j].fileId)
      ensures r.Success? ==>
              && messages == old(messages) + [MessageRow(id, chat, sender, "file", None, now)]
              && |attachments| == |old(attachments)| + |records|
              && attachments[..|old(attachments)|] == old(attachments)
              && forall i :: 0 <= i < |records| ==>
                   attachments[|old(attachments)| + i] ==
                   AttachmentRow(id, records[i].fileId, records[i].filename, records[i].mime, records[i].size,
                                 records[i].kind)
    {
      r := RunTransaction(chat, sender, records, id, now, faults);
      ghost var d := FileDraft(chat, sender, records);
      SaveExactly(old(View()), d, id, now);
      if r.Success? { SaveStores(old(View()), d, id, now); }
    }

    method RunTransaction(chat: int, sender: Login, records: seq<FileRecord>, id: int, now: int, faults: TxFaults)
      returns (r: Result<Message, StorageError>)
      requires WellFormed(View())
      modifies this`messages, this`attachments
      ensures r.Success? <==>
              NoFault(faults, |records|) && Save(old(View()), FileDraft(chat, sender, records), id, now).Some?
      ensures r.Success? ==> View() == Save(old(View()), FileDraft(chat, sender, records), id, now).value
      ensures r.Success? ==> r.value == PayloadOf(FileDraft(chat, sender, records), id, now)
      ensures r.Failure? ==> View() == old(View())
      ensures WellFormed(View())
    {
      ghost var d := FileDraft(chat, sender, records);
      if faults.begin { return Failure(Unavailable); }
      var savedMessages, savedAttachments := messages, attachments;
      var inserted := InsertMessage(View(), MessageRow(id, chat, sender, KIND_FILE, None, now));
      if faults.message || inserted.None? { return Failure(Unavailable); }
      messages := inserted.value.messages;
      assert messages[|savedMessages|] in messages;
      var ok := InsertAttachments(id, records, faults.attachment);
      if !ok || faults.commit {
        messages, attachments := savedMessages, savedAttachments;
        return Failure(Unavailable);
      }
      var payload := Message(id, chat, sender, KIND_FILE, "", [], now);
      for i := 0 to |records|
        invariant payload == Message(id, chat, sender, KIND_FILE, "", RecordPayloads(records[..i]), now)
      {
        assert records[..i + 1] == records[..i] + [records[i]];
        payload := payload.(attachments := payload.attachments + [RecordPayload(records[i])]);
      }
      assert records[..|records|] == records;
      SaveKeepsWellFormed(old(View()), d, id, now);
      r := Success(payload);
    }

    /** One page: query with a one-row look-ahead, fold, cut, reverse in place. */
    method GetMessageHistory(chat: int, limit: int, before: Option<Key>) returns (page: Page)
      requires WellFormed(View())
      ensures page == PageOf(RawHistory(View(), chat), before, if limit <= 0 then DEFAULT_LIMIT else limit)
    {
      var l := if limit <= 0 then DEFAULT_LIMIT else limit;
      var t := View();
      var rows := HistoryQuery(t, chat, before, l + 1);
      var history := AggregateHistoryRows(rows);
      PageFromQuery(t, chat, before, l, history);
      var hasMore := |history| > l;
      if hasMore { history := history[..l]; }
      var items := Reversed(history);
      page := Page(items, None, hasMore);
      if hasMore && |items| > 0 {
        page := page.(nextCursor := Some(ServerKey(items[0])));
      }
    }
  }
}
