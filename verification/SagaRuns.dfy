/** Any number of file-message sends at once, over the file service machine and the
    message database. A send sees the file service only through answers that may be
    lost: it may take any call for failed at any time, while the service carries on. */
module SagaRuns {
  import opened Wrappers
  import opened Messages
  import opened Tables
  import opened Saving
  import Service = FileRuns

  const MAX_FILES_PER_MESSAGE: nat := 10

  datatype UploadedFile = UploadedFile(id: FileId, filename: string, mime: string, size: nat)

  datatype Phase = Uploading | Awaiting(file: FileId) | Compensating | AwaitingDelete(op: nat)
                 | Committed(message: int) | Aborted

  /** One compensation delete and what the send heard of it. */
  datatype Attempt = Attempt(op: nat, file: FileId, ok: bool)

  /** `abandoned` is the file whose upload the send took for failed. */
  datatype Saga = Saga(chat: int, sender: Login, files: seq<Bytes>, uploaded: seq<UploadedFile>, phase: Phase,
                       attempts: seq<Attempt>, abandoned: Option<FileId>)

  datatype State = State(files: Service.Files, tables: Tables, sagas: map<nat, Saga>)

  datatype Event =
    | NewChat(chat: int, max: nat)
    | AddUser(chat: int, user: Login)
    | StoreText(chat: int, sender: Login, content: string, id: int, now: int)
    | ServiceCall(call: Service.Event)
    | Begin(saga: nat, chat: int, sender: Login, files: seq<Bytes>)
    | Upload(saga: nat, file: FileId, key: ObjectKey, info: FileInfo)
    | UploadReturned(saga: nat)
    | UploadFailed(saga: nat)
    | Persist(saga: nat, id: int, now: int, ok: bool)
    | StartDelete(saga: nat, op: nat)
    | DeleteReturned(saga: nat, ok: bool)
    | End(saga: nat)

  const START := State(Service.NO_FILES, Tables(map[], map[], [], []), map[])

  function RecordFor(u: UploadedFile): FileRecord {
    FileRecord(u.id, u.filename, u.mime, u.size, DetectAttachmentKind(u.mime))
  }

  function Records(files: seq<UploadedFile>): seq<FileRecord> {
    seq(|files|, i requires 0 <= i < |files| => RecordFor(files[i]))
  }

  function DraftOf(g: Saga): Draft {
    FileDraft(g.chat, g.sender, Records(g.uploaded))
  }

  function With(s: State, saga: nat, g: Saga): State {
    s.(sagas := s.sagas[saga := g])
  }

  function TablesOr(t: Option<Tables>, default: Tables): Tables {
    match t case Some(t') => t' case None => default
  }

  /** The answer to a successful upload: what the service keeps of the file. */
  function AnswerOf(file: FileId, u: Service.Upload): UploadedFile {
    UploadedFile(file, u.info.filename, u.info.mime, |u.bytes|)
  }

  predicate Answered(u: Service.Upload) {
    u.pc.UploadEnded? && u.pc.ok
  }

  predicate Confirmed(d: Service.Delete) {
    d.pc.DeleteEnded? && d.pc.ok
  }

  /** Steps of one send; `g` is its current state. */
  function SagaStep(s: State, e: Event, n: nat, g: Saga): State {
    match e
    case Upload(_, file, key, info) =>
      if g.phase == Uploading && |g.uploaded| < |g.files| && file !in s.files.uploads && key.id == file then
        With(s.(files := Service.Next(s.files, Service.StartUpload(file, key, info, g.files[|g.uploaded|]))), n,
             g.(phase := Awaiting(file)))
      else s
    case UploadReturned(_) =>
      if g.phase.Awaiting? && g.phase.file in s.files.uploads &&
         Answered(s.files.uploads[g.phase.file]) then
        var u := AnswerOf(g.phase.file, s.files.uploads[g.phase.file]);
        With(s, n, g.(phase := Uploading, uploaded := g.uploaded + [u]))
      else s
    case UploadFailed(_) =>
      if g.phase.Awaiting? then With(s, n, g.(phase := Compensating, abandoned := Some(g.phase.file))) else s
    case Persist(_, id, now, ok) =>
      if g.phase == Uploading && |g.uploaded| == |g.files| then
        var t := Save(s.tables, DraftOf(g), id, now);
        if ok && t.Some? then With(s.(tables := t.value), n, g.(phase := Committed(id)))
        else With(s, n, g.(phase := Compensating))
      else s
    case StartDelete(_, op) =>
      if g.phase == Compensating && |g.attempts| < |g.uploaded| && op !in s.files.deletes then
        With(s.(files := Service.Next(s.files, Service.StartDelete(op, g.uploaded[|g.attempts|].id))), n,
             g.(phase := AwaitingDelete(op)))
      else s
    case DeleteReturned(_, ok) =>
      if && g.phase.AwaitingDelete? && |g.attempts| < |g.uploaded|
         && (ok ==> g.phase.op in s.files.deletes && Confirmed(s.files.deletes[g.phase.op])) then
        var attempt := Attempt(g.phase.op, g.uploaded[|g.attempts|].id, ok);
        With(s, n, g.(phase := Compensating, attempts := g.attempts + [attempt]))
      else s
    case End(_) =>
      if g.phase == Compensating && |g.attempts| == |g.uploaded| then With(s, n, g.(phase := Aborted)) else s
    case _ => s
  }

  function Next(s: State, e: Event): State {
    match e
    case NewChat(chat, max) => s.(tables := TablesOr(CreateChat(s.tables, chat, max), s.tables))
    case AddUser(chat, user) => s.(tables := TablesOr(AddUserToChat(s.tables, chat, user), s.tables))
    case StoreText(chat, sender, content, id, now) =>
      s.(tables := TablesOr(Save(s.tables, TextDraft(chat, sender, content), id, now), s.tables))
    case ServiceCall(call) =>
      if call.UploadCall? || call.DeleteCall? then s.(files := Service.Next(s.files, call)) else s
    case Begin(n, chat, sender, files) =>
      if n !in s.sagas && 0 < |files| <= MAX_FILES_PER_MESSAGE && chat in s.tables.maxMembers &&
         sender in Members(s.tables, chat) then
        With(s, n, Saga(chat, sender, files, [], Uploading, [], None))
      else s
    case _ => if e.saga in s.sagas then SagaStep(s, e, e.saga, s.sagas[e.saga]) else s
  }

  function Run(s: State, events: seq<Event>): State {
    if events == [] then s else Next(Run(s, events[..|events| - 1]), events[|events| - 1])
  }

  // ---- the invariant ---------------------------------------------------------

  predicate Failing(p: Phase) {
    p.Compensating? || p.AwaitingDelete? || p.Aborted?
  }

  ghost predicate Has(g: Saga, file: FileId) {
    exists i :: 0 <= i < |g.uploaded| && g.uploaded[i].id == file
  }

  /** The files a send has caused: the uploaded ones, the one under way, the abandoned one. */
  ghost predicate Owns(g: Saga, file: FileId) {
    Has(g, file) || g.phase == Awaiting(file) || g.abandoned == Some(file)
  }

  /** The delete is one this send asked for. */
  ghost predicate AskedBy(g: Saga, op: nat) {
    g.phase == AwaitingDelete(op) || exists i :: 0 <= i < |g.attempts| && g.attempts[i].op == op
  }

  /** Files returned by the service: complete, pairwise distinct, in input order. */
  ghost predicate UploadedOk(f: Service.Files, g: Saga) {
    && |g.uploaded| <= |g.files|
    && (forall i :: 0 <= i < |g.uploaded| ==>
          && g.uploaded[i].id in f.uploads && f.uploads[g.uploaded[i].id].pc == Service.UploadEnded(true, true, true)
          && f.uploads[g.uploaded[i].id].bytes == g.files[i]
          && g.uploaded[i] == AnswerOf(g.uploaded[i].id, f.uploads[g.uploaded[i].id]))
    && (forall i, j :: 0 <= i < j < |g.uploaded| ==> g.uploaded[i].id != g.uploaded[j].id)
  }

  /** The attempt is a delete of that file; if confirmed, it left no row. */
  ghost predicate AttemptOk(f: Service.Files, a: Attempt, file: FileId) {
    && a.file == file && a.op in f.deletes && f.deletes[a.op].file == file
    && (a.ok ==> file !in f.rows)
  }

  /** One delete attempt per uploaded file, in upload order. */
  ghost predicate AttemptsOk(f: Service.Files, g: Saga) {
    && |g.attempts| <= |g.uploaded|
    && (!Failing(g.phase) ==> g.attempts == [])
    && (g.phase.Aborted? ==> |g.attempts| == |g.uploaded|)
    && (forall i :: 0 <= i < |g.attempts| ==> AttemptOk(f, g.attempts[i], g.uploaded[i].id))
  }

  ghost predicate AbandonedOk(f: Service.Files, g: Saga) {
    g.abandoned.Some? ==> Failing(g.phase) && g.abandoned.value in f.uploads && !Has(g, g.abandoned.value)
  }

  ghost predicate PhaseOk(f: Service.Files, g: Saga) {
    match g.phase
    case Awaiting(file) =>
      file in f.uploads && !Has(g, file) && |g.uploaded| < |g.files| && f.uploads[file].bytes == g.files[|g.uploaded|]
    case AwaitingDelete(op) =>
      op in f.deletes && |g.attempts| < |g.uploaded| && f.deletes[op].file == g.uploaded[|g.attempts|].id
    case Committed(_) => |g.uploaded| == |g.files|
    case _ => true
  }

  /** The stored message of a committed send: its row and its attachments, in input order. */
  ghost predicate MessageOk(t: Tables, g: Saga, message: int) {
    && (exists row :: row in t.messages && row == MessageRow(message, g.chat, g.sender, KIND_FILE, None, row.addedAt))
    && AttachmentsOf(t.attachments, message) == RecordPayloads(Records(g.uploaded))
    && (forall i :: 0 <= i < |g.uploaded| ==> RowFor(message, RecordFor(g.uploaded[i])) in t.attachments)
  }

  ghost predicate SagaOk(f: Service.Files, t: Tables, g: Saga) {
    && g.chat in t.maxMembers && g.sender in Members(t, g.chat) && 0 < |g.files| <= 10
    && UploadedOk(f, g) && AttemptsOk(f, g) && PhaseOk(f, g) && AbandonedOk(f, g)
    && (g.phase.Committed? ==> MessageOk(t, g, g.phase.message))
  }

  ghost predicate SagasOk(f: Service.Files, t: Tables, sagas: map<nat, Saga>) {
    forall n :: n in sagas ==> SagaOk(f, t, sagas[n])
  }

  ghost predicate Disjoint(sagas: map<nat, Saga>) {
    forall a, b, file :: a in sagas && b in sagas && Owns(sagas[a], file) && Owns(sagas[b], file) ==> a == b
  }

  /** Every delete is of an uploaded file, and asked for by the send that owns it. */
  ghost predicate DeletesOk(f: Service.Files, sagas: map<nat, Saga>) {
    forall op :: op in f.deletes ==>
      f.deletes[op].file in f.uploads &&
      forall n :: n in sagas && Owns(sagas[n], f.deletes[op].file) ==> AskedBy(sagas[n], op)
  }

  ghost predicate SentBy(sagas: map<nat, Saga>, n: nat, a: AttachmentRow) {
    n in sagas && sagas[n].phase == Committed(a.messageId) && Has(sagas[n], a.fileId)
  }

  /** Every attachment was put there by a committed send of its file. */
  ghost predicate AttachmentsOk(t: Tables, sagas: map<nat, Saga>) {
    forall a :: a in t.attachments ==> exists n :: SentBy(sagas, n, a)
  }

  ghost predicate SentAs(sagas: map<nat, Saga>, n: nat, row: MessageRow) {
    n in sagas && sagas[n].phase == Committed(row.id) && sagas[n].chat == row.chatId && sagas[n].sender == row.sender
  }

  /** Every file message was put there by a committed send. */
  ghost predicate MessagesOk(t: Tables, sagas: map<nat, Saga>) {
    forall row :: row in t.messages && row.kind == KIND_FILE ==> exists n :: SentAs(sagas, n, row)
  }

  ghost predicate Inv(s: State) {
    && Service.Inv(s.files) && WellFormed(s.tables) && SagasOk(s.files, s.tables, s.sagas)
    && Disjoint(s.sagas) && DeletesOk(s.files, s.sagas)
    && AttachmentsOk(s.tables, s.sagas) && MessagesOk(s.tables, s.sagas)
  }

  // ---- growth keeps a send in order ---------------------------------------------

  ghost predicate TablesGrow(t: Tables, t': Tables) {
    && (forall chat :: chat in t.maxMembers ==> chat in t'.maxMembers)
    && (forall chat, login :: login in Members(t, chat) ==> login in Members(t', chat))
    && (forall row :: row in t.messages ==> row in t'.messages)
    && (forall a :: a in t.attachments ==> a in t'.attachments)
    && (forall row :: row in t.messages ==>
          AttachmentsOf(t'.attachments, row.id) == AttachmentsOf(t.attachments, row.id))
  }

  lemma SagaStays(f: Service.Files, f': Service.Files, t: Tables, t': Tables, g: Saga)
    requires SagaOk(f, t, g) && Service.Grows(f, f') && TablesGrow(t, t')
    ensures SagaOk(f', t', g)
  {
  }

  lemma SaveGrows(t: Tables, d: Draft, id: int, now: int)
    requires WellFormed(t) && Save(t, d, id, now).Some?
    ensures TablesGrow(t, Save(t, d, id, now).value)
  {
    var rows := RowsFor(id, RecordsOf(d));
    forall row | row in t.messages
      ensures AttachmentsOf(t.attachments + rows, row.id) == AttachmentsOf(t.attachments, row.id)
    {
      AttachmentsOfAppend(t.attachments, rows, row.id);
      AttachmentsOfOthers(rows, row.id);
    }
  }

  lemma Unchanged(t: Tables)
    ensures TablesGrow(t, t)
  {
  }

  lemma ServiceUnchanged(f: Service.Files)
    ensures Service.Grows(f, f)
  {
  }

  lemma SagasStay(f: Service.Files, f': Service.Files, t: Tables, t': Tables, sagas: map<nat, Saga>)
    requires SagasOk(f, t, sagas) && Service.Grows(f, f') && TablesGrow(t, t')
    ensures SagasOk(f', t', sagas)
  {
    forall n | n in sagas ensures SagaOk(f', t', sagas[n]) {
      SagaStays(f, f', t, t', sagas[n]);
    }
  }

  // ---- one send moves on ---------------------------------------------------------

  /** The new state `g` of send `n` owns only files of its old state or of nobody. */
  ghost predicate OwnsNothingNew(sagas: map<nat, Saga>, n: nat, g: Saga) {
    forall file, m :: Owns(g, file) && m in sagas && Owns(sagas[m], file) ==> m == n
  }

  lemma StaysDisjoint(sagas: map<nat, Saga>, n: nat, g: Saga)
    requires Disjoint(sagas) && OwnsNothingNew(sagas, n, g)
    ensures Disjoint(sagas[n := g])
  {
  }

  lemma AttachmentsStay(t: Tables, sagas: map<nat, Saga>, n: nat, g: Saga)
    requires AttachmentsOk(t, sagas) && (n in sagas ==> !sagas[n].phase.Committed?)
    ensures AttachmentsOk(t, sagas[n := g])
  {
    var later := sagas[n := g];
    forall a | a in t.attachments ensures exists m :: SentBy(later, m, a) {
      var m :| SentBy(sagas, m, a);
      assert SentBy(later, m, a);
    }
  }

  lemma MessagesStay(t: Tables, sagas: map<nat, Saga>, n: nat, g: Saga)
    requires MessagesOk(t, sagas) && (n in sagas ==> !sagas[n].phase.Committed?)
    ensures MessagesOk(t, sagas[n := g])
  {
    var later := sagas[n := g];
    forall row | row in t.messages && row.kind == KIND_FILE ensures exists m :: SentAs(later, m, row) {
      var m :| SentAs(sagas, m, row);
      assert SentAs(later, m, row);
    }
  }

  lemma SagasStayBut(f: Service.Files, f': Service.Files, t: Tables, sagas: map<nat, Saga>, n: nat, g: Saga)
    requires SagasOk(f, t, sagas) && Service.Grows(f, f') && SagaOk(f', t, g)
    ensures SagasOk(f', t, sagas[n := g])
  {
    Unchanged(t);
    SagasStay(f, f', t, t, sagas);
  }

  /** One send moves on while the file service may change. */
  lemma MoveSaga(s: State, f: Service.Files, n: nat, g: Saga)
    requires Inv(s) && Service.Inv(f) && Service.Grows(s.files, f) && SagaOk(f, s.tables, g)
    requires OwnsNothingNew(s.sagas, n, g) && DeletesOk(f, s.sagas[n := g])
    requires n in s.sagas ==> !s.sagas[n].phase.Committed?
    ensures Inv(With(s.(files := f), n, g))
  {
    SagasStayBut(s.files, f, s.tables, s.sagas, n, g);
    StaysDisjoint(s.sagas, n, g);
    AttachmentsStay(s.tables, s.sagas, n, g);
    MessagesStay(s.tables, s.sagas, n, g);
  }

  /** The new state owns no other file and still answers for its deletes. */
  ghost predicate Continues(g: Saga, g': Saga) {
    && (forall file :: Owns(g', file) ==> Owns(g, file))
    && (forall op :: AskedBy(g, op) ==> AskedBy(g', op))
  }

  lemma DeletesStay(f: Service.Files, sagas: map<nat, Saga>, n: nat, g: Saga)
    requires DeletesOk(f, sagas) && n in sagas && Continues(sagas[n], g)
    ensures DeletesOk(f, sagas[n := g])
  {
  }

  /** One send moves on by itself. */
  lemma ContinueSaga(s: State, n: nat, g: Saga)
    requires Inv(s) && SagaOk(s.files, s.tables, g)
    requires n in s.sagas && !s.sagas[n].phase.Committed? && Continues(s.sagas[n], g)
    ensures Inv(With(s, n, g))
  {
    ServiceUnchanged(s.files);
    DeletesStay(s.files, s.sagas, n, g);
    MoveSaga(s, s.files, n, g);
    assert s.(files := s.files) == s;
  }

  // ---- the steps -------------------------------------------------------------

  lemma TablesStep(s: State, t: Tables)
    requires Inv(s) && WellFormed(t) && TablesGrow(s.tables, t) && t.attachments == s.tables.attachments
    requires MessagesOk(t, s.sagas)
    ensures Inv(s.(tables := t))
  {
    ServiceUnchanged(s.files);
    SagasStay(s.files, s.files, s.tables, t, s.sagas);
  }

  lemma StoreTextStep(s: State, d: Draft, id: int, now: int)
    requires Inv(s) && d.TextDraft? && Save(s.tables, d, id, now).Some?
    ensures Inv(s.(tables := Save(s.tables, d, id, now).value))
  {
    SaveKeepsWellFormed(s.tables, d, id, now);
    SaveGrows(s.tables, d, id, now);
    assert Save(s.tables, d, id, now).value.attachments == s.tables.attachments;
    TablesStep(s, Save(s.tables, d, id, now).value);
  }

  lemma ServiceStep(s: State, call: Service.Event)
    requires Inv(s) && (call.UploadCall? || call.DeleteCall?)
    ensures Inv(s.(files := Service.Next(s.files, call)))
  {
    Service.NextKeepsInv(s.files, call);
    Service.NextGrows(s.files, call);
    Service.CallTargets(s.files, call);
    Unchanged(s.tables);
    SagasStay(s.files, Service.Next(s.files, call), s.tables, s.tables, s.sagas);
  }

  lemma BeginStep(s: State, n: nat, chat: int, sender: Login, files: seq<Bytes>)
    requires Inv(s) && n !in s.sagas && chat in s.tables.maxMembers && sender in Members(s.tables, chat)
    requires 0 < |files| <= 10
    ensures Inv(With(s, n, Saga(chat, sender, files, [], Uploading, [], None)))
  {
    var g := Saga(chat, sender, files, [], Uploading, [], None);
    assert forall file :: !Owns(g, file);
    ServiceUnchanged(s.files);
    assert DeletesOk(s.files, s.sagas[n := g]);
    MoveSaga(s, s.files, n, g);
    assert s.(files := s.files) == s;
  }

  lemma UnknownFile(s: State, file: FileId)
    requires Inv(s) && file !in s.files.uploads
    ensures forall m :: m in s.sagas ==> !Owns(s.sagas[m], file)
    ensures forall op :: op in s.files.deletes ==> s.files.deletes[op].file != file
  {
  }

  lemma AwaitingOk(f: Service.Files, t: Tables, g: Saga, file: FileId)
    requires SagaOk(f, t, g) && g.phase == Uploading && |g.uploaded| < |g.files| && !Has(g, file)
    requires file in f.uploads && f.uploads[file].bytes == g.files[|g.uploaded|]
    ensures SagaOk(f, t, g.(phase := Awaiting(file)))
    ensures forall x :: Owns(g.(phase := Awaiting(file)), x) <==> Owns(g, x) || x == file
    ensures forall op :: AskedBy(g.(phase := Awaiting(file)), op) <==> AskedBy(g, op)
  {
  }

  lemma UploadStep(s: State, n: nat, file: FileId, key: ObjectKey, info: FileInfo)
    requires Inv(s) && n in s.sagas && s.sagas[n].phase == Uploading && |s.sagas[n].uploaded| < |s.sagas[n].files|
    requires file !in s.files.uploads && key.id == file
    ensures var g := s.sagas[n];
            var e := Service.StartUpload(file, key, info, g.files[|g.uploaded|]);
            Inv(With(s.(files := Service.Next(s.files, e)), n, g.(phase := Awaiting(file))))
  {
    var g := s.sagas[n];
    var e := Service.StartUpload(file, key, info, g.files[|g.uploaded|]);
    var f := Service.Next(s.files, e);
    Service.NextKeepsInv(s.files, e);
    Service.NextGrows(s.files, e);
    UnknownFile(s, file);
    Unchanged(s.tables);
    SagaStays(s.files, f, s.tables, s.tables, g);
    AwaitingOk(f, s.tables, g, file);
    StartedUpload(s.files, e, s.sagas, n, g.(phase := Awaiting(file)));
    MoveSaga(s, f, n, g.(phase := Awaiting(file)));
  }

  lemma StartedUpload(f: Service.Files, e: Service.Event, sagas: map<nat, Saga>, n: nat, g: Saga)
    requires e.StartUpload? && DeletesOk(f, sagas) && n in sagas
    requires forall op :: op in f.deletes ==> f.deletes[op].file != e.id
    requires forall file :: Owns(g, file) ==> Owns(sagas[n], file) || file == e.id
    requires forall op :: AskedBy(sagas[n], op) ==> AskedBy(g, op)
    ensures DeletesOk(Service.Next(f, e), sagas[n := g])
  {
  }

  lemma ReturnedOk(f: Service.Files, t: Tables, g: Saga, u: UploadedFile)
    requires SagaOk(f, t, g) && g.phase == Awaiting(u.id)
    requires f.uploads[u.id].pc == Service.UploadEnded(true, true, true) && u == AnswerOf(u.id, f.uploads[u.id])
    ensures SagaOk(f, t, g.(phase := Uploading, uploaded := g.uploaded + [u]))
    ensures Continues(g, g.(phase := Uploading, uploaded := g.uploaded + [u]))
  {
  }

  lemma ReturnStep(s: State, n: nat)
    requires Inv(s) && n in s.sagas && s.sagas[n].phase.Awaiting? && s.sagas[n].phase.file in s.files.uploads
    requires Answered(s.files.uploads[s.sagas[n].phase.file])
    ensures var g := s.sagas[n];
            var u := AnswerOf(g.phase.file, s.files.uploads[g.phase.file]);
            Inv(With(s, n, g.(phase := Uploading, uploaded := g.uploaded + [u])))
  {
    var g := s.sagas[n];
    var file := g.phase.file;
    var u := AnswerOf(file, s.files.uploads[file]);
    assert Service.UploadOk(s.files, file, s.files.uploads[file]);
    ReturnedOk(s.files, s.tables, g, u);
    ContinueSaga(s, n, g.(phase := Uploading, uploaded := g.uploaded + [u]));
  }

  /** A phase change alone changes no ownership beyond the awaited file. */
  lemma RephaseStep(s: State, n: nat, phase: Phase, abandoned: Option<FileId>)
    requires Inv(s) && n in s.sagas && !s.sagas[n].phase.Committed? && !s.sagas[n].phase.AwaitingDelete?
    requires phase == Compensating || phase == Aborted
    requires SagaOk(s.files, s.tables, s.sagas[n].(phase := phase, abandoned := abandoned))
    requires abandoned == s.sagas[n].abandoned || (abandoned.Some? && s.sagas[n].phase == Awaiting(abandoned.value))
    ensures Inv(With(s, n, s.sagas[n].(phase := phase, abandoned := abandoned)))
  {
    var g, g' := s.sagas[n], s.sagas[n].(phase := phase, abandoned := abandoned);
    assert forall file :: Has(g', file) <==> Has(g, file);
    ContinueSaga(s, n, g');
  }

  lemma AbandonStep(s: State, n: nat)
    requires Inv(s) && n in s.sagas && s.sagas[n].phase.Awaiting?
    ensures Inv(With(s, n, s.sagas[n].(phase := Compensating, abandoned := Some(s.sagas[n].phase.file))))
  {
    var g := s.sagas[n];
    var g' := g.(phase := Compensating, abandoned := Some(g.phase.file));
    assert SagaOk(s.files, s.tables, g);
    assert Has(g', g.phase.file) <==> Has(g, g.phase.file);
    RephaseStep(s, n, Compensating, Some(g.phase.file));
  }

  lemma GiveUpStep(s: State, n: nat)
    requires Inv(s) && n in s.sagas && s.sagas[n].phase.Uploading?
    ensures Inv(With(s, n, s.sagas[n].(phase := Compensating)))
  {
    assert SagaOk(s.files, s.tables, s.sagas[n]);
    RephaseStep(s, n, Compensating, s.sagas[n].abandoned);
  }

  lemma SavedMessage(t: Tables, g: Saga, id: int, now: int)
    requires WellFormed(t) && Save(t, DraftOf(g), id, now).Some?
    ensures MessageOk(Save(t, DraftOf(g), id, now).value, g.(phase := Committed(id)), id)
  {
    var t' := Save(t, DraftOf(g), id, now).value;
    SavedAttachments(t, DraftOf(g), id, now);
    assert RowOf(DraftOf(g), id, now) in t'.messages;
    forall i | 0 <= i < |g.uploaded| ensures RowFor(id, RecordFor(g.uploaded[i])) in t'.attachments {
      assert t'.attachments[|t.attachments| + i] == RowFor(id, RecordFor(g.uploaded[i]));
    }
  }

  lemma SentRow(sagas: map<nat, Saga>, n: nat, g: Saga, id: int, i: nat)
    requires i < |g.uploaded|
    ensures SentBy(sagas[n := g.(phase := Committed(id))], n, RowFor(id, RecordFor(g.uploaded[i])))
  {
  }

  lemma CommittedAttachments(t: Tables, t': Tables, sagas: map<nat, Saga>, n: nat, g: Saga, id: int)
    requires AttachmentsOk(t, sagas) && n in sagas && !sagas[n].phase.Committed?
    requires t'.attachments == t.attachments + RowsFor(id, Records(g.uploaded))
    ensures AttachmentsOk(t', sagas[n := g.(phase := Committed(id))])
  {
    var later := sagas[n := g.(phase := Committed(id))];
    AttachmentsStay(t, sagas, n, g.(phase := Committed(id)));
    forall k | 0 <= k < |t'.attachments| ensures exists m :: SentBy(later, m, t'.attachments[k]) {
      if k < |t.attachments| {
        assert t'.attachments[k] in t.attachments;
      } else {
        SentRow(sagas, n, g, id, k - |t.attachments|);
        assert SentBy(later, n, t'.attachments[k]);
      }
    }
  }

  lemma CommittedMessages(t: Tables, sagas: map<nat, Saga>, n: nat, g: Saga, id: int, now: int)
    requires MessagesOk(t, sagas) && n in sagas && !sagas[n].phase.Committed?
    requires Save(t, DraftOf(g), id, now).Some?
    ensures MessagesOk(Save(t, DraftOf(g), id, now).value, sagas[n := g.(phase := Committed(id))])
  {
    var later := sagas[n := g.(phase := Committed(id))];
    MessagesStay(t, sagas, n, g.(phase := Committed(id)));
    assert SentAs(later, n, RowOf(DraftOf(g), id, now));
  }

  lemma CommittedOk(f: Service.Files, t: Tables, g: Saga, id: int)
    requires SagaOk(f, t, g) && g.phase == Uploading && |g.uploaded| == |g.files|
    requires MessageOk(t, g.(phase := Committed(id)), id)
    ensures SagaOk(f, t, g.(phase := Committed(id)))
    ensures Continues(g, g.(phase := Committed(id)))
  {
  }

  lemma CommittedSaga(f: Service.Files, t: Tables, sagas: map<nat, Saga>, n: nat, id: int, now: int)
    requires WellFormed(t) && SagasOk(f, t, sagas)
    requires n in sagas && sagas[n].phase == Uploading && |sagas[n].uploaded| == |sagas[n].files|
    requires Save(t, DraftOf(sagas[n]), id, now).Some?
    ensures var g' := sagas[n].(phase := Committed(id));
            SagasOk(f, Save(t, DraftOf(sagas[n]), id, now).value, sagas[n := g']) && Continues(sagas[n], g')
  {
    var g := sagas[n];
    var t' := Save(t, DraftOf(g), id, now).value;
    SaveGrows(t, DraftOf(g), id, now);
    ServiceUnchanged(f);
    SagasStay(f, f, t, t', sagas);
    SavedMessage(t, g, id, now);
    CommittedOk(f, t', g, id);
  }

  lemma CommitStep(s: State, n: nat, id: int, now: int)
    requires Inv(s) && n in s.sagas && s.sagas[n].phase == Uploading && |s.sagas[n].uploaded| == |s.sagas[n].files|
    requires Save(s.tables, DraftOf(s.sagas[n]), id, now).Some?
    ensures Inv(With(s.(tables := Save(s.tables, DraftOf(s.sagas[n]), id, now).value), n,
                     s.sagas[n].(phase := Committed(id))))
  {
    var g := s.sagas[n];
    var g' := g.(phase := Committed(id));
    SaveKeepsWellFormed(s.tables, DraftOf(g), id, now);
    CommittedSaga(s.files, s.tables, s.sagas, n, id, now);
    StaysDisjoint(s.sagas, n, g');
    DeletesStay(s.files, s.sagas, n, g');
    CommittedAttachments(s.tables, Save(s.tables, DraftOf(g), id, now).value, s.sagas, n, g, id);
    CommittedMessages(s.tables, s.sagas, n, g, id, now);
  }

  lemma DeletingOk(f: Service.Files, t: Tables, g: Saga, op: nat)
    requires SagaOk(f, t, g) && g.phase == Compensating && |g.attempts| < |g.uploaded|
    requires op in f.deletes && f.deletes[op].file == g.uploaded[|g.attempts|].id
    ensures SagaOk(f, t, g.(phase := AwaitingDelete(op))) && Continues(g, g.(phase := AwaitingDelete(op)))
    ensures Owns(g, f.deletes[op].file)
  {
  }

  lemma StartedDelete(f: Service.Files, e: Service.Event, sagas: map<nat, Saga>, n: nat, g: Saga)
    requires e.StartDelete? && e.op !in f.deletes && e.file in f.uploads && DeletesOk(f, sagas) && Disjoint(sagas)
    requires n in sagas && Continues(sagas[n], g) && Owns(sagas[n], e.file) && AskedBy(g, e.op)
    ensures DeletesOk(Service.Next(f, e), sagas[n := g])
  {
  }

  lemma StartDeleteStep(s: State, n: nat, op: nat)
    requires Inv(s) && n in s.sagas && s.sagas[n].phase == Compensating && op !in s.files.deletes
    requires |s.sagas[n].attempts| < |s.sagas[n].uploaded|
    ensures var g := s.sagas[n];
            var e := Service.StartDelete(op, g.uploaded[|g.attempts|].id);
            Inv(With(s.(files := Service.Next(s.files, e)), n, g.(phase := AwaitingDelete(op))))
  {
    var g := s.sagas[n];
    var e := Service.StartDelete(op, g.uploaded[|g.attempts|].id);
    ServiceGoesOn(s.files, e);
    StartingOk(s.files, s.tables, s.sagas, n, op);
    MoveSaga(s, Service.Next(s.files, e), n, g.(phase := AwaitingDelete(op)));
  }

  lemma ServiceGoesOn(f: Service.Files, e: Service.Event)
    requires Service.Inv(f)
    ensures Service.Inv(Service.Next(f, e)) && Service.Grows(f, Service.Next(f, e))
  {
    Service.NextKeepsInv(f, e);
    Service.NextGrows(f, e);
  }

  lemma StartingOk(f: Service.Files, t: Tables, sagas: map<nat, Saga>, n: nat, op: nat)
    requires Service.Inv(f) && DeletesOk(f, sagas) && Disjoint(sagas)
    requires n in sagas && SagaOk(f, t, sagas[n]) && sagas[n].phase == Compensating && op !in f.deletes
    requires |sagas[n].attempts| < |sagas[n].uploaded|
    ensures var g := sagas[n];
            var f' := Service.Next(f, Service.StartDelete(op, g.uploaded[|g.attempts|].id));
            var g' := g.(phase := AwaitingDelete(op));
            SagaOk(f', t, g') && DeletesOk(f', sagas[n := g']) && OwnsNothingNew(sagas, n, g')
  {
    var g := sagas[n];
    var e := Service.StartDelete(op, g.uploaded[|g.attempts|].id);
    ServiceGoesOn(f, e);
    Unchanged(t);
    SagaStays(f, Service.Next(f, e), t, t, g);
    DeletingOk(Service.Next(f, e), t, g, op);
    StartedDelete(f, e, sagas, n, g.(phase := AwaitingDelete(op)));
  }

  lemma DeletedOk(f: Service.Files, t: Tables, g: Saga, op: nat, ok: bool)
    requires SagaOk(f, t, g) && g.phase == AwaitingDelete(op)
    requires ok ==> g.uploaded[|g.attempts|].id !in f.rows
    ensures var g' := g.(phase := Compensating,
                         attempts := g.attempts + [Attempt(op, g.uploaded[|g.attempts|].id, ok)]);
            SagaOk(f, t, g') && Continues(g, g')
  {
  }

  lemma DeleteReturnedStep(s: State, n: nat, ok: bool)
    requires Inv(s) && n in s.sagas && s.sagas[n].phase.AwaitingDelete? && |s.sagas[n].attempts| < |s.sagas[n].uploaded|
    requires ok ==> s.sagas[n].phase.op in s.files.deletes && Confirmed(s.files.deletes[s.sagas[n].phase.op])
    ensures var g := s.sagas[n];
            var attempt := Attempt(g.phase.op, g.uploaded[|g.attempts|].id, ok);
            Inv(With(s, n, g.(phase := Compensating, attempts := g.attempts + [attempt])))
  {
    var g := s.sagas[n];
    var op := g.phase.op;
    assert SagaOk(s.files, s.tables, g);
    if ok { assert Service.DeleteOk(s.files, s.files.deletes[op]); }
    DeletedOk(s.files, s.tables, g, op, ok);
    var attempt := Attempt(op, g.uploaded[|g.attempts|].id, ok);
    ContinueSaga(s, n, g.(phase := Compensating, attempts := g.attempts + [attempt]));
  }

  lemma EndStep(s: State, n: nat)
    requires Inv(s) && n in s.sagas && s.sagas[n].phase == Compensating
    requires |s.sagas[n].attempts| == |s.sagas[n].uploaded|
    ensures Inv(With(s, n, s.sagas[n].(phase := Aborted)))
  {
    assert SagaOk(s.files, s.tables, s.sagas[n]);
    RephaseStep(s, n, Aborted, s.sagas[n].abandoned);
  }

  lemma SendingKeepsInv(s: State, e: Event, n: nat)
    requires Inv(s) && n in s.sagas && (e.Upload? || e.UploadReturned? || e.UploadFailed? || e.Persist?)
    ensures Inv(SagaStep(s, e, n, s.sagas[n]))
  {
    var g := s.sagas[n];
    if SagaStep(s, e, n, g) != s {
      match e {
        case Upload(_, file, key, info) => UploadStep(s, n, file, key, info);
        case UploadReturned(_) => ReturnStep(s, n);
        case UploadFailed(_) => AbandonStep(s, n);
        case Persist(_, id, now, ok) =>
          if ok && Save(s.tables, DraftOf(g), id, now).Some? { CommitStep(s, n, id, now); } else { GiveUpStep(s, n); }
      }
    }
  }

  lemma CompensatingKeepsInv(s: State, e: Event, n: nat)
    requires Inv(s) && n in s.sagas && (e.StartDelete? || e.DeleteReturned? || e.End?)
    ensures Inv(SagaStep(s, e, n, s.sagas[n]))
  {
    var g := s.sagas[n];
    if SagaStep(s, e, n, g) != s {
      match e {
        case StartDelete(_, op) => StartDeleteStep(s, n, op);
        case DeleteReturned(_, ok) => DeleteReturnedStep(s, n, ok);
        case End(_) => EndStep(s, n);
      }
    }
  }

  lemma DatabaseStep(s: State, e: Event)
    requires Inv(s) && (e.NewChat? || e.AddUser? || e.StoreText?)
    ensures Inv(Next(s, e))
  {
    match e {
      case NewChat(chat, max) =>
        if CreateChat(s.tables, chat, max).Some? {
          CreateChatKeepsWellFormed(s.tables, chat, max);
          TablesStep(s, CreateChat(s.tables, chat, max).value);
        }
      case AddUser(chat, user) =>
        if AddUserToChat(s.tables, chat, user).Some? {
          AddUserKeepsWellFormed(s.tables, chat, user);
          TablesStep(s, AddUserToChat(s.tables, chat, user).value);
        }
      case StoreText(chat, sender, content, id, now) =>
        var d := TextDraft(chat, sender, content);
        if Save(s.tables, d, id, now).Some? { StoreTextStep(s, d, id, now); }
    }
  }

  lemma NextKeepsInv(s: State, e: Event)
    requires Inv(s)
    ensures Inv(Next(s, e))
  {
    match e
    case NewChat(_, _) => DatabaseStep(s, e);
    case AddUser(_, _) => DatabaseStep(s, e);
    case StoreText(_, _, _, _, _) => DatabaseStep(s, e);
    case ServiceCall(call) => if call.UploadCall? || call.DeleteCall? { ServiceStep(s, call); }
    case Begin(n, chat, sender, files) => if Next(s, e) != s { BeginStep(s, n, chat, sender, files); }
    case StartDelete(n, _) => if n in s.sagas { CompensatingKeepsInv(s, e, n); }
    case DeleteReturned(n, _) => if n in s.sagas { CompensatingKeepsInv(s, e, n); }
    case End(n) => if n in s.sagas { CompensatingKeepsInv(s, e, n); }
    case _ => if e.saga in s.sagas { SendingKeepsInv(s, e, e.saga); }
  }

  /** Every run, from any state in order, stays in order. */
  lemma {:induction false} RunKeepsInv(s: State, events: seq<Event>)
    requires Inv(s)
    ensures Inv(Run(s, events))
  {
    if events != [] {
      RunKeepsInv(s, events[..|events| - 1]);
      NextKeepsInv(Run(s, events[..|events| - 1]), events[|events| - 1]);
    }
  }

  // ---- what every run keeps ----------------------------------------------------

  lemma CommittedFileKept(f: Service.Files, t: Tables, sagas: map<nat, Saga>, n: nat, i: nat)
    requires Service.Inv(f) && DeletesOk(f, sagas)
    requires n in sagas && SagaOk(f, t, sagas[n]) && sagas[n].phase.Committed? && i < |sagas[n].uploaded|
    ensures var file := sagas[n].uploaded[i].id;
            && !Service.Targeted(f, file) && file in f.rows && f.rows[file].live && f.rows[file].key in f.objects
            && Service.GetContent(f, file) == Some(sagas[n].files[i])
  {
  }

  lemma CommittedFilesKept(f: Service.Files, t: Tables, sagas: map<nat, Saga>, n: nat)
    requires Service.Inv(f) && DeletesOk(f, sagas)
    requires n in sagas && SagaOk(f, t, sagas[n]) && sagas[n].phase.Committed?
    ensures forall i :: 0 <= i < |sagas[n].uploaded| ==>
              var file := sagas[n].uploaded[i].id;
              && !Service.Targeted(f, file) && file in f.rows && f.rows[file].live && f.rows[file].key in f.objects
              && Service.GetContent(f, file) == Some(sagas[n].files[i])
  {
    forall i | 0 <= i < |sagas[n].uploaded|
      ensures var file := sagas[n].uploaded[i].id;
              && !Service.Targeted(f, file) && file in f.rows && f.rows[file].live && f.rows[file].key in f.objects
              && Service.GetContent(f, file) == Some(sagas[n].files[i])
    {
      CommittedFileKept(f, t, sagas, n, i);
    }
  }

  /** Cross-service integrity: whatever fails wherever, every file of a stored attachment
      has a live metadata row and an object, and no delete was ever asked for it. */
  lemma ReferentialIntegrity(events: seq<Event>, a: AttachmentRow)
    ensures var s := Run(START, events);
            a in s.tables.attachments ==>
              && a.fileId in s.files.rows && s.files.rows[a.fileId].live
              && s.files.rows[a.fileId].key in s.files.objects
              && !Service.Targeted(s.files, a.fileId)
  {
    RunKeepsInv(START, events);
    var s := Run(START, events);
    if a in s.tables.attachments {
      var n :| SentBy(s.sagas, n, a);
      CommittedFilesKept(s.files, s.tables, s.sagas, n);
    }
  }

  /** One attachment per file, in order, with its id, name, type and size, and of kind image
      exactly if the type names one. */
  ghost predicate ShowsFiles(shown: seq<Attachment>, files: seq<UploadedFile>) {
    && |shown| == |files|
    && forall i :: 0 <= i < |files| ==>
         && shown[i].fileId == files[i].id && shown[i].filename == files[i].filename
         && shown[i].mime == files[i].mime && shown[i].size == files[i].size
         && shown[i].kind == (if NamesImage(files[i].mime) then "image" else "file")
  }

  /** Every input file attached, in input order, none deleted, each readable as sent. */
  ghost predicate Delivered(s: State, g: Saga) {
    && g.phase.Committed? && |g.uploaded| == |g.files| && g.attempts == []
    && ShowsFiles(AttachmentsOf(s.tables.attachments, g.phase.message), g.uploaded)
    && (forall i :: 0 <= i < |g.uploaded| ==>
          && Service.GetContent(s.files, g.uploaded[i].id) == Some(g.files[i])
          && g.uploaded[i].size == |g.files[i]|)
  }

  /** The attachment a returned file becomes, field by field. */
  lemma PayloadFields(files: seq<UploadedFile>)
    ensures ShowsFiles(RecordPayloads(Records(files)), files)
  {
    forall i | 0 <= i < |files|
      ensures RecordPayloads(Records(files))[i].kind == if NamesImage(files[i].mime) then "image" else "file"
    {
      ImagesAreRecognised(files[i].mime);
      KindsAreLowerCase(DetectAttachmentKind(files[i].mime));
    }
  }

  lemma CommittedDelivered(s: State, n: nat)
    requires Service.Inv(s.files) && DeletesOk(s.files, s.sagas)
    requires n in s.sagas && SagaOk(s.files, s.tables, s.sagas[n]) && s.sagas[n].phase.Committed?
    ensures Delivered(s, s.sagas[n])
  {
    PayloadFields(s.sagas[n].uploaded);
    CommittedFilesKept(s.files, s.tables, s.sagas, n);
  }

  /** Nothing is lost on success. */
  lemma CommittedConserves(events: seq<Event>, n: nat)
    ensures var s := Run(START, events);
            n in s.sagas && s.sagas[n].phase.Committed? ==> Delivered(s, s.sagas[n])
  {
    RunKeepsInv(START, events);
    var s := Run(START, events);
    if n in s.sagas && s.sagas[n].phase.Committed? {
      assert SagaOk(s.files, s.tables, s.sagas[n]);
      CommittedDelivered(s, n);
    }
  }

  ghost predicate Removed(f: Service.Files, file: FileId) {
    && file in f.uploads && file !in f.rows
    && (Service.ToldMissing(f, file) || f.uploads[file].key !in f.objects)
  }

  ghost predicate Unattached(t: Tables, file: FileId) {
    forall a :: a in t.attachments ==> a.fileId != file
  }

  lemma NotAttached(t: Tables, sagas: map<nat, Saga>, n: nat, file: FileId)
    requires AttachmentsOk(t, sagas) && Disjoint(sagas)
    requires n in sagas && !sagas[n].phase.Committed? && Owns(sagas[n], file)
    ensures Unattached(t, file)
  {
  }

  /** An aborted send: none of its files is attached anywhere, and each was the object of
      exactly one delete attempt, in upload order; a confirmed one left no row, and no object
      unless the store reported it missing. */
  lemma AbortedConserves(events: seq<Event>, n: nat)
    ensures var s := Run(START, events);
            n in s.sagas && s.sagas[n].phase.Aborted? ==>
              var g := s.sagas[n];
              && |g.attempts| == |g.uploaded|
              && (forall i :: 0 <= i < |g.uploaded| ==>
                    && g.attempts[i].file == g.uploaded[i].id
                    && (g.attempts[i].ok ==> Removed(s.files, g.uploaded[i].id))
                    && Unattached(s.tables, g.uploaded[i].id))
  {
    RunKeepsInv(START, events);
    var s := Run(START, events);
    if n in s.sagas && s.sagas[n].phase.Aborted? {
      var g := s.sagas[n];
      assert SagaOk(s.files, s.tables, g);
      forall i | 0 <= i < |g.uploaded|
        ensures Unattached(s.tables, g.uploaded[i].id)
        ensures g.attempts[i].ok ==> Removed(s.files, g.uploaded[i].id)
      {
        var file := g.uploaded[i].id;
        assert Owns(g, file) && AttemptOk(s.files, g.attempts[i], file);
        NotAttached(s.tables, s.sagas, n, file);
        if g.attempts[i].ok { Service.ObjectGoneOrTold(s.files, file); }
      }
    }
  }

  /** Access to a sent file is membership of the chat it was sent to, sender included. */
  lemma AccessIsMembership(events: seq<Event>, n: nat, file: FileId, login: Login)
    ensures var s := Run(START, events);
            n in s.sagas && s.sagas[n].phase.Committed? && Has(s.sagas[n], file) ==>
              && (UserHasAccessToFile(s.tables, login, file) <==> login in Members(s.tables, s.sagas[n].chat))
              && UserHasAccessToFile(s.tables, s.sagas[n].sender, file)
  {
    RunKeepsInv(START, events);
    var s := Run(START, events);
    if n in s.sagas && s.sagas[n].phase.Committed? && Has(s.sagas[n], file) {
      AccessOf(s, n, file, login);
      AccessOf(s, n, file, s.sagas[n].sender);
      assert SagaOk(s.files, s.tables, s.sagas[n]);
    }
  }

  lemma AccessOf(s: State, n: nat, file: FileId, login: Login)
    requires WellFormed(s.tables) && SagasOk(s.files, s.tables, s.sagas) && Disjoint(s.sagas)
    requires AttachmentsOk(s.tables, s.sagas)
    requires n in s.sagas && s.sagas[n].phase.Committed? && Has(s.sagas[n], file)
    ensures UserHasAccessToFile(s.tables, login, file) <==> login in Members(s.tables, s.sagas[n].chat)
  {
    assert SagaOk(s.files, s.tables, s.sagas[n]);
    forall a | a in s.tables.attachments && a.fileId == file ensures a.messageId == s.sagas[n].phase.message {
      var k :| SentBy(s.sagas, k, a);
      assert Owns(s.sagas[k], file) && Owns(s.sagas[n], file);
    }
    AccessByMessage(s.tables, s.sagas[n], file, login);
  }

  lemma AccessByMessage(t: Tables, g: Saga, file: FileId, login: Login)
    requires WellFormed(t) && g.phase.Committed? && MessageOk(t, g, g.phase.message) && Has(g, file)
    requires forall a :: a in t.attachments && a.fileId == file ==> a.messageId == g.phase.message
    ensures UserHasAccessToFile(t, login, file) <==> login in Members(t, g.chat)
  {
  }

  /** No chat ever holds more members than it was created for. */
  lemma {:induction false} CapacityHolds(events: seq<Event>, chat: int)
    ensures var t := Run(START, events).tables;
            chat in t.members ==> chat in t.maxMembers && |t.members[chat]| <= t.maxMembers[chat]
  {
    RunKeepsInv(START, events);
  }

  /** A send exists only for a chat's member and for one to ten files. */
  lemma SendsAreAdmitted(events: seq<Event>, n: nat)
    ensures var s := Run(START, events);
            n in s.sagas ==>
              var g := s.sagas[n];
              && 0 < |g.files| <= 10 && g.chat in s.tables.maxMembers
              && g.chat in s.tables.members && g.sender in s.tables.members[g.chat]
  {
    RunKeepsInv(START, events);
    var s := Run(START, events);
    assert n in s.sagas ==> SagaOk(s.files, s.tables, s.sagas[n]);
  }

  lemma OneAttachment(t: Tables, a: AttachmentRow, b: AttachmentRow)
    requires WellFormed(t) && a in t.attachments && b in t.attachments
    requires a.messageId == b.messageId && a.fileId == b.fileId
    ensures a == b
  {
  }

  lemma AttachmentOfFile(f: Service.Files, t: Tables, sagas: map<nat, Saga>, n: nat, a: AttachmentRow)
    requires Service.Inv(f) && WellFormed(t) && DeletesOk(f, sagas) && a in t.attachments && SentBy(sagas, n, a)
    requires SagaOk(f, t, sagas[n])
    ensures a.fileId in f.rows && f.rows[a.fileId].live
    ensures var row := f.rows[a.fileId];
            && a.filename == row.info.filename && a.mime == row.info.mime && a.size == row.size
            && a.kind == (if NamesImage(row.info.mime) then "image" else "file")
  {
    var g := sagas[n];
    CommittedFilesKept(f, t, sagas, n);
    var i :| 0 <= i < |g.uploaded| && g.uploaded[i].id == a.fileId;
    OneAttachment(t, a, RowFor(a.messageId, RecordFor(g.uploaded[i])));
    assert Service.RowOk(f, a.fileId);
    ImagesAreRecognised(g.uploaded[i].mime);
  }

  /** The two services agree: every stored attachment carries the name, the type and the size
      of its file's live metadata row, and is an image exactly if that type names one. */
  lemma AttachmentsMatchFiles(events: seq<Event>, a: AttachmentRow)
    ensures var s := Run(START, events);
            a in s.tables.attachments ==>
              && a.fileId in s.files.rows && s.files.rows[a.fileId].live
              && var row := s.files.rows[a.fileId];
                 && a.filename == row.info.filename && a.mime == row.info.mime && a.size == row.size
                 && a.kind == (if NamesImage(row.info.mime) then "image" else "file")
  {
    RunKeepsInv(START, events);
    var s := Run(START, events);
    if a in s.tables.attachments {
      var n :| SentBy(s.sagas, n, a);
      assert SagaOk(s.files, s.tables, s.sagas[n]);
      AttachmentOfFile(s.files, s.tables, s.sagas, n, a);
    }
  }

  /** The send that stored the row: who, where, and exactly its files. */
  ghost predicate StoredBy(s: State, n: nat, row: MessageRow) {
    && SentAs(s.sagas, n, row) && |s.sagas[n].uploaded| == |s.sagas[n].files|
    && ShowsFiles(AttachmentsOf(s.tables.attachments, row.id), s.sagas[n].uploaded)
  }

  lemma StoredBySend(s: State, n: nat, row: MessageRow)
    requires SagasOk(s.files, s.tables, s.sagas) && SentAs(s.sagas, n, row)
    ensures StoredBy(s, n, row)
  {
    PayloadFields(s.sagas[n].uploaded);
    assert SagaOk(s.files, s.tables, s.sagas[n]);
  }

  /** No file message without its committed send. */
  lemma MessagesAreSent(events: seq<Event>, row: MessageRow)
    ensures var s := Run(START, events);
            row in s.tables.messages && row.kind == KIND_FILE ==> exists n :: StoredBy(s, n, row)
  {
    RunKeepsInv(START, events);
    var s := Run(START, events);
    if row in s.tables.messages && row.kind == KIND_FILE {
      var n :| SentAs(s.sagas, n, row);
      StoredBySend(s, n, row);
    }
  }

  // ---- nothing stored is lost ---------------------------------------------------

  lemma SagaStepTables(s: State, e: Event, n: nat, g: Saga)
    requires WellFormed(s.tables)
    ensures TablesGrow(s.tables, SagaStep(s, e, n, g).tables)
  {
    Unchanged(s.tables);
    if e.Persist? && Save(s.tables, DraftOf(g), e.id, e.now).Some? { SaveGrows(s.tables, DraftOf(g), e.id, e.now); }
  }

  lemma DatabaseTables(s: State, e: Event)
    requires WellFormed(s.tables) && (e.NewChat? || e.AddUser? || e.StoreText?)
    ensures TablesGrow(s.tables, Next(s, e).tables)
  {
    Unchanged(s.tables);
    if e.StoreText? {
      var d := TextDraft(e.chat, e.sender, e.content);
      if Save(s.tables, d, e.id, e.now).Some? { SaveGrows(s.tables, d, e.id, e.now); }
    }
  }

  lemma NextTablesGrow(s: State, e: Event)
    requires WellFormed(s.tables)
    ensures TablesGrow(s.tables, Next(s, e).tables)
  {
    if e.NewChat? || e.AddUser? || e.StoreText? {
      DatabaseTables(s, e);
    } else if e.ServiceCall? || e.Begin? {
      Unchanged(s.tables);
    } else if e.saga in s.sagas {
      SagaStepTables(s, e, e.saga, s.sagas[e.saga]);
    } else {
      Unchanged(s.tables);
    }
  }

  lemma AccessStays(t: Tables, t': Tables, login: Login, file: FileId)
    requires TablesGrow(t, t') && UserHasAccessToFile(t, login, file)
    ensures UserHasAccessToFile(t', login, file)
  {
    var a, m :| a in t.attachments && m in t.messages && a.fileId == file && m.id == a.messageId &&
                login in Members(t, m.chatId);
    assert a in t'.attachments && m in t'.messages && login in Members(t', m.chatId);
  }

  /** Access once granted is never lost. */
  lemma {:induction false} AccessIsKept(s: State, events: seq<Event>, login: Login, file: FileId)
    requires Inv(s)
    ensures UserHasAccessToFile(s.tables, login, file) ==> UserHasAccessToFile(Run(s, events).tables, login, file)
  {
    if events != [] && UserHasAccessToFile(s.tables, login, file) {
      var front := events[..|events| - 1];
      AccessIsKept(s, front, login, file);
      RunKeepsInv(s, front);
      NextTablesGrow(Run(s, front), events[|events| - 1]);
      AccessStays(Run(s, front).tables, Run(s, events).tables, login, file);
    }
  }

  // ---- what an aborted send leaves behind ------------------------------------------

  lemma StartsGrow(s: State, e: Event)
    requires Service.Inv(s.files) && (e.Upload? || e.StartDelete?) && e.saga in s.sagas
    ensures Service.Grows(s.files, SagaStep(s, e, e.saga, s.sagas[e.saga]).files)
  {
    var g := s.sagas[e.saga];
    ServiceUnchanged(s.files);
    if e.Upload? && |g.uploaded| < |g.files| {
      Service.NextGrows(s.files, Service.StartUpload(e.file, e.key, e.info, g.files[|g.uploaded|]));
    }
    if e.StartDelete? && |g.attempts| < |g.uploaded| {
      Service.NextGrows(s.files, Service.StartDelete(e.op, g.uploaded[|g.attempts|].id));
    }
  }

  lemma NextFilesGrow(s: State, e: Event)
    requires Service.Inv(s.files)
    ensures Service.Grows(s.files, Next(s, e).files)
  {
    if e.ServiceCall? {
      ServiceUnchanged(s.files);
      Service.NextGrows(s.files, e.call);
    } else if (e.Upload? || e.StartDelete?) && e.saga in s.sagas {
      StartsGrow(s, e);
    } else {
      assert Next(s, e).files == s.files;
      ServiceUnchanged(s.files);
    }
  }

  lemma GrowsOn(f: Service.Files, g: Service.Files, h: Service.Files)
    requires Service.Grows(f, g) && Service.Grows(g, h)
    ensures Service.Grows(f, h)
  {
  }

  lemma {:induction false} RunFilesGrow(s: State, events: seq<Event>)
    requires Inv(s)
    ensures Service.Grows(s.files, Run(s, events).files)
  {
    if events == [] {
      ServiceUnchanged(s.files);
    } else {
      var front := events[..|events| - 1];
      RunKeepsInv(s, front);
      RunFilesGrow(s, front);
      NextFilesGrow(Run(s, front), events[|events| - 1]);
      GrowsOn(s.files, Run(s, front).files, Run(s, events).files);
    }
  }

  lemma NextKeepsAbandoned(s: State, e: Event, n: nat)
    requires n in s.sagas && s.sagas[n].abandoned.Some? && Failing(s.sagas[n].phase)
    ensures n in Next(s, e).sagas && Next(s, e).sagas[n].abandoned == s.sagas[n].abandoned
  {
  }

  lemma AbandonedFails(s: State, n: nat)
    requires Inv(s) && n in s.sagas && s.sagas[n].abandoned.Some?
    ensures Failing(s.sagas[n].phase)
  {
  }

  lemma {:induction false} RunKeepsAbandoned(s: State, events: seq<Event>, n: nat)
    requires Inv(s) && n in s.sagas && s.sagas[n].abandoned.Some?
    ensures n in Run(s, events).sagas && Run(s, events).sagas[n].abandoned == s.sagas[n].abandoned
  {
    if events != [] {
      RunKeepsInv(s, events[..|events| - 1]);
      RunKeepsAbandoned(s, events[..|events| - 1], n);
      AbandonedFails(Run(s, events[..|events| - 1]), n);
      NextKeepsAbandoned(Run(s, events[..|events| - 1]), events[|events| - 1], n);
    }
  }

  /** What is there of a file: a live row, a row, an object. */
  datatype Remains = Remains(live: bool, row: bool, stored: bool)

  function RemainsOf(f: Service.Files, file: FileId): Remains
    requires file in f.uploads
  {
    Remains(file in f.rows && f.rows[file].live, file in f.rows, f.uploads[file].key in f.objects)
  }

  function LeftByUpload(u: Service.Upload): Remains {
    Remains(Service.Inserted(u), Service.Inserted(u), Service.Stored(u))
  }

  function LeftByDelete(d: Service.Delete): Remains {
    Remains(!Service.Marked(d), !Service.Dropped(d), !Service.Removed(d))
  }

  /** No delete is asked for the file, so what is there is what its upload left. */
  ghost predicate BeyondDelete(f: Service.Files, file: FileId) {
    !Service.Targeted(f, file) && file in f.uploads && RemainsOf(f, file) == LeftByUpload(f.uploads[file])
  }

  /** The file whose upload answer was lost. */
  lemma AbandonedFile(f: Service.Files, t: Tables, sagas: map<nat, Saga>, n: nat, file: FileId)
    requires Service.Inv(f) && DeletesOk(f, sagas)
    requires n in sagas && SagaOk(f, t, sagas[n]) && sagas[n].abandoned == Some(file)
    ensures BeyondDelete(f, file) && Owns(sagas[n], file) && !sagas[n].phase.Committed?
  {
    NotTargeted(f, t, sagas, n, file);
    Service.Untargeted(f, file);
  }

  lemma NotTargeted(f: Service.Files, t: Tables, sagas: map<nat, Saga>, n: nat, file: FileId)
    requires DeletesOk(f, sagas) && n in sagas && SagaOk(f, t, sagas[n]) && sagas[n].abandoned == Some(file)
    ensures !Service.Targeted(f, file)
  {
  }

  lemma AbandonedFileOf(s: State, n: nat, file: FileId)
    requires Inv(s) && n in s.sagas && s.sagas[n].abandoned == Some(file)
    ensures BeyondDelete(s.files, file)
    ensures Unattached(s.tables, file)
  {
    assert SagaOk(s.files, s.tables, s.sagas[n]);
    AbandonedFile(s.files, s.tables, s.sagas, n, file);
    NotAttached(s.tables, s.sagas, n, file);
  }

  /** What compensation cannot reach: once the row of a file whose upload answer was lost is
      there, row and object stay for ever, readable but attached to nothing. */
  lemma AbandonedStays(s: State, events: seq<Event>, n: nat, file: FileId)
    requires Inv(s) && n in s.sagas && s.sagas[n].abandoned == Some(file) && file in s.files.rows
    ensures var s' := Run(s, events);
            && n in s'.sagas && s'.sagas[n].abandoned == Some(file)
            && file in s.files.uploads && Service.GetContent(s'.files, file) == Some(s.files.uploads[file].bytes)
            && !Service.Targeted(s'.files, file)
            && Unattached(s'.tables, file)
  {
    RunKeepsInv(s, events);
    RunKeepsAbandoned(s, events, n);
    RunFilesGrow(s, events);
    AbandonedFileOf(s, n, file);
    AbandonedFileOf(Run(s, events), n, file);
    Service.LiveRowOk(Run(s, events).files, file);
  }

  lemma TheOneDelete(f: Service.Files, t: Tables, sagas: map<nat, Saga>, n: nat, i: nat, op: nat)
    requires DeletesOk(f, sagas) && n in sagas && SagaOk(f, t, sagas[n]) && sagas[n].phase.Aborted?
    requires i < |sagas[n].uploaded| && op in f.deletes && f.deletes[op].file == sagas[n].uploaded[i].id
    ensures i < |sagas[n].attempts| && sagas[n].attempts[i].op == op
  {
  }

  /** What is there of an aborted send's file is what its one delete left. */
  lemma DeletedFile(f: Service.Files, t: Tables, sagas: map<nat, Saga>, n: nat, i: nat)
    requires Service.Inv(f) && DeletesOk(f, sagas)
    requires n in sagas && SagaOk(f, t, sagas[n]) && sagas[n].phase.Aborted? && i < |sagas[n].uploaded|
    ensures var g := sagas[n];
            && i < |g.attempts| && g.attempts[i].op in f.deletes && g.uploaded[i].id in f.uploads
            && RemainsOf(f, g.uploaded[i].id) == LeftByDelete(f.deletes[g.attempts[i].op])
  {
    var g := sagas[n];
    var file := g.uploaded[i].id;
    assert AttemptOk(f, g.attempts[i], file);
    forall op | op in f.deletes && f.deletes[op].file == file ensures op == g.attempts[i].op {
      TheOneDelete(f, t, sagas, n, i, op);
    }
    Service.TargetedOnce(f, file, g.attempts[i].op);
  }

  /** The abandoned upload has inserted nothing, and every delete has marked its row. */
  ghost predicate AllMarked(f: Service.Files, g: Saga) {
    && (g.abandoned.Some? ==> g.abandoned.value in f.uploads && !Service.Inserted(f.uploads[g.abandoned.value]))
    && (forall i :: 0 <= i < |g.attempts| ==>
          g.attempts[i].op in f.deletes && Service.Marked(f.deletes[g.attempts[i].op]))
  }

  /** The abandoned upload has left nothing, and every delete has removed object and row. */
  ghost predicate AllRemoved(f: Service.Files, g: Saga) {
    && (g.abandoned.Some? ==>
          && g.abandoned.value in f.uploads && !Service.Inserted(f.uploads[g.abandoned.value])
          && !Service.Stored(f.uploads[g.abandoned.value]))
    && (forall i :: 0 <= i < |g.attempts| ==>
          && g.attempts[i].op in f.deletes && Service.Removed(f.deletes[g.attempts[i].op])
          && Service.Dropped(f.deletes[g.attempts[i].op]))
  }

  ghost predicate NothingLive(f: Service.Files, g: Saga) {
    forall file :: Owns(g, file) ==> file in f.uploads && !RemainsOf(f, file).live
  }

  ghost predicate NothingLeft(f: Service.Files, g: Saga) {
    forall file :: Owns(g, file) ==> file in f.uploads && !RemainsOf(f, file).row && !RemainsOf(f, file).stored
  }

  /** A failed send deletes what it uploaded, exactly when: neither row nor object of any
      file of an aborted send is left if and only if the abandoned upload, if any, has left
      none, and every delete has removed its object and its row. */
  lemma AbortLeavesNothing(events: seq<Event>, n: nat)
    ensures var s := Run(START, events);
            n in s.sagas && s.sagas[n].phase.Aborted? ==>
              (NothingLeft(s.files, s.sagas[n]) <==> AllRemoved(s.files, s.sagas[n]))
  {
    RunKeepsInv(START, events);
    var s := Run(START, events);
    if n in s.sagas && s.sagas[n].phase.Aborted? {
      assert SagaOk(s.files, s.tables, s.sagas[n]);
      AbortedFiles(s.files, s.tables, s.sagas, n);
    }
  }

  /** Users can read none of them if and only if that upload, if any, has inserted no row
      and every delete has reached its mark. */
  lemma AbortLeavesNothingLive(events: seq<Event>, n: nat)
    ensures var s := Run(START, events);
            n in s.sagas && s.sagas[n].phase.Aborted? ==>
              (NothingLive(s.files, s.sagas[n]) <==> AllMarked(s.files, s.sagas[n]))
  {
    RunKeepsInv(START, events);
    var s := Run(START, events);
    if n in s.sagas && s.sagas[n].phase.Aborted? {
      assert SagaOk(s.files, s.tables, s.sagas[n]);
      AbortedFiles(s.files, s.tables, s.sagas, n);
    }
  }

  lemma AbortedFiles(f: Service.Files, t: Tables, sagas: map<nat, Saga>, n: nat)
    requires Service.Inv(f) && DeletesOk(f, sagas)
    requires n in sagas && SagaOk(f, t, sagas[n]) && sagas[n].phase.Aborted?
    ensures NothingLive(f, sagas[n]) <==> AllMarked(f, sagas[n])
    ensures NothingLeft(f, sagas[n]) <==> AllRemoved(f, sagas[n])
  {
    var g := sagas[n];
    if g.abandoned.Some? { AbandonedFile(f, t, sagas, n, g.abandoned.value); }
    forall i | 0 <= i < |g.uploaded|
      ensures && Owns(g, g.uploaded[i].id) && g.attempts[i].op in f.deletes && g.uploaded[i].id in f.uploads
              && RemainsOf(f, g.uploaded[i].id) == LeftByDelete(f.deletes[g.attempts[i].op])
    {
      DeletedFile(f, t, sagas, n, i);
      assert Has(g, g.uploaded[i].id);
    }
    FilesDecide(f, g);
  }

  /** From what each file's call left to what the whole send left. */
  lemma FilesDecide(f: Service.Files, g: Saga)
    requires g.phase.Aborted? && |g.attempts| == |g.uploaded|
    requires g.abandoned.Some? ==> BeyondDelete(f, g.abandoned.value)
    requires forall i :: 0 <= i < |g.uploaded| ==>
               && g.attempts[i].op in f.deletes && g.uploaded[i].id in f.uploads
               && RemainsOf(f, g.uploaded[i].id) == LeftByDelete(f.deletes[g.attempts[i].op])
    ensures NothingLive(f, g) <==> AllMarked(f, g)
    ensures NothingLeft(f, g) <==> AllRemoved(f, g)
  {
    assert forall i :: 0 <= i < |g.uploaded| ==> Has(g, g.uploaded[i].id) && Owns(g, g.uploaded[i].id);
    assert g.abandoned.Some? ==> Owns(g, g.abandoned.value);
  }

  /** The service is done with every call the send has made. */
  ghost predicate Settled(f: Service.Files, g: Saga) {
    && (g.abandoned.Some? ==> g.abandoned.value in f.uploads && f.uploads[g.abandoned.value].pc.UploadEnded?)
    && (forall i :: 0 <= i < |g.attempts| ==>
          g.attempts[i].op in f.deletes && f.deletes[g.attempts[i].op].pc.DeleteEnded?)
  }

  lemma AbortedStep(s: State, e: Event, n: nat)
    requires n in s.sagas && s.sagas[n].phase.Aborted?
    ensures n in Next(s, e).sagas && Next(s, e).sagas[n] == s.sagas[n]
  {
  }

  lemma {:induction false} AbortedStays(s: State, events: seq<Event>, n: nat)
    requires n in s.sagas && s.sagas[n].phase.Aborted?
    ensures n in Run(s, events).sagas && Run(s, events).sagas[n] == s.sagas[n]
  {
    if events != [] {
      AbortedStays(s, events[..|events| - 1], n);
      AbortedStep(Run(s, events[..|events| - 1]), events[|events| - 1], n);
    }
  }

  /** The `i`-th delete attempt of the send is of this file. */
  predicate Tried(g: Saga, i: int, file: FileId) {
    0 <= i < |g.attempts| && g.attempts[i].file == file
  }

  ghost predicate DecidedBy(f: Service.Files, g: Saga, file: FileId) {
    && file in f.uploads
    && (g.abandoned == Some(file) ==> RemainsOf(f, file) == LeftByUpload(f.uploads[file]))
    && (g.abandoned != Some(file) ==> exists i :: Tried(g, i, file))
    && (forall i :: Tried(g, i, file) && g.abandoned != Some(file) ==>
          g.attempts[i].op in f.deletes && RemainsOf(f, file) == LeftByDelete(f.deletes[g.attempts[i].op]))
  }

  lemma FateOf(f: Service.Files, t: Tables, sagas: map<nat, Saga>, n: nat, file: FileId)
    requires Service.Inv(f) && DeletesOk(f, sagas)
    requires n in sagas && SagaOk(f, t, sagas[n]) && sagas[n].phase.Aborted? && Owns(sagas[n], file)
    ensures DecidedBy(f, sagas[n], file)
  {
    if sagas[n].abandoned == Some(file) {
      AbandonedFile(f, t, sagas, n, file);
    } else {
      var i :| 0 <= i < |sagas[n].uploaded| && sagas[n].uploaded[i].id == file;
      TriedFate(f, t, sagas, n, i);
    }
  }

  lemma TriedFate(f: Service.Files, t: Tables, sagas: map<nat, Saga>, n: nat, i: nat)
    requires Service.Inv(f) && DeletesOk(f, sagas)
    requires n in sagas && SagaOk(f, t, sagas[n]) && sagas[n].phase.Aborted? && i < |sagas[n].uploaded|
    requires sagas[n].abandoned != Some(sagas[n].uploaded[i].id)
    ensures DecidedBy(f, sagas[n], sagas[n].uploaded[i].id)
  {
    var g := sagas[n];
    DeletedFile(f, t, sagas, n, i);
    DistinctFiles(f, g, i);
    assert AttemptOk(f, g.attempts[i], g.uploaded[i].id);
    assert Tried(g, i, g.uploaded[i].id);
  }

  lemma DistinctFiles(f: Service.Files, g: Saga, i: nat)
    requires UploadedOk(f, g) && AttemptsOk(f, g) && i < |g.attempts|
    ensures forall j :: 0 <= j < |g.attempts| && g.attempts[j].file == g.uploaded[i].id ==> j == i
  {
  }

  lemma SettledStays(f: Service.Files, f': Service.Files, g: Saga, file: FileId)
    requires Settled(f, g) && Service.Grows(f, f') && DecidedBy(f, g, file) && DecidedBy(f', g, file)
    ensures RemainsOf(f', file) == RemainsOf(f, file)
  {
    if g.abandoned != Some(file) {
      var i :| Tried(g, i, file);
      assert f'.deletes[g.attempts[i].op].pc == f.deletes[g.attempts[i].op].pc;
    }
  }

  lemma FateIn(s: State, n: nat, file: FileId)
    requires Inv(s) && n in s.sagas && s.sagas[n].phase.Aborted? && Owns(s.sagas[n], file)
    ensures DecidedBy(s.files, s.sagas[n], file)
  {
    assert SagaOk(s.files, s.tables, s.sagas[n]);
    FateOf(s.files, s.tables, s.sagas, n, file);
  }

  /** After that the answer is final: no later event changes what is there of its files,
      neither row nor object, live or not. */
  lemma AbortIsFinal(s: State, events: seq<Event>, n: nat, file: FileId)
    requires Inv(s) && n in s.sagas && s.sagas[n].phase.Aborted? && Settled(s.files, s.sagas[n])
    requires Owns(s.sagas[n], file)
    ensures n in Run(s, events).sagas && Run(s, events).sagas[n] == s.sagas[n]
    ensures file in s.files.uploads && file in Run(s, events).files.uploads
    ensures RemainsOf(Run(s, events).files, file) == RemainsOf(s.files, file)
  {
    AbortedStays(s, events, n);
    RunKeepsInv(s, events);
    RunFilesGrow(s, events);
    FateIn(s, n, file);
    FateIn(Run(s, events), n, file);
    SettledStays(s.files, Run(s, events).files, s.sagas[n], file);
  }

  // ---- runs of both kinds exist ---------------------------------------------------

  lemma RunAppend(s: State, events: seq<Event>, e: Event)
    ensures Run(s, events + [e]) == Next(Run(s, events), e)
  {
  }

  /** A send whose first upload has been started, for any file. */
  lemma UploadStarts(file: FileId, key: ObjectKey, info: FileInfo, bytes: Bytes) returns (events: seq<Event>)
    requires key.id == file
    ensures var s := Run(START, events);
            && s.files == Service.Files(map[], map[], map[file := Service.Upload(key, info, bytes, Service.Putting)],
                                        map[])
            && s.tables == Tables(map[1 := 2], map[1 := {"a"}], [], [])
            && s.sagas == map[0 := Saga(1, "a", [bytes], [], Awaiting(file), [], None)]
  {
    events := [];
    RunAppend(START, events, NewChat(1, 2));
    events := events + [NewChat(1, 2)];
    RunAppend(START, events, AddUser(1, "a"));
    events := events + [AddUser(1, "a")];
    RunAppend(START, events, Begin(0, 1, "a", [bytes]));
    events := events + [Begin(0, 1, "a", [bytes])];
    RunAppend(START, events, Upload(0, file, key, info));
    events := events + [Upload(0, file, key, info)];
  }

  /** The three calls of its upload go well. */
  lemma UploadCompletes(file: FileId, key: ObjectKey, info: FileInfo, bytes: Bytes) returns (events: seq<Event>)
    requires key.id == file
    ensures var s := Run(START, events);
            && s.files == Service.Files(map[file := Service.Row(key, info, |bytes|, true)], map[key := bytes],
                                        map[file := Service.Upload(key, info, bytes,
                                                                   Service.UploadEnded(true, true, true))],
                                        map[])
            && s.tables == Tables(map[1 := 2], map[1 := {"a"}], [], [])
            && s.sagas == map[0 := Saga(1, "a", [bytes], [], Awaiting(file), [], None)]
  {
    events := UploadStarts(file, key, info, bytes);
    var call := ServiceCall(Service.UploadCall(file, Service.Done));
    RunAppend(START, events, call);
    events := events + [call];
    RunAppend(START, events, call);
    events := events + [call];
    RunAppend(START, events, call);
    events := events + [call];
  }

  /** The answer of the upload arrives. */
  lemma AnswerArrives(file: FileId, key: ObjectKey, info: FileInfo, bytes: Bytes) returns (events: seq<Event>)
    requires key.id == file
    ensures var s := Run(START, events);
            && s.files == Service.Files(map[file := Service.Row(key, info, |bytes|, true)], map[key := bytes],
                                        map[file := Service.Upload(key, info, bytes,
                                                                   Service.UploadEnded(true, true, true))],
                                        map[])
            && s.tables == Tables(map[1 := 2], map[1 := {"a"}], [], [])
            && s.sagas == map[0 := Saga(1, "a", [bytes],
                                        [UploadedFile(file, info.filename, info.mime, |bytes|)], Uploading, [], None)]
  {
    events := UploadCompletes(file, key, info, bytes);
    RunAppend(START, events, UploadReturned(0));
    events := events + [UploadReturned(0)];
    var u := UploadedFile(file, info.filename, info.mime, |bytes|);
    assert [] + [u] == [u];
  }

  /** It can be committed. */
  lemma SendCanCommit(file: FileId, key: ObjectKey, info: FileInfo, bytes: Bytes) returns (events: seq<Event>)
    requires key.id == file
    ensures var s := Run(START, events);
            0 in s.sagas && s.sagas[0].phase == Committed(1) && Has(s.sagas[0], file)
  {
    events := AnswerArrives(file, key, info, bytes);
    assert Storable(Records(Run(START, events).sagas[0].uploaded));
    RunAppend(START, events, Persist(0, 1, 0, true));
    events := events + [Persist(0, 1, 0, true)];
    assert Run(START, events).sagas[0].uploaded[0].id == file;
  }

  /** Or its answer is lost: the send ends aborted while the file stays live and unattached. */
  lemma LostAnswerLeavesFile(file: FileId, key: ObjectKey, info: FileInfo, bytes: Bytes) returns (events: seq<Event>)
    requires key.id == file
    ensures var s := Run(START, events);
            && 0 in s.sagas && s.sagas[0].phase == Aborted && s.sagas[0].abandoned == Some(file)
            && file in s.files.rows && s.files.rows[file].live && s.tables.attachments == []
  {
    events := UploadCompletes(file, key, info, bytes);
    RunAppend(START, events, UploadFailed(0));
    events := events + [UploadFailed(0)];
    RunAppend(START, events, End(0));
    events := events + [End(0)];
  }

  /** The transaction fails and the compensating delete is sent. */
  lemma DeleteStarts(file: FileId, key: ObjectKey, info: FileInfo, bytes: Bytes) returns (events: seq<Event>)
    requires key.id == file
    ensures var s := Run(START, events);
            && s.files == Service.Files(map[file := Service.Row(key, info, |bytes|, true)], map[key := bytes],
                                        map[file := Service.Upload(key, info, bytes,
                                                                   Service.UploadEnded(true, true, true))],
                                        map[0 := Service.Delete(file, Service.LookingUp)])
            && s.sagas == map[0 := Saga(1, "a", [bytes],
                                        [UploadedFile(file, info.filename, info.mime, |bytes|)],
                                        AwaitingDelete(0), [], None)]
  {
    events := AnswerArrives(file, key, info, bytes);
    RunAppend(START, events, Persist(0, 1, 0, false));
    events := events + [Persist(0, 1, 0, false)];
    RunAppend(START, events, StartDelete(0, 0));
    events := events + [StartDelete(0, 0)];
  }

  /** The delete marks the row, and its removal of the object fails. */
  lemma DeleteStopsHalfWay(file: FileId, key: ObjectKey, info: FileInfo, bytes: Bytes) returns (events: seq<Event>)
    requires key.id == file
    ensures var s := Run(START, events);
            && s.files == Service.Files(map[file := Service.Row(key, info, |bytes|, false)], map[key := bytes],
                                        map[file := Service.Upload(key, info, bytes,
                                                                   Service.UploadEnded(true, true, true))],
                                        map[0 := Service.Delete(
                                                   file, Service.DeleteEnded(false, true, false, false, false))])
            && s.sagas == map[0 := Saga(1, "a", [bytes],
                                        [UploadedFile(file, info.filename, info.mime, |bytes|)],
                                        AwaitingDelete(0), [], None)]
  {
    events := DeleteStarts(file, key, info, bytes);
    var call := ServiceCall(Service.DeleteCall(0, Service.Done));
    RunAppend(START, events, call);
    events := events + [call];
    RunAppend(START, events, call);
    events := events + [call];
    var fails := ServiceCall(Service.DeleteCall(0, Service.NotDone));
    RunAppend(START, events, fails);
    events := events + [fails];
  }

  /** Or a delete stops half-way: nothing of the send is live, the service is done with its
      calls, and yet row and object are there, and by AbortIsFinal for ever. */
  lemma HalfDeleteLeavesObject(file: FileId, key: ObjectKey, info: FileInfo, bytes: Bytes) returns (events: seq<Event>)
    requires key.id == file
    ensures var s := Run(START, events);
            && 0 in s.sagas && s.sagas[0].phase == Aborted && Has(s.sagas[0], file)
            && NothingLive(s.files, s.sagas[0]) && Settled(s.files, s.sagas[0])
            && file in s.files.rows && key in s.files.objects
  {
    events := DeleteStopsHalfWay(file, key, info, bytes);
    RunAppend(START, events, DeleteReturned(0, false));
    events := events + [DeleteReturned(0, false)];
    RunAppend(START, events, End(0));
    events := events + [End(0)];
    var s := Run(START, events);
    assert s.sagas[0].uploaded[0].id == file;
  }
}
