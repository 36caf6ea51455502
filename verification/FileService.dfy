/** The file service's operations as sequential code. Each keeps the service's state equal
    to a state of the machine in FileRuns, to which it adds one run of its own calls. */
module FileService {
  import opened Wrappers
  import opened Messages
  import opened FileRuns
  import opened ObjectStorage

  const SNIFF_SIZE: nat := 512

  datatype ServiceError = InvalidUpload | TooLarge | MimeNotAllowed | MissingFile | StorageFailed(error: StorageError)
                        | MetadataUnavailable

  datatype StoredFile = StoredFile(id: FileId, key: ObjectKey, filename: string, mime: string, size: nat)

  /** A read: the metadata and the object. */
  datatype Content = Content(file: StoredFile, body: Bytes)

  datatype UploadRequest = UploadRequest(filename: string, declaredMime: string, size: int, content: Option<Bytes>)

  /** `spool` makes reading the request or writing the temporary file fail. */
  datatype UploadFaults = UploadFaults(spool: bool, put: seq<Attempt>, create: bool, cleanup: seq<Attempt>,
                                       readBack: bool)

  datatype DeleteFaults = DeleteFaults(lookup: bool, mark: Outcome, remove: seq<Attempt>, drop: Outcome)

  // ---- the calls an operation makes, as events of the machine --------------------

  function PutOutcome(script: seq<Attempt>, max: nat): Outcome {
    if Retried(script, 0, max, Unavailable).None? then Done
    else if Applied(script, 0, max) then DoneButLost else NotDone
  }

  /** A removal that ends in "not found" counts as done if it took effect before that. */
  function RemoveOutcome(script: seq<Attempt>, max: nat): Outcome {
    match Retried(script, 0, max, Unavailable)
    case None => Done
    case Some(NotFound) => if Applied(script, 0, max) then Done else Missing
    case Some(_) => if Applied(script, 0, max) then DoneButLost else NotDone
  }

  lemma OutcomesApply(script: seq<Attempt>, max: nat)
    ensures TookEffect(PutOutcome(script, max)) <==> Applied(script, 0, max)
    ensures TookEffect(RemoveOutcome(script, max)) <==> Applied(script, 0, max)
  {
    SuccessApplies(script, 0, max, Unavailable);
  }

  /** The service goes on after a removal exactly if it worked or ended in "not found". */
  lemma RemovalMeans(script: seq<Attempt>, max: nat)
    ensures RemoveOutcome(script, max) in {Done, Missing} <==>
            Retried(script, 0, max, Unavailable) in {None, Some(NotFound)}
  {
  }

  function LastOutcome(faults: UploadFaults, max: nat): Outcome {
    if faults.create then RemoveOutcome(faults.cleanup, max) else if faults.readBack then NotDone else Done
  }

  function UploadEvents(id: FileId, key: ObjectKey, info: FileInfo, bytes: Bytes, faults: UploadFaults, max: nat):
    seq<Event>
  {
    [StartUpload(id, key, info, bytes), UploadCall(id, PutOutcome(faults.put, max)),
     UploadCall(id, if faults.create then NotDone else Done), UploadCall(id, LastOutcome(faults, max))]
  }

  function DeleteEvents(op: nat, id: FileId, faults: DeleteFaults, max: nat): seq<Event> {
    [StartDelete(op, id), DeleteCall(op, if faults.lookup then NotDone else Done), DeleteCall(op, faults.mark),
     DeleteCall(op, RemoveOutcome(faults.remove, max)), DeleteCall(op, faults.drop)]
  }

  // ---- what those calls leave, in closed form -------------------------------------

  lemma RunAppend(f: Files, events: seq<Event>, e: Event)
    ensures Run(f, events + [e]) == Next(Run(f, events), e)
  {
  }

  lemma RunFour(f: Files, a: Event, b: Event, c: Event, d: Event)
    ensures Run(f, [a, b, c, d]) == Next(Next(Next(Next(f, a), b), c), d)
  {
    RunAppend(f, [], a);
    RunAppend(f, [a], b);
    RunAppend(f, [a, b], c);
    RunAppend(f, [a, b, c], d);
    assert [] + [a] == [a] && [a] + [b] == [a, b] && [a, b] + [c] == [a, b, c] && [a, b, c] + [d] == [a, b, c, d];
  }

  /** Whether the object is left: put, and not cleaned up. */
  predicate Leaves(put: Outcome, insert: Outcome, last: Outcome) {
    TookEffect(put) && !(put == Done && insert != Done && TookEffect(last))
  }

  function AfterUpload(f: Files, id: FileId, u: Upload, put: Outcome, insert: Outcome, last: Outcome): Files {
    var inserted := put == Done && insert == Done;
    f.(rows := if inserted then f.rows[id := Row(u.key, u.info, |u.bytes|, true)] else f.rows,
       objects := if !TookEffect(put) then f.objects
                  else if put == Done && insert != Done && TookEffect(last) then f.objects - {u.key}
                  else f.objects[u.key := u.bytes],
       uploads := f.uploads[id := u.(pc := UploadEnded(inserted && last == Done, inserted, Leaves(put, insert, last)))])
  }

  /** The last two calls of an upload, its object being stored. */
  lemma InsertSteps(f: Files, id: FileId, u: Upload, insert: Outcome, last: Outcome)
    requires id in f.uploads && f.uploads[id] == u && u.pc.Creating? && id !in f.rows
    ensures var g := UploadStep(f, id, insert);
            id in g.uploads &&
            UploadStep(g, id, last) ==
            f.(rows := if insert == Done then f.rows[id := Row(u.key, u.info, |u.bytes|, true)] else f.rows,
               objects := if insert != Done && TookEffect(last) then f.objects - {u.key} else f.objects,
               uploads := f.uploads[id := u.(pc := UploadEnded(insert == Done && last == Done, insert == Done,
                                                               Leaves(Done, insert, last)))])
  {
  }

  lemma UploadStepsThrough(f: Files, id: FileId, u: Upload, put: Outcome, insert: Outcome, last: Outcome)
    requires id in f.uploads && f.uploads[id] == u && u.pc.Putting? && id !in f.rows
    ensures var g := UploadStep(f, id, put);
            id in g.uploads && id in UploadStep(g, id, insert).uploads &&
            UploadStep(UploadStep(g, id, insert), id, last) == AfterUpload(f, id, u, put, insert, last)
  {
    var objects := if TookEffect(put) then f.objects[u.key := u.bytes] else f.objects;
    var v := u.(pc := if put == Done then Creating else UploadEnded(false, false, TookEffect(put)));
    var g := f.(objects := objects, uploads := f.uploads[id := v]);
    assert UploadStep(f, id, put) == g;
    if put == Done {
      InsertSteps(g, id, v, insert, last);
      assert objects - {u.key} == f.objects - {u.key};
    }
  }

  lemma RunUpload(f: Files, id: FileId, key: ObjectKey, info: FileInfo, bytes: Bytes, put: Outcome, insert: Outcome,
                  last: Outcome)
    requires id !in f.uploads && id !in f.rows && key.id == id
    ensures Run(f, [StartUpload(id, key, info, bytes), UploadCall(id, put), UploadCall(id, insert),
                    UploadCall(id, last)]) ==
            AfterUpload(f, id, Upload(key, info, bytes, Putting), put, insert, last)
  {
    var u := Upload(key, info, bytes, Putting);
    var start := f.(uploads := f.uploads[id := u]);
    RunFour(f, StartUpload(id, key, info, bytes), UploadCall(id, put), UploadCall(id, insert), UploadCall(id, last));
    UploadStepsThrough(start, id, u, put, insert, last);
    assert AfterUpload(start, id, u, put, insert, last) == AfterUpload(f, id, u, put, insert, last);
  }

  /** Whether the service goes on to remove the row. */
  predicate GoesOn(mark: Outcome, removal: Outcome) {
    mark == Done && (removal == Done || removal == Missing)
  }

  function EndOfDelete(found: bool, mark: Outcome, removal: Outcome, drop: Outcome): DeletePc {
    if !found then DeleteEnded(false, false, false, false, false)
    else if mark != Done then DeleteEnded(false, TookEffect(mark), false, false, false)
    else if GoesOn(mark, removal) then
      DeleteEnded(drop == Done, true, removal == Missing, removal == Done, TookEffect(drop))
    else DeleteEnded(false, true, false, TookEffect(removal), false)
  }

  /** The rows a delete leaves: untouched, marked, or without the file's row. */
  function RowsAfter(rows: map<FileId, Row>, id: FileId, found: bool, mark: Outcome, removal: Outcome, drop: Outcome):
    map<FileId, Row>
  {
    if !found || !TookEffect(mark) then rows
    else if GoesOn(mark, removal) && TookEffect(drop) then rows - {id}
    else Unlive(rows, id)
  }

  function AfterDelete(f: Files, op: nat, id: FileId, found: bool, mark: Outcome, removal: Outcome, drop: Outcome):
    Files
    requires found ==> id in f.rows
  {
    f.(rows := RowsAfter(f.rows, id, found, mark, removal, drop),
       objects := if found && mark == Done && TookEffect(removal) then f.objects - {f.rows[id].key} else f.objects,
       deletes := f.deletes[op := Delete(id, EndOfDelete(found, mark, removal, drop))])
  }

  /** An ended delete makes no more calls. */
  lemma EndedStays(f: Files, op: nat, a: Outcome, b: Outcome, c: Outcome)
    requires op in f.deletes && f.deletes[op].pc.DeleteEnded?
    ensures DeleteStep(f, op, a) == f
    ensures DeleteStep(DeleteStep(f, op, a), op, b) == f
    ensures DeleteStep(DeleteStep(DeleteStep(f, op, a), op, b), op, c) == f
  {
  }

  /** The last two calls of a delete. */
  lemma RemovalSteps(f: Files, op: nat, id: FileId, key: ObjectKey, removal: Outcome, drop: Outcome)
    requires op in f.deletes && f.deletes[op] == Delete(id, RemovingObject(key)) && id in f.rows
    ensures var g := DeleteStep(f, op, removal);
            op in g.deletes &&
            DeleteStep(g, op, drop) ==
            f.(rows := if GoesOn(Done, removal) && TookEffect(drop) then f.rows - {id} else f.rows,
               objects := if TookEffect(removal) then f.objects - {key} else f.objects,
               deletes := f.deletes[op := Delete(id, EndOfDelete(true, Done, removal, drop))])
  {
  }

  /** The last three calls of a delete. */
  lemma MarkSteps(f: Files, op: nat, id: FileId, mark: Outcome, removal: Outcome, drop: Outcome)
    requires op in f.deletes && id in f.rows && f.deletes[op] == Delete(id, Marking(f.rows[id].key))
    ensures var g := DeleteStep(f, op, mark);
            op in g.deletes && op in DeleteStep(g, op, removal).deletes &&
            DeleteStep(DeleteStep(g, op, removal), op, drop) == AfterDelete(f, op, id, true, mark, removal, drop)
  {
    var key := f.rows[id].key;
    var rows := if TookEffect(mark) then Unlive(f.rows, id) else f.rows;
    var pc := if mark == Done then RemovingObject(key)
              else DeleteEnded(false, TookEffect(mark), false, false, false);
    var g := f.(rows := rows, deletes := f.deletes[op := Delete(id, pc)]);
    assert DeleteStep(f, op, mark) == g;
    if mark == Done {
      RemovalSteps(g, op, id, key, removal, drop);
      assert rows - {id} == f.rows - {id};
    } else {
      EndedStays(g, op, removal, drop, drop);
    }
  }

  lemma RunDeleteSteps(f: Files, op: nat, id: FileId, lookup: Outcome, mark: Outcome, removal: Outcome, drop: Outcome)
    requires op !in f.deletes
    ensures var g0 := f.(deletes := f.deletes[op := Delete(id, LookingUp)]);
            var g1 := DeleteStep(g0, op, lookup);
            op in g1.deletes &&
            var g2 := DeleteStep(g1, op, mark);
            op in g2.deletes &&
            var g3 := DeleteStep(g2, op, removal);
            op in g3.deletes &&
            Run(f, [StartDelete(op, id), DeleteCall(op, lookup), DeleteCall(op, mark), DeleteCall(op, removal),
                    DeleteCall(op, drop)]) == DeleteStep(g3, op, drop)
  {
    var a, b, c := StartDelete(op, id), DeleteCall(op, lookup), DeleteCall(op, mark);
    var d, e := DeleteCall(op, removal), DeleteCall(op, drop);
    RunFour(f, a, b, c, d);
    RunAppend(f, [a, b, c, d], e);
    assert [a, b, c, d] + [e] == [a, b, c, d, e];
    var g0 := f.(deletes := f.deletes[op := Delete(id, LookingUp)]);
    DeleteFrame(g0, op, lookup);
    DeleteFrame(DeleteStep(g0, op, lookup), op, mark);
    DeleteFrame(DeleteStep(DeleteStep(g0, op, lookup), op, mark), op, removal);
  }

  lemma FoundSteps(f: Files, op: nat, id: FileId, mark: Outcome, removal: Outcome, drop: Outcome)
    requires id in f.rows
    ensures var g := f.(deletes := f.deletes[op := Delete(id, LookingUp)]);
            var g1 := DeleteStep(g, op, Done);
            op in g1.deletes && op in DeleteStep(g1, op, mark).deletes &&
            op in DeleteStep(DeleteStep(g1, op, mark), op, removal).deletes &&
            DeleteStep(DeleteStep(DeleteStep(g1, op, mark), op, removal), op, drop) ==
            AfterDelete(f, op, id, true, mark, removal, drop)
  {
    var g := f.(deletes := f.deletes[op := Delete(id, Marking(f.rows[id].key))]);
    assert DeleteStep(f.(deletes := f.deletes[op := Delete(id, LookingUp)]), op, Done) == g;
    MarkSteps(g, op, id, mark, removal, drop);
    assert AfterDelete(g, op, id, true, mark, removal, drop) == AfterDelete(f, op, id, true, mark, removal, drop);
  }

  lemma NotFoundSteps(f: Files, op: nat, id: FileId, lookup: Outcome, mark: Outcome, removal: Outcome, drop: Outcome)
    requires lookup != Done || id !in f.rows
    ensures var g := f.(deletes := f.deletes[op := Delete(id, LookingUp)]);
            var g1 := DeleteStep(g, op, lookup);
            op in g1.deletes && op in DeleteStep(g1, op, mark).deletes &&
            op in DeleteStep(DeleteStep(g1, op, mark), op, removal).deletes &&
            DeleteStep(DeleteStep(DeleteStep(g1, op, mark), op, removal), op, drop) ==
            AfterDelete(f, op, id, false, mark, removal, drop)
  {
  }

  lemma RunDelete(f: Files, op: nat, id: FileId, lookup: Outcome, mark: Outcome, removal: Outcome, drop: Outcome)
    requires op !in f.deletes
    ensures Run(f, [StartDelete(op, id), DeleteCall(op, lookup), DeleteCall(op, mark), DeleteCall(op, removal),
                    DeleteCall(op, drop)]) ==
            AfterDelete(f, op, id, lookup == Done && id in f.rows, mark, removal, drop)
  {
    RunDeleteSteps(f, op, id, lookup, mark, removal, drop);
    if lookup == Done && id in f.rows {
      FoundSteps(f, op, id, mark, removal, drop);
    } else {
      NotFoundSteps(f, op, id, lookup, mark, removal, drop);
    }
  }

  // ---- the service -----------------------------------------------------------------

  /** The request's bytes in a temporary file, and the first of them for sniffing: the
      head is read first, the rest is copied after it. */
  method SpoolToTempFile(source: Bytes, expectedSize: int, fault: bool) returns (r: Option<Reader>, head: Bytes)
    ensures r.Some? <==> !fault && source != [] && |source| == expectedSize
    ensures r.Some? ==> fresh(r.value) && r.value.data == source && r.value.pos == |source|
    ensures r.Some? ==> head == source[..if |source| < SNIFF_SIZE then |source| else SNIFF_SIZE]
  {
    head := source[..if |source| < SNIFF_SIZE then |source| else SNIFF_SIZE];
    if fault || head == [] { return None, head; }
    var written := head;
    var tail := source[|head|..];
    written := written + tail;
    var totalSize := |head| + |tail|;
    if totalSize != expectedSize { return None, head; }
    assert written == source;
    var file := new Reader(written);
    r := Some(file);
  }

  class Service {
    var rows: map<FileId, Row>
    const storage: Storage
    const maxFileSize: int
    const allowedMime: set<string>
    const sanitize: string -> string
    const detectMime: (Bytes, string) -> string
    /** Everything ever uploaded and deleted here: a state of the machine. */
    ghost var history: Files

    /** The rows and objects are those of the history, and the history is in order. */
    ghost predicate Valid()
      reads this, storage
    {
      Inv(history) && history.rows == rows && history.objects == storage.objects
    }

    constructor (storage: Storage, maxFileSize: int, allowedMime: set<string>, sanitize: string -> string,
                 detectMime: (Bytes, string) -> string)
      requires storage.objects == map[]
      ensures Valid() && this.storage == storage && history == NO_FILES
    {
      this.storage := storage;
      this.maxFileSize := maxFileSize;
      this.allowedMime := allowedMime;
      this.sanitize := sanitize;
      this.detectMime := detectMime;
      rows := map[];
      history := NO_FILES;
    }

    /** Put the object, insert the row, clean up if that fails, read the row back. */
    method Upload(request: UploadRequest, id: FileId, key: ObjectKey, faults: UploadFaults)
      returns (r: Result<StoredFile, ServiceError>)
      requires Valid() && id !in history.uploads && key.id == id
      modifies this`rows, this`history, storage`objects
      ensures Valid()
      // what is refused, and that a refusal changes nothing
      ensures r == Failure(TooLarge) <==> request.content.Some? && request.size > maxFileSize && request.size > 0
      ensures r == Failure(InvalidUpload) <==>
              request.content.None? || request.size <= 0 ||
              (request.size <= maxFileSize &&
               (sanitize(request.filename) == "" || faults.spool || |request.content.value| != request.size))
      ensures r == Failure(MimeNotAllowed) <==>
              && request.content.Some? && 0 < request.size <= maxFileSize && sanitize(request.filename) != ""
              && !faults.spool && |request.content.value| == request.size
              && detectMime(request.content.value[..if request.size < 512 then request.size else 512],
                            request.declaredMime) !in allowedMime
      ensures r in {Failure(InvalidUpload), Failure(TooLarge), Failure(MimeNotAllowed)} ==>
                rows == old(rows) && storage.objects == old(storage.objects) && history == old(history)
      // what is accepted: one upload in the machine, under the sanitized name and the detected type
      ensures r !in {Failure(InvalidUpload), Failure(TooLarge), Failure(MimeNotAllowed)} ==>
                var content := request.content.value;
                var info := FileInfo(sanitize(request.filename),
                                     detectMime(content[..if |content| < 512 then |content| else 512],
                                                request.declaredMime));
                var putError := Retried(faults.put, 0, storage.maxRetries, Unavailable);
                && history == Run(old(history), UploadEvents(id, key, info, content, faults, storage.maxRetries))
                // the row stays exactly if the put and the insert worked, even when reading it back fails
                && rows == (if putError.None? && !faults.create
                            then old(rows)[id := Row(key, info, |content|, true)] else old(rows))
                && storage.objects ==
                   (if !Applied(faults.put, 0, storage.maxRetries) then old(storage.objects)
                    else if putError.None? && faults.create && Applied(faults.cleanup, 0, storage.maxRetries)
                    then old(storage.objects) - {key}
                    else old(storage.objects)[key := content])
                && r == (if putError.Some? then Failure(StorageFailed(putError.value))
                         else if faults.create || faults.readBack then Failure(MetadataUnavailable)
                         else Success(StoredFile(id, key, info.filename, info.mime, |content|)))
    {
      if request.content.None? { return Failure(InvalidUpload); }
      if request.size <= 0 { return Failure(InvalidUpload); }
      if request.size > maxFileSize { return Failure(TooLarge); }
      var filename := sanitize(request.filename);
      if filename == "" { return Failure(InvalidUpload); }
      var spooled, head := SpoolToTempFile(request.content.value, request.size, faults.spool);
      if spooled.None? { return Failure(InvalidUpload); }
      var tempFile := spooled.value;
      tempFile.SeekStart();
      var mime := detectMime(head, request.declaredMime);
      if mime !in allowedMime { return Failure(MimeNotAllowed); }
      var error := StoreUpload(tempFile, id, key, FileInfo(filename, mime), faults);
      if error.Some? { return Failure(error.value); }
      r := Success(FileAt(id));
    }

    /** A row as the service answers with it. */
    function FileAt(id: FileId): StoredFile
      requires id in rows
      reads this
    {
      StoredFile(id, rows[id].key, rows[id].info.filename, rows[id].info.mime, rows[id].size)
    }

    /** What the three calls of an upload leave and answer. */
    ghost predicate UploadDone(rows0: map<FileId, Row>, objects0: map<ObjectKey, Bytes>, data: Bytes, id: FileId,
                               key: ObjectKey, info: FileInfo, faults: UploadFaults, error: Option<ServiceError>)
      reads this, storage
    {
      var putError := Retried(faults.put, 0, storage.maxRetries, Unavailable);
      && rows == (if putError.None? && !faults.create then rows0[id := Row(key, info, |data|, true)] else rows0)
      && storage.objects ==
         (if !Applied(faults.put, 0, storage.maxRetries) then objects0
          else if putError.None? && faults.create && Applied(faults.cleanup, 0, storage.maxRetries)
          then objects0 - {key}
          else objects0[key := data])
      && error == (if putError.Some? then Some(StorageFailed(putError.value))
                   else if faults.create || faults.readBack then Some(MetadataUnavailable) else None)
    }

    /** The three calls of an upload whose file is spooled and accepted. */
    method StoreUpload(tempFile: Reader, id: FileId, key: ObjectKey, info: FileInfo, faults: UploadFaults)
      returns (error: Option<ServiceError>)
      requires Valid() && id !in history.uploads && key.id == id && tempFile.pos <= |tempFile.data|
      modifies this`rows, this`history, storage`objects, tempFile`pos
      ensures Valid()
      ensures history == Run(old(history), UploadEvents(id, key, info, tempFile.data, faults, storage.maxRetries))
      ensures UploadDone(old(rows), old(storage.objects), tempFile.data, id, key, info, faults, error)
    {
      UploadRuns(history, id, key, info, tempFile.data, faults, storage.maxRetries);
      history := Run(history, UploadEvents(id, key, info, tempFile.data, faults, storage.maxRetries));
      error := UploadCalls(tempFile, id, key, info, faults);
    }

    method UploadCalls(tempFile: Reader, id: FileId, key: ObjectKey, info: FileInfo, faults: UploadFaults)
      returns (error: Option<ServiceError>)
      requires tempFile.pos <= |tempFile.data|
      modifies this`rows, storage`objects, tempFile`pos
      ensures UploadDone(old(rows), old(storage.objects), tempFile.data, id, key, info, faults, error)
    {
      var putErr := storage.PutObject(key, tempFile, |tempFile.data|, faults.put);
      assert tempFile.data[..|tempFile.data|] == tempFile.data;
      OutcomesApply(faults.put, storage.maxRetries);
      if putErr.Some? { return Some(StorageFailed(putErr.value)); }
      if faults.create {
        var cleanupErr := storage.DeleteObject(key, faults.cleanup);
        assert old(storage.objects)[key := tempFile.data] - {key} == old(storage.objects) - {key};
        return Some(MetadataUnavailable);
      }
      rows := rows[id := Row(key, info, |tempFile.data|, true)];
      if faults.readBack { return Some(MetadataUnavailable); }
      error := None;
    }

    method MarkDeleted(id: FileId, outcome: Outcome) returns (ok: bool)
      modifies this`rows
      ensures ok == (outcome == Done)
      ensures rows == if TookEffect(outcome) then Unlive(old(rows), id) else old(rows)
    {
      if TookEffect(outcome) && id in rows {
        rows := rows[id := rows[id].(live := false)];
      }
      ok := outcome == Done;
    }

    method DeleteRow(id: FileId, outcome: Outcome) returns (ok: bool)
      modifies this`rows
      ensures ok == (outcome == Done && id in old(rows))
      ensures rows == if TookEffect(outcome) then old(rows) - {id} else old(rows)
    {
      ok := outcome == Done && id in rows;
      if TookEffect(outcome) { rows := rows - {id}; }
    }

    /** Mark the row, remove the object, remove the row; a missing object is not an error. */
    method Delete(id: FileId, faults: DeleteFaults, ghost op: nat) returns (r: Result<(), ServiceError>)
      requires Valid() && op !in history.deletes
      modifies this`rows, this`history, storage`objects
      ensures Valid()
      ensures history == Run(old(history), DeleteEvents(op, id, faults, storage.maxRetries))
      // exactly when it succeeds, and which error answers what
      ensures r.Success? <==>
              && !faults.lookup && id in old(rows) && faults.mark == Done
              && Retried(faults.remove, 0, storage.maxRetries, Unavailable) in {None, Some(NotFound)}
              && faults.drop == Done
      ensures r == Failure(MissingFile) <==> !faults.lookup && id !in old(rows)
      ensures !faults.lookup && id in old(rows) && faults.mark == Done ==>
                var error := Retried(faults.remove, 0, storage.maxRetries, Unavailable);
                error !in {None, Some(NotFound)} ==> r == Failure(StorageFailed(error.value))
      // the row is left, marked, or removed, as far as its calls took effect; nothing else changes
      ensures faults.lookup || id !in old(rows) || faults.mark !in {Done, DoneButLost} ==> rows == old(rows)
      ensures !faults.lookup && id in old(rows) && faults.mark in {Done, DoneButLost} ==>
                rows == if && faults.mark == Done
                           && Retried(faults.remove, 0, storage.maxRetries, Unavailable) in {None, Some(NotFound)}
                           && faults.drop in {Done, DoneButLost}
                        then old(rows) - {id} else old(rows)[id := old(rows)[id].(live := false)]
      ensures storage.objects ==
              if && !faults.lookup && id in old(rows) && faults.mark == Done
                 && Applied(faults.remove, 0, storage.maxRetries)
              then old(storage.objects) - {old(rows)[id].key} else old(storage.objects)
    {
      DeleteRuns(history, op, id, faults, storage.maxRetries);
      history := Run(history, DeleteEvents(op, id, faults, storage.maxRetries));
      r := DeleteCalls(id, faults);
    }

    /** The four calls of a delete. */
    method DeleteCalls(id: FileId, faults: DeleteFaults) returns (r: Result<(), ServiceError>)
      modifies this`rows, storage`objects
      ensures rows == RowsAfter(old(rows), id, !faults.lookup && id in old(rows), faults.mark,
                                RemoveOutcome(faults.remove, storage.maxRetries), faults.drop)
      // exactly when it succeeds, and which error answers what
      ensures r.Success? <==>
              && !faults.lookup && id in old(rows) && faults.mark == Done
              && Retried(faults.remove, 0, storage.maxRetries, Unavailable) in {None, Some(NotFound)}
              && faults.drop == Done
      ensures r == Failure(MissingFile) <==> !faults.lookup && id !in old(rows)
      ensures !faults.lookup && id in old(rows) && faults.mark == Done ==>
                var error := Retried(faults.remove, 0, storage.maxRetries, Unavailable);
                error !in {None, Some(NotFound)} ==> r == Failure(StorageFailed(error.value))
      // the row is left, marked, or removed, as far as its calls took effect; nothing else changes
      ensures faults.lookup || id !in old(rows) || faults.mark !in {Done, DoneButLost} ==> rows == old(rows)
      ensures !faults.lookup && id in old(rows) && faults.mark in {Done, DoneButLost} ==>
                rows == if && faults.mark == Done
                           && Retried(faults.remove, 0, storage.maxRetries, Unavailable) in {None, Some(NotFound)}
                           && faults.drop in {Done, DoneButLost}
                        then old(rows) - {id} else old(rows)[id := old(rows)[id].(live := false)]
      ensures storage.objects ==
              if && !faults.lookup && id in old(rows) && faults.mark == Done
                 && Applied(faults.remove, 0, storage.maxRetries)
              then old(storage.objects) - {old(rows)[id].key} else old(storage.objects)
    {
      RemovalMeans(faults.remove, storage.maxRetries);
      if faults.lookup { return Failure(MetadataUnavailable); }
      if id !in rows { return Failure(MissingFile); }
      var key := rows[id].key;
      var marked := MarkDeleted(id, faults.mark);
      if !marked { return Failure(MetadataUnavailable); }
      assert Unlive(old(rows), id) - {id} == old(rows) - {id};
      r := RemoveMarked(id, key, faults);
    }

    /** The object, then the row. */
    method RemoveMarked(id: FileId, key: ObjectKey, faults: DeleteFaults) returns (r: Result<(), ServiceError>)
      requires id in rows
      modifies this`rows, storage`objects
      ensures var removal := RemoveOutcome(faults.remove, storage.maxRetries);
              && (r.Success? <==> GoesOn(Done, removal) && faults.drop == Done)
              && rows == (if GoesOn(Done, removal) && TookEffect(faults.drop) then old(rows) - {id} else old(rows))
      ensures storage.objects ==
              if Applied(faults.remove, 0, storage.maxRetries) then old(storage.objects) - {key}
              else old(storage.objects)
      ensures r != Failure(MissingFile)
      ensures var error := Retried(faults.remove, 0, storage.maxRetries, Unavailable);
              error !in {None, Some(NotFound)} ==> r == Failure(StorageFailed(error.value))
    {
      OutcomesApply(faults.remove, storage.maxRetries);
      var err := storage.DeleteObject(key, faults.remove);
      if err.Some? && err.value != NotFound { return Failure(StorageFailed(err.value)); }
      var dropped := DeleteRow(id, faults.drop);
      r := if dropped then Success(()) else Failure(MetadataUnavailable);
    }

    /** The row by id if live, then its object. */
    method GetContent(id: FileId, lookupFault: bool, script: seq<Attempt>) returns (r: Result<Content, ServiceError>)
      requires Valid()
      ensures r.Success? <==>
              && !lookupFault && Retried(script, 0, storage.maxRetries, Unavailable).None?
              && id in rows && rows[id].live
      ensures r == Failure(MissingFile) <==> !lookupFault && !(id in rows && rows[id].live)
      // name, type, size and bytes are those of the upload
      ensures r.Success? ==>
              && id in history.uploads && r.value.body == history.uploads[id].bytes
              && r.value.file.id == id && r.value.file.key == history.uploads[id].key
              && r.value.file.filename == history.uploads[id].info.filename
              && r.value.file.mime == history.uploads[id].info.mime && r.value.file.size == |r.value.body|
    {
      assert id in rows ==> RowOk(history, id);
      if lookupFault { return Failure(MetadataUnavailable); }
      if id !in rows || !rows[id].live { return Failure(MissingFile); }
      var found := storage.GetObject(rows[id].key, script);
      match found {
        case Failure(e) => r := Failure(StorageFailed(e));
        case Success(bytes) => r := Success(Content(FileAt(id), bytes));
      }
    }
  }

  lemma UploadRuns(f: Files, id: FileId, key: ObjectKey, info: FileInfo, bytes: Bytes, faults: UploadFaults, max: nat)
    requires Inv(f) && id !in f.uploads && key.id == id
    ensures var put := PutOutcome(faults.put, max);
            var g := Run(f, UploadEvents(id, key, info, bytes, faults, max));
            && Inv(g)
            && g.rows == (if put == Done && !faults.create then f.rows[id := Row(key, info, |bytes|, true)] else f.rows)
            && g.objects == (if !Applied(faults.put, 0, max) then f.objects
                             else if put == Done && faults.create && Applied(faults.cleanup, 0, max)
                             then f.objects - {key}
                             else f.objects[key := bytes])
  {
    assert id in f.rows ==> RowOk(f, id);
    RunKeepsInv(f, UploadEvents(id, key, info, bytes, faults, max));
    OutcomesApply(faults.put, max);
    OutcomesApply(faults.cleanup, max);
    RunUpload(f, id, key, info, bytes, PutOutcome(faults.put, max), if faults.create then NotDone else Done,
              LastOutcome(faults, max));
  }

  lemma DeleteRuns(f: Files, op: nat, id: FileId, faults: DeleteFaults, max: nat)
    requires Inv(f) && op !in f.deletes
    ensures var found := !faults.lookup && id in f.rows;
            var removal := RemoveOutcome(faults.remove, max);
            var g := Run(f, DeleteEvents(op, id, faults, max));
            Inv(g) && g == AfterDelete(f, op, id, found, faults.mark, removal, faults.drop)
    ensures TookEffect(RemoveOutcome(faults.remove, max)) <==> Applied(faults.remove, 0, max)
  {
    RunKeepsInv(f, DeleteEvents(op, id, faults, max));
    OutcomesApply(faults.remove, max);
    RunDelete(f, op, id, if faults.lookup then NotDone else Done, faults.mark, RemoveOutcome(faults.remove, max),
              faults.drop);
  }

  // ---- deletes can be resumed --------------------------------------------------------

  /** Every call of the delete works; its removal may take several attempts. */
  predicate Clean(faults: DeleteFaults, max: nat) {
    !faults.lookup && faults.mark == Done && Retried(faults.remove, 0, max, Unavailable).None? && faults.drop == Done
  }

  /** No delete adds a trace, whatever fails in it. */
  lemma DeleteAddsNoTrace(f: Files, op: nat, id: FileId, faults: DeleteFaults, max: nat)
    requires Inv(f) && op !in f.deletes && id in f.uploads
    ensures var g := Run(f, DeleteEvents(op, id, faults, max));
            && id in g.uploads && g.uploads[id].key == f.uploads[id].key
            && (id in g.rows ==> id in f.rows && (g.rows[id].live ==> f.rows[id].live))
            && (g.uploads[id].key in g.objects ==> g.uploads[id].key in f.objects)
  {
    DeleteRuns(f, op, id, faults, max);
    assert id in f.rows ==> RowOk(f, id);
  }

  /** Resumable delete: from every state of an uploaded file, in particular after a delete
      that failed or stopped at any call, or whose last answer was lost, a clean delete
      leaves no row, and no object either unless the store had once reported it missing. */
  lemma DeleteResumes(f: Files, op: nat, id: FileId, faults: DeleteFaults, max: nat)
    requires Inv(f) && op !in f.deletes && id in f.uploads && Inserted(f.uploads[id]) && Clean(faults, max)
    ensures var g := Run(f, DeleteEvents(op, id, faults, max));
            && Inv(g) && id in g.uploads && id !in g.rows
            && (f.uploads[id].key in g.objects <==> id !in f.rows && f.uploads[id].key in f.objects)
            && (f.uploads[id].key in g.objects ==> ToldMissing(f, id))
  {
    DeleteRuns(f, op, id, faults, max);
    assert UploadOk(f, id, f.uploads[id]);
    assert id in f.rows ==> RowOk(f, id);
  }

  /** Two deletes, the first with any faults, the second clean: no row is left, and the
      object is left exactly if the first one dropped the row on a wrong "not found". */
  lemma TwoDeletes(f: Files, op1: nat, op2: nat, id: FileId, first: DeleteFaults, second: DeleteFaults, max: nat)
    requires Inv(f) && op1 !in f.deletes && op2 !in f.deletes && op1 != op2
    requires id in f.rows && Clean(second, max)
    ensures var g := Run(Run(f, DeleteEvents(op1, id, first, max)), DeleteEvents(op2, id, second, max));
            && id !in g.rows
            && (f.rows[id].key in g.objects <==>
                  && f.rows[id].key in f.objects && !first.lookup && first.mark == Done
                  && RemoveOutcome(first.remove, max) == Missing && TookEffect(first.drop))
  {
    FirstDelete(f, op1, id, first, max);
    SecondDelete(f, op1, op2, id, first, second, max);
  }

  lemma SecondDelete(f: Files, op1: nat, op2: nat, id: FileId, first: DeleteFaults, second: DeleteFaults, max: nat)
    requires Inv(f) && op1 !in f.deletes && op2 !in f.deletes && op1 != op2
    requires id in f.rows && Clean(second, max)
    ensures var h := Run(f, DeleteEvents(op1, id, first, max));
            var g := Run(h, DeleteEvents(op2, id, second, max));
            id !in g.rows && (f.rows[id].key in g.objects <==> id !in h.rows && f.rows[id].key in h.objects)
  {
    FirstDelete(f, op1, id, first, max);
    RunKeepsInv(f, DeleteEvents(op1, id, first, max));
    DeleteResumes(Run(f, DeleteEvents(op1, id, first, max)), op2, id, second, max);
  }

  /** What one delete of a file with a row leaves of it. */
  lemma FirstDelete(f: Files, op: nat, id: FileId, faults: DeleteFaults, max: nat)
    requires Inv(f) && op !in f.deletes && id in f.rows
    ensures var h := Run(f, DeleteEvents(op, id, faults, max));
            var removal := RemoveOutcome(faults.remove, max);
            && h.uploads == f.uploads && id in f.uploads && Inserted(f.uploads[id])
            && f.rows[id].key == f.uploads[id].key && h.deletes.Keys == f.deletes.Keys + {op}
            && (id !in h.rows <==> !faults.lookup && GoesOn(faults.mark, removal) && TookEffect(faults.drop))
            && (f.rows[id].key in h.objects <==>
                  f.rows[id].key in f.objects && !(!faults.lookup && faults.mark == Done && TookEffect(removal)))
  {
    assert RowOk(f, id);
    DeleteRuns(f, op, id, faults, max);
  }

  /** Upload then read: whatever attempts failed on the way, before or after consuming
      part of the file, the content read back is the request's, its length is Size, and name
      and type are those the upload was answered with. */
  method UploadThenGetContent(service: Service, request: UploadRequest, id: FileId, key: ObjectKey,
                              faults: UploadFaults, lookupFault: bool, script: seq<Attempt>)
    returns (stored: Result<StoredFile, ServiceError>, content: Result<Content, ServiceError>)
    requires service.Valid() && id !in service.history.uploads && key.id == id
    modifies service`rows, service`history, service.storage`objects
    ensures stored.Success? && content.Success? ==>
            && Some(content.value.body) == request.content && |content.value.body| == request.size
            && content.value.file == stored.value && stored.value.size == request.size
    ensures stored.Success? && !lookupFault && Retried(script, 0, service.storage.maxRetries, Unavailable).None? ==>
            content.Success?
  {
    stored := service.Upload(request, id, key, faults);
    SuccessApplies(faults.put, 0, service.storage.maxRetries, Unavailable);
    assert id in service.rows ==> RowOk(service.history, id);
    content := service.GetContent(id, lookupFault, script);
  }
}
