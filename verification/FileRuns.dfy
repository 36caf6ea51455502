/** The file service as a machine: uploads and deletes advance one external call at a
    time, in any interleaving, and each call may fail before or after taking effect. */
module FileRuns {
  import opened Wrappers
  import opened Messages

  /** A file_metadata row; `live` means deleted_at is null. */
  datatype Row = Row(key: ObjectKey, info: FileInfo, size: nat, live: bool)

  /** An ended upload records what it answered, whether it inserted its row, and whether
      it left its object. */
  datatype UploadPc = Putting | Creating | CleaningUp | ReadingBack
                    | UploadEnded(ok: bool, inserted: bool, stored: bool)
  datatype Upload = Upload(key: ObjectKey, info: FileInfo, bytes: Bytes, pc: UploadPc)

  /** An ended delete records what it answered and how far it came: whether it marked the
      row, whether the store told it that the object was missing or it removed the object,
      and whether it dropped the row. */
  datatype DeletePc = LookingUp | Marking(key: ObjectKey) | RemovingObject(key: ObjectKey)
                    | RemovingRow(key: ObjectKey, missing: bool)
                    | DeleteEnded(ok: bool, marked: bool, missing: bool, removed: bool, dropped: bool)
  datatype Delete = Delete(file: FileId, pc: DeletePc)

  datatype Files = Files(rows: map<FileId, Row>, objects: map<ObjectKey, Bytes>,
                         uploads: map<FileId, Upload>, deletes: map<nat, Delete>)

  const NO_FILES := Files(map[], map[], map[], map[])

  /** How one external call goes: it works; it fails without effect; it takes effect and
      its answer is lost; or the store answers, rightly or not, that there is no object. */
  datatype Outcome = Done | NotDone | DoneButLost | Missing

  datatype Event =
    | StartUpload(id: FileId, key: ObjectKey, info: FileInfo, bytes: Bytes)
    | UploadCall(id: FileId, outcome: Outcome)
    | StartDelete(op: nat, file: FileId)
    | DeleteCall(op: nat, outcome: Outcome)

  predicate TookEffect(o: Outcome) {
    o == Done || o == DoneButLost
  }

  function Put(f: Files, id: FileId, u: Upload, pc: UploadPc): Files {
    f.(uploads := f.uploads[id := u.(pc := pc)])
  }

  /** The next call of an upload. A failed insert is taken to have left no row. */
  function UploadStep(f: Files, id: FileId, o: Outcome): Files
    requires id in f.uploads
  {
    var u := f.uploads[id];
    match u.pc
    case Putting =>
      var g := if TookEffect(o) then f.(objects := f.objects[u.key := u.bytes]) else f;
      Put(g, id, u, if o == Done then Creating else UploadEnded(false, false, TookEffect(o)))
    case Creating =>
      if o == Done then Put(f.(rows := f.rows[id := Row(u.key, u.info, |u.bytes|, true)]), id, u, ReadingBack)
      else Put(f, id, u, CleaningUp)
    case CleaningUp =>
      Put(if TookEffect(o) then f.(objects := f.objects - {u.key}) else f, id, u,
          UploadEnded(false, false, !TookEffect(o)))
    case ReadingBack =>
      Put(f, id, u, UploadEnded(o == Done && id in f.rows && f.rows[id].live, true, true))
    case UploadEnded(_, _, _) => f
  }

  function Move(f: Files, op: nat, pc: DeletePc): Files
    requires op in f.deletes
  {
    f.(deletes := f.deletes[op := f.deletes[op].(pc := pc)])
  }

  function Unlive(rows: map<FileId, Row>, id: FileId): map<FileId, Row> {
    if id in rows then rows[id := rows[id].(live := false)] else rows
  }

  /** The next call of a delete. An object reported missing does not stop it; removing a
      missing row is an error, and so is looking one up. */
  function DeleteStep(f: Files, op: nat, o: Outcome): Files
    requires op in f.deletes
  {
    var d := f.deletes[op];
    match d.pc
    case LookingUp =>
      Move(f, op, if o == Done && d.file in f.rows then Marking(f.rows[d.file].key)
                  else DeleteEnded(false, false, false, false, false))
    case Marking(key) =>
      var g := if TookEffect(o) then f.(rows := Unlive(f.rows, d.file)) else f;
      Move(g, op, if o == Done then RemovingObject(key) else DeleteEnded(false, TookEffect(o), false, false, false))
    case RemovingObject(key) =>
      var g := if TookEffect(o) then f.(objects := f.objects - {key}) else f;
      Move(g, op, if o == Done || o == Missing then RemovingRow(key, o == Missing)
                  else DeleteEnded(false, true, false, TookEffect(o), false))
    case RemovingRow(key, missing) =>
      var g := if TookEffect(o) then f.(rows := f.rows - {d.file}) else f;
      Move(g, op, DeleteEnded(o == Done && d.file in f.rows, true, missing, !missing, TookEffect(o)))
    case DeleteEnded(_, _, _, _, _) => f
  }

  function Next(f: Files, e: Event): Files {
    match e
    case StartUpload(id, key, info, bytes) =>
      if id !in f.uploads && key.id == id then f.(uploads := f.uploads[id := Upload(key, info, bytes, Putting)]) else f
    case UploadCall(id, o) => if id in f.uploads then UploadStep(f, id, o) else f
    case StartDelete(op, file) =>
      if op !in f.deletes then f.(deletes := f.deletes[op := Delete(file, LookingUp)]) else f
    case DeleteCall(op, o) => if op in f.deletes then DeleteStep(f, op, o) else f
  }

  function Run(f: Files, events: seq<Event>): Files {
    if events == [] then f else Next(Run(f, events[..|events| - 1]), events[|events| - 1])
  }

  // ---- the invariant ---------------------------------------------------------

  /** The upload has inserted its row. */
  predicate Inserted(u: Upload) {
    u.pc.ReadingBack? || (u.pc.UploadEnded? && u.pc.inserted)
  }

  /** The upload has put its object and not cleaned it up. */
  predicate Stored(u: Upload) {
    u.pc.Creating? || u.pc.CleaningUp? || u.pc.ReadingBack? || (u.pc.UploadEnded? && u.pc.stored)
  }

  /** The delete has marked the row. */
  predicate Marked(d: Delete) {
    d.pc.RemovingObject? || d.pc.RemovingRow? || (d.pc.DeleteEnded? && d.pc.marked)
  }

  /** The delete went on because the store reported the object missing. */
  predicate Told(d: Delete) {
    (d.pc.RemovingRow? && d.pc.missing) || (d.pc.DeleteEnded? && d.pc.missing)
  }

  /** The delete's removal of the object took effect. */
  predicate Removed(d: Delete) {
    (d.pc.RemovingRow? && !d.pc.missing) || (d.pc.DeleteEnded? && d.pc.removed)
  }

  /** The delete's removal of the row took effect. */
  predicate Dropped(d: Delete) {
    d.pc.DeleteEnded? && d.pc.dropped
  }

  predicate Dead(f: Files, file: FileId) {
    file in f.rows ==> !f.rows[file].live
  }

  /** Some delete has marked the file's row. */
  ghost predicate Hit(f: Files, file: FileId) {
    exists op :: op in f.deletes && f.deletes[op].file == file && Marked(f.deletes[op])
  }

  /** Some delete of the file was told that the object was missing. */
  ghost predicate ToldMissing(f: Files, file: FileId) {
    exists op :: op in f.deletes && f.deletes[op].file == file && Told(f.deletes[op])
  }

  ghost predicate RemovedBy(f: Files, file: FileId) {
    exists op :: op in f.deletes && f.deletes[op].file == file && Removed(f.deletes[op])
  }

  ghost predicate DroppedBy(f: Files, file: FileId) {
    exists op :: op in f.deletes && f.deletes[op].file == file && Dropped(f.deletes[op])
  }

  /** A row not marked deleted has its object, with exactly the uploaded bytes. */
  ghost predicate RowOk(f: Files, id: FileId)
    requires id in f.rows
  {
    && id in f.uploads && f.rows[id].key == f.uploads[id].key && f.rows[id].info == f.uploads[id].info
    && Inserted(f.uploads[id])
    && (f.rows[id].live ==>
          && f.uploads[id].key in f.objects && f.objects[f.uploads[id].key] == f.uploads[id].bytes
          && f.rows[id].size == |f.uploads[id].bytes|)
  }

  ghost predicate UploadOk(f: Files, id: FileId, u: Upload) {
    && u.key.id == id
    && (u.pc.Creating? ==> u.key in f.objects && f.objects[u.key] == u.bytes)
    && (u.pc.UploadEnded? ==> (u.pc.ok ==> u.pc.inserted) && (u.pc.inserted ==> u.pc.stored))
    && (Inserted(u) && !Hit(f, id) ==> id in f.rows && f.rows[id].live)
  }

  ghost predicate Found(f: Files, file: FileId, key: ObjectKey) {
    file in f.uploads && Inserted(f.uploads[file]) && f.uploads[file].key == key
  }

  /** The row a delete has found is the upload's; from the mark on it is dead or gone. */
  ghost predicate DeleteOk(f: Files, d: Delete) {
    match d.pc
    case LookingUp => true
    case Marking(key) => Found(f, d.file, key)
    case RemovingObject(key) => Found(f, d.file, key) && Dead(f, d.file)
    case RemovingRow(key, _) => Found(f, d.file, key) && Dead(f, d.file)
    case DeleteEnded(ok, marked, missing, removed, dropped) =>
      && (ok ==> marked && dropped && d.file !in f.rows) && (removed || dropped ==> marked)
      && (dropped ==> removed || missing)
      && (marked ==> d.file in f.uploads && Inserted(f.uploads[d.file]) && Dead(f, d.file))
  }

  ghost predicate Sound(f: Files) {
    && (forall id :: id in f.rows ==> RowOk(f, id))
    && (forall id :: id in f.uploads ==> UploadOk(f, id, f.uploads[id]))
    && (forall op :: op in f.deletes ==> DeleteOk(f, f.deletes[op]))
  }

  /** The row is there exactly if the upload inserted it and no delete dropped it; the
      object exactly if the upload left it and no delete removed it. */
  ghost predicate ExactFor(f: Files, id: FileId)
    requires id in f.uploads
  {
    && (id in f.rows <==> Inserted(f.uploads[id]) && !DroppedBy(f, id))
    && (f.uploads[id].key in f.objects <==> Stored(f.uploads[id]) && !RemovedBy(f, id))
  }

  ghost predicate Exact(f: Files) {
    && (forall key :: key in f.objects ==> key.id in f.uploads)
    && (forall id :: id in f.uploads ==> ExactFor(f, id))
  }

  ghost predicate Inv(f: Files) {
    Sound(f) && Exact(f)
  }

  // ---- one change at a time ----------------------------------------------------

  lemma StoreObject(f: Files, id: FileId)
    requires Sound(f) && id in f.uploads && f.uploads[id].pc.Putting?
    ensures Sound(f.(objects := f.objects[f.uploads[id].key := f.uploads[id].bytes]))
  {
  }

  /** An object may go once no live row and no unfinished insert depends on it. */
  lemma DropObject(f: Files, key: ObjectKey)
    requires Sound(f) && Dead(f, key.id)
    requires key.id in f.uploads ==> !f.uploads[key.id].pc.Creating?
    ensures Sound(f.(objects := f.objects - {key}))
  {
    var g := f.(objects := f.objects - {key});
    forall id | id in g.uploads ensures UploadOk(g, id, g.uploads[id]) {
      assert UploadOk(f, id, f.uploads[id]);
      assert Hit(g, id) <==> Hit(f, id);
    }
    forall id | id in g.rows ensures RowOk(g, id) {
      assert RowOk(f, id) && UploadOk(f, id, f.uploads[id]);
    }
    forall op | op in g.deletes ensures DeleteOk(g, g.deletes[op]) {
      assert DeleteOk(f, f.deletes[op]);
    }
  }

  /** An upload moves on without inserting. */
  lemma SetUploadPc(f: Files, id: FileId, pc: UploadPc)
    requires Sound(f) && id in f.uploads
    requires Inserted(f.uploads[id]) <==> pc.ReadingBack? || (pc.UploadEnded? && pc.inserted)
    requires pc.UploadEnded? ==> (pc.ok ==> pc.inserted) && (pc.inserted ==> pc.stored)
    requires pc.Creating? ==> f.uploads[id].key in f.objects && f.objects[f.uploads[id].key] == f.uploads[id].bytes
    ensures Sound(Put(f, id, f.uploads[id], pc))
  {
    var g := Put(f, id, f.uploads[id], pc);
    forall other | other in g.uploads ensures UploadOk(g, other, g.uploads[other]) {
      assert UploadOk(f, other, f.uploads[other]);
      assert Hit(g, other) <==> Hit(f, other);
    }
    forall other | other in g.rows ensures RowOk(g, other) {
      assert RowOk(f, other);
    }
    forall op | op in g.deletes ensures DeleteOk(g, g.deletes[op]) {
      assert DeleteOk(f, f.deletes[op]);
    }
  }

  lemma InsertRow(f: Files, id: FileId)
    requires Sound(f) && id in f.uploads && f.uploads[id].pc.Creating?
    ensures var u := f.uploads[id];
            Sound(Put(f.(rows := f.rows[id := Row(u.key, u.info, |u.bytes|, true)]), id, u, ReadingBack))
  {
    var u := f.uploads[id];
    var g := Put(f.(rows := f.rows[id := Row(u.key, u.info, |u.bytes|, true)]), id, u, ReadingBack);
    assert UploadOk(f, id, u);
    forall other | other in g.uploads ensures UploadOk(g, other, g.uploads[other]) {
      assert UploadOk(f, other, f.uploads[other]);
      assert Hit(g, other) <==> Hit(f, other);
    }
    forall other | other in g.rows ensures RowOk(g, other) {
      assert other != id ==> RowOk(f, other);
    }
    forall op | op in g.deletes ensures DeleteOk(g, g.deletes[op]) {
      assert DeleteOk(f, f.deletes[op]);
    }
  }

  /** Marks are never forgotten. */
  lemma DeletesGrow(f: Files, g: Files)
    requires forall op :: op in f.deletes ==>
      && op in g.deletes && g.deletes[op].file == f.deletes[op].file
      && (Marked(f.deletes[op]) ==> Marked(g.deletes[op]))
    ensures forall x :: Hit(f, x) ==> Hit(g, x)
  {
  }

  /** A delete moves on to `pc`; its file's row may become dead or go, and nothing else. */
  ghost predicate MayMove(f: Files, op: nat, rows: map<FileId, Row>, pc: DeletePc)
    requires op in f.deletes
  {
    var d, d' := f.deletes[op], f.deletes[op].(pc := pc);
    && (forall x :: x in rows ==> x in f.rows && rows[x] == f.rows[x].(live := rows[x].live))
    && (forall x :: x in f.rows && x != d.file ==> x in rows && rows[x] == f.rows[x])
    && (d.file in rows && rows[d.file].live ==> f.rows[d.file].live)
    && (Marked(d) ==> Marked(d')) && (rows != f.rows ==> Marked(d'))
    && DeleteOk(f.(rows := rows), d')
  }

  lemma UploadsStayOk(f: Files, op: nat, rows: map<FileId, Row>, pc: DeletePc, id: FileId)
    requires op in f.deletes && MayMove(f, op, rows, pc)
    requires id in f.uploads && UploadOk(f, id, f.uploads[id])
    ensures UploadOk(Move(f.(rows := rows), op, pc), id, f.uploads[id])
  {
    var d := f.deletes[op];
    var g := Move(f.(rows := rows), op, pc);
    assert g.deletes[op] == d.(pc := pc);
    DeletesGrow(f, g);
    assert Marked(d.(pc := pc)) ==> Hit(g, d.file);
  }

  lemma DeletesStayOk(f: Files, op: nat, rows: map<FileId, Row>, pc: DeletePc, other: nat)
    requires op in f.deletes && MayMove(f, op, rows, pc)
    requires other in f.deletes && other != op && DeleteOk(f, f.deletes[other])
    ensures DeleteOk(Move(f.(rows := rows), op, pc), f.deletes[other])
  {
  }

  lemma DeleteMoves(f: Files, op: nat, rows: map<FileId, Row>, pc: DeletePc)
    requires Sound(f) && op in f.deletes && MayMove(f, op, rows, pc)
    ensures Sound(Move(f.(rows := rows), op, pc))
  {
    var g := Move(f.(rows := rows), op, pc);
    forall id | id in g.uploads ensures UploadOk(g, id, g.uploads[id]) {
      UploadsStayOk(f, op, rows, pc, id);
    }
    forall id | id in g.rows ensures RowOk(g, id) {
      assert RowOk(f, id);
    }
    forall other | other in g.deletes ensures DeleteOk(g, g.deletes[other]) {
      if other != op { DeletesStayOk(f, op, rows, pc, other); }
    }
  }

  lemma UploadStepKeepsSound(f: Files, id: FileId, o: Outcome)
    requires Sound(f) && id in f.uploads
    ensures Sound(UploadStep(f, id, o))
  {
    var u := f.uploads[id];
    assert UploadOk(f, id, u);
    match u.pc
    case Putting =>
      if TookEffect(o) {
        StoreObject(f, id);
        var g := f.(objects := f.objects[u.key := u.bytes]);
        SetUploadPc(g, id, if o == Done then Creating else UploadEnded(false, false, TookEffect(o)));
      } else {
        SetUploadPc(f, id, UploadEnded(false, false, false));
      }
    case Creating =>
      if o == Done { InsertRow(f, id); } else { SetUploadPc(f, id, CleaningUp); }
    case CleaningUp =>
      if TookEffect(o) {
        assert Dead(f, id);
        DropObject(f, u.key);
        SetUploadPc(f.(objects := f.objects - {u.key}), id, UploadEnded(false, false, false));
      } else {
        SetUploadPc(f, id, UploadEnded(false, false, true));
      }
    case ReadingBack =>
      SetUploadPc(f, id, UploadEnded(o == Done && id in f.rows && f.rows[id].live, true, true));
    case UploadEnded(_, _, _) =>
  }

  lemma LookUpKeepsSound(f: Files, op: nat, o: Outcome)
    requires Sound(f) && op in f.deletes && f.deletes[op].pc.LookingUp?
    ensures Sound(DeleteStep(f, op, o))
  {
    var d := f.deletes[op];
    assert d.file in f.rows ==> RowOk(f, d.file);
    assert f == f.(rows := f.rows);
    DeleteMoves(f, op, f.rows,
                if o == Done && d.file in f.rows then Marking(f.rows[d.file].key)
                else DeleteEnded(false, false, false, false, false));
  }

  lemma MarkKeepsSound(f: Files, op: nat, o: Outcome)
    requires Sound(f) && op in f.deletes && f.deletes[op].pc.Marking?
    ensures Sound(DeleteStep(f, op, o))
  {
    var d := f.deletes[op];
    assert DeleteOk(f, d);
    assert f == f.(rows := f.rows);
    DeleteMoves(f, op, if TookEffect(o) then Unlive(f.rows, d.file) else f.rows,
                if o == Done then RemovingObject(d.pc.key)
                else DeleteEnded(false, TookEffect(o), false, false, false));
  }

  lemma RemoveObjectKeepsSound(f: Files, op: nat, o: Outcome)
    requires Sound(f) && op in f.deletes && f.deletes[op].pc.RemovingObject?
    ensures Sound(DeleteStep(f, op, o))
  {
    var d := f.deletes[op];
    var key := d.pc.key;
    assert DeleteOk(f, d) && UploadOk(f, d.file, f.uploads[d.file]);
    var g := if TookEffect(o) then f.(objects := f.objects - {key}) else f;
    if TookEffect(o) { DropObject(f, key); }
    assert g == g.(rows := g.rows);
    DeleteMoves(g, op, g.rows,
                if o == Done || o == Missing then RemovingRow(key, o == Missing)
                else DeleteEnded(false, true, false, TookEffect(o), false));
  }

  lemma RemoveRowKeepsSound(f: Files, op: nat, o: Outcome)
    requires Sound(f) && op in f.deletes && f.deletes[op].pc.RemovingRow?
    ensures Sound(DeleteStep(f, op, o))
  {
    var d := f.deletes[op];
    assert DeleteOk(f, d);
    assert f == f.(rows := f.rows);
    DeleteMoves(f, op, if TookEffect(o) then f.rows - {d.file} else f.rows,
                DeleteEnded(o == Done && d.file in f.rows, true, d.pc.missing, !d.pc.missing, TookEffect(o)));
  }

  lemma StartUploadKeepsSound(f: Files, id: FileId, key: ObjectKey, info: FileInfo, bytes: Bytes)
    requires Sound(f) && id !in f.uploads && key.id == id
    ensures Sound(f.(uploads := f.uploads[id := Upload(key, info, bytes, Putting)]))
  {
    var g := f.(uploads := f.uploads[id := Upload(key, info, bytes, Putting)]);
    assert forall x :: Hit(g, x) <==> Hit(f, x);
    forall x | x in g.uploads ensures UploadOk(g, x, g.uploads[x]) {
      assert x in f.uploads ==> UploadOk(f, x, f.uploads[x]);
    }
    forall x | x in g.rows ensures RowOk(g, x) {
      assert RowOk(f, x);
    }
    forall op | op in g.deletes ensures DeleteOk(g, g.deletes[op]) {
      assert DeleteOk(f, f.deletes[op]);
    }
  }

  lemma StartDeleteKeepsSound(f: Files, op: nat, file: FileId)
    requires Sound(f) && op !in f.deletes
    ensures Sound(f.(deletes := f.deletes[op := Delete(file, LookingUp)]))
  {
    var g := f.(deletes := f.deletes[op := Delete(file, LookingUp)]);
    DeletesGrow(f, g);
    forall x | x in g.uploads ensures UploadOk(g, x, g.uploads[x]) {
      assert UploadOk(f, x, f.uploads[x]);
    }
    forall x | x in g.rows ensures RowOk(g, x) {
      assert RowOk(f, x);
    }
    forall x | x in g.deletes ensures DeleteOk(g, g.deletes[x]) {
      assert x in f.deletes ==> DeleteOk(f, f.deletes[x]);
    }
  }

  lemma NextKeepsSound(f: Files, e: Event)
    requires Sound(f)
    ensures Sound(Next(f, e))
  {
    match e
    case StartUpload(id, key, info, bytes) =>
      if id !in f.uploads && key.id == id { StartUploadKeepsSound(f, id, key, info, bytes); }
    case StartDelete(op, file) => if op !in f.deletes { StartDeleteKeepsSound(f, op, file); }
    case UploadCall(id, o) => if id in f.uploads { UploadStepKeepsSound(f, id, o); }
    case DeleteCall(op, o) =>
      if op in f.deletes {
        match f.deletes[op].pc {
          case DeleteEnded(_, _, _, _, _) =>
          case LookingUp => LookUpKeepsSound(f, op, o);
          case Marking(_) => MarkKeepsSound(f, op, o);
          case RemovingObject(_) => RemoveObjectKeepsSound(f, op, o);
          case RemovingRow(_, _) => RemoveRowKeepsSound(f, op, o);
        }
      }
  }

  // ---- exactly what is stored ------------------------------------------------------

  /** Marks, removals and drops name the file they are about, whose upload had inserted it. */
  lemma DeleteTraces(f: Files, id: FileId)
    requires Sound(f) && (RemovedBy(f, id) || DroppedBy(f, id))
    ensures id in f.uploads && Inserted(f.uploads[id])
  {
    var op :| op in f.deletes && f.deletes[op].file == id && (Removed(f.deletes[op]) || Dropped(f.deletes[op]));
    assert DeleteOk(f, f.deletes[op]);
  }

  /** An upload's step concerns its own row and object only. */
  ghost predicate UploadTouches(f: Files, g: Files, id: FileId)
    requires id in f.uploads
  {
    && g.deletes == f.deletes && g.uploads.Keys == f.uploads.Keys
    && (forall x :: x in f.uploads && x != id ==> g.uploads[x] == f.uploads[x])
    && (forall x :: x != id ==> (x in g.rows <==> x in f.rows))
    && (forall key :: key != f.uploads[id].key ==> (key in g.objects <==> key in f.objects))
  }

  lemma UploadTouchesOwn(f: Files, id: FileId, o: Outcome)
    requires id in f.uploads
    ensures UploadTouches(f, UploadStep(f, id, o), id)
  {
    UploadFrame(f, id, o);
    match f.uploads[id].pc
    case Putting =>
    case Creating =>
    case CleaningUp =>
    case ReadingBack =>
    case UploadEnded(_, _, _) =>
  }

  lemma OthersStayExact(f: Files, g: Files, id: FileId)
    requires Inv(f) && id in f.uploads && UploadTouches(f, g, id)
    ensures forall x :: x in f.uploads && x != id ==> ExactFor(g, x)
  {
    assert UploadOk(f, id, f.uploads[id]);
    forall x | x in f.uploads && x != id ensures ExactFor(g, x) {
      assert UploadOk(f, x, f.uploads[x]) && ExactFor(f, x);
      assert (RemovedBy(g, x) <==> RemovedBy(f, x)) && (DroppedBy(g, x) <==> DroppedBy(f, x));
    }
  }

  /** The file's own row and object follow the upload's progress. */
  ghost predicate UploadBrings(f: Files, g: Files, id: FileId)
    requires id in f.uploads && id in g.uploads
  {
    var u, v := f.uploads[id], g.uploads[id];
    && v.key == u.key && g.deletes == f.deletes
    && (id in g.rows <==> id in f.rows || (Inserted(v) && !Inserted(u)))
    && (u.key in g.objects <==> if Stored(v) == Stored(u) then u.key in f.objects else Stored(v))
    && (Inserted(u) ==> Inserted(v) && Stored(v) == Stored(u))
  }

  lemma UploadBringsOwn(f: Files, id: FileId, o: Outcome)
    requires id in f.uploads
    ensures id in UploadStep(f, id, o).uploads && UploadBrings(f, UploadStep(f, id, o), id)
  {
    match f.uploads[id].pc
    case Putting =>
    case Creating =>
    case CleaningUp =>
    case ReadingBack =>
    case UploadEnded(_, _, _) =>
  }

  lemma OwnStaysExact(f: Files, g: Files, id: FileId)
    requires Sound(f) && id in f.uploads && id in g.uploads && ExactFor(f, id) && UploadBrings(f, g, id)
    ensures ExactFor(g, id)
  {
    if RemovedBy(f, id) || DroppedBy(f, id) { DeleteTraces(f, id); }
    assert (RemovedBy(g, id) <==> RemovedBy(f, id)) && (DroppedBy(g, id) <==> DroppedBy(f, id));
  }

  /** What one call of a delete takes away. */
  ghost predicate TakesRow(f: Files, g: Files, op: nat)
    requires op in f.deletes && op in g.deletes
  {
    forall x :: x in g.rows <==>
      x in f.rows && !(x == f.deletes[op].file && Dropped(g.deletes[op]) && !Dropped(f.deletes[op]))
  }

  ghost predicate TakesObject(f: Files, g: Files, op: nat)
    requires op in f.deletes && op in g.deletes
  {
    var d := f.deletes[op];
    forall key :: key in g.objects <==>
      key in f.objects &&
      !(d.file in f.uploads && key == f.uploads[d.file].key && Removed(g.deletes[op]) && !Removed(d))
  }

  lemma DeleteTakesRow(f: Files, op: nat, o: Outcome)
    requires op in f.deletes
    ensures op in DeleteStep(f, op, o).deletes && TakesRow(f, DeleteStep(f, op, o), op)
  {
    match f.deletes[op].pc
    case LookingUp =>
    case Marking(_) =>
    case RemovingObject(_) =>
    case RemovingRow(_, _) =>
    case DeleteEnded(_, _, _, _, _) =>
  }

  lemma DeleteTakesObject(f: Files, op: nat, o: Outcome)
    requires op in f.deletes && DeleteOk(f, f.deletes[op])
    ensures op in DeleteStep(f, op, o).deletes && TakesObject(f, DeleteStep(f, op, o), op)
  {
    match f.deletes[op].pc
    case LookingUp =>
    case Marking(_) =>
    case RemovingObject(_) =>
    case RemovingRow(_, _) =>
    case DeleteEnded(_, _, _, _, _) =>
  }

  lemma TracesAfter(f: Files, op: nat, o: Outcome, id: FileId)
    requires op in f.deletes
    ensures var g := DeleteStep(f, op, o);
            && op in g.deletes
            && (RemovedBy(g, id) <==> RemovedBy(f, id) || (id == f.deletes[op].file && Removed(g.deletes[op])))
            && (DroppedBy(g, id) <==> DroppedBy(f, id) || (id == f.deletes[op].file && Dropped(g.deletes[op])))
  {
    DeleteFrame(f, op, o);
    var g := DeleteStep(f, op, o);
    if RemovedBy(f, id) {
      var y :| y in f.deletes && f.deletes[y].file == id && Removed(f.deletes[y]);
      assert y in g.deletes && g.deletes[y].file == id && Removed(g.deletes[y]);
    }
    if DroppedBy(f, id) {
      var y :| y in f.deletes && f.deletes[y].file == id && Dropped(f.deletes[y]);
      assert y in g.deletes && g.deletes[y].file == id && Dropped(g.deletes[y]);
    }
  }

  lemma DeleteStepExact(f: Files, op: nat, o: Outcome, id: FileId)
    requires Sound(f) && op in f.deletes && id in f.uploads && ExactFor(f, id)
    ensures ExactFor(DeleteStep(f, op, o), id)
  {
    var d := f.deletes[op];
    assert UploadOk(f, id, f.uploads[id]);
    assert d.file in f.uploads ==> UploadOk(f, d.file, f.uploads[d.file]);
    DeleteFrame(f, op, o);
    assert DeleteOk(f, d);
    DeleteTakesRow(f, op, o);
    DeleteTakesObject(f, op, o);
    TracesAfter(f, op, o, id);
    assert Removed(d) && id == d.file ==> RemovedBy(f, id);
    assert Dropped(d) && id == d.file ==> DroppedBy(f, id);
  }

  lemma UploadKeepsExact(f: Files, id: FileId, o: Outcome)
    requires Inv(f) && id in f.uploads
    ensures Exact(UploadStep(f, id, o))
  {
    UploadBringsOwn(f, id, o);
    OwnStaysExact(f, UploadStep(f, id, o), id);
    UploadTouchesOwn(f, id, o);
    OthersStayExact(f, UploadStep(f, id, o), id);
    assert UploadOk(f, id, f.uploads[id]);
  }

  lemma DeleteKeepsExact(f: Files, op: nat, o: Outcome)
    requires Inv(f) && op in f.deletes
    ensures Exact(DeleteStep(f, op, o))
  {
    DeleteFrame(f, op, o);
    forall id | id in f.uploads ensures ExactFor(DeleteStep(f, op, o), id) {
      DeleteStepExact(f, op, o, id);
    }
  }

  lemma StartUploadKeepsExact(f: Files, id: FileId, key: ObjectKey, info: FileInfo, bytes: Bytes)
    requires Inv(f) && id !in f.uploads && key.id == id
    ensures Exact(f.(uploads := f.uploads[id := Upload(key, info, bytes, Putting)]))
  {
    var g := f.(uploads := f.uploads[id := Upload(key, info, bytes, Putting)]);
    forall x | x in g.uploads ensures ExactFor(g, x) {
      assert (RemovedBy(g, x) <==> RemovedBy(f, x)) && (DroppedBy(g, x) <==> DroppedBy(f, x));
      assert id in f.rows ==> RowOk(f, id);
      assert x != id ==> ExactFor(f, x);
    }
  }

  lemma StartDeleteKeepsExact(f: Files, op: nat, file: FileId)
    requires Inv(f) && op !in f.deletes
    ensures Exact(f.(deletes := f.deletes[op := Delete(file, LookingUp)]))
  {
    var g := f.(deletes := f.deletes[op := Delete(file, LookingUp)]);
    forall x | x in g.uploads ensures ExactFor(g, x) {
      assert ExactFor(f, x);
      assert forall y :: y in f.deletes ==> g.deletes[y] == f.deletes[y];
      assert (RemovedBy(g, x) <==> RemovedBy(f, x)) && (DroppedBy(g, x) <==> DroppedBy(f, x));
    }
  }

  lemma NextKeepsInv(f: Files, e: Event)
    requires Inv(f)
    ensures Inv(Next(f, e))
  {
    NextKeepsSound(f, e);
    match e
    case StartUpload(id, key, info, bytes) =>
      if id !in f.uploads && key.id == id { StartUploadKeepsExact(f, id, key, info, bytes); }
    case StartDelete(op, file) => if op !in f.deletes { StartDeleteKeepsExact(f, op, file); }
    case UploadCall(id, o) => if id in f.uploads { UploadKeepsExact(f, id, o); }
    case DeleteCall(op, o) => if op in f.deletes { DeleteKeepsExact(f, op, o); }
  }

  /** Every run, from any state in order, stays in order. */
  lemma {:induction false} RunKeepsInv(f: Files, events: seq<Event>)
    requires Inv(f)
    ensures Inv(Run(f, events))
  {
    if events != [] {
      RunKeepsInv(f, events[..|events| - 1]);
      NextKeepsInv(Run(f, events[..|events| - 1]), events[|events| - 1]);
    }
  }

  // ---- what every run keeps ----------------------------------------------------

  /** The two stores agree: in every state of every run a row not marked deleted has its
      object, with exactly the uploaded bytes, and the uploaded name and type and their
      number as its size. */
  lemma LiveRowsHaveObjects(events: seq<Event>, id: FileId)
    ensures var f := Run(NO_FILES, events);
            id in f.rows && f.rows[id].live ==>
              && id in f.uploads && f.rows[id].key in f.objects && f.rows[id].info == f.uploads[id].info
              && f.objects[f.rows[id].key] == f.uploads[id].bytes && f.rows[id].size == |f.uploads[id].bytes|
  {
    RunKeepsInv(NO_FILES, events);
  }

  /** Exactly which files have a live row: those whose upload inserted it and whose row no
      delete has marked. */
  lemma LiveExactly(f: Files, id: FileId)
    requires Inv(f)
    ensures id in f.rows && f.rows[id].live <==> id in f.uploads && Inserted(f.uploads[id]) && !Hit(f, id)
  {
  }

  /** A file no delete was asked for: what its upload left. */
  lemma Untargeted(f: Files, id: FileId)
    requires Inv(f) && id in f.uploads && !Targeted(f, id)
    ensures id in f.rows <==> Inserted(f.uploads[id])
    ensures id in f.rows ==> f.rows[id].live
    ensures f.uploads[id].key in f.objects <==> Stored(f.uploads[id])
  {
    assert !Hit(f, id) && !RemovedBy(f, id) && !DroppedBy(f, id);
    LiveExactly(f, id);
    assert ExactFor(f, id);
  }

  /** A file with one delete: what that delete left of it. */
  lemma TargetedOnce(f: Files, id: FileId, op: nat)
    requires Inv(f) && id in f.uploads && Inserted(f.uploads[id]) && op in f.deletes && f.deletes[op].file == id
    requires forall other :: other in f.deletes && f.deletes[other].file == id ==> other == op
    ensures id in f.rows <==> !Dropped(f.deletes[op])
    ensures id in f.rows && f.rows[id].live <==> !Marked(f.deletes[op])
    ensures f.uploads[id].key in f.objects <==> !Removed(f.deletes[op])
  {
    assert (Hit(f, id) <==> Marked(f.deletes[op])) && (RemovedBy(f, id) <==> Removed(f.deletes[op]));
    assert DroppedBy(f, id) <==> Dropped(f.deletes[op]);
    LiveExactly(f, id);
    assert ExactFor(f, id) && UploadOk(f, id, f.uploads[id]);
  }

  /** A live file reads as uploaded. */
  lemma LiveRowOk(f: Files, id: FileId)
    requires Inv(f) && id in f.rows && f.rows[id].live
    ensures id in f.uploads && GetContent(f, id) == Some(f.uploads[id].bytes)
  {
  }

  /** A row once inserted and now removed has no object, unless the store reported the
      object missing to a delete of that file. */
  lemma RemovedRowHasNoObject(events: seq<Event>, id: FileId)
    ensures var f := Run(NO_FILES, events);
            id in f.uploads && Inserted(f.uploads[id]) && id !in f.rows && !ToldMissing(f, id) ==>
              f.uploads[id].key !in f.objects
  {
    RunKeepsInv(NO_FILES, events);
    var f := Run(NO_FILES, events);
    if id in f.uploads && Inserted(f.uploads[id]) && id !in f.rows { ObjectGoneOrTold(f, id); }
  }

  lemma ObjectGoneOrTold(f: Files, id: FileId)
    requires Inv(f) && id in f.uploads && Inserted(f.uploads[id]) && id !in f.rows
    ensures ToldMissing(f, id) || f.uploads[id].key !in f.objects
  {
    var op :| op in f.deletes && f.deletes[op].file == id && Dropped(f.deletes[op]);
    assert DeleteOk(f, f.deletes[op]);
    assert Told(f.deletes[op]) || Removed(f.deletes[op]);
  }

  /** Exactly what is stored, in every state of every run: a row for each upload that
      inserted it and that no delete dropped; an object for each upload that left it and that
      no delete removed. */
  lemma StoredExactly(events: seq<Event>, id: FileId)
    ensures var f := Run(NO_FILES, events);
            id in f.uploads ==>
              && (id in f.rows <==> Inserted(f.uploads[id]) && !DroppedBy(f, id))
              && (f.uploads[id].key in f.objects <==> Stored(f.uploads[id]) && !RemovedBy(f, id))
  {
    RunKeepsInv(NO_FILES, events);
  }

  /** Reading: the metadata lookup and the object fetch behind GetContent. */
  function GetContent(f: Files, id: FileId): Option<Bytes> {
    if id in f.rows && f.rows[id].live && f.rows[id].key in f.objects then Some(f.objects[f.rows[id].key]) else None
  }

  /** Upload then read: a file is readable exactly while its row
      is live, and reads as the uploaded bytes. */
  lemma ReadsBack(f: Files, id: FileId)
    requires Inv(f)
    ensures GetContent(f, id).Some? <==> id in f.uploads && Inserted(f.uploads[id]) && !Hit(f, id)
    ensures GetContent(f, id).Some? ==>
              && id in f.uploads && GetContent(f, id).value == f.uploads[id].bytes
              && f.rows[id].size == |f.uploads[id].bytes|
  {
  }

  /** In every state of every run: the uploaded bytes, or nothing. */
  lemma RunReadsBack(events: seq<Event>, id: FileId)
    ensures var f := Run(NO_FILES, events);
            GetContent(f, id) ==
            if id in f.uploads && Inserted(f.uploads[id]) && !Hit(f, id) then Some(f.uploads[id].bytes) else None
  {
    RunKeepsInv(NO_FILES, events);
    ReadsBack(Run(NO_FILES, events), id);
  }

  /** What one upload leaves, for all outcomes of its three calls: the row exactly if the
      put and the insert both worked; the object exactly if the put took effect and was
      not cleaned up; success exactly if all three worked. */
  lemma UploadLeaves(f: Files, id: FileId, put: Outcome, insert: Outcome, last: Outcome)
    requires Inv(f) && id in f.uploads && f.uploads[id].pc.Putting?
    ensures var g := UploadStep(UploadStep(UploadStep(f, id, put), id, insert), id, last);
            && (id in g.rows <==> put == Done && insert == Done)
            && (id in g.rows ==> g.rows[id].live)
            && (f.uploads[id].key in g.objects <==>
                  TookEffect(put) && !(put == Done && insert != Done && TookEffect(last)))
            && g.uploads[id].pc == UploadEnded(put == Done && insert == Done && last == Done, id in g.rows,
                                               f.uploads[id].key in g.objects)
  {
  }

  // ---- growth ------------------------------------------------------------------

  ghost predicate Targeted(f: Files, id: FileId) {
    exists op :: op in f.deletes && f.deletes[op].file == id
  }

  /** An upload later on: same key and bytes, an inserted row stays inserted, and an
      ended upload stays as it ended. */
  ghost predicate UploadGrows(u: Upload, v: Upload) {
    && v.key == u.key && v.info == u.info && v.bytes == u.bytes && (Inserted(u) ==> Inserted(v))
    && (u.pc.UploadEnded? ==> v.pc == u.pc)
  }

  /** A delete later on: same file, what it did stays done, and an ended one stays as it ended. */
  ghost predicate DeleteGrows(d: Delete, e: Delete) {
    && e.file == d.file && (d.pc.DeleteEnded? ==> e.pc == d.pc)
    && (Marked(d) ==> Marked(e)) && (Removed(d) ==> Removed(e)) && (Dropped(d) ==> Dropped(e))
  }

  /** Uploads and deletes are never forgotten. */
  ghost predicate CallsGoOn(f: Files, g: Files) {
    && (forall id :: id in f.uploads ==> id in g.uploads && UploadGrows(f.uploads[id], g.uploads[id]))
    && (forall op :: op in f.deletes ==> op in g.deletes && DeleteGrows(f.deletes[op], g.deletes[op]))
  }

  /** And what is removed stays removed. */
  ghost predicate Grows(f: Files, g: Files) {
    && CallsGoOn(f, g)
    && (forall id :: id in f.uploads && Inserted(f.uploads[id]) && id !in f.rows ==> id !in g.rows)
  }

  lemma TracesGrow(f: Files, g: Files)
    requires CallsGoOn(f, g)
    ensures forall x :: Hit(f, x) ==> Hit(g, x)
    ensures forall x :: RemovedBy(f, x) ==> RemovedBy(g, x)
    ensures forall x :: DroppedBy(f, x) ==> DroppedBy(g, x)
  {
  }

  lemma UploadFrame(f: Files, id: FileId, o: Outcome)
    requires id in f.uploads
    ensures var g := UploadStep(f, id, o);
            && g.deletes == f.deletes && g.uploads.Keys == f.uploads.Keys
            && (forall x :: x in f.uploads && x != id ==> g.uploads[x] == f.uploads[x])
            && UploadGrows(f.uploads[id], g.uploads[id])
  {
    match f.uploads[id].pc
    case Putting =>
    case Creating =>
    case CleaningUp =>
    case ReadingBack =>
    case UploadEnded(_, _, _) =>
  }

  lemma DeleteFrame(f: Files, op: nat, o: Outcome)
    requires op in f.deletes
    ensures var g := DeleteStep(f, op, o);
            && g.uploads == f.uploads && g.deletes.Keys == f.deletes.Keys
            && (forall x :: x in f.deletes && x != op ==> g.deletes[x] == f.deletes[x])
            && DeleteGrows(f.deletes[op], g.deletes[op])
  {
    match f.deletes[op].pc
    case LookingUp =>
    case Marking(_) =>
    case RemovingObject(_) =>
    case RemovingRow(_, _) =>
    case DeleteEnded(_, _, _, _, _) =>
  }

  /** Calls in progress do not change who is being deleted. */
  lemma CallTargets(f: Files, e: Event)
    requires e.UploadCall? || e.DeleteCall?
    ensures var g := Next(f, e);
            && g.uploads.Keys == f.uploads.Keys && g.deletes.Keys == f.deletes.Keys
            && (forall op :: op in f.deletes ==> g.deletes[op].file == f.deletes[op].file)
  {
    match e
    case UploadCall(id, o) => if id in f.uploads { UploadFrame(f, id, o); }
    case DeleteCall(op, o) => if op in f.deletes { DeleteFrame(f, op, o); }
  }

  lemma NextGrows(f: Files, e: Event)
    requires Inv(f)
    ensures Grows(f, Next(f, e))
  {
    CallsGrow(f, e);
    NextKeepsInv(f, e);
    TracesGrow(f, Next(f, e));
    forall id | id in f.uploads && Inserted(f.uploads[id]) && id !in f.rows ensures id !in Next(f, e).rows {
      assert ExactFor(f, id) && ExactFor(Next(f, e), id);
    }
  }

  lemma CallsGrow(f: Files, e: Event)
    ensures CallsGoOn(f, Next(f, e))
  {
    match e
    case StartUpload(_, _, _, _) =>
    case UploadCall(id, o) => if id in f.uploads { UploadFrame(f, id, o); }
    case StartDelete(_, _) =>
    case DeleteCall(op, o) => if op in f.deletes { DeleteFrame(f, op, o); }
  }

  // ---- deletion is final ---------------------------------------------------------

  /** The row existed and is marked deleted or removed. */
  ghost predicate Retired(f: Files, id: FileId) {
    id in f.uploads && Inserted(f.uploads[id]) && Dead(f, id)
  }

  ghost predicate StaysRetired(f: Files, g: Files, id: FileId)
    requires Retired(f, id)
  {
    && Retired(g, id) && g.uploads[id].key == f.uploads[id].key
    && (id !in f.rows ==> id !in g.rows)
    && (f.uploads[id].key !in f.objects ==> f.uploads[id].key !in g.objects)
  }

  /** What is retired stays so, as far as uploads and deletes only go on. */
  lemma RetiredStays(f: Files, g: Files, id: FileId)
    requires Inv(f) && Inv(g) && CallsGoOn(f, g) && Retired(f, id)
    ensures StaysRetired(f, g, id)
  {
    TracesGrow(f, g);
    LiveExactly(f, id);
    LiveExactly(g, id);
    assert UploadOk(f, id, f.uploads[id]) && ExactFor(f, id) && ExactFor(g, id);
  }

  /** A soft-deleted row never becomes live again, a removed row never returns, and
      neither does a removed object. */
  lemma {:induction false} DeletionIsFinal(f: Files, events: seq<Event>, id: FileId)
    requires Inv(f) && Retired(f, id)
    ensures Inv(Run(f, events)) && StaysRetired(f, Run(f, events), id)
  {
    if events != [] {
      DeletionIsFinal(f, events[..|events| - 1], id);
      NextKeepsInv(Run(f, events[..|events| - 1]), events[|events| - 1]);
      CallsGrow(Run(f, events[..|events| - 1]), events[|events| - 1]);
      RetiredStays(Run(f, events[..|events| - 1]), Run(f, events), id);
    }
  }
}
