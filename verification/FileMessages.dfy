/** The sequential code of one file-message send: uploads one by one, then the
    transaction, and on any failure one delete for each file uploaded so far. */
module FileMessages {
  import opened Wrappers
  import opened Messages
  import opened Tables
  import opened Saving
  import opened SagaRuns
  import opened MessageStorage

  datatype ClientError = Validation | ServiceDown | OtherError

  datatype SendError = NoFiles | TooManyFiles | CheckFailed | ChatNotFound | SenderNotMember | FileValidation
                     | FileServiceUnavailable | UploadError | SaveFailed

  /** What the send asked of the file service, in order; a delete that was not
      confirmed is logged as failed. */
  datatype Call = UploadCall(index: nat) | DeleteCall(file: FileId, ok: bool)

  /** Every answer the send may get: to the two checks, to its uploads, and to its deletes. */
  datatype Answers = Answers(chatFault: bool, memberFault: bool, uploads: seq<Result<UploadedFile, ClientError>>,
                             deletes: seq<bool>, tx: TxFaults)

  function UploadAnswer(a: Answers, i: nat): Result<UploadedFile, ClientError> {
    if i < |a.uploads| then a.uploads[i] else Failure(ServiceDown)
  }

  /** The files returned before the first failed upload, out of `n` uploads. */
  function Returned(a: Answers, n: nat): seq<UploadedFile> {
    if n == 0 then []
    else
      var front := Returned(a, n - 1);
      if |front| == n - 1 && UploadAnswer(a, n - 1).Success? then front + [UploadAnswer(a, n - 1).value] else front
  }

  lemma {:induction false} ReturnedPrefix(a: Answers, k: nat, n: nat)
    requires k <= n && |Returned(a, k)| < k
    ensures Returned(a, n) == Returned(a, k)
  {
    if k < n { ReturnedPrefix(a, k, n - 1); }
  }

  function UploadCalls(n: nat): seq<Call> {
    seq(n, i requires 0 <= i < n => UploadCall(i))
  }

  function DeleteAnswer(deletes: seq<bool>, i: nat): bool {
    i < |deletes| && deletes[i]
  }

  function DeleteCalls(files: seq<UploadedFile>, deletes: seq<bool>): seq<Call> {
    seq(|files|, i requires 0 <= i < |files| => DeleteCall(files[i].id, DeleteAnswer(deletes, i)))
  }

  function ErrorFor(e: ClientError): SendError {
    match e
    case Validation => FileValidation
    case ServiceDown => FileServiceUnavailable
    case OtherError => UploadError
  }

  /** The files returned are exactly those before the first upload that failed. */
  lemma {:induction false} ReturnedExactly(a: Answers, n: nat)
    ensures |Returned(a, n)| <= n && |Returned(a, n)| <= |a.uploads|
    ensures forall i :: 0 <= i < |Returned(a, n)| ==> a.uploads[i].Success? && Returned(a, n)[i] == a.uploads[i].value
    ensures var k := |Returned(a, n)|; k < n ==> k == |a.uploads| || a.uploads[k].Failure?
  {
    if n > 0 { ReturnedExactly(a, n - 1); }
  }

  lemma MembersAre(t: Tables, chat: int, login: Login)
    ensures login in Members(t, chat) <==> chat in t.members && login in t.members[chat]
  {
  }

  /** A send that failed past its guards: at upload `k`, or at the transaction if all `k`
      files were returned. Its calls are the uploads up to there and one delete per returned
      file, in order, each with the answer it got. */
  ghost predicate FailedAt(a: Answers, files: nat, k: nat, error: SendError, before: seq<Call>, after: seq<Call>) {
    && k <= files && k <= |a.uploads| && (forall i :: 0 <= i < k ==> a.uploads[i].Success?)
    && (k < files && k < |a.uploads| ==>
          && a.uploads[k].Failure?
          && error == (match a.uploads[k].error
                       case Validation => FileValidation
                       case ServiceDown => FileServiceUnavailable
                       case OtherError => UploadError))
    && (k < files && k == |a.uploads| ==> error == FileServiceUnavailable)
    && (k == files ==> error == SaveFailed)
    && var n := if k < files then k + 1 else files;
       |after| == |before| + n + k && after[..|before|] == before
       && (forall i :: 0 <= i < n ==> after[|before| + i] == UploadCall(i))
       && (forall i :: 0 <= i < k ==>
             after[|before| + n + i] == DeleteCall(a.uploads[i].value.id, i < |a.deletes| && a.deletes[i]))
  }

  lemma FailsAt(a: Answers, files: nat, error: SendError, before: seq<Call>, after: seq<Call>)
    requires var got := Returned(a, files);
             && (if |got| < files
                 then UploadAnswer(a, |got|).Failure? && error == ErrorFor(UploadAnswer(a, |got|).error)
                 else error == SaveFailed)
             && after == before + UploadCalls(if |got| < files then |got| + 1 else files) + DeleteCalls(got, a.deletes)
    ensures FailedAt(a, files, |Returned(a, files)|, error, before, after)
  {
    ReturnedExactly(a, files);
  }

  /** The record of a returned file. */
  lemma RecordFields(files: seq<UploadedFile>)
    ensures |Records(files)| == |files|
    ensures forall i :: 0 <= i < |files| ==>
              Records(files)[i] == FileRecord(files[i].id, files[i].filename, files[i].mime, files[i].size,
                                              if NamesImage(files[i].mime) then "image" else "file")
  {
    forall i | 0 <= i < |files|
      ensures Records(files)[i].kind == (if NamesImage(files[i].mime) then "image" else "file")
    {
      ImagesAreRecognised(files[i].mime);
    }
  }

  /** The tables admit the message of these files exactly if ... */
  lemma FilesAdmitted(t: Tables, got: seq<UploadedFile>, chat: int, sender: Login, id: int, now: int)
    ensures Save(t, FileDraft(chat, sender, Records(got)), id, now).Some? <==>
            && chat in t.maxMembers && 0 < id <= 0x7FFF_FFFF && (forall row :: row in t.messages ==> row.id != id)
            && (forall i, j :: 0 <= i < j < |got| ==> got[i].id != got[j].id)
  {
    SaveExactly(t, FileDraft(chat, sender, Records(got)), id, now);
    RecordFields(got);
    assert forall i :: 0 <= i < |got| ==> Records(got)[i].fileId == got[i].id;
  }

  /** ... and then stores these rows ... */
  lemma FilesStored(t: Tables, got: seq<UploadedFile>, chat: int, sender: Login, id: int, now: int)
    requires Save(t, FileDraft(chat, sender, Records(got)), id, now).Some?
    ensures var t' := Save(t, FileDraft(chat, sender, Records(got)), id, now).value;
            && t'.messages == t.messages + [MessageRow(id, chat, sender, "file", None, now)]
            && |t'.attachments| == |t.attachments| + |got| && t'.attachments[..|t.attachments|] == t.attachments
            && forall i :: 0 <= i < |got| ==>
                 t'.attachments[|t.attachments| + i] ==
                 AttachmentRow(id, got[i].id, got[i].filename, got[i].mime, got[i].size,
                               if NamesImage(got[i].mime) then "image" else "file")
  {
    SaveStores(t, FileDraft(chat, sender, Records(got)), id, now);
    RecordFields(got);
  }

  /** ... and shows this payload. */
  lemma FilesShown(got: seq<UploadedFile>, chat: int, sender: Login, id: int, now: int)
    ensures var m := Enrich(PayloadOf(FileDraft(chat, sender, Records(got)), id, now));
            && m.id == id && m.chatId == chat && m.sender == sender && m.kind == "file" && m.content == ""
            && m.createdAt == now && |m.attachments| == |got|
            && forall i :: 0 <= i < |got| ==>
                 m.attachments[i] ==
                 Attachment(got[i].id, got[i].filename, got[i].mime, got[i].size,
                            if NamesImage(got[i].mime) then "image" else "file",
                            "/files/" + got[i].id + "/content", "/files/" + got[i].id + "/download")
  {
    PayloadFields(got);
    EnrichedFields(PayloadOf(FileDraft(chat, sender, Records(got)), id, now));
  }

  lemma SendSucceeds(t: Tables, a: Answers, files: nat, chat: int, sender: Login, id: int, now: int)
    ensures var got := Returned(a, files);
            (&& chat in t.maxMembers && sender in Members(t, chat) && |got| == files && NoFault(a.tx, files)
             && Save(t, FileDraft(chat, sender, Records(got)), id, now).Some?)
            <==>
            && chat in t.maxMembers && chat in t.members && sender in t.members[chat]
            && files <= |a.uploads| && (forall i :: 0 <= i < files ==> a.uploads[i].Success?)
            && !a.tx.begin && !a.tx.message && !a.tx.commit
            && (a.tx.attachment.None? || a.tx.attachment.value >= files)
            && 0 < id <= 0x7FFF_FFFF && (forall row :: row in t.messages ==> row.id != id)
            && (forall i, j :: 0 <= i < j < files ==> a.uploads[i].value.id != a.uploads[j].value.id)
  {
    var got := Returned(a, files);
    ReturnedExactly(a, files);
    MembersAre(t, chat, sender);
    FilesAdmitted(t, got, chat, sender, id, now);
    assert |got| == files ==> forall i :: 0 <= i < files ==> got[i].id == a.uploads[i].value.id;
  }

  class Sender {
    const db: Database
    var calls: seq<Call>

    constructor (db: Database)
      ensures this.db == db && calls == []
    {
      this.db := db;
      calls := [];
    }

    /** Best effort: a failed delete is logged and the loop goes on. */
    method CompensateUploadedFiles(files: seq<UploadedFile>, deletes: seq<bool>)
      modifies this`calls
      ensures calls == old(calls) + DeleteCalls(files, deletes)
      ensures |calls| == |old(calls)| + |files| && calls[..|old(calls)|] == old(calls)
      ensures forall i :: 0 <= i < |files| ==>
                calls[|old(calls)| + i] == DeleteCall(files[i].id, i < |deletes| && deletes[i])
    {
      for i := 0 to |files|
        invariant calls == old(calls) + DeleteCalls(files[..i], deletes)
      {
        var ok := DeleteAnswer(deletes, i);
        calls := calls + [DeleteCall(files[i].id, ok)];
        assert DeleteCalls(files[..i + 1], deletes) == DeleteCalls(files[..i], deletes) + [DeleteCall(files[i].id, ok)];
      }
      assert files[..|files|] == files;
    }

    /** The checks that precede the first upload. */
    predicate Admitted(chat: int, sender: Login, files: nat, a: Answers)
      reads db
    {
      && 0 < files <= MAX_FILES_PER_MESSAGE && !a.chatFault && !a.memberFault
      && chat in db.maxMembers && sender in Members(db.View(), chat)
    }

    /** One send, seen from outside: every condition and every effect in terms of the request,
        the answers and the tables. */
    method SendFileMessage(chat: int, sender: Login, files: nat, a: Answers, id: int, now: int)
      returns (r: Result<Message, SendError>)
      requires WellFormed(db.View())
      modifies this`calls, db`messages, db`attachments
      ensures WellFormed(db.View())
      // it succeeds exactly if the guards pass, every upload answers, no call of the transaction
      // fails, and the tables admit the message
      ensures r.Success? <==>
              && 0 < files <= 10 && !a.chatFault && !a.memberFault
              && chat in db.maxMembers && chat in db.members && sender in db.members[chat]
              && files <= |a.uploads| && (forall i :: 0 <= i < files ==> a.uploads[i].Success?)
              && !a.tx.begin && !a.tx.message && !a.tx.commit
              && (a.tx.attachment.None? || a.tx.attachment.value >= files)
              && 0 < id <= 0x7FFF_FFFF && (forall row :: row in old(db.messages) ==> row.id != id)
              && (forall i, j :: 0 <= i < j < files ==> a.uploads[i].value.id != a.uploads[j].value.id)
      // then one message row and one attachment row per returned file are added, in order
      ensures r.Success? ==>
              && db.messages == old(db.messages) + [MessageRow(id, chat, sender, "file", None, now)]
              && |db.attachments| == |old(db.attachments)| + files
              && db.attachments[..|old(db.attachments)|] == old(db.attachments)
              && forall i :: 0 <= i < files ==>
                   var u := a.uploads[i].value;
                   db.attachments[|old(db.attachments)| + i] ==
                   AttachmentRow(id, u.id, u.filename, u.mime, u.size, if NamesImage(u.mime) then "image" else "file")
      // and the payload shows the same, with the links
      ensures r.Success? ==>
              && r.value.id == id && r.value.chatId == chat && r.value.sender == sender && r.value.kind == "file"
              && r.value.content == "" && r.value.createdAt == now && |r.value.attachments| == files
              && forall i :: 0 <= i < files ==>
                   var u := a.uploads[i].value;
                   r.value.attachments[i] ==
                   Attachment(u.id, u.filename, u.mime, u.size, if NamesImage(u.mime) then "image" else "file",
                              "/files/" + u.id + "/content", "/files/" + u.id + "/download")
      // after one call for each upload, and no delete
      ensures r.Success? ==>
              && |calls| == |old(calls)| + files && calls[..|old(calls)|] == old(calls)
              && forall i :: 0 <= i < files ==> calls[|old(calls)| + i] == UploadCall(i)
      // otherwise nothing is stored, and the first thing to go wrong names the error
      ensures r.Failure? ==> db.View() == old(db.View())
      ensures r == Failure(NoFiles) <==> files == 0
      ensures r == Failure(TooManyFiles) <==> files > 10
      ensures 0 < files <= 10 ==>
              && (r == Failure(CheckFailed) <==> a.chatFault || (chat in db.maxMembers && a.memberFault))
              && (r == Failure(ChatNotFound) <==> !a.chatFault && chat !in db.maxMembers)
              && (r == Failure(SenderNotMember) <==>
                    && !a.chatFault && chat in db.maxMembers && !a.memberFault
                    && !(chat in db.members && sender in db.members[chat]))
      ensures r.Failure? && r.error in {NoFiles, TooManyFiles, CheckFailed, ChatNotFound, SenderNotMember} ==>
              calls == old(calls)
      // past the guards: the files before the first failed upload, or all of them, are deleted again
      ensures r.Failure? && r.error !in {NoFiles, TooManyFiles, CheckFailed, ChatNotFound, SenderNotMember} ==>
              exists k :: 0 <= k <= files && FailedAt(a, files, k, r.error, old(calls), calls)
    {
      r := Send(chat, sender, files, a, id, now);
      ReturnedExactly(a, files);
      MembersAre(old(db.View()), chat, sender);
      SendSucceeds(old(db.View()), a, files, chat, sender, id, now);
      ghost var got := Returned(a, files);
      if r.Success? {
        FilesStored(old(db.View()), got, chat, sender, id, now);
        FilesShown(got, chat, sender, id, now);
      }
      if r.Failure? && r.error !in {NoFiles, TooManyFiles, CheckFailed, ChatNotFound, SenderNotMember} {
        FailsAt(a, files, r.error, old(calls), calls);
      }
    }

    method Send(chat: int, sender: Login, files: nat, a: Answers, id: int, now: int)
      returns (r: Result<Message, SendError>)
      requires WellFormed(db.View())
      modifies this`calls, db`messages, db`attachments
      ensures WellFormed(db.View())
      ensures db.maxMembers == old(db.maxMembers) && db.members == old(db.members)
      ensures r.Success? <==>
              && old(Admitted(chat, sender, files, a)) && |Returned(a, files)| == files && NoFault(a.tx, files)
              && Save(old(db.View()), FileDraft(chat, sender, Records(Returned(a, files))), id, now).Some?
      // success: every file attached in input order, the payload enriched, nothing deleted
      ensures r.Success? ==>
              var d := FileDraft(chat, sender, Records(Returned(a, files)));
              && db.View() == Save(old(db.View()), d, id, now).value
              && r.value == Enrich(PayloadOf(d, id, now))
              && calls == old(calls) + UploadCalls(files)
      // the error says which stage failed
      ensures files == 0 ==> r == Failure(NoFiles)
      ensures files > MAX_FILES_PER_MESSAGE ==> r == Failure(TooManyFiles)
      ensures 0 < files <= MAX_FILES_PER_MESSAGE ==>
              && (r == Failure(CheckFailed) <==> a.chatFault || (chat in db.maxMembers && a.memberFault))
              && (r == Failure(ChatNotFound) <==> !a.chatFault && chat !in db.maxMembers)
              && (r == Failure(SenderNotMember) <==>
                    && !a.chatFault && chat in db.maxMembers && !a.memberFault
                    && sender !in old(Members(db.View(), chat)))
      ensures old(Admitted(chat, sender, files, a)) && r.Failure? ==>
              var got := Returned(a, files);
              if |got| < files then
                UploadAnswer(a, |got|).Failure? && r.error == ErrorFor(UploadAnswer(a, |got|).error)
              else r.error == SaveFailed
      // failure: no message row; one delete per returned file, in upload order, after the uploads
      ensures r.Failure? ==> db.View() == old(db.View())
      ensures r.Failure? ==>
              calls == if !old(Admitted(chat, sender, files, a)) then old(calls)
                       else var got := Returned(a, files);
                            old(calls) + UploadCalls(if |got| < files then |got| + 1 else files)
                            + DeleteCalls(got, a.deletes)
    {
      if files == 0 { return Failure(NoFiles); }
      if files > MAX_FILES_PER_MESSAGE { return Failure(TooManyFiles); }
      if a.chatFault { return Failure(CheckFailed); }
      if chat !in db.maxMembers { return Failure(ChatNotFound); }
      if a.memberFault { return Failure(CheckFailed); }
      if sender !in Members(db.View(), chat) { return Failure(SenderNotMember); }
      var uploaded: seq<UploadedFile> := [];
      for index := 0 to files
        invariant uploaded == Returned(a, index) && |uploaded| == index
        invariant calls == old(calls) + UploadCalls(index)
        invariant db.View() == old(db.View())
      {
        calls := calls + [UploadCall(index)];
        assert UploadCalls(index + 1) == UploadCalls(index) + [UploadCall(index)];
        var answer := UploadAnswer(a, index);
        if answer.Failure? {
          ReturnedPrefix(a, index + 1, files);
          CompensateUploadedFiles(uploaded, a.deletes);
          return Failure(ErrorFor(answer.error));
        }
        uploaded := uploaded + [answer.value];
      }
      var records: seq<FileRecord> := [];
      for i := 0 to |uploaded|
        invariant records == Records(uploaded[..i])
      {
        records := records + [RecordFor(uploaded[i])];
        assert Records(uploaded[..i + 1]) == Records(uploaded[..i]) + [RecordFor(uploaded[i])];
      }
      assert uploaded[..|uploaded|] == uploaded;
      var saved := db.CreateFileMessage(chat, sender, records, id, now, a.tx);
      if saved.Failure? {
        CompensateUploadedFiles(uploaded, a.deletes);
        return Failure(SaveFailed);
      }
      var payload := EnrichMessagePayload(saved.value);
      r := Success(payload);
    }
  }
}
