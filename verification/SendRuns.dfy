/** The sequential send as a run of the machine: for every way the file service, the
    network and the database may answer it, SendFileMessage does what one saga does. */
module SendRuns {
  import opened Wrappers
  import opened Messages
  import opened Tables
  import opened Saving
  import opened MessageStorage
  import opened SagaRuns
  import opened FileMessages
  import Steps = FileService

  /** How one upload goes: its key, its three calls in the file service, whether the answer
      is lost on the way back, and what the send takes a missing answer for. */
  datatype UploadPlan = UploadPlan(key: ObjectKey, info: FileInfo, put: Service.Outcome, insert: Service.Outcome,
                                   last: Service.Outcome, lost: bool, error: ClientError)

  datatype DeletePlan = DeletePlan(op: nat, lookup: Service.Outcome, mark: Service.Outcome, removal: Service.Outcome,
                                   drop: Service.Outcome, lost: bool)

  /** A send and everything that decides how it goes; one plan for each of its files. */
  datatype SendPlan = SendPlan(saga: nat, chat: int, sender: Login, files: seq<Bytes>, uploads: seq<UploadPlan>,
                               deletes: seq<DeletePlan>, tx: TxFaults, id: int, now: int)

  predicate Arrives(p: UploadPlan) {
    p.put == Service.Done && p.insert == Service.Done && p.last == Service.Done && !p.lost
  }

  predicate Confirms(p: DeletePlan) {
    && p.lookup == Service.Done && p.mark == Service.Done && (p.removal == Service.Done || p.removal == Service.Missing)
    && p.drop == Service.Done && !p.lost
  }

  function AnswerTo(p: UploadPlan, bytes: Bytes): Result<UploadedFile, ClientError> {
    if Arrives(p) then Success(UploadedFile(p.key.id, p.info.filename, p.info.mime, |bytes|)) else Failure(p.error)
  }

  predicate Planned(p: SendPlan) {
    |p.uploads| == |p.deletes| == |p.files|
  }

  /** What the send is answered under the plan. */
  function AnswersOf(p: SendPlan): Answers
    requires Planned(p)
  {
    Answers(false, false, seq(|p.files|, i requires 0 <= i < |p.files| => AnswerTo(p.uploads[i], p.files[i])),
            seq(|p.files|, i requires 0 <= i < |p.files| => Confirms(p.deletes[i])), p.tx)
  }

  /** Saga, files and deletes are new, and pairwise distinct. */
  ghost predicate NewTo(s: State, p: SendPlan) {
    && p.saga !in s.sagas
    && (forall i :: 0 <= i < |p.uploads| ==> p.uploads[i].key.id !in s.files.uploads)
    && (forall i, j :: 0 <= i < j < |p.uploads| ==> p.uploads[i].key.id != p.uploads[j].key.id)
    && (forall i :: 0 <= i < |p.deletes| ==> p.deletes[i].op !in s.files.deletes)
    && (forall i, j :: 0 <= i < j < |p.deletes| ==> p.deletes[i].op != p.deletes[j].op)
  }

  // ---- the events ------------------------------------------------------------------

  function Calls(calls: seq<Service.Event>): seq<Event> {
    seq(|calls|, i requires 0 <= i < |calls| => ServiceCall(calls[i]))
  }

  function UploadCallsOf(p: UploadPlan): seq<Service.Event> {
    [Service.UploadCall(p.key.id, p.put), Service.UploadCall(p.key.id, p.insert), Service.UploadCall(p.key.id, p.last)]
  }

  function DeleteCallsOf(p: DeletePlan): seq<Service.Event> {
    [Service.DeleteCall(p.op, p.lookup), Service.DeleteCall(p.op, p.mark), Service.DeleteCall(p.op, p.removal),
     Service.DeleteCall(p.op, p.drop)]
  }

  function UploadEvents(saga: nat, p: UploadPlan): seq<Event> {
    [Upload(saga, p.key.id, p.key, p.info)] + Calls(UploadCallsOf(p)) +
    [if Arrives(p) then UploadReturned(saga) else UploadFailed(saga)]
  }

  function DeleteEvents(saga: nat, p: DeletePlan): seq<Event> {
    [StartDelete(saga, p.op)] + Calls(DeleteCallsOf(p)) + [DeleteReturned(saga, Confirms(p))]
  }

  /** The uploads, up to the first that fails. */
  function UploadsEvents(p: SendPlan, k: nat): seq<Event>
    requires Planned(p) && k <= |p.files|
  {
    if k == 0 then []
    else UploadsEvents(p, k - 1) +
         (if |Returned(AnswersOf(p), k - 1)| == k - 1 then UploadEvents(p.saga, p.uploads[k - 1]) else [])
  }

  function DeletesEvents(p: SendPlan, k: nat): seq<Event>
    requires Planned(p) && k <= |p.files|
  {
    if k == 0 then [] else DeletesEvents(p, k - 1) + DeleteEvents(p.saga, p.deletes[k - 1])
  }

  function Uploaded(p: SendPlan): seq<UploadedFile>
    requires Planned(p)
  {
    Returned(AnswersOf(p), |p.files|)
  }

  function DraftFor(p: SendPlan): Draft
    requires Planned(p)
  {
    FileDraft(p.chat, p.sender, Records(Uploaded(p)))
  }

  predicate AllUploaded(p: SendPlan)
    requires Planned(p)
  {
    |Uploaded(p)| == |p.files|
  }

  predicate Commits(t: Tables, p: SendPlan)
    requires Planned(p)
  {
    AllUploaded(p) && NoFault(p.tx, |p.files|) && Save(t, DraftFor(p), p.id, p.now).Some?
  }

  lemma {:induction false} ReturnedLength(a: Answers, k: nat)
    ensures |Returned(a, k)| <= k
  {
    if k > 0 { ReturnedLength(a, k - 1); }
  }

  /** The transaction, if every file was returned. */
  function PersistEvents(p: SendPlan): seq<Event>
    requires Planned(p)
  {
    if AllUploaded(p) then [Persist(p.saga, p.id, p.now, NoFault(p.tx, |p.files|))] else []
  }

  /** The whole send. */
  function SendEvents(t: Tables, p: SendPlan): seq<Event>
    requires Planned(p) && |Uploaded(p)| <= |p.files|
  {
    [Begin(p.saga, p.chat, p.sender, p.files)] + UploadsEvents(p, |p.files|) + PersistEvents(p) +
    (if Commits(t, p) then [] else DeletesEvents(p, |Uploaded(p)|) + [End(p.saga)])
  }

  // ---- runs in pieces ----------------------------------------------------------------

  lemma RunOne(s: State, e: Event)
    ensures Run(s, [e]) == Next(s, e)
  {
    assert [e][..0] == [];
  }

  lemma {:induction false} RunConcat(s: State, a: seq<Event>, b: seq<Event>)
    ensures Run(s, a + b) == Run(Run(s, a), b)
  {
    if b == [] {
      assert a + b == a;
    } else {
      assert (a + b)[..|a + b| - 1] == a + b[..|b| - 1];
      RunConcat(s, a, b[..|b| - 1]);
    }
  }

  /** Calls of the file service change nothing but its state. */
  lemma {:induction false} RunCalls(s: State, calls: seq<Service.Event>)
    requires forall c :: c in calls ==> c.UploadCall? || c.DeleteCall?
    ensures Run(s, Calls(calls)) == s.(files := Service.Run(s.files, calls))
  {
    if calls == [] {
      assert s.(files := s.files) == s;
    } else {
      var front := calls[..|calls| - 1];
      assert Calls(calls)[..|calls| - 1] == Calls(front);
      assert calls[|calls| - 1] in calls;
      RunCalls(s, front);
    }
  }

  lemma {:induction false} ServiceRunFirst(f: Service.Files, e: Service.Event, rest: seq<Service.Event>)
    ensures Service.Run(f, [e] + rest) == Service.Run(Service.Next(f, e), rest)
  {
    if rest == [] {
      assert ([e] + rest)[..0] == [];
    } else {
      assert ([e] + rest)[..|rest|] == [e] + rest[..|rest| - 1];
      ServiceRunFirst(f, e, rest[..|rest| - 1]);
    }
  }

  /** An event, then calls of the file service, then an event. */
  lemma RunAround(s: State, first: Event, calls: seq<Service.Event>, last: Event)
    requires forall c :: c in calls ==> c.UploadCall? || c.DeleteCall?
    ensures var t := Run(s, [first]);
            Run(s, [first] + Calls(calls) + [last]) ==
            Run(t.(files := Service.Run(t.files, calls)), [last])
  {
    RunConcat(s, [first] + Calls(calls), [last]);
    RunConcat(s, [first], Calls(calls));
    RunCalls(Run(s, [first]), calls);
  }

  // ---- one upload, one delete ----------------------------------------------------------

  /** The saga after one upload. */
  function AfterUpload(g: Saga, p: UploadPlan, bytes: Bytes): Saga {
    if Arrives(p) then g.(uploaded := g.uploaded + [UploadedFile(p.key.id, p.info.filename, p.info.mime, |bytes|)])
    else g.(phase := Compensating, abandoned := Some(p.key.id))
  }

  ghost predicate MayUpload(s: State, n: nat, p: UploadPlan) {
    && n in s.sagas && s.sagas[n].phase == Uploading && |s.sagas[n].uploaded| < |s.sagas[n].files|
    && p.key.id !in s.files.uploads && p.key.id !in s.files.rows
  }

  lemma UploadInService(f: Service.Files, p: UploadPlan, bytes: Bytes)
    requires p.key.id !in f.uploads && p.key.id !in f.rows
    ensures var started := Service.Next(f, Service.StartUpload(p.key.id, p.key, p.info, bytes));
            var g := Service.Run(started, UploadCallsOf(p));
            && g.deletes == f.deletes && g.uploads.Keys == f.uploads.Keys + {p.key.id}
            && g.uploads[p.key.id].bytes == bytes && g.uploads[p.key.id].info == p.info
            && g.uploads[p.key.id].pc.UploadEnded?
            && (g.uploads[p.key.id].pc.ok <==>
                  p.put == Service.Done && p.insert == Service.Done && p.last == Service.Done)
  {
    ServiceRunFirst(f, Service.StartUpload(p.key.id, p.key, p.info, bytes), UploadCallsOf(p));
    Steps.RunUpload(f, p.key.id, p.key, p.info, bytes, p.put, p.insert, p.last);
    assert [Service.StartUpload(p.key.id, p.key, p.info, bytes)] + UploadCallsOf(p) ==
           [Service.StartUpload(p.key.id, p.key, p.info, bytes), Service.UploadCall(p.key.id, p.put),
            Service.UploadCall(p.key.id, p.insert), Service.UploadCall(p.key.id, p.last)];
  }

  lemma UploadBegins(s: State, n: nat, p: UploadPlan)
    requires MayUpload(s, n, p)
    ensures var g := s.sagas[n];
            var start := Service.StartUpload(p.key.id, p.key, p.info, g.files[|g.uploaded|]);
            Run(s, [Upload(n, p.key.id, p.key, p.info)]) ==
            With(s.(files := Service.Next(s.files, start)), n, g.(phase := Awaiting(p.key.id)))
  {
    RunOne(s, Upload(n, p.key.id, p.key, p.info));
  }

  lemma UploadEnds(s: State, n: nat, p: UploadPlan, bytes: Bytes)
    requires n in s.sagas && s.sagas[n].phase == Awaiting(p.key.id)
    requires p.key.id in s.files.uploads && s.files.uploads[p.key.id].bytes == bytes
    requires s.files.uploads[p.key.id].info == p.info
    requires Arrives(p) ==> Answered(s.files.uploads[p.key.id])
    ensures Run(s, [if Arrives(p) then UploadReturned(n) else UploadFailed(n)]) ==
            With(s, n, AfterUpload(s.sagas[n].(phase := Uploading), p, bytes))
  {
    RunOne(s, if Arrives(p) then UploadReturned(n) else UploadFailed(n));
  }

  lemma UploadRound(s: State, n: nat, p: UploadPlan)
    requires MayUpload(s, n, p)
    ensures var g, t := s.sagas[n], Run(s, UploadEvents(n, p));
            && t == State(t.files, s.tables, s.sagas[n := AfterUpload(g, p, g.files[|g.uploaded|])])
            && t.files.deletes == s.files.deletes && t.files.uploads.Keys == s.files.uploads.Keys + {p.key.id}
  {
    var g := s.sagas[n];
    var bytes := g.files[|g.uploaded|];
    var last := if Arrives(p) then UploadReturned(n) else UploadFailed(n);
    RunAround(s, Upload(n, p.key.id, p.key, p.info), UploadCallsOf(p), last);
    UploadBegins(s, n, p);
    UploadInService(s.files, p, bytes);
    var t := Run(s, [Upload(n, p.key.id, p.key, p.info)]);
    UploadEnds(t.(files := Service.Run(t.files, UploadCallsOf(p))), n, p, bytes);
    assert g.(phase := Awaiting(p.key.id)).(phase := Uploading) == g;
    assert s.sagas[n := g.(phase := Awaiting(p.key.id))][n := AfterUpload(g, p, bytes)] ==
           s.sagas[n := AfterUpload(g, p, bytes)];
  }

  ghost predicate MayDelete(s: State, n: nat, p: DeletePlan) {
    && n in s.sagas && s.sagas[n].phase == Compensating && |s.sagas[n].attempts| < |s.sagas[n].uploaded|
    && p.op !in s.files.deletes && s.sagas[n].uploaded[|s.sagas[n].attempts|].id in s.files.rows
  }

  lemma DeleteInService(f: Service.Files, p: DeletePlan, file: FileId)
    requires p.op !in f.deletes && file in f.rows
    ensures var g := Service.Run(Service.Next(f, Service.StartDelete(p.op, file)), DeleteCallsOf(p));
            && g.uploads == f.uploads && g.deletes.Keys == f.deletes.Keys + {p.op}
            && (Confirms(p) ==> Confirmed(g.deletes[p.op]))
  {
    ServiceRunFirst(f, Service.StartDelete(p.op, file), DeleteCallsOf(p));
    Steps.RunDelete(f, p.op, file, p.lookup, p.mark, p.removal, p.drop);
    assert [Service.StartDelete(p.op, file)] + DeleteCallsOf(p) ==
           [Service.StartDelete(p.op, file), Service.DeleteCall(p.op, p.lookup), Service.DeleteCall(p.op, p.mark),
            Service.DeleteCall(p.op, p.removal), Service.DeleteCall(p.op, p.drop)];
  }

  lemma DeleteStarts(s: State, n: nat, op: nat, g: Saga)
    requires g.phase == Compensating && |g.attempts| < |g.uploaded| && op !in s.files.deletes
    ensures SagaStep(s, StartDelete(n, op), n, g) ==
            With(s.(files := Service.Next(s.files, Service.StartDelete(op, g.uploaded[|g.attempts|].id))), n,
                 g.(phase := AwaitingDelete(op)))
  {
  }

  lemma DeleteBegins(s: State, n: nat, p: DeletePlan)
    requires MayDelete(s, n, p)
    ensures var g := s.sagas[n];
            Run(s, [StartDelete(n, p.op)]) ==
            With(s.(files := Service.Next(s.files, Service.StartDelete(p.op, g.uploaded[|g.attempts|].id))), n,
                 g.(phase := AwaitingDelete(p.op)))
  {
    RunOne(s, StartDelete(n, p.op));
    DeleteStarts(s, n, p.op, s.sagas[n]);
  }

  lemma DeleteIsAnswered(s: State, n: nat, p: DeletePlan, g: Saga)
    requires g.phase == AwaitingDelete(p.op) && |g.attempts| < |g.uploaded|
    requires Confirms(p) ==> p.op in s.files.deletes && Confirmed(s.files.deletes[p.op])
    ensures SagaStep(s, DeleteReturned(n, Confirms(p)), n, g) == With(s, n, AfterDelete(g, p))
  {
  }

  lemma DeleteEnds(s: State, n: nat, p: DeletePlan)
    requires n in s.sagas && s.sagas[n].phase == AwaitingDelete(p.op) && |s.sagas[n].attempts| < |s.sagas[n].uploaded|
    requires Confirms(p) ==> p.op in s.files.deletes && Confirmed(s.files.deletes[p.op])
    ensures Run(s, [DeleteReturned(n, Confirms(p))]) == With(s, n, AfterDelete(s.sagas[n], p))
  {
    RunOne(s, DeleteReturned(n, Confirms(p)));
    DeleteIsAnswered(s, n, p, s.sagas[n]);
  }

  /** The saga after one delete attempt. */
  function AfterDelete(g: Saga, p: DeletePlan): Saga
    requires |g.attempts| < |g.uploaded|
  {
    g.(phase := Compensating, attempts := g.attempts + [Attempt(p.op, g.uploaded[|g.attempts|].id, Confirms(p))])
  }

  lemma DeleteRound(s: State, n: nat, p: DeletePlan)
    requires MayDelete(s, n, p)
    ensures var t := Run(s, DeleteEvents(n, p));
            && t == State(t.files, s.tables, s.sagas[n := AfterDelete(s.sagas[n], p)])
            && t.files.deletes.Keys == s.files.deletes.Keys + {p.op}
  {
    var g := s.sagas[n];
    RunAround(s, StartDelete(n, p.op), DeleteCallsOf(p), DeleteReturned(n, Confirms(p)));
    DeleteBegins(s, n, p);
    DeleteInService(s.files, p, g.uploaded[|g.attempts|].id);
    var t := Run(s, [StartDelete(n, p.op)]);
    DeleteEnds(t.(files := Service.Run(t.files, DeleteCallsOf(p))), n, p);
    assert s.sagas[n := g.(phase := AwaitingDelete(p.op))][n := AfterDelete(g, p)] == s.sagas[n := AfterDelete(g, p)];
  }

  // ---- all uploads, all deletes --------------------------------------------------------

  function Started(p: SendPlan): Saga {
    Saga(p.chat, p.sender, p.files, [], Uploading, [], None)
  }

  /** The saga after the first `k` files. */
  function SagaAt(p: SendPlan, k: nat): Saga
    requires Planned(p) && k <= |p.files| && |Returned(AnswersOf(p), k)| <= k
  {
    var got := Returned(AnswersOf(p), k);
    if |got| == k then Started(p).(uploaded := got)
    else Started(p).(uploaded := got, phase := Compensating, abandoned := Some(p.uploads[|got|].key.id))
  }

  ghost predicate IdsNew(f: Service.Files, p: SendPlan, k: nat) {
    && (forall i :: k <= i < |p.uploads| ==> p.uploads[i].key.id !in f.uploads)
    && (forall i, j :: 0 <= i < j < |p.uploads| ==> p.uploads[i].key.id != p.uploads[j].key.id)
  }

  ghost predicate OpsNew(f: Service.Files, p: SendPlan, k: nat) {
    && (forall i :: k <= i < |p.deletes| ==> p.deletes[i].op !in f.deletes)
    && (forall i, j :: 0 <= i < j < |p.deletes| ==> p.deletes[i].op != p.deletes[j].op)
  }

  lemma NewRow(f: Service.Files, id: FileId)
    requires Service.Inv(f) && id !in f.uploads
    ensures id !in f.rows
  {
  }

  lemma NextUpload(p: SendPlan, k: nat)
    requires Planned(p) && k < |p.files| && |Returned(AnswersOf(p), k)| == k
    ensures |Returned(AnswersOf(p), k + 1)| <= k + 1
    ensures SagaAt(p, k + 1) == AfterUpload(SagaAt(p, k), p.uploads[k], p.files[k])
  {
  }

  /** From `s` to `t` the send has dealt with the first `k` files, and nothing else happened. */
  ghost predicate UploadedTo(s: State, t: State, p: SendPlan, k: nat)
    requires Planned(p) && k <= |p.files|
  {
    && |Returned(AnswersOf(p), k)| <= k
    && t.tables == s.tables && t.sagas == s.sagas[p.saga := SagaAt(p, k)]
    && t.files.deletes == s.files.deletes && IdsNew(t.files, p, k)
  }

  lemma UploadedMore(s: State, t: State, u: State, p: SendPlan, k: nat)
    requires Planned(p) && k < |p.files| && UploadedTo(s, t, p, k) && |Returned(AnswersOf(p), k)| == k
    requires u.tables == t.tables
    requires u.sagas == t.sagas[p.saga := AfterUpload(t.sagas[p.saga], p.uploads[k], p.files[k])]
    requires u.files.deletes == t.files.deletes && u.files.uploads.Keys == t.files.uploads.Keys + {p.uploads[k].key.id}
    ensures UploadedTo(s, u, p, k + 1)
  {
    NextUpload(p, k);
  }

  lemma NoMoreUploads(s: State, t: State, p: SendPlan, k: nat)
    requires Planned(p) && k < |p.files| && UploadedTo(s, t, p, k) && |Returned(AnswersOf(p), k)| < k
    ensures UploadedTo(s, t, p, k + 1)
  {
    ReturnedPrefix(AnswersOf(p), k, k + 1);
  }

  lemma MayUploadNext(t: State, p: SendPlan, k: nat)
    requires Planned(p) && k < |p.files| && Service.Inv(t.files) && IdsNew(t.files, p, k)
    requires |Returned(AnswersOf(p), k)| == k && p.saga in t.sagas && t.sagas[p.saga] == SagaAt(p, k)
    ensures MayUpload(t, p.saga, p.uploads[k]) && t.sagas[p.saga].files[|t.sagas[p.saga].uploaded|] == p.files[k]
  {
    NewRow(t.files, p.uploads[k].key.id);
  }

  lemma {:induction false} UploadsRun(s: State, p: SendPlan, k: nat)
    requires Inv(s) && Planned(p) && k <= |p.files| && IdsNew(s.files, p, 0)
    requires p.saga in s.sagas && s.sagas[p.saga] == Started(p)
    ensures UploadedTo(s, Run(s, UploadsEvents(p, k)), p, k)
  {
    if k == 0 {
      NothingUploaded(s, p);
    } else {
      UploadsRun(s, p, k - 1);
      FilesInOrder(s, UploadsEvents(p, k - 1));
      UploadsStep(s, p, k - 1);
    }
  }

  lemma NothingUploaded(s: State, p: SendPlan)
    requires Planned(p) && IdsNew(s.files, p, 0) && p.saga in s.sagas && s.sagas[p.saga] == Started(p)
    ensures UploadedTo(s, s, p, 0)
  {
    assert s.sagas[p.saga := Started(p)] == s.sagas;
  }

  lemma FilesInOrder(s: State, events: seq<Event>)
    requires Inv(s)
    ensures Service.Inv(Run(s, events).files)
  {
    RunKeepsInv(s, events);
  }

  lemma UploadsStep(s: State, p: SendPlan, k: nat)
    requires Planned(p) && k < |p.files| && UploadedTo(s, Run(s, UploadsEvents(p, k)), p, k)
    requires Service.Inv(Run(s, UploadsEvents(p, k)).files)
    ensures UploadedTo(s, Run(s, UploadsEvents(p, k + 1)), p, k + 1)
  {
    var t := Run(s, UploadsEvents(p, k));
    if |Returned(AnswersOf(p), k)| == k {
      MayUploadNext(t, p, k);
      UploadRound(t, p.saga, p.uploads[k]);
      RunConcat(s, UploadsEvents(p, k), UploadEvents(p.saga, p.uploads[k]));
      UploadedMore(s, t, Run(t, UploadEvents(p.saga, p.uploads[k])), p, k);
    } else {
      assert UploadsEvents(p, k + 1) == UploadsEvents(p, k);
      NoMoreUploads(s, t, p, k);
    }
  }

  function AttemptsFor(p: SendPlan, k: nat): seq<Attempt>
    requires Planned(p) && k <= |Uploaded(p)| <= |p.files|
  {
    seq(k, i requires 0 <= i < k => Attempt(p.deletes[i].op, Uploaded(p)[i].id, Confirms(p.deletes[i])))
  }

  /** The next file to delete still has its row: no delete was asked for it yet. */
  lemma NextHasRow(f: Service.Files, t: Tables, sagas: map<nat, Saga>, n: nat)
    requires Service.Inv(f) && DeletesOk(f, sagas)
    requires n in sagas && SagaOk(f, t, sagas[n]) && sagas[n].phase == Compensating
    requires |sagas[n].attempts| < |sagas[n].uploaded|
    ensures sagas[n].uploaded[|sagas[n].attempts|].id in f.rows
  {
    NextNotTargeted(f, t, sagas, n);
    Service.Untargeted(f, sagas[n].uploaded[|sagas[n].attempts|].id);
  }

  lemma NextNotTargeted(f: Service.Files, t: Tables, sagas: map<nat, Saga>, n: nat)
    requires DeletesOk(f, sagas) && n in sagas && SagaOk(f, t, sagas[n]) && sagas[n].phase == Compensating
    requires |sagas[n].attempts| < |sagas[n].uploaded|
    ensures !Service.Targeted(f, sagas[n].uploaded[|sagas[n].attempts|].id)
  {
    assert Has(sagas[n], sagas[n].uploaded[|sagas[n].attempts|].id);
  }

  ghost predicate DeletedTo(s: State, t: State, p: SendPlan, k: nat)
    requires Planned(p) && k <= |Uploaded(p)| <= |p.files| && p.saga in s.sagas
  {
    && t.tables == s.tables && t.sagas == s.sagas[p.saga := s.sagas[p.saga].(attempts := AttemptsFor(p, k))]
    && OpsNew(t.files, p, k)
  }

  lemma DeletedMore(s: State, t: State, u: State, p: SendPlan, k: nat)
    requires Planned(p) && k < |Uploaded(p)| <= |p.files| && p.saga in s.sagas && DeletedTo(s, t, p, k)
    requires s.sagas[p.saga].uploaded == Uploaded(p) && s.sagas[p.saga].phase == Compensating
    requires u.tables == t.tables && u.sagas == t.sagas[p.saga := AfterDelete(t.sagas[p.saga], p.deletes[k])]
    requires u.files.deletes.Keys == t.files.deletes.Keys + {p.deletes[k].op}
    ensures DeletedTo(s, u, p, k + 1)
  {
    assert AttemptsFor(p, k + 1) ==
           AttemptsFor(p, k) + [Attempt(p.deletes[k].op, Uploaded(p)[k].id, Confirms(p.deletes[k]))];
  }

  /** The send's saga is about to delete what it uploaded. */
  predicate Compensates(s: State, p: SendPlan)
    requires Planned(p)
  {
    && p.saga in s.sagas && s.sagas[p.saga].uploaded == Uploaded(p)
    && s.sagas[p.saga].phase == Compensating && s.sagas[p.saga].attempts == []
  }

  lemma NextOfDeletes(s: State, t: State, p: SendPlan, k: nat)
    requires Planned(p) && k < |Uploaded(p)| <= |p.files| && Compensates(s, p) && DeletedTo(s, t, p, k) && Inv(t)
    ensures Uploaded(p)[k].id in t.files.rows
  {
    assert SagaOk(t.files, t.tables, t.sagas[p.saga]);
    NextHasRow(t.files, t.tables, t.sagas, p.saga);
  }

  lemma DeletesStep(s: State, p: SendPlan, k: nat)
    requires Planned(p) && k < |Uploaded(p)| <= |p.files| && Compensates(s, p)
    requires DeletedTo(s, Run(s, DeletesEvents(p, k)), p, k)
    requires Uploaded(p)[k].id in Run(s, DeletesEvents(p, k)).files.rows
    ensures DeletedTo(s, Run(s, DeletesEvents(p, k + 1)), p, k + 1)
  {
    var t := Run(s, DeletesEvents(p, k));
    DeleteRound(t, p.saga, p.deletes[k]);
    RunConcat(s, DeletesEvents(p, k), DeleteEvents(p.saga, p.deletes[k]));
    DeletedMore(s, t, Run(t, DeleteEvents(p.saga, p.deletes[k])), p, k);
  }

  /** When the deletes have come to the `k`-th file, its row is still there. */
  ghost predicate RowAt(s: State, p: SendPlan, k: nat)
    requires Planned(p) && k < |Uploaded(p)| <= |p.files| && p.saga in s.sagas
  {
    DeletedTo(s, Run(s, DeletesEvents(p, k)), p, k) ==>
      Uploaded(p)[k].id in Run(s, DeletesEvents(p, k)).files.rows
  }

  ghost predicate RowsThere(s: State, p: SendPlan)
    requires Planned(p) && |Uploaded(p)| <= |p.files| && p.saga in s.sagas
  {
    forall k :: 0 <= k < |Uploaded(p)| ==> RowAt(s, p, k)
  }

  lemma AllRowsThere(s: State, p: SendPlan)
    requires Inv(s) && Planned(p) && |Uploaded(p)| <= |p.files| && Compensates(s, p)
    ensures RowsThere(s, p)
  {
    forall k | 0 <= k < |Uploaded(p)| ensures RowAt(s, p, k) {
      if DeletedTo(s, Run(s, DeletesEvents(p, k)), p, k) { RowThere(s, p, k); }
    }
  }

  lemma {:induction false} DeletesRun(s: State, p: SendPlan, k: nat)
    requires Planned(p) && k <= |Uploaded(p)| <= |p.files| && OpsNew(s.files, p, 0) && Compensates(s, p)
    requires RowsThere(s, p)
    ensures DeletedTo(s, Run(s, DeletesEvents(p, k)), p, k)
  {
    if k == 0 {
      NothingDeleted(s, p);
    } else {
      DeletesRun(s, p, k - 1);
      assert RowAt(s, p, k - 1);
      DeletesStep(s, p, k - 1);
    }
  }

  lemma RowThere(s: State, p: SendPlan, k: nat)
    requires Inv(s) && Planned(p) && k < |Uploaded(p)| <= |p.files| && Compensates(s, p)
    requires DeletedTo(s, Run(s, DeletesEvents(p, k)), p, k)
    ensures Uploaded(p)[k].id in Run(s, DeletesEvents(p, k)).files.rows
  {
    RunKeepsInv(s, DeletesEvents(p, k));
    NextOfDeletes(s, Run(s, DeletesEvents(p, k)), p, k);
  }

  lemma NothingDeleted(s: State, p: SendPlan)
    requires Planned(p) && |Uploaded(p)| <= |p.files| && OpsNew(s.files, p, 0) && Compensates(s, p)
    ensures DeletedTo(s, Run(s, DeletesEvents(p, 0)), p, 0)
  {
    assert AttemptsFor(p, 0) == [];
    assert s.sagas[p.saga := s.sagas[p.saga].(attempts := [])] == s.sagas;
  }

  // ---- the whole send ----------------------------------------------------------------------

  predicate Admits(t: Tables, p: SendPlan) {
    0 < |p.files| <= MAX_FILES_PER_MESSAGE && p.chat in t.maxMembers && p.sender in Members(t, p.chat)
  }

  /** The saga the send ends as: committed with all its files, or aborted after one delete
      attempt for each file it got, in order. */
  function FinalSaga(t: Tables, p: SendPlan): Saga
    requires Planned(p) && |Uploaded(p)| <= |p.files|
  {
    var g := SagaAt(p, |p.files|);
    if Commits(t, p) then g.(phase := Committed(p.id))
    else g.(phase := Aborted, attempts := AttemptsFor(p, |Uploaded(p)|))
  }

  function FinalTables(t: Tables, p: SendPlan): Tables
    requires Planned(p)
  {
    if Commits(t, p) then Save(t, DraftFor(p), p.id, p.now).value else t
  }

  /** The send up to its last upload. */
  lemma SendBegins(s: State, p: SendPlan)
    requires Inv(s) && Planned(p) && NewTo(s, p) && Admits(s.tables, p)
    ensures var t := Run(s, [Begin(p.saga, p.chat, p.sender, p.files)] + UploadsEvents(p, |p.files|));
            && Inv(t) && UploadedTo(s, t, p, |p.files|)
  {
    var e := Begin(p.saga, p.chat, p.sender, p.files);
    var t := With(s, p.saga, Started(p));
    RunOne(s, e);
    assert Next(s, e) == t;
    NextKeepsInv(s, e);
    UploadsRun(t, p, |p.files|);
    RunKeepsInv(t, UploadsEvents(p, |p.files|));
    RunConcat(s, [e], UploadsEvents(p, |p.files|));
    SameBase(s, t, Run(t, UploadsEvents(p, |p.files|)), p);
  }

  lemma SameBase(s: State, t: State, u: State, p: SendPlan)
    requires Planned(p) && t == With(s, p.saga, Started(p)) && UploadedTo(t, u, p, |p.files|)
    ensures UploadedTo(s, u, p, |p.files|)
  {
    assert t.sagas[p.saga := SagaAt(p, |p.files|)] == s.sagas[p.saga := SagaAt(p, |p.files|)];
  }

  /** The saga once that is decided. */
  function AfterPersist(t: Tables, p: SendPlan): Saga
    requires Planned(p) && |Uploaded(p)| <= |p.files|
  {
    SagaAt(p, |p.files|).(phase := if Commits(t, p) then Committed(p.id) else Compensating)
  }

  lemma PersistDecides(t: State, p: SendPlan)
    requires Planned(p) && |Uploaded(p)| <= |p.files| && AllUploaded(p)
    ensures SagaStep(t, Persist(p.saga, p.id, p.now, NoFault(p.tx, |p.files|)), p.saga, SagaAt(p, |p.files|)) ==
            With(t.(tables := FinalTables(t.tables, p)), p.saga, AfterPersist(t.tables, p))
  {
    assert DraftOf(SagaAt(p, |p.files|)) == DraftFor(p);
    assert t.(tables := t.tables) == t;
  }

  lemma PersistRun(s: State, t: State, p: SendPlan)
    requires Planned(p) && UploadedTo(s, t, p, |p.files|)
    ensures Run(t, PersistEvents(p)) ==
            State(t.files, FinalTables(s.tables, p), s.sagas[p.saga := AfterPersist(s.tables, p)])
  {
    var g, g' := SagaAt(p, |p.files|), AfterPersist(s.tables, p);
    assert s.sagas[p.saga := g][p.saga := g'] == s.sagas[p.saga := g'];
    if AllUploaded(p) {
      RunOne(t, Persist(p.saga, p.id, p.now, NoFault(p.tx, |p.files|)));
      PersistDecides(t, p);
    } else {
      assert g' == g;
    }
  }

  /** The deletes and the end, if it is not committed. */
  lemma CompensationRun(s: State, t: State, p: SendPlan)
    requires Planned(p) && |Uploaded(p)| <= |p.files| && !Commits(s.tables, p) && Inv(t) && OpsNew(t.files, p, 0)
    requires t == State(t.files, s.tables, s.sagas[p.saga := AfterPersist(s.tables, p)])
    ensures var u := Run(t, DeletesEvents(p, |Uploaded(p)|) + [End(p.saga)]);
            u == State(u.files, s.tables, s.sagas[p.saga := FinalSaga(s.tables, p)])
  {
    var n := |Uploaded(p)|;
    AllRowsThere(t, p);
    DeletesRun(t, p, n);
    RunConcat(t, DeletesEvents(p, n), [End(p.saga)]);
    SendEnds(s, t, Run(t, DeletesEvents(p, n)), p);
  }

  lemma EndAborts(u: State, n: nat, g: Saga)
    requires g.phase == Compensating && |g.attempts| == |g.uploaded|
    ensures SagaStep(u, End(n), n, g) == With(u, n, g.(phase := Aborted))
  {
  }

  lemma SendEnds(s: State, t: State, u: State, p: SendPlan)
    requires Planned(p) && |Uploaded(p)| <= |p.files| && !Commits(s.tables, p)
    requires t == State(t.files, s.tables, s.sagas[p.saga := AfterPersist(s.tables, p)])
    requires DeletedTo(t, u, p, |Uploaded(p)|)
    ensures Run(u, [End(p.saga)]) == State(u.files, s.tables, s.sagas[p.saga := FinalSaga(s.tables, p)])
  {
    var g := AfterPersist(s.tables, p).(attempts := AttemptsFor(p, |Uploaded(p)|));
    assert u.sagas == s.sagas[p.saga := g] && g.(phase := Aborted) == FinalSaga(s.tables, p);
    RunOne(u, End(p.saga));
    EndAborts(u, p.saga, g);
    assert s.sagas[p.saga := g][p.saga := FinalSaga(s.tables, p)] == s.sagas[p.saga := FinalSaga(s.tables, p)];
  }

  /** The sequential send, for every plan: a run that changes its own saga only, commits it
      with all files if the send succeeds, and otherwise aborts it after its deletes. */
  lemma SendIsARun(s: State, p: SendPlan)
    requires Inv(s) && Planned(p) && NewTo(s, p) && Admits(s.tables, p)
    ensures |Uploaded(p)| <= |p.files|
    ensures var t := Run(s, SendEvents(s.tables, p));
            && Inv(t)
            && t == State(t.files, FinalTables(s.tables, p), s.sagas[p.saga := FinalSaga(s.tables, p)])
  {
    SendBegins(s, p);
    var first := [Begin(p.saga, p.chat, p.sender, p.files)] + UploadsEvents(p, |p.files|);
    var t := Run(s, first);
    PersistRun(s, t, p);
    RunConcat(s, first, PersistEvents(p));
    RunKeepsInv(t, PersistEvents(p));
    var u := Run(t, PersistEvents(p));
    var rest := if Commits(s.tables, p) then [] else DeletesEvents(p, |Uploaded(p)|) + [End(p.saga)];
    RunConcat(s, first + PersistEvents(p), rest);
    RunKeepsInv(u, rest);
    if !Commits(s.tables, p) { CompensationRun(s, u, p); }
  }

  /** What the send asked of the file service, read off its saga. */
  function CallsOf(g: Saga): seq<Call> {
    UploadCalls(if g.abandoned.Some? then |g.uploaded| + 1 else |g.uploaded|) +
    seq(|g.attempts|, i requires 0 <= i < |g.attempts| => DeleteCall(g.attempts[i].file, g.attempts[i].ok))
  }

  /** The calls of the sequential code under the plan. */
  function PlannedCalls(t: Tables, p: SendPlan): seq<Call>
    requires Planned(p) && |Uploaded(p)| <= |p.files|
  {
    UploadCalls(if AllUploaded(p) then |p.files| else |Uploaded(p)| + 1) +
    (if Commits(t, p) then [] else DeleteCalls(Uploaded(p), AnswersOf(p).deletes))
  }

  lemma CallsAgree(t: Tables, p: SendPlan)
    requires Planned(p) && |Uploaded(p)| <= |p.files|
    ensures CallsOf(FinalSaga(t, p)) == PlannedCalls(t, p)
  {
    if !Commits(t, p) {
      var g := FinalSaga(t, p);
      assert seq(|g.attempts|, i requires 0 <= i < |g.attempts| => DeleteCall(g.attempts[i].file, g.attempts[i].ok)) ==
             DeleteCalls(Uploaded(p), AnswersOf(p).deletes);
    }
  }

  /** The send under a plan. */
  method SendByPlan(sender: Sender, p: SendPlan) returns (r: Result<Message, SendError>)
    requires Planned(p) && |Uploaded(p)| <= |p.files| && WellFormed(sender.db.View())
    modifies sender`calls, sender.db`messages, sender.db`attachments
    ensures r.Success? <==> Admits(old(sender.db.View()), p) && Commits(old(sender.db.View()), p)
    ensures Admits(old(sender.db.View()), p) ==>
              && sender.db.View() == FinalTables(old(sender.db.View()), p)
              && sender.calls == old(sender.calls) + PlannedCalls(old(sender.db.View()), p)
    ensures !Admits(old(sender.db.View()), p) ==>
              sender.db.View() == old(sender.db.View()) && sender.calls == old(sender.calls)
  {
    r := sender.Send(p.chat, p.sender, |p.files|, AnswersOf(p), p.id, p.now);
  }

  /** What the final saga says of the outcome. */
  lemma OutcomeOf(s: State, t: State, p: SendPlan)
    requires Planned(p) && |Uploaded(p)| <= |p.files| && t.sagas == s.sagas[p.saga := FinalSaga(s.tables, p)]
    ensures p.saga in t.sagas && t.sagas == s.sagas[p.saga := t.sagas[p.saga]]
    ensures Commits(s.tables, p) ==> t.sagas[p.saga].phase == Committed(p.id)
    ensures !Commits(s.tables, p) ==> t.sagas[p.saga].phase == Aborted
    ensures CallsOf(t.sagas[p.saga]) == PlannedCalls(s.tables, p)
  {
    CallsAgree(s.tables, p);
  }

  /** SendFileMessage beside the machine: the database, the outcome and every call made are
      those of the run of its one saga. */
  method SendAsSaga(sender: Sender, ghost s: State, p: SendPlan) returns (r: Result<Message, SendError>, ghost t: State)
    requires Inv(s) && s.tables == sender.db.View() && Planned(p) && NewTo(s, p)
    modifies sender`calls, sender.db`messages, sender.db`attachments
    ensures Inv(t) && t.tables == sender.db.View()
    ensures !Admits(s.tables, p) ==> t == s && r.Failure? && sender.calls == old(sender.calls)
    ensures Admits(s.tables, p) ==>
              && |Uploaded(p)| <= |p.files| && t == Run(s, SendEvents(s.tables, p))
              && p.saga in t.sagas && t.sagas == s.sagas[p.saga := t.sagas[p.saga]]
              && (r.Success? <==> t.sagas[p.saga].phase == Committed(p.id))
              && (r.Failure? <==> t.sagas[p.saga].phase == Aborted)
              && sender.calls == old(sender.calls) + CallsOf(t.sagas[p.saga])
  {
    t := s;
    ReturnedLength(AnswersOf(p), |p.files|);
    if Admits(s.tables, p) {
      SendIsARun(s, p);
      t := Run(s, SendEvents(s.tables, p));
      OutcomeOf(s, t, p);
    }
    r := SendByPlan(sender, p);
  }
}
