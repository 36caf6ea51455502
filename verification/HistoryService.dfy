/** The message service's answer to one get_message_history event: every way it can end,
    and what the asking client's queue gets in each. */
module HistoryService {
  import opened Ordering
  import opened Wrappers
  import opened Messages
  import opened Tables
  import opened Paging
  import opened MessageStorage
  import opened Delivery

  datatype HistoryError = InvalidPayload | InvalidChat | LoginMismatch | ChatCheckFailed | ChatMissing
                        | MembershipCheckFailed | AccessDenied | LoadFailed | EncodeFailed | EventEncodeFailed
                        | Offline | ResponseTimeout

  /** The text sent to the client. */
  function ErrorText(e: HistoryError): string {
    match e
    case InvalidPayload => "invalid history request payload"
    case InvalidChat => "invalid chat id"
    case LoginMismatch => "login mismatch"
    case ChatCheckFailed => "failed to check chat"
    case ChatMissing => "chat doesn't exist"
    case MembershipCheckFailed => "failed to check chat membership"
    case AccessDenied => "access denied"
    case LoadFailed => "failed to load message history"
    case EncodeFailed => "failed to encode message history"
    case EventEncodeFailed => "failed to encode history event"
    case Offline => "client is offline"
    case ResponseTimeout => "history response timeout"
  }

  /** Which calls fail: reading the event, the three database reads, the two encodings of
      the answer, and the encoding of the error event. */
  datatype HistoryFaults = HistoryFaults(decode: bool, chat: bool, membership: bool, load: bool, encodePage: bool,
                                         encodeEvent: bool, encodeError: bool)

  /** Whether the client's pump makes room for the answer, and for the error event after it. */
  datatype Drains = Drains(answer: bool, error: bool)

  /** `claimed` is the login in the event, "" when absent; `login` is the connection's. */
  datatype HistoryEventData = HistoryEventData(claimed: Login, chat: int, limit: int, before: Option<Key>)

  /** A readable request by a member of an existing chat, and no database fault. */
  predicate Loads(t: Tables, login: Login, q: HistoryEventData, faults: HistoryFaults) {
    && !faults.decode && !faults.chat && !faults.membership && !faults.load
    && q.chat > 0 && (q.claimed == "" || q.claimed == login) && q.chat in t.maxMembers && login in Members(t, q.chat)
  }

  /** The first guard to fail. */
  function LoadError(t: Tables, login: Login, q: HistoryEventData, faults: HistoryFaults): HistoryError {
    if faults.decode then InvalidPayload
    else if q.chat <= 0 then InvalidChat
    else if q.claimed != "" && q.claimed != login then LoginMismatch
    else if faults.chat then ChatCheckFailed
    else if q.chat !in t.maxMembers then ChatMissing
    else if faults.membership then MembershipCheckFailed
    else if login !in Members(t, q.chat) then AccessDenied
    else LoadFailed
  }

  /** What the guards let through, and which guard gives which error. */
  lemma GuardsMean(t: Tables, login: Login, q: HistoryEventData, faults: HistoryFaults)
    ensures Loads(t, login, q, faults) <==>
            && !faults.decode && !faults.chat && !faults.membership && !faults.load
            && q.chat > 0 && (q.claimed == "" || q.claimed == login) && q.chat in t.maxMembers
            && q.chat in t.members && login in t.members[q.chat]
    ensures var e := LoadError(t, login, q, faults);
            && (e == InvalidPayload <==> faults.decode)
            && (!faults.decode ==> (e == InvalidChat <==> q.chat <= 0))
            && (!faults.decode && q.chat > 0 ==> (e == LoginMismatch <==> q.claimed != "" && q.claimed != login))
            && (!faults.decode && q.chat > 0 && (q.claimed == "" || q.claimed == login) ==>
                  && (e == ChatCheckFailed <==> faults.chat)
                  && (e == ChatMissing <==> !faults.chat && q.chat !in t.maxMembers)
                  && (e == MembershipCheckFailed <==> !faults.chat && q.chat in t.maxMembers && faults.membership)
                  && (e == AccessDenied <==>
                        && !faults.chat && q.chat in t.maxMembers && !faults.membership
                        && !(q.chat in t.members && login in t.members[q.chat])))
            && (Loads(t, login, q, faults.(load := false)) ==> e == LoadFailed)
            && e !in {EncodeFailed, EventEncodeFailed, Offline, ResponseTimeout}
  {
  }

  /** The guards, the clamp, the query and the enrichment loop. */
  method LoadPage(db: Database, login: Login, q: HistoryEventData, faults: HistoryFaults)
    returns (r: Result<Page, HistoryError>)
    requires WellFormed(db.View())
    ensures r.Success? <==> Loads(db.View(), login, q, faults)
    // only for a member of an existing chat under its own login; and always for one, without faults
    ensures r.Success? <==>
            && !faults.decode && !faults.chat && !faults.membership && !faults.load
            && q.chat > 0 && (q.claimed == "" || q.claimed == login) && q.chat in db.maxMembers
            && q.chat in db.members && login in db.members[q.chat]
    ensures r.Success? ==> r.value == PageOf(History(db.View(), q.chat), q.before, ClampLimit(q.limit))
    // the guards are tried in this order, and the first to fail names the error
    ensures r.Failure? ==>
            r.error == LoadError(db.View(), login, q, faults)
  {
    if faults.decode { return Failure(InvalidPayload); }
    if q.chat <= 0 { return Failure(InvalidChat); }
    if q.claimed != "" && q.claimed != login { return Failure(LoginMismatch); }
    if faults.chat { return Failure(ChatCheckFailed); }
    if q.chat !in db.maxMembers { return Failure(ChatMissing); }
    if faults.membership { return Failure(MembershipCheckFailed); }
    if login !in Members(db.View(), q.chat) { return Failure(AccessDenied); }
    var clamped := q.limit;
    if clamped <= 0 { clamped := DEFAULT_LIMIT; }
    if clamped > MAX_LIMIT { clamped := MAX_LIMIT; }
    if faults.load { return Failure(LoadFailed); }
    var page := db.GetMessageHistory(q.chat, clamped, q.before);
    ghost var raw := page;
    for i := 0 to |page.items|
      invariant page == raw.(items := page.items) && |page.items| == |raw.items|
      invariant forall k :: 0 <= k < i ==> page.items[k] == Enrich(raw.items[k])
      invariant forall k :: i <= k < |raw.items| ==> page.items[k] == raw.items[k]
    {
      var item := EnrichMessagePayload(page.items[i]);
      page := page.(items := page.items[i := item]);
    }
    assert page.items == EnrichAll(raw.items);
    PageOfEnriched(RawHistory(db.View(), q.chat), q.before, clamped);
    r := Success(page);
  }

  /** An event for one client: nothing to send it on, no room in time, or enqueued. */
  method SendTo(registry: Registry, login: Login, e: OutEvent, drains: bool) returns (r: Result<(), HistoryError>)
    requires registry.Valid()
    modifies if login in registry.clients then {registry.clients[login]} else {}
    ensures registry.Valid()
    ensures r == if login !in registry.clients then Failure(Offline)
                 else if !HasRoom(old(registry.clients[login].queue), drains) then Failure(ResponseTimeout)
                 else Success(())
    ensures login in registry.clients ==>
              registry.clients[login].queue == if r.Success? then Enqueued(old(registry.clients[login].queue), e)
                                               else old(registry.clients[login].queue)
  {
    var client := registry.GetClient(login);
    if client.None? { return Failure(Offline); }
    var sent := client.value.Offer(e, drains);
    r := if sent then Success(()) else Failure(ResponseTimeout);
  }

  /** The answer, or an error event that names the reason; and no other queue is touched. */
  method HandleGetMessageHistory(db: Database, registry: Registry, login: Login, q: HistoryEventData,
                                 faults: HistoryFaults, drains: Drains)
    returns (r: Result<(), HistoryError>)
    requires WellFormed(db.View()) && registry.Valid()
    modifies if login in registry.clients then {registry.clients[login]} else {}
    ensures registry.Valid()
    // exactly for a member of an existing chat under its own login, without faults, online and with room
    ensures r.Success? <==>
            && !faults.decode && !faults.chat && !faults.membership && !faults.load
            && !faults.encodePage && !faults.encodeEvent
            && q.chat > 0 && (q.claimed == "" || q.claimed == login) && q.chat in db.maxMembers
            && q.chat in db.members && login in db.members[q.chat]
            && login in registry.clients && (|old(registry.clients[login].queue)| < 32 || drains.answer)
    // then the page is the last event of its queue; no page is sent otherwise
    ensures r.Success? ==>
            && login in registry.clients
            && TakenLast(old(registry.clients[login].queue), registry.clients[login].queue,
                         HistoryEvent(q.chat, PageOf(History(db.View(), q.chat), q.before, ClampLimit(q.limit))))
    // the first step to fail names the error
    ensures faults.decode ==> r == Failure(InvalidPayload)
    ensures !faults.decode ==> (r == Failure(InvalidChat) <==> q.chat <= 0)
    ensures !faults.decode && q.chat > 0 ==> (r == Failure(LoginMismatch) <==> q.claimed != "" && q.claimed != login)
    ensures !faults.decode && q.chat > 0 && (q.claimed == "" || q.claimed == login) ==>
            && (r == Failure(ChatCheckFailed) <==> faults.chat)
            && (r == Failure(ChatMissing) <==> !faults.chat && q.chat !in db.maxMembers)
            && (r == Failure(MembershipCheckFailed) <==> !faults.chat && q.chat in db.maxMembers && faults.membership)
            && (r == Failure(AccessDenied) <==>
                  && !faults.chat && q.chat in db.maxMembers && !faults.membership
                  && !(q.chat in db.members && login in db.members[q.chat]))
    ensures && !faults.decode && !faults.chat && !faults.membership
            && q.chat > 0 && (q.claimed == "" || q.claimed == login) && q.chat in db.maxMembers
            && q.chat in db.members && login in db.members[q.chat] && r.Failure? ==>
            r.error == if faults.load then LoadFailed
                       else if faults.encodePage then EncodeFailed
                       else if faults.encodeEvent then EventEncodeFailed
                       else if login !in registry.clients then Offline else ResponseTimeout
    // and an online client with room is told, with the chat it asked for if that could be read
    ensures r.Failure? && login in registry.clients ==>
            if !faults.encodeError && (|old(registry.clients[login].queue)| < 32 || drains.error) then
              TakenLast(old(registry.clients[login].queue), registry.clients[login].queue,
                        HistoryErrorEvent(if faults.decode then 0 else q.chat, ErrorText(r.error)))
            else registry.clients[login].queue == old(registry.clients[login].queue)
  {
    GuardsMean(db.View(), login, q, faults);
    r := Answer(db, registry, login, q, faults, drains.answer);
    if login in registry.clients && r.Success? {
      EnqueuedLast(old(registry.clients[login].queue),
                   HistoryEvent(q.chat, PageOf(History(db.View(), q.chat), q.before, ClampLimit(q.limit))));
    }
    if r.Failure? && !faults.encodeError {
      var chat := if faults.decode then 0 else q.chat;
      var told := SendTo(registry, login, HistoryErrorEvent(chat, ErrorText(r.error)), drains.error);
      if login in registry.clients {
        EnqueuedLast(old(registry.clients[login].queue), HistoryErrorEvent(chat, ErrorText(r.error)));
      }
    }
  }

  /** The handler up to its answer. */
  method Answer(db: Database, registry: Registry, login: Login, q: HistoryEventData, faults: HistoryFaults,
                drains: bool)
    returns (r: Result<(), HistoryError>)
    requires WellFormed(db.View()) && registry.Valid()
    modifies if login in registry.clients then {registry.clients[login]} else {}
    ensures registry.Valid()
    ensures r.Success? <==>
            && Loads(db.View(), login, q, faults) && !faults.encodePage && !faults.encodeEvent
            && login in registry.clients && HasRoom(old(registry.clients[login].queue), drains)
    ensures r.Failure? ==>
            r.error == if !Loads(db.View(), login, q, faults) then LoadError(db.View(), login, q, faults)
                       else if faults.encodePage then EncodeFailed
                       else if faults.encodeEvent then EventEncodeFailed
                       else if login !in registry.clients then Offline else ResponseTimeout
    ensures login in registry.clients ==>
            registry.clients[login].queue ==
            if r.Success? then
              Enqueued(old(registry.clients[login].queue),
                       HistoryEvent(q.chat, PageOf(History(db.View(), q.chat), q.before, ClampLimit(q.limit))))
            else old(registry.clients[login].queue)
  {
    var page := LoadPage(db, login, q, faults);
    if page.Failure? { return Failure(page.error); }
    if faults.encodePage { return Failure(EncodeFailed); }
    if faults.encodeEvent { return Failure(EventEncodeFailed); }
    r := SendTo(registry, login, HistoryEvent(q.chat, page.value), drains);
  }
}
