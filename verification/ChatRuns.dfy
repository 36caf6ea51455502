/** Server, network and browser together. The network keeps every request and answer
    for ever, so each may be delayed, lost, repeated or overtaken. A run is any
    sequence of events; an event whose guard fails changes nothing. */
module ChatRuns {
  import opened Ordering
  import opened Wrappers
  import opened Messages
  import opened MessageLists
  import opened Tables
  import opened Saving
  import opened Paging
  import opened ChatHistory
  import opened Browser
  import Walks = HistoryWalk

  datatype Answer = Answer(request: HistoryRequest, page: Page)

  /** `first` records each chat's history when its first request was served. */
  datatype State = State(tables: Tables, browser: BrowserState, login: Login, requests: set<HistoryRequest>,
                         answers: set<Answer>, pushes: set<Message>, first: map<int, seq<Message>>)

  datatype Event =
    | NewChat(chat: int, max: nat)
    | AddUser(chat: int, user: Login)
    | Store(draft: Draft, id: int, now: int)
    | Serve(request: HistoryRequest)
    | Select(chat: int)
    | Scroll(nearTop: bool)
    | DeliverAnswer(answer: Answer)
    | DeliverError(chat: int)
    | DeliverPush(m: Message)
    | DeliverUpload(m: Message)
    | SendText(m: Message)
    | Timeout(timer: nat)

  function Start(login: Login): State {
    State(Tables(map[], map[], [], []), START, login, {}, {}, {}, map[])
  }

  function Requested(s: State, browser: BrowserState, request: Option<HistoryRequest>): State {
    s.(browser := browser, requests := if request.Some? then s.requests + {request.value} else s.requests)
  }

  /** The guards of the history handler. */
  predicate MayServe(s: State, chat: int) {
    chat > 0 && chat in s.tables.maxMembers && s.login in Members(s.tables, chat)
  }

  function Served(s: State, r: HistoryRequest): Answer {
    Answer(r, PageOf(History(s.tables, r.chat), r.before, ClampLimit(r.limit)))
  }

  function Snapshots(s: State, chat: int): map<int, seq<Message>> {
    if chat in s.first then s.first else s.first[chat := History(s.tables, chat)]
  }

  function Next(s: State, e: Event): State {
    match e
    case NewChat(chat, max) =>
      (match CreateChat(s.tables, chat, max) case None => s case Some(t) => s.(tables := t))
    case AddUser(chat, user) =>
      (match AddUserToChat(s.tables, chat, user) case None => s case Some(t) => s.(tables := t))
    case Store(d, id, now) =>
      (match Save(s.tables, d, id, now)
       case None => s
       case Some(t) => s.(tables := t, pushes := s.pushes + {Enrich(PayloadOf(d, id, now))}))
    case Serve(r) =>
      if r in s.requests && MayServe(s, r.chat) then
        s.(answers := s.answers + {Served(s, r)}, first := Snapshots(s, r.chat))
      else s
    case Select(chat) => Requested(s, Selected(s.browser, chat), Request(s.browser, chat, None))
    case Scroll(nearTop) => Requested(s, Scrolled(s.browser, nearTop), ScrollRequest(s.browser, nearTop))
    case DeliverAnswer(a) =>
      if a in s.answers then s.(browser := Answered(s.browser, a.request.chat, a.page)) else s
    case DeliverError(chat) => s.(browser := Failed(s.browser, chat))
    case DeliverPush(m) => if m in s.pushes then s.(browser := PushArrived(s.browser, m)) else s
    case DeliverUpload(m) => if m in s.pushes then s.(browser := UploadAnswered(s.browser, m)) else s
    case SendText(m) => if m.id > MAX_INT4 then s.(browser := TextSent(s.browser, m)) else s
    case Timeout(timer) => s.(browser := TimedOut(s.browser, timer))
  }

  function Run(s: State, events: seq<Event>): State {
    if events == [] then s else Next(Run(s, events[..|events| - 1]), events[|events| - 1])
  }

  // ---- the invariant ---------------------------------------------------------

  /** An item is a stored message of the chat or an optimistic copy. */
  ghost predicate Genuine(t: Tables, chat: int, m: Message) {
    m.id > MAX_INT4 || m in History(t, chat)
  }

  /** At or above the cursor; everything is, when there is no cursor. */
  predicate Reached(m: Message, cursor: Option<Key>) {
    cursor.None? || !Less(ServerKey(m), cursor.value)
  }

  ghost predicate AllReached(snapshot: seq<Message>, cursor: Option<Key>, items: seq<Message>) {
    forall m :: m in snapshot && Reached(m, cursor) ==> m in items
  }

  ghost predicate ChatOk(t: Tables, first: map<int, seq<Message>>, chat: int, c: ChatState) {
    && Listing(c)
    && (forall m :: m in c.items ==> Genuine(t, chat, m))
    && (c.initialized ==>
          (c.hasMore <==> c.nextCursor.Some?) && chat in first && AllReached(first[chat], c.nextCursor, c.items))
  }

  ghost predicate BrowserOk(t: Tables, first: map<int, seq<Message>>, v: BrowserState) {
    BrowserValid(v) && forall chat :: chat in v.chats ==> ChatOk(t, first, chat, v.chats[chat])
  }

  ghost predicate SnapshotsOk(t: Tables, first: map<int, seq<Message>>) {
    forall chat, m :: chat in first && m in first[chat] ==> m in History(t, chat)
  }

  /** The page fills the gap between its own cursor and the cursor it was asked with. */
  ghost predicate AnswerOk(t: Tables, first: map<int, seq<Message>>, a: Answer) {
    && a.request.chat in first
    && (a.page.hasMore <==> a.page.nextCursor.Some?)
    && (forall m :: m in a.page.items ==> m in History(t, a.request.chat))
    && (forall m :: m in first[a.request.chat] && BelowCursor(m, a.request.before) && Reached(m, a.page.nextCursor) ==>
          m in a.page.items)
  }

  /** A request below a cursor is sent only when everything above it is already there. */
  ghost predicate RequestOk(first: map<int, seq<Message>>, v: BrowserState, r: HistoryRequest) {
    r.before.Some? ==> r.chat in first && AllReached(first[r.chat], r.before, ChatOf(v, r.chat).items)
  }

  ghost predicate Inv(s: State) {
    && WellFormed(s.tables)
    && SnapshotsOk(s.tables, s.first)
    && BrowserOk(s.tables, s.first, s.browser)
    && (forall m :: m in s.pushes ==> m in History(s.tables, m.chatId))
    && (forall a :: a in s.answers ==> AnswerOk(s.tables, s.first, a) && a.request in s.requests)
    && (forall r :: r in s.requests ==> RequestOk(s.first, s.browser, r))
  }

  // ---- stored messages -------------------------------------------------------

  lemma StoredIds(t: Tables, chat: int, x: Message, y: Message)
    requires WellFormed(t) && x in History(t, chat)
    ensures x.id <= MAX_INT4 && x.chatId == chat
    ensures y in History(t, chat) && y.id == x.id ==> x == y
  {
    HistoryElements(t, chat);
    var r :| r in t.messages && r.chatId == chat && x == Item(t, r);
    if y in History(t, chat) && y.id == x.id {
      var q :| q in t.messages && q.chatId == chat && y == Item(t, q);
      SameRow(t, r, q);
    }
  }

  lemma SameRow(t: Tables, r: MessageRow, q: MessageRow)
    requires WellFormed(t) && r in t.messages && q in t.messages && r.id == q.id
    ensures r == q
  {
  }

  /** Merging genuine messages loses no stored one and invents none. */
  lemma MergeGenuine(t: Tables, chat: int, a: seq<Message>, b: seq<Message>)
    requires WellFormed(t)
    requires forall m :: m in a || m in b ==> Genuine(t, chat, m)
    ensures forall m :: m in Merge(a, b) ==> Genuine(t, chat, m)
    ensures forall m :: (m in a || m in b) && m in History(t, chat) ==> m in Merge(a, b)
  {
    forall m | m in Merge(a, b) ensures Genuine(t, chat, m) {
      MergeKeeps(a, b, m);
    }
    forall m | (m in a || m in b) && m in History(t, chat) ensures m in Merge(a, b) {
      forall x | x in a + b && x.id == m.id ensures x == m {
        StoredIds(t, chat, m, x);
      }
      MergeKeeps(a, b, m);
    }
  }

  // ---- one chat's record -----------------------------------------------------

  /** `c'` has every stored message that `c` has. */
  ghost predicate KeepsStored(t: Tables, chat: int, c: ChatState, c': ChatState) {
    forall m :: m in c.items && m in History(t, chat) ==> m in c'.items
  }

  lemma PageKeeps(t: Tables, first: map<int, seq<Message>>, chat: int, c: ChatState, page: Page, prepend: bool)
    requires WellFormed(t) && ChatOk(t, first, chat, c)
    requires forall m :: m in page.items ==> m in History(t, chat)
    ensures var c' := MergedPage(c, page, prepend);
            && Listing(c') && (forall m :: m in c'.items ==> Genuine(t, chat, m))
            && KeepsStored(t, chat, c, c')
            && (forall m :: m in page.items ==> m in c'.items)
  {
    ApplyKeepsListing(c, PageDelivery(page, prepend));
    if prepend {
      NotInElements(page.items, c.itemIds);
      var unseen := NotIn(page.items, c.itemIds);
      MergeGenuine(t, chat, unseen, c.items);
      forall m | m in page.items && m.id in c.itemIds ensures m in c.items {
        var x :| x in c.items && x.id == m.id;
        StoredIds(t, chat, m, x);
      }
    } else {
      MergeGenuine(t, chat, c.items, page.items);
    }
  }

  /** Gap-freedom of one answer: what was above the request's cursor is already there,
      the rest down to the new cursor comes with the page. */
  lemma AnswerKeeps(t: Tables, first: map<int, seq<Message>>, chat: int, c: ChatState, a: Answer, prepend: bool)
    requires WellFormed(t) && SnapshotsOk(t, first) && ChatOk(t, first, chat, c)
    requires AnswerOk(t, first, a) && a.request.chat == chat
    requires a.request.before.Some? ==> AllReached(first[chat], a.request.before, c.items)
    ensures var c' := MergedPage(c, a.page, prepend);
            ChatOk(t, first, chat, c') && KeepsStored(t, chat, c, c')
  {
    PageKeeps(t, first, chat, c, a.page, prepend);
  }

  lemma ItemKeeps(t: Tables, first: map<int, seq<Message>>, chat: int, c: ChatState, m: Message)
    requires WellFormed(t) && SnapshotsOk(t, first) && ChatOk(t, first, chat, c) && Genuine(t, chat, m)
    ensures ChatOk(t, first, chat, Sent(c, m)) && KeepsStored(t, chat, c, Sent(c, m))
    ensures ChatOk(t, first, chat, Pushed(c, m)) && KeepsStored(t, chat, c, Pushed(c, m))
    ensures ChatOk(t, first, chat, Uploaded(c, m)) && KeepsStored(t, chat, c, Uploaded(c, m))
  {
    ApplyKeepsListing(c, Send(m));
    MergeGenuine(t, chat, c.items, [m]);
    if m.id !in c.itemIds { UploadedIsMerge(c, m); }
  }

  // ---- the browser -----------------------------------------------------------

  ghost predicate BrowserKeeps(t: Tables, v: BrowserState, v': BrowserState) {
    forall chat :: KeepsStored(t, chat, ChatOf(v, chat), ChatOf(v', chat))
  }

  lemma ChatIsOk(t: Tables, first: map<int, seq<Message>>, v: BrowserState, chat: int)
    requires BrowserOk(t, first, v)
    ensures ChatOk(t, first, chat, ChatOf(v, chat)) && FlagsOk(ChatOf(v, chat))
  {
  }

  /** Flags and timers do not matter to what is listed. */
  lemma SameRecordsOk(t: Tables, first: map<int, seq<Message>>, v: BrowserState, v': BrowserState)
    requires BrowserOk(t, first, v) && BrowserValid(v') && SameRecords(v, v')
    ensures BrowserOk(t, first, v') && BrowserKeeps(t, v, v')
  {
    forall chat | chat in v'.chats ensures ChatOk(t, first, chat, v'.chats[chat]) {
      ChatIsOk(t, first, v, chat);
      assert SameRecord(ChatOf(v, chat), ChatOf(v', chat));
    }
    forall chat ensures KeepsStored(t, chat, ChatOf(v, chat), ChatOf(v', chat)) {
      assert SameRecord(ChatOf(v, chat), ChatOf(v', chat));
    }
  }

  /** Changing one chat's list leaves the others in order. */
  lemma ChangedChatOk(t: Tables, first: map<int, seq<Message>>, v: BrowserState, v': BrowserState, chat: int)
    requires BrowserOk(t, first, v) && BrowserValid(v') && OnlyChat(v, v', chat)
    requires ChatOk(t, first, chat, ChatOf(v', chat)) && KeepsStored(t, chat, ChatOf(v, chat), ChatOf(v', chat))
    ensures BrowserOk(t, first, v') && BrowserKeeps(t, v, v')
  {
  }

  lemma AnsweredOk(t: Tables, first: map<int, seq<Message>>, v: BrowserState, a: Answer)
    requires WellFormed(t) && SnapshotsOk(t, first) && BrowserOk(t, first, v)
    requires AnswerOk(t, first, a) && RequestOk(first, v, a.request)
    ensures var v' := Answered(v, a.request.chat, a.page);
            BrowserOk(t, first, v') && BrowserKeeps(t, v, v')
  {
    var chat := a.request.chat;
    if chat != 0 {
      var c := ChatOf(v, chat);
      ChatIsOk(t, first, v, chat);
      AnsweredEffects(v, chat, a.page);
      AnswerKeeps(t, first, chat, c.(loadingInitial := false, loadingOlder := false, timer := None), a, c.loadingOlder);
      ChangedChatOk(t, first, v, Answered(v, chat, a.page), chat);
    } else {
      assert Answered(v, chat, a.page) == v;
    }
  }

  lemma PushedOk(t: Tables, first: map<int, seq<Message>>, v: BrowserState, m: Message)
    requires WellFormed(t) && SnapshotsOk(t, first) && BrowserOk(t, first, v) && Genuine(t, m.chatId, m)
    ensures BrowserOk(t, first, PushArrived(v, m)) && BrowserKeeps(t, v, PushArrived(v, m))
  {
    ChatIsOk(t, first, v, m.chatId);
    ItemKeeps(t, first, m.chatId, ChatOf(v, m.chatId), m);
    ItemEnters(v, m);
    ChangedChatOk(t, first, v, PushArrived(v, m), m.chatId);
  }

  lemma UploadedOk(t: Tables, first: map<int, seq<Message>>, v: BrowserState, m: Message)
    requires WellFormed(t) && SnapshotsOk(t, first) && BrowserOk(t, first, v) && Genuine(t, m.chatId, m)
    ensures BrowserOk(t, first, UploadAnswered(v, m)) && BrowserKeeps(t, v, UploadAnswered(v, m))
  {
    ChatIsOk(t, first, v, m.chatId);
    ItemKeeps(t, first, m.chatId, ChatOf(v, m.chatId), m);
    ItemEnters(v, m);
    ChangedChatOk(t, first, v, UploadAnswered(v, m), m.chatId);
  }

  lemma SentOk(t: Tables, first: map<int, seq<Message>>, v: BrowserState, m: Message)
    requires WellFormed(t) && SnapshotsOk(t, first) && BrowserOk(t, first, v) && Genuine(t, m.chatId, m)
    ensures BrowserOk(t, first, TextSent(v, m)) && BrowserKeeps(t, v, TextSent(v, m))
  {
    if v.active == Some(m.chatId) {
      ChatIsOk(t, first, v, m.chatId);
      ItemKeeps(t, first, m.chatId, ChatOf(v, m.chatId), m);
      ItemEnters(v, m);
      ChangedChatOk(t, first, v, TextSent(v, m), m.chatId);
    }
  }

  // ---- the steps -------------------------------------------------------------

  lemma BrowserStep(s: State, v: BrowserState)
    requires Inv(s) && BrowserOk(s.tables, s.first, v) && BrowserKeeps(s.tables, s.browser, v)
    ensures Inv(s.(browser := v))
  {
  }

  ghost predicate HistoriesGrow(t: Tables, t': Tables) {
    forall chat, m :: m in History(t, chat) ==> m in History(t', chat)
  }

  lemma TablesGrow(s: State, t: Tables)
    requires Inv(s) && WellFormed(t) && HistoriesGrow(s.tables, t)
    ensures Inv(s.(tables := t))
  {
  }

  lemma SameMessages(t: Tables, t': Tables)
    requires WellFormed(t) && WellFormed(t') && t'.messages == t.messages && t'.attachments == t.attachments
    ensures HistoriesGrow(t, t')
  {
    forall chat, m | m in History(t, chat) ensures m in History(t', chat) {
      HistoryElements(t, chat);
      HistoryElements(t', chat);
      var r :| r in t.messages && r.chatId == chat && m == Item(t, r);
      assert m == Item(t', r);
    }
  }

  lemma StoreStep(s: State, d: Draft, id: int, now: int)
    requires Inv(s)
    ensures Inv(Next(s, Store(d, id, now)))
  {
    if Save(s.tables, d, id, now).Some? {
      var t := Save(s.tables, d, id, now).value;
      SaveKeepsWellFormed(s.tables, d, id, now);
      forall chat, m | m in History(s.tables, chat) ensures m in History(t, chat) {
        SaveExtendsHistory(s.tables, d, id, now, chat);
      }
      SaveExtendsHistory(s.tables, d, id, now, d.chat);
      TablesGrow(s, t);
    }
  }

  lemma MembershipStep(s: State, t: Tables)
    requires Inv(s) && WellFormed(t) && t.messages == s.tables.messages && t.attachments == s.tables.attachments
    ensures Inv(s.(tables := t))
  {
    SameMessages(s.tables, t);
    TablesGrow(s, t);
  }

  /** The first answer of a chat fixes its snapshot. */
  lemma SnapshotStep(s: State, chat: int)
    requires Inv(s) && chat !in s.first
    ensures Inv(s.(first := s.first[chat := History(s.tables, chat)]))
  {
  }

  lemma ServedOk(s: State, r: HistoryRequest)
    requires Inv(s) && r.chat in s.first
    ensures AnswerOk(s.tables, s.first, Served(s, r))
  {
    var h := History(s.tables, r.chat);
    HistoryElements(s.tables, r.chat);
    PageIsGreatest(h, r.before, ClampLimit(r.limit));
    PageCursor(h, r.before, ClampLimit(r.limit));
    var cursor := PageOf(h, r.before, ClampLimit(r.limit)).nextCursor;
    forall m | m in s.first[r.chat] && BelowCursor(m, r.before) && Reached(m, cursor)
      ensures m in PageOf(h, r.before, ClampLimit(r.limit)).items
    {
      PageCovers(h, r.before, ClampLimit(r.limit), m);
    }
  }

  lemma ServeStep(s: State, r: HistoryRequest)
    requires Inv(s) && r in s.requests
    ensures Inv(Next(s, Serve(r)))
  {
    if r.chat !in s.first {
      SnapshotStep(s, r.chat);
      ServedOk(s.(first := s.first[r.chat := History(s.tables, r.chat)]), r);
    } else {
      ServedOk(s, r);
    }
  }

  lemma RequestStep(s: State, r: HistoryRequest)
    requires Inv(s) && RequestOk(s.first, s.browser, r)
    ensures Inv(s.(requests := s.requests + {r}))
  {
  }

  /** Flags and timers may change at any moment. */
  lemma SameRecordsStep(s: State, v: BrowserState)
    requires Inv(s) && BrowserValid(v) && SameRecords(s.browser, v)
    ensures Inv(s.(browser := v))
  {
    SameRecordsOk(s.tables, s.first, s.browser, v);
    BrowserStep(s, v);
  }

  lemma LoadStep(s: State, v: BrowserState, chat: int, request: Option<HistoryRequest>)
    requires Inv(s) && BrowserValid(v) && SameRecords(s.browser, v)
    requires request.Some? ==> request.value.chat == chat
    requires request.Some? && request.value.before.Some? ==>
               ChatOf(v, chat).initialized && request.value.before == ChatOf(v, chat).nextCursor
    ensures Inv(Requested(s, v, request))
  {
    SameRecordsStep(s, v);
    if request.Some? {
      ChatIsOk(s.tables, s.first, v, chat);
      RequestStep(s.(browser := v), request.value);
    } else {
      assert Requested(s, v, request) == s.(browser := v);
    }
  }

  lemma ScrollStep(s: State, nearTop: bool)
    requires Inv(s)
    ensures Inv(Next(s, Scroll(nearTop)))
  {
    ScrolledEffects(s.browser, nearTop);
    LoadStep(s, Scrolled(s.browser, nearTop), if s.browser.active.Some? then s.browser.active.value else 0,
             ScrollRequest(s.browser, nearTop));
  }

  lemma SelectStep(s: State, chat: int)
    requires Inv(s)
    ensures Inv(Next(s, Select(chat)))
  {
    SelectedEffects(s.browser, chat);
    LoadStep(s, Selected(s.browser, chat), chat, Request(s.browser, chat, None));
  }

  lemma MemberStep(s: State, e: Event)
    requires Inv(s) && (e.NewChat? || e.AddUser?)
    ensures Inv(Next(s, e))
  {
    match e {
      case NewChat(chat, max) =>
        if CreateChat(s.tables, chat, max).Some? {
          CreateChatKeepsWellFormed(s.tables, chat, max);
          MembershipStep(s, CreateChat(s.tables, chat, max).value);
        }
      case AddUser(chat, user) =>
        if AddUserToChat(s.tables, chat, user).Some? {
          AddUserKeepsWellFormed(s.tables, chat, user);
          MembershipStep(s, AddUserToChat(s.tables, chat, user).value);
        }
    }
  }

  lemma AnswerStep(s: State, a: Answer)
    requires Inv(s) && a in s.answers
    ensures Inv(s.(browser := Answered(s.browser, a.request.chat, a.page)))
  {
    AnsweredOk(s.tables, s.first, s.browser, a);
    BrowserStep(s, Answered(s.browser, a.request.chat, a.page));
  }

  lemma FinishStep(s: State, chat: int)
    requires Inv(s)
    ensures Inv(s.(browser := Finished(s.browser, chat)))
  {
    FinishedEnds(s.browser, chat);
    SameRecordsStep(s, Finished(s.browser, chat));
  }

  lemma TimeoutStep(s: State, timer: nat)
    requires Inv(s)
    ensures Inv(s.(browser := TimedOut(s.browser, timer)))
  {
    if timer in s.browser.timers { TimedOutEnds(s.browser, timer); }
    SameRecordsStep(s, TimedOut(s.browser, timer));
  }

  lemma ItemStep(s: State, m: Message)
    requires Inv(s) && Genuine(s.tables, m.chatId, m)
    ensures Inv(s.(browser := PushArrived(s.browser, m)))
    ensures Inv(s.(browser := UploadAnswered(s.browser, m)))
    ensures Inv(s.(browser := TextSent(s.browser, m)))
  {
    PushedOk(s.tables, s.first, s.browser, m);
    BrowserStep(s, PushArrived(s.browser, m));
    UploadedOk(s.tables, s.first, s.browser, m);
    BrowserStep(s, UploadAnswered(s.browser, m));
    SentOk(s.tables, s.first, s.browser, m);
    BrowserStep(s, TextSent(s.browser, m));
  }

  /** The three single-message events only touch the browser. */
  lemma ItemEvents(s: State, e: Event)
    requires e.DeliverPush? || e.DeliverUpload? || e.SendText?
    ensures var guard := if e.SendText? then e.m.id > MAX_INT4 else e.m in s.pushes;
            Next(s, e) == if !guard then s
                          else if e.DeliverPush? then s.(browser := PushArrived(s.browser, e.m))
                          else if e.DeliverUpload? then s.(browser := UploadAnswered(s.browser, e.m))
                          else s.(browser := TextSent(s.browser, e.m))
  {
  }

  lemma DeliveryStep(s: State, e: Event)
    requires Inv(s) && (e.DeliverPush? || e.DeliverUpload? || e.SendText?)
    ensures Inv(Next(s, e))
  {
    ItemEvents(s, e);
    if if e.SendText? then e.m.id > MAX_INT4 else e.m in s.pushes {
      ItemStep(s, e.m);
    }
  }

  lemma LoadingStep(s: State, e: Event)
    requires Inv(s) && (e.Select? || e.DeliverError? || e.Timeout?)
    ensures Inv(Next(s, e))
  {
    match e {
      case Select(chat) => SelectStep(s, chat);
      case DeliverError(chat) =>
        if chat != 0 || s.browser.active.Some? {
          FinishStep(s, if chat != 0 then chat else s.browser.active.value);
        }
      case Timeout(timer) =>
        TimeoutStep(s, timer);
        assert Next(s, e) == s.(browser := TimedOut(s.browser, timer));
    }
  }

  lemma StepKeepsInv(s: State, e: Event)
    requires Inv(s)
    ensures Inv(Next(s, e))
  {
    match e
    case NewChat(_, _) => MemberStep(s, e);
    case AddUser(_, _) => MemberStep(s, e);
    case Store(d, id, now) => StoreStep(s, d, id, now);
    case Serve(r) => if r in s.requests { ServeStep(s, r); }
    case Scroll(nearTop) => ScrollStep(s, nearTop);
    case Select(_) => LoadingStep(s, e);
    case DeliverError(_) => LoadingStep(s, e);
    case Timeout(_) => LoadingStep(s, e);
    case DeliverAnswer(a) => if a in s.answers { AnswerStep(s, a); }
    case DeliverPush(_) => DeliveryStep(s, e);
    case DeliverUpload(_) => DeliveryStep(s, e);
    case SendText(_) => DeliveryStep(s, e);
  }

  /** Every run, from any state in order, stays in order. */
  lemma {:induction false} RunKeepsInv(s: State, events: seq<Event>)
    requires Inv(s)
    ensures Inv(Run(s, events))
  {
    if events != [] {
      RunKeepsInv(s, events[..|events| - 1]);
      StepKeepsInv(Run(s, events[..|events| - 1]), events[|events| - 1]);
    }
  }

  // ---- what every run keeps ----------------------------------------------------

  /** No gaps: in every reachable state an initialized chat lists every message of its
      snapshot at or above the cursor, and all of it once there is no cursor. */
  lemma NoGaps(login: Login, events: seq<Event>, chat: int, m: Message)
    ensures var s := Run(Start(login), events);
            var c := ChatOf(s.browser, chat);
            c.initialized ==> chat in s.first && (m in s.first[chat] && Reached(m, c.nextCursor) ==> m in c.items)
  {
    RunKeepsInv(Start(login), events);
    var s := Run(Start(login), events);
    ChatIsOk(s.tables, s.first, s.browser, chat);
  }

  /** No phantoms: what is listed is stored in that chat, as listed, or is an optimistic copy;
      the list is strictly sorted, without repeated ids, and `itemIds` matches it. */
  lemma NoPhantoms(login: Login, events: seq<Event>, chat: int)
    ensures var s := Run(Start(login), events);
            var c := ChatOf(s.browser, chat);
            Listing(c) && forall m :: m in c.items && m.id <= MAX_INT4 ==> m in History(s.tables, chat)
  {
    RunKeepsInv(Start(login), events);
    var s := Run(Start(login), events);
    ChatIsOk(s.tables, s.first, s.browser, chat);
    forall m | m in ChatOf(s.browser, chat).items && m.id <= MAX_INT4 ensures m in History(s.tables, chat) {
      assert Genuine(s.tables, chat, m);
    }
  }

  /** The loading flags, the timer and the cursor agree in every reachable state; a chat
      is loading exactly while a timer that will abort it is armed. */
  lemma LoadingIsGuarded(login: Login, events: seq<Event>, chat: int)
    ensures var v := Run(Start(login), events).browser;
            var c := ChatOf(v, chat);
            && !(c.loadingInitial && c.loadingOlder) && (c.loadingOlder ==> c.initialized)
            && (c.initialized ==> !c.loadingInitial && (c.hasMore <==> c.nextCursor.Some?))
            && (c.loadingInitial || c.loadingOlder <==> TimerFor(v, chat))
  {
    RunKeepsInv(Start(login), events);
    var s := Run(Start(login), events);
    ChatIsOk(s.tables, s.first, s.browser, chat);
  }

  /** What the events are for: a stored message can be pushed; a push, an upload response and a
      sent text are listed; an answer initializes its chat; an error and a timer end a loading. */
  lemma EventsTakeEffect(s: State, e: Event)
    requires Inv(s)
    ensures var t := Next(s, e);
            && (e.Store? && Save(s.tables, e.draft, e.id, e.now).Some? ==>
                  && t.tables == Save(s.tables, e.draft, e.id, e.now).value
                  && Enrich(PayloadOf(e.draft, e.id, e.now)) in t.pushes)
            && ((e.DeliverPush? || e.DeliverUpload?) && e.m in s.pushes ==>
                  e.m.id in ChatOf(t.browser, e.m.chatId).itemIds)
            && (e.SendText? && e.m.id > 0x7FFF_FFFF && s.browser.active == Some(e.m.chatId) ==>
                  e.m in ChatOf(t.browser, e.m.chatId).items)
            && (e.DeliverAnswer? && e.answer in s.answers && e.answer.request.chat != 0 ==>
                  ChatOf(t.browser, e.answer.request.chat).initialized && Idle(t.browser, e.answer.request.chat))
            && (e.DeliverError? && e.chat != 0 ==> Idle(t.browser, e.chat))
            && (e.Timeout? && e.timer in s.browser.timers ==> Idle(t.browser, s.browser.timers[e.timer]))
  {
    if e.DeliverPush? || e.DeliverUpload? || e.SendText? {
      ItemEnters(s.browser, e.m);
      ItemEvents(s, e);
    }
    if e.DeliverAnswer? && e.answer.request.chat != 0 {
      AnsweredEffects(s.browser, e.answer.request.chat, e.answer.page);
    }
    if e.DeliverError? && e.chat != 0 { FinishedEnds(s.browser, e.chat); }
    if e.Timeout? && e.timer in s.browser.timers { TimedOutEnds(s.browser, e.timer); }
  }

  /** Everything pushed or returned at save time is, in every later state, the item the
      history shows for that id. */
  lemma PushesAreHistory(login: Login, events: seq<Event>, m: Message)
    ensures var s := Run(Start(login), events);
            m in s.pushes ==> m in History(s.tables, m.chatId)
  {
    RunKeepsInv(Start(login), events);
  }

  /** Every answer ever served is for an existing chat of which the asking login is a member. */
  ghost predicate ServedToMember(s: State, a: Answer) {
    && a.request.chat > 0 && a.request.chat in s.tables.maxMembers
    && a.request.chat in s.tables.members && s.login in s.tables.members[a.request.chat]
  }

  lemma NextServesMembers(s: State, e: Event, a: Answer)
    requires (a in s.answers ==> ServedToMember(s, a)) && a in Next(s, e).answers
    ensures ServedToMember(Next(s, e), a)
  {
  }

  /** No history leaks: whatever is requested, delayed or repeated, only a chat's members are
      ever served a page of it. */
  lemma {:induction false} ServedToMembers(login: Login, events: seq<Event>, a: Answer)
    ensures var s := Run(Start(login), events);
            a in s.answers ==>
              && a.request.chat > 0 && a.request.chat in s.tables.maxMembers
              && a.request.chat in s.tables.members && login in s.tables.members[a.request.chat]
  {
    var s := Run(Start(login), events);
    SameLogin(login, events);
    if events != [] && a in s.answers {
      var front := events[..|events| - 1];
      ServedToMembers(login, front, a);
      SameLogin(login, front);
      NextServesMembers(Run(Start(login), front), events[|events| - 1], a);
    }
  }

  lemma {:induction false} SameLogin(login: Login, events: seq<Event>)
    ensures Run(Start(login), events).login == login
  {
    if events != [] { SameLogin(login, events[..|events| - 1]); }
  }

  lemma StoreGrows(s: State, d: Draft, id: int, now: int)
    requires Inv(s)
    ensures HistoriesGrow(s.tables, Next(s, Store(d, id, now)).tables)
  {
    if Save(s.tables, d, id, now).Some? {
      forall chat, m | m in History(s.tables, chat) ensures m in History(Save(s.tables, d, id, now).value, chat) {
        SaveExtendsHistory(s.tables, d, id, now, chat);
      }
    }
  }

  lemma StepGrows(s: State, e: Event)
    requires Inv(s)
    ensures Inv(Next(s, e)) && HistoriesGrow(s.tables, Next(s, e).tables)
  {
    StepKeepsInv(s, e);
    if e.Store? { StoreGrows(s, e.draft, e.id, e.now); } else { SameMessages(s.tables, Next(s, e).tables); }
  }

  /** Histories only grow along a run: no message, once shown, changes or disappears. */
  lemma {:induction false} HistoriesOnlyGrow(s: State, events: seq<Event>)
    requires Inv(s)
    ensures Inv(Run(s, events)) && HistoriesGrow(s.tables, Run(s, events).tables)
  {
    if events != [] {
      HistoriesOnlyGrow(s, events[..|events| - 1]);
      StepGrows(Run(s, events[..|events| - 1]), events[|events| - 1]);
    }
  }

  // ---- paging along a run --------------------------------------------------------

  /** The answers to one chat's first request and then, each time, to the request below the
      last page's cursor; and the history at the moment each was served. */
  datatype Trail = Trail(answers: seq<Answer>, requests: seq<Walks.Request>, next: Walks.Next)

  /** The event serves the next request of the trail. */
  predicate Follows(t: State, e: Event, chat: int, trail: Trail) {
    && e.Serve? && e.request.chat == chat && e.request in t.requests && MayServe(t, chat)
    && trail.next == Walks.Below(e.request.before)
  }

  function Extended(trail: Trail, t: State, r: HistoryRequest): Trail {
    Trail(trail.answers + [Served(t, r)], trail.requests + [Walks.Request(History(t.tables, r.chat), r.limit)],
          Walks.NextOf(Served(t, r).page))
  }

  /** The trail of one chat along a run: other answers, such as those to repeated requests,
      are not on it. */
  function Followed(s: State, events: seq<Event>, chat: int): Trail {
    if events == [] then Trail([], [], Walks.Below(None))
    else
      var front, e := events[..|events| - 1], events[|events| - 1];
      var t, trail := Run(s, front), Followed(s, front, chat);
      if Follows(t, e, chat, trail) then Extended(trail, t, e.request) else trail
  }

  /** The pages of successive answers, each in front of the earlier ones. */
  function Joined(answers: seq<Answer>): seq<Message> {
    if answers == [] then [] else answers[|answers| - 1].page.items + Joined(answers[..|answers| - 1])
  }

  /** The cursor the answer before the `i`-th left. */
  function CursorBefore(answers: seq<Answer>, i: nat): Option<Key>
    requires i <= |answers|
  {
    if i == 0 then None else answers[i - 1].page.nextCursor
  }

  /** The run put these answers on the network, the first to a request without a cursor and
      each later one to the request below the cursor of the answer before it. */
  ghost predicate Chained(s: State, answers: seq<Answer>, chat: int) {
    forall i :: 0 <= i < |answers| ==>
      && answers[i] in s.answers && answers[i].request.chat == chat
      && answers[i].request.before == CursorBefore(answers, i)
  }

  ghost predicate Linked(trail: Trail) {
    && |trail.requests| == |trail.answers|
    && trail.next == (if trail.answers == [] then Walks.Below(None)
                      else Walks.NextOf(trail.answers[|trail.answers| - 1].page))
  }

  lemma {:induction false} FollowedChained(s: State, events: seq<Event>, chat: int)
    ensures Chained(Run(s, events), Followed(s, events, chat).answers, chat) && Linked(Followed(s, events, chat))
  {
    if events != [] {
      var front, e := events[..|events| - 1], events[|events| - 1];
      FollowedChained(s, front, chat);
      AnswersStay(Run(s, front), e);
      var t, trail := Run(s, front), Followed(s, front, chat);
      if Follows(t, e, chat, trail) {
        AnswerServed(t, e.request);
        ChainExtends(Next(t, e), trail, Served(t, e.request), chat);
      }
    }
  }

  lemma AnswersStay(s: State, e: Event)
    ensures s.answers <= Next(s, e).answers
  {
  }

  lemma AnswerServed(s: State, r: HistoryRequest)
    requires r in s.requests && MayServe(s, r.chat)
    ensures Served(s, r) in Next(s, Serve(r)).answers
  {
  }

  lemma ChainExtends(s: State, trail: Trail, a: Answer, chat: int)
    requires Chained(s, trail.answers, chat) && Linked(trail) && trail.next == Walks.Below(a.request.before)
    requires a in s.answers && a.request.chat == chat
    ensures Chained(s, trail.answers + [a], chat)
  {
    var answers := trail.answers + [a];
    forall i | 0 <= i < |answers|
      ensures answers[i] in s.answers && answers[i].request.chat == chat
      ensures answers[i].request.before == CursorBefore(answers, i)
    {
      assert CursorBefore(answers, i) == CursorBefore(trail.answers, i);
      if i < |trail.answers| { assert answers[i] == trail.answers[i]; }
    }
  }

  lemma {:induction false} FollowedIsWalk(s: State, events: seq<Event>, chat: int)
    ensures var trail := Followed(s, events, chat);
            Walks.Progressed(None, trail.requests) == Walks.Progress(Joined(trail.answers), trail.next)
  {
    if events != [] {
      var front := events[..|events| - 1];
      var was, trail := Followed(s, front, chat), Followed(s, events, chat);
      FollowedIsWalk(s, front, chat);
      if trail != was {
        assert trail.requests[..|was.requests|] == was.requests && trail.answers[..|was.answers|] == was.answers;
      }
    }
  }

  lemma {:induction false} FollowedGrow(s: State, events: seq<Event>, chat: int)
    requires Inv(s)
    ensures var rs := Followed(s, events, chat).requests;
            Walks.Growing(rs) && forall r, m :: r in rs && m in r.history ==> m in History(Run(s, events).tables, chat)
  {
    if events != [] {
      var front := events[..|events| - 1];
      var t := Run(s, front);
      FollowedGrow(s, front, chat);
      HistoriesOnlyGrow(s, front);
      HistoryElements(t.tables, chat);
      StepGrows(t, events[|events| - 1]);
      var rs, rs' := Followed(s, front, chat).requests, Followed(s, events, chat).requests;
      forall i, m | 0 <= i < |rs'| - 1 && m in rs'[i].history ensures m in rs'[i + 1].history {
        assert rs'[i] == rs[i] && rs[i] in rs;
      }
    }
  }

  lemma WholeHistory(h: seq<Message>)
    requires Ascending(ServerKey, h)
    ensures Older(h, None) == h
  {
    OlderIsBelow(h, None);
  }

  /** What the walk theorems say of the answers of a run: follow the cursor from answer to
      answer until there is none, however much is stored meanwhile and with whatever keys,
      and the pages together are in order and list everything there was when the first was
      served; and exactly that, if and only if nothing was inserted below the cursor. */
  lemma WalkAlongRun(s: State, events: seq<Event>, chat: int)
    requires Inv(s)
    ensures var trail := Followed(s, events, chat);
            var items := Joined(trail.answers);
            trail.next.AtEnd? ==>
              && trail.requests != [] && Chained(Run(s, events), trail.answers, chat)
              && Ascending(ServerKey, items)
              && (forall m :: m in trail.requests[0].history ==> m in items)
              && (items == trail.requests[0].history <==> Walks.NothingInsertedBelow(None, trail.requests))
  {
    var rs := Followed(s, events, chat).requests;
    FollowedChained(s, events, chat);
    FollowedIsWalk(s, events, chat);
    FollowedGrow(s, events, chat);
    Walks.WalkIsProgress(None, rs);
    if Walks.Walk(None, rs).Finished? {
      Walks.WalkCovers(None, rs);
      Walks.WalkExact(None, rs);
      assert rs[0] in rs;
      WholeHistory(rs[0].history);
    }
  }

  // ---- every member can read everything --------------------------------------------

  lemma {:induction false} RunConcat(s: State, a: seq<Event>, b: seq<Event>)
    ensures Run(s, a + b) == Run(Run(s, a), b)
  {
    if b == [] {
      assert a + b == a;
    } else {
      assert (a + b)[..|a + b| - 1] == a + b[..|b| - 1];
      RunConcat(s, a, b[..|b| - 1]);
    }
  }

  lemma RunTwo(s: State, a: Event, b: Event)
    ensures Run(s, [a, b]) == Next(Next(s, a), b)
  {
    assert [a, b][..1] == [a] && [a][..0] == [];
    assert Run(s, [a]) == Next(Run(s, []), a);
  }

  /** The selected chat is initialized and not loading. */
  ghost predicate Ready(s: State, chat: int) {
    && MayServe(s, chat) && s.browser.active == Some(chat) && chat in s.first
    && ChatOf(s.browser, chat).initialized && Idle(s.browser, chat)
  }

  /** Only paging happened: no row changed, and the chat's snapshot is the one it had, or
      its history if it had none. */
  ghost predicate Paged(s: State, t: State, chat: int) {
    t.tables == s.tables && t.login == s.login && t.first == Snapshots(s, chat)
  }

  /** A request is served and its answer delivered at once. */
  lemma RoundTrip(s: State, r: HistoryRequest)
    requires MayServe(s, r.chat) && r in s.requests
    ensures var t := Run(s, [Serve(r), DeliverAnswer(Served(s, r))]);
            Paged(s, t, r.chat) && t.browser == Answered(s.browser, r.chat, Served(s, r).page)
  {
    var a := Served(s, r);
    RunTwo(s, Serve(r), DeliverAnswer(a));
    var t := s.(answers := s.answers + {a}, first := Snapshots(s, r.chat));
    assert Next(s, Serve(r)) == t;
    DeliveredAnswer(t, a);
  }

  lemma DeliveredAnswer(s: State, a: Answer)
    requires a in s.answers
    ensures Next(s, DeliverAnswer(a)) == s.(browser := Answered(s.browser, a.request.chat, a.page))
  {
  }

  lemma AnsweredReady(s: State, r: HistoryRequest)
    requires BrowserValid(s.browser) && MayServe(s, r.chat) && r in s.requests && s.browser.active == Some(r.chat)
    ensures var t := Run(s, [Serve(r), DeliverAnswer(Served(s, r))]);
            && Paged(s, t, r.chat) && Ready(t, r.chat)
            && ChatOf(t.browser, r.chat).nextCursor == Served(s, r).page.nextCursor
  {
    RoundTrip(s, r);
    AnsweredEffects(s.browser, r.chat, Served(s, r).page);
  }

  lemma Unloaded(s: State, chat: int)
    requires Inv(s) && chat != 0
    ensures var v := Next(s, DeliverError(chat)).browser;
            Next(s, DeliverError(chat)) == s.(browser := v) && BrowserValid(v) && Idle(v, chat)
  {
    FinishedEnds(s.browser, chat);
  }

  lemma SelectedReady(s: State, chat: int)
    requires Inv(s) && MayServe(s, chat) && Idle(s.browser, chat)
    ensures var t := Next(s, Select(chat));
            && t == s.(browser := t.browser, requests := t.requests)
            && BrowserValid(t.browser) && t.browser.active == Some(chat)
            && (if ChatOf(s.browser, chat).initialized then Ready(t, chat)
                else HistoryRequest(chat, PAGE_SIZE, None) in t.requests)
  {
    SelectedEffects(s.browser, chat);
    ChatIsOk(s.tables, s.first, s.browser, chat);
  }

  /** From any state of the chat: whatever is pending is given up, and the first page loaded. */
  lemma CanLoad(s: State, chat: int) returns (events: seq<Event>)
    requires Inv(s) && MayServe(s, chat)
    ensures Ready(Run(s, events), chat) && Paged(s, Run(s, events), chat)
  {
    var s1 := Next(s, DeliverError(chat));
    Unloaded(s, chat);
    StepKeepsInv(s, DeliverError(chat));
    var s2 := Next(s1, Select(chat));
    SelectedReady(s1, chat);
    events := [DeliverError(chat), Select(chat)];
    RunTwo(s, DeliverError(chat), Select(chat));
    if !ChatOf(s1.browser, chat).initialized {
      var r := HistoryRequest(chat, PAGE_SIZE, None);
      AnsweredReady(s2, r);
      RunConcat(s, events, [Serve(r), DeliverAnswer(Served(s2, r))]);
      events := events + [Serve(r), DeliverAnswer(Served(s2, r))];
    }
  }

  lemma ScrolledRequests(s: State, chat: int)
    requires Inv(s) && Ready(s, chat) && ChatOf(s.browser, chat).nextCursor.Some?
    ensures var t := Next(s, Scroll(true));
            && t == s.(browser := t.browser, requests := t.requests)
            && BrowserValid(t.browser) && t.browser.active == Some(chat)
            && HistoryRequest(chat, PAGE_SIZE, ChatOf(s.browser, chat).nextCursor) in t.requests
  {
    ChatIsOk(s.tables, s.first, s.browser, chat);
    ScrolledEffects(s.browser, true);
    assert WantsOlder(ChatOf(s.browser, chat), true);
  }

  /** What is left below the cursor. */
  function Left(s: State, chat: int): nat {
    var cursor := ChatOf(s.browser, chat).nextCursor;
    if cursor.None? then 0 else 1 + |Older(History(s.tables, chat), cursor)|
  }

  lemma PageShrinks(h: seq<Message>, before: Option<Key>)
    requires Ascending(ServerKey, h)
    ensures var next := PageOf(h, before, ClampLimit(PAGE_SIZE)).nextCursor;
            next.Some? ==> |Older(h, next)| < |Older(h, before)|
  {
    Walks.OlderSplits(h, before, ClampLimit(PAGE_SIZE));
    PageCursor(h, before, ClampLimit(PAGE_SIZE));
  }

  lemma CanLoadOlder(s: State, chat: int) returns (events: seq<Event>)
    requires Inv(s) && Ready(s, chat) && ChatOf(s.browser, chat).nextCursor.Some?
    ensures Ready(Run(s, events), chat) && Paged(s, Run(s, events), chat)
    ensures Left(Run(s, events), chat) < Left(s, chat)
  {
    var cursor := ChatOf(s.browser, chat).nextCursor;
    var r := HistoryRequest(chat, PAGE_SIZE, cursor);
    var t := Next(s, Scroll(true));
    ScrolledRequests(s, chat);
    AnsweredReady(t, r);
    HistoryElements(s.tables, chat);
    PageShrinks(History(s.tables, chat), cursor);
    events := [Scroll(true)];
    assert Run(s, events) == Next(Run(s, []), Scroll(true));
    RunConcat(s, events, [Serve(r), DeliverAnswer(Served(t, r))]);
    events := events + [Serve(r), DeliverAnswer(Served(t, r))];
  }

  lemma {:induction false} CanLoadAll(s: State, chat: int) returns (events: seq<Event>)
    requires Inv(s) && Ready(s, chat)
    ensures Ready(Run(s, events), chat) && Paged(s, Run(s, events), chat)
    ensures ChatOf(Run(s, events).browser, chat).nextCursor.None?
    decreases Left(s, chat)
  {
    events := [];
    if ChatOf(s.browser, chat).nextCursor.Some? {
      events := CanLoadOlder(s, chat);
      var t := Run(s, events);
      RunKeepsInv(s, events);
      var more := CanLoadAll(t, chat);
      RunConcat(s, events, more);
      events := events + more;
    }
  }

  lemma FullyListed(s: State, chat: int)
    requires Inv(s) && Ready(s, chat) && ChatOf(s.browser, chat).nextCursor.None?
    ensures forall m :: m in s.first[chat] ==> m in ChatOf(s.browser, chat).items
  {
  }

  /** Nothing blocks reading: from every reachable state, whatever was lost, repeated or is
      still pending, some continuation lists the chat's whole snapshot for its member: the
      history at the first request served, or the present one if none was yet. */
  lemma MemberCanReadAll(s: State, chat: int) returns (events: seq<Event>)
    requires Inv(s) && MayServe(s, chat)
    ensures var t := Run(s, events);
            && Paged(s, t, chat) && Ready(t, chat) && !ChatOf(t.browser, chat).hasMore
            && forall m :: m in t.first[chat] ==> m in ChatOf(t.browser, chat).items
  {
    events := CanLoad(s, chat);
    var t := Run(s, events);
    RunKeepsInv(s, events);
    var more := CanLoadAll(t, chat);
    RunKeepsInv(t, more);
    ChatIsOk(Run(t, more).tables, Run(t, more).first, Run(t, more).browser, chat);
    FullyListed(Run(t, more), chat);
    RunConcat(s, events, more);
    events := events + more;
  }

  /** In particular along the runs from the start, for any stored text. */
  lemma ChatCanLoad(login: Login, content: string, now: int) returns (events: seq<Event>, m: Message)
    ensures var s := Run(Start(login), events);
            1 in s.first && m in s.first[1] && m.content == content && m in ChatOf(s.browser, 1).items
  {
    events, m := ChatCanStore(login, content, now);
    RunKeepsInv(Start(login), events);
    var more := MemberCanReadAll(Run(Start(login), events), 1);
    RunConcat(Start(login), events, more);
    events := events + more;
  }

  lemma ChatCanStore(login: Login, content: string, now: int) returns (events: seq<Event>, m: Message)
    ensures var s := Run(Start(login), events);
            MayServe(s, 1) && s.first == map[] && m in History(s.tables, 1) && m.content == content
  {
    var d := TextDraft(1, login, content);
    var t := Tables(map[1 := 2], map[1 := {login}], [], []);
    m := Enrich(PayloadOf(d, 1, now));
    SaveExtendsHistory(t, d, 1, now, 1);
    RunTwo(Start(login), NewChat(1, 2), AddUser(1, login));
    var s := Next(Next(Start(login), NewChat(1, 2)), AddUser(1, login));
    assert s == Start(login).(tables := t);
    assert Run(s, [Store(d, 1, now)]) == Next(Run(s, []), Store(d, 1, now));
    RunConcat(Start(login), [NewChat(1, 2), AddUser(1, login)], [Store(d, 1, now)]);
    events := [NewChat(1, 2), AddUser(1, login)] + [Store(d, 1, now)];
  }
}
