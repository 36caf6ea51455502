/** The browser's history state over all chats: the handlers of app.js and the
    response block of files.js, each proved against a function on the state. */
module Browser {
  import opened Ordering
  import opened Wrappers
  import opened Messages
  import opened MessageLists
  import opened Paging
  import opened ChatHistory

  const PAGE_SIZE: int := 50

  datatype HistoryRequest = HistoryRequest(chat: int, limit: int, before: Option<Key>)

  /** `timers` maps each armed timer to the chat whose loading it will abort. */
  datatype BrowserState = BrowserState(chats: map<int, ChatState>, active: Option<int>, timers: map<nat, int>,
                                       nextTimer: nat)

  const START := BrowserState(map[], None, map[], 1)

  function ChatOf(v: BrowserState, chat: int): ChatState {
    if chat in v.chats then v.chats[chat] else EMPTY
  }

  function WithChat(v: BrowserState, chat: int, s: ChatState): BrowserState {
    v.(chats := v.chats[chat := s])
  }

  /** Loading over: the flags are down and the timer, if any, is disarmed. */
  function Finished(v: BrowserState, chat: int): BrowserState {
    var s := ChatOf(v, chat);
    var timers := if s.timer.Some? then v.timers - {s.timer.value} else v.timers;
    WithChat(v, chat, s.(loadingInitial := false, loadingOlder := false, timer := None)).(timers := timers)
  }

  /** An answer carries no request id: it is an older page exactly if one is being loaded. */
  function Answered(v: BrowserState, chat: int, page: Page): BrowserState {
    if chat == 0 then v
    else
      var f := Finished(v, chat);
      WithChat(f, chat, MergedPage(ChatOf(f, chat), page, ChatOf(v, chat).loadingOlder))
  }

  /** An error names a chat, or falls back on the active one. */
  function Failed(v: BrowserState, chat: int): BrowserState {
    if chat != 0 then Finished(v, chat) else if v.active.Some? then Finished(v, v.active.value) else v
  }

  function TimedOut(v: BrowserState, timer: nat): BrowserState {
    if timer in v.timers then Finished(v.(timers := v.timers - {timer}), v.timers[timer]) else v
  }

  function Armed(v: BrowserState, chat: int): BrowserState {
    var s := ChatOf(v, chat);
    var timers := if s.timer.Some? then v.timers - {s.timer.value} else v.timers;
    WithChat(v, chat, s.(timer := Some(v.nextTimer)))
    .(timers := timers[v.nextTimer := chat], nextTimer := v.nextTimer + 1)
  }

  predicate MayLoad(s: ChatState, before: Option<Key>) {
    if before.Some? then !s.loadingOlder && s.hasMore else !s.loadingInitial && !s.initialized
  }

  function Loading(v: BrowserState, chat: int, before: Option<Key>): BrowserState {
    var s := ChatOf(v, chat);
    if !MayLoad(s, before) then WithChat(v, chat, s)
    else if before.Some? then Armed(WithChat(v, chat, s.(loadingOlder := true)), chat)
    else Armed(WithChat(v, chat, s.(loadingInitial := true)), chat)
  }

  function Request(v: BrowserState, chat: int, before: Option<Key>): Option<HistoryRequest> {
    if MayLoad(ChatOf(v, chat), before) then Some(HistoryRequest(chat, PAGE_SIZE, before)) else None
  }

  function Selected(v: BrowserState, chat: int): BrowserState {
    Loading(v.(active := Some(chat)), chat, None)
  }

  predicate WantsOlder(s: ChatState, nearTop: bool) {
    nearTop && s.initialized && !s.loadingInitial && !s.loadingOlder && s.hasMore && s.nextCursor.Some?
  }

  function Scrolled(v: BrowserState, nearTop: bool): BrowserState {
    if v.active.None? then v
    else
      var s := ChatOf(v, v.active.value);
      if WantsOlder(s, nearTop) then Loading(v, v.active.value, s.nextCursor) else WithChat(v, v.active.value, s)
  }

  function ScrollRequest(v: BrowserState, nearTop: bool): Option<HistoryRequest> {
    if v.active.Some? && WantsOlder(ChatOf(v, v.active.value), nearTop) then
      Request(v, v.active.value, ChatOf(v, v.active.value).nextCursor)
    else None
  }

  function PushArrived(v: BrowserState, m: Message): BrowserState {
    WithChat(v, m.chatId, Pushed(ChatOf(v, m.chatId), m))
  }

  function UploadAnswered(v: BrowserState, m: Message): BrowserState {
    WithChat(v, m.chatId, Uploaded(ChatOf(v, m.chatId), m))
  }

  function TextSent(v: BrowserState, m: Message): BrowserState {
    if v.active == Some(m.chatId) then WithChat(v, m.chatId, Sent(ChatOf(v, m.chatId), m)) else v
  }

  // ---- what every handler keeps --------------------------------------------------

  /** The loading flags exclude each other, an older page is loaded only after the first,
      and the record holds a timer exactly while something is loading. */
  predicate FlagsOk(c: ChatState) {
    && !(c.loadingInitial && c.loadingOlder)
    && (c.loadingOlder ==> c.initialized)
    && (c.initialized ==> !c.loadingInitial)
    && (c.timer.Some? <==> c.loadingInitial || c.loadingOlder)
  }

  /** The armed timers are exactly those the records hold. */
  ghost predicate TimersOk(v: BrowserState) {
    && (forall timer :: timer in v.timers ==> timer < v.nextTimer && ChatOf(v, v.timers[timer]).timer == Some(timer))
    && (forall chat :: chat in v.chats && v.chats[chat].timer.Some? ==>
          v.chats[chat].timer.value in v.timers && v.timers[v.chats[chat].timer.value] == chat)
  }

  ghost predicate BrowserValid(v: BrowserState) {
    && (forall chat :: chat in v.chats ==> Listing(v.chats[chat]) && FlagsOk(v.chats[chat]))
    && TimersOk(v)
  }

  ghost predicate TimerFor(v: BrowserState, chat: int) {
    exists timer :: timer in v.timers && v.timers[timer] == chat
  }

  /** Not loading, and no timer is armed that could end a loading of the chat. */
  ghost predicate Idle(v: BrowserState, chat: int) {
    !ChatOf(v, chat).loadingInitial && !ChatOf(v, chat).loadingOlder && !TimerFor(v, chat)
  }

  /** Everything but one chat's record and timer is as before. */
  ghost predicate OnlyChat(v: BrowserState, v': BrowserState, chat: int) {
    && v'.active == v.active
    && (forall other :: other != chat ==>
          (other in v'.chats <==> other in v.chats) && ChatOf(v', other) == ChatOf(v, other))
    && (forall timer :: timer in v.timers && v.timers[timer] != chat ==>
          timer in v'.timers && v'.timers[timer] == v.timers[timer])
  }

  /** The same list, cursor and first page: at most flags and timers differ. */
  ghost predicate SameRecord(c: ChatState, c': ChatState) {
    && c'.items == c.items && c'.itemIds == c.itemIds && c'.nextCursor == c.nextCursor
    && c'.hasMore == c.hasMore && c'.initialized == c.initialized
  }

  ghost predicate SameRecords(v: BrowserState, v': BrowserState) {
    forall chat :: SameRecord(ChatOf(v, chat), ChatOf(v', chat))
  }

  /** The end of a loading: the chat is idle, nothing listed changes, nor any other chat. */
  ghost predicate LoadingEnds(v: BrowserState, v': BrowserState, chat: int) {
    BrowserValid(v') && Idle(v', chat) && OnlyChat(v, v', chat) && SameRecords(v, v')
  }

  lemma FinishedEnds(v: BrowserState, chat: int)
    requires BrowserValid(v)
    ensures LoadingEnds(v, Finished(v, chat), chat)
  {
  }

  /** The timer that goes off is the one of the chat it aborts, so nothing stays loading without one. */
  lemma TimedOutEnds(v: BrowserState, timer: nat)
    requires BrowserValid(v) && timer in v.timers
    ensures LoadingEnds(v, TimedOut(v, timer), v.timers[timer])
  {
    FinishedEnds(v, v.timers[timer]);
    assert v.timers - {timer} - {timer} == v.timers - {timer};
    assert TimedOut(v, timer) == Finished(v, v.timers[timer]);
  }

  /** Replacing a chat's list and first-page fields. */
  lemma ReplaceRecord(v: BrowserState, chat: int, c: ChatState)
    requires BrowserValid(v) && Listing(c) && FlagsOk(c) && c.timer == ChatOf(v, chat).timer
    ensures BrowserValid(WithChat(v, chat, c)) && OnlyChat(v, WithChat(v, chat, c), chat)
  {
  }

  lemma RecordOf(v: BrowserState, chat: int)
    requires BrowserValid(v)
    ensures Listing(ChatOf(v, chat)) && FlagsOk(ChatOf(v, chat))
  {
  }

  /** An answer ends the loading, whichever it answers, and leaves its page's cursor. */
  lemma AnsweredEffects(v: BrowserState, chat: int, page: Page)
    requires BrowserValid(v) && chat != 0
    ensures var v' := Answered(v, chat, page);
            && BrowserValid(v') && Idle(v', chat) && OnlyChat(v, v', chat)
            && ChatOf(v', chat).initialized && ChatOf(v', chat).nextCursor == page.nextCursor
            && ChatOf(v', chat).hasMore == page.hasMore
  {
    var f := Finished(v, chat);
    FinishedEnds(v, chat);
    RecordOf(f, chat);
    var prepend := ChatOf(v, chat).loadingOlder;
    ApplyKeepsListing(ChatOf(f, chat), PageDelivery(page, prepend));
    ReplaceRecord(f, chat, MergedPage(ChatOf(f, chat), page, prepend));
  }

  /** The record after a page: its cursor, every id of the page listed, and of an id both
      bring, the listed version if the page comes in front, else the page's. */
  ghost predicate PageShown(c: ChatState, c': ChatState, page: Page, prepend: bool) {
    && c'.initialized && c'.nextCursor == page.nextCursor && c'.hasMore == page.hasMore
    && (forall m :: m in c'.items ==> m in c.items || m in page.items)
    && (forall m :: m in page.items ==> m.id in c'.itemIds)
    && (prepend ==> (forall m :: m in c.items ==> m in c'.items))
    && (!prepend ==>
          && (forall m :: m in c.items && (forall x :: x in page.items ==> x.id != m.id) ==> m in c'.items)
          && (forall m, x :: m in c'.items && x in page.items && x.id == m.id ==> m in page.items))
  }

  lemma PageIsShown(v: BrowserState, chat: int, page: Page)
    requires BrowserValid(v) && chat != 0
    ensures PageShown(ChatOf(v, chat), ChatOf(Answered(v, chat, page), chat), page, ChatOf(v, chat).loadingOlder)
  {
    var f := Finished(v, chat);
    FinishedEnds(v, chat);
    RecordOf(f, chat);
    PageVersions(ChatOf(f, chat), page, ChatOf(v, chat).loadingOlder);
  }

  lemma ArmedChat(v: BrowserState, chat: int, c: ChatState)
    requires BrowserValid(v) && c.timer == ChatOf(v, chat).timer
    ensures var v' := Armed(WithChat(v, chat, c), chat);
            && v'.timers == (if c.timer.Some? then v.timers - {c.timer.value} else v.timers)[v.nextTimer := chat]
            && v'.nextTimer == v.nextTimer + 1 && v'.active == v.active
            && v'.chats == v.chats[chat := c.(timer := Some(v.nextTimer))]
  {
  }

  lemma ArmedTimers(v: BrowserState, chat: int, c: ChatState)
    requires BrowserValid(v) && c.timer == ChatOf(v, chat).timer
    ensures var v' := Armed(WithChat(v, chat, c), chat);
            && TimersOk(v') && TimerFor(v', chat) && OnlyChat(v, v', chat)
            && ChatOf(v', chat) == c.(timer := Some(v.nextTimer))
  {
    ArmedChat(v, chat, c);
    var v' := Armed(WithChat(v, chat, c), chat);
    assert v'.timers[v.nextTimer] == chat;
  }

  /** A request is sent exactly when the chat starts loading, under a new timer. */
  ghost predicate LoadingStarts(v: BrowserState, v': BrowserState, chat: int, request: Option<HistoryRequest>) {
    && BrowserValid(v') && OnlyChat(v, v', chat) && SameRecords(v, v')
    && (request.Some? ==> Idle(v, chat) && TimerFor(v', chat) &&
                          (ChatOf(v', chat).loadingOlder <==> request.value.before.Some?))
    && (request.None? ==> ChatOf(v', chat) == ChatOf(v, chat) && v'.timers == v.timers)
  }

  lemma LoadingEffects(v: BrowserState, chat: int, before: Option<Key>)
    requires BrowserValid(v)
    requires before.Some? ==> ChatOf(v, chat).initialized && !ChatOf(v, chat).loadingInitial
    ensures LoadingStarts(v, Loading(v, chat, before), chat, Request(v, chat, before))
  {
    RecordOf(v, chat);
    if MayLoad(ChatOf(v, chat), before) {
      ArmedTimers(v, chat, if before.Some? then ChatOf(v, chat).(loadingOlder := true)
                           else ChatOf(v, chat).(loadingInitial := true));
    }
  }

  /** A selected chat has its first page or is loading it under an armed timer. */
  lemma SelectedEffects(v: BrowserState, chat: int)
    requires BrowserValid(v)
    ensures var v' := Selected(v, chat);
            && LoadingStarts(v.(active := Some(chat)), v', chat, Request(v, chat, None))
            && v'.active == Some(chat) && (ChatOf(v', chat).initialized || TimerFor(v', chat))
  {
    LoadingEffects(v.(active := Some(chat)), chat, None);
    RecordOf(v, chat);
  }

  lemma ScrolledEffects(v: BrowserState, nearTop: bool)
    requires BrowserValid(v)
    ensures v.active.Some? ==> LoadingStarts(v, Scrolled(v, nearTop), v.active.value, ScrollRequest(v, nearTop))
    ensures v.active.None? ==> Scrolled(v, nearTop) == v
  {
    if v.active.Some? {
      var chat := v.active.value;
      RecordOf(v, chat);
      if WantsOlder(ChatOf(v, chat), nearTop) { LoadingEffects(v, chat, ChatOf(v, chat).nextCursor); }
    }
  }

  /** One message enters one chat's list: it is there, or an item of its id was already;
      every other item stays, and nothing else is added. */
  ghost predicate Enters(v: BrowserState, v': BrowserState, m: Message) {
    var c, c' := ChatOf(v, m.chatId), ChatOf(v', m.chatId);
    && BrowserValid(v') && OnlyChat(v, v', m.chatId) && v'.timers == v.timers
    && (forall x :: x in c'.items && x.id != m.id <==> x in c.items && x.id != m.id)
    && m.id in c'.itemIds && (m.id !in c.itemIds ==> m in c'.items)
    && (forall x :: x in c'.items && x.id == m.id ==> x == m || x in c.items)
    && c' == c.(items := c'.items, itemIds := c'.itemIds)
  }

  lemma MergedOne(items: seq<Message>, m: Message)
    requires DistinctIds(items)
    ensures forall x :: x in Merge(items, [m]) <==> x == m || (x in items && x.id != m.id)
  {
    MergeIsListing(items, [m]);
    forall x ensures LastOfItsId(items + [m], x) <==> x == m || (x in items && x.id != m.id) {
      LastOfItsIdStep(items + [m], x);
      assert (items + [m])[..|items|] == items;
      if x in items {
        var i :| 0 <= i < |items| && items[i] == x;
        assert LastAt(items, i, x);
      }
    }
  }

  lemma ListedOne(v: BrowserState, m: Message, c: ChatState)
    requires BrowserValid(v) && DistinctIds(ChatOf(v, m.chatId).items)
    requires c == WithItems(ChatOf(v, m.chatId), Merge(ChatOf(v, m.chatId).items, [m]))
    ensures Enters(v, WithChat(v, m.chatId, c), m) && m in c.items
  {
    var was := ChatOf(v, m.chatId);
    RecordOf(v, m.chatId);
    ApplyKeepsListing(was, Send(m));
    MergedOne(was.items, m);
    ReplaceRecord(v, m.chatId, c);
  }

  lemma ItemEnters(v: BrowserState, m: Message)
    requires BrowserValid(v)
    ensures Enters(v, PushArrived(v, m), m) && Enters(v, UploadAnswered(v, m), m)
    ensures v.active == Some(m.chatId) ==> Enters(v, TextSent(v, m), m) && m in ChatOf(TextSent(v, m), m.chatId).items
  {
    var c := ChatOf(v, m.chatId);
    RecordOf(v, m.chatId);
    ListedOne(v, m, Sent(c, m));
    if m.id in c.itemIds {
      ReplaceRecord(v, m.chatId, c);
    } else {
      UploadedIsMerge(c, m);
    }
  }

  class App {
    var chats: map<int, ChatState>
    var active: Option<int>
    var timers: map<nat, int>
    var nextTimer: nat

    function View(): BrowserState
      reads this
    {
      BrowserState(chats, active, timers, nextTimer)
    }

    ghost predicate Valid()
      reads this
    {
      BrowserValid(View())
    }

    constructor ()
      ensures Valid() && View() == START
    {
      chats, active, timers, nextTimer := map[], None, map[], 1;
    }

    method EnsureHistoryState(chat: int)
      modifies this`chats
      ensures View() == WithChat(old(View()), chat, ChatOf(old(View()), chat))
    {
      if chat !in chats { chats := chats[chat := EMPTY]; }
      assert chats == old(chats)[chat := ChatOf(old(View()), chat)];
    }

    method ClearHistoryRequestTimeout(chat: int)
      requires chat in chats
      modifies this`chats, this`timers
      ensures chats == old(chats)[chat := old(chats)[chat].(timer := None)]
      ensures timers ==
              if old(chats)[chat].timer.Some? then old(timers) - {old(chats)[chat].timer.value} else old(timers)
    {
      if chats[chat].timer.Some? {
        timers := timers - {chats[chat].timer.value};
        chats := chats[chat := chats[chat].(timer := None)];
      }
    }

    method FinishHistoryLoading(chat: int)
      requires chat in chats
      modifies this`chats, this`timers
      ensures View() == Finished(old(View()), chat)
    {
      ClearHistoryRequestTimeout(chat);
      chats := chats[chat := chats[chat].(loadingInitial := false)];
      chats := chats[chat := chats[chat].(loadingOlder := false)];
    }

    method FailHistoryLoading(chat: int)
      modifies this`chats, this`timers
      ensures View() == Finished(old(View()), chat)
    {
      EnsureHistoryState(chat);
      FinishHistoryLoading(chat);
    }

    /** A new list, and its ids by syncItemIds. */
    method ReplaceItems(chat: int, items: seq<Message>)
      requires chat in chats
      modifies this`chats
      ensures chats == old(chats)[chat := WithItems(old(chats)[chat], items)]
    {
      var s := chats[chat].(items := items);
      s := s.(itemIds := IdSet(s.items));
      chats := chats[chat := s];
    }

    method MergeHistoryPage(chat: int, page: Page, prepend: bool)
      modifies this`chats
      ensures View() == WithChat(old(View()), chat, MergedPage(ChatOf(old(View()), chat), page, prepend))
    {
      EnsureHistoryState(chat);
      var s := chats[chat];
      var items;
      if prepend {
        items := MergeMessageLists(NotIn(page.items, s.itemIds), s.items);
      } else {
        items := MergeMessageLists(s.items, page.items);
      }
      ReplaceItems(chat, items);
      SetPageFields(chat, page);
    }

    method SetPageFields(chat: int, page: Page)
      requires chat in chats
      modifies this`chats
      ensures chats == old(chats)[chat := old(chats)[chat].(nextCursor := page.nextCursor, hasMore := page.hasMore,
                                                           initialized := true)]
    {
      var s := chats[chat].(nextCursor := page.nextCursor);
      s := s.(hasMore := page.hasMore);
      s := s.(initialized := true);
      chats := chats[chat := s];
    }

    method OnMessageHistory(chat: int, page: Page)
      requires Valid()
      modifies this`chats, this`timers
      ensures View() == Answered(old(View()), chat, page)
      ensures Valid() && (chat != 0 ==> Idle(View(), chat) && OnlyChat(old(View()), View(), chat))
      ensures chat == 0 ==> View() == old(View())
      // the page is put in front of the list if an older page was being loaded, and in its place otherwise
      ensures chat != 0 && chat in old(chats) && old(chats)[chat].loadingOlder ==>
                chat in chats && PageShown(old(chats)[chat], chats[chat], page, true)
      ensures chat != 0 && chat in old(chats) && !old(chats)[chat].loadingOlder ==>
                chat in chats && PageShown(old(chats)[chat], chats[chat], page, false)
      ensures chat != 0 && chat !in old(chats) ==> chat in chats && PageShown(EMPTY, chats[chat], page, false)
    {
      if chat == 0 { return; }
      PageIsShown(View(), chat, page);
      AnsweredEffects(View(), chat, page);
      MergeAnswer(chat, page);
    }

    method MergeAnswer(chat: int, page: Page)
      requires chat != 0
      modifies this`chats, this`timers
      ensures View() == Answered(old(View()), chat, page)
    {
      EnsureHistoryState(chat);
      var isOlderRequest := chats[chat].loadingOlder;
      FinishHistoryLoading(chat);
      MergeHistoryPage(chat, page, isOlderRequest);
    }

    method OnMessageHistoryError(chat: int)
      requires Valid()
      modifies this`chats, this`timers
      ensures View() == Failed(old(View()), chat)
      ensures Valid()
      ensures chat != 0 ==> LoadingEnds(old(View()), View(), chat)
      ensures chat == 0 && active.Some? ==> LoadingEnds(old(View()), View(), active.value)
      ensures chat == 0 && active.None? ==> View() == old(View())
    {
      FinishedEnds(View(), if chat != 0 || active.None? then chat else active.value);
      if chat != 0 {
        FailHistoryLoading(chat);
      } else if active.Some? {
        FailHistoryLoading(active.value);
      }
    }

    /** A timer goes off: it is no longer armed when its callback runs. */
    method OnTimer(timer: nat)
      requires Valid()
      modifies this`chats, this`timers
      ensures View() == TimedOut(old(View()), timer)
      ensures Valid()
      ensures timer in old(timers) ==> LoadingEnds(old(View()), View(), old(timers)[timer])
      ensures timer !in old(timers) ==> View() == old(View())
    {
      if timer in timers {
        TimedOutEnds(View(), timer);
        var chat := timers[timer];
        timers := timers - {timer};
        FailHistoryLoading(chat);
      }
    }

    /** Replace the chat's timer by a new one. */
    method ArmHistoryRequestTimeout(chat: int)
      requires chat in chats
      modifies this`chats, this`timers, this`nextTimer
      ensures View() == Armed(old(View()), chat)
    {
      ClearHistoryRequestTimeout(chat);
      timers := timers[nextTimer := chat];
      chats := chats[chat := chats[chat].(timer := Some(nextTimer))];
      nextTimer := nextTimer + 1;
    }

    method LoadMessageHistory(chat: int, before: Option<Key>) returns (request: Option<HistoryRequest>)
      requires Valid()
      modifies this`chats, this`timers, this`nextTimer
      ensures View() == Loading(old(View()), chat, before)
      ensures request == Request(old(View()), chat, before)
      // a cursor is only ever passed for a chat whose first page is there
      ensures (before.Some? ==> old(ChatOf(View(), chat)).initialized && !old(ChatOf(View(), chat)).loadingInitial) ==>
                LoadingStarts(old(View()), View(), chat, request)
      // exactly when a request is sent, and which
      ensures chat in old(chats) && before.Some? ==>
                (request.Some? <==> !old(chats)[chat].loadingOlder && old(chats)[chat].hasMore)
      ensures chat in old(chats) && before.None? ==>
                (request.Some? <==> !old(chats)[chat].loadingInitial && !old(chats)[chat].initialized)
      ensures chat !in old(chats) ==> request.Some?
      ensures request.Some? ==>
                request.value.chat == chat && request.value.limit == 50 && request.value.before == before
    {
      if before.None? || (ChatOf(View(), chat).initialized && !ChatOf(View(), chat).loadingInitial) {
        LoadingEffects(View(), chat, before);
      }
      request := RequestHistory(chat, before);
    }

    /** The guards, the flag, the timer and the request. */
    method RequestHistory(chat: int, before: Option<Key>) returns (request: Option<HistoryRequest>)
      modifies this`chats, this`timers, this`nextTimer
      ensures View() == Loading(old(View()), chat, before)
      ensures request == Request(old(View()), chat, before)
    {
      EnsureHistoryState(chat);
      if before.Some? {
        if chats[chat].loadingOlder || !chats[chat].hasMore { return None; }
        chats := chats[chat := chats[chat].(loadingOlder := true)];
      } else {
        if chats[chat].loadingInitial || chats[chat].initialized { return None; }
        chats := chats[chat := chats[chat].(loadingInitial := true)];
      }
      ghost var flagged := View();
      assert flagged == WithChat(old(View()), chat,
                                 if before.Some? then ChatOf(old(View()), chat).(loadingOlder := true)
                                 else ChatOf(old(View()), chat).(loadingInitial := true));
      ArmHistoryRequestTimeout(chat);
      request := Some(HistoryRequest(chat, PAGE_SIZE, before));
    }

    method HandleChatSelected(chat: int) returns (request: Option<HistoryRequest>)
      requires Valid()
      modifies this
      ensures View() == Selected(old(View()), chat)
      ensures request == Request(old(View()), chat, None)
      ensures Valid() && (ChatOf(View(), chat).initialized || TimerFor(View(), chat))
      ensures SameRecords(old(View()), View())
      // the chat is active, and its first page asked for exactly if it is not there nor being loaded
      ensures active == Some(chat)
      ensures request.Some? <==>
              chat in old(chats) ==> !old(chats)[chat].initialized && !old(chats)[chat].loadingInitial
      ensures request.Some? ==> request.value.chat == chat && request.value.limit == 50 && request.value.before == None
    {
      SelectedEffects(View(), chat);
      request := LoadSelected(chat);
    }

    method LoadSelected(chat: int) returns (request: Option<HistoryRequest>)
      modifies this
      ensures View() == Selected(old(View()), chat)
      ensures request == Request(old(View()), chat, None)
    {
      active := Some(chat);
      EnsureHistoryState(chat);
      request := None;
      if !chats[chat].initialized {
        request := RequestHistory(chat, None);
      }
    }

    method MaybeLoadOlderHistory(nearTop: bool) returns (request: Option<HistoryRequest>)
      requires Valid()
      modifies this`chats, this`timers, this`nextTimer
      ensures View() == Scrolled(old(View()), nearTop)
      ensures request == ScrollRequest(old(View()), nearTop)
      ensures Valid() && SameRecords(old(View()), View())
      ensures request.Some? ==> ChatOf(View(), request.value.chat).loadingOlder && TimerFor(View(), request.value.chat)
      // a request is sent exactly near the top of an active chat that is loaded, idle, and has more below a cursor
      ensures request.Some? <==>
              && nearTop && active.Some? && active.value in old(chats)
              && var c := old(chats)[active.value];
                 c.initialized && !c.loadingInitial && !c.loadingOlder && c.hasMore && c.nextCursor.Some?
      // for that chat and below that cursor; and otherwise nothing changes
      ensures request.Some? ==>
              && active.Some? && active.value in old(chats) && request.value.chat == active.value
              && request.value.limit == 50 && request.value.before == old(chats)[active.value].nextCursor
      ensures request.None? ==>
              && timers == old(timers)
              && forall chat :: chat in old(chats) ==> chat in chats && chats[chat] == old(chats)[chat]
    {
      ScrolledEffects(View(), nearTop);
      request := LoadOlder(nearTop);
    }

    method LoadOlder(nearTop: bool) returns (request: Option<HistoryRequest>)
      modifies this`chats, this`timers, this`nextTimer
      ensures View() == Scrolled(old(View()), nearTop)
      ensures request == ScrollRequest(old(View()), nearTop)
    {
      if active.None? { return None; }
      var chat := active.value;
      EnsureHistoryState(chat);
      var s := chats[chat];
      if !nearTop || !s.initialized || s.loadingInitial || s.loadingOlder || !s.hasMore || s.nextCursor.None? {
        return None;
      }
      request := RequestHistory(chat, s.nextCursor);
    }

    /** Merge one message into its chat's list and rebuild the id set. */
    method MergeItem(m: Message)
      modifies this`chats
      ensures View() == WithChat(old(View()), m.chatId, Sent(ChatOf(old(View()), m.chatId), m))
    {
      EnsureHistoryState(m.chatId);
      var items := MergeMessageLists(chats[m.chatId].items, [m]);
      ReplaceItems(m.chatId, items);
    }

    method PushRealtimeMessage(m: Message) returns (isNew: bool)
      requires Valid()
      modifies this`chats
      ensures View() == PushArrived(old(View()), m)
      ensures isNew == (m.id !in ChatOf(old(View()), m.chatId).itemIds)
      ensures Valid() && Enters(old(View()), View(), m)
      ensures isNew <==> (m.chatId in old(chats) ==> m.id !in old(chats)[m.chatId].itemIds)
      ensures !isNew ==> m.chatId in chats && chats[m.chatId] == old(chats)[m.chatId]
    {
      ItemEnters(View(), m);
      isNew := PushItem(m);
    }

    method PushItem(m: Message) returns (isNew: bool)
      modifies this`chats
      ensures View() == PushArrived(old(View()), m)
      ensures isNew == (m.id !in ChatOf(old(View()), m.chatId).itemIds)
    {
      EnsureHistoryState(m.chatId);
      if m.id in chats[m.chatId].itemIds { return false; }
      MergeItem(m);
      isNew := true;
    }

    /** The payload of a successful upload, pushed onto the list and sorted there. */
    method OnUploadResponse(m: Message)
      requires Valid()
      modifies this`chats
      ensures View() == UploadAnswered(old(View()), m)
      ensures Valid() && Enters(old(View()), View(), m)
      ensures m.chatId in old(chats) && m.id in old(chats)[m.chatId].itemIds ==>
                m.chatId in chats && chats[m.chatId] == old(chats)[m.chatId]
    {
      ItemEnters(View(), m);
      PushAndSort(m);
    }

    method PushAndSort(m: Message)
      modifies this`chats
      ensures View() == UploadAnswered(old(View()), m)
    {
      EnsureHistoryState(m.chatId);
      var s := chats[m.chatId];
      if m.id !in s.itemIds {
        var items := s.items + [m];
        items := SortBy(ClientKey, items);
        ReplaceItems(m.chatId, items);
      }
    }

    /** `m` is the optimistic copy: its id is the clock in milliseconds. */
    method SendTextMessage(m: Message)
      requires Valid()
      modifies this`chats
      ensures View() == TextSent(old(View()), m)
      ensures Valid()
      ensures active == Some(m.chatId) ==> Enters(old(View()), View(), m) && m in ChatOf(View(), m.chatId).items
      ensures active != Some(m.chatId) ==> View() == old(View())
    {
      if active != Some(m.chatId) { return; }
      ItemEnters(View(), m);
      MergeItem(m);
    }
  }
}
