/** One chat's history record in the browser, as a value, and what each kind of
    delivery does to its list. */
module ChatHistory {
  import opened Ordering
  import opened Wrappers
  import opened Messages
  import opened MessageLists
  import opened Paging

  datatype ChatState = ChatState(items: seq<Message>, itemIds: set<int>, nextCursor: Option<Key>, hasMore: bool,
                                 initialized: bool, loadingInitial: bool, loadingOlder: bool, timer: Option<nat>)

  const EMPTY := ChatState([], {}, None, true, false, false, false, None)

  function IdSet(s: seq<Message>): set<int> {
    set m | m in s :: m.id
  }

  function NotIn(s: seq<Message>, ids: set<int>): seq<Message> {
    if s == [] then []
    else if s[0].id in ids then NotIn(s[1..], ids) else [s[0]] + NotIn(s[1..], ids)
  }

  function WithItems(s: ChatState, items: seq<Message>): ChatState {
    s.(items := items, itemIds := IdSet(items))
  }

  /** mergeHistoryPage: prepending lets the messages already there win, replacing lets the page win. */
  function MergedPage(s: ChatState, page: Page, prepend: bool): ChatState {
    var items := if prepend then Merge(NotIn(page.items, s.itemIds), s.items) else Merge(s.items, page.items);
    WithItems(s, items).(nextCursor := page.nextCursor, hasMore := page.hasMore, initialized := true)
  }

  /** pushRealtimeMessage. */
  function Pushed(s: ChatState, m: Message): ChatState {
    if m.id in s.itemIds then s else WithItems(s, Merge(s.items, [m]))
  }

  /** The upload response in sendFileMessage: push, then sort in place. */
  function Uploaded(s: ChatState, m: Message): ChatState {
    if m.id in s.itemIds then s else WithItems(s, SortBy(ClientKey, s.items + [m]))
  }

  /** sendTextMessage shows the message before the server has it. */
  function Sent(s: ChatState, m: Message): ChatState {
    WithItems(s, Merge(s.items, [m]))
  }

  /** Strictly sorted, unique ids, and `itemIds` is exactly the set of them. */
  ghost predicate Listing(s: ChatState) {
    Ascending(ClientKey, s.items) && DistinctIds(s.items) && s.itemIds == IdSet(s.items)
  }

  lemma {:induction false} NotInElements(s: seq<Message>, ids: set<int>)
    ensures forall m :: m in NotIn(s, ids) <==> m in s && m.id !in ids
  {
    if s != [] {
      assert s == [s[0]] + s[1..];
      NotInElements(s[1..], ids);
    }
  }

  /** A new message pushed and sorted lands where a merge would put it. */
  lemma UploadedIsMerge(s: ChatState, m: Message)
    requires Listing(s) && m.id !in s.itemIds
    ensures SortBy(ClientKey, s.items + [m]) == Merge(s.items, [m])
  {
    var all := s.items + [m];
    forall x | x in s.items ensures x.id != m.id { assert x.id in s.itemIds; }
    assert DistinctIds(all);
    SortedDistinct(all);
    MergeIsListing(s.items, [m]);
    forall x ensures x in all <==> LastOfItsId(all, x) {
      if x in all {
        var i :| 0 <= i < |all| && all[i] == x;
        assert LastAt(all, i, x);
      }
    }
    AscendingUnique(ClientKey, SortBy(ClientKey, all), Merge(s.items, [m]));
  }

  /** What a page does to a list, whatever it carries: in front of it, everything listed stays
      and an id already listed is not taken again; in its place, the page's version of an id
      wins and what it does not mention stays. Either way every id of the page is listed. */
  lemma PageVersions(s: ChatState, page: Page, prepend: bool)
    requires Listing(s)
    ensures var s' := MergedPage(s, page, prepend);
            && s'.nextCursor == page.nextCursor && s'.hasMore == page.hasMore && s'.initialized
            && (forall m :: m in s'.items ==> m in s.items || m in page.items)
            && (forall m :: m in page.items ==> m.id in s'.itemIds)
            && (prepend ==> (forall m :: m in s.items ==> m in s'.items))
            && (!prepend ==>
                  && (forall m :: m in s.items && (forall x :: x in page.items ==> x.id != m.id) ==> m in s'.items)
                  && (forall m, x :: m in s'.items && x in page.items && x.id == m.id ==> m in page.items))
  {
    if prepend { Prepends(s, page); } else { Replaces(s, page); }
  }

  lemma Prepends(s: ChatState, page: Page)
    requires Listing(s)
    ensures var s' := MergedPage(s, page, true);
            && (forall m :: m in s'.items ==> m in s.items || m in page.items)
            && (forall m :: m in page.items ==> m.id in s'.itemIds)
            && (forall m :: m in s.items ==> m in s'.items)
  {
    var unseen := NotIn(page.items, s.itemIds);
    NotInElements(page.items, s.itemIds);
    MergeIsListing(unseen, s.items);
    forall m | m in Merge(unseen, s.items) ensures m in s.items || m in page.items { MergeKeeps(unseen, s.items, m); }
    forall m | m in s.items ensures m in Merge(unseen, s.items) {
      forall x | x in unseen + s.items && x.id == m.id ensures x == m {
        assert m.id in s.itemIds;
      }
      MergeKeeps(unseen, s.items, m);
    }
    forall m | m in page.items ensures m.id in MergedPage(s, page, true).itemIds {
      if m.id in s.itemIds {
        var x :| x in s.items && x.id == m.id;
      } else {
        IdSurvives(unseen, s.items, m);
      }
    }
  }

  lemma Replaces(s: ChatState, page: Page)
    requires Listing(s)
    ensures var s' := MergedPage(s, page, false);
            && (forall m :: m in s'.items ==> m in s.items || m in page.items)
            && (forall m :: m in page.items ==> m.id in s'.itemIds)
            && (forall m :: m in s.items && (forall x :: x in page.items ==> x.id != m.id) ==> m in s'.items)
            && (forall m, x :: m in s'.items && x in page.items && x.id == m.id ==> m in page.items)
  {
    var items := Merge(s.items, page.items);
    MergeIsListing(s.items, page.items);
    forall m | m in items ensures m in s.items || m in page.items { MergeKeeps(s.items, page.items, m); }
    forall m | m in page.items ensures m.id in MergedPage(s, page, false).itemIds {
      IdSurvives(s.items, page.items, m);
    }
    forall m | m in s.items && (forall x :: x in page.items ==> x.id != m.id) ensures m in items {
      forall x | x in s.items + page.items && x.id == m.id ensures x == m { assert x in s.items; }
      MergeKeeps(s.items, page.items, m);
    }
    forall m, x | m in items && x in page.items && x.id == m.id ensures m in page.items {
      LastIsLater(s.items, page.items, m, x);
    }
  }

  /** Some message of each id survives a merge. */
  lemma IdSurvives(a: seq<Message>, b: seq<Message>, m: Message)
    requires m in a || m in b
    ensures exists x :: x in Merge(a, b) && x.id == m.id
  {
    var s := a + b;
    assert m in s;
    var i := LastOfId(s, m.id);
    assert LastAt(s, i, s[i]);
    MergeIsListing(a, b);
  }

  lemma {:induction false} LastOfId(s: seq<Message>, id: int) returns (i: nat)
    requires exists m :: m in s && m.id == id
    ensures i < |s| && s[i].id == id && forall j :: i < j < |s| ==> s[j].id != id
  {
    var n := |s| - 1;
    if s[n].id == id {
      i := n;
    } else {
      assert s == s[..n] + [s[n]];
      i := LastOfId(s[..n], id);
    }
  }

  lemma LastIsLater(a: seq<Message>, b: seq<Message>, m: Message, x: Message)
    requires m in Merge(a, b) && x in b && x.id == m.id
    ensures m in b
  {
    MergeIsListing(a, b);
    var i: nat :| LastAt(a + b, i, m);
    var k :| 0 <= k < |b| && b[k] == x;
    assert (a + b)[|a| + k] == x;
    assert i >= |a| + k;
    assert (a + b)[i] == b[i - |a|];
  }

  // ---- convergence -----------------------------------------------------------

  /** Everything that can reach a chat's list, by any path. */
  datatype Delivery = PageDelivery(page: Page, prepend: bool) | Push(m: Message) | Upload(m: Message) | Send(m: Message)

  function Apply(s: ChatState, d: Delivery): ChatState {
    match d
    case PageDelivery(page, prepend) => MergedPage(s, page, prepend)
    case Push(m) => Pushed(s, m)
    case Upload(m) => Uploaded(s, m)
    case Send(m) => Sent(s, m)
  }

  function Carried(d: Delivery): seq<Message> {
    match d
    case PageDelivery(page, _) => page.items
    case Push(m) => [m]
    case Upload(m) => [m]
    case Send(m) => [m]
  }

  function ApplyAll(s: ChatState, ds: seq<Delivery>): ChatState {
    if ds == [] then s else Apply(ApplyAll(s, ds[..|ds| - 1]), ds[|ds| - 1])
  }

  function Received(ds: seq<Delivery>): seq<Message> {
    if ds == [] then [] else Received(ds[..|ds| - 1]) + Carried(ds[|ds| - 1])
  }

  lemma ApplyKeepsListing(s: ChatState, d: Delivery)
    requires Listing(s)
    ensures Listing(Apply(s, d))
  {
    match d
    case PageDelivery(page, prepend) =>
      MergeIsListing(NotIn(page.items, s.itemIds), s.items);
      MergeIsListing(s.items, page.items);
    case Push(m) => MergeIsListing(s.items, [m]);
    case Upload(m) =>
      if m.id !in s.itemIds { UploadedIsMerge(s, m); }
      MergeIsListing(s.items, [m]);
    case Send(m) => MergeIsListing(s.items, [m]);
  }

  /** With consistent messages an id already listed means the message is. */
  lemma ListedById(s: ChatState, carried: seq<Message>, m: Message)
    requires Listing(s) && Consistent(s.items + carried) && m in carried && m.id in s.itemIds
    ensures m in s.items
  {
  }

  lemma PrependIsUnion(s: ChatState, page: Page)
    requires Listing(s) && Consistent(s.items + page.items)
    ensures forall m :: m in MergedPage(s, page, true).items <==> m in s.items || m in page.items
  {
    var unseen := NotIn(page.items, s.itemIds);
    NotInElements(page.items, s.itemIds);
    assert forall x :: x in unseen + s.items ==> x in s.items + page.items;
    MergeIsUnion(unseen, s.items);
    forall m | m in page.items && m.id in s.itemIds ensures m in s.items { ListedById(s, page.items, m); }
  }

  /** One delivery of consistent messages adds exactly what it carries, whatever its path. */
  lemma ApplyIsUnion(s: ChatState, d: Delivery)
    requires Listing(s) && Consistent(s.items + Carried(d))
    ensures forall m :: m in Apply(s, d).items <==> m in s.items || m in Carried(d)
  {
    MergeIsUnion(s.items, Carried(d));
    match d
    case PageDelivery(page, prepend) => if prepend { PrependIsUnion(s, page); }
    case Push(m) => if m.id in s.itemIds { ListedById(s, [m], m); }
    case Upload(m) => if m.id in s.itemIds { ListedById(s, [m], m); } else { UploadedIsMerge(s, m); }
    case Send(m) =>
  }

  lemma {:induction false} ItemsAreReceived(ds: seq<Delivery>)
    requires Consistent(Received(ds))
    ensures Listing(ApplyAll(EMPTY, ds))
    ensures forall m :: m in ApplyAll(EMPTY, ds).items <==> m in Received(ds)
  {
    if ds != [] {
      var front, d := ds[..|ds| - 1], ds[|ds| - 1];
      assert forall m :: m in Received(ds) <==> m in Received(front) || m in Carried(d);
      ItemsAreReceived(front);
      ApplyKeepsListing(ApplyAll(EMPTY, front), d);
      ApplyIsUnion(ApplyAll(EMPTY, front), d);
    }
  }

  /** Convergence: the list depends only on the set of messages received, not on their
      order, repetition, or on which of the four paths brought them. */
  lemma {:induction false} Convergence(ds: seq<Delivery>, es: seq<Delivery>)
    requires Consistent(Received(ds))
    requires forall m :: m in Received(ds) <==> m in Received(es)
    ensures ApplyAll(EMPTY, ds).items == ApplyAll(EMPTY, es).items
    ensures ApplyAll(EMPTY, ds).itemIds == ApplyAll(EMPTY, es).itemIds
  {
    ItemsAreReceived(ds);
    ItemsAreReceived(es);
    AscendingUnique(ClientKey, ApplyAll(EMPTY, ds).items, ApplyAll(EMPTY, es).items);
  }

  // ---- browser order and server order ----------------------------------------

  /** Within each millisecond the ids follow the microseconds. */
  ghost predicate IdsFollowTime(h: seq<Message>) {
    forall i, j :: 0 <= i < j < |h| && h[i].createdAt / 1000 == h[j].createdAt / 1000 ==> h[i].id < h[j].id
  }

  /** The browser shows a history in the server's order exactly under that condition. */
  lemma {:induction false} BrowserOrder(h: seq<Message>)
    requires Ascending(ServerKey, h) && DistinctIds(h)
    ensures SortBy(ClientKey, h) == h <==> IdsFollowTime(h)
  {
    SortedDistinct(h);
    forall i, j | 0 <= i < j < |h| ensures h[i].createdAt / 1000 <= h[j].createdAt / 1000 {
      assert Less(ServerKey(h[i]), ServerKey(h[j]));
    }
    if IdsFollowTime(h) {
      assert Ascending(ClientKey, h);
      AscendingUnique(ClientKey, SortBy(ClientKey, h), h);
    }
    if Ascending(ClientKey, h) {
      forall i, j | 0 <= i < j < |h| && h[i].createdAt / 1000 == h[j].createdAt / 1000 ensures h[i].id < h[j].id {
        assert Less(ClientKey(h[i]), ClientKey(h[j]));
      }
    }
  }

  /** Two messages of one millisecond whose ids are in the opposite order: both exist. */
  lemma BrowserOrderCanDiffer() returns (h: seq<Message>)
    ensures Ascending(ServerKey, h) && DistinctIds(h) && SortBy(ClientKey, h) != h
  {
    h := [Message(2, 1, "a", KIND_TEXT, "first", [], 1000), Message(1, 1, "b", KIND_TEXT, "second", [], 1001)];
    assert h[0].createdAt / 1000 == h[1].createdAt / 1000;
    BrowserOrder(h);
  }
}
