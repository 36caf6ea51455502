/** Following the cursor from page to page while other users keep writing. */
module HistoryWalk {
  import opened Ordering
  import opened Wrappers
  import opened Messages
  import opened Paging

  /** The chat's sorted history at the moment one request is served, and its limit. */
  datatype Request = Request(history: seq<Message>, limit: int)

  datatype Outcome = Finished(items: seq<Message>, requests: nat) | OutOfRequests

  /** Request after request below the last cursor, each page put in front of the later ones. */
  function Walk(before: Option<Key>, rs: seq<Request>): Outcome
    decreases |rs|
  {
    if rs == [] then OutOfRequests
    else
      var page := PageOf(rs[0].history, before, ClampLimit(rs[0].limit));
      if page.nextCursor.None? then Finished(page.items, 1)
      else match Walk(page.nextCursor, rs[1..])
        case OutOfRequests => OutOfRequests
        case Finished(items, n) => Finished(items + page.items, n + 1)
  }

  /** Messages are never deleted or edited, so each history contains the one before. */
  ghost predicate Growing(rs: seq<Request>) {
    && (forall r :: r in rs ==> Ascending(ServerKey, r.history))
    && (forall i, m :: 0 <= i < |rs| - 1 && m in rs[i].history ==> m in rs[i + 1].history)
  }

  /** Between two consecutive requests of the walk nothing was inserted below its cursor. */
  ghost predicate NothingInsertedBelow(before: Option<Key>, rs: seq<Request>)
    decreases |rs|
  {
    rs == [] ||
    var page := PageOf(rs[0].history, before, ClampLimit(rs[0].limit));
    page.nextCursor.None? || |rs| == 1 ||
    (Older(rs[1].history, page.nextCursor) == Older(rs[0].history, page.nextCursor) &&
     NothingInsertedBelow(page.nextCursor, rs[1..]))
  }

  lemma GrowingTail(rs: seq<Request>)
    requires Growing(rs) && rs != []
    ensures Growing(rs[1..])
  {
  }

  /** Cutting the older messages at the page's cursor leaves exactly what the page left out. */
  lemma OlderSplits(history: seq<Message>, before: Option<Key>, limit: nat)
    requires Ascending(ServerKey, history) && limit > 0
    ensures var page := PageOf(history, before, limit);
            && (page.nextCursor.Some? ==> Older(history, before) == Older(history, page.nextCursor) + page.items)
            && (page.nextCursor.None? ==> Older(history, before) == page.items)
  {
    var page := PageOf(history, before, limit);
    if page.nextCursor.Some? {
      OlderIsBelow(history, before);
      OlderIsBelow(history, page.nextCursor);
      var n := CountBelow(history, before);
      assert page.nextCursor == Some(ServerKey(history[n - limit]));
      var c := CountBelow(history, page.nextCursor);
      assert !BelowCursor(history[n - limit], page.nextCursor);
      assert n - limit > 0 ==> BelowCursor(history[n - limit - 1], page.nextCursor);
      assert c == n - limit;
    }
  }

  lemma OlderElements(history: seq<Message>, before: Option<Key>, m: Message)
    requires Ascending(ServerKey, history)
    ensures m in Older(history, before) <==> m in history && BelowCursor(m, before)
  {
    OlderIsBelow(history, before);
    if m in history && BelowCursor(m, before) {
      var k :| 0 <= k < |history| && history[k] == m;
      assert Older(history, before)[k] == m;
    }
  }

  lemma OlderGrows(h: seq<Message>, h': seq<Message>, before: Option<Key>)
    requires Ascending(ServerKey, h) && Ascending(ServerKey, h') && forall m :: m in h ==> m in h'
    ensures forall m :: m in Older(h, before) ==> m in Older(h', before)
  {
    forall m | m in Older(h, before) ensures m in Older(h', before) {
      OlderElements(h, before, m);
      OlderElements(h', before, m);
    }
  }

  lemma Prepended(older: seq<Message>, page: seq<Message>)
    requires Ascending(ServerKey, older) && Ascending(ServerKey, page) && page != []
    requires forall m :: m in older ==> Less(ServerKey(m), ServerKey(page[0]))
    ensures Ascending(ServerKey, older + page)
  {
  }

  /** In order, below the cursor, and with everything older that the history has. */
  ghost predicate Covers(history: seq<Message>, before: Option<Key>, items: seq<Message>) {
    && Ascending(ServerKey, items)
    && (forall m :: m in items ==> BelowCursor(m, before))
    && (forall m :: m in Older(history, before) ==> m in items)
  }

  /** A page in front of which everything below its cursor is put. */
  lemma PageThenRest(h: seq<Message>, h': seq<Message>, before: Option<Key>, limit: nat, rest: seq<Message>)
    requires Ascending(ServerKey, h) && Ascending(ServerKey, h') && (forall m :: m in h ==> m in h') && limit > 0
    requires var next := PageOf(h, before, limit).nextCursor; next.Some? && Covers(h', next, rest)
    ensures Covers(h, before, rest + PageOf(h, before, limit).items)
  {
    var page := PageOf(h, before, limit);
    OlderSplits(h, before, limit);
    PageIsGreatest(h, before, limit);
    PageCursor(h, before, limit);
    OlderGrows(h, h', page.nextCursor);
    Prepended(rest, page.items);
    assert page.items[0] in page.items;
  }

  /** Whatever is inserted meanwhile, a finished walk lists in order, each once, every
      message that was there at its first request. */
  lemma {:induction false} WalkCovers(before: Option<Key>, rs: seq<Request>)
    requires Growing(rs) && Walk(before, rs).Finished?
    ensures Covers(rs[0].history, before, Walk(before, rs).items)
    decreases |rs|
  {
    var limit := ClampLimit(rs[0].limit);
    var next := PageOf(rs[0].history, before, limit).nextCursor;
    assert rs[0] in rs;
    if next.Some? {
      GrowingTail(rs);
      WalkCovers(next, rs[1..]);
      assert rs[1] in rs;
      PageThenRest(rs[0].history, rs[1].history, before, limit, Walk(next, rs[1..]).items);
    } else {
      OlderSplits(rs[0].history, before, limit);
      PageIsGreatest(rs[0].history, before, limit);
    }
  }

  /** The walk returns exactly the messages present at its first request if and only if
      nothing was inserted below its cursor while it ran. */
  lemma {:induction false} WalkExact(before: Option<Key>, rs: seq<Request>)
    requires Growing(rs) && Walk(before, rs).Finished?
    ensures Walk(before, rs).items == Older(rs[0].history, before) <==> NothingInsertedBelow(before, rs)
    decreases |rs|
  {
    var page := PageOf(rs[0].history, before, ClampLimit(rs[0].limit));
    assert rs[0] in rs;
    OlderSplits(rs[0].history, before, ClampLimit(rs[0].limit));
    if page.nextCursor.Some? {
      GrowingTail(rs);
      WalkExact(page.nextCursor, rs[1..]);
      WalkCovers(page.nextCursor, rs[1..]);
      var rest := Walk(page.nextCursor, rs[1..]).items;
      var left := Older(rs[0].history, page.nextCursor);
      var next := Older(rs[1].history, page.nextCursor);
      if rest + page.items == left + page.items {
        assert rest == (rest + page.items)[..|rest|];
        assert left == (left + page.items)[..|left|];
        assert rest == left;
        assert rs[1] in rs;
        forall m ensures m in next <==> m in left {
          OlderElements(rs[0].history, page.nextCursor, m);
          OlderElements(rs[1].history, page.nextCursor, m);
        }
        AscendingUnique(ServerKey, next, left);
      }
    }
  }

  /** A page of one message, where `c` messages are below the cursor. */
  lemma PageOfOne(history: seq<Message>, before: Option<Key>, c: nat)
    requires Ascending(ServerKey, history) && 0 < c <= |history|
    requires forall i :: 0 <= i < |history| ==> (i < c <==> BelowCursor(history[i], before))
    ensures Older(history, before) == history[..c]
    ensures c > 1 ==> PageOf(history, before, 1) == Page([history[c - 1]], Some(ServerKey(history[c - 1])), true)
    ensures c == 1 ==> PageOf(history, before, 1) == Page(history[..1], None, false)
  {
    OlderIsBelow(history, before);
    var n := CountBelow(history, before);
    assert n < |history| ==> !BelowCursor(history[n], before);
    assert n > 0 ==> BelowCursor(history[n - 1], before);
    assert history[..c][c - 1..] == [history[c - 1]];
  }

  /** A finished walk over a growing history that differs from what its first request saw. */
  ghost predicate Inexact(rs: seq<Request>) {
    Growing(rs) && Walk(None, rs).Finished? && Walk(None, rs).items != Older(rs[0].history, None)
  }

  /** It can be inexact: a message stamped before the cursor, but stored after the first
      request, is listed although the first request's history did not have it. */
  lemma WalkCanBeInexact()
    ensures exists rs :: Inexact(rs)
  {
    var early := Message(3, 1, "a", KIND_TEXT, "stored last", [], 10);
    var first, second := Message(1, 1, "a", KIND_TEXT, "one", [], 20), Message(2, 1, "a", KIND_TEXT, "two", [], 30);
    var h0, h1 := [first, second], [early, first, second];
    var rs := [Request(h0, 1), Request(h1, 1), Request(h1, 1)];
    PageOfOne(h0, None, 2);
    PageOfOne(h1, Some(ServerKey(second)), 2);
    PageOfOne(h1, Some(ServerKey(first)), 1);
    assert h1[..1] == [early];
    assert PageOf(h0, None, 1) == Page([second], Some(ServerKey(second)), true);
    assert PageOf(h1, Some(ServerKey(second)), 1) == Page([first], Some(ServerKey(first)), true);
    assert PageOf(h1, Some(ServerKey(first)), 1) == Page([early], None, false);
    assert rs[1..][1..] == [Request(h1, 1)];
    assert Walk(Some(ServerKey(first)), rs[1..][1..]) == Finished([early], 1);
    assert Walk(Some(ServerKey(second)), rs[1..]) == Finished([early] + [first], 2);
    assert Inexact(rs);
  }

  /** Every key inserted later is above every key already there. */
  ghost predicate AppendOnly(rs: seq<Request>) {
    forall i, m, x :: 0 <= i < |rs| - 1 && m in rs[i].history && x in rs[i + 1].history && x !in rs[i].history ==>
      Less(ServerKey(m), ServerKey(x))
  }

  /** The server assigning growing keys is one way to meet the condition. */
  lemma {:induction false} AppendOnlySuffices(before: Option<Key>, rs: seq<Request>)
    requires Growing(rs) && AppendOnly(rs)
    ensures NothingInsertedBelow(before, rs)
    decreases |rs|
  {
    if rs != [] {
      var page := PageOf(rs[0].history, before, ClampLimit(rs[0].limit));
      assert rs[0] in rs;
      if page.nextCursor.Some? && |rs| > 1 {
        var next := page.nextCursor;
        assert rs[1] in rs;
        PageIsGreatest(rs[0].history, before, ClampLimit(rs[0].limit));
        PageCursor(rs[0].history, before, ClampLimit(rs[0].limit));
        assert page.items[0] in rs[0].history;
        forall m ensures m in Older(rs[1].history, next) <==> m in Older(rs[0].history, next) {
          OlderElements(rs[0].history, next, m);
          OlderElements(rs[1].history, next, m);
        }
        AscendingUnique(ServerKey, Older(rs[1].history, next), Older(rs[0].history, next));
        GrowingTail(rs);
        assert forall i :: 0 <= i < |rs[1..]| ==> rs[1..][i] == rs[i + 1];
        AppendOnlySuffices(next, rs[1..]);
      }
    }
  }

  /** ceil(n / limit), and one request for an empty history. */
  function RequestCount(n: nat, limit: nat): nat
    requires limit > 0
  {
    if n <= limit then 1 else 1 + RequestCount(n - limit, limit)
  }

  lemma {:induction false} RequestCountIsCeiling(n: nat, limit: nat)
    requires limit > 0
    ensures var k := RequestCount(n, limit);
            1 <= k && n <= k * limit && (k == 1 || (k - 1) * limit < n)
  {
    if n > limit {
      RequestCountIsCeiling(n - limit, limit);
      var k := RequestCount(n - limit, limit);
      assert (k + 1) * limit == k * limit + limit;
      assert k * limit == (k - 1) * limit + limit;
    }
  }

  /** With one limit throughout and enough requests, the walk ends after exactly
      max(1, ceil(n / limit)) of them; in particular no empty page follows the last full one. */
  lemma {:induction false} WalkTerminates(before: Option<Key>, rs: seq<Request>, limit: int)
    requires Growing(rs) && NothingInsertedBelow(before, rs)
    requires rs != [] && forall i :: 0 <= i < |rs| ==> rs[i].limit == limit
    requires |rs| >= RequestCount(|Older(rs[0].history, before)|, ClampLimit(limit))
    ensures Walk(before, rs).Finished?
    ensures Walk(before, rs).requests == RequestCount(|Older(rs[0].history, before)|, ClampLimit(limit))
    decreases |rs|
  {
    var next := PageOf(rs[0].history, before, ClampLimit(limit)).nextCursor;
    assert rs[0] in rs;
    PageTakes(rs[0].history, before, ClampLimit(limit));
    if next.Some? {
      GrowingTail(rs);
      assert |rs| > 1;
      WalkTerminates(next, rs[1..], limit);
    }
  }

  /** A page with a successor takes exactly `limit` of the messages below the cursor. */
  lemma PageTakes(history: seq<Message>, before: Option<Key>, limit: nat)
    requires Ascending(ServerKey, history) && limit > 0
    ensures var n, next := |Older(history, before)|, PageOf(history, before, limit).nextCursor;
            && (next.Some? <==> n > limit)
            && (next.Some? ==> n == |Older(history, next)| + limit)
  {
    OlderSplits(history, before, limit);
    PageCursor(history, before, limit);
  }

  lemma {:induction false} StaysInHistory(rs: seq<Request>, m: Message)
    requires Growing(rs) && rs != [] && m in rs[0].history
    ensures m in rs[|rs| - 1].history
    decreases |rs|
  {
    if |rs| > 1 {
      GrowingTail(rs);
      StaysInHistory(rs[1..], m);
    }
  }

  /** Moving the cursor down past a message of the history leaves fewer messages below it. */
  lemma OlderShrinks(history: seq<Message>, before: Option<Key>, m: Message)
    requires Ascending(ServerKey, history) && m in history && BelowCursor(m, before)
    ensures |Older(history, Some(ServerKey(m)))| < |Older(history, before)|
  {
    OlderIsBelow(history, before);
    OlderIsBelow(history, Some(ServerKey(m)));
    var k :| 0 <= k < |history| && history[k] == m;
  }

  lemma NextLeavesFewer(before: Option<Key>, rs: seq<Request>, limit: nat)
    requires Growing(rs) && rs != [] && limit > 0
    ensures var next := PageOf(rs[0].history, before, limit).nextCursor;
            next.Some? ==> |Older(rs[|rs| - 1].history, next)| < |Older(rs[|rs| - 1].history, before)|
  {
    var page := PageOf(rs[0].history, before, limit);
    assert rs[0] in rs && rs[|rs| - 1] in rs;
    PageIsGreatest(rs[0].history, before, limit);
    PageCursor(rs[0].history, before, limit);
    if page.nextCursor.Some? {
      assert page.items[0] in page.items;
      StaysInHistory(rs, page.items[0]);
      OlderShrinks(rs[|rs| - 1].history, before, page.items[0]);
    }
  }

  /** With any limits, and whatever is inserted meanwhile, the walk ends: each request that
      is not the last leaves strictly fewer of the messages there will ever be below the
      cursor. */
  lemma {:induction false} WalkEnds(before: Option<Key>, rs: seq<Request>)
    requires Growing(rs) && rs != [] && |rs| >= |Older(rs[|rs| - 1].history, before)|
    ensures Walk(before, rs).Finished?
    decreases |rs|
  {
    var next := PageOf(rs[0].history, before, ClampLimit(rs[0].limit)).nextCursor;
    if |rs| == 1 {
      OlderTooSmall(rs[0].history, before, ClampLimit(rs[0].limit));
    } else if next.Some? {
      NextLeavesFewer(before, rs, ClampLimit(rs[0].limit));
      GrowingTail(rs);
      assert rs[1..][|rs[1..]| - 1] == rs[|rs| - 1];
      WalkEnds(next, rs[1..]);
    }
  }

  /** A page has no successor when at most one message is below the cursor. */
  lemma OlderTooSmall(history: seq<Message>, before: Option<Key>, limit: nat)
    requires limit > 0 && |Older(history, before)| <= 1
    ensures PageOf(history, before, limit).nextCursor.None?
  {
  }

  // ---- the same walk, page by page as it happens ------------------------------------

  datatype Next = Below(before: Option<Key>) | AtEnd

  datatype Progress = Progress(items: seq<Message>, next: Next)

  function NextOf(page: Page): Next {
    if page.nextCursor.Some? then Below(page.nextCursor) else AtEnd
  }

  /** One more request, below the last page's cursor; nothing after the last page. */
  function Advanced(p: Progress, r: Request): Progress {
    match p.next
    case AtEnd => p
    case Below(before) =>
      var page := PageOf(r.history, before, ClampLimit(r.limit));
      Progress(page.items + p.items, NextOf(page))
  }

  function Progressed(before: Option<Key>, rs: seq<Request>): Progress {
    if rs == [] then Progress([], Below(before)) else Advanced(Progressed(before, rs[..|rs| - 1]), rs[|rs| - 1])
  }

  /** Later pages do not look at what is already there. */
  lemma AdvancedOver(p: Progress, items: seq<Message>, r: Request)
    ensures var a := Advanced(p, r);
            Advanced(Progress(p.items + items, p.next), r) == Progress(a.items + items, a.next)
  {
    if p.next.Below? {
      var page := PageOf(r.history, p.next.before, ClampLimit(r.limit));
      assert page.items + (p.items + items) == page.items + p.items + items;
    }
  }

  /** A walk's progress once its first request is served. */
  function AfterFirst(before: Option<Key>, rs: seq<Request>): Progress
    requires rs != []
  {
    var page := PageOf(rs[0].history, before, ClampLimit(rs[0].limit));
    if page.nextCursor.None? then Progress(page.items, AtEnd)
    else var later := Progressed(page.nextCursor, rs[1..]); Progress(later.items + page.items, later.next)
  }

  lemma {:induction false} ProgressFromFirst(before: Option<Key>, rs: seq<Request>)
    requires rs != []
    ensures Progressed(before, rs) == AfterFirst(before, rs)
  {
    var n := |rs| - 1;
    if n == 0 {
      assert Progressed(before, rs[..0]) == Progress([], Below(before));
    } else {
      ProgressFromFirst(before, rs[..n]);
      FirstThenNext(before, rs);
    }
  }

  lemma FirstThenNext(before: Option<Key>, rs: seq<Request>)
    requires |rs| > 1
    ensures AfterFirst(before, rs) == Advanced(AfterFirst(before, rs[..|rs| - 1]), rs[|rs| - 1])
  {
    var n := |rs| - 1;
    var page := PageOf(rs[0].history, before, ClampLimit(rs[0].limit));
    assert rs[..n][1..] == rs[1..][..n - 1] && rs[1..][n - 1] == rs[n];
    if page.nextCursor.Some? {
      AdvancedOver(Progressed(page.nextCursor, rs[..n][1..]), page.items, rs[n]);
    }
  }

  /** The two descriptions of a walk agree. */
  lemma {:induction false} WalkIsProgress(before: Option<Key>, rs: seq<Request>)
    ensures Walk(before, rs).Finished? <==> Progressed(before, rs).next.AtEnd?
    ensures Walk(before, rs).Finished? ==> Walk(before, rs).items == Progressed(before, rs).items
    decreases |rs|
  {
    if rs != [] {
      ProgressFromFirst(before, rs);
      var page := PageOf(rs[0].history, before, ClampLimit(rs[0].limit));
      if page.nextCursor.Some? { WalkIsProgress(page.nextCursor, rs[1..]); }
    }
  }
}
