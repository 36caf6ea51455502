/** The page contract: which window of a chat's sorted history one request returns. */
module Paging {
  import opened Ordering
  import opened Wrappers
  import opened Messages

  datatype Page = Page(items: seq<Message>, nextCursor: Option<Key>, hasMore: bool)

  const DEFAULT_LIMIT: nat := 50
  const MAX_LIMIT: nat := 100

  /** The clamp applied to a requested limit before it reaches the storage. */
  function ClampLimit(limit: int): (l: nat)
    ensures 1 <= l <= MAX_LIMIT
    ensures 1 <= limit <= MAX_LIMIT ==> l == limit
    ensures limit <= 0 ==> l == 50
    ensures limit > 100 ==> l == 100
  {
    if limit <= 0 then DEFAULT_LIMIT else if limit > MAX_LIMIT then MAX_LIMIT else limit
  }

  predicate BelowCursor(m: Message, before: Option<Key>) {
    before.None? || Less(ServerKey(m), before.value)
  }

  function CountBelow(s: seq<Message>, before: Option<Key>): (n: nat)
    ensures n <= |s|
  {
    if s == [] then 0
    else CountBelow(s[..|s| - 1], before) + (if BelowCursor(s[|s| - 1], before) then 1 else 0)
  }

  /** The messages below a cursor: a prefix of the sorted history. */
  function Older(history: seq<Message>, before: Option<Key>): seq<Message> {
    history[..CountBelow(history, before)]
  }

  lemma {:induction false} OlderIsBelow(history: seq<Message>, before: Option<Key>)
    requires Ascending(ServerKey, history)
    ensures forall i :: 0 <= i < |history| ==> (i < CountBelow(history, before) <==> BelowCursor(history[i], before))
  {
    if history != [] {
      var n := |history| - 1;
      OlderIsBelow(history[..n], before);
      assert forall i :: 0 <= i < n ==> history[..n][i] == history[i];
      var c := CountBelow(history[..n], before);
      assert c == n || !BelowCursor(history[..n][c], before);
      assert before.Some? && BelowCursor(history[n], before) ==>
          forall i :: 0 <= i < n ==> Less(ServerKey(history[i]), ServerKey(history[n]));
    }
  }

  /** A window of at most `limit` messages ending just below the cursor. */
  function PageOf(history: seq<Message>, before: Option<Key>, limit: nat): Page
    requires limit > 0
  {
    var older := Older(history, before);
    if |older| > limit then
      Page(older[|older| - limit..], Some(ServerKey(older[|older| - limit])), true)
    else
      Page(older, None, false)
  }

  /** No message of the history below the cursor is missing from `items`. */
  ghost predicate NothingBelow(history: seq<Message>, before: Option<Key>, items: seq<Message>) {
    forall m :: m in history && BelowCursor(m, before) ==> m in items
  }

  /** The page as an index window of the sorted history. */
  lemma PageWindow(history: seq<Message>, before: Option<Key>, limit: nat) returns (first: nat, n: nat)
    requires limit > 0 && Ascending(ServerKey, history)
    ensures first <= n <= |history| && n - first <= limit
    ensures PageOf(history, before, limit).items == history[first..n]
    ensures PageOf(history, before, limit).hasMore <==> first > 0
    ensures first > 0 ==> n - first == limit
    ensures forall i :: 0 <= i < |history| ==> (i < n <==> BelowCursor(history[i], before))
  {
    OlderIsBelow(history, before);
    n := CountBelow(history, before);
    first := if n > limit then n - limit else 0;
  }

  /** The page in terms of the set of stored messages: the `limit` greatest keys below
      the cursor, all of them if there are fewer ... */
  lemma PageIsGreatest(history: seq<Message>, before: Option<Key>, limit: nat)
    requires limit > 0 && Ascending(ServerKey, history)
    ensures var p := PageOf(history, before, limit);
            && Ascending(ServerKey, p.items)
            && |p.items| <= limit && (|p.items| == limit || NothingBelow(history, before, p.items))
            && (forall m :: m in p.items ==> m in history && BelowCursor(m, before))
            && (forall m, x :: m in history && BelowCursor(m, before) && m !in p.items && x in p.items ==>
                  Less(ServerKey(m), ServerKey(x)))
  {
    var first, n := PageWindow(history, before, limit);
    WindowIsGreatest(history, first, n);
    assert forall m :: m in history && BelowCursor(m, before) ==> m in history[..n];
    assert first == 0 ==> history[first..n] == history[..n];
  }

  lemma WindowIsGreatest(history: seq<Message>, first: nat, n: nat)
    requires first <= n <= |history| && Ascending(ServerKey, history)
    ensures Ascending(ServerKey, history[first..n])
    ensures forall m, x :: m in history[..n] && m !in history[first..n] && x in history[first..n] ==>
              Less(ServerKey(m), ServerKey(x))
  {
  }

  /** ... `hasMore` exactly when a message below the cursor was left out; the next cursor
      is the key of the first item exactly when `hasMore`. */
  lemma PageCursor(history: seq<Message>, before: Option<Key>, limit: nat)
    requires limit > 0 && Ascending(ServerKey, history)
    ensures var p := PageOf(history, before, limit);
            && (p.hasMore <==> !NothingBelow(history, before, p.items))
            && (p.hasMore ==> |p.items| == limit && p.nextCursor == Some(ServerKey(p.items[0])))
            && (!p.hasMore ==> p.nextCursor == None)
  {
    var first, n := PageWindow(history, before, limit);
    var p := PageOf(history, before, limit);
    if p.hasMore {
      assert forall x :: x in p.items ==> Less(ServerKey(history[0]), ServerKey(x));
      assert history[0] in history && BelowCursor(history[0], before) && history[0] !in p.items;
    } else {
      forall m | m in history && BelowCursor(m, before) ensures m in p.items {
        var k :| 0 <= k < |history| && history[k] == m;
        assert p.items[k] == m;
      }
    }
  }

  /** What the browser relies on: nothing between the next cursor and the cursor is missing. */
  lemma PageCovers(history: seq<Message>, before: Option<Key>, limit: nat, m: Message)
    requires limit > 0 && Ascending(ServerKey, history)
    requires m in history && BelowCursor(m, before)
    ensures var p := PageOf(history, before, limit);
            m in p.items || (p.nextCursor.Some? && Less(ServerKey(m), p.nextCursor.value))
  {
    PageIsGreatest(history, before, limit);
    PageCursor(history, before, limit);
  }

  lemma {:induction false} CountBelowEnriched(history: seq<Message>, before: Option<Key>)
    ensures CountBelow(EnrichAll(history), before) == CountBelow(history, before)
  {
    if history != [] {
      var n := |history| - 1;
      assert EnrichAll(history)[..n] == EnrichAll(history[..n]);
      CountBelowEnriched(history[..n], before);
    }
  }

  /** Enriching each item of a page of raw history gives the page of the enriched history. */
  lemma PageOfEnriched(history: seq<Message>, before: Option<Key>, limit: nat)
    requires limit > 0
    ensures var p := PageOf(history, before, limit);
            PageOf(EnrichAll(history), before, limit) == p.(items := EnrichAll(p.items))
  {
    var older := Older(history, before);
    OlderEnriched(history, before);
    if |older| > limit {
      var k := |older| - limit;
      EnrichSuffix(older, k);
      SameKey(older[k]);
      assert PageOf(history, before, limit) == Page(older[k..], Some(ServerKey(older[k])), true);
    } else {
      assert PageOf(history, before, limit) == Page(older, None, false);
    }
  }

  lemma OlderEnriched(history: seq<Message>, before: Option<Key>)
    ensures Older(EnrichAll(history), before) == EnrichAll(Older(history, before))
  {
    CountBelowEnriched(history, before);
  }

  lemma SameKey(m: Message)
    ensures ServerKey(Enrich(m)) == ServerKey(m)
  {
  }

  lemma EnrichSuffix(s: seq<Message>, k: nat)
    requires k <= |s|
    ensures EnrichAll(s[k..]) == EnrichAll(s)[k..]
  {
  }
}
