/** The browser's list merge: a Map keyed by id, then a sort by time and id. */
module MessageLists {
  import opened Ordering
  import opened Messages

  ghost predicate DistinctIds(s: seq<Message>) {
    forall i, j :: 0 <= i < j < |s| ==> s[i].id != s[j].id
  }

  /** Equal ids mean equal messages, within one list. */
  ghost predicate Consistent(s: seq<Message>) {
    forall x, y :: x in s && y in s && x.id == y.id ==> x == y
  }

  ghost predicate LastAt(s: seq<Message>, i: nat, m: Message) {
    i < |s| && s[i] == m && forall j :: i < j < |s| ==> s[j].id != m.id
  }

  /** `m` is the last element of `s` with its id: the value a Map ends up with. */
  ghost predicate LastOfItsId(s: seq<Message>, m: Message) {
    exists i :: LastAt(s, i, m)
  }

  function Without(s: seq<Message>, id: int): seq<Message> {
    if s == [] then []
    else if s[0].id == id then Without(s[1..], id) else [s[0]] + Without(s[1..], id)
  }

  /** The messages of a list that no later one with the same id replaces. */
  function Survivors(s: seq<Message>): seq<Message> {
    if s == [] then [] else Without(Survivors(s[..|s| - 1]), s[|s| - 1].id) + [s[|s| - 1]]
  }

  /** What mergeMessageLists returns. */
  function Merge(existing: seq<Message>, incoming: seq<Message>): seq<Message> {
    SortBy(ClientKey, Survivors(existing + incoming))
  }

  lemma {:induction false} WithoutElements(s: seq<Message>, id: int)
    ensures forall m :: m in Without(s, id) <==> m in s && m.id != id
    ensures DistinctIds(s) ==> DistinctIds(Without(s, id))
  {
    if s != [] {
      WithoutElements(s[1..], id);
      assert s == [s[0]] + s[1..];
      if DistinctIds(s) {
        forall m | m in Without(s[1..], id) ensures m.id != s[0].id {
          var k :| 0 <= k < |s[1..]| && s[1..][k] == m;
          assert s[k + 1] == m;
        }
      }
    }
  }

  lemma LastOfItsIdStep(s: seq<Message>, m: Message)
    requires s != []
    ensures LastOfItsId(s, m) <==>
            m == s[|s| - 1] || (LastOfItsId(s[..|s| - 1], m) && m.id != s[|s| - 1].id)
  {
    var n := |s| - 1;
    var front := s[..n];
    assert forall i :: 0 <= i < n ==> front[i] == s[i];
    if LastOfItsId(s, m) && m != s[n] {
      var i :| LastAt(s, i, m);
      assert LastAt(front, i, m);
    }
    if LastOfItsId(front, m) && m.id != s[n].id {
      var i :| LastAt(front, i, m);
      assert LastAt(s, i, m);
    }
    if m == s[n] {
      assert LastAt(s, n, m);
    }
  }

  lemma {:induction false} SurvivorsElements(s: seq<Message>)
    ensures forall m :: m in Survivors(s) <==> LastOfItsId(s, m)
    ensures DistinctIds(Survivors(s))
  {
    if s != [] {
      var n := |s| - 1;
      SurvivorsElements(s[..n]);
      WithoutElements(Survivors(s[..n]), s[n].id);
      forall m ensures m in Survivors(s) <==> LastOfItsId(s, m) {
        LastOfItsIdStep(s, m);
      }
    }
  }

  lemma DistinctIdsGiveDistinctKeys(s: seq<Message>)
    requires DistinctIds(s)
    ensures DistinctKeys(ClientKey, s)
  {
  }

  lemma SortedDistinct(s: seq<Message>)
    requires DistinctIds(s)
    ensures Ascending(ClientKey, SortBy(ClientKey, s)) && DistinctIds(SortBy(ClientKey, s))
    ensures forall m :: m in SortBy(ClientKey, s) <==> m in s
  {
    DistinctIdsGiveDistinctKeys(s);
    SortByElements(ClientKey, s);
    SortByAscending(ClientKey, s);
    var r := SortBy(ClientKey, s);
    forall i, j | 0 <= i < j < |r| ensures r[i].id != r[j].id {
      assert r[i] in s && r[j] in s && r[i] != r[j];
    }
  }

  /** A merged list is strictly sorted, has unique ids, and keeps for each id the last message. */
  lemma MergeIsListing(existing: seq<Message>, incoming: seq<Message>)
    ensures Ascending(ClientKey, Merge(existing, incoming)) && DistinctIds(Merge(existing, incoming))
    ensures forall m :: m in Merge(existing, incoming) <==> LastOfItsId(existing + incoming, m)
  {
    SurvivorsElements(existing + incoming);
    SortedDistinct(Survivors(existing + incoming));
  }

  /** A message survives a merge when nothing else bears its id; and nothing is invented. */
  lemma MergeKeeps(existing: seq<Message>, incoming: seq<Message>, m: Message)
    ensures m in Merge(existing, incoming) ==> m in existing || m in incoming
    ensures (m in existing || m in incoming) && (forall x :: x in existing + incoming && x.id == m.id ==> x == m) ==>
            m in Merge(existing, incoming)
  {
    var s := existing + incoming;
    MergeIsListing(existing, incoming);
    if m in existing || m in incoming {
      assert m in s;
      var i := LastIndex(s, m);
      assert forall j :: i < j < |s| ==> s[j] in s;
      assert (forall x :: x in s && x.id == m.id ==> x == m) ==> LastAt(s, i, m);
    }
  }

  lemma {:induction false} LastIndex(s: seq<Message>, m: Message) returns (i: nat)
    requires m in s
    ensures i < |s| && s[i] == m && forall j :: i < j < |s| ==> s[j] != m
  {
    var n := |s| - 1;
    if s[n] == m {
      i := n;
    } else {
      assert s == s[..n] + [s[n]];
      i := LastIndex(s[..n], m);
    }
  }

  /** With consistent ids the merge is the sorted union, so which list came first is irrelevant. */
  lemma MergeIsUnion(existing: seq<Message>, incoming: seq<Message>)
    requires Consistent(existing + incoming)
    ensures forall m :: m in Merge(existing, incoming) <==> m in existing || m in incoming
    ensures Merge(existing, incoming) == Merge(incoming, existing)
  {
    forall m ensures m in Merge(existing, incoming) <==> m in existing || m in incoming {
      MergeKeeps(existing, incoming, m);
    }
    forall m ensures m in Merge(incoming, existing) <==> m in existing || m in incoming {
      assert forall x :: x in incoming + existing ==> x in existing + incoming;
      assert m in existing + incoming <==> m in existing || m in incoming;
      MergeKeeps(incoming, existing, m);
    }
    MergeIsListing(existing, incoming);
    MergeIsListing(incoming, existing);
    AscendingUnique(ClientKey, Merge(existing, incoming), Merge(incoming, existing));
  }

  /** A JavaScript Map: the keys in insertion order, and the latest value of each. */
  method MergeMessageLists(existing: seq<Message>, incoming: seq<Message>) returns (r: seq<Message>)
    ensures r == Merge(existing, incoming)
  {
    var all := existing + incoming;
    var order: seq<int> := [];
    var byId: map<int, Message> := map[];
    for i := 0 to |all|
      invariant forall id :: id in order <==> id in byId
      invariant forall k :: 0 <= k < |order| ==> order[k] in byId
      invariant forall k, l :: 0 <= k < l < |order| ==> order[k] != order[l]
      invariant forall m :: LastOfItsId(all[..i], m) <==> m.id in byId && byId[m.id] == m
      invariant forall id :: id in byId ==> byId[id].id == id
    {
      var message := all[i];
      ghost var was := byId;
      if message.id !in byId {
        order := order + [message.id];
      }
      byId := byId[message.id := message];
      forall m ensures LastOfItsId(all[..i + 1], m) <==> m.id in byId && byId[m.id] == m {
        assert all[..i + 1][..i] == all[..i];
        LastOfItsIdStep(all[..i + 1], m);
      }
    }
    assert all[..|all|] == all;
    var values := seq(|order|, k requires 0 <= k < |order| => byId[order[k]]);
    r := SortBy(ClientKey, values);
    ValuesAreSurvivors(all, order, byId, values);
  }

  lemma ValuesAreSurvivors(all: seq<Message>, order: seq<int>, byId: map<int, Message>, values: seq<Message>)
    requires forall id :: id in order <==> id in byId
    requires forall k, l :: 0 <= k < l < |order| ==> order[k] != order[l]
    requires forall m :: LastOfItsId(all, m) <==> m.id in byId && byId[m.id] == m
    requires forall id :: id in byId ==> byId[id].id == id
    requires |values| == |order| && forall k :: 0 <= k < |order| ==> order[k] in byId && values[k] == byId[order[k]]
    ensures SortBy(ClientKey, values) == SortBy(ClientKey, Survivors(all))
  {
    SurvivorsElements(all);
    forall m ensures m in values <==> m in Survivors(all) {
      if m in Survivors(all) {
        var k :| 0 <= k < |order| && order[k] == m.id;
        assert values[k] == m;
      }
    }
    SortedDistinct(values);
    SortedDistinct(Survivors(all));
    AscendingUnique(ClientKey, SortBy(ClientKey, values), SortBy(ClientKey, Survivors(all)));
  }
}
