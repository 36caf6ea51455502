/** The registry of connected clients and their queues, the answer channel of the history
    handler, and the sequential code of one fan-out: lookup of the members, then one
    enqueue after the other. */
module Delivery {
  import opened Wrappers
  import opened Messages
  import opened Paging
  import opened Tables
  import opened Saving
  import opened MessageStorage
  import opened MemberCache

  const QUEUE_SIZE: nat := 32

  /** What a client's socket is sent. */
  datatype OutEvent = MessageEvent(m: Message) | HistoryEvent(chat: int, page: Page)
                    | HistoryErrorEvent(chat: int, message: string)

  /** A full queue takes another event only if its pump takes one off in time. */
  predicate HasRoom(queue: seq<OutEvent>, drains: bool) {
    |queue| < QUEUE_SIZE || drains
  }

  function Enqueued(queue: seq<OutEvent>, e: OutEvent): seq<OutEvent> {
    (if |queue| < QUEUE_SIZE then queue else queue[1..]) + [e]
  }

  /** The event is last, behind all those before, less the head of a full queue. */
  ghost predicate TakenLast(was: seq<OutEvent>, queue: seq<OutEvent>, e: OutEvent) {
    && |queue| > 0 && queue[|queue| - 1] == e
    && queue[..|queue| - 1] == (if |was| < 32 then was else was[1..])
  }

  lemma EnqueuedLast(queue: seq<OutEvent>, e: OutEvent)
    ensures TakenLast(queue, Enqueued(queue, e), e)
  {
  }

  class Channel {
    var queue: seq<OutEvent>
    var closed: bool

    constructor ()
      ensures queue == [] && !closed
    {
      queue, closed := [], false;
    }

    /** Closing twice would panic, so it must not be attempted. */
    method Close()
      requires !closed
      modifies this
      ensures closed && queue == old(queue)
    {
      closed := true;
    }

    /** The select between the send and the timer; sending on a closed channel would panic. */
    method Offer(e: OutEvent, drains: bool) returns (ok: bool)
      requires !closed && |queue| <= QUEUE_SIZE
      modifies this`queue
      ensures ok == HasRoom(old(queue), drains) && |queue| <= QUEUE_SIZE
      ensures queue == if ok then Enqueued(old(queue), e) else old(queue)
      // taken, it is the last event, behind all those before, less the head if the queue was full
      ensures ok <==> |old(queue)| < 32 || drains
      ensures ok ==> && |queue| > 0 && queue[|queue| - 1] == e
                     && queue[..|queue| - 1] == (if |old(queue)| < 32 then old(queue) else old(queue)[1..])
    {
      if |queue| == QUEUE_SIZE {
        if !drains { return false; }
        queue := queue[1..];
      }
      queue := queue + [e];
      ok := true;
    }
  }

  class Registry {
    var clients: map<Login, Channel>

    /** Every registered client has an open channel of its own, within its capacity. */
    ghost predicate Valid()
      reads this, clients.Values
    {
      && (forall login :: login in clients ==> !clients[login].closed && |clients[login].queue| <= QUEUE_SIZE)
      && (forall a, b :: a in clients && b in clients && clients[a] == clients[b] ==> a == b)
    }

    constructor ()
      ensures Valid() && clients == map[]
    {
      clients := map[];
    }

    /** A reconnect overwrites the entry; the old channel stays open, out of the registry. */
    method SaveClient(login: Login)
      requires Valid()
      modifies this
      ensures Valid() && login in clients && fresh(clients[login]) && clients[login].queue == []
      ensures clients == old(clients)[login := clients[login]]
      ensures forall l :: l in old(clients) ==> unchanged(old(clients)[l])
    {
      var channel := new Channel();
      clients := clients[login := channel];
    }

    /** Only the registered channel is closed, and it leaves the registry at once. */
    method DeleteClient(login: Login)
      requires Valid()
      modifies this, clients.Values
      ensures Valid() && clients == old(clients) - {login}
      ensures login in old(clients) ==> old(clients)[login].closed
      ensures forall l :: l in old(clients) && l != login ==> unchanged(old(clients)[l])
    {
      if login in clients {
        var channel := clients[login];
        channel.Close();
        clients := clients - {login};
      }
    }

    method GetClient(login: Login) returns (channel: Option<Channel>)
      ensures channel == if login in clients then Some(clients[login]) else None
    {
      channel := if login in clients then Some(clients[login]) else None;
    }

    /** One recipient's turn; only a full queue that does not drain fails it. */
    method SendOne(userLogin: Login, m: Message, drains: bool) returns (sent: bool)
      requires Valid()
      modifies clients.Values
      ensures Valid()
      ensures sent <==> userLogin == m.sender || userLogin !in clients ||
                        HasRoom(old(clients[userLogin].queue), drains)
      ensures userLogin in clients ==>
                clients[userLogin].queue == if sent && userLogin != m.sender
                                            then Enqueued(old(clients[userLogin].queue), MessageEvent(m))
                                            else old(clients[userLogin].queue)
      ensures forall l :: l in clients && l != userLogin ==> clients[l].queue == old(clients[l].queue)
    {
      sent := true;
      if userLogin != m.sender {
        var client := GetClient(userLogin);
        if client.Some? {
          sent := client.value.Offer(MessageEvent(m), drains);
        }
      }
    }

    /** What a client's queue is once `done` have had their turn. */
    ghost function QueueAfter(queue: seq<OutEvent>, login: Login, done: set<Login>, m: Message): seq<OutEvent> {
      if login in done && login != m.sender then Enqueued(queue, MessageEvent(m)) else queue
    }

    /** Skip the sender and whoever is offline; stop at the first full queue that does
        not drain in time. `drains` are the logins whose pump makes room. */
    method FanOut(members: seq<Login>, m: Message, drains: set<Login>) returns (ok: bool, ghost n: nat)
      requires Valid()
      requires forall i, j :: 0 <= i < j < |members| ==> members[i] != members[j]
      modifies clients.Values
      ensures Valid() && n <= |members| && (ok <==> n == |members|)
      ensures ok <==> forall l :: l in members && l != m.sender && l in clients ==>
                        HasRoom(old(clients[l].queue), l in drains)
      ensures !ok ==> && members[n] != m.sender && members[n] in clients
                      && !HasRoom(old(clients[members[n]].queue), members[n] in drains)
      ensures forall l :: l in clients ==>
                clients[l].queue == QueueAfter(old(clients[l].queue), l, Logins(members[..n]), m)
      // it fails exactly at a full queue that does not drain; every online recipient before has the event
      ensures ok <==> forall l :: l in members && l != m.sender && l in clients ==>
                        |old(clients[l].queue)| < 32 || l in drains
      ensures !ok ==> n < |members| && members[n] in clients && members[n] !in drains
      ensures forall l :: l in clients ==>
                if l in members[..n] && l != m.sender
                then TakenLast(old(clients[l].queue), clients[l].queue, MessageEvent(m))
                else clients[l].queue == old(clients[l].queue)
    {
      n := 0;
      ghost var done: set<Login> := {};
      for i := 0 to |members|
        invariant n == i && Valid() && done == Logins(members[..i])
        invariant forall k :: i <= k < |members| ==> members[k] !in done
        invariant forall l :: l in done && l != m.sender && l in clients ==>
                    HasRoom(old(clients[l].queue), l in drains)
        invariant forall l :: l in clients ==> clients[l].queue == QueueAfter(old(clients[l].queue), l, done, m)
      {
        var sent := SendOne(members[i], m, members[i] in drains);
        if !sent {
          assert members[i] in members;
          AllTakenLast(m);
          return false, n;
        }
        n := n + 1;
        assert members[..i + 1] == members[..i] + [members[i]];
        done := done + {members[i]};
      }
      assert members[..|members|] == members;
      AllTakenLast(m);
      ok := true;
    }

    lemma AllTakenLast(m: Message)
      ensures forall queue :: TakenLast(queue, Enqueued(queue, MessageEvent(m)), MessageEvent(m))
    {
      forall queue ensures TakenLast(queue, Enqueued(queue, MessageEvent(m)), MessageEvent(m)) {
        EnqueuedLast(queue, MessageEvent(m));
      }
    }
  }

  /** Which steps of getChatMembers fail. */
  datatype LookupFaults = LookupFaults(readCache: bool, readTable: bool, writeCache: bool)

  /** A set has no order; this is one of its lists. */
  method ListOf(s: set<Login>) returns (list: seq<Login>)
    ensures Lists(list, s)
  {
    list := [];
    var rest := s;
    while rest != {}
      invariant rest <= s && Logins(list) == s - rest
      invariant forall i, j :: 0 <= i < j < |list| ==> list[i] != list[j]
      decreases rest
    {
      var login :| login in rest;
      assert login !in Logins(list);
      assert Logins(list + [login]) == Logins(list) + {login};
      list := list + [login];
      rest := rest - {login};
    }
  }

  class Notifier {
    const db: Database
    const registry: Registry
    var cache: map<int, set<Login>>

    constructor (db: Database, registry: Registry)
      ensures this.db == db && this.registry == registry && cache == map[]
    {
      this.db, this.registry, cache := db, registry, map[];
    }

    /** The cache names members only: what MemberCache proves of every run. */
    ghost predicate CacheSound()
      reads this, db
    {
      forall chat :: Of(cache, chat) <= Members(db.View(), chat)
    }

    /** Whom a lookup finds: the cached list unless there is none or it cannot be read. */
    function Looked(chat: int, faults: LookupFaults): (logins: set<Login>)
      reads this, db
      ensures !faults.readCache && chat in cache && cache[chat] != {} ==> logins == cache[chat]
      ensures faults.readCache || chat !in cache || cache[chat] == {} ==>
                logins == if chat in db.members then db.members[chat] else {}
    {
      if faults.readCache || Of(cache, chat) == {} then Members(db.View(), chat) else Of(cache, chat)
    }

    predicate LookupFails(chat: int, faults: LookupFaults): (fails: bool)
      reads this
      ensures fails <==> faults.readTable && (faults.readCache || chat !in cache || cache[chat] == {})
    {
      (faults.readCache || Of(cache, chat) == {}) && faults.readTable
    }

    method GetChatMembers(chat: int, faults: LookupFaults) returns (r: Option<seq<Login>>)
      modifies this`cache
      ensures r.None? <==> old(LookupFails(chat, faults))
      ensures r.Some? ==> Lists(r.value, old(Looked(chat, faults)))
      ensures cache == if r.None? || faults.writeCache || r.value == [] then old(cache)
                       else old(cache)[chat := Of(old(cache), chat) + Logins(r.value)]
    {
      var members: seq<Login> := [];
      if !faults.readCache { members := ListOf(Of(cache, chat)); }
      if members == [] {
        if faults.readTable { return None; }
        members := ListOf(Members(db.View(), chat));
      } else {
        assert members[0] in Logins(members);
      }
      if !faults.writeCache && members != [] {
        cache := cache[chat := Of(cache, chat) + Logins(members)];
      }
      r := Some(members);
    }

    /** Only members ever get the event, however stale the list: the others' queues are as
        they were. It succeeds exactly if the lookup does and every online recipient has room. */
    method FanOutMessage(m: Message, faults: LookupFaults, drains: set<Login>) returns (ok: bool)
      requires registry.Valid() && CacheSound()
      modifies this`cache, registry.clients.Values
      ensures registry.Valid() && CacheSound()
      ensures ok <==>
              && !old(LookupFails(m.chatId, faults))
              && forall l :: l in old(Looked(m.chatId, faults)) && l != m.sender && l in registry.clients ==>
                   |old(registry.clients[l].queue)| < 32 || l in drains
      ensures forall l :: l in registry.clients && registry.clients[l].queue != old(registry.clients[l].queue) ==>
                && l in Members(db.View(), m.chatId) && l != m.sender
                && TakenLast(old(registry.clients[l].queue), registry.clients[l].queue, MessageEvent(m))
      ensures ok ==> forall l :: l in registry.clients && l in old(Looked(m.chatId, faults)) && l != m.sender ==>
                TakenLast(old(registry.clients[l].queue), registry.clients[l].queue, MessageEvent(m))
    {
      var members := GetChatMembers(m.chatId, faults);
      if members.None? { return false; }
      assert forall l :: l in members.value <==> l in Logins(members.value);
      ghost var n;
      ok, n := registry.FanOut(members.value, m, drains);
      assert members.value[..|members.value|] == members.value;
    }

    /** handleSendMessage: store, enrich, push. Whatever becomes of the pushes, the message
        stays stored; and what is pushed is the item every later history page shows. */
    method HandleSendMessage(chat: int, sender: Login, content: string, id: int, now: int, fault: bool,
                             faults: LookupFaults, drains: set<Login>) returns (ok: bool)
      requires WellFormed(db.View()) && registry.Valid() && CacheSound()
      modifies db`messages, this`cache, registry.clients.Values
      ensures WellFormed(db.View()) && registry.Valid() && CacheSound()
      ensures var stored := !fault && Save(old(db.View()), TextDraft(chat, sender, content), id, now).Some?;
              db.View() == if stored then Save(old(db.View()), TextDraft(chat, sender, content), id, now).value
                           else old(db.View())
      // success exactly if stored, looked up, and every online recipient has room; and then each has the event
      ensures ok <==>
              && !fault && Save(old(db.View()), TextDraft(chat, sender, content), id, now).Some?
              && !old(LookupFails(chat, faults))
              && forall l :: l in old(Looked(chat, faults)) && l != sender && l in registry.clients ==>
                   |old(registry.clients[l].queue)| < 32 || l in drains
      ensures forall l :: l in registry.clients && registry.clients[l].queue != old(registry.clients[l].queue) ==>
                && !fault && Save(old(db.View()), TextDraft(chat, sender, content), id, now).Some?
                && l in Members(db.View(), chat) && l != sender
                && TakenLast(old(registry.clients[l].queue), registry.clients[l].queue,
                             MessageEvent(Item(db.View(), RowOf(TextDraft(chat, sender, content), id, now))))
      ensures ok ==> forall l :: l in old(Looked(chat, faults)) && l != sender && l in registry.clients ==>
                TakenLast(old(registry.clients[l].queue), registry.clients[l].queue,
                          MessageEvent(Item(db.View(), RowOf(TextDraft(chat, sender, content), id, now))))
    {
      var payload := StoreText(chat, sender, content, id, now, fault);
      if payload.None? { return false; }
      assert CacheSound() && Looked(chat, faults) == old(Looked(chat, faults));
      assert forall l :: l in registry.clients ==> registry.clients[l].queue == old(registry.clients[l].queue);
      ok := PushItem(payload.value, chat, sender, faults, drains);
    }

    /** Store and enrich. */
    method StoreText(chat: int, sender: Login, content: string, id: int, now: int, fault: bool)
      returns (payload: Option<Message>)
      requires WellFormed(db.View())
      modifies db`messages
      ensures WellFormed(db.View())
      ensures payload.Some? <==> !fault && Save(old(db.View()), TextDraft(chat, sender, content), id, now).Some?
      ensures payload.Some? ==>
              && db.View() == Save(old(db.View()), TextDraft(chat, sender, content), id, now).value
              && payload.value == Item(db.View(), RowOf(TextDraft(chat, sender, content), id, now))
              && payload.value.chatId == chat && payload.value.sender == sender
      ensures db.members == old(db.members)
      ensures payload.None? ==> db.View() == old(db.View())
    {
      ghost var d := TextDraft(chat, sender, content);
      ghost var t := db.View();
      var saved := db.SaveMessage(chat, sender, content, id, now, fault);
      if saved.Failure? { return None; }
      SavedItem(t, d, id, now);
      var enriched := EnrichMessagePayload(saved.value);
      payload := Some(enriched);
    }

    /** The fan-out of a payload to its own chat. */
    method PushItem(m: Message, chat: int, sender: Login, faults: LookupFaults, drains: set<Login>) returns (ok: bool)
      requires registry.Valid() && CacheSound() && m.chatId == chat && m.sender == sender
      modifies this`cache, registry.clients.Values
      ensures registry.Valid() && CacheSound()
      ensures ok <==>
              && !old(LookupFails(chat, faults))
              && forall l :: l in old(Looked(chat, faults)) && l != sender && l in registry.clients ==>
                   |old(registry.clients[l].queue)| < 32 || l in drains
      ensures forall l :: l in registry.clients && registry.clients[l].queue != old(registry.clients[l].queue) ==>
                && l in Members(db.View(), chat) && l != sender
                && TakenLast(old(registry.clients[l].queue), registry.clients[l].queue, MessageEvent(m))
      ensures ok ==> forall l :: l in old(Looked(chat, faults)) && l != sender && l in registry.clients ==>
                TakenLast(old(registry.clients[l].queue), registry.clients[l].queue, MessageEvent(m))
    {
      ok := FanOutMessage(m, faults, drains);
    }
  }
}
