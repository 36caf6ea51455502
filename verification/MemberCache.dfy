/** Fan-outs with the Redis copy of the member lists: filled by readers, expiring at any
    time, never told about a new member. Any number of fan-outs run interleaved with
    joins, expiry, and clients that connect or leave. */
module MemberCache {
  import opened Messages

  datatype Pc = NeedsTable | NeedsWrite | Sending(next: nat) | Ended(ok: bool, next: nat)

  /** The fan-out of one message: its list of members, once looked up, and how far it is or
      came. */
  datatype FanOut = FanOut(chat: int, sender: Login, members: seq<Login>, pc: Pc)

  /** A recipient's turn: the event was enqueued for it, or it was offline. */
  datatype Turn = Turn(fanOut: nat, login: Login, pushed: bool)

  datatype State = State(table: map<int, set<Login>>, cache: map<int, set<Login>>, online: set<Login>,
                         fanOuts: map<nat, FanOut>, log: seq<Turn>)

  /** `list` is the answer of the cache or of the table, in whatever order it came. */
  datatype Event =
    | AddUser(chat: int, login: Login)
    | Expire(chat: int)
    | Connect(login: Login)
    | Disconnect(login: Login)
    | ReadCache(fanOut: nat, chat: int, sender: Login, list: seq<Login>, fault: bool)
    | ReadTable(fanOut: nat, list: seq<Login>, fault: bool)
    | WriteCache(fanOut: nat, fault: bool)
    | SendNext(fanOut: nat, room: bool)

  const START := State(map[], map[], {}, map[], [])

  function Of(m: map<int, set<Login>>, chat: int): set<Login> {
    if chat in m then m[chat] else {}
  }

  function Logins(list: seq<Login>): set<Login> {
    set login | login in list
  }

  predicate Lists(list: seq<Login>, s: set<Login>) {
    Logins(list) == s && forall i, j :: 0 <= i < j < |list| ==> list[i] != list[j]
  }

  /** The next recipient; after the last one the fan-out has succeeded. */
  function SendStep(s: State, n: nat, room: bool): State
    requires n in s.fanOuts && s.fanOuts[n].pc.Sending?
  {
    var f := s.fanOuts[n];
    var i := f.pc.next;
    if i >= |f.members| then s.(fanOuts := s.fanOuts[n := f.(pc := Ended(true, i))])
    else
      var login := f.members[i];
      var next := s.(fanOuts := s.fanOuts[n := f.(pc := Sending(i + 1))]);
      if login == f.sender then next
      else if login !in s.online then next.(log := s.log + [Turn(n, login, false)])
      else if room then next.(log := s.log + [Turn(n, login, true)])
      else s.(fanOuts := s.fanOuts[n := f.(pc := Ended(false, i))])
  }

  function Next(s: State, e: Event): State {
    match e
    case AddUser(chat, login) => s.(table := s.table[chat := Of(s.table, chat) + {login}])
    case Expire(chat) => s.(cache := s.cache - {chat})
    case Connect(login) => s.(online := s.online + {login})
    case Disconnect(login) => s.(online := s.online - {login})
    case ReadCache(n, chat, sender, list, fault) =>
      if n in s.fanOuts then s
      else if fault || Of(s.cache, chat) == {} then s.(fanOuts := s.fanOuts[n := FanOut(chat, sender, [], NeedsTable)])
      else if Lists(list, Of(s.cache, chat)) then
        s.(fanOuts := s.fanOuts[n := FanOut(chat, sender, list, NeedsWrite)])
      else s
    case ReadTable(n, list, fault) =>
      if n !in s.fanOuts || s.fanOuts[n].pc != NeedsTable then s
      else if fault then s.(fanOuts := s.fanOuts[n := s.fanOuts[n].(pc := Ended(false, 0))])
      else if Lists(list, Of(s.table, s.fanOuts[n].chat)) then
        s.(fanOuts := s.fanOuts[n := s.fanOuts[n].(members := list, pc := NeedsWrite)])
      else s
    case WriteCache(n, fault) =>
      if n !in s.fanOuts || s.fanOuts[n].pc != NeedsWrite then s
      else
        var f := s.fanOuts[n];
        var t := s.(fanOuts := s.fanOuts[n := f.(pc := Sending(0))]);
        if fault || f.members == [] then t
        else t.(cache := s.cache[f.chat := Of(s.cache, f.chat) + Logins(f.members)])
    case SendNext(n, room) =>
      if n in s.fanOuts && s.fanOuts[n].pc.Sending? then SendStep(s, n, room) else s
  }

  function Run(s: State, events: seq<Event>): State {
    if events == [] then s else Next(Run(s, events[..|events| - 1]), events[|events| - 1])
  }

  // ---- the invariant ---------------------------------------------------------

  /** How many of its members a fan-out is done with. */
  function Reached(f: FanOut): nat {
    match f.pc
    case Sending(i) => i
    case Ended(_, i) => i
    case _ => 0
  }

  ghost predicate HadTurn(log: seq<Turn>, n: nat, login: Login) {
    exists t :: t in log && t.fanOut == n && t.login == login
  }

  /** The list names members only, each once; everyone reached but the sender had a turn.
      A fan-out ends at the end of its list, or at a recipient without room. */
  ghost predicate FanOutOk(s: State, n: nat, f: FanOut) {
    && Logins(f.members) <= Of(s.table, f.chat)
    && (forall i, j :: 0 <= i < j < |f.members| ==> f.members[i] != f.members[j])
    && Reached(f) <= |f.members| && (f.pc.NeedsTable? ==> f.members == [])
    && (forall i :: 0 <= i < Reached(f) && f.members[i] != f.sender ==> HadTurn(s.log, n, f.members[i]))
    && (f.pc.Ended? && f.pc.ok ==> f.pc.next == |f.members|)
    && (f.pc.Ended? && !f.pc.ok && f.members != [] ==>
          f.pc.next < |f.members| && f.members[f.pc.next] != f.sender)
  }

  ghost predicate IsReached(f: FanOut, login: Login) {
    exists i :: 0 <= i < Reached(f) && i < |f.members| && f.members[i] == login
  }

  /** A turn is one of an earlier recipient on the list. */
  ghost predicate TurnOk(s: State, t: Turn) {
    && t.fanOut in s.fanOuts
    && var f := s.fanOuts[t.fanOut];
       t.login != f.sender && IsReached(f, t.login)
  }

  ghost predicate CacheOk(s: State) {
    forall chat :: Of(s.cache, chat) <= Of(s.table, chat)
  }

  ghost predicate LogOk(s: State) {
    && (forall t :: t in s.log ==> TurnOk(s, t))
    && (forall i, j :: 0 <= i < j < |s.log| ==>
          s.log[i].fanOut != s.log[j].fanOut || s.log[i].login != s.log[j].login)
  }

  ghost predicate Inv(s: State) {
    && CacheOk(s) && (forall n :: n in s.fanOuts ==> FanOutOk(s, n, s.fanOuts[n])) && LogOk(s)
  }

  // ---- every step keeps it -----------------------------------------------------

  lemma JoinStep(s: State, chat: int, login: Login)
    requires Inv(s)
    ensures Inv(Next(s, AddUser(chat, login)))
  {
  }

  /** The cache or who is online changes; a cache entry changes only soundly. */
  lemma AroundStep(s: State, cache: map<int, set<Login>>, online: set<Login>)
    requires Inv(s) && forall chat :: Of(cache, chat) <= Of(s.table, chat)
    ensures Inv(s.(cache := cache, online := online))
  {
  }

  /** A fan-out that has sent nothing yet may be set up anew. */
  lemma LookupStep(s: State, n: nat, f: FanOut)
    requires Inv(s) && (n in s.fanOuts ==> s.fanOuts[n].pc.NeedsTable? || s.fanOuts[n].pc.NeedsWrite?)
    requires FanOutOk(s, n, f) && Reached(f) == 0 && (f.pc.Ended? ==> !f.pc.ok && f.members == [])
    ensures Inv(s.(fanOuts := s.fanOuts[n := f]))
  {
  }

  lemma HadTurnStays(log: seq<Turn>, turn: Turn)
    ensures forall n, login :: HadTurn(log, n, login) ==> HadTurn(log + [turn], n, login)
    ensures HadTurn(log + [turn], turn.fanOut, turn.login)
  {
  }

  /** A sending fan-out moves past one member, or stops; nothing else changes. */
  lemma MoveOn(s: State, n: nat, pc: Pc)
    requires Inv(s) && n in s.fanOuts && s.fanOuts[n].pc.Sending?
    requires var f := s.fanOuts[n];
             || (pc == Ended(false, f.pc.next) && f.pc.next < |f.members| && f.members[f.pc.next] != f.sender)
             || (pc == Ended(true, f.pc.next) && f.pc.next >= |f.members|)
             || (pc == Sending(f.pc.next + 1) && f.pc.next < |f.members| &&
                 (f.members[f.pc.next] == f.sender || HadTurn(s.log, n, f.members[f.pc.next])))
    ensures Inv(s.(fanOuts := s.fanOuts[n := s.fanOuts[n].(pc := pc)]))
  {
  }

  lemma FirstTurn(s: State, n: nat)
    requires Inv(s) && n in s.fanOuts && s.fanOuts[n].pc.Sending? && s.fanOuts[n].pc.next < |s.fanOuts[n].members|
    ensures !HadTurn(s.log, n, s.fanOuts[n].members[s.fanOuts[n].pc.next])
  {
  }

  /** One member's turn is logged while the fan-out moves past it. */
  lemma TurnStep(s: State, n: nat, pushed: bool)
    requires Inv(s) && n in s.fanOuts && s.fanOuts[n].pc.Sending? && s.fanOuts[n].pc.next < |s.fanOuts[n].members|
    requires s.fanOuts[n].members[s.fanOuts[n].pc.next] != s.fanOuts[n].sender
    ensures var f := s.fanOuts[n];
            Inv(s.(fanOuts := s.fanOuts[n := f.(pc := Sending(f.pc.next + 1))],
                   log := s.log + [Turn(n, f.members[f.pc.next], pushed)]))
  {
    var f := s.fanOuts[n];
    var turn := Turn(n, f.members[f.pc.next], pushed);
    var t := s.(fanOuts := s.fanOuts[n := f.(pc := Sending(f.pc.next + 1))], log := s.log + [turn]);
    FirstTurn(s, n);
    HadTurnStays(s.log, turn);
    forall m | m in t.fanOuts ensures FanOutOk(t, m, t.fanOuts[m]) {
      assert FanOutOk(s, m, s.fanOuts[m]);
    }
    assert t.fanOuts[n].members[f.pc.next] == turn.login;
    forall x | x in t.log ensures TurnOk(t, x) {
      if x != turn { assert x in s.log && TurnOk(s, x); }
    }
    assert forall i :: 0 <= i < |s.log| ==> s.log[i] in s.log;
  }

  lemma SendStepKeepsInv(s: State, n: nat, room: bool)
    requires Inv(s) && n in s.fanOuts && s.fanOuts[n].pc.Sending?
    ensures Inv(SendStep(s, n, room))
  {
    var f := s.fanOuts[n];
    if f.pc.next >= |f.members| {
      MoveOn(s, n, Ended(true, f.pc.next));
    } else {
      TakenTurn(s, n, room);
      if f.members[f.pc.next] == f.sender {
        MoveOn(s, n, Sending(f.pc.next + 1));
      } else if f.members[f.pc.next] !in s.online || room {
        TurnStep(s, n, f.members[f.pc.next] in s.online);
      } else {
        MoveOn(s, n, Ended(false, f.pc.next));
      }
    }
  }

  lemma TakenTurn(s: State, n: nat, room: bool)
    requires n in s.fanOuts && s.fanOuts[n].pc.Sending? && s.fanOuts[n].pc.next < |s.fanOuts[n].members|
    ensures var f := s.fanOuts[n];
            var login := f.members[f.pc.next];
            var sent := login in s.online;
            SendStep(s, n, room) ==
            if login != f.sender && sent && !room then s.(fanOuts := s.fanOuts[n := f.(pc := Ended(false, f.pc.next))])
            else s.(fanOuts := s.fanOuts[n := f.(pc := Sending(f.pc.next + 1))],
                    log := if login == f.sender then s.log else s.log + [Turn(n, login, sent)])
  {
  }

  lemma WriteStep(s: State, n: nat, fault: bool)
    requires Inv(s) && n in s.fanOuts && s.fanOuts[n].pc.NeedsWrite?
    ensures Inv(Next(s, WriteCache(n, fault)))
  {
    var f := s.fanOuts[n];
    assert FanOutOk(s, n, f);
    LookupStep(s, n, f.(pc := Sending(0)));
    var t := s.(fanOuts := s.fanOuts[n := f.(pc := Sending(0))]);
    if !fault && f.members != [] {
      var cache := s.cache[f.chat := Of(s.cache, f.chat) + Logins(f.members)];
      forall chat ensures Of(cache, chat) <= Of(s.table, chat) {
        assert Of(s.cache, chat) <= Of(s.table, chat);
      }
      AroundStep(t, cache, t.online);
      assert Next(s, WriteCache(n, fault)) == t.(cache := cache, online := t.online);
    }
  }

  lemma NextKeepsInv(s: State, e: Event)
    requires Inv(s)
    ensures Inv(Next(s, e))
  {
    match e
    case AddUser(chat, login) => JoinStep(s, chat, login);
    case Expire(chat) =>
      forall c ensures Of(s.cache - {chat}, c) <= Of(s.table, c) { assert Of(s.cache, c) <= Of(s.table, c); }
      AroundStep(s, s.cache - {chat}, s.online);
    case Connect(login) => AroundStep(s, s.cache, s.online + {login});
    case Disconnect(login) => AroundStep(s, s.cache, s.online - {login});
    case ReadCache(n, chat, sender, list, fault) =>
      if n !in s.fanOuts {
        assert Of(s.cache, chat) <= Of(s.table, chat);
        if fault || Of(s.cache, chat) == {} { LookupStep(s, n, FanOut(chat, sender, [], NeedsTable)); }
        else if Lists(list, Of(s.cache, chat)) { LookupStep(s, n, FanOut(chat, sender, list, NeedsWrite)); }
      }
    case ReadTable(n, list, fault) =>
      if n in s.fanOuts && s.fanOuts[n].pc.NeedsTable? {
        assert FanOutOk(s, n, s.fanOuts[n]);
        if fault { LookupStep(s, n, s.fanOuts[n].(pc := Ended(false, 0))); }
        else if Lists(list, Of(s.table, s.fanOuts[n].chat)) {
          LookupStep(s, n, s.fanOuts[n].(members := list, pc := NeedsWrite));
        }
      }
    case WriteCache(n, fault) => if n in s.fanOuts && s.fanOuts[n].pc.NeedsWrite? { WriteStep(s, n, fault); }
    case SendNext(n, room) => if n in s.fanOuts && s.fanOuts[n].pc.Sending? { SendStepKeepsInv(s, n, room); }
  }

  lemma {:induction false} RunKeepsInv(s: State, events: seq<Event>)
    requires Inv(s)
    ensures Inv(Run(s, events))
  {
    if events != [] {
      RunKeepsInv(s, events[..|events| - 1]);
      NextKeepsInv(Run(s, events[..|events| - 1]), events[|events| - 1]);
    }
  }

  // ---- what every run keeps ----------------------------------------------------

  /** Nobody but members: in every state of every run, whoever a message was pushed to is a
      member of its chat and not its sender, and no fan-out pushes to anyone twice. */
  lemma OnlyMembersArePushed(events: seq<Event>, i: nat, j: nat)
    ensures var s := Run(START, events);
            i < |s.log| ==>
              && s.log[i].fanOut in s.fanOuts
              && s.log[i].login in Of(s.table, s.fanOuts[s.log[i].fanOut].chat)
              && s.log[i].login != s.fanOuts[s.log[i].fanOut].sender
              && (j < |s.log| && s.log[j].fanOut == s.log[i].fanOut && s.log[j].login == s.log[i].login ==> j == i)
  {
    RunKeepsInv(START, events);
    var s := Run(START, events);
    if i < |s.log| {
      assert TurnOk(s, s.log[i]) && FanOutOk(s, s.log[i].fanOut, s.fanOuts[s.log[i].fanOut]);
    }
  }

  /** A turn was had by exactly those reached: in every state of every run, running, ended
      well or given up, by a prefix of the list, without the sender; by the whole list if it
      ended well, and up to a recipient without room if it was given up. */
  lemma TurnsArePrefix(events: seq<Event>, n: nat, login: Login)
    ensures var s := Run(START, events);
            n in s.fanOuts ==>
              var f := s.fanOuts[n];
              && Reached(f) <= |f.members|
              && (HadTurn(s.log, n, login) <==> login != f.sender && IsReached(f, login))
              && (f.pc.Ended? && f.pc.ok ==> Reached(f) == |f.members|)
              && (f.pc.Ended? && !f.pc.ok && f.members != [] ==>
                    Reached(f) < |f.members| && f.members[Reached(f)] != f.sender)
  {
    RunKeepsInv(START, events);
    var s := Run(START, events);
    if n in s.fanOuts {
      var f := s.fanOuts[n];
      assert FanOutOk(s, n, f);
      if HadTurn(s.log, n, login) {
        var t :| t in s.log && t.fanOut == n && t.login == login;
        assert TurnOk(s, t);
      }
    }
  }

  /** One turn: the sender is passed over without one; an online recipient with room is
      pushed to, an offline one is not; and without room the fan-out gives up. */
  lemma NextTurn(s: State, n: nat, room: bool)
    requires n in s.fanOuts && s.fanOuts[n].pc.Sending? && s.fanOuts[n].pc.next < |s.fanOuts[n].members|
    ensures var f, t := s.fanOuts[n], Next(s, SendNext(n, room));
            var login := f.members[f.pc.next];
            && t.table == s.table && t.cache == s.cache && t.online == s.online && n in t.fanOuts
            && t.log == s.log + (if login == f.sender then []
                                 else if login !in s.online then [Turn(n, login, false)]
                                 else if room then [Turn(n, login, true)] else [])
            && t.fanOuts[n].pc == (if login != f.sender && login in s.online && !room then Ended(false, f.pc.next)
                                   else Sending(f.pc.next + 1))
  {
  }

  // ---- who is on a list ------------------------------------------------------------

  /** The lookup of a fan-out has ended well. */
  predicate HasList(f: FanOut) {
    f.pc.NeedsWrite? || f.pc.Sending? || (f.pc.Ended? && f.pc.ok)
  }

  /** Exactly when a lookup that begins now finds a member: the cached list has it, or
      there is none, or it cannot be read. */
  predicate Finds(s: State, chat: int, fault: bool, login: Login) {
    fault || Of(s.cache, chat) == {} || login in Of(s.cache, chat)
  }

  ghost predicate OnList(s: State, n: nat, chat: int, login: Login, finds: bool) {
    && login in Of(s.table, chat) && n in s.fanOuts && s.fanOuts[n].chat == chat
    && (s.fanOuts[n].pc.NeedsTable? ==> finds)
    && (HasList(s.fanOuts[n]) ==> (login in s.fanOuts[n].members <==> finds))
  }

  lemma OnListStep(s: State, e: Event, n: nat, chat: int, login: Login, finds: bool)
    requires OnList(s, n, chat, login, finds)
    ensures OnList(Next(s, e), n, chat, login, finds)
  {
  }

  lemma {:induction false} OnListStays(s: State, events: seq<Event>, n: nat, chat: int, login: Login, finds: bool)
    requires OnList(s, n, chat, login, finds)
    ensures OnList(Run(s, events), n, chat, login, finds)
  {
    if events != [] {
      OnListStays(s, events[..|events| - 1], n, chat, login, finds);
      OnListStep(Run(s, events[..|events| - 1]), events[|events| - 1], n, chat, login, finds);
    }
  }

  /** A fan-out lists a member if and only if its lookup finds it in that sense, whatever
      happens after the lookup began. */
  lemma MemberIsListed(s: State, e: Event, events: seq<Event>, login: Login)
    requires e.ReadCache? && e.fanOut !in s.fanOuts && login in Of(s.table, e.chat)
    requires e.fault || Of(s.cache, e.chat) == {} || Lists(e.list, Of(s.cache, e.chat))
    ensures var t := Run(Next(s, e), events);
            && e.fanOut in t.fanOuts
            && (HasList(t.fanOuts[e.fanOut]) ==>
                  (login in t.fanOuts[e.fanOut].members <==> Finds(s, e.chat, e.fault, login)))
  {
    assert login in e.list <==> login in Logins(e.list);
    OnListStays(Next(s, e), events, e.fanOut, e.chat, login, Finds(s, e.chat, e.fault, login));
  }

  // ---- a stale list stays stale --------------------------------------------------

  /** The chat has a cached list without the login, and no fan-out knows better. */
  ghost predicate Stale(s: State, chat: int, login: Login) {
    && Of(s.cache, chat) != {} && login !in Of(s.cache, chat)
    && forall n :: n in s.fanOuts && s.fanOuts[n].chat == chat ==>
         !s.fanOuts[n].pc.NeedsTable? && login !in s.fanOuts[n].members
  }

  /** Whether the event lets a list be read from the table again. */
  predicate Refreshes(e: Event, chat: int) {
    (e.Expire? && e.chat == chat) || (e.ReadCache? && e.chat == chat && e.fault)
  }

  lemma StaleStep(s: State, e: Event, chat: int, login: Login)
    requires Stale(s, chat, login) && !Refreshes(e, chat)
    ensures Stale(Next(s, e), chat, login)
  {
  }

  /** What the code does not meet: a user who joins while the list is cached gets no push as
      long as it is neither expired nor unreadable, however many messages are sent. */
  lemma {:induction false} StaleUntilRefreshed(s: State, events: seq<Event>, chat: int, login: Login)
    requires Stale(s, chat, login) && forall e :: e in events ==> !Refreshes(e, chat)
    ensures var t := Run(s, events);
            && Stale(t, chat, login)
            && forall n :: n in t.fanOuts && t.fanOuts[n].chat == chat ==> login !in t.fanOuts[n].members
  {
    if events != [] {
      var front := events[..|events| - 1];
      assert forall e :: e in front ==> e in events;
      StaleUntilRefreshed(s, front, chat, login);
      StaleStep(Run(s, front), events[|events| - 1], chat, login);
    }
  }

  lemma RunAppend(s: State, events: seq<Event>, e: Event)
    ensures Run(s, events + [e]) == Next(Run(s, events), e)
  {
  }

  /** A chat of one. */
  function OneMember(chat: int, a: Login): State {
    START.(table := map[chat := {a}])
  }

  lemma OneJoins(chat: int, a: Login)
    ensures Next(START, AddUser(chat, a)) == OneMember(chat, a)
  {
    assert Of(START.table, chat) + {a} == {a};
    assert START.table[chat := {a}] == map[chat := {a}];
  }

  /** Its first fan-out reads the list ... */
  lemma OneIsRead(chat: int, a: Login)
    ensures var s := Next(OneMember(chat, a), ReadCache(0, chat, a, [], false));
            Next(s, ReadTable(0, [a], false)) ==
            OneMember(chat, a).(fanOuts := map[0 := FanOut(chat, a, [a], NeedsWrite)])
  {
    var s := OneMember(chat, a);
    var f := FanOut(chat, a, [], NeedsTable);
    assert Next(s, ReadCache(0, chat, a, [], false)).fanOuts == map[0 := f];
    assert Logins([a]) == {a} && Lists([a], {a});
    assert map[0 := f][0 := FanOut(chat, a, [a], NeedsWrite)] == map[0 := FanOut(chat, a, [a], NeedsWrite)];
  }

  /** ... and caches it. */
  lemma OneIsCached(chat: int, a: Login)
    ensures Next(OneMember(chat, a).(fanOuts := map[0 := FanOut(chat, a, [a], NeedsWrite)]), WriteCache(0, false)) ==
            State(map[chat := {a}], map[chat := {a}], {}, map[0 := FanOut(chat, a, [a], Sending(0))], [])
  {
    var s := OneMember(chat, a).(fanOuts := map[0 := FanOut(chat, a, [a], NeedsWrite)]);
    var t := Next(s, WriteCache(0, false));
    assert Logins([a]) == {a} && Of(s.cache, chat) + {a} == {a};
    assert t.cache == map[chat := {a}] && t.fanOuts == map[0 := FanOut(chat, a, [a], Sending(0))];
  }

  lemma RunFour(s: State, a: Event, b: Event, c: Event, d: Event)
    ensures Run(s, [a] + [b] + [c] + [d]) == Next(Next(Next(Next(s, a), b), c), d)
  {
    RunAppend(s, [a] + [b] + [c], d);
    RunAppend(s, [a] + [b], c);
    RunAppend(s, [a], b);
    RunAppend(s, [], a);
    assert [] + [a] == [a];
  }

  lemma ListCached(chat: int, a: Login) returns (events: seq<Event>)
    ensures Run(START, events) ==
            State(map[chat := {a}], map[chat := {a}], {}, map[0 := FanOut(chat, a, [a], Sending(0))], [])
  {
    OneJoins(chat, a);
    OneIsRead(chat, a);
    OneIsCached(chat, a);
    var e1, e2 := AddUser(chat, a), ReadCache(0, chat, a, [], false);
    var e3, e4 := ReadTable(0, [a], false), WriteCache(0, false);
    RunFour(START, e1, e2, e3, e4);
    events := [e1] + [e2] + [e3] + [e4];
  }

  /** Such a state is reached by one fan-out and one join after it. */
  lemma StaleListArises(chat: int, a: Login, b: Login) returns (events: seq<Event>)
    requires a != b
    ensures var s := Run(START, events);
            Stale(s, chat, b) && b in Of(s.table, chat) && b in s.online
  {
    events := ListCached(chat, a);
    RunAppend(START, events, AddUser(chat, b));
    events := events + [AddUser(chat, b)];
    RunAppend(START, events, Connect(b));
    events := events + [Connect(b)];
  }
}
