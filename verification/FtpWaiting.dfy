/** For how many clients and which queue sizes the two threads of
    source/ftp_daemon.c can come to wait for each other. */
module FtpWaiting {
  import opened Bits
  import opened FtpLoop
  import opened FtpProgress
  import opened FtpTransfer
  import opened Options

  predicate BothWait(l: Loop, lim: Limits) {
    ServerWaits(l.s, lim) && IoWaits(l.s, lim)
  }

  // --------------------------------------------------------- who can send in a round

  predicate MaySend(c: Client) {
    match c.task
    case Nothing => true
    case Retrieve(_) => !c.started
    case Store(_, _) => !c.eofSent
  }

  // Whether client k can send on from place p on
  predicate CanSend(c: Client, k: nat, p: nat) {
    && MaySend(c)
    && p <= 3 * k + 3
    && (c.task.Nothing? ==> p <= 3 * k + 1)
    && (c.task.Store? ==> p <= 3 * k + 2)
  }

  function SendersFrom(clients: seq<Client>, k: nat, p: nat): nat
    decreases |clients| - k
  {
    if k >= |clients| then 0 else (if CanSend(clients[k], k, p) then 1 else 0) + SendersFrom(clients, k + 1, p)
  }

  function Senders(clients: seq<Client>): nat {
    SendersFrom(clients, 0, 0)
  }

  lemma ServedOne(s: State, t: Turn, size: nat)
    ensures |Sent(s, t, size)| <= 1
    ensures var u := Served(s, t, size);
            && |u.clients| == |s.clients|
            && (forall k | 0 <= k < |s.clients| && k != t.client :: u.clients[k] == s.clients[k])
            && (t.client >= |s.clients| ==> Sent(s, t, size) == [])
            && (t.client < |s.clients| ==>
                  |Sent(s, t, size)| + (if CanSend(u.clients[t.client], t.client, Place(t) + 1) then 1 else 0)
                  <= if CanSend(s.clients[t.client], t.client, Place(t)) then 1 else 0)
  {
    hide MayBegin, Content, Fit;
  }

  // One turn uses up what it sends
  lemma {:induction false} TurnUses(clients: seq<Client>, now: seq<Client>, i: nat, sent: nat, k: nat, p: nat)
    requires |now| == |clients| && (forall j | 0 <= j < |clients| && j != i :: now[j] == clients[j])
    requires i < |clients| ==>
               sent + (if CanSend(now[i], i, p + 1) then 1 else 0) <= if CanSend(clients[i], i, p) then 1 else 0
    ensures (if k <= i < |clients| then sent else 0) + SendersFrom(now, k, p + 1) <= SendersFrom(clients, k, p)
    decreases |clients| - k
  {
    hide MaySend;
    if k < |clients| {
      TurnUses(clients, now, i, sent, k + 1, p);
    }
  }

  lemma {:induction false} LaterFewer(clients: seq<Client>, k: nat, p: nat, q: nat)
    requires p <= q
    ensures SendersFrom(clients, k, q) <= SendersFrom(clients, k, p)
    decreases |clients| - k
  {
    hide MaySend;
    if k < |clients| {
      LaterFewer(clients, k + 1, p, q);
    }
  }

  // In one round each client sends one command at most
  lemma {:induction false} ComingFrom(s: State, ready: seq<Turn>, size: nat, p: nat)
    requires InOrder(ready) && (ready != [] ==> p <= Place(ready[0]))
    ensures |Coming(s, ready, size)| <= SendersFrom(s.clients, 0, p)
    decreases |ready|
  {
    hide Sent, Served, CanSend;
    if ready != [] {
      var t := ready[0];
      var u := Served(s, t, size);
      ServedOne(s, t, size);
      ComingFrom(u, ready[1..], size, Place(t) + 1);
      TurnUses(s.clients, u.clients, t.client, |Sent(s, t, size)|, 0, Place(t));
      LaterFewer(s.clients, 0, p, Place(t));
    }
  }

  lemma ComingFew(s: State, ready: seq<Turn>, size: nat)
    requires InOrder(ready)
    ensures |Coming(s, ready, size)| <= Senders(s.clients)
  {
    ComingFrom(s, ready, size, 0);
  }

  lemma {:induction false} SendersSame(a: seq<Client>, b: seq<Client>, k: nat, p: nat)
    requires |a| == |b| && forall j | 0 <= j < |a| :: b[j] == a[j].(slot := b[j].slot)
    ensures SendersFrom(a, k, p) == SendersFrom(b, k, p)
    decreases |a| - k
  {
    if k < |a| {
      SendersSame(a, b, k + 1, p);
    }
  }

  // ------------------------------------------------------------------ slots in use

  function UsedFrom(slots: seq<Slot>, k: nat): nat
    decreases |slots| - k
  {
    if k >= |slots| then 0 else (if slots[k].Used? then 1 else 0) + UsedFrom(slots, k + 1)
  }

  lemma {:induction false} UsedFromLater(slots: seq<Slot>, k: nat, j: nat, x: Slot)
    requires j < k && j < |slots|
    ensures UsedFrom(slots[j := x], k) == UsedFrom(slots, k)
    decreases |slots| - k
  {
    if k < |slots| {
      UsedFromLater(slots, k + 1, j, x);
    }
  }

  lemma {:induction false} UsedFromFewer(slots: seq<Slot>, k: nat)
    ensures UsedFrom(slots, k) <= UsedFrom(slots, 0)
    ensures k >= |slots| ==> UsedFrom(slots, k) == 0
  {
    if k > 0 {
      UsedFromFewer(slots, k - 1);
    }
  }

  // Nothing comes of client i before it gets a reply
  ghost predicate Silent(s: State, i: nat)
    requires i < |s.clients|
  {
    CommandsOf(s.io, i) == [] && !MaySend(s.clients[i])
  }

  lemma UsedSilent(s: State, k: nat, size: nat)
    requires Inv(s, size) && k < |s.slots| && s.slots[k].Used?
    ensures var i := s.slots[k].client; i < |s.clients| && Silent(s, i) && s.clients[i].slot == Some(k)
  {
    hide CommandsOf, RepliesOf, FileOf, ClientOk;
    var i := s.slots[k].client;
    var c := s.clients[i];
    assert One(s, i, size);
    UsedRetrieves(c, CommandsOf(s.io, i), RepliesOf(s.server, i), s.slots[k], FileOf(s.files, c), i, size);
  }

  lemma {:induction false} ReplyOwned(server: seq<Reply>, r: Reply)
    requires r in server
    ensures r in RepliesOf(server, r.client)
  {
    if server[0] != r {
      assert r in server[1..];
      ReplyOwned(server[1..], r);
    }
  }

  // A client with a reply on its way sends nothing, but for a retrieve already asked for
  lemma RepliedCannotSend(s: State, r: Reply, size: nat)
    requires Inv(s, size) && r in s.server
    ensures r.client < |s.clients| && !MaySend(s.clients[r.client])
  {
    hide CommandsOf, RepliesOf, SlotOf, FileOf;
    assert One(s, r.client, size);
    ReplyOwned(s.server, r);
  }

  lemma AnsweredSilent(s: State, r: Reply, size: nat)
    requires Inv(s, size) && r in s.server && r.WriteDone?
    ensures r.client < |s.clients| && Silent(s, r.client) && s.clients[r.client].task.Store?
  {
    hide CommandsOf, RepliesOf, SlotOf, FileOf, RetrieveOk;
    var i := r.client;
    var c := s.clients[i];
    assert One(s, i, size);
    ReplyOwned(s.server, r);
    if c.task.Retrieve? {
      OnlyReads(c, CommandsOf(s.io, i), RepliesOf(s.server, i), SlotOf(s.slots, c), i, r);
    }
  }

  lemma OnlyReads(c: Client, commands: seq<Command>, replies: seq<Reply>, slot: Slot, i: nat, r: Reply)
    requires c.task.Retrieve? && RetrieveOk(c, commands, replies, slot, i) && r in replies
    ensures r.ReadDone?
  {
    if replies != [] {
      assert replies == replies[..|replies| - 1] + [replies[|replies| - 1]];
    }
  }

  lemma NotSilent(s: State, size: nat)
    requires Inv(s, size) && s.io != []
    ensures s.io[0].client < |s.clients| && !Silent(s, s.io[0].client)
  {
    hide One, SlotsOk, TasksOk, CommandsOf;
    assert s.io[0] in s.io;
    CommandsFirst(s.io, s.io[0].client);
  }

  lemma AllSilent(s: State, size: nat)
    requires Inv(s, size) && forall i | 0 <= i < |s.clients| :: Silent(s, i)
    ensures s.io == [] && Senders(s.clients) == 0
  {
    hide Inv, CommandsOf;
    if s.io != [] {
      NotSilent(s, size);
    }
    forall i | 0 <= i < |s.clients|
      ensures !MaySend(s.clients[i])
    {
      assert Silent(s, i);
    }
    NoSenders(s.clients, 0);
  }

  lemma {:induction false} NoSenders(clients: seq<Client>, k: nat)
    requires forall i | 0 <= i < |clients| :: !MaySend(clients[i])
    ensures SendersFrom(clients, k, 0) == 0
    decreases |clients| - k
  {
    if k < |clients| {
      NoSenders(clients, k + 1);
    }
  }

  // ------------------------------------------------------------------- two clients

  // Of two clients, one that has a slot in use does not send
  lemma UsedOrSends(s: State, size: nat)
    requires Inv(s, size) && |s.clients| <= 2
    ensures UsedFrom(s.slots, 0) + Senders(s.clients) <= |s.clients|
  {
    hide One, TasksOk, MessagesOk, CommandsOf, MaySend;
    forall k | 0 <= k < |s.slots| && s.slots[k].Used?
      ensures s.slots[k].client < |s.clients| && !MaySend(s.clients[s.slots[k].client])
      ensures s.clients[s.slots[k].client].slot == Some(k)
    {
      UsedSilent(s, k, size);
    }
    CountTwo(s.slots, s.clients);
  }

  lemma CountTwo(slots: seq<Slot>, clients: seq<Client>)
    requires |slots| == |clients| <= 2
    requires forall k | 0 <= k < |slots| && slots[k].Used? ::
               slots[k].client < |clients| && !MaySend(clients[slots[k].client]) && clients[slots[k].client].slot == Some(k)
    ensures UsedFrom(slots, 0) + Senders(clients) <= |clients|
  {
    hide MaySend;
    var n := |slots|;
    assert UsedFrom(slots, n) == 0 && SendersFrom(clients, n, 0) == 0;
    if n == 2 {
      assert UsedFrom(slots, 0) == (if slots[0].Used? then 1 else 0) + (if slots[1].Used? then 1 else 0);
      assert SendersFrom(clients, 0, 0) == (if MaySend(clients[0]) then 1 else 0) + (if MaySend(clients[1]) then 1 else 0);
    } else if n == 1 {
      assert UsedFrom(slots, 0) == (if slots[0].Used? then 1 else 0);
      assert SendersFrom(clients, 0, 0) == (if MaySend(clients[0]) then 1 else 0);
    }
  }

  // The two of them, or one of either kind, leave nothing to come
  lemma SilentBoth(s: State, i: nat, size: nat)
    requires Inv(s, size) && |s.clients| == 2
    requires UsedFrom(s.slots, 0) == 2 || (UsedFrom(s.slots, 0) >= 1 && i < 2 && Silent(s, i) && s.clients[i].task.Store?)
    ensures s.io == [] && Senders(s.clients) == 0
    ensures i < 2 && s.clients[i].task.Store? ==> UsedFrom(s.slots, 0) < 2
  {
    hide One, TasksOk, MessagesOk, CommandsOf, MaySend, Silent;
    forall k | 0 <= k < |s.slots| && s.slots[k].Used?
      ensures s.slots[k].client < |s.clients| && Silent(s, s.slots[k].client)
      ensures s.clients[s.slots[k].client].slot == Some(k) && s.clients[s.slots[k].client].task.Retrieve?
    {
      UsedSilent(s, k, size);
      SlotRetrieves(s, k, size);
    }
    assert UsedFrom(s.slots, 2) == 0;
    assert UsedFrom(s.slots, 0) == (if s.slots[0].Used? then 1 else 0) + (if s.slots[1].Used? then 1 else 0);
    AllSilent(s, size);
  }

  lemma SlotRetrieves(s: State, k: nat, size: nat)
    requires Inv(s, size) && k < |s.slots| && s.slots[k].Used?
    ensures s.slots[k].client < |s.clients| && s.clients[s.slots[k].client].task.Retrieve?
  {
    hide CommandsOf, RepliesOf, FileOf, ClientOk;
    var i := s.slots[k].client;
    var c := s.clients[i];
    assert One(s, i, size);
    UsedRetrieves(c, CommandsOf(s.io, i), RepliesOf(s.server, i), s.slots[k], FileOf(s.files, c), i, size);
  }

  // ---------------------------------------------------------- the messages to account for

  // The messages on their way, those the rest of the round sends or the next round may
  // send, and the replies of the slots still to be visited
  function Load(l: Loop, size: nat): nat {
    |Commands(l, size)| + |l.s.server| + UsedFrom(l.s.slots, l.s.next) + (if l.polled then 0 else Senders(l.s.clients))
  }

  // So many clients never wait for each other.
  predicate Few(n: nat, lim: Limits) {
    n <= 2 && n <= lim.io + 1 && n <= lim.server + 1
  }

  ghost predicate Bounded(l: Loop, lim: Limits) {
    Good(l, lim) && Few(|l.s.clients|, lim) && Load(l, lim.buffer) <= lim.io + lim.server + 1
  }

  lemma BoundedApart(l: Loop, lim: Limits)
    requires Bounded(l, lim)
    ensures !BothWait(l, lim)
  {
    hide Good, Coming, UsedFrom, Senders;
  }

  lemma PollBounded(l: Loop, turns: seq<Turn>, lim: Limits)
    requires Bounded(l, lim)
    ensures Bounded(Next(l, Poll(turns), lim), lim)
  {
    hide Inv, Room, AllDelivered, InOrder, Coming, UsedFrom, Senders;
    NextGood(l, Poll(turns), lim);
    if !ServerWaits(l.s, lim) && !l.polled && InOrder(turns) {
      ComingFew(l.s, turns, lim.buffer);
      NothingComing(l, lim.buffer);
    }
  }

  lemma NothingComing(l: Loop, size: nat)
    requires l.ready == []
    ensures Commands(l, size) == l.s.io
  {
  }

  lemma ServeBounded(l: Loop, lim: Limits)
    requires Bounded(l, lim)
    ensures Bounded(Next(l, Serve, lim), lim)
  {
    hide Inv, Room, AllDelivered, InOrder, Commands, UsedFrom, Senders, Served, Due;
    NextGood(l, Serve, lim);
    GoodInv(l, lim);
    if !ServerWaits(l.s, lim) && l.ready != [] {
      ServeDue(l, lim);
      ServedSends(l.s, l.ready[0], lim.buffer);
    }
  }

  lemma VisitBounded(l: Loop, lim: Limits)
    requires Bounded(l, lim)
    ensures Bounded(Next(l, Visit, lim), lim)
  {
    hide Good, Commands, Due, Loaded, Content;
    NextGood(l, Visit, lim);
    GoodInv(l, lim);
    if !IoWaits(l.s, lim) && l.s.next < |l.s.slots| {
      VisitDue(l, lim);
      VisitAlike(l.s, lim);
      SendersSame(l.s.clients, Next(l, Visit, lim).s.clients, 0, 0);
      UsedFromLater(l.s.slots, l.s.next + 1, l.s.next, Next(l, Visit, lim).s.slots[l.s.next]);
    }
  }

  lemma EndBounded(l: Loop, lim: Limits)
    requires Bounded(l, lim)
    ensures Bounded(Next(l, EndRound, lim), lim)
  {
    hide Good, DoReply, Coming, UsedFrom, Senders;
    NextGood(l, EndRound, lim);
    var m := Next(l, EndRound, lim);
    if m != l {
      GoodInv(l, lim);
      GoodInv(m, lim);
      NothingComing(l, lim.buffer);
      NothingComing(m, lim.buffer);
      UsedFromFewer(m.s.slots, m.s.next);
      if l.s.server == [] {
        NoReply(l.s);
        UsedOrSends(m.s, lim.buffer);
      } else {
        ReplyTaken(l.s);
        UsedOrSends(m.s, lim.buffer);
        if Senders(m.s.clients) == 2 {
          SendersUnreplied(m.s, lim.buffer);
        }
      }
    }
  }

  lemma ReplyTaken(s: State)
    requires s.server != []
    ensures var t := DoReply(s);
            && t.server == s.server[1..] && t.io == s.io && t.slots == s.slots && t.next == s.next
            && |t.clients| == |s.clients|
  {
    hide FileOf;
  }

  // Where both clients may send, neither has a reply on its way
  lemma SendersUnreplied(s: State, size: nat)
    requires Inv(s, size) && |s.clients| <= 2 && Senders(s.clients) == 2
    ensures s.server == []
  {
    hide Inv, MaySend;
    assert SendersFrom(s.clients, |s.clients|, 0) == 0;
    assert |s.clients| == 2;
    assert SendersFrom(s.clients, 0, 0)
        == (if MaySend(s.clients[0]) then 1 else 0) + (if MaySend(s.clients[1]) then 1 else 0);
    if s.server != [] {
      RepliedCannotSend(s, s.server[0], size);
    }
  }

  lemma ExecuteBounded(l: Loop, lim: Limits)
    requires Bounded(l, lim)
    ensures Bounded(Next(l, Execute, lim), lim)
  {
    hide Good, DoTakeCommand, Commands, UsedFrom, Senders, Due;
    NextGood(l, Execute, lim);
    if IoWaits(l.s, lim) || l.s.next < |l.s.slots| {
      NoExecute(l, lim);
    } else {
      GoodInv(l, lim);
      UsedFromFewer(l.s.slots, l.s.next);
      ExecuteSenders(l.s, lim);
      if l.s.io == [] {
        EmptyBounded(l, lim);
      } else {
        ExecuteCommands(l, lim);
        TakenBounded(l, lim);
      }
    }
  }

  lemma NoExecute(l: Loop, lim: Limits)
    requires IoWaits(l.s, lim) || l.s.next < |l.s.slots|
    ensures Next(l, Execute, lim) == l
  {
    hide DoCommand;
  }

  lemma ExecuteSenders(s: State, lim: Limits)
    requires Inv(s, lim.buffer)
    ensures var t := DoTakeCommand(s, lim); |t.clients| == |s.clients| && Senders(t.clients) == Senders(s.clients)
  {
    hide Inv, DoTakeCommand, Stored, SameFile;
    TakeAlike(s, lim);
    SendersSame(s.clients, DoTakeCommand(s, lim).clients, 0, 0);
  }

  // With no command, a new pass over the slots begins
  lemma EmptyBounded(l: Loop, lim: Limits)
    requires Bounded(l, lim) && !IoWaits(l.s, lim) && l.s.next >= |l.s.slots| && l.s.io == []
    ensures Load(Next(l, Execute, lim), lim.buffer) <= lim.io + lim.server + 1
  {
    hide UsedFrom, Senders, Inv, InOrder, Room, AllDelivered, Due;
    GoodInv(l, lim);
    NothingToExecute(l, lim);
    UsedOrSends(l.s, lim.buffer);
    ComingFew(l.s, l.ready, lim.buffer);
    if !l.polled {
      NothingComing(l, lim.buffer);
    }
  }

  lemma TakenBounded(l: Loop, lim: Limits)
    requires Bounded(l, lim) && !IoWaits(l.s, lim) && l.s.next >= |l.s.slots| && l.s.io != []
    requires UsedFrom(l.s.slots, l.s.next) == 0
    requires var m := Next(l, Execute, lim);
             && Commands(l, lim.buffer) != [] && |Commands(m, lim.buffer)| == |Commands(l, lim.buffer)| - 1
             && |m.s.clients| == |l.s.clients| && Senders(m.s.clients) == Senders(l.s.clients)
    ensures Load(Next(l, Execute, lim), lim.buffer) <= lim.io + lim.server + 1
  {
    hide Good, DoTakeCommand, UsedFrom, Senders, Commands;
    var m := Next(l, Execute, lim);
    GoodInv(l, lim);
    NextGood(l, Execute, lim);
    GoodInv(m, lim);
    TakenReply(l.s, lim);
    UsedOrSends(m.s, lim.buffer);
    var answered := |m.s.server| - |l.s.server|;
    if UsedFrom(m.s.slots, 0) + answered >= 2 {
      var i := l.s.io[0].client;
      if answered == 1 {
        AnsweredSilent(m.s, WriteDone(i, false), lim.buffer);
      }
      if |m.s.clients| < 2 {
        OneClient(m.s, i, lim.buffer);
      }
      SilentBoth(m.s, i, lim.buffer);
      GoodOrder(m, lim);
      NothingLeft(m, lim.buffer);
    }
  }

  lemma GoodOrder(l: Loop, lim: Limits)
    requires Good(l, lim)
    ensures InOrder(l.ready)
  {
    hide Inv, InOrder;
  }

  lemma NothingLeft(l: Loop, size: nat)
    requires l.s.io == [] && Senders(l.s.clients) == 0 && InOrder(l.ready)
    ensures Commands(l, size) == []
  {
    hide Coming, Senders, InOrder;
    ComingFew(l.s, l.ready, size);
  }

  lemma TakenReply(s: State, lim: Limits)
    requires Inv(s, lim.buffer) && !IoWaits(s, lim) && s.next >= |s.slots| && s.io != []
    ensures var t := DoTakeCommand(s, lim);
            t.next == 0 && (t.server == s.server || t.server == s.server + [WriteDone(s.io[0].client, false)])
  {
    hide Inv, FreeSlot, Written, Content;
    if s.io[0].ReadFile? {
      RegisterKeeps(s, s.io[0].client, s.io[0].name, lim);
    }
  }

  // A client alone has a slot or an answer, not both
  lemma OneClient(s: State, i: nat, size: nat)
    requires Inv(s, size) && |s.clients| < 2
    ensures UsedFrom(s.slots, 0) <= 1
    ensures i < |s.clients| && s.clients[i].task.Store? ==> UsedFrom(s.slots, 0) == 0
  {
    hide One, TasksOk, MessagesOk, CommandsOf, MaySend;
    assert UsedFrom(s.slots, |s.slots|) == 0;
    if |s.slots| == 1 && s.slots[0].Used? {
      SlotRetrieves(s, 0, size);
    }
  }

  lemma NextBounded(l: Loop, m: Move, lim: Limits)
    requires Bounded(l, lim)
    ensures Bounded(Next(l, m, lim), lim)
  {
    hide Bounded, Next;
    match m {
      case Poll(turns) => PollBounded(l, turns, lim);
      case Serve => ServeBounded(l, lim);
      case EndRound => EndBounded(l, lim);
      case Visit => VisitBounded(l, lim);
      case Execute => ExecuteBounded(l, lim);
    }
  }

  lemma {:induction false} GoBounded(l: Loop, ms: seq<Move>, lim: Limits)
    requires Bounded(l, lim)
    ensures Bounded(Go(l, ms, lim), lim)
    decreases |ms|
  {
    hide Bounded, Next;
    if ms != [] {
      NextBounded(l, ms[0], lim);
      GoBounded(Next(l, ms[0], lim), ms[1..], lim);
    }
  }

  lemma IdleBounded(n: nat, files: map<string, seq<byte>>, lim: Limits)
    requires 0 < lim.buffer && Few(n, lim)
    ensures Bounded(Idle(n, files), lim)
  {
    hide Inv, UsedFrom, Senders, Good;
    IdleGood(n, files, lim);
    var l := Idle(n, files);
    GoodInv(l, lim);
    NothingComing(l, lim.buffer);
    UsedOrSends(l.s, lim.buffer);
    UsedFromFewer(l.s.slots, 0);
  }

  // So few clients never bring the two threads to wait for each other
  lemma FewNeverWait(n: nat, files: map<string, seq<byte>>, ms: seq<Move>, lim: Limits)
    requires 0 < lim.buffer && Few(n, lim)
    ensures !BothWait(Go(Idle(n, files), ms, lim), lim)
  {
    hide Bounded, Idle, Go;
    IdleBounded(n, files, lim);
    GoBounded(Idle(n, files), ms, lim);
    BoundedApart(Go(Idle(n, files), ms, lim), lim);
  }

  // ------------------------------------------------------------------- it does happen

  predicate Storing(c: Client, name: string) {
    c.task == Store(name, false) && !c.eofSent && c.buffer == []
  }

  // Client 0 retrieves f, in the only slot in use, with so many full pieces left;
  // client 1 stores g, and client 2 h if there is one
  ghost predicate Busy(s: State, n: nat, left: nat, size: nat) {
    && |s.clients| == |s.slots| == n >= 2 && s.next == 0
    && s.clients[0].task == Retrieve("f")
    && Storing(s.clients[1], "g") && (n > 2 ==> Storing(s.clients[2], "h"))
    && s.slots[0].Used? && s.slots[0].client == 0 && s.slots[0].name == "f"
    && (forall k | 1 <= k < n :: s.slots[k].Unused?)
    && s.slots[0].offset + left * size <= |Content(s.files, "f")|
    && PiecesOnly(s)
  }

  // Nothing on its way starts or ends a transfer.
  predicate PiecesOnly(s: State) {
    && (forall r | r in s.server :: r.ReadDone? && r.client == 0 && !r.error && !r.eof)
    && (forall c | c in s.io :: c.WriteFile? && !c.eof && c.name != "f")
  }

  function Full(i: nat, lim: Limits): Turn {
    Data(i, seq<byte>(lim.buffer, _ => 0))
  }

  // A full buffer of a client that stores is sent on
  lemma FullServed(s: State, i: nat, name: string, lim: Limits)
    requires 0 < lim.buffer && i < |s.clients| && Storing(s.clients[i], name)
    ensures var t := Served(s, Full(i, lim), lim.buffer);
            && (exists c: Command :: c.WriteFile? && !c.eof && c.name == name && t.io == s.io + [c])
            && |t.clients| == |s.clients| && Storing(t.clients[i], name)
            && (forall j | 0 <= j < |s.clients| && j != i :: t.clients[j] == s.clients[j])
            && t.server == s.server && t.slots == s.slots && t.next == s.next && t.files == s.files
  {
    var chunk := seq<byte>(lim.buffer, _ => 0);
    assert chunk != [] && Fit(s.clients[i], chunk, lim.buffer) == chunk;
    assert s.clients[i].buffer + chunk == chunk;
    var c := WriteFile(i, name, s.clients[i].isAppend, false, chunk);
    assert Served(s, Full(i, lim), lim.buffer).io == s.io + [c];
  }

  lemma StoreBusy(s: State, i: nat, n: nat, left: nat, lim: Limits)
    requires 0 < lim.buffer && Busy(s, n, left, lim.buffer) && 1 <= i < n && i <= 2
    ensures var t := Served(s, Full(i, lim), lim.buffer);
            Busy(t, n, left, lim.buffer) && |t.io| == |s.io| + 1 && t.server == s.server
  {
    hide Served, Full;
    FullServed(s, i, if i == 1 then "g" else "h", lim);
  }

  lemma FullPiece(file: seq<byte>, offset: nat, left: nat, size: nat)
    requires 0 < left && offset + left * size <= |file|
    ensures |Loaded(file, offset, size)| == size && offset + size + (left - 1) * size <= |file|
  {
    assert left * size == (left - 1) * size + size;
  }

  lemma ReadBusy(s: State, n: nat, left: nat, lim: Limits)
    requires 0 < lim.buffer && Busy(s, n, left, lim.buffer) && 0 < left && !IoWaits(s, lim)
    ensures var t := DoVisitSlot(s, lim);
            && t.next == 1 && |t.server| == |s.server| + 1 && t.io == s.io
            && Busy(t.(next := 0), n, left - 1, lim.buffer)
  {
    hide Loaded, Storing;
    FullPiece(Content(s.files, "f"), s.slots[0].offset, left, lim.buffer);
  }

  lemma WriteBusy(s: State, n: nat, left: nat, lim: Limits)
    requires Busy(s.(next := 0), n, left, lim.buffer) && s.next == n && !IoWaits(s, lim)
    ensures var t := DoTakeCommand(s, lim);
            Busy(t, n, left, lim.buffer) && t.server == s.server && t.io == (if s.io == [] then [] else s.io[1..])
  {
    hide Written, Storing;
    if s.io != [] {
      assert s.io[0] in s.io;
    }
  }

  lemma ReplyBusy(s: State, n: nat, left: nat, size: nat)
    requires Busy(s, n, left, size) && s.server != []
    ensures var t := DoReply(s); Busy(t, n, left, size) && t.server == s.server[1..] && t.io == s.io
  {
    assert s.server[0] in s.server;
  }

  // A pass of the IO thread: one more piece, and one command less if there was one
  lemma Pass(l: Loop, n: nat, left: nat, lim: Limits) returns (ms: seq<Move>)
    requires 0 < lim.buffer && Busy(l.s, n, left, lim.buffer) && 0 < left && |l.s.server| < lim.server
    ensures var m := Go(l, ms, lim);
            && m.ready == l.ready && m.polled == l.polled && Busy(m.s, n, left - 1, lim.buffer)
            && |m.s.server| == |l.s.server| + 1 && |m.s.io| == (if l.s.io == [] then 0 else |l.s.io| - 1)
  {
    hide Go, Storing, PiecesOnly, DoVisitSlot, DoTakeCommand;
    ReadBusy(l.s, n, left, lim);
    var a := Next(l, Visit, lim);
    GoOne(l, Visit, lim);
    OthersUnused(a.s, n, left - 1, lim.buffer);
    var over := PassOver(a, n, lim);
    GoAppend(l, [Visit], over, lim);
    var b := Go(a, over, lim);
    assert b.s.(next := 0) == a.s.(next := 0);
    WriteBusy(b.s, n, left - 1, lim);
    GoOn(l, [Visit] + over, Execute, lim);
    ms := [Visit] + over + [Execute];
  }

  lemma OthersUnused(s: State, n: nat, left: nat, size: nat)
    requires Busy(s.(next := 0), n, left, size)
    ensures |s.slots| == n && forall k | 1 <= k < n :: s.slots[k].Unused?
  {
  }

  // The replies fill the queue of the server thread while it is idle
  lemma {:induction false} FillReplies(l: Loop, n: nat, left: nat, lim: Limits) returns (ms: seq<Move>)
    requires 0 < lim.buffer && Busy(l.s, n, left, lim.buffer) && l.s.io == [] && |l.s.server| <= lim.server
    requires left >= lim.server - |l.s.server|
    ensures var m := Go(l, ms, lim);
            && m.ready == l.ready && m.polled == l.polled && m.s.io == [] && |m.s.server| == lim.server
            && Busy(m.s, n, left - (lim.server - |l.s.server|), lim.buffer)
    decreases lim.server - |l.s.server|
  {
    hide Go, Busy;
    GoNothing(l, lim);
    if |l.s.server| == lim.server {
      return [];
    }
    var a := Pass(l, n, left, lim);
    var rest := FillReplies(Go(l, a, lim), n, left - 1, lim);
    GoAppend(l, a, rest, lim);
    ms := a + rest;
  }

  // The server thread waits, and there are as many replies as fit before the next
  ghost predicate NearlyStuck(l: Loop, n: nat, left: nat, lim: Limits) {
    Busy(l.s, n, left, lim.buffer) && ServerWaits(l.s, lim) && |l.s.server| == lim.server
  }

  lemma OneMore(l: Loop, n: nat, left: nat, lim: Limits)
    requires NearlyStuck(l, n, left, lim)
    ensures BothWait(Next(l, Visit, lim), lim)
  {
    hide Loaded, Content, Storing, PiecesOnly;
  }

  // A round in which these clients are served, as far as there is room
  lemma SendOne(l: Loop, n: nat, left: nat, lim: Limits) returns (ms: seq<Move>)
    requires 0 < lim.buffer && Busy(l.s, n, left, lim.buffer) && l.ready == [] && !l.polled && !ServerWaits(l.s, lim)
    ensures var m := Go(l, ms, lim);
            && m.ready == [] && m.polled && Busy(m.s, n, left, lim.buffer)
            && |m.s.io| == |l.s.io| + 1 && m.s.server == l.s.server
  {
    hide Go, Busy, Served, Full;
    var turns := [Full(1, lim)];
    GoOne(l, Poll(turns), lim);
    BusySize(l.s, n, left, lim.buffer);
    StoreBusy(l.s, 1, n, left, lim);
    GoOn(l, [Poll(turns)], Serve, lim);
    ms := [Poll(turns)] + [Serve];
  }

  lemma BusySize(s: State, n: nat, left: nat, size: nat)
    requires Busy(s, n, left, size)
    ensures n >= 2
  {
  }

  lemma SendTwo(l: Loop, n: nat, left: nat, lim: Limits) returns (ms: seq<Move>)
    requires 0 < lim.buffer && Busy(l.s, n, left, lim.buffer) && l.ready == [] && !l.polled && |l.s.io| < lim.io && n > 2
    ensures var m := Go(l, ms, lim);
            && m.ready == [] && m.polled && Busy(m.s, n, left, lim.buffer)
            && |m.s.io| == |l.s.io| + 2 && m.s.server == l.s.server
  {
    hide Go, Busy, Served;
    var turns := [Full(1, lim), Full(2, lim)];
    GoOne(l, Poll(turns), lim);
    StoreBusy(l.s, 1, n, left, lim);
    GoOn(l, [Poll(turns)], Serve, lim);
    var t := Served(l.s, Full(1, lim), lim.buffer);
    assert turns[1..] == [Full(2, lim)];
    StoreBusy(t, 2, n, left, lim);
    GoOn(l, [Poll(turns)] + [Serve], Serve, lim);
    ms := [Poll(turns)] + [Serve] + [Serve];
  }

  // The end of a round with a full queue of replies: one is taken, and while another
  // piece is read one command is
  lemma NextRound(l: Loop, n: nat, left: nat, lim: Limits) returns (ms: seq<Move>)
    requires 0 < lim.buffer && Busy(l.s, n, left, lim.buffer) && 0 < left && l.s.io != []
    requires l.ready == [] && l.polled && !ServerWaits(l.s, lim) && |l.s.server| == lim.server > 0
    ensures var m := Go(l, ms, lim);
            && m.ready == [] && !m.polled && Busy(m.s, n, left - 1, lim.buffer)
            && |m.s.io| == |l.s.io| - 1 && |m.s.server| == lim.server
  {
    hide Go, Busy, DoReply;
    ReplyBusy(l.s, n, left, lim.buffer);
    GoOne(l, EndRound, lim);
    var a := Go(l, [EndRound], lim);
    var rest := Pass(a, n, left, lim);
    GoAppend(l, [EndRound], rest, lim);
    ms := [EndRound] + rest;
  }

  // Round by round the commands fill the queue of the IO thread
  lemma {:induction false} FillCommands(l: Loop, n: nat, left: nat, lim: Limits) returns (ms: seq<Move>)
    requires 0 < lim.buffer && Busy(l.s, n, left, lim.buffer) && left >= lim.io - |l.s.io|
    requires l.ready == [] && !l.polled && |l.s.io| <= lim.io && |l.s.server| == lim.server
    requires n > 2 || lim.io == 0 || lim.server == 0
    ensures BothWait(Go(l, ms, lim), lim)
    decreases lim.io - |l.s.io|
  {
    hide Go, Busy, DoVisitSlot, DoReply, BothWait;
    if |l.s.io| == lim.io {
      ms := SendOne(l, n, left, lim);
      OneMore(Go(l, ms, lim), n, left, lim);
      GoOn(l, ms, Visit, lim);
      return ms + [Visit];
    }
    var next;
    if lim.server == 0 {
      ms := SendOne(l, n, left, lim);
      NoReply(l.s);
      NoReply(Go(l, ms, lim).s);
      GoOn(l, ms, EndRound, lim);
      next := left;
      ms := ms + [EndRound];
    } else {
      ms := SendTwo(l, n, left, lim);
      var m := Go(l, ms, lim);
      if ServerWaits(m.s, lim) {
        OneMore(m, n, left, lim);
        GoOn(l, ms, Visit, lim);
        return ms + [Visit];
      }
      var b := NextRound(m, n, left, lim);
      GoAppend(l, ms, b, lim);
      next := left - 1;
      ms := ms + b;
    }
    var rest := FillCommands(Go(l, ms, lim), n, next, lim);
    GoAppend(l, ms, rest, lim);
    ms := ms + rest;
  }

  // The first round, in which the transfers begin
  function Opening(n: nat): seq<Turn> {
    [Control(0, Retrieve("f"), true), Control(1, Store("g", false), false)]
    + (if n > 2 then [Control(2, Store("h", false), false)] else [])
  }

  // The file is asked for, and the stores are still to begin
  ghost predicate Opened(s: State, n: nat, f: seq<byte>) {
    && |s.clients| == |s.slots| == n >= 2 && s.next == 0 && s.server == [] && s.files == map["f" := f]
    && s.clients[0].task == Retrieve("f") && (forall j | 1 <= j < n :: s.clients[j] == IDLE)
    && s.io == [ReadFile(0, "f")] && (forall j | 0 <= j < n :: s.slots[j].Unused?)
  }

  lemma OpenRead(n: nat, f: seq<byte>, size: nat)
    requires n >= 2
    ensures Opened(Served(Start(n, map["f" := f]), Opening(n)[0], size), n, f)
  {
  }

  // The file is being read
  ghost predicate Reading(s: State, n: nat, f: seq<byte>) {
    && |s.clients| == |s.slots| == n >= 2 && s.next == 0 && s.server == [] && s.files == map["f" := f]
    && s.clients[0].task == Retrieve("f") && s.io == [] && s.slots[0] == Used(0, "f", 0)
    && (forall j | 1 <= j < n :: s.slots[j].Unused?)
  }

  lemma OpenTaken(s: State, n: nat, f: seq<byte>, lim: Limits)
    requires Opened(s.(next := 0), n, f) && s.next == n
    ensures var t := DoTakeCommand(s, lim); Reading(t, n, f) && forall j | 1 <= j < n :: t.clients[j] == IDLE
  {
  }

  lemma OpenStores(s: State, n: nat, f: seq<byte>, lim: Limits)
    requires Reading(s, n, f) && (forall j | 1 <= j < n :: s.clients[j] == IDLE)
    requires |f| == (lim.server + lim.io) * lim.buffer
    ensures var t := Served(s, Opening(n)[1], lim.buffer);
            && t.io == s.io && t.server == s.server
            && (n == 2 ==> Busy(t, n, lim.server + lim.io, lim.buffer))
            && (n > 2 ==> var u := Served(t, Opening(n)[2], lim.buffer);
                          Busy(u, n, lim.server + lim.io, lim.buffer) && u.io == s.io && u.server == s.server)
  {
    assert Content(s.files, "f") == f;
  }

  lemma OpenRound(n: nat, f: seq<byte>, lim: Limits) returns (ms: seq<Move>)
    requires n >= 2
    ensures var m := Go(Idle(n, map["f" := f]), ms, lim);
            && m.ready == Opening(n)[1..] && m.polled
            && Reading(m.s, n, f) && forall j | 1 <= j < n :: m.s.clients[j] == IDLE
  {
    hide Go, Served, DoTakeCommand;
    var l := Idle(n, map["f" := f]);
    var turns := Opening(n);
    GoOne(l, Poll(turns), lim);
    OpenRead(n, f, lim.buffer);
    GoOn(l, [Poll(turns)], Serve, lim);
    var a := [Poll(turns)] + [Serve];
    var m := Go(l, a, lim);
    var pass := PassOver(m, n, lim);
    GoAppend(l, a, pass, lim);
    var t := Go(m, pass, lim);
    assert t.s.(next := 0) == m.s;
    OpenTaken(t.s, n, f, lim);
    GoOn(l, a + pass, Execute, lim);
    ms := a + pass + [Execute];
  }

  lemma OpenAll(n: nat, f: seq<byte>, lim: Limits) returns (ms: seq<Move>)
    requires n >= 2 && |f| == (lim.server + lim.io) * lim.buffer
    ensures var m := Go(Idle(n, map["f" := f]), ms, lim);
            && m.ready == [] && !m.polled && m.s.io == [] && m.s.server == []
            && Busy(m.s, n, lim.server + lim.io, lim.buffer)
  {
    hide Go, Served, Busy, Idle, DoReply;
    var l := Idle(n, map["f" := f]);
    ms := OpenRound(n, f, lim);
    OpenStores(Go(l, ms, lim).s, n, f, lim);
    GoOn(l, ms, Serve, lim);
    ms := ms + [Serve];
    if n > 2 {
      assert Opening(n)[1..][1..] == [Opening(n)[2]];
      GoOn(l, ms, Serve, lim);
      ms := ms + [Serve];
    }
    var m := Go(l, ms, lim);
    NoReply(m.s);
    GoOn(l, ms, EndRound, lim);
    ms := ms + [EndRound];
  }

  // So many clients can bring the two threads to wait for each other
  lemma ManyCanWait(n: nat, lim: Limits) returns (f: seq<byte>, ms: seq<Move>)
    requires 0 < lim.buffer && n >= 2 && (n > 2 || lim.io == 0 || lim.server == 0)
    ensures BothWait(Go(Idle(n, map["f" := f]), ms, lim), lim)
  {
    hide Go, Idle, Busy, BothWait;
    f := seq<byte>((lim.server + lim.io) * lim.buffer, _ => 0);
    var l := Idle(n, map["f" := f]);
    var a := OpenAll(n, f, lim);
    var b := FillReplies(Go(l, a, lim), n, lim.server + lim.io, lim);
    GoAppend(l, a, b, lim);
    var c := FillCommands(Go(l, a + b, lim), n, lim.io, lim);
    GoAppend(l, a + b, c, lim);
    ms := a + b + c;
  }

  // The two threads can come to wait for each other if and only if there are three
  // clients or more, or two and a queue that holds nothing
  lemma WaitExactly(n: nat, lim: Limits)
    requires 0 < lim.buffer
    ensures (exists files, ms :: BothWait(Go(Idle(n, files), ms, lim), lim)) <==>
            n > 2 || (n == 2 && (lim.io == 0 || lim.server == 0))
  {
    hide Go, Idle, BothWait;
    if Few(n, lim) {
      forall files, ms
        ensures !BothWait(Go(Idle(n, files), ms, lim), lim)
      {
        FewNeverWait(n, files, ms, lim);
      }
    } else {
      var f, ms := ManyCanWait(n, lim);
    }
  }

  // And then no step of either thread is left
  lemma WaitStuck(n: nat, lim: Limits) returns (f: seq<byte>, ms: seq<Move>)
    requires 0 < lim.buffer && n >= 2 && (n > 2 || lim.io == 0 || lim.server == 0)
    ensures var l := Go(Idle(n, map["f" := f]), ms, lim);
            Stuck(l, lim) && Doomed(l, lim)
  {
    hide Go, Idle, Stuck;
    f, ms := ManyCanWait(n, lim);
    var l := Go(Idle(n, map["f" := f]), ms, lim);
    StuckExactly(l, lim);
  }
}
