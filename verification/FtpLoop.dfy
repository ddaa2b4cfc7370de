/** The loops of the two threads of source/ftp_daemon.c: the server thread serves
    the handles that a poll found ready, in their order, and then takes one reply
    at most; the IO thread looks at every read slot and then takes one command at
    most. A run of the loops is a run of the transfer protocol. */
module FtpLoop {
  import opened Bits
  import opened FtpTransfer
  import opened Options
  import opened Queue

  // ---------------------------------------------------------------- the server loop

  // What comes of one ready handle. connected says that a retrieve starts at once,
  // because its data connection is there; chunk is what the socket has, [] its end.
  datatype Turn =
    | Control(client: nat, task: Task, connected: bool)   // Ftpd_process_control_connection
    | Data(client: nat, chunk: seq<byte>)                 // Ftpd_process_data_connection
    | Connect(client: nat)                                // Ftp_accept_data_connection, Ftpd_process_bof

  // The place of its handle among those polled
  function Place(t: Turn): nat {
    match t
    case Control(i, _, _) => 3 * i + 1
    case Data(i, _) => 3 * i + 2
    case Connect(i) => 3 * i + 3
  }

  predicate InOrder(turns: seq<Turn>) {
    forall j, k | 0 <= j < k < |turns| :: Place(turns[j]) < Place(turns[k])
  }

  // Ftp_receive_data takes what there is room for
  function Fit(c: Client, chunk: seq<byte>, size: nat): seq<byte> {
    if |c.buffer| <= size && |chunk| > size - |c.buffer| then chunk[..size - |c.buffer|] else chunk
  }

  predicate MayCommand(s: State, i: nat, task: Task) {
    i < |s.clients| && s.clients[i].task.Nothing? && !task.Nothing? && MayBegin(s, task)
  }

  // One handle is served
  function Served(s: State, t: Turn, size: nat): State {
    match t
    case Control(i, task, connected) =>
      if !MayCommand(s, i, task) then s else if connected then Asked(Begun(s, i, task), i) else Begun(s, i, task)
    case Data(i, chunk) => if i < |s.clients| then Received(s, i, Fit(s.clients[i], chunk, size), size) else s
    case Connect(i) => Asked(s, i)
  }

  // The handles of the present poll that are still to be served; polled once that
  // has been done and until a reply has been looked for
  datatype Loop = Loop(s: State, ready: seq<Turn>, polled: bool)

  datatype Move =
    | Poll(turns: seq<Turn>)
    | Serve
    | EndRound     // Ftpd_process_res_read or _res_write, if there is a reply
    | Visit        // a turn of Ftpd_io_process_read
    | Execute      // Ftpd_io_process_cmd_read or _write, if there is a command

  function Next(l: Loop, m: Move, lim: Limits): Loop {
    match m
    case Poll(turns) =>
      if ServerWaits(l.s, lim) || l.polled || !InOrder(turns) then l else l.(ready := turns, polled := true)
    case Serve =>
      if ServerWaits(l.s, lim) || l.ready == [] then l
      else Loop(Served(l.s, l.ready[0], lim.buffer), l.ready[1..], l.polled)
    case EndRound =>
      if ServerWaits(l.s, lim) || !l.polled || l.ready != [] then l else Loop(DoReply(l.s), [], false)
    case Visit => l.(s := DoVisitSlot(l.s, lim))
    case Execute => l.(s := DoTakeCommand(l.s, lim))
  }

  function Go(l: Loop, ms: seq<Move>, lim: Limits): Loop
    decreases |ms|
  {
    if ms == [] then l else Go(Next(l, ms[0], lim), ms[1..], lim)
  }

  function Idle(clients: nat, files: map<string, seq<byte>>): Loop {
    Loop(Start(clients, files), [], false)
  }

  lemma {:induction false} GoAppend(l: Loop, a: seq<Move>, b: seq<Move>, lim: Limits)
    ensures Go(l, a + b, lim) == Go(Go(l, a, lim), b, lim)
    decreases |a|
  {
    hide Next;
    if a == [] {
      assert a + b == b;
    } else {
      assert (a + b)[0] == a[0] && (a + b)[1..] == a[1..] + b;
      GoAppend(Next(l, a[0], lim), a[1..], b, lim);
    }
  }

  lemma GoNothing(l: Loop, lim: Limits)
    ensures Go(l, [], lim) == l
  {
  }

  lemma GoOne(l: Loop, m: Move, lim: Limits)
    ensures Go(l, [m], lim) == Next(l, m, lim)
  {
    hide Next;
    GoNothing(Next(l, m, lim), lim);
    assert [m][1..] == [];
  }

  lemma GoOn(l: Loop, ms: seq<Move>, m: Move, lim: Limits)
    ensures Go(l, ms + [m], lim) == Next(Go(l, ms, lim), m, lim)
  {
    hide Next, Go;
    GoAppend(l, ms, [m], lim);
    GoOne(Go(l, ms, lim), m, lim);
  }

  // -------------------------------------------------- a run of the transfer protocol

  function EventsOf(l: Loop, m: Move, lim: Limits): seq<Event> {
    match m
    case Poll(_) => []
    case Serve =>
      if ServerWaits(l.s, lim) || l.ready == [] then [] else
      (match l.ready[0]
       case Control(i, task, connected) =>
         if !MayCommand(l.s, i, task) then [] else [Begin(i, task)] + (if connected then [StartReading(i)] else [])
       case Data(i, chunk) => if i < |l.s.clients| then [Receive(i, Fit(l.s.clients[i], chunk, lim.buffer))] else []
       case Connect(i) => [StartReading(i)])
    case EndRound => if ServerWaits(l.s, lim) || !l.polled || l.ready != [] then [] else [TakeReply]
    case Visit => [VisitSlot]
    case Execute => [TakeCommand]
  }

  lemma RunTwo(s: State, d: Event, e: Event, lim: Limits)
    ensures Run(s, [], lim) == s && Run(s, [d], lim) == Step(s, d, lim)
    ensures Run(s, [d] + [e], lim) == Step(Step(s, d, lim), e, lim)
  {
    hide Step;
    RunOn(s, [], d, lim);
    assert [] + [d] == [d];
    RunOn(s, [d], e, lim);
  }

  lemma NextRuns(l: Loop, m: Move, lim: Limits)
    ensures Run(l.s, EventsOf(l, m, lim), lim) == Next(l, m, lim).s
  {
    hide Run, Begun, Asked, Received, DoReply, DoVisitSlot, DoTakeCommand, MayCommand, Fit;
    RunTwo(l.s, VisitSlot, VisitSlot, lim);
    RunTwo(l.s, TakeCommand, VisitSlot, lim);
    RunTwo(l.s, TakeReply, VisitSlot, lim);
    if m.Serve? && !ServerWaits(l.s, lim) && l.ready != [] {
      TurnRuns(l.s, l.ready[0], lim);
    }
  }

  lemma TurnRuns(s: State, t: Turn, lim: Limits)
    requires !ServerWaits(s, lim)
    ensures Run(s, EventsOf(Loop(s, [t], true), Serve, lim), lim) == Served(s, t, lim.buffer)
  {
    hide Run, Asked, Received, MayBegin, Fit;
    match t {
      case Control(i, task, connected) =>
        RunTwo(s, Begin(i, task), StartReading(i), lim);
        assert [Begin(i, task)] + [] == [Begin(i, task)];
        assert !ServerWaits(Begun(s, i, task), lim);
      case Data(i, chunk) =>
        if i < |s.clients| {
          RunTwo(s, Receive(i, Fit(s.clients[i], chunk, lim.buffer)), VisitSlot, lim);
        } else {
          RunTwo(s, VisitSlot, VisitSlot, lim);
        }
      case Connect(i) => RunTwo(s, StartReading(i), VisitSlot, lim);
    }
  }

  // What holds of every run of the protocol holds of every run of the loops
  lemma {:induction false} LoopRuns(l: Loop, ms: seq<Move>, lim: Limits) returns (es: seq<Event>)
    ensures Go(l, ms, lim).s == Run(l.s, es, lim)
    decreases |ms|
  {
    hide Next, Step, EventsOf;
    if ms == [] {
      return [];
    }
    NextRuns(l, ms[0], lim);
    var rest := LoopRuns(Next(l, ms[0], lim), ms[1..], lim);
    es := EventsOf(l, ms[0], lim) + rest;
    RunAppend(l.s, EventsOf(l, ms[0], lim), rest, lim);
  }

  // ---------------------------------------------------------- what holds throughout

  ghost predicate Good(l: Loop, lim: Limits) {
    && Inv(l.s, lim.buffer) && Room(l.s, lim) && AllDelivered(l.s.log)
    && InOrder(l.ready) && (!l.polled ==> l.ready == [])
  }

  lemma NextGood(l: Loop, m: Move, lim: Limits)
    requires Good(l, lim)
    ensures Good(Next(l, m, lim), lim)
  {
    hide Inv, Room, AllDelivered, Run, DoReply, DoVisitSlot, DoTakeCommand, Served, EventsOf;
    NextRuns(l, m, lim);
    RunKeeps(l.s, EventsOf(l, m, lim), lim);
    RunRoom(l.s, EventsOf(l, m, lim), lim);
  }

  lemma {:induction false} GoGood(l: Loop, ms: seq<Move>, lim: Limits)
    requires Good(l, lim)
    ensures Good(Go(l, ms, lim), lim)
    decreases |ms|
  {
    hide Good, Next;
    if ms != [] {
      NextGood(l, ms[0], lim);
      GoGood(Next(l, ms[0], lim), ms[1..], lim);
    }
  }

  lemma IdleGood(clients: nat, files: map<string, seq<byte>>, lim: Limits)
    requires 0 < lim.buffer
    ensures Good(Idle(clients, files), lim)
  {
    hide Inv;
    StartOk(clients, files, lim.buffer);
  }

  // However the threads interleave, what they complete is delivered, and each waits
  // for one message at most
  lemma LoopDelivers(clients: nat, files: map<string, seq<byte>>, ms: seq<Move>, lim: Limits)
    requires 0 < lim.buffer
    ensures var l := Go(Idle(clients, files), ms, lim);
            && AllDelivered(l.s.log) && Room(l.s, lim)
            && InOrder(l.ready) && (!l.polled ==> l.ready == [])
  {
    hide Go, Idle, Inv, AllDelivered, Room;
    IdleGood(clients, files, lim);
    GoGood(Idle(clients, files), ms, lim);
  }

  // ------------------------------------------------------------- a store of nothing

  // A store of nothing over a file that is not empty is completed, and leaves it
  lemma EmptyStoreKept(name: string, was: seq<byte>, lim: Limits) returns (ms: seq<Move>)
    requires 0 < lim.buffer && was != []
    ensures var log := Go(Idle(1, map[name := was]), ms, lim).s.log;
            && |log| == 1 && log[0].ok && log[0].transfer.task == Store(name, false)
            && log[0].transfer.received == [] && log[0].after == log[0].transfer.before == was
  {
    hide Go, Next;
    var l := Idle(1, map[name := was]);
    var a := EmptyStoreSent(name, was, lim);
    var m := Go(l, a, lim);
    var b := EmptyStoreAnswered(m, name, was, lim);
    GoAppend(l, a, b, lim);
    ms := a + b;
  }

  lemma EmptyStoreSent(name: string, was: seq<byte>, lim: Limits) returns (ms: seq<Move>)
    requires 0 < lim.buffer
    ensures var m := Go(Idle(1, map[name := was]), ms, lim);
            && m.ready == [] && m.polled
            && m.s.clients == [Client(Store(name, false), false, true, true, [], was, [], [], None)]
            && m.s.io == [WriteFile(0, name, false, true, [])] && m.s.server == [] && m.s.log == []
            && m.s.slots == [Unused] && m.s.next == 0 && m.s.files == map[name := was]
  {
    hide Go;
    var l := Idle(1, map[name := was]);
    assert l.s.clients == [IDLE] && l.s.slots == [Unused];
    var begin, end := Control(0, Store(name, false), false), Data(0, []);
    GoOne(l, Poll([begin, end]), lim);
    GoOn(l, [Poll([begin, end])], Serve, lim);
    assert [begin, end][1..] == [end];
    var c := Go(l, [Poll([begin, end])] + [Serve], lim).s.clients[0];
    assert c == Client(Store(name, false), false, false, false, [], was, [], [], None);
    assert c.buffer + [] == [] && c.received + [] == [];
    GoOn(l, [Poll([begin, end])] + [Serve], Serve, lim);
    ms := [Poll([begin, end])] + [Serve] + [Serve];
  }

  lemma EmptyStoreAnswered(l: Loop, name: string, was: seq<byte>, lim: Limits) returns (ms: seq<Move>)
    requires l.ready == [] && l.polled
    requires |l.s.clients| == 1 && l.s.clients[0].task == Store(name, false) && l.s.slots == [Unused] && l.s.next == 0
    requires l.s.io == [WriteFile(0, name, false, true, [])] && l.s.server == [] && l.s.log == []
    requires l.s.files == map[name := was]
    ensures Go(l, ms, lim).s.log == [Record(0, true, l.s.clients[0], was)]
  {
    hide Go;
    GoOne(l, Visit, lim);
    GoOn(l, [Visit], Execute, lim);
    GoOn(l, [Visit] + [Execute], EndRound, lim);
    ms := [Visit] + [Execute] + [EndRound];
  }

  // ----------------------------------------------------- what a round is yet to send

  // What a chunk makes the server thread send on
  function Flushed(c: Client, i: nat, chunk: seq<byte>, size: nat): seq<Command> {
    if !c.task.Store? || c.eofSent || |chunk| > size - |c.buffer| || (chunk != [] && |c.buffer + chunk| < size) then []
    else [WriteFile(i, c.task.name, c.isAppend, chunk == [], c.buffer + chunk)]
  }

  function Sent(s: State, t: Turn, size: nat): seq<Command> {
    match t
    case Control(i, task, connected) =>
      if connected && task.Retrieve? && MayCommand(s, i, task) then [ReadFile(i, task.name)] else []
    case Data(i, chunk) =>
      if i < |s.clients| then Flushed(s.clients[i], i, Fit(s.clients[i], chunk, size), size) else []
    case Connect(i) =>
      if i < |s.clients| && s.clients[i].task.Retrieve? && !s.clients[i].started
      then [ReadFile(i, s.clients[i].task.name)] else []
  }

  // The commands of the handles still to be served
  function Coming(s: State, ready: seq<Turn>, size: nat): seq<Command>
    decreases |ready|
  {
    if ready == [] then [] else Sent(s, ready[0], size) + Coming(Served(s, ready[0], size), ready[1..], size)
  }

  lemma ServedSends(s: State, t: Turn, size: nat)
    ensures var u := Served(s, t, size);
            && u.io == s.io + Sent(s, t, size) && u.server == s.server && u.slots == s.slots && u.next == s.next
            && u.files == s.files && u.log == s.log && |u.clients| == |s.clients|
  {
    hide MayBegin, Fit, Content;
  }

  // A file that a client is storing
  ghost predicate Stored(s: State, name: string) {
    exists i | 0 <= i < |s.clients| :: s.clients[i].task.Store? && s.clients[i].task.name == name
  }

  // States that differ in what the IO thread has done meanwhile
  ghost predicate Alike(s: State, t: State) {
    && |s.clients| == |t.clients|
    && (forall i | 0 <= i < |s.clients| :: t.clients[i] == s.clients[i].(slot := t.clients[i].slot))
    && (forall name: string :: Stored(s, name) || SameFile(s, t, name))
  }

  ghost predicate SameFile(s: State, t: State, name: string) {
    (name in s.files <==> name in t.files) && Content(s.files, name) == Content(t.files, name)
  }

  lemma AlikeCommand(s: State, t: State, i: nat, task: Task)
    requires Alike(s, t)
    ensures MayCommand(s, i, task) <==> MayCommand(t, i, task)
    ensures MayCommand(s, i, task) ==> SameFile(s, t, task.name)
  {
    if !task.Nothing? {
      if Stored(s, task.name) {
        var j :| 0 <= j < |s.clients| && s.clients[j].task.Store? && s.clients[j].task.name == task.name;
        assert t.clients[j].task == s.clients[j].task && !Apart(s.clients[j].task, task);
      } else {
        assert SameFile(s, t, task.name);
      }
      assert forall j | 0 <= j < |s.clients| :: t.clients[j].task == s.clients[j].task;
    }
  }

  lemma BegunAlike(s: State, t: State, i: nat, task: Task)
    requires Alike(s, t) && MayCommand(s, i, task)
    ensures Alike(Begun(s, i, task), Begun(t, i, task))
  {
    hide MayBegin, SameFile;
    AlikeCommand(s, t, i, task);
    StoredStays(s, Begun(s, i, task));
    SameContent(s, t, task.name);
    SameFiles(s, t, Begun(s, i, task), Begun(t, i, task));
  }

  lemma SameContent(s: State, t: State, name: string)
    ensures SameFile(s, t, name) ==> Content(s.files, name) == Content(t.files, name)
  {
  }

  lemma StoredStays(s: State, u: State)
    requires |u.clients| == |s.clients|
    requires forall i | 0 <= i < |s.clients| :: s.clients[i].task.Store? ==> u.clients[i].task == s.clients[i].task
    ensures forall name: string :: Stored(s, name) ==> Stored(u, name)
  {
  }

  lemma SameFiles(s: State, t: State, u: State, v: State)
    requires forall name: string :: Stored(s, name) || SameFile(s, t, name)
    requires forall name: string :: Stored(s, name) ==> Stored(u, name)
    requires u.files == s.files && v.files == t.files
    ensures forall name: string :: Stored(u, name) || SameFile(u, v, name)
  {
    hide Stored;
    forall name: string
      ensures Stored(u, name) || SameFile(u, v, name)
    {
      assert Stored(s, name) || SameFile(s, t, name);
    }
  }

  // Serving a handle sends the same whatever the IO thread has done meanwhile
  lemma ServedAlike(s: State, t: State, turn: Turn, size: nat)
    requires Alike(s, t)
    ensures Sent(s, turn, size) == Sent(t, turn, size)
    ensures Alike(Served(s, turn, size), Served(t, turn, size))
  {
    match turn {
      case Control(i, task, connected) =>
        AlikeCommand(s, t, i, task);
        if MayCommand(s, i, task) {
          BegunAlike(s, t, i, task);
          if connected {
            AskedAlike(Begun(s, i, task), Begun(t, i, task), i);
          }
        }
      case Data(i, chunk) =>
        if i < |s.clients| {
          assert t.clients[i] == s.clients[i].(slot := t.clients[i].slot);
          ReceivedAlike(s, t, i, Fit(s.clients[i], chunk, size), size);
        }
      case Connect(i) =>
        AskedAlike(s, t, i);
        if i < |s.clients| {
          assert t.clients[i] == s.clients[i].(slot := t.clients[i].slot);
        }
    }
  }

  lemma AskedAlike(s: State, t: State, i: nat)
    requires Alike(s, t)
    ensures Alike(Asked(s, i), Asked(t, i))
  {
    hide Stored, SameFile;
    StoredStays(s, Asked(s, i));
    SameFiles(s, t, Asked(s, i), Asked(t, i));
  }

  lemma ReceivedAlike(s: State, t: State, i: nat, chunk: seq<byte>, size: nat)
    requires Alike(s, t)
    ensures Alike(Received(s, i, chunk, size), Received(t, i, chunk, size))
  {
    hide Stored, SameFile;
    StoredStays(s, Received(s, i, chunk, size));
    SameFiles(s, t, Received(s, i, chunk, size), Received(t, i, chunk, size));
  }

  lemma {:induction false} ComingAlike(s: State, t: State, ready: seq<Turn>, size: nat)
    requires Alike(s, t)
    ensures Coming(s, ready, size) == Coming(t, ready, size)
    decreases |ready|
  {
    hide Alike, Sent, Served;
    if ready != [] {
      ServedAlike(s, t, ready[0], size);
      ComingAlike(Served(s, ready[0], size), Served(t, ready[0], size), ready[1..], size);
    }
  }

  lemma VisitAlike(s: State, lim: Limits)
    ensures Alike(s, DoVisitSlot(s, lim))
  {
    hide Loaded, Stored, Content;
  }

  lemma TakeAlike(s: State, lim: Limits)
    requires Inv(s, lim.buffer)
    ensures Alike(s, DoTakeCommand(s, lim))
  {
    hide Inv, FreeSlot, Stored, Written;
    if s.io != [] && s.io[0].WriteFile? {
      WriterStores(s, lim.buffer);
      forall name: string
        ensures Stored(s, name) || SameFile(s, DoTakeCommand(s, lim), name)
      {
        if name != s.io[0].name {
          assert SameFile(s, DoTakeCommand(s, lim), name);
        }
      }
    }
  }

  lemma WriterStores(s: State, size: nat)
    requires Inv(s, size) && s.io != [] && s.io[0].WriteFile?
    ensures Stored(s, s.io[0].name)
  {
    hide CommandsOf, RepliesOf, SlotOf, FileOf, ClientOk;
    var i := s.io[0].client;
    assert s.io[0] in s.io;
    assert One(s, i, size);
    CommandsFirst(s.io, i);
    var c := s.clients[i];
    WriteAsked(c, CommandsOf(s.io, i), RepliesOf(s.server, i), SlotOf(s.slots, c), FileOf(s.files, c), i, size);
  }
}
