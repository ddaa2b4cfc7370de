/** When the two threads of source/ftp_daemon.c can no longer get on, and that
    otherwise every transfer can be completed. */
module FtpProgress {
  import opened Bits
  import opened FtpLoop
  import opened FtpTransfer
  import opened Options

  // ---------------------------------------------------------------------- no step

  ghost predicate Stuck(l: Loop, lim: Limits) {
    forall m: Move :: Next(l, m, lim) == l
  }

  // The threads are stuck exactly when the server thread waits for room in the
  // queue of the IO thread and the IO thread in that of the server thread
  lemma StuckExactly(l: Loop, lim: Limits)
    ensures Stuck(l, lim) <==> ServerWaits(l.s, lim) && IoWaits(l.s, lim)
  {
    if !ServerWaits(l.s, lim) {
      ServerMoves(l, lim);
    } else if !IoWaits(l.s, lim) {
      IoMoves(l, lim);
    } else {
      forall m: Move
        ensures Next(l, m, lim) == l
      {
        NoMove(l, m, lim);
      }
    }
  }

  lemma NoMove(l: Loop, m: Move, lim: Limits)
    requires ServerWaits(l.s, lim) && IoWaits(l.s, lim)
    ensures Next(l, m, lim) == l
  {
    hide DoReadSlot, DoCommand, DoReply, Served;
  }

  lemma ServerMoves(l: Loop, lim: Limits)
    requires !ServerWaits(l.s, lim)
    ensures !Stuck(l, lim)
  {
    hide DoReply, Served;
    var m := if l.ready != [] then Serve else if l.polled then EndRound else Poll([]);
    assert |Next(l, m, lim).ready| != |l.ready| || Next(l, m, lim).polled != l.polled;
  }

  lemma IoMoves(l: Loop, lim: Limits)
    requires ServerWaits(l.s, lim) && !IoWaits(l.s, lim)
    ensures !Stuck(l, lim)
  {
    hide Loaded, Written, FreeSlot;
    if l.s.next < |l.s.slots| {
      assert Next(l, Visit, lim).s.next != l.s.next;
    } else {
      assert |Next(l, Execute, lim).s.io| != |l.s.io|;
    }
  }

  // ------------------------------------------------------------- no way out any more

  function Min(a: nat, b: nat): nat {
    if a <= b then a else b
  }

  // The pieces of a file from an offset on, the short one at the end included
  function Pieces(file: seq<byte>, offset: nat, size: nat): (n: nat)
    requires 0 < size
    ensures n > 0
    decreases |file| - offset
  {
    if |Loaded(file, offset, size)| < size then 1 else 1 + Pieces(file, offset + size, size)
  }

  // The replies of a slot that is visited so many times
  function SlotDue(slot: Slot, visits: nat, files: map<string, seq<byte>>, size: nat): nat
    requires 0 < size
  {
    if slot.Unused? then 0 else Min(visits, Pieces(Content(files, slot.name), slot.offset, size))
  }

  // A slot is visited before each of the commands still to be taken, but for those
  // already passed in front of the first
  function Visits(k: nat, next: nat, rounds: nat): nat
    requires 0 < rounds
  {
    if k >= next then rounds else rounds - 1
  }

  function SlotsDue(slots: seq<Slot>, k: nat, next: nat, rounds: nat, files: map<string, seq<byte>>, size: nat): nat
    requires 0 < size && 0 < rounds
    decreases |slots| - k
  {
    if k >= |slots| then 0
    else SlotDue(slots[k], Visits(k, next, rounds), files, size) + SlotsDue(slots, k + 1, next, rounds, files, size)
  }

  // The replies that come of a command when so many more are taken behind it
  function CommandDue(c: Command, more: nat, files: map<string, seq<byte>>, size: nat): nat
    requires 0 < size
  {
    match c
    case ReadFile(_, name) => Min(more, Pieces(Content(files, name), 0, size))
    case WriteFile(_, _, _, eof, _) => if eof then 1 else 0
  }

  function CommandsDue(commands: seq<Command>, rounds: nat, files: map<string, seq<byte>>, size: nat): nat
    requires 0 < size
    decreases |commands|
  {
    if rounds <= 1 || commands == [] then 0
    else CommandDue(commands[0], rounds - 1, files, size) + CommandsDue(commands[1..], rounds - 1, files, size)
  }

  // The commands on their way and those that the rest of the round sends
  function Commands(l: Loop, size: nat): seq<Command> {
    l.s.io + Coming(l.s, l.ready, size)
  }

  // How many of them must be taken before the server thread can look for a reply
  function Rounds(l: Loop, lim: Limits): nat {
    var n := |Commands(l, lim.buffer)|;
    if n > lim.io then n - lim.io else 0
  }

  // The replies there will be before the last of these is taken
  function Due(l: Loop, lim: Limits): nat
    requires 0 < lim.buffer && 0 < Rounds(l, lim)
  {
    |l.s.server|
    + SlotsDue(l.s.slots, 0, l.s.next, Rounds(l, lim), l.s.files, lim.buffer)
    + CommandsDue(Commands(l, lim.buffer), Rounds(l, lim), l.s.files, lim.buffer)
  }

  // They are too many for the queue of the server thread, which takes none until then.
  predicate Doomed(l: Loop, lim: Limits)
    requires 0 < lim.buffer
  {
    0 < Rounds(l, lim) && Due(l, lim) > lim.server
  }

  // ------------------------------------------------------------ what a move does to it

  lemma {:induction false} SlotsDueSet(slots: seq<Slot>, k: nat, next: nat, rounds: nat, files: map<string, seq<byte>>,
                                       size: nat, j: nat, x: Slot)
    requires 0 < size && 0 < rounds && j < |slots|
    ensures SlotsDue(slots[j := x], k, next, rounds, files, size)
            + (if k <= j then SlotDue(slots[j], Visits(j, next, rounds), files, size) else 0)
         == SlotsDue(slots, k, next, rounds, files, size)
            + (if k <= j then SlotDue(x, Visits(j, next, rounds), files, size) else 0)
    decreases |slots| - k
  {
    hide SlotDue, Visits;
    if k < |slots| {
      SlotsDueSet(slots, k + 1, next, rounds, files, size, j, x);
    }
  }

  lemma {:induction false} SlotsDuePassed(slots: seq<Slot>, k: nat, j: nat, rounds: nat,
                                          files: map<string, seq<byte>>, size: nat)
    requires 0 < size && 0 < rounds && j < |slots|
    ensures SlotsDue(slots, k, j + 1, rounds, files, size) + (if k <= j then SlotDue(slots[j], rounds, files, size) else 0)
         == SlotsDue(slots, k, j, rounds, files, size) + (if k <= j then SlotDue(slots[j], rounds - 1, files, size) else 0)
    decreases |slots| - k
  {
    hide SlotDue;
    if k < |slots| {
      SlotsDuePassed(slots, k + 1, j, rounds, files, size);
    }
  }

  // Behind the last slot a new pass begins
  lemma {:induction false} SlotsDueAgain(slots: seq<Slot>, k: nat, next: nat, rounds: nat,
                                         files: map<string, seq<byte>>, size: nat)
    requires 0 < size && 0 < rounds && next >= |slots|
    ensures rounds == 1 ==> SlotsDue(slots, k, next, rounds, files, size) == 0
    ensures rounds > 1 ==> SlotsDue(slots, k, next, rounds, files, size) == SlotsDue(slots, k, 0, rounds - 1, files, size)
    decreases |slots| - k
  {
    if k < |slots| {
      SlotsDueAgain(slots, k + 1, next, rounds, files, size);
    }
  }

  lemma {:induction false} SlotsDueEarlier(slots: seq<Slot>, k: nat, next: nat, rounds: nat,
                                           files: map<string, seq<byte>>, size: nat)
    requires 0 < size && 0 < rounds
    ensures SlotsDue(slots, k, next, rounds, files, size) <= SlotsDue(slots, k, 0, rounds, files, size)
    decreases |slots| - k
  {
    hide Pieces;
    if k < |slots| {
      SlotsDueEarlier(slots, k + 1, next, rounds, files, size);
    }
  }

  lemma {:induction false} SlotsDueFiles(slots: seq<Slot>, k: nat, next: nat, rounds: nat, files: map<string, seq<byte>>,
                                         now: map<string, seq<byte>>, size: nat)
    requires 0 < size && 0 < rounds
    requires forall j | 0 <= j < |slots| && slots[j].Used? :: Content(now, slots[j].name) == Content(files, slots[j].name)
    ensures SlotsDue(slots, k, next, rounds, now, size) == SlotsDue(slots, k, next, rounds, files, size)
    decreases |slots| - k
  {
    hide Content, Pieces;
    if k < |slots| {
      SlotsDueFiles(slots, k + 1, next, rounds, files, now, size);
    }
  }

  lemma {:induction false} CommandsDueFiles(commands: seq<Command>, rounds: nat, files: map<string, seq<byte>>,
                                            now: map<string, seq<byte>>, size: nat)
    requires 0 < size
    requires forall c | c in commands && c.ReadFile? :: Content(now, c.name) == Content(files, c.name)
    ensures CommandsDue(commands, rounds, now, size) == CommandsDue(commands, rounds, files, size)
    decreases |commands|
  {
    hide Content, Pieces;
    if rounds > 1 && commands != [] {
      assert commands[0] in commands;
      CommandsDueFiles(commands[1..], rounds - 1, files, now, size);
    }
  }

  // ---------------------------------------------------------- who reads what is stored

  lemma {:induction false} CommandOwned(io: seq<Command>, c: Command)
    requires c in io
    ensures c in CommandsOf(io, c.client)
  {
    if io[0] != c {
      assert c in io[1..];
      CommandOwned(io[1..], c);
    }
  }

  lemma AskedRetrieves(c: Client, commands: seq<Command>, replies: seq<Reply>, slot: Slot, file: seq<byte>,
                       i: nat, size: nat, r: Command)
    requires ClientOk(c, commands, replies, slot, file, i, size) && r in commands && r.ReadFile?
    ensures c.task == Retrieve(r.name)
  {
  }

  lemma NotStoredToo(s: State, i: nat, size: nat)
    requires Inv(s, size) && i < |s.clients| && s.clients[i].task.Retrieve?
    ensures !Stored(s, s.clients[i].task.name)
  {
    hide One;
    forall j | 0 <= j < |s.clients| && s.clients[j].task.Store?
      ensures s.clients[j].task.name != s.clients[i].task.name
    {
      assert if i < j then Apart(s.clients[i].task, s.clients[j].task) else Apart(s.clients[j].task, s.clients[i].task);
    }
  }

  lemma SlotNotStored(s: State, k: nat, size: nat)
    requires Inv(s, size) && k < |s.slots| && s.slots[k].Used?
    ensures !Stored(s, s.slots[k].name)
  {
    hide CommandsOf, RepliesOf, FileOf, ClientOk, Stored;
    var i := s.slots[k].client;
    var c := s.clients[i];
    assert One(s, i, size);
    UsedRetrieves(c, CommandsOf(s.io, i), RepliesOf(s.server, i), s.slots[k], FileOf(s.files, c), i, size);
    NotStoredToo(s, i, size);
  }

  lemma CommandNotStored(s: State, c: Command, size: nat)
    requires Inv(s, size) && c in s.io && c.ReadFile?
    ensures !Stored(s, c.name)
  {
    hide CommandsOf, RepliesOf, SlotOf, FileOf, ClientOk, Stored;
    var i := c.client;
    assert One(s, i, size);
    CommandOwned(s.io, c);
    AskedRetrieves(s.clients[i], CommandsOf(s.io, i), RepliesOf(s.server, i), SlotOf(s.slots, s.clients[i]),
                   FileOf(s.files, s.clients[i]), i, size, c);
    NotStoredToo(s, i, size);
  }

  // No client that retrieves a file has one that is being stored
  ghost predicate ReadsFree(s: State) {
    forall i | 0 <= i < |s.clients| && s.clients[i].task.Retrieve? :: !Stored(s, s.clients[i].task.name)
  }

  lemma ServedFree(s: State, t: Turn, size: nat)
    requires ReadsFree(s)
    ensures ReadsFree(Served(s, t, size))
    ensures forall name: string :: Stored(s, name) ==> Stored(Served(s, t, size), name)
    ensures forall c | c in Sent(s, t, size) && c.ReadFile? :: !Stored(s, c.name)
  {
    match t {
      case Control(i, task, connected) =>
        if MayCommand(s, i, task) {
          BegunFree(s, i, task);
          SameTasksFree(Begun(s, i, task), Asked(Begun(s, i, task), i));
        }
      case Data(i, chunk) =>
        SameTasksFree(s, Served(s, t, size));
      case Connect(i) =>
        SameTasksFree(s, Asked(s, i));
    }
  }

  lemma SameTasksFree(s: State, t: State)
    requires |s.clients| == |t.clients| && forall i | 0 <= i < |s.clients| :: s.clients[i].task == t.clients[i].task
    ensures ReadsFree(s) ==> ReadsFree(t)
    ensures forall name: string :: Stored(s, name) ==> Stored(t, name)
  {
    forall name: string
      ensures Stored(t, name) <==> Stored(s, name)
    {
    }
  }

  lemma BegunFree(s: State, i: nat, task: Task)
    requires ReadsFree(s) && MayCommand(s, i, task)
    ensures ReadsFree(Begun(s, i, task)) && !Stored(s, task.name)
    ensures forall name: string :: Stored(s, name) ==> Stored(Begun(s, i, task), name)
  {
    var t := Begun(s, i, task);
    StoredStays(s, t);
    assert t.clients[i].task == task;
    forall j | 0 <= j < |t.clients| && t.clients[j].task.Retrieve?
      ensures !Stored(t, t.clients[j].task.name)
    {
      if j != i {
        assert !Stored(s, s.clients[j].task.name) && Apart(s.clients[j].task, task);
      }
    }
  }

  lemma {:induction false} ComingFree(s: State, ready: seq<Turn>, size: nat)
    requires ReadsFree(s)
    ensures forall c | c in Coming(s, ready, size) && c.ReadFile? :: !Stored(s, c.name)
    decreases |ready|
  {
    hide ReadsFree, Stored, Sent, Served;
    if ready != [] {
      ServedFree(s, ready[0], size);
      ComingFree(Served(s, ready[0], size), ready[1..], size);
    }
  }

  lemma CommandsFree(l: Loop, lim: Limits)
    requires Good(l, lim)
    ensures forall c | c in Commands(l, lim.buffer) && c.ReadFile? :: !Stored(l.s, c.name)
    ensures forall k | 0 <= k < |l.s.slots| && l.s.slots[k].Used? :: !Stored(l.s, l.s.slots[k].name)
  {
    hide Inv, Stored, Coming, Room, InOrder;
    forall i | 0 <= i < |l.s.clients| && l.s.clients[i].task.Retrieve?
      ensures !Stored(l.s, l.s.clients[i].task.name)
    {
      NotStoredToo(l.s, i, lim.buffer);
    }
    ComingFree(l.s, l.ready, lim.buffer);
    forall c | c in l.s.io && c.ReadFile?
      ensures !Stored(l.s, c.name)
    {
      CommandNotStored(l.s, c, lim.buffer);
    }
    forall k | 0 <= k < |l.s.slots| && l.s.slots[k].Used?
      ensures !Stored(l.s, l.s.slots[k].name)
    {
      SlotNotStored(l.s, k, lim.buffer);
    }
  }

  // ------------------------------------------------------------------ the three moves

  lemma ServeDue(l: Loop, lim: Limits)
    requires 0 < lim.buffer && !ServerWaits(l.s, lim) && l.ready != []
    ensures var m := Next(l, Serve, lim);
            && Commands(m, lim.buffer) == Commands(l, lim.buffer) && Rounds(m, lim) == Rounds(l, lim)
            && (0 < Rounds(l, lim) ==> Due(m, lim) == Due(l, lim))
  {
    hide SlotsDue, CommandsDue, Sent, Served;
    ServedSends(l.s, l.ready[0], lim.buffer);
    var sent := Sent(l.s, l.ready[0], lim.buffer);
    var rest := Coming(Served(l.s, l.ready[0], lim.buffer), l.ready[1..], lim.buffer);
    assert (l.s.io + sent) + rest == l.s.io + (sent + rest);
  }

  lemma PieceDue(slot: Slot, rounds: nat, files: map<string, seq<byte>>, size: nat)
    requires slot.Used? && 0 < rounds && 0 < size
    ensures var data := Loaded(Content(files, slot.name), slot.offset, size);
            var x := if |data| < size then Unused else slot.(offset := slot.offset + |data|);
            SlotDue(slot, rounds, files, size) == 1 + SlotDue(x, rounds - 1, files, size)
  {
    hide Loaded, Content;
    LoadedSize(Content(files, slot.name), slot.offset, size);
  }

  lemma LoadedSize(file: seq<byte>, offset: nat, size: nat)
    ensures |Loaded(file, offset, size)| <= size
  {
  }

  lemma VisitDue(l: Loop, lim: Limits)
    requires 0 < lim.buffer && !IoWaits(l.s, lim) && l.s.next < |l.s.slots|
    ensures var m := Next(l, Visit, lim);
            && Commands(m, lim.buffer) == Commands(l, lim.buffer) && Rounds(m, lim) == Rounds(l, lim)
            && (0 < Rounds(l, lim) ==> Due(m, lim) == Due(l, lim))
  {
    hide SlotsDue, CommandsDue, Coming, SlotDue, Loaded, Alike;
    var s, j, rounds := l.s, l.s.next, Rounds(l, lim);
    VisitAlike(s, lim);
    ComingAlike(s, DoVisitSlot(s, lim), l.ready, lim.buffer);
    if 0 < rounds {
      SlotsDuePassed(s.slots, 0, j, rounds, s.files, lim.buffer);
      var x := DoVisitSlot(s, lim).slots[j];
      SlotsDueSet(s.slots, 0, j + 1, rounds, s.files, lim.buffer, j, x);
      if s.slots[j].Used? {
        PieceDue(s.slots[j], rounds, s.files, lim.buffer);
      } else {
        UnusedDue(s.slots[j], rounds, s.files, lim.buffer);
        UnusedDue(s.slots[j], rounds - 1, s.files, lim.buffer);
      }
    }
  }

  lemma UnusedDue(slot: Slot, visits: nat, files: map<string, seq<byte>>, size: nat)
    requires slot.Unused? && 0 < size
    ensures SlotDue(slot, visits, files, size) == 0
  {
  }

  lemma ExecuteCommands(l: Loop, lim: Limits)
    requires Good(l, lim) && !IoWaits(l.s, lim) && l.s.next >= |l.s.slots| && l.s.io != []
    ensures Commands(l, lim.buffer) != [] && Commands(l, lim.buffer)[0] == l.s.io[0]
    ensures Commands(Next(l, Execute, lim), lim.buffer) == Commands(l, lim.buffer)[1..]
  {
    hide Inv, Coming, Alike, FreeSlot, Written, Room, InOrder;
    TakeAlike(l.s, lim);
    ComingAlike(l.s, DoTakeCommand(l.s, lim), l.ready, lim.buffer);
    var coming := Coming(l.s, l.ready, lim.buffer);
    assert (l.s.io + coming)[1..] == l.s.io[1..] + coming;
  }

  // Taking the last of the commands, the IO thread has nothing to reply to before
  lemma LastDue(l: Loop, lim: Limits)
    requires 0 < lim.buffer && Rounds(l, lim) == 1 && l.s.next >= |l.s.slots|
    ensures Due(l, lim) == |l.s.server|
  {
    hide Commands, SlotsDue;
    SlotsDueAgain(l.s.slots, 0, l.s.next, 1, l.s.files, lim.buffer);
  }

  lemma ExecuteDue(l: Loop, lim: Limits)
    requires Good(l, lim) && !IoWaits(l.s, lim) && l.s.next >= |l.s.slots| && l.s.io != [] && 1 < Rounds(l, lim)
    ensures var m := Next(l, Execute, lim); 0 < Rounds(m, lim) && Due(m, lim) == Due(l, lim)
  {
    hide Commands, SlotsDue, CommandsDue, Good, DoTakeCommand;
    GoodInv(l, lim);
    ExecuteCommands(l, lim);
    var s, t, rounds := l.s, Next(l, Execute, lim).s, Rounds(l, lim);
    var commands := Commands(l, lim.buffer);
    FirstDue(commands, rounds, s.files, lim.buffer);
    SlotsDueAgain(s.slots, 0, s.next, rounds, s.files, lim.buffer);
    if s.io[0].ReadFile? {
      RegisterDue(s, rounds - 1, lim);
    } else {
      CommandsFree(l, lim);
      WriteDue(s, commands[1..], rounds - 1, lim);
    }
  }

  lemma GoodInv(l: Loop, lim: Limits)
    requires Good(l, lim)
    ensures Inv(l.s, lim.buffer) && 0 < lim.buffer && Room(l.s, lim)
  {
    hide One;
  }

  lemma FirstDue(commands: seq<Command>, rounds: nat, files: map<string, seq<byte>>, size: nat)
    requires commands != [] && 1 < rounds && 0 < size
    ensures CommandsDue(commands, rounds, files, size)
         == CommandDue(commands[0], rounds - 1, files, size) + CommandsDue(commands[1..], rounds - 1, files, size)
  {
    hide CommandDue;
  }

  lemma RegisterDue(s: State, rounds: nat, lim: Limits)
    requires Inv(s, lim.buffer) && !IoWaits(s, lim) && s.next >= |s.slots| && s.io != [] && s.io[0].ReadFile?
    requires 0 < rounds && 0 < lim.buffer
    ensures var t := DoTakeCommand(s, lim);
            && t.server == s.server && t.files == s.files && t.next == 0
            && SlotsDue(t.slots, 0, 0, rounds, t.files, lim.buffer)
            == SlotsDue(s.slots, 0, 0, rounds, s.files, lim.buffer) + CommandDue(s.io[0], rounds, s.files, lim.buffer)
  {
    hide Inv, SlotsDue, FreeSlot, Pieces, Content;
    RegisterKeeps(s, s.io[0].client, s.io[0].name, lim);
    var k := FreeSlot(s.slots);
    var x := Used(s.io[0].client, s.io[0].name, 0);
    SlotsDueSet(s.slots, 0, 0, rounds, s.files, lim.buffer, k, x);
  }

  lemma WriteDue(s: State, rest: seq<Command>, rounds: nat, lim: Limits)
    requires Inv(s, lim.buffer) && !IoWaits(s, lim) && s.next >= |s.slots| && s.io != [] && s.io[0].WriteFile?
    requires 0 < rounds && 0 < lim.buffer
    requires forall c | c in rest && c.ReadFile? :: !Stored(s, c.name)
    requires forall k | 0 <= k < |s.slots| && s.slots[k].Used? :: !Stored(s, s.slots[k].name)
    ensures var t := DoTakeCommand(s, lim);
            && |t.server| == |s.server| + CommandDue(s.io[0], rounds, s.files, lim.buffer) && t.next == 0
            && SlotsDue(t.slots, 0, 0, rounds, t.files, lim.buffer) == SlotsDue(s.slots, 0, 0, rounds, s.files, lim.buffer)
            && CommandsDue(rest, rounds, t.files, lim.buffer) == CommandsDue(rest, rounds, s.files, lim.buffer)
  {
    hide Inv, SlotsDue, CommandsDue, Stored, Written;
    var t := DoTakeCommand(s, lim);
    WriterStores(s, lim.buffer);
    forall name: string | !Stored(s, name)
      ensures Content(t.files, name) == Content(s.files, name)
    {
      assert name != s.io[0].name;
    }
    SlotsDueFiles(s.slots, 0, 0, rounds, s.files, t.files, lim.buffer);
    CommandsDueFiles(rest, rounds, s.files, t.files, lim.buffer);
  }

  // Looking for a command in an empty queue makes nothing better
  lemma NothingToExecute(l: Loop, lim: Limits)
    requires 0 < lim.buffer && l.s.io == []
    ensures var m := Next(l, Execute, lim);
            && Commands(m, lim.buffer) == Commands(l, lim.buffer) && Rounds(m, lim) == Rounds(l, lim)
            && (0 < Rounds(l, lim) ==> Due(m, lim) >= Due(l, lim))
  {
    hide SlotsDue, CommandsDue, Coming, Alike;
    var t := DoTakeCommand(l.s, lim);
    assert Alike(l.s, t) by { AlikeNext(l.s, t.next); }
    ComingAlike(l.s, t, l.ready, lim.buffer);
    if 0 < Rounds(l, lim) {
      SlotsDueEarlier(l.s.slots, 0, l.s.next, Rounds(l, lim), l.s.files, lim.buffer);
    }
  }

  lemma AlikeNext(s: State, next: nat)
    ensures Alike(s, s.(next := next))
  {
    hide Stored, Content;
  }

  // At the end of a round, and before the next poll, nothing has to be taken first
  lemma RoundOver(l: Loop, lim: Limits)
    requires l.ready == [] && !ServerWaits(l.s, lim)
    ensures Rounds(l, lim) == 0
  {
  }

  lemma DoomStays(l: Loop, m: Move, lim: Limits)
    requires Good(l, lim) && Doomed(l, lim)
    ensures 0 < lim.buffer && Doomed(Next(l, m, lim), lim)
  {
    hide Good, Due, Rounds, Commands, Served, DoReply, DoVisitSlot, DoTakeCommand;
    GoodInv(l, lim);
    match m {
      case Poll(turns) => IdleNotDoomed(l, lim);
      case EndRound => IdleNotDoomed(l, lim);
      case Serve =>
        if !ServerWaits(l.s, lim) && l.ready != [] {
          ServeDue(l, lim);
        }
      case Visit => VisitDoom(l, lim);
      case Execute => ExecuteDoom(l, lim);
    }
  }

  lemma IdleNotDoomed(l: Loop, lim: Limits)
    requires Good(l, lim) && Doomed(l, lim)
    ensures ServerWaits(l.s, lim) || (l.polled && l.ready != [])
  {
    hide Inv, Due, Rounds, Room;
    if !ServerWaits(l.s, lim) && l.ready == [] {
      RoundOver(l, lim);
    }
  }

  lemma VisitDoom(l: Loop, lim: Limits)
    requires 0 < lim.buffer && Doomed(l, lim)
    ensures Doomed(Next(l, Visit, lim), lim)
  {
    hide Due, Rounds, Commands, DoReadSlot;
    if !IoWaits(l.s, lim) && l.s.next < |l.s.slots| {
      VisitDue(l, lim);
    }
  }

  lemma ExecuteDoom(l: Loop, lim: Limits)
    requires Good(l, lim) && Doomed(l, lim)
    ensures Doomed(Next(l, Execute, lim), lim)
  {
    hide Good, Due, Rounds, Commands, DoCommand;
    GoodInv(l, lim);
    if IoWaits(l.s, lim) || l.s.next < |l.s.slots| {
      assert Next(l, Execute, lim) == l;
    } else if l.s.io == [] {
      NothingToExecute(l, lim);
    } else if Rounds(l, lim) == 1 {
      LastDue(l, lim);
      assert false;
    } else {
      ExecuteDue(l, lim);
    }
  }

  lemma {:induction false} RunDoomed(l: Loop, ms: seq<Move>, lim: Limits)
    requires Good(l, lim) && Doomed(l, lim)
    ensures Doomed(Go(l, ms, lim), lim)
    decreases |ms|
  {
    hide Good, Doomed, Next;
    if ms != [] {
      DoomStays(l, ms[0], lim);
      NextGood(l, ms[0], lim);
      RunDoomed(Next(l, ms[0], lim), ms[1..], lim);
    }
  }

  // Every transfer is completed, and what the last poll found is dealt with.
  predicate Done(l: Loop) {
    l.ready == [] && forall i | 0 <= i < |l.s.clients| :: l.s.clients[i].task.Nothing?
  }

  // A command on its way is of an active client
  lemma CommandActive(s: State, size: nat)
    requires Inv(s, size) && s.io != []
    ensures s.io[0].client < |s.clients| && !s.clients[s.io[0].client].task.Nothing?
  {
    hide CommandsOf, RepliesOf, RetrieveOk, StoreOk, SlotOf, FileOf;
    assert s.io[0] in s.io;
    CommandsFirst(s.io, s.io[0].client);
    assert One(s, s.io[0].client, size);
  }

  lemma DoomedNotDone(l: Loop, lim: Limits)
    requires Good(l, lim) && Doomed(l, lim)
    ensures !Done(l)
  {
    hide Good, Due;
    GoodInv(l, lim);
    if l.s.io != [] {
      CommandActive(l.s, lim.buffer);
    }
  }

  // --------------------------------------------------------------- a way to the end

  // The move that brings the server thread nearer to the end of its round
  function Onwards(l: Loop, lim: Limits): Move {
    if !ServerWaits(l.s, lim) then Serve else if l.s.next < |l.s.slots| then Visit else Execute
  }

  lemma OnwardsDue(l: Loop, lim: Limits)
    requires Good(l, lim) && 0 < lim.buffer && !Doomed(l, lim) && (ServerWaits(l.s, lim) || l.ready != [])
    ensures var m := Next(l, Onwards(l, lim), lim);
            && !Doomed(m, lim) && |m.s.slots| == |l.s.slots|
            && (|Commands(m, lim.buffer)| + |m.ready| < |Commands(l, lim.buffer)| + |l.ready|
                || (&& |Commands(m, lim.buffer)| + |m.ready| == |Commands(l, lim.buffer)| + |l.ready|
                    && l.s.next < m.s.next <= |l.s.slots|))
  {
    hide Good, Commands, Due, Served, DoReadSlot, DoCommand;
    if !ServerWaits(l.s, lim) {
      ServeDue(l, lim);
      ServedSends(l.s, l.ready[0], lim.buffer);
    } else {
      WaitingRounds(l, lim);
      SameSlots(l, lim);
      if l.s.next < |l.s.slots| {
        VisitDue(l, lim);
      } else {
        ExecuteCommands(l, lim);
        if 1 < Rounds(l, lim) {
          ExecuteDue(l, lim);
        }
      }
    }
  }

  lemma WaitingRounds(l: Loop, lim: Limits)
    requires 0 < lim.buffer && ServerWaits(l.s, lim) && !Doomed(l, lim)
    ensures 0 < Rounds(l, lim) && !IoWaits(l.s, lim) && l.s.io != []
  {
    hide Coming, SlotsDue, CommandsDue;
  }

  lemma SameSlots(l: Loop, lim: Limits)
    ensures |Next(l, Visit, lim).s.slots| == |l.s.slots| == |Next(l, Execute, lim).s.slots|
    ensures Next(l, Visit, lim).ready == l.ready == Next(l, Execute, lim).ready
    ensures !IoWaits(l.s, lim) && l.s.next < |l.s.slots| ==> Next(l, Visit, lim).s.next == l.s.next + 1
  {
    hide Loaded, FreeSlot, Content, Written;
  }

  // The server thread comes to the end of its round
  lemma {:induction false} FinishRound(l: Loop, lim: Limits) returns (ms: seq<Move>)
    requires Good(l, lim) && 0 < lim.buffer && !Doomed(l, lim)
    ensures Quiet(Go(l, ms, lim), lim)
    decreases |Commands(l, lim.buffer)| + |l.ready|, |l.s.slots| - l.s.next
  {
    hide Good, Doomed, Commands, Next, Go, Onwards;
    GoNothing(l, lim);
    if Quiet(l, lim) {
      return [];
    }
    var m := Onwards(l, lim);
    OnwardsDue(l, lim);
    NextGood(l, m, lim);
    var rest := FinishRound(Next(l, m, lim), lim);
    GoOne(l, m, lim);
    GoAppend(l, [m], rest, lim);
    ms := [m] + rest;
  }

  // The server thread can look for a reply
  predicate Quiet(l: Loop, lim: Limits) {
    l.ready == [] && !ServerWaits(l.s, lim)
  }

  // Clients go on with what they have, or have completed it
  ghost predicate Onward(s: State, t: State) {
    && |t.clients| == |s.clients|
    && (forall i | 0 <= i < |s.clients| ::
          var c, d := s.clients[i], t.clients[i];
          d.task.Nothing? || (d.task == c.task && (c.started ==> d.started) && (c.eofSent ==> d.eofSent)))
  }

  lemma OnwardOn(s: State, t: State, u: State)
    requires Onward(s, t) && Onward(t, u)
    ensures Onward(s, u)
  {
  }

  lemma SameClients(s: State, t: State)
    requires s.clients == t.clients
    ensures Onward(s, t)
  {
  }

  // The next reply is taken, in a round in which nobody is served if need be
  lemma Hear(l: Loop, lim: Limits) returns (ms: seq<Move>)
    requires Quiet(l, lim)
    ensures Go(l, ms, lim) == Loop(DoReply(l.s), [], false)
  {
    hide DoReply, Go;
    var polled := l.(polled := true);
    if l.polled {
      GoOne(l, EndRound, lim);
      return [EndRound];
    }
    GoOne(l, Poll([]), lim);
    assert Next(l, Poll([]), lim) == polled;
    GoOn(l, [Poll([])], EndRound, lim);
    ms := [Poll([])] + [EndRound];
  }

  lemma ReplyOnward(s: State)
    requires s.server != []
    ensures var t := DoReply(s);
            && Onward(s, t) && t.server == s.server[1..]
            && t.io == s.io && t.slots == s.slots && t.next == s.next && t.files == s.files
  {
    hide FileOf;
  }

  // The server thread takes every reply there is
  lemma {:induction false} TakeReplies(l: Loop, lim: Limits) returns (ms: seq<Move>)
    requires Quiet(l, lim)
    ensures var m := Go(l, ms, lim);
            && Quiet(m, lim) && Onward(l.s, m.s) && m.s.server == []
            && m.s.io == l.s.io && m.s.slots == l.s.slots && m.s.next == l.s.next && m.s.files == l.s.files
    decreases |l.s.server|
  {
    hide Go, Onward, DoReply;
    GoNothing(l, lim);
    SameClients(l.s, l.s);
    if l.s.server == [] {
      return [];
    }
    var a := Hear(l, lim);
    var m := Go(l, a, lim);
    ReplyOnward(l.s);
    var rest := TakeReplies(m, lim);
    GoAppend(l, a, rest, lim);
    OnwardOn(l.s, m.s, Go(m, rest, lim).s);
    ms := a + rest;
  }

  // The IO thread passes over slots that are not in use
  lemma {:induction false} PassOver(l: Loop, k: nat, lim: Limits) returns (ms: seq<Move>)
    requires l.s.next <= k <= |l.s.slots| && !IoWaits(l.s, lim)
    requires forall j | l.s.next <= j < k :: l.s.slots[j].Unused?
    ensures Go(l, ms, lim) == l.(s := l.s.(next := k))
    decreases k - l.s.next
  {
    if l.s.next == k {
      GoNothing(l, lim);
      return [];
    }
    var m := Next(l, Visit, lim);
    assert m == l.(s := l.s.(next := l.s.next + 1));
    var rest := PassOver(m, k, lim);
    GoOne(l, Visit, lim);
    GoAppend(l, [Visit], rest, lim);
    ms := [Visit] + rest;
  }

  // What is left to read of the files in the slots
  function Left(slot: Slot, files: map<string, seq<byte>>): nat {
    if slot.Unused? then 0
    else if |Content(files, slot.name)| <= slot.offset then 1
    else 1 + |Content(files, slot.name)| - slot.offset
  }

  function SlotWork(slots: seq<Slot>, files: map<string, seq<byte>>): nat {
    if slots == [] then 0 else SlotWork(slots[..|slots| - 1], files) + Left(slots[|slots| - 1], files)
  }

  lemma {:induction false} SlotWorkLess(slots: seq<Slot>, k: nat, x: Slot, files: map<string, seq<byte>>)
    requires k < |slots| && Left(x, files) < Left(slots[k], files)
    ensures SlotWork(slots[k := x], files) < SlotWork(slots, files)
  {
    hide Left;
    var n := |slots| - 1;
    if k < n {
      SlotWorkLess(slots[..n], k, x, files);
      assert slots[k := x][..n] == slots[..n][k := x];
    } else {
      assert slots[k := x][..n] == slots[..n];
    }
  }

  lemma ReadLess(s: State, k: nat, lim: Limits)
    requires k < |s.slots| && s.slots[k].Used? && 0 < lim.buffer
    ensures SlotWork(DoReadSlot(s, k, lim).slots, s.files) < SlotWork(s.slots, s.files)
  {
    hide SlotWork;
    var x := DoReadSlot(s, k, lim).slots[k];
    SlotWorkLess(s.slots, k, x, s.files);
  }

  // Nothing on its way and nothing being read
  predicate AtRest(s: State) {
    s.io == [] && s.server == [] && forall k | 0 <= k < |s.slots| :: s.slots[k].Unused?
  }

  // The first slot in use from k on
  function UsedAt(slots: seq<Slot>, k: nat): (j: nat)
    requires k <= |slots|
    ensures k <= j <= |slots| && (forall i | k <= i < j :: slots[i].Unused?) && (j < |slots| ==> slots[j].Used?)
    decreases |slots| - k
  {
    if k == |slots| || slots[k].Used? then k else UsedAt(slots, k + 1)
  }

  // One piece of a file is read and sent
  lemma ReadNext(l: Loop, lim: Limits) returns (ms: seq<Move>)
    requires Quiet(l, lim) && l.s.server == [] && 0 < lim.buffer && l.s.next <= |l.s.slots|
    requires UsedAt(l.s.slots, l.s.next) < |l.s.slots|
    ensures var m := Go(l, ms, lim);
            && Quiet(m, lim) && Onward(l.s, m.s) && m.s.server == [] && m.s.io == l.s.io
            && SlotWork(m.s.slots, m.s.files) < SlotWork(l.s.slots, l.s.files)
  {
    hide Go, Onward, SlotWork, UsedAt, DoReadSlot;
    var k := UsedAt(l.s.slots, l.s.next);
    var a := PassOver(l, k, lim);
    var m := Go(l, a, lim);
    ReadOnward(m.s, k, lim);
    ReadLess(m.s, k, lim);
    var n := Next(m, Visit, lim);
    GoOn(l, a, Visit, lim);
    var c := TakeReplies(n, lim);
    GoAppend(l, a + [Visit], c, lim);
    SameClients(l.s, m.s);
    OnwardOn(l.s, m.s, n.s);
    OnwardOn(l.s, n.s, Go(n, c, lim).s);
    ms := a + [Visit] + c;
  }

  lemma ReadOnward(s: State, k: nat, lim: Limits)
    requires k < |s.slots|
    ensures var t := DoReadSlot(s, k, lim);
            && Onward(s, t.(next := k + 1)) && t.io == s.io && |t.slots| == |s.slots| && t.files == s.files
  {
    hide Loaded, Content;
  }

  lemma TakeOnward(s: State, lim: Limits)
    requires s.next >= |s.slots| && !IoWaits(s, lim)
    ensures var t := DoTakeCommand(s, lim);
            && Onward(s, t) && t.io == (if s.io == [] then [] else s.io[1..]) && t.next == 0 && |t.slots| == |s.slots|
            && (s.io == [] ==> t == s.(next := 0))
  {
    hide Written, Content, FreeSlot;
  }

  // The next command is carried out and what it says answered
  lemma TakeNext(l: Loop, lim: Limits) returns (ms: seq<Move>)
    requires Quiet(l, lim) && l.s.server == [] && l.s.next <= |l.s.slots| && UsedAt(l.s.slots, l.s.next) == |l.s.slots|
    ensures var m := Go(l, ms, lim);
            && Quiet(m, lim) && Onward(l.s, m.s) && m.s.server == [] && m.s.next == 0
            && m.s.io == (if l.s.io == [] then [] else l.s.io[1..])
            && (l.s.io == [] ==> m.s.slots == l.s.slots && m.s.files == l.s.files)
  {
    hide Go, Onward, UsedAt, DoTakeCommand;
    var a := PassOver(l, |l.s.slots|, lim);
    var m := Go(l, a, lim);
    TakeOnward(m.s, lim);
    var n := Next(m, Execute, lim);
    GoOn(l, a, Execute, lim);
    var c := TakeReplies(n, lim);
    GoAppend(l, a + [Execute], c, lim);
    SameClients(l.s, m.s);
    OnwardOn(l.s, m.s, n.s);
    OnwardOn(l.s, n.s, Go(n, c, lim).s);
    ms := a + [Execute] + c;
  }

  // Everything on its way arrives
  lemma {:induction false} Deliver(l: Loop, lim: Limits) returns (ms: seq<Move>)
    requires Good(l, lim) && Quiet(l, lim) && l.s.server == [] && 0 < lim.buffer
    ensures var m := Go(l, ms, lim); Quiet(m, lim) && Onward(l.s, m.s) && AtRest(m.s)
    decreases |l.s.io|, SlotWork(l.s.slots, l.s.files)
  {
    hide Go, Onward, SlotWork, UsedAt, Good, Quiet;
    GoodNext(l, lim);
    var a;
    if UsedAt(l.s.slots, l.s.next) < |l.s.slots| {
      a := ReadNext(l, lim);
    } else {
      a := TakeNext(l, lim);
      var n := Go(l, a, lim);
      if l.s.io == [] && UsedAt(n.s.slots, 0) == |n.s.slots| {
        AllUnused(n.s.slots);
        return a;
      }
      if l.s.io == [] {
        var b := ReadNext(n, lim);
        GoAppend(l, a, b, lim);
        OnwardOn(l.s, n.s, Go(n, b, lim).s);
        a := a + b;
      }
    }
    var m := Go(l, a, lim);
    GoGood(l, a, lim);
    var rest := Deliver(m, lim);
    GoAppend(l, a, rest, lim);
    OnwardOn(l.s, m.s, Go(m, rest, lim).s);
    ms := a + rest;
  }

  lemma GoodNext(l: Loop, lim: Limits)
    requires Good(l, lim)
    ensures l.s.next <= |l.s.slots|
  {
    hide Inv;
  }

  lemma AllUnused(slots: seq<Slot>)
    requires UsedAt(slots, 0) == |slots|
    ensures forall k | 0 <= k < |slots| :: slots[k].Unused?
  {
    hide UsedAt;
  }

  // From a state in which the server thread can look for a reply
  lemma ToRest(l: Loop, lim: Limits) returns (ms: seq<Move>)
    requires Good(l, lim) && Quiet(l, lim) && 0 < lim.buffer
    ensures var m := Go(l, ms, lim); Quiet(m, lim) && Onward(l.s, m.s) && AtRest(m.s)
  {
    hide Go, Onward, Good, Quiet, AtRest;
    var a := TakeReplies(l, lim);
    var m := Go(l, a, lim);
    GoGood(l, a, lim);
    var b := Deliver(m, lim);
    GoAppend(l, a, b, lim);
    OnwardOn(l.s, m.s, Go(m, b, lim).s);
    ms := a + b;
  }

  // At rest a retrieve has not been started, and a store not been ended
  lemma WaitingToGoOn(s: State, i: nat, size: nat)
    requires Inv(s, size) && AtRest(s) && i < |s.clients|
    ensures s.clients[i].task.Retrieve? ==> !s.clients[i].started
    ensures s.clients[i].task.Store? ==> !s.clients[i].eofSent && |s.clients[i].buffer| < size
  {
    assert One(s, i, size);
  }

  // What is left to the client or the server thread to do for client i
  function LastTurn(c: Client, i: nat): Turn {
    if c.task.Retrieve? then Connect(i) else Data(i, [])
  }

  lemma LastOnward(s: State, i: nat, size: nat)
    requires Inv(s, size) && AtRest(s) && i < |s.clients| && !s.clients[i].task.Nothing?
    ensures var t := Served(s, LastTurn(s.clients[i], i), size);
            && Onward(s, t) && |t.io| == 1 && t.server == [] && t.slots == s.slots && t.next == s.next
            && (t.clients[i].task.Retrieve? ==> t.clients[i].started)
            && (t.clients[i].task.Store? ==> t.clients[i].eofSent)
  {
    hide Inv;
    WaitingToGoOn(s, i, size);
  }

  // The last turn of a client, in a round of its own
  lemma ServeLast(l: Loop, i: nat, lim: Limits) returns (ms: seq<Move>)
    requires Good(l, lim) && Quiet(l, lim) && AtRest(l.s) && i < |l.s.clients| && !l.s.clients[i].task.Nothing?
    ensures Go(l, ms, lim) == Loop(Served(l.s, LastTurn(l.s.clients[i], i), lim.buffer), [], true)
  {
    hide Go, Good, Served;
    var t := LastTurn(l.s.clients[i], i);
    var a := [];
    GoNothing(l, lim);
    if l.polled {
      NoReply(l.s);
      GoOne(l, EndRound, lim);
      a := [EndRound];
    }
    assert Go(l, a, lim) == Loop(l.s, [], false);
    GoOn(l, a, Poll([t]), lim);
    GoOn(l, a + [Poll([t])], Serve, lim);
    assert [t][1..] == [];
    ms := a + [Poll([t])] + [Serve];
  }

  // The IO thread takes the one command
  lemma TakeOnly(l: Loop, lim: Limits) returns (ms: seq<Move>)
    requires l.ready == [] && |l.s.io| == 1 && l.s.server == [] && l.s.next <= |l.s.slots|
    requires forall k | 0 <= k < |l.s.slots| :: l.s.slots[k].Unused?
    ensures var m := Go(l, ms, lim); Quiet(m, lim) && Onward(l.s, m.s)
  {
    hide Go, Onward, DoTakeCommand;
    var a := PassOver(l, |l.s.slots|, lim);
    var m := Go(l, a, lim);
    TakeOnward(m.s, lim);
    GoOn(l, a, Execute, lim);
    SameClients(l.s, m.s);
    OnwardOn(l.s, m.s, Next(m, Execute, lim).s);
    ms := a + [Execute];
  }

  // One more client completes what it has
  lemma CompleteOne(l: Loop, i: nat, lim: Limits) returns (ms: seq<Move>)
    requires Good(l, lim) && Quiet(l, lim) && AtRest(l.s) && i < |l.s.clients| && 0 < lim.buffer
    ensures var m := Go(l, ms, lim);
            Quiet(m, lim) && Onward(l.s, m.s) && AtRest(m.s) && m.s.clients[i].task.Nothing?
  {
    hide Go, Good, Quiet, Served, AtRest, LastTurn;
    GoNothing(l, lim);
    SameClients(l.s, l.s);
    if l.s.clients[i].task.Nothing? {
      return [];
    }
    GoodInv(l, lim);
    GoodNext(l, lim);
    LastOnward(l.s, i, lim.buffer);
    var a := ServeLast(l, i, lim);
    var m := Go(l, a, lim);
    RestUnused(l.s);
    var b := TakeOnly(m, lim);
    GoAppend(l, a, b, lim);
    var n := Go(m, b, lim);
    GoGood(l, a + b, lim);
    var c := ToRest(n, lim);
    GoAppend(l, a + b, c, lim);
    var r := Go(n, c, lim);
    GoGood(n, c, lim);
    GoodInv(r, lim);
    OnwardOn(l.s, m.s, n.s);
    OnwardOn(l.s, n.s, r.s);
    OnwardOn(m.s, n.s, r.s);
    WaitingToGoOn(r.s, i, lim.buffer);
    ms := a + b + c;
  }

  lemma RestUnused(s: State)
    requires AtRest(s)
    ensures forall k | 0 <= k < |s.slots| :: s.slots[k].Unused?
  {
  }

  lemma {:induction false} CompleteFrom(l: Loop, k: nat, lim: Limits) returns (ms: seq<Move>)
    requires Good(l, lim) && Quiet(l, lim) && AtRest(l.s) && k <= |l.s.clients| && 0 < lim.buffer
    requires forall i | 0 <= i < k :: l.s.clients[i].task.Nothing?
    ensures Done(Go(l, ms, lim))
    decreases |l.s.clients| - k
  {
    hide Go, Good, AtRest;
    if k == |l.s.clients| {
      GoNothing(l, lim);
      return [];
    }
    var a := CompleteOne(l, k, lim);
    GoGood(l, a, lim);
    var rest := CompleteFrom(Go(l, a, lim), k + 1, lim);
    GoAppend(l, a, rest, lim);
    ms := a + rest;
  }

  // Every transfer can be completed
  lemma CompleteAll(l: Loop, lim: Limits) returns (ms: seq<Move>)
    requires Good(l, lim) && 0 < lim.buffer && !Doomed(l, lim)
    ensures Done(Go(l, ms, lim))
  {
    hide Go, Good, Doomed, Quiet, AtRest, Done;
    var a := FinishRound(l, lim);
    var m := Go(l, a, lim);
    GoGood(l, a, lim);
    var b := ToRest(m, lim);
    var n := Go(m, b, lim);
    GoGood(m, b, lim);
    var c := CompleteFrom(n, 0, lim);
    GoAppend(l, a, b, lim);
    GoAppend(l, a + b, c, lim);
    ms := a + b + c;
  }

  // In every state the loops reach, all transfers can be completed, unless more
  // replies must come than there is room for before the server thread looks for one
  lemma CompletesExactly(clients: nat, files: map<string, seq<byte>>, before: seq<Move>, lim: Limits)
    requires 0 < lim.buffer
    ensures var l := Go(Idle(clients, files), before, lim);
            (exists ms :: Done(Go(l, ms, lim))) <==> !Doomed(l, lim)
  {
    hide Go, Idle, Good, Doomed, Done;
    var l := Go(Idle(clients, files), before, lim);
    IdleGood(clients, files, lim);
    GoGood(Idle(clients, files), before, lim);
    if Doomed(l, lim) {
      forall ms
        ensures !Done(Go(l, ms, lim))
      {
        RunDoomed(l, ms, lim);
        GoGood(l, ms, lim);
        DoomedNotDone(Go(l, ms, lim), lim);
      }
    } else {
      var ms := CompleteAll(l, lim);
    }
  }
}
