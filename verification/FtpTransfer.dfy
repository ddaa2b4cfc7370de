/** The two threads of source/ftp_daemon.c that move a file: the server thread
    talks to the clients, the IO thread to the file system, and two bounded
    queues connect them. The server thread may serve clients and take replies in
    any order here; the order of its loop is in FtpLoop. */
module FtpTransfer {
  import opened Bits
  import opened Options
  import opened Queue

  datatype Task = Nothing | Retrieve(name: string) | Store(name: string, append: bool)

  // The server thread's data of a client; then what has happened in its present
  // transfer: the file before, the bytes received and sent, and the read slot
  datatype Client = Client(
    task: Task, started: bool, eofSent: bool, isAppend: bool, buffer: seq<byte>,
    before: seq<byte>, received: seq<byte>, sent: seq<byte>, slot: Option<nat>)

  datatype Command =
    | ReadFile(client: nat, name: string)
    | WriteFile(client: nat, name: string, append: bool, eof: bool, data: seq<byte>)

  datatype Reply =
    | ReadDone(client: nat, error: bool, eof: bool, data: seq<byte>)
    | WriteDone(client: nat, error: bool)

  datatype Slot = Unused | Used(client: nat, name: string, offset: nat)

  // A completed transfer, with the file as it was left
  datatype Record = Record(client: nat, ok: bool, transfer: Client, after: seq<byte>)

  // The two queues, named after the thread that reads them, the read slots with the
  // next one the IO thread looks at, and the files. A message too many for its queue
  // is the last one, in the hands of the thread that waits for room.
  datatype State = State(clients: seq<Client>, io: seq<Command>, server: seq<Reply>, slots: seq<Slot>, next: nat,
                         files: map<string, seq<byte>>, log: seq<Record>)

  // IO_BUFFER_SIZE, MAX_IO_QUEUE and MAX_SERVER_QUEUE
  datatype Limits = Limits(buffer: nat, io: nat, server: nat)

  predicate ServerWaits(s: State, lim: Limits) {
    |s.io| > lim.io
  }

  predicate IoWaits(s: State, lim: Limits) {
    |s.server| > lim.server
  }

  function Content(files: map<string, seq<byte>>, name: string): seq<byte> {
    if name in files then files[name] else []
  }

  function FileOf(files: map<string, seq<byte>>, c: Client): seq<byte> {
    if c.task.Nothing? then [] else Content(files, c.task.name)
  }

  const IDLE := Client(Nothing, false, false, false, [], [], [], [], None)

  // ---------------------------------------------------------------------- events

  datatype Event =
    | Begin(client: nat, task: Task)             // a command is accepted, its data connection open
    | StartReading(client: nat)                  // Ftpd_process_retr_bof
    | Receive(client: nat, chunk: seq<byte>)     // Ftpd_process_stor_stou_appe_data; [] is the end
    | VisitSlot                                  // a turn of Ftpd_io_process_read
    | TakeCommand                                // after the last slot, the next command if there is one
    | TakeReply                                  // Ftpd_process_res_read and _res_write

  // Two transfers that may go on at the same time
  predicate Apart(t: Task, u: Task) {
    t.Nothing? || u.Nothing? || t.name != u.name || (t.Retrieve? && u.Retrieve?)
  }

  // Nobody else may be writing the file, nor reading what is to be written
  predicate MayBegin(s: State, task: Task) {
    && (task.Retrieve? ==> task.name in s.files)
    && forall j | 0 <= j < |s.clients| :: Apart(s.clients[j].task, task)
  }

  // A command is accepted
  function Begun(s: State, i: nat, task: Task): State {
    if i < |s.clients| && s.clients[i].task.Nothing? && !task.Nothing? && MayBegin(s, task) then
      s.(clients := s.clients[i := Client(task, false, false, task.Store? && task.append, [],
                                          Content(s.files, task.name), [], [], None)])
    else s
  }

  // The file of a retrieve is asked for, once
  function Asked(s: State, i: nat): State {
    if i < |s.clients| && s.clients[i].task.Retrieve? && !s.clients[i].started then
      s.(io := s.io + [ReadFile(i, s.clients[i].task.name)],
         clients := s.clients[i := s.clients[i].(started := true)])
    else s
  }

  // A full store buffer and the end of the data are sent on
  function Received(s: State, i: nat, chunk: seq<byte>, size: nat): State {
    if !(i < |s.clients| && s.clients[i].task.Store? && !s.clients[i].eofSent) then s else
    var c := s.clients[i];
    if |chunk| > size - |c.buffer| then s else
    var got := c.(buffer := c.buffer + chunk, received := c.received + chunk);
    if chunk != [] && |got.buffer| < size then s.(clients := s.clients[i := got])
    else s.(io := s.io + [WriteFile(i, c.task.name, c.isAppend, chunk == [], got.buffer)],
            clients := s.clients[i := got.(isAppend := true, buffer := [], eofSent := chunk == [])])
  }

  function DoBegin(s: State, i: nat, task: Task, lim: Limits): State {
    if ServerWaits(s, lim) then s else Begun(s, i, task)
  }

  function DoStartReading(s: State, i: nat, lim: Limits): State {
    if ServerWaits(s, lim) then s else Asked(s, i)
  }

  function DoReceive(s: State, i: nat, chunk: seq<byte>, lim: Limits): State {
    if ServerWaits(s, lim) then s else Received(s, i, chunk, lim.buffer)
  }

  // Util_file_load_from_file at an offset inside the file
  function Loaded(file: seq<byte>, offset: nat, size: nat): seq<byte> {
    if |file| < offset then [] else if |file| - offset > size then file[offset..offset + size] else file[offset..]
  }

  function DoReadSlot(s: State, k: nat, lim: Limits): State {
    if !(k < |s.slots| && s.slots[k].Used?) then s else
    var slot := s.slots[k];
    var data := Loaded(Content(s.files, slot.name), slot.offset, lim.buffer);
    var eof := |data| < lim.buffer;
    s.(server := s.server + [ReadDone(slot.client, false, eof, data)],
       slots := s.slots[k := if eof then Unused else slot.(offset := slot.offset + |data|)],
       clients := if slot.client < |s.clients| && eof
                  then s.clients[slot.client := s.clients[slot.client].(slot := None)] else s.clients)
  }

  function DoVisitSlot(s: State, lim: Limits): State {
    if IoWaits(s, lim) || s.next >= |s.slots| then s
    else DoReadSlot(s, s.next, lim).(next := s.next + 1)
  }

  // The first slot that is not in use
  function FreeSlot(slots: seq<Slot>): (k: nat)
    ensures k <= |slots| && (k < |slots| ==> slots[k].Unused?) && forall j | 0 <= j < k :: slots[j].Used?
  {
    if slots == [] || slots[0].Unused? then 0 else 1 + FreeSlot(slots[1..])
  }

  function DoRegister(s: State, i: nat, name: string): State
    requires s.io != []
  {
    var k := FreeSlot(s.slots);
    if k < |s.slots| then
      s.(io := s.io[1..], slots := s.slots[k := Used(i, name, 0)],
         clients := if i < |s.clients| then s.clients[i := s.clients[i].(slot := Some(k))] else s.clients)
    else s.(io := s.io[1..], server := s.server + [ReadDone(i, true, false, [])])
  }

  // Util_file_save_to_file, which is called only for data
  function Written(file: seq<byte>, append: bool, data: seq<byte>): seq<byte> {
    if data == [] then file else (if append then file else []) + data
  }

  function DoWrite(s: State, c: Command): State
    requires c.WriteFile? && s.io != []
  {
    s.(io := s.io[1..],
       files := if c.data == [] then s.files
                else s.files[c.name := Written(Content(s.files, c.name), c.append, c.data)],
       server := if c.eof then s.server + [WriteDone(c.client, false)] else s.server)
  }

  function DoCommand(s: State): State {
    if s.io == [] then s else
    match s.io[0]
    case ReadFile(i, name) => DoRegister(s, i, name)
    case WriteFile(_, _, _, _, _) => DoWrite(s, s.io[0])
  }

  function DoTakeCommand(s: State, lim: Limits): State {
    if IoWaits(s, lim) || s.next < |s.slots| then s else DoCommand(s).(next := 0)
  }

  // The completion is answered and the client is ready for its next command
  function DoComplete(s: State, i: nat, ok: bool): State
    requires i < |s.clients|
  {
    var c := s.clients[i];
    s.(clients := s.clients[i := IDLE],
       log := s.log + [Record(i, ok, c, FileOf(s.files, c))])
  }

  function DoReply(s: State): State {
    if s.server == [] then s else
    var t := s.(server := s.server[1..]);
    if s.server[0].client >= |s.clients| then t else
    match s.server[0]
    case ReadDone(i, error, eof, data) =>
      var u := t.(clients := t.clients[i := t.clients[i].(sent := t.clients[i].sent + data)]);
      if eof || error then DoComplete(u, i, !error) else u
    case WriteDone(i, error) => DoComplete(t, i, !error)
  }

  function DoTakeReply(s: State, lim: Limits): State {
    if ServerWaits(s, lim) then s else DoReply(s)
  }

  function Step(s: State, e: Event, lim: Limits): State {
    match e
    case Begin(i, task) => DoBegin(s, i, task, lim)
    case StartReading(i) => DoStartReading(s, i, lim)
    case Receive(i, chunk) => DoReceive(s, i, chunk, lim)
    case VisitSlot => DoVisitSlot(s, lim)
    case TakeCommand => DoTakeCommand(s, lim)
    case TakeReply => DoTakeReply(s, lim)
  }

  function Start(clients: nat, files: map<string, seq<byte>>): State {
    State(seq(clients, _ => IDLE), [], [], seq(clients, _ => Unused), 0, files, [])
  }

  function Run(s: State, es: seq<Event>, lim: Limits): State
    decreases |es|
  {
    if es == [] then s else Run(Step(s, es[0], lim), es[1..], lim)
  }

  // -------------------------------------------------------- one client's messages

  function CommandsOf(io: seq<Command>, i: nat): seq<Command> {
    if io == [] then [] else (if io[0].client == i then [io[0]] else []) + CommandsOf(io[1..], i)
  }

  function RepliesOf(server: seq<Reply>, i: nat): seq<Reply> {
    if server == [] then [] else (if server[0].client == i then [server[0]] else []) + RepliesOf(server[1..], i)
  }

  lemma {:induction false} CommandsAppend(io: seq<Command>, c: Command, i: nat)
    ensures CommandsOf(io + [c], i) == CommandsOf(io, i) + (if c.client == i then [c] else [])
  {
    if io == [] {
      assert io + [c] == [c] && [c][1..] == [];
    } else {
      var longer := io + [c];
      assert longer[0] == io[0] && longer[1..] == io[1..] + [c];
      CommandsAppend(io[1..], c, i);
      var head, last := if io[0].client == i then [io[0]] else [], if c.client == i then [c] else [];
      assert CommandsOf(longer, i) == head + CommandsOf(longer[1..], i);
      assert head + (CommandsOf(io[1..], i) + last) == (head + CommandsOf(io[1..], i)) + last;
    }
  }

  lemma {:induction false} RepliesAppend(server: seq<Reply>, r: Reply, i: nat)
    ensures RepliesOf(server + [r], i) == RepliesOf(server, i) + (if r.client == i then [r] else [])
  {
    if server == [] {
      assert server + [r] == [r] && [r][1..] == [];
    } else {
      var longer := server + [r];
      assert longer[0] == server[0] && longer[1..] == server[1..] + [r];
      RepliesAppend(server[1..], r, i);
      var head, last := if server[0].client == i then [server[0]] else [], if r.client == i then [r] else [];
      assert RepliesOf(longer, i) == head + RepliesOf(longer[1..], i);
      assert head + (RepliesOf(server[1..], i) + last) == (head + RepliesOf(server[1..], i)) + last;
    }
  }

  // -------------------------------------------------------------------- invariant

  // The bytes on their way to the client
  function DataOf(replies: seq<Reply>): seq<byte> {
    if replies == [] then [] else (if replies[0].ReadDone? then replies[0].data else []) + DataOf(replies[1..])
  }

  // The file once the commands on their way are carried out
  function Applied(file: seq<byte>, commands: seq<Command>): seq<byte>
    decreases |commands|
  {
    if commands == [] then file else
    Applied(if commands[0].WriteFile? then Written(file, commands[0].append, commands[0].data) else file, commands[1..])
  }

  // What a store is for; with nothing received the file is left alone
  function Target(c: Client): seq<byte>
    requires c.task.Store?
  {
    (if c.task.append || c.received == [] then c.before else []) + c.received
  }

  predicate PlainReads(replies: seq<Reply>) {
    forall r | r in replies :: r.ReadDone? && !r.error && !r.eof
  }

  predicate PlainWrites(commands: seq<Command>, name: string) {
    forall c | c in commands :: c.WriteFile? && c.name == name && !c.eof
  }

  ghost predicate RetrieveOk(c: Client, commands: seq<Command>, replies: seq<Reply>, slot: Slot, i: nat)
    requires c.task.Retrieve?
  {
    if !c.started then commands == [] && replies == [] && slot.Unused? && c.sent == []
    else
      || (commands == [ReadFile(i, c.task.name)] && replies == [] && slot.Unused? && c.sent == [])
      || (&& commands == [] && slot == Used(i, c.task.name, |c.sent + DataOf(replies)|)
          && PlainReads(replies) && c.sent + DataOf(replies) <= c.before)
      || (&& commands == [] && slot.Unused? && replies != []
          && PlainReads(replies[..|replies| - 1])
          && (var last := replies[|replies| - 1]; last.ReadDone? && !last.error && last.eof)
          && c.sent + DataOf(replies) == c.before)
  }

  ghost predicate StoreOk(c: Client, commands: seq<Command>, replies: seq<Reply>, slot: Slot, file: seq<byte>, i: nat, size: nat)
    requires c.task.Store?
  {
    && slot.Unused? && |c.buffer| < size
    && (if c.eofSent then
          || (&& commands != [] && replies == [] && PlainWrites(commands[..|commands| - 1], c.task.name)
              && (var last := commands[|commands| - 1]; last.WriteFile? && last.name == c.task.name && last.eof))
          || (commands == [] && replies == [WriteDone(i, false)])
        else PlainWrites(commands, c.task.name) && replies == [])
    && (c.eofSent ==> c.buffer == [] && c.isAppend)
    && (c.isAppend ==> Applied(file, commands) + c.buffer == Target(c))
    && (c.isAppend && !c.task.append && !c.eofSent ==> c.received != [])
    && (!c.isAppend ==> commands == [] && !c.task.append && c.buffer == c.received && file == c.before)
  }

  ghost predicate ClientOk(c: Client, commands: seq<Command>, replies: seq<Reply>, slot: Slot, file: seq<byte>,
                           i: nat, size: nat) {
    match c.task
    case Nothing => commands == [] && replies == [] && slot.Unused?
    case Retrieve(_) => file == c.before && RetrieveOk(c, commands, replies, slot, i)
    case Store(_, _) => StoreOk(c, commands, replies, slot, file, i, size)
  }

  function SlotOf(slots: seq<Slot>, c: Client): Slot {
    if c.slot.Some? && c.slot.value < |slots| then slots[c.slot.value] else Unused
  }

  ghost predicate One(s: State, i: nat, size: nat)
    requires i < |s.clients|
  {
    var c := s.clients[i];
    ClientOk(c, CommandsOf(s.io, i), RepliesOf(s.server, i), SlotOf(s.slots, c), FileOf(s.files, c), i, size)
  }

  // Every slot in use belongs to one client
  ghost predicate SlotsOk(slots: seq<Slot>, clients: seq<Client>) {
    && |slots| == |clients|
    && (forall k | 0 <= k < |slots| && slots[k].Used? ::
          slots[k].client < |clients| && clients[slots[k].client].slot == Some(k))
    && (forall i | 0 <= i < |clients| && clients[i].slot.Some? ::
          clients[i].slot.value < |slots| && slots[clients[i].slot.value].Used? &&
          slots[clients[i].slot.value].client == i)
  }

  ghost predicate TasksOk(clients: seq<Client>, files: map<string, seq<byte>>) {
    && (forall i, j | 0 <= i < j < |clients| :: Apart(clients[i].task, clients[j].task))
    && (forall i | 0 <= i < |clients| && clients[i].task.Retrieve? :: clients[i].task.name in files)
  }

  ghost predicate MessagesOk(s: State) {
    && (forall c | c in s.io :: c.client < |s.clients|)
    && (forall r | r in s.server :: r.client < |s.clients|)
  }

  ghost predicate Shape(s: State) {
    SlotsOk(s.slots, s.clients) && TasksOk(s.clients, s.files) && MessagesOk(s)
  }

  ghost predicate Inv(s: State, size: nat) {
    0 < size && Shape(s) && forall i | 0 <= i < |s.clients| :: One(s, i, size)
  }

  // ----------------------------------------------------------------- every step

  // Two states in which client i sees the same
  ghost predicate SameFor(s: State, t: State, i: nat)
    requires i < |s.clients| && i < |t.clients|
  {
    && t.clients[i] == s.clients[i]
    && CommandsOf(t.io, i) == CommandsOf(s.io, i) && RepliesOf(t.server, i) == RepliesOf(s.server, i)
    && SlotOf(t.slots, t.clients[i]) == SlotOf(s.slots, s.clients[i])
    && FileOf(t.files, t.clients[i]) == FileOf(s.files, s.clients[i])
  }

  // It is enough to look at the client a step is about
  lemma OthersKeep(s: State, t: State, j: nat, size: nat)
    requires Inv(s, size) && Shape(t) && |t.clients| == |s.clients|
    requires forall i | 0 <= i < |s.clients| && i != j :: SameFor(s, t, i)
    requires j < |t.clients| ==> One(t, j, size)
    ensures Inv(t, size)
  {
    hide ClientOk, Shape, CommandsOf, RepliesOf, SlotOf, FileOf;
    forall i | 0 <= i < |t.clients|
      ensures One(t, i, size)
    {
      if i != j {
        assert SameFor(s, t, i) && One(s, i, size);
      }
    }
  }

  lemma BeginKeeps(s: State, i: nat, task: Task, lim: Limits)
    requires Inv(s, lim.buffer)
    ensures Inv(DoBegin(s, i, task, lim), lim.buffer)
  {
    hide CommandsOf, RepliesOf;
    var t := DoBegin(s, i, task, lim);
    if t != s {
      assert One(s, i, lim.buffer);
      OthersKeep(s, t, i, lim.buffer);
    }
  }

  lemma StartKeeps(s: State, i: nat, lim: Limits)
    requires Inv(s, lim.buffer)
    ensures Inv(DoStartReading(s, i, lim), lim.buffer)
  {
    hide CommandsOf, RepliesOf, FileOf;
    var t := DoStartReading(s, i, lim);
    if t != s {
      var c := ReadFile(i, s.clients[i].task.name);
      forall j ensures CommandsOf(t.io, j) == CommandsOf(s.io, j) + (if j == i then [c] else []) {
        CommandsAppend(s.io, c, j);
      }
      assert One(s, i, lim.buffer);
      assert FileOf(t.files, t.clients[i]) == FileOf(s.files, s.clients[i]) by {
        FileOfTask(s.files, t.clients[i], s.clients[i]);
      }
      OthersKeep(s, t, i, lim.buffer);
    }
  }

  lemma FileOfTask(files: map<string, seq<byte>>, c: Client, d: Client)
    requires c.task == d.task
    ensures FileOf(files, c) == FileOf(files, d)
  {
  }

  lemma {:induction false} AppliedAppend(file: seq<byte>, commands: seq<Command>, c: Command)
    requires c.WriteFile?
    ensures Applied(file, commands + [c]) == Written(Applied(file, commands), c.append, c.data)
    decreases |commands|
  {
    hide Written;
    if commands == [] {
      assert [c][1..] == [];
    } else {
      assert (commands + [c])[0] == commands[0] && (commands + [c])[1..] == commands[1..] + [c];
      var f := if commands[0].WriteFile? then Written(file, commands[0].append, commands[0].data) else file;
      AppliedAppend(f, commands[1..], c);
    }
  }

  // A chunk that is kept in the store buffer
  lemma ChunkKept(c: Client, commands: seq<Command>, replies: seq<Reply>, slot: Slot, file: seq<byte>,
                  i: nat, size: nat, chunk: seq<byte>)
    requires c.task.Store? && !c.eofSent && StoreOk(c, commands, replies, slot, file, i, size)
    requires chunk != [] && |c.buffer + chunk| < size
    ensures StoreOk(c.(buffer := c.buffer + chunk, received := c.received + chunk), commands, replies, slot, file, i, size)
  {
    hide Applied, PlainWrites;
    assert Applied(file, commands) + (c.buffer + chunk) == (Applied(file, commands) + c.buffer) + chunk;
    assert c.before + (c.received + chunk) == (c.before + c.received) + chunk;
  }

  // What has been received goes to the file in the right place
  lemma SentOn(c: Client, commands: seq<Command>, file: seq<byte>, chunk: seq<byte>, w: Command)
    requires c.task.Store?
    requires w.WriteFile? && w.append == c.isAppend && w.data == c.buffer + chunk
    requires c.isAppend ==> Applied(file, commands) + c.buffer == Target(c)
    requires c.isAppend && !c.task.append ==> c.received != []
    requires !c.isAppend ==> commands == [] && !c.task.append && c.buffer == c.received && file == c.before
    ensures Applied(file, commands + [w]) == Target(c.(received := c.received + chunk))
  {
    AppliedAppend(file, commands, w);
    if c.isAppend {
      assert Applied(file, commands) + (c.buffer + chunk) == (Applied(file, commands) + c.buffer) + chunk;
      assert c.before + (c.received + chunk) == (c.before + c.received) + chunk;
      assert [] + (c.received + chunk) == ([] + c.received) + chunk;
    }
  }

  lemma ChunkSent(c: Client, commands: seq<Command>, replies: seq<Reply>, slot: Slot, file: seq<byte>,
                  i: nat, size: nat, chunk: seq<byte>)
    requires c.task.Store? && !c.eofSent && StoreOk(c, commands, replies, slot, file, i, size)
    requires chunk == [] || |c.buffer + chunk| >= size
    ensures var w := WriteFile(i, c.task.name, c.isAppend, chunk == [], c.buffer + chunk);
            StoreOk(c.(isAppend := true, buffer := [], received := c.received + chunk, eofSent := chunk == []),
                    commands + [w], replies, slot, file, i, size)
  {
    hide Applied, Target;
    var w := WriteFile(i, c.task.name, c.isAppend, chunk == [], c.buffer + chunk);
    var d := c.(isAppend := true, buffer := [], received := c.received + chunk, eofSent := chunk == []);
    SentOn(c, commands, file, chunk, w);
    assert Target(d) == Target(c.(received := c.received + chunk)) by { SameTarget(d, c.(received := c.received + chunk)); }
    assert (commands + [w])[..|commands|] == commands;
    assert Applied(file, commands + [w]) + [] == Applied(file, commands + [w]);
  }

  lemma SameTarget(c: Client, d: Client)
    requires c.task.Store? && c.task == d.task && c.before == d.before && c.received == d.received
    ensures Target(c) == Target(d)
  {
  }

  lemma ReceiveKeeps(s: State, i: nat, chunk: seq<byte>, lim: Limits)
    requires Inv(s, lim.buffer)
    ensures Inv(DoReceive(s, i, chunk, lim), lim.buffer)
  {
    hide CommandsOf, RepliesOf, StoreOk, SlotOf;
    var t := DoReceive(s, i, chunk, lim);
    if t != s {
      assert One(s, i, lim.buffer);
      var c := s.clients[i];
      var slot := SlotOf(s.slots, c);
      assert SlotOf(t.slots, t.clients[i]) == slot by { SlotOfSlot(s.slots, c, t.clients[i]); }
      if chunk != [] && |c.buffer + chunk| < lim.buffer {
        ChunkKept(c, CommandsOf(s.io, i), RepliesOf(s.server, i), slot, FileOf(s.files, c), i, lim.buffer, chunk);
      } else {
        var w := WriteFile(i, c.task.name, c.isAppend, chunk == [], c.buffer + chunk);
        forall j ensures CommandsOf(t.io, j) == CommandsOf(s.io, j) + (if j == i then [w] else []) {
          CommandsAppend(s.io, w, j);
        }
        ChunkSent(c, CommandsOf(s.io, i), RepliesOf(s.server, i), slot, FileOf(s.files, c), i, lim.buffer, chunk);
      }
      OthersKeep(s, t, i, lim.buffer);
    }
  }

  lemma SlotOfSlot(slots: seq<Slot>, c: Client, d: Client)
    requires c.slot == d.slot
    ensures SlotOf(slots, c) == SlotOf(slots, d)
  {
  }

  lemma {:induction false} DataAppend(replies: seq<Reply>, r: Reply)
    requires r.ReadDone?
    ensures DataOf(replies + [r]) == DataOf(replies) + r.data
  {
    if replies == [] {
      assert [r][1..] == [] && r.data + [] == r.data;
    } else {
      var longer := replies + [r];
      assert longer[0] == replies[0] && longer[1..] == replies[1..] + [r];
      DataAppend(replies[1..], r);
      var head := if replies[0].ReadDone? then replies[0].data else [];
      assert head + (DataOf(replies[1..]) + r.data) == (head + DataOf(replies[1..])) + r.data;
    }
  }

  // The next piece of the file goes behind what is on its way; a short one is the last
  lemma PieceRead(c: Client, d: Client, replies: seq<Reply>, slot: Slot, file: seq<byte>, i: nat, size: nat)
    requires d == c.(slot := d.slot)
    requires c.task.Retrieve? && slot.Used? && file == c.before && 0 < size
    requires RetrieveOk(c, [], replies, slot, i)
    ensures var data := Loaded(file, slot.offset, size);
            var eof := |data| < size;
            RetrieveOk(d, [], replies + [ReadDone(i, false, eof, data)],
                       if eof then Unused else slot.(offset := slot.offset + |data|), i)
  {
    hide DataOf, Loaded;
    var data := Loaded(file, slot.offset, size);
    var r := ReadDone(i, false, |data| < size, data);
    DataAppend(replies, r);
    LoadedNext(file, c.sent + DataOf(replies), size);
    BytesAssoc(c.sent, DataOf(replies), data);
    assert (replies + [r])[..|replies|] == replies;
  }

  // What is loaded next continues the file, to its end when it is short.
  lemma LoadedNext(file: seq<byte>, front: seq<byte>, size: nat)
    requires front <= file && 0 < size
    ensures var data := Loaded(file, |front|, size); front + data <= file && (|data| < size ==> front + data == file)
  {
    var data := Loaded(file, |front|, size);
    assert front + file[|front|..] == file;
    assert file[|front|..][..|data|] == data;
  }

  lemma BytesAssoc(r: seq<byte>, s: seq<byte>, t: seq<byte>)
    ensures (r + s) + t == r + (s + t)
  {
  }

  lemma ReadSlotKeeps(s: State, k: nat, lim: Limits)
    requires Inv(s, lim.buffer)
    ensures Inv(DoReadSlot(s, k, lim), lim.buffer)
  {
    hide CommandsOf, RepliesOf, RetrieveOk, StoreOk, Loaded;
    var t := DoReadSlot(s, k, lim);
    if t != s {
      var slot := s.slots[k];
      var i := slot.client;
      assert One(s, i, lim.buffer);
      var c := s.clients[i];
      UsedRetrieves(c, CommandsOf(s.io, i), RepliesOf(s.server, i), slot, FileOf(s.files, c), i, lim.buffer);
      PieceRead(c, t.clients[i], RepliesOf(s.server, i), slot, FileOf(s.files, c), i, lim.buffer);
      var data := Loaded(Content(s.files, slot.name), slot.offset, lim.buffer);
      var r := ReadDone(i, false, |data| < lim.buffer, data);
      forall j ensures RepliesOf(t.server, j) == RepliesOf(s.server, j) + (if j == i then [r] else []) {
        RepliesAppend(s.server, r, j);
      }
      assert CommandsOf(t.io, i) == [];
      assert One(t, i, lim.buffer);
      OthersKeep(s, t, i, lim.buffer);
    }
  }

  // A slot in use is of a client that retrieves a file
  lemma UsedRetrieves(c: Client, commands: seq<Command>, replies: seq<Reply>, slot: Slot, file: seq<byte>,
                      i: nat, size: nat)
    requires ClientOk(c, commands, replies, slot, file, i, size) && slot.Used?
    ensures c.task.Retrieve? && c.started && commands == [] && slot.client == i && slot.name == c.task.name
    ensures file == c.before
  {
  }

  // -------------------------------------------------------- there is always a slot

  function Elements(q: seq<nat>): (r: set<nat>)
    ensures forall x :: x in r <==> x in q
  {
    if q == [] then {} else Elements(q[..|q| - 1]) + {q[|q| - 1]}
  }

  lemma {:induction false} DistinctSize(q: seq<nat>)
    requires forall i, j | 0 <= i < j < |q| :: q[i] != q[j]
    ensures |Elements(q)| == |q|
  {
    if q != [] {
      DistinctSize(q[..|q| - 1]);
    }
  }

  lemma {:induction false} SizeBelow(r: set<nat>, n: nat)
    requires forall x | x in r :: x < n
    ensures |r| <= n
  {
    if n == 0 {
      assert r == {};
    } else {
      SizeBelow(r - {n - 1}, n - 1);
      assert r <= (r - {n - 1}) + {n - 1};
    }
  }

  // As many slots as clients, one slot to a client at most: when a client has none,
  // one is free
  lemma SlotFree(slots: seq<Slot>, clients: seq<Client>, i: nat)
    requires SlotsOk(slots, clients) && i < |clients| && clients[i].slot == None
    ensures FreeSlot(slots) < |slots|
  {
    hide Elements;
    if FreeSlot(slots) == |slots| {
      var owners := Owners(slots);
      forall k, l | 0 <= k < l < |owners| + 1
        ensures (owners + [i])[k] != (owners + [i])[l]
      {
        assert slots[k].Used? && (l < |slots| ==> slots[l].Used?);
      }
      DistinctSize(owners + [i]);
      SizeBelow(Elements(owners + [i]), |clients|);
    }
  }

  function Owners(slots: seq<Slot>): (q: seq<nat>)
    requires forall k | 0 <= k < |slots| :: slots[k].Used?
    ensures |q| == |slots| && forall k | 0 <= k < |slots| :: q[k] == slots[k].client
  {
    if slots == [] then [] else [slots[0].client] + Owners(slots[1..])
  }

  lemma RegisterKeeps(s: State, i: nat, name: string, lim: Limits)
    requires Inv(s, lim.buffer) && s.io != [] && s.io[0] == ReadFile(i, name)
    ensures Inv(DoRegister(s, i, name), lim.buffer)
    ensures FreeSlot(s.slots) < |s.slots|
  {
    hide CommandsOf, RepliesOf, RetrieveOk, StoreOk, FreeSlot;
    CommandsFirst(s.io, i);
    assert s.io[0] in s.io;
    assert One(s, i, lim.buffer);
    var c := s.clients[i];
    ReadAsked(c, CommandsOf(s.io, i), RepliesOf(s.server, i), SlotOf(s.slots, c), FileOf(s.files, c), i, lim.buffer, name);
    SlotFree(s.slots, s.clients, i);
    var t := DoRegister(s, i, name);
    forall j ensures CommandsOf(t.io, j) == if j == i then CommandsOf(s.io, j)[1..] else CommandsOf(s.io, j) {
      CommandsFirst(s.io, j);
    }
    assert One(t, i, lim.buffer) by {
      Registered(c, t.clients[i], i, name, FileOf(t.files, t.clients[i]));
    }
    OthersKeep(s, t, i, lim.buffer);
  }

  lemma CommandsFirst(io: seq<Command>, j: nat)
    requires io != []
    ensures io[0].client == j ==>
              && CommandsOf(io, j) != [] && CommandsOf(io, j)[0] == io[0]
              && CommandsOf(io[1..], j) == CommandsOf(io, j)[1..]
    ensures io[0].client != j ==> CommandsOf(io[1..], j) == CommandsOf(io, j)
  {
  }

  lemma ReadAsked(c: Client, commands: seq<Command>, replies: seq<Reply>, slot: Slot, file: seq<byte>,
                  i: nat, size: nat, name: string)
    requires ClientOk(c, commands, replies, slot, file, i, size)
    requires commands != [] && commands[0] == ReadFile(i, name)
    ensures c.task.Retrieve? && c.task.name == name && c.started && c.sent == [] && commands[1..] == []
    ensures replies == [] && slot.Unused? && file == c.before
  {
  }

  lemma Registered(c: Client, d: Client, i: nat, name: string, file: seq<byte>)
    requires c.task.Retrieve? && c.task.name == name && c.started && c.sent == [] && d == c.(slot := d.slot)
    ensures RetrieveOk(d, [], [], Used(i, name, 0), i)
  {
  }

  // ------------------------------------------------------------------- completion

  lemma CommandDone(c: Client, commands: seq<Command>, replies: seq<Reply>, slot: Slot, file: seq<byte>,
                    i: nat, size: nat)
    requires c.task.Store? && StoreOk(c, commands, replies, slot, file, i, size)
    requires commands != [] && commands[0].WriteFile?
    ensures var w := commands[0];
            StoreOk(c, commands[1..], if w.eof then replies + [WriteDone(i, false)] else replies, slot,
                    Written(file, w.append, w.data), i, size)
  {
    hide Written, Target;
    var w := commands[0];
    if c.eofSent && |commands| > 1 {
      assert w == commands[..|commands| - 1][0];
      assert w in commands[..|commands| - 1];
      assert commands[1..][..|commands| - 2] == commands[..|commands| - 1][1..];
    } else if !c.eofSent {
      assert w in commands;
    }
  }

  lemma WriteAsked(c: Client, commands: seq<Command>, replies: seq<Reply>, slot: Slot, file: seq<byte>,
                   i: nat, size: nat)
    requires ClientOk(c, commands, replies, slot, file, i, size)
    requires commands != [] && commands[0].WriteFile?
    ensures c.task.Store? && commands[0].name == c.task.name
  {
    if c.task.Store? && |commands| > 1 {
      assert commands[0] == commands[..|commands| - 1][0];
      assert commands[0] in commands[..|commands| - 1] && commands[0] in commands;
    } else {
      assert commands[0] in commands;
    }
  }

  lemma WrittenFile(s: State, c: Client, w: Command)
    requires w.WriteFile? && c.task.Store? && c.task.name == w.name
    ensures var files := if w.data == [] then s.files
                         else s.files[w.name := Written(Content(s.files, w.name), w.append, w.data)];
            FileOf(files, c) == Written(FileOf(s.files, c), w.append, w.data)
  {
  }

  lemma WriteKeeps(s: State, lim: Limits)
    requires Inv(s, lim.buffer) && s.io != [] && s.io[0].WriteFile?
    ensures Inv(DoWrite(s, s.io[0]), lim.buffer)
  {
    hide CommandsOf, RepliesOf, RetrieveOk, StoreOk, Written;
    var t := DoWrite(s, s.io[0]);
    {
      var w := s.io[0];
      var i := w.client;
      assert w in s.io;
      assert One(s, i, lim.buffer);
      var c := s.clients[i];
      CommandsFirst(s.io, i);
      WriteAsked(c, CommandsOf(s.io, i), RepliesOf(s.server, i), SlotOf(s.slots, c), FileOf(s.files, c), i, lim.buffer);
      CommandDone(c, CommandsOf(s.io, i), RepliesOf(s.server, i), SlotOf(s.slots, c), FileOf(s.files, c), i, lim.buffer);
      forall j ensures CommandsOf(t.io, j) == if j == i then CommandsOf(s.io, j)[1..] else CommandsOf(s.io, j) {
        CommandsFirst(s.io, j);
      }
      forall j
        ensures RepliesOf(t.server, j) ==
                if w.eof && j == i then RepliesOf(s.server, j) + [WriteDone(i, false)] else RepliesOf(s.server, j)
      {
        RepliesAppend(s.server, WriteDone(i, false), j);
      }
      WrittenFile(s, c, w);
      assert One(t, i, lim.buffer);
      OthersKeep(s, t, i, lim.buffer);
    }
  }

  // What a client is promised of a completed transfer
  ghost predicate Delivered(r: Record) {
    && r.ok
    && match r.transfer.task
       case Nothing => false
       case Retrieve(_) => r.transfer.sent == r.transfer.before == r.after
       case Store(_, _) => r.after == Target(r.transfer)
  }

  lemma PieceSent(c: Client, commands: seq<Command>, replies: seq<Reply>, slot: Slot, file: seq<byte>,
                  i: nat, size: nat)
    requires ClientOk(c, commands, replies, slot, file, i, size)
    requires replies != [] && replies[0].ReadDone?
    ensures var r := replies[0];
            var d := c.(sent := c.sent + r.data);
            && c.task.Retrieve? && !r.error && commands == []
            && (!r.eof ==> ClientOk(d, commands, replies[1..], slot, file, i, size))
            && (r.eof ==> replies[1..] == [] && slot.Unused? && Delivered(Record(i, true, d, file)))
  {
    var r := replies[0];
    assert (c.sent + r.data) + DataOf(replies[1..]) == c.sent + (r.data + DataOf(replies[1..]));
    assert r in replies;
    if |replies| > 1 {
      assert replies[..|replies| - 1][0] == r && r in replies[..|replies| - 1];
      assert replies[1..][..|replies| - 2] == replies[..|replies| - 1][1..];
    } else {
      assert DataOf(replies[1..]) == [];
    }
  }

  lemma StoreDone(c: Client, commands: seq<Command>, replies: seq<Reply>, slot: Slot, file: seq<byte>,
                  i: nat, size: nat)
    requires ClientOk(c, commands, replies, slot, file, i, size)
    requires replies != [] && replies[0].WriteDone?
    ensures c.task.Store? && !replies[0].error && commands == [] && replies[1..] == [] && slot.Unused?
    ensures Delivered(Record(i, true, c, file))
  {
    if c.task.Retrieve? {
      FirstRead(c, commands, replies, slot, i);
    }
  }

  lemma FirstRead(c: Client, commands: seq<Command>, replies: seq<Reply>, slot: Slot, i: nat)
    requires c.task.Retrieve? && replies != [] && RetrieveOk(c, commands, replies, slot, i)
    ensures replies[0].ReadDone?
  {
    assert replies[0] in replies;
    if |replies| > 1 {
      assert replies[..|replies| - 1][0] == replies[0];
      assert replies[0] in replies[..|replies| - 1];
    }
  }

  lemma RepliesFirst(server: seq<Reply>, j: nat)
    requires server != []
    ensures server[0].client == j ==>
              && RepliesOf(server, j) != [] && RepliesOf(server, j)[0] == server[0]
              && RepliesOf(server[1..], j) == RepliesOf(server, j)[1..]
    ensures server[0].client != j ==> RepliesOf(server[1..], j) == RepliesOf(server, j)
  {
  }

  lemma ReadReplyKeeps(s: State, size: nat)
    requires Inv(s, size) && s.server != [] && s.server[0].ReadDone? && s.server[0].client < |s.clients|
    ensures Inv(DoReply(s), size)
    ensures var t := DoReply(s);
            || t.log == s.log
            || (|t.log| == |s.log| + 1 && t.log[..|s.log|] == s.log && Delivered(t.log[|s.log|]))
  {
    hide CommandsOf, RepliesOf, RetrieveOk, StoreOk, Delivered, DataOf;
    var t, i := DoReply(s), s.server[0].client;
    assert One(s, i, size);
    var c := s.clients[i];
    RepliesFirst(s.server, i);
    PieceSent(c, CommandsOf(s.io, i), RepliesOf(s.server, i), SlotOf(s.slots, c), FileOf(s.files, c), i, size);
    forall j ensures RepliesOf(t.server, j) == if j == i then RepliesOf(s.server, j)[1..] else RepliesOf(s.server, j) {
      RepliesFirst(s.server, j);
    }
    assert One(t, i, size);
    OthersKeep(s, t, i, size);
  }

  lemma WriteReplyKeeps(s: State, size: nat)
    requires Inv(s, size) && s.server != [] && s.server[0].WriteDone? && s.server[0].client < |s.clients|
    ensures Inv(DoReply(s), size)
    ensures var t := DoReply(s); |t.log| == |s.log| + 1 && t.log[..|s.log|] == s.log && Delivered(t.log[|s.log|])
  {
    hide CommandsOf, RepliesOf, RetrieveOk, StoreOk, Delivered, DataOf;
    var t, i := DoReply(s), s.server[0].client;
    assert One(s, i, size);
    var c := s.clients[i];
    RepliesFirst(s.server, i);
    StoreDone(c, CommandsOf(s.io, i), RepliesOf(s.server, i), SlotOf(s.slots, c), FileOf(s.files, c), i, size);
    forall j ensures RepliesOf(t.server, j) == if j == i then RepliesOf(s.server, j)[1..] else RepliesOf(s.server, j) {
      RepliesFirst(s.server, j);
    }
    assert One(t, i, size);
    OthersKeep(s, t, i, size);
  }

  // ------------------------------------------------------------------------ runs

  ghost predicate AllDelivered(log: seq<Record>) {
    forall k | 0 <= k < |log| :: Delivered(log[k])
  }

  // Where the IO thread looks next concerns no client
  lemma NextKeeps(s: State, next: nat, size: nat)
    requires Inv(s, size)
    ensures Inv(s.(next := next), size)
  {
    hide ClientOk, CommandsOf, RepliesOf, SlotOf, FileOf, SlotsOk, TasksOk;
    forall i | 0 <= i < |s.clients|
      ensures One(s.(next := next), i, size)
    {
      assert One(s, i, size);
    }
  }

  lemma VisitKeeps(s: State, lim: Limits)
    requires Inv(s, lim.buffer)
    ensures Inv(DoVisitSlot(s, lim), lim.buffer) && DoVisitSlot(s, lim).log == s.log
  {
    hide Inv, Loaded;
    ReadSlotKeeps(s, s.next, lim);
    NextKeeps(DoReadSlot(s, s.next, lim), s.next + 1, lim.buffer);
  }

  lemma TakeCommandKeeps(s: State, lim: Limits)
    requires Inv(s, lim.buffer)
    ensures Inv(DoTakeCommand(s, lim), lim.buffer) && DoTakeCommand(s, lim).log == s.log
  {
    hide Inv, DoCommand;
    CommandKeeps(s, lim);
    NextKeeps(DoCommand(s), 0, lim.buffer);
  }

  lemma CommandKeeps(s: State, lim: Limits)
    requires Inv(s, lim.buffer)
    ensures Inv(DoCommand(s), lim.buffer) && DoCommand(s).log == s.log
  {
    hide Inv, FreeSlot, Written;
    if s.io != [] {
      match s.io[0] {
        case ReadFile(i, name) => RegisterKeeps(s, i, name, lim);
        case WriteFile(_, _, _, _, _) => WriteKeeps(s, lim);
      }
    }
  }

  lemma StepKeeps(s: State, e: Event, lim: Limits)
    requires Inv(s, lim.buffer)
    ensures Inv(Step(s, e, lim), lim.buffer)
    ensures AllDelivered(s.log) ==> AllDelivered(Step(s, e, lim).log)
  {
    hide Inv, Delivered, DoStartReading, DoReceive, DoVisitSlot, DoTakeCommand, DoReply;
    match e {
      case Begin(i, task) => BeginKeeps(s, i, task, lim);
      case StartReading(i) =>
        StartKeeps(s, i, lim);
        LogKept(s, e, lim);
      case Receive(i, chunk) =>
        ReceiveKeeps(s, i, chunk, lim);
        LogKept(s, e, lim);
      case VisitSlot => VisitKeeps(s, lim);
      case TakeCommand => TakeCommandKeeps(s, lim);
      case TakeReply => ReplyKeeps(s, lim.buffer);
    }
  }

  lemma LogKept(s: State, e: Event, lim: Limits)
    requires !e.TakeReply?
    ensures Step(s, e, lim).log == s.log
  {
  }

  lemma ReplyKeeps(s: State, size: nat)
    requires Inv(s, size)
    ensures Inv(DoReply(s), size)
    ensures AllDelivered(s.log) ==> AllDelivered(DoReply(s).log)
  {
    hide One, Delivered, DoReply;
    if s.server == [] {
      NoReply(s);
    } else {
      assert s.server[0] in s.server;
      var t := DoReply(s);
      if s.server[0].ReadDone? {
        ReadReplyKeeps(s, size);
      } else {
        WriteReplyKeeps(s, size);
      }
      forall k | 0 <= k < |t.log| && AllDelivered(s.log)
        ensures Delivered(t.log[k])
      {
        if k < |s.log| {
          assert Delivered(s.log[k]) && (t.log == s.log || t.log[..|s.log|][k] == s.log[k]);
        }
      }
    }
  }

  lemma NoReply(s: State)
    requires s.server == []
    ensures DoReply(s) == s
  {
  }

  lemma StartOk(clients: nat, files: map<string, seq<byte>>, size: nat)
    requires 0 < size
    ensures Inv(Start(clients, files), size)
  {
  }

  lemma {:induction false} RunKeeps(s: State, es: seq<Event>, lim: Limits)
    requires Inv(s, lim.buffer) && AllDelivered(s.log)
    ensures Inv(Run(s, es, lim), lim.buffer) && AllDelivered(Run(s, es, lim).log)
    decreases |es|
  {
    hide Inv, AllDelivered, Step;
    if es != [] {
      StepKeeps(s, es[0], lim);
      RunKeeps(Step(s, es[0], lim), es[1..], lim);
    }
  }

  // A queue holds what it can and at most one message more is waited for
  predicate Room(s: State, lim: Limits) {
    |s.io| <= lim.io + 1 && |s.server| <= lim.server + 1 && s.next <= |s.slots|
  }

  lemma StepRoom(s: State, e: Event, lim: Limits)
    requires Room(s, lim)
    ensures Room(Step(s, e, lim), lim)
  {
    hide Loaded, Content, FreeSlot, Written;
  }

  lemma {:induction false} RunRoom(s: State, es: seq<Event>, lim: Limits)
    requires Room(s, lim)
    ensures Room(Run(s, es, lim), lim)
    decreases |es|
  {
    hide Room, Step;
    if es != [] {
      StepRoom(s, es[0], lim);
      RunRoom(Step(s, es[0], lim), es[1..], lim);
    }
  }

  // However the clients and the two threads interleave: every completed transfer has
  // delivered its file; there is room in the store buffer at every receive; and a
  // slot is free for every read command; and each thread waits for one message at most
  lemma RunsDeliver(clients: nat, files: map<string, seq<byte>>, es: seq<Event>, lim: Limits)
    requires 0 < lim.buffer
    ensures var s := Run(Start(clients, files), es, lim);
            && AllDelivered(s.log)
            && (forall i | 0 <= i < |s.clients| && s.clients[i].task.Store? :: |s.clients[i].buffer| < lim.buffer)
            && (s.io != [] && s.io[0].ReadFile? ==> FreeSlot(s.slots) < |s.slots|)
            && |s.io| <= lim.io + 1 && |s.server| <= lim.server + 1 && s.next <= |s.slots|
  {
    hide Run, Start, FreeSlot, CommandsOf, RepliesOf, Delivered, Applied;
    StartOk(clients, files, lim.buffer);
    NothingLogged(clients, files);
    RunKeeps(Start(clients, files), es, lim);
    RunRoom(Start(clients, files), es, lim);
    var s := Run(Start(clients, files), es, lim);
    forall i | 0 <= i < |s.clients| && s.clients[i].task.Store?
      ensures |s.clients[i].buffer| < lim.buffer
    {
      assert One(s, i, lim.buffer);
    }
    if s.io != [] && s.io[0].ReadFile? {
      RegisterKeeps(s, s.io[0].client, s.io[0].name, lim);
    }
  }

  lemma NothingLogged(clients: nat, files: map<string, seq<byte>>)
    ensures Start(clients, files).log == []
    ensures forall lim :: Room(Start(clients, files), lim)
  {
  }

  // A store leaves what the command asks for exactly when there was data, or
  // nothing to replace
  lemma StoreAsAsked(r: Record)
    requires Delivered(r) && r.transfer.task.Store?
    ensures r.after == (if r.transfer.task.append then r.transfer.before else []) + r.transfer.received <==>
            r.transfer.received != [] || r.transfer.task.append || r.transfer.before == []
  {
    if r.transfer.received == [] {
      assert r.transfer.before + [] == r.transfer.before;
    }
  }

  lemma {:induction false} RunAppend(s: State, a: seq<Event>, b: seq<Event>, lim: Limits)
    ensures Run(s, a + b, lim) == Run(Run(s, a, lim), b, lim)
    decreases |a|
  {
    hide Step;
    if a == [] {
      assert a + b == b;
    } else {
      assert (a + b)[0] == a[0] && (a + b)[1..] == a[1..] + b;
      RunAppend(Step(s, a[0], lim), a[1..], b, lim);
    }
  }

  lemma RunOn(s: State, es: seq<Event>, e: Event, lim: Limits)
    ensures Run(s, es + [e], lim) == Step(Run(s, es, lim), e, lim)
  {
    hide Step;
    RunAppend(s, es, [e], lim);
    assert [e][1..] == [];
  }

  // --------------------------------------------------------------- one completion

  function Completions(log: seq<Record>, i: nat): nat {
    if log == [] then 0
    else Completions(log[..|log| - 1], i) + (if log[|log| - 1].client == i then 1 else 0)
  }

  function Active(s: State, i: nat): nat {
    if i < |s.clients| && !s.clients[i].task.Nothing? then 1 else 0
  }

  // The transfers of client i that a run accepts
  function Accepted(s: State, es: seq<Event>, i: nat, lim: Limits): nat
    decreases |es|
  {
    if es == [] then 0 else
    var t := Step(s, es[0], lim);
    (if es[0].Begin? && es[0].client == i && t != s then 1 else 0) + Accepted(t, es[1..], i, lim)
  }

  lemma TasksKept(s: State, e: Event, i: nat, lim: Limits)
    requires !e.Begin? && !e.TakeReply?
    ensures Active(Step(s, e, lim), i) == Active(s, i) && Step(s, e, lim).log == s.log
  {
    hide Put, FreeSlot, Loaded, Written, Content;
  }

  lemma ReplyCounts(s: State, i: nat, size: nat)
    requires Inv(s, size)
    ensures var t := DoReply(s);
            Completions(t.log, i) + Active(t, i) == Completions(s.log, i) + Active(s, i)
  {
    hide CommandsOf, RepliesOf, RetrieveOk, StoreOk, SlotOf, FileOf;
    if s.server != [] && s.server[0].client < |s.clients| {
      var j := s.server[0].client;
      RepliesFirst(s.server, j);
      assert One(s, j, size);
      assert !s.clients[j].task.Nothing?;
    }
  }

  lemma StepCounts(s: State, e: Event, i: nat, lim: Limits)
    requires Inv(s, lim.buffer)
    ensures var t := Step(s, e, lim);
            Completions(t.log, i) + Active(t, i) ==
            Completions(s.log, i) + Active(s, i) + (if e.Begin? && e.client == i && t != s then 1 else 0)
  {
    hide Inv, Completions, DoStartReading, DoReceive, DoVisitSlot, DoTakeCommand, DoReply;
    match e {
      case Begin(j, task) =>
      case TakeReply => ReplyCounts(s, i, lim.buffer);
      case _ => TasksKept(s, e, i, lim);
    }
  }

  // Each accepted transfer of each client is completed once, or still going on
  lemma {:induction false} OneCompletion(s: State, es: seq<Event>, i: nat, lim: Limits)
    requires Inv(s, lim.buffer) && AllDelivered(s.log)
    ensures var r := Run(s, es, lim);
            Completions(r.log, i) + Active(r, i) == Completions(s.log, i) + Active(s, i) + Accepted(s, es, i, lim)
    decreases |es|
  {
    hide Inv, AllDelivered, Step, Completions, Active;
    if es != [] {
      StepKeeps(s, es[0], lim);
      StepCounts(s, es[0], i, lim);
      OneCompletion(Step(s, es[0], lim), es[1..], i, lim);
    }
  }
}
