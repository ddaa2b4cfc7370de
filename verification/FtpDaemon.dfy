/** The handlers of source/ftp_daemon.c on the daemon's own data, which the steps of
    the transfer protocol are an abstraction of. */
module FtpDaemon {
  import opened Bits
  import opened FtpTransfer
  import opened Options
  import opened Queue

  // ---------------------------------------------------------------- message queues

  predicate Filled<T>(q: seq<Message<T>>) {
    forall k | 0 <= k < |q| :: q[k].data.Some?
  }

  function DataIn<T>(q: seq<Message<T>>): (r: seq<T>)
    requires Filled(q)
    ensures |r| == |q| && forall k | 0 <= k < |q| :: r[k] == q[k].data.value
  {
    if q == [] then [] else [q[0].data.value] + DataIn(q[1..])
  }

  lemma DataFront<T>(m: Message<T>, q: seq<Message<T>>)
    requires Filled([m] + q)
    ensures m.data.Some? && Filled(q) && DataIn([m] + q) == [m.data.value] + DataIn(q)
  {
    assert m == ([m] + q)[0];
    assert forall k | 0 <= k < |q| :: q[k] == ([m] + q)[k + 1];
    assert ([m] + q)[1..] == q;
  }

  lemma DataBack<T>(q: seq<Message<T>>, m: Message<T>)
    requires Filled(q) && m.data.Some?
    ensures Filled(q + [m]) && DataIn(q + [m]) == DataIn(q) + [m.data.value]
  {
    var r := DataIn(q + [m]);
    assert r == DataIn(q) + [m.data.value];
  }

  // A queue with the message whose sender waits in Util_queue_add for room
  class Channel<T> {
    const queue: Queue<T>
    var waiting: Option<Message<T>>

    ghost function Repr(): set<object> {
      {this, queue, queue.eventId, queue.data}
    }

    ghost predicate Valid()
      reads Repr()
    {
      && queue.Valid()
      && Filled(queue.Contents())
      && (waiting.Some? ==> waiting.value.data.Some? && |queue.Contents()| == queue.maxItems)
    }

    ghost function Items(): seq<T>
      requires Valid()
      reads Repr()
    {
      DataIn(queue.Contents()) + (if waiting.Some? then [waiting.value.data.value] else [])
    }

    constructor (max: nat)
      requires 0 < max
      ensures Valid() && fresh(Repr()) && queue.maxItems == max && Items() == [] && waiting == None
    {
      queue := new Queue(max);
      waiting := None;
    }

    lemma Waits()
      requires Valid()
      ensures waiting.Some? <==> |Items()| > queue.maxItems
    {
      queue.Bounded();
    }

    method Send(event: nat, x: T)
      requires Valid() && waiting == None
      modifies Repr()
      ensures Valid() && Items() == old(Items()) + [x]
    {
      hide Queue.Valid, Queue.Contents, DataIn;
      queue.Bounded();
      DataBack(queue.Contents(), Message(event, Some(x)));
      var status := queue.Add(event, Some(x), false, false);
      if status != Success {
        waiting := Some(Message(event, Some(x)));
      }
    }

    // The first message; a sender that waits can then put its own
    method Take() returns (x: Option<T>)
      requires Valid()
      modifies Repr()
      ensures Valid()
      ensures x == if old(Items()) == [] then None else Some(old(Items())[0])
      ensures Items() == if old(Items()) == [] then [] else old(Items())[1..]
    {
      hide Queue.Valid, Queue.Contents, DataIn;
      queue.Bounded();
      var status, event, item := queue.Get();
      if status != Success {
        return None;
      }
      DataFront(Message(event, item), queue.Contents());
      x := item;
      if waiting.Some? {
        AddWaiting();
      }
    }

    method AddWaiting()
      requires queue.Valid() && Filled(queue.Contents()) && |queue.Contents()| < queue.maxItems
      requires waiting.Some? && waiting.value.data.Some?
      modifies Repr()
      ensures Valid() && waiting == None
      ensures Items() == old(DataIn(queue.Contents())) + [old(waiting).value.data.value]
    {
      hide Queue.Valid, Queue.Contents, DataIn;
      DataBack(queue.Contents(), waiting.value);
      var status := queue.Add(waiting.value.event, waiting.value.data, false, false);
      waiting := None;
    }
  }

  // -------------------------------------------------------------------- read slots

  function SlotsOf(used: seq<bool>, client: seq<nat>, name: seq<string>, offset: seq<nat>): (r: seq<Slot>)
    requires |used| == |client| == |name| == |offset|
    ensures |r| == |used|
    ensures forall k | 0 <= k < |r| :: r[k] == if used[k] then Used(client[k], name[k], offset[k]) else Unused
  {
    if used == [] then [] else
    [if used[0] then Used(client[0], name[0], offset[0]) else Unused]
    + SlotsOf(used[1..], client[1..], name[1..], offset[1..])
  }

  // Ftpd_fs
  class ReadSlots {
    const isUsed: array<bool>
    const clientIndex: array<nat>
    const fileName: array<string>
    const offset: array<nat>

    ghost function Repr(): set<object> {
      {this, isUsed, clientIndex, fileName, offset}
    }

    ghost predicate Valid()
      reads Repr()
    {
      && clientIndex != offset
      && isUsed.Length == clientIndex.Length == fileName.Length == offset.Length
    }

    ghost function Slots(): (r: seq<Slot>)
      requires Valid()
      reads Repr()
      ensures |r| == isUsed.Length
    {
      SlotsOf(isUsed[..], clientIndex[..], fileName[..], offset[..])
    }

    constructor (n: nat)
      ensures Valid() && fresh(Repr()) && Slots() == seq(n, _ => Unused)
    {
      isUsed := new bool[n](_ => false);
      clientIndex := new nat[n](_ => 255);
      fileName := new string[n](_ => "");
      offset := new nat[n](_ => 0);
    }

    lemma SlotAt(k: nat)
      requires Valid() && k < |Slots()|
      ensures k < isUsed.Length == clientIndex.Length == fileName.Length == offset.Length
      ensures Slots()[k] == if isUsed[k] then Used(clientIndex[k], fileName[k], offset[k]) else Unused
    {
    }

    // Ftpd_read_state_clear
    method Clear(k: nat)
      requires Valid() && k < isUsed.Length
      modifies Repr()
      ensures Valid() && Slots() == old(Slots())[k := Unused]
    {
      isUsed[k], clientIndex[k], fileName[k], offset[k] := false, 255, "", 0;
    }

    method Register(k: nat, client: nat, name: string)
      requires Valid() && k < isUsed.Length
      modifies Repr()
      ensures Valid() && Slots() == old(Slots())[k := Used(client, name, 0)]
    {
      isUsed[k], clientIndex[k], offset[k] := true, client, 0;
      fileName[k] := name;
    }

    method Advance(k: nat, size: nat)
      requires Valid() && k < isUsed.Length && Slots()[k].Used?
      modifies Repr()
      ensures Valid() && Slots() == old(Slots())[k := old(Slots())[k].(offset := old(Slots())[k].offset + size)]
    {
      offset[k] := offset[k] + size;
    }

    // The search of Ftpd_io_process_cmd_read
    method FindFree() returns (index: nat)
      requires Valid()
      ensures index == FreeSlot(Slots())
    {
      index := 0;
      while index < isUsed.Length && isUsed[index]
        invariant index <= isUsed.Length && FreeSlot(Slots()) == index + FreeSlot(Slots()[index..])
      {
        assert Slots()[index..][1..] == Slots()[index + 1..];
        index := index + 1;
      }
    }
  }

  // ----------------------------------------------------------------------- clients

  // Ftp_client and its user data, one entry for each client
  class Clients {
    const size: nat
    const task: array<Task>
    const started: array<bool>
    const eofSent: array<bool>
    const isAppend: array<bool>
    const offset: array<nat>
    const buffer: seq<array<byte>>
    ghost var model: seq<Client>

    ghost function Repr(): set<object> {
      {this, task, started, eofSent, isAppend, offset} + (set b | b in buffer)
    }

    // The buffer of a client is its own
    ghost predicate OwnBuffers() {
      && started != eofSent && started != isAppend && eofSent != isAppend
      && (forall i | 0 <= i < |buffer| :: buffer[i].Length == size && buffer[i] as object != offset)
      && (forall i, j | 0 <= i < j < |buffer| :: buffer[i] != buffer[j])
    }

    ghost predicate Holds(c: Client, i: nat)
      requires i < task.Length == started.Length == eofSent.Length == isAppend.Length == offset.Length == |buffer|
      reads Repr()
    {
      && c.task == task[i] && c.started == started[i] && c.eofSent == eofSent[i] && c.isAppend == isAppend[i]
      && offset[i] <= buffer[i].Length && c.buffer == buffer[i][..offset[i]]
    }

    // What a task does not use is clear
    ghost predicate OnlyUsed(c: Client) {
      && (!c.task.Retrieve? ==> !c.started)
      && (!c.task.Store? ==> !c.eofSent && !c.isAppend && c.buffer == [])
    }

    ghost predicate Valid()
      reads Repr()
    {
      && |model| == task.Length == started.Length == eofSent.Length == isAppend.Length == offset.Length == |buffer|
      && OwnBuffers()
      && (forall i | 0 <= i < |model| :: Holds(model[i], i) && OnlyUsed(model[i]))
    }

    constructor (n: nat, size: nat)
      requires 0 < size
      ensures Valid() && fresh(Repr()) && this.size == size && model == seq(n, _ => IDLE)
    {
      var buffers := NewBuffers(n, size);
      this.size, buffer := size, buffers;
      task := new Task[n](_ => Nothing);
      started := new bool[n](_ => false);
      eofSent := new bool[n](_ => false);
      isAppend := new bool[n](_ => false);
      offset := new nat[n](_ => 0);
      model := seq(n, _ => IDLE);
    }

    static method NewBuffers(n: nat, size: nat) returns (buffers: seq<array<byte>>)
      ensures |buffers| == n && forall k | 0 <= k < n :: fresh(buffers[k]) && buffers[k].Length == size
      ensures forall j, k | 0 <= j < k < n :: buffers[j] != buffers[k]
    {
      buffers := [];
      while |buffers| < n
        invariant |buffers| <= n && forall k | 0 <= k < |buffers| :: fresh(buffers[k]) && buffers[k].Length == size
        invariant forall j, k | 0 <= j < k < |buffers| :: buffers[j] != buffers[k]
      {
        var b := new byte[size](_ => 0);
        buffers := buffers + [b];
      }
    }

    method MarkStarted(i: nat)
      requires Valid() && i < |model| && model[i].task.Retrieve?
      modifies Repr()
      ensures Valid() && model == old(model)[i := old(model)[i].(started := true)]
    {
      started[i] := true;
      model := model[i := model[i].(started := true)];
    }

    // A transfer of the client begins
    method Begin(i: nat, t: Task, ghost before: seq<byte>)
      requires Valid() && i < |model| && model[i].task.Nothing? && !t.Nothing?
      modifies Repr()
      ensures Valid()
      ensures model == old(model)[i := Client(t, false, false, t.Store? && t.append, [], before, [], [], None)]
    {
      task[i] := t;
      isAppend[i] := t.Store? && t.append;
      model := model[i := Client(t, false, false, t.Store? && t.append, [], before, [], [], None)];
    }

    // What is only told of a client and not kept by the daemon
    ghost method NoteSlot(i: nat, slot: Option<nat>)
      requires Valid()
      modifies this`model
      ensures Valid() && model == if i < |old(model)| then old(model)[i := old(model)[i].(slot := slot)] else old(model)
    {
      if i < |model| {
        model := model[i := model[i].(slot := slot)];
      }
    }

    ghost method NoteSent(i: nat, data: seq<byte>)
      requires Valid() && i < |model|
      modifies this`model
      ensures Valid() && model == old(model)[i := old(model)[i].(sent := old(model)[i].sent + data)]
    {
      model := model[i := model[i].(sent := model[i].sent + data)];
    }

    // The part of Ftpd_process_eof and the library's end of a command
    method Clear(i: nat)
      requires Valid() && i < |model|
      modifies Repr()
      ensures Valid() && model == old(model)[i := IDLE]
    {
      HoldsNow(i);
      if task[i].Store? {
        eofSent[i], isAppend[i], offset[i] := false, false, 0;
      } else if task[i].Retrieve? {
        started[i] := false;
      }
      task[i] := Nothing;
      model := model[i := IDLE];
    }

    // What the socket puts behind the bytes of client i already there
    method Copy(i: nat, chunk: seq<byte>)
      requires Valid() && i < |model| && offset[i] + |chunk| <= size
      modifies buffer[i]
      ensures buffer[i][..offset[i]] == old(buffer[i][..offset[i]])
      ensures buffer[i][..offset[i] + |chunk|] == old(buffer[i][..offset[i]]) + chunk
    {
      var b, start := buffer[i], offset[i];
      var k := 0;
      while k < |chunk|
        invariant 0 <= k <= |chunk|
        invariant b[..start + k] == old(b[..start]) + chunk[..k]
      {
        b[start + k] := chunk[k];
        k := k + 1;
      }
    }

    method Keep(i: nat, chunk: seq<byte>)
      requires Valid() && i < |model| && task[i].Store? && |chunk| <= size - offset[i]
      modifies Repr()
      ensures Valid()
      ensures var c := old(model)[i];
              model == old(model)[i := c.(buffer := c.buffer + chunk, received := c.received + chunk)]
    {
      Copy(i, chunk);
      offset[i] := offset[i] + |chunk|;
      model := model[i := model[i].(buffer := model[i].buffer + chunk, received := model[i].received + chunk)];
    }

    // The buffer is copied into a command, and whatever follows is appended
    method HandOver(i: nat, eof: bool) returns (sent: Command)
      requires Valid() && i < |model| && task[i].Store? && !eofSent[i]
      modifies Repr()
      ensures Valid()
      ensures var c := old(model)[i];
              && sent == WriteFile(i, c.task.name, c.isAppend, eof, c.buffer)
              && model == old(model)[i := c.(isAppend := true, buffer := [], eofSent := eof)]
    {
      HoldsNow(i);
      sent := WriteFile(i, task[i].name, isAppend[i], eof, buffer[i][..offset[i]]);
      isAppend[i], offset[i] := true, 0;
      if eof {
        eofSent[i] := true;
      }
      model := model[i := model[i].(isAppend := true, buffer := [], eofSent := eof)];
    }

    // Ftpd_process_stor_stou_appe_data on the client's own data: at most the room left
    // is received, and no bytes mean the end
    method Receive(i: nat, chunk: seq<byte>) returns (sent: Option<Command>)
      requires Valid() && i < |model| && task[i].Store? && !eofSent[i] && |chunk| <= size - offset[i]
      modifies Repr()
      ensures Valid()
      ensures var c := old(model)[i];
              var got := c.(buffer := c.buffer + chunk, received := c.received + chunk);
              if chunk != [] && |got.buffer| < size then sent == None && model == old(model)[i := got]
              else && sent == Some(WriteFile(i, c.task.name, c.isAppend, chunk == [], got.buffer))
                   && model == old(model)[i := got.(isAppend := true, buffer := [], eofSent := chunk == [])]
    {
      hide OwnBuffers, OnlyUsed;
      Keep(i, chunk);
      HoldsNow(i);
      sent := None;
      var eof := |chunk| == 0;
      if eof || size <= offset[i] {
        var command := HandOver(i, eof);
        sent := Some(command);
      }
    }

    lemma HoldsNow(i: nat)
      requires Valid() && i < |model|
      ensures |model| == task.Length == started.Length == eofSent.Length == isAppend.Length == offset.Length == |buffer|
      ensures Holds(model[i], i) && OnlyUsed(model[i]) && |model[i].buffer| == offset[i] <= size
    {
      assert Holds(model[i], i);
    }
  }

  // -------------------------------------------------------------------- the daemon

  ghost predicate Disjoint(a: set<object>, b: set<object>, c: set<object>, d: set<object>) {
    a !! b && a !! c && a !! d && b !! c && b !! d && c !! d
  }

  class Daemon {
    const lim: Limits
    const clients: Clients
    const io: Channel<Command>     // io_thread_queue
    const server: Channel<Reply>   // server_thread_queue
    const slots: ReadSlots
    var next: nat                  // the loop of Ftpd_io_process_read
    var files: map<string, seq<byte>>
    ghost var log: seq<Record>

    ghost function Repr(): set<object> {
      {this} + clients.Repr() + io.Repr() + server.Repr() + slots.Repr()
    }

    // The parts have nothing in common
    ghost predicate Parts() {
      && this !in clients.Repr() && this !in io.Repr() && this !in server.Repr() && this !in slots.Repr()
      && Disjoint(clients.Repr(), io.Repr(), server.Repr(), slots.Repr())
    }

    ghost predicate Valid()
      reads Repr()
    {
      && Parts() && 0 < lim.buffer == clients.size
      && clients.Valid() && io.Valid() && server.Valid() && slots.Valid()
      && io.queue.maxItems == lim.io && server.queue.maxItems == lim.server
    }

    ghost function Now(): State
      requires Valid()
      reads Repr()
    {
      State(clients.model, io.Items(), server.Items(), slots.Slots(), next, files, log)
    }

    constructor (lim: Limits, files: map<string, seq<byte>>,
                 clients: Clients, io: Channel<Command>, server: Channel<Reply>, slots: ReadSlots)
      requires 0 < lim.buffer == clients.size && io.queue.maxItems == lim.io && server.queue.maxItems == lim.server
      requires clients.Valid() && io.Valid() && server.Valid() && slots.Valid()
      requires Disjoint(clients.Repr(), io.Repr(), server.Repr(), slots.Repr())
      ensures Valid() && fresh(this) && this.lim == lim
      ensures Repr() == {this} + clients.Repr() + io.Repr() + server.Repr() + slots.Repr()
      ensures Now() == old(State(clients.model, io.Items(), server.Items(), slots.Slots(), 0, files, []))
    {
      hide Clients.Valid, Channel.Valid, Channel.Items, ReadSlots.Valid, ReadSlots.Slots, Disjoint;
      this.lim, this.files, log, next := lim, files, [], 0;
      this.clients, this.io, this.server, this.slots := clients, io, server, slots;
    }

    // A command is accepted and its data connection open
    method Accept(i: nat, t: Task)
      requires Valid() && !ServerWaits(Now(), lim) && i < |Now().clients| && Now().clients[i].task.Nothing?
      requires !t.Nothing? && MayBegin(Now(), t)
      modifies Repr()
      ensures Valid() && Now() == DoBegin(old(Now()), i, t, lim)
    {
      hide Clients.Valid, Channel.Valid, Channel.Items, ReadSlots.Valid, ReadSlots.Slots, MayBegin;
      clients.Begin(i, t, Content(files, t.name));
    }

    method SendCommand(event: nat, c: Command)
      requires Valid() && !ServerWaits(Now(), lim)
      modifies Repr()
      ensures Valid() && Now() == old(Now()).(io := old(Now()).io + [c])
    {
      hide Clients.Valid, Channel.Valid, Channel.Items, ReadSlots.Valid, ReadSlots.Slots;
      io.Waits();
      io.Send(event, c);
    }

    // Ftpd_process_retr_bof
    method RetrieveBegin(i: nat)
      requires Valid() && !ServerWaits(Now(), lim)
      requires i < |clients.model| && clients.model[i].task.Retrieve?
      modifies Repr()
      ensures Valid() && Now() == DoStartReading(old(Now()), i, lim)
    {
      hide Clients.Valid, Channel.Valid, Channel.Items, ReadSlots.Valid, ReadSlots.Slots;
      clients.HoldsNow(i);
      if !clients.started[i] {
        SendCommand(IO_CMD_READ, ReadFile(i, clients.task[i].name));
        clients.MarkStarted(i);
      }
    }

    // Ftpd_process_stor_stou_appe_data
    method StoreData(i: nat, chunk: seq<byte>)
      requires Valid() && !ServerWaits(Now(), lim)
      requires i < |clients.model| && clients.model[i].task.Store?
      requires |chunk| <= lim.buffer - |clients.model[i].buffer|
      modifies Repr()
      ensures Valid() && Now() == DoReceive(old(Now()), i, chunk, lim)
    {
      hide Clients.Valid, Channel.Valid, Channel.Items, ReadSlots.Valid, ReadSlots.Slots;
      clients.HoldsNow(i);
      if !clients.eofSent[i] {
        var sent := clients.Receive(i, chunk);
        if sent.Some? {
          SendCommand(IO_CMD_WRITE, sent.value);
        }
      }
    }

    method SendReply(event: nat, r: Reply)
      requires Valid() && !IoWaits(Now(), lim)
      modifies Repr()
      ensures Valid() && Now() == old(Now()).(server := old(Now()).server + [r])
    {
      hide Clients.Valid, Channel.Valid, Channel.Items, ReadSlots.Valid, ReadSlots.Slots;
      server.Waits();
      server.Send(event, r);
    }

    method SlotAdvanced(k: nat, size: nat)
      requires Valid() && k < |Now().slots| && Now().slots[k].Used?
      modifies Repr()
      ensures Valid()
      ensures var s := old(Now());
              Now() == s.(slots := s.slots[k := s.slots[k].(offset := s.slots[k].offset + size)])
    {
      hide Clients.Valid, Channel.Valid, Channel.Items, ReadSlots.Valid, ReadSlots.Slots;
      slots.SlotAt(k);
      slots.Advance(k, size);
    }

    method SlotCleared(k: nat)
      requires Valid() && k < |Now().slots| && Now().slots[k].Used?
      modifies Repr()
      ensures Valid()
      ensures var s := old(Now());
              var i := s.slots[k].client;
              Now() == s.(slots := s.slots[k := Unused],
                          clients := if i < |s.clients| then s.clients[i := s.clients[i].(slot := None)] else s.clients)
    {
      hide Clients.Valid, Channel.Valid, Channel.Items, ReadSlots.Valid, ReadSlots.Slots;
      ghost var i := Now().slots[k].client;
      slots.SlotAt(k);
      slots.Clear(k);
      clients.NoteSlot(i, None);
    }

    lemma SlotNow(k: nat)
      requires Valid() && k < |Now().slots|
      ensures k < slots.isUsed.Length == slots.clientIndex.Length == slots.fileName.Length == slots.offset.Length
      ensures Now().slots[k] == if slots.isUsed[k] then Used(slots.clientIndex[k], slots.fileName[k], slots.offset[k]) else Unused
      ensures Now().files == files && Now().next == next
    {
      slots.SlotAt(k);
    }

    // A turn of Ftpd_io_process_read: the next piece of the file, in order
    method ReadOne(k: nat)
      requires Valid() && !IoWaits(Now(), lim) && k < |Now().slots|
      modifies Repr()
      ensures Valid() && Now() == DoReadSlot(old(Now()), k, lim)
    {
      hide Daemon.Valid, Daemon.Now, Daemon.Repr, Loaded;
      SlotNow(k);
      if slots.isUsed[k] {
        var data := Loaded(Content(files, slots.fileName[k]), slots.offset[k], lim.buffer);
        var eof := |data| < lim.buffer;
        SendReply(IO_RES_READ, ReadDone(slots.clientIndex[k], false, eof, data));
        SlotAdvanced(k, |data|);
        if eof {
          SlotCleared(k);
        }
      }
    }

    lemma Threads()
      requires Valid()
      ensures server.waiting.Some? <==> IoWaits(Now(), lim)
      ensures io.waiting.Some? <==> ServerWaits(Now(), lim)
      ensures |Now().slots| == slots.isUsed.Length && Now().next == next
    {
      server.Waits();
      io.Waits();
    }

    method VisitOne()
      requires Valid() && !IoWaits(Now(), lim) && next < |Now().slots|
      modifies Repr()
      ensures Valid() && Now() == DoVisitSlot(old(Now()), lim) && next == old(next) + 1
    {
      hide Daemon.Valid, Daemon.Now, Daemon.Repr, DoReadSlot;
      Threads();
      var k := next;
      ReadOne(k);
      MoveTo(k + 1);
    }

    method MoveTo(k: nat)
      requires Valid()
      modifies Repr()
      ensures Valid() && Now() == old(Now()).(next := k) && next == k
    {
      next := k;
    }

    // Ftpd_io_process_read: every slot in turn, up to where the IO thread has to wait
    method ProcessRead()
      requires Valid() && next <= |Now().slots|
      modifies Repr()
      ensures Valid() && old(next) <= next <= |Now().slots|
      ensures Now() == Visits(old(Now()), next - old(next), lim)
      ensures IoWaits(Now(), lim) || next == |Now().slots|
    {
      hide Daemon.Valid, Daemon.Now, Daemon.Repr, DoVisitSlot, IoWaits;
      ghost var start, first := Now(), next;
      Threads();
      while server.waiting.None? && next < slots.isUsed.Length
        invariant Valid() && first <= next <= |Now().slots| == slots.isUsed.Length
        invariant Now() == Visits(start, next - first, lim)
        invariant server.waiting.Some? <==> IoWaits(Now(), lim)
        decreases slots.isUsed.Length - next
      {
        VisitOne();
        Threads();
      }
    }

    method TakeFirst() returns (c: Option<Command>)
      requires Valid()
      modifies Repr()
      ensures Valid()
      ensures var s := old(Now());
              if s.io == [] then c == None && Now() == s else c == Some(s.io[0]) && Now() == s.(io := s.io[1..])
    {
      hide Clients.Valid, Channel.Valid, Channel.Items, ReadSlots.Valid, ReadSlots.Slots;
      c := io.Take();
    }

    method SlotTaken(k: nat, i: nat, name: string)
      requires Valid() && k < |Now().slots|
      modifies Repr()
      ensures Valid()
      ensures var s := old(Now());
              Now() == s.(slots := s.slots[k := Used(i, name, 0)],
                          clients := if i < |s.clients| then s.clients[i := s.clients[i].(slot := Some(k))] else s.clients)
    {
      hide Clients.Valid, Channel.Valid, Channel.Items, ReadSlots.Valid, ReadSlots.Slots;
      slots.SlotAt(k);
      slots.Register(k, i, name);
      clients.NoteSlot(i, Some(k));
    }

    method FindSlot() returns (index: nat)
      requires Valid()
      ensures Valid() && Now() == old(Now()) && index == FreeSlot(Now().slots)
    {
      index := slots.FindFree();
    }

    // Ftpd_io_process_cmd_read: the first slot not in use, or an error
    method CommandRead(i: nat, name: string)
      requires Valid() && !IoWaits(Now(), lim)
      modifies Repr()
      ensures Valid()
      ensures var s := old(Now());
              var k := FreeSlot(s.slots);
              Now() == if k < |s.slots| then
                         s.(slots := s.slots[k := Used(i, name, 0)],
                            clients := if i < |s.clients| then s.clients[i := s.clients[i].(slot := Some(k))] else s.clients)
                       else s.(server := s.server + [ReadDone(i, true, false, [])])
    {
      hide Daemon.Valid, Daemon.Now, Daemon.Repr, FreeSlot;
      Threads();
      var index := FindSlot();
      if index < slots.isUsed.Length {
        SlotTaken(index, i, name);
      } else {
        SendReply(IO_RES_READ, ReadDone(i, true, false, []));
      }
    }

    // Ftpd_io_process_cmd_write
    method CommandWrite(c: Command)
      requires Valid() && !IoWaits(Now(), lim) && c.WriteFile?
      modifies Repr()
      ensures Valid()
      ensures var s := old(Now());
              var t := if c.data == [] then s
                       else s.(files := s.files[c.name := Written(Content(s.files, c.name), c.append, c.data)]);
              Now() == if c.eof then t.(server := s.server + [WriteDone(c.client, false)]) else t
    {
      hide Clients.Valid, Channel.Valid, Channel.Items, ReadSlots.Valid, ReadSlots.Slots;
      if |c.data| > 0 {
        var kept := if c.append then Content(files, c.name) else [];
        files := files[c.name := kept + c.data];
      }
      if c.eof {
        SendReply(IO_RES_WRITE, WriteDone(c.client, false));
      }
    }

    // The IO thread between two passes over the slots
    method ProcessCommand()
      requires Valid() && !IoWaits(Now(), lim) && next >= |Now().slots|
      modifies Repr()
      ensures Valid() && Now() == DoTakeCommand(old(Now()), lim)
    {
      hide Daemon.Valid, Daemon.Now, Daemon.Repr, FreeSlot, Written;
      Threads();
      var c := TakeFirst();
      if c.Some? {
        match c.value {
          case ReadFile(i, name) => CommandRead(i, name);
          case WriteFile(_, _, _, _, _) => CommandWrite(c.value);
        }
      }
      MoveTo(0);
    }

    method TakeReply() returns (r: Option<Reply>)
      requires Valid()
      modifies Repr()
      ensures Valid()
      ensures var s := old(Now());
              if s.server == [] then r == None && Now() == s
              else r == Some(s.server[0]) && Now() == s.(server := s.server[1..])
    {
      hide Clients.Valid, Channel.Valid, Channel.Items, ReadSlots.Valid, ReadSlots.Slots;
      r := server.Take();
    }

    // Ftpd_process_eof, with the answer to the client on record
    method Complete(i: nat, ok: bool)
      requires Valid() && i < |Now().clients|
      modifies Repr()
      ensures Valid() && Now() == DoComplete(old(Now()), i, ok)
    {
      hide Clients.Valid, Channel.Valid, Channel.Items, ReadSlots.Valid, ReadSlots.Slots;
      log := log + [Record(i, ok, clients.model[i], FileOf(files, clients.model[i]))];
      clients.Clear(i);
    }

    ghost method NoteSent(i: nat, data: seq<byte>)
      requires Valid() && i < |Now().clients|
      modifies Repr()
      ensures Valid()
      ensures var s := old(Now());
              Now() == s.(clients := s.clients[i := s.clients[i].(sent := s.clients[i].sent + data)])
    {
      hide Clients.Valid, Channel.Valid, Channel.Items, ReadSlots.Valid, ReadSlots.Slots;
      clients.NoteSent(i, data);
    }

    // Ftpd_process_res_read and Ftpd_process_res_write; the data goes to the client
    method ProcessReply() returns (to: Option<(nat, seq<byte>)>)
      requires Valid() && !ServerWaits(Now(), lim)
      modifies Repr()
      ensures Valid() && Now() == DoTakeReply(old(Now()), lim)
      ensures var s := old(Now());
              to == if s.server != [] && s.server[0].ReadDone? && s.server[0].client < |s.clients| && s.server[0].data != []
                    then Some((s.server[0].client, s.server[0].data)) else None
    {
      hide Daemon.Valid, Daemon.Now, Daemon.Repr, FileOf, DoComplete;
      to := None;
      Sizes();
      var r := TakeReply();
      if r.None? || r.value.client >= clients.task.Length {
        return;
      }
      var i := r.value.client;
      if r.value.ReadDone? {
        if |r.value.data| > 0 {
          to := Some((i, r.value.data));
        }
        NoteSent(i, r.value.data);
        if r.value.eof || r.value.error {
          Complete(i, !r.value.error);
        }
      } else {
        Complete(i, !r.value.error);
      }
    }

    lemma Sizes()
      requires Valid()
      ensures |Now().clients| == clients.task.Length
    {
    }
  }

  // Turns of the read loop
  function Visits(s: State, n: nat, lim: Limits): State {
    if n == 0 then s else DoVisitSlot(Visits(s, n - 1, lim), lim)
  }

  const IO_CMD_READ: nat := 0
  const IO_CMD_WRITE: nat := 1
  const IO_RES_READ: nat := 0
  const IO_RES_WRITE: nat := 1

  method NewQueues(lim: Limits) returns (io: Channel<Command>, server: Channel<Reply>)
    requires 0 < lim.io && 0 < lim.server
    ensures fresh(io.Repr()) && fresh(server.Repr()) && io.Repr() !! server.Repr()
    ensures io.Valid() && io.queue.maxItems == lim.io && io.Items() == []
    ensures server.Valid() && server.queue.maxItems == lim.server && server.Items() == []
  {
    hide Channel.Valid, Channel.Items;
    io := new Channel<Command>(lim.io);
    server := new Channel<Reply>(lim.server);
  }

  method NewParts(n: nat, lim: Limits) returns (clients: Clients, slots: ReadSlots)
    requires 0 < lim.buffer
    ensures fresh(clients.Repr()) && fresh(slots.Repr()) && clients.Repr() !! slots.Repr()
    ensures clients.Valid() && clients.size == lim.buffer && clients.model == seq(n, _ => IDLE)
    ensures slots.Valid() && slots.Slots() == seq(n, _ => Unused)
  {
    hide Clients.Valid, Clients.Repr, ReadSlots.Valid, ReadSlots.Slots;
    slots := new ReadSlots(n);
    clients := new Clients(n, lim.buffer);
  }

  // Ftpd_init and Ftpd_io_init: nothing on its way, no slot in use, no client
  method StartDaemon(n: nat, lim: Limits, files: map<string, seq<byte>>) returns (d: Daemon)
    requires 0 < lim.buffer && 0 < lim.io && 0 < lim.server
    ensures fresh(d) && d.Valid() && d.lim == lim && d.Now() == Start(n, files)
  {
    hide Clients.Valid, Clients.Repr, Channel.Valid, Channel.Items, ReadSlots.Valid, ReadSlots.Slots, ReadSlots.Repr,
      Daemon.Valid, Daemon.Now, Daemon.Repr;
    var io, server := NewQueues(lim);
    var clients, slots := NewParts(n, lim);
    d := new Daemon(lim, files, clients, io, server, slots);
  }
}
