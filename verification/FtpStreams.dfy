/** What the clients send and what the stores of source/ftp_daemon.c receive of
    it: each store has a stream of bytes, its socket hands them out in order, and
    says that it has ended when nothing is left. */
module FtpStreams {
  import opened Bits
  import opened FtpLoop
  import opened FtpTransfer
  import opened Options

  function Min(a: nat, b: nat): nat {
    if a <= b then a else b
  }

  predicate Storing(s: State, i: nat) {
    i < |s.clients| && s.clients[i].task.Store? && !s.clients[i].eofSent
  }

  // ---------------------------------------------------------------------- one chunk

  // Of a chunk on the socket the store takes what there is room for, no more and no
  // less; the end mark goes with an empty chunk alone, and a full buffer or the end
  // is sent on with all that is held.
  lemma DataTaken(s: State, i: nat, chunk: seq<byte>, size: nat)
    requires Storing(s, i) && |s.clients[i].buffer| < size
    ensures var c, t := s.clients[i], Served(s, Data(i, chunk), size);
            var n := Min(|chunk|, size - |c.buffer|);
            var held, full := c.buffer + chunk[..n], |c.buffer| + n == size;
            && t.clients == s.clients[i := c.(received := c.received + chunk[..n],
                                              eofSent := chunk == [],
                                              isAppend := c.isAppend || chunk == [] || full,
                                              buffer := if chunk == [] || full then [] else held)]
            && t.io == s.io + (if chunk == [] || full
                               then [WriteFile(i, c.task.name, c.isAppend, chunk == [], held)] else [])
            && t == s.(clients := t.clients, io := t.io)
  {
    var c := s.clients[i];
    if |chunk| > size - |c.buffer| {
      assert Fit(c, chunk, size) == chunk[..size - |c.buffer|];
    } else {
      assert chunk[..|chunk|] == chunk;
    }
    assert s.io + [] == s.io;
  }

  // ------------------------------------------------------------------------ streams

  // What is left on a socket behind the first n bytes
  function Behind(left: seq<byte>, n: nat): seq<byte> {
    if n <= |left| then left[n..] else []
  }

  // What the sockets have left after a move. The number-k transfer of client i has
  // the stream streams(i, k).
  function Left(l: Loop, left: seq<seq<byte>>, m: Move, streams: (nat, nat) -> seq<byte>, lim: Limits): seq<seq<byte>> {
    if !m.Serve? || ServerWaits(l.s, lim) || l.ready == [] then left
    else
      match l.ready[0]
      case Control(i, task, _) =>
        if i < |left| && task.Store? && MayCommand(l.s, i, task)
        then left[i := streams(i, Completions(l.s.log, i))] else left
      case Data(i, chunk) =>
        if i < |left| && Storing(l.s, i) && |l.s.clients[i].buffer| <= lim.buffer
        then left[i := Behind(left[i], Min(|chunk|, lim.buffer - |l.s.clients[i].buffer|))] else left
      case Connect(_) => left
  }

  // Before its first transfer a client sends nothing.
  function Silent(clients: nat): seq<seq<byte>> {
    seq(clients, _ => [])
  }

  // A socket has the next bytes of its stream, and its end when none is left.
  ghost predicate Honest(l: Loop, left: seq<seq<byte>>, m: Move, lim: Limits) {
    m.Serve? && !ServerWaits(l.s, lim) && l.ready != [] && l.ready[0].Data? && Storing(l.s, l.ready[0].client)
    && l.ready[0].client < |left| ==>
      var chunk, rest := l.ready[0].chunk, left[l.ready[0].client];
      chunk <= rest && (chunk == [] ==> rest == [])
  }

  // The sockets at the end of a run
  function Rest(l: Loop, left: seq<seq<byte>>, ms: seq<Move>, streams: (nat, nat) -> seq<byte>, lim: Limits): seq<seq<byte>>
    decreases |ms|
  {
    if ms == [] then left else Rest(Next(l, ms[0], lim), Left(l, left, ms[0], streams, lim), ms[1..], streams, lim)
  }

  ghost predicate AllHonest(l: Loop, left: seq<seq<byte>>, ms: seq<Move>, streams: (nat, nat) -> seq<byte>, lim: Limits)
    decreases |ms|
  {
    ms != [] ==>
      && Honest(l, left, ms[0], lim)
      && AllHonest(Next(l, ms[0], lim), Left(l, left, ms[0], streams, lim), ms[1..], streams, lim)
  }

  // --------------------------------------------------------------------- invariant

  // Nothing of a stream is lost, repeated or put elsewhere; behind the end mark
  // nothing is left of it.
  ghost predicate Flows(c: Client, left: seq<byte>, stream: seq<byte>) {
    c.task.Store? ==> c.received + left == stream && (c.eofSent ==> left == [])
  }

  ghost predicate AllFlow(s: State, left: seq<seq<byte>>, streams: (nat, nat) -> seq<byte>) {
    && |left| == |s.clients|
    && forall i | 0 <= i < |s.clients| :: Flows(s.clients[i], left[i], streams(i, Completions(s.log, i)))
  }

  // A record of a store holds the whole stream of its transfer.
  ghost predicate Whole(log: seq<Record>, k: nat, streams: (nat, nat) -> seq<byte>)
    requires k < |log|
  {
    log[k].transfer.task.Store? ==>
      log[k].transfer.received == streams(log[k].client, Completions(log[..k], log[k].client))
  }

  ghost predicate AllWhole(log: seq<Record>, streams: (nat, nat) -> seq<byte>) {
    forall k | 0 <= k < |log| :: Whole(log, k, streams)
  }

  // -------------------------------------------------------------------- every move

  // Steps that change nothing that flows
  lemma StillFlow(s: State, t: State, left: seq<seq<byte>>, streams: (nat, nat) -> seq<byte>)
    requires AllFlow(s, left, streams) && t.log == s.log && |t.clients| == |s.clients|
    requires forall i | 0 <= i < |s.clients| ::
               t.clients[i].task.Store? ==> t.clients[i].(slot := s.clients[i].slot) == s.clients[i]
    ensures AllFlow(t, left, streams)
  {
    hide Completions;
    forall i | 0 <= i < |t.clients|
      ensures Flows(t.clients[i], left[i], streams(i, Completions(t.log, i)))
    {
      assert Flows(s.clients[i], left[i], streams(i, Completions(s.log, i)));
    }
  }

  lemma ChunkFlows(s: State, i: nat, chunk: seq<byte>, left: seq<seq<byte>>, streams: (nat, nat) -> seq<byte>, size: nat)
    requires AllFlow(s, left, streams) && Storing(s, i) && |s.clients[i].buffer| < size
    requires chunk <= left[i] && (chunk == [] ==> left[i] == [])
    ensures var n := Min(|chunk|, size - |s.clients[i].buffer|);
            AllFlow(Served(s, Data(i, chunk), size), left[i := Behind(left[i], n)], streams)
  {
    hide Completions, Served;
    DataTaken(s, i, chunk, size);
    var c, t, n := s.clients[i], Served(s, Data(i, chunk), size), Min(|chunk|, size - |s.clients[i].buffer|);
    TakePrefix(c.received, chunk, left[i], n);
    forall j | 0 <= j < |t.clients|
      ensures Flows(t.clients[j], left[i := Behind(left[i], n)][j], streams(j, Completions(t.log, j)))
    {
      assert Flows(s.clients[j], left[j], streams(j, Completions(s.log, j)));
    }
  }

  lemma TakePrefix(received: seq<byte>, chunk: seq<byte>, left: seq<byte>, n: nat)
    requires chunk <= left && n <= |chunk|
    ensures (received + chunk[..n]) + Behind(left, n) == received + left
  {
    assert left[..n] == chunk[..n];
    assert left == left[..n] + left[n..];
  }

  lemma BeginFlows(s: State, i: nat, task: Task, left: seq<seq<byte>>, streams: (nat, nat) -> seq<byte>)
    requires AllFlow(s, left, streams) && MayCommand(s, i, task)
    ensures var left' := if task.Store? then left[i := streams(i, Completions(s.log, i))] else left;
            AllFlow(Begun(s, i, task), left', streams)
  {
    hide Completions, MayBegin, Content;
    var t, whole := Begun(s, i, task), streams(i, Completions(s.log, i));
    var left' := if task.Store? then left[i := whole] else left;
    assert [] + whole == whole;
    forall j | 0 <= j < |t.clients|
      ensures Flows(t.clients[j], left'[j], streams(j, Completions(t.log, j)))
    {
      assert Flows(s.clients[j], left[j], streams(j, Completions(s.log, j)));
    }
  }

  lemma AskedFlows(s: State, i: nat, left: seq<seq<byte>>, streams: (nat, nat) -> seq<byte>)
    requires AllFlow(s, left, streams)
    ensures AllFlow(Asked(s, i), left, streams) && Asked(s, i).log == s.log
  {
    hide AllFlow;
    StillFlow(s, Asked(s, i), left, streams);
  }

  // The buffer of a store has room.
  lemma RoomLeft(s: State, i: nat, size: nat)
    requires Inv(s, size) && Storing(s, i)
    ensures |s.clients[i].buffer| < size
  {
    hide CommandsOf, RepliesOf, SlotOf, FileOf, Shape;
    assert One(s, i, size);
  }

  lemma ServeFlows(l: Loop, left: seq<seq<byte>>, streams: (nat, nat) -> seq<byte>, lim: Limits)
    requires Good(l, lim) && AllFlow(l.s, left, streams) && !ServerWaits(l.s, lim) && l.ready != []
    requires Honest(l, left, Serve, lim)
    ensures AllFlow(Served(l.s, l.ready[0], lim.buffer), Left(l, left, Serve, streams, lim), streams)
    ensures Served(l.s, l.ready[0], lim.buffer).log == l.s.log
  {
    hide Inv, Room, AllDelivered, AllFlow, Completions, Asked, Begun, MayCommand, Behind, Fit;
    FlowSize(l.s, left, streams);
    ServedSends(l.s, l.ready[0], lim.buffer);
    match l.ready[0] {
      case Control(i, task, connected) =>
        if MayCommand(l.s, i, task) {
          MayIndex(l.s, i, task);
          BeginFlows(l.s, i, task, left, streams);
          AskedFlows(Begun(l.s, i, task), i, if task.Store? then left[i := streams(i, Completions(l.s.log, i))] else left, streams);
        }
      case Data(i, chunk) =>
        if Storing(l.s, i) {
          RoomLeft(l.s, i, lim.buffer);
          ChunkFlows(l.s, i, chunk, left, streams, lim.buffer);
        } else {
          assert Served(l.s, Data(i, chunk), lim.buffer) == l.s;
        }
      case Connect(i) => AskedFlows(l.s, i, left, streams);
    }
  }

  lemma FlowSize(s: State, left: seq<seq<byte>>, streams: (nat, nat) -> seq<byte>)
    requires AllFlow(s, left, streams)
    ensures |left| == |s.clients|
  {
  }

  lemma MayIndex(s: State, i: nat, task: Task)
    requires MayCommand(s, i, task)
    ensures i < |s.clients| && !task.Nothing?
  {
  }

  // A store is completed behind its end mark only.
  lemma DoneEnds(s: State, size: nat)
    requires Inv(s, size) && s.server != [] && s.server[0].client < |s.clients|
    ensures var c := s.clients[s.server[0].client];
            if s.server[0].WriteDone? then c.task.Store? && c.eofSent else c.task.Retrieve?
  {
    hide CommandsOf, RepliesOf, SlotOf, FileOf, Shape, DataOf, Applied, PlainWrites;
    var i := s.server[0].client;
    assert One(s, i, size);
    RepliesFirst(s.server, i);
    var c := s.clients[i];
    if c.task.Retrieve? {
      FirstRead(c, CommandsOf(s.io, i), RepliesOf(s.server, i), SlotOf(s.slots, c), i);
    }
  }

  lemma CompletionsOn(log: seq<Record>, r: Record, i: nat)
    ensures Completions(log + [r], i) == Completions(log, i) + (if r.client == i then 1 else 0)
  {
    assert (log + [r])[..|log|] == log;
  }

  lemma WholeOn(log: seq<Record>, r: Record, streams: (nat, nat) -> seq<byte>)
    requires AllWhole(log, streams)
    requires r.transfer.task.Store? ==> r.transfer.received == streams(r.client, Completions(log, r.client))
    ensures AllWhole(log + [r], streams)
  {
    hide Completions;
    forall k | 0 <= k < |log + [r]|
      ensures Whole(log + [r], k, streams)
    {
      if k < |log| {
        assert Whole(log, k, streams) && (log + [r])[..k] == log[..k];
      } else {
        assert (log + [r])[..k] == log;
      }
    }
  }

  // What a reply does to the clients and the record: nothing, one piece more sent,
  // or the completion
  lemma ReplyForms(s: State, size: nat)
    requires Inv(s, size)
    ensures var t := DoReply(s);
            && |t.clients| == |s.clients|
            && if t.log == s.log then
                 forall j | 0 <= j < |s.clients| ::
                   t.clients[j] == s.clients[j] || !t.clients[j].task.Store?
               else
                 && s.server != [] && s.server[0].client < |s.clients|
                 && var i := s.server[0].client;
                   && t.clients == s.clients[i := IDLE]
                   && |t.log| == |s.log| + 1 && t.log == s.log + [t.log[|s.log|]]
                   && t.log[|s.log|].client == i
                   && (t.log[|s.log|].transfer.task.Store? ==>
                         t.log[|s.log|].transfer == s.clients[i] && s.clients[i].eofSent)
  {
    hide Inv, FileOf;
    if s.server != [] && s.server[0].client < |s.clients| {
      DoneEnds(s, size);
    }
  }

  lemma ReplyFlows(s: State, left: seq<seq<byte>>, streams: (nat, nat) -> seq<byte>, size: nat)
    requires Inv(s, size) && AllFlow(s, left, streams) && AllWhole(s.log, streams)
    ensures AllFlow(DoReply(s), left, streams) && AllWhole(DoReply(s).log, streams)
  {
    hide Inv, DoReply, Completions, Whole, AllWhole;
    ReplyForms(s, size);
    var t := DoReply(s);
    if t.log == s.log {
      forall j | 0 <= j < |t.clients|
        ensures Flows(t.clients[j], left[j], streams(j, Completions(t.log, j)))
      {
        assert Flows(s.clients[j], left[j], streams(j, Completions(s.log, j)));
      }
    } else {
      var i, r := s.server[0].client, t.log[|s.log|];
      assert Flows(s.clients[i], left[i], streams(i, Completions(s.log, i)));
      if r.transfer.task.Store? {
        assert r.transfer.received + [] == r.transfer.received;
      }
      WholeOn(s.log, r, streams);
      forall j | 0 <= j < |t.clients|
        ensures Flows(t.clients[j], left[j], streams(j, Completions(t.log, j)))
      {
        CompletionsOn(s.log, r, j);
        assert Flows(s.clients[j], left[j], streams(j, Completions(s.log, j)));
      }
    }
  }

  lemma NextFlows(l: Loop, left: seq<seq<byte>>, m: Move, streams: (nat, nat) -> seq<byte>, lim: Limits)
    requires Good(l, lim) && AllFlow(l.s, left, streams) && AllWhole(l.s.log, streams) && Honest(l, left, m, lim)
    ensures var t := Next(l, m, lim).s;
            AllFlow(t, Left(l, left, m, streams, lim), streams) && AllWhole(t.log, streams)
  {
    hide Inv, Room, AllDelivered, AllFlow, AllWhole, Honest, Served, DoReply, DoVisitSlot, DoTakeCommand, MayCommand,
      Storing, Completions, Behind, Alike;
    match m {
      case Poll(_) =>
      case Serve =>
        if !ServerWaits(l.s, lim) && l.ready != [] {
          ServeFlows(l, left, streams, lim);
        }
      case EndRound => ReplyFlows(l.s, left, streams, lim.buffer);
      case Visit =>
        VisitAlike(l.s, lim);
        VisitKeeps(l.s, lim);
        AlikeFlows(l.s, DoVisitSlot(l.s, lim), left, streams);
      case Execute =>
        TakeAlike(l.s, lim);
        TakeCommandKeeps(l.s, lim);
        AlikeFlows(l.s, DoTakeCommand(l.s, lim), left, streams);
    }
  }

  lemma AlikeFlows(s: State, t: State, left: seq<seq<byte>>, streams: (nat, nat) -> seq<byte>)
    requires AllFlow(s, left, streams) && Alike(s, t) && t.log == s.log
    ensures AllFlow(t, left, streams)
  {
    hide AllFlow;
    StillFlow(s, t, left, streams);
  }

  lemma {:induction false} RunFlows(l: Loop, left: seq<seq<byte>>, ms: seq<Move>, streams: (nat, nat) -> seq<byte>,
                                    lim: Limits)
    requires Good(l, lim) && AllFlow(l.s, left, streams) && AllWhole(l.s.log, streams)
    requires AllHonest(l, left, ms, streams, lim)
    ensures var t := Go(l, ms, lim).s;
            AllFlow(t, Rest(l, left, ms, streams, lim), streams) && AllWhole(t.log, streams)
    decreases |ms|
  {
    hide Good, AllFlow, AllWhole, Honest, Next, Left;
    if ms != [] {
      NextFlows(l, left, ms[0], streams, lim);
      NextGood(l, ms[0], lim);
      RunFlows(Next(l, ms[0], lim), Left(l, left, ms[0], streams, lim), ms[1..], streams, lim);
    }
  }

  // ----------------------------------------------------------------- the whole stream

  // However the threads interleave and however the sockets hand out their streams:
  // a completed store has received its whole stream, and has left it in the file,
  // behind the old content if it appends or the stream is empty; while a store goes
  // on, what it has received and what is left make up its stream.
  lemma StoresWhole(clients: nat, files: map<string, seq<byte>>, streams: (nat, nat) -> seq<byte>, ms: seq<Move>,
                    lim: Limits)
    requires 0 < lim.buffer && AllHonest(Idle(clients, files), Silent(clients), ms, streams, lim)
    ensures var s := Go(Idle(clients, files), ms, lim).s;
            var rest := Rest(Idle(clients, files), Silent(clients), ms, streams, lim);
            && |rest| == |s.clients|
            && (forall k | 0 <= k < |s.log| && s.log[k].transfer.task.Store? ::
                  var r := s.log[k];
                  var stream := streams(r.client, Completions(s.log[..k], r.client));
                  && r.ok && r.transfer.received == stream
                  && r.after == (if r.transfer.task.append || stream == [] then r.transfer.before else []) + stream)
            && (forall i | 0 <= i < |s.clients| && s.clients[i].task.Store? ::
                  && s.clients[i].received + rest[i] == streams(i, Completions(s.log, i))
                  && (s.clients[i].eofSent ==> rest[i] == []))
  {
    hide Good, Go, Rest, AllHonest, Completions, Next, Left, Honest;
    var l, left := Idle(clients, files), Silent(clients);
    IdleGood(clients, files, lim);
    IdleFlows(clients, files, streams);
    RunFlows(l, left, ms, streams, lim);
    GoGood(l, ms, lim);
    var s, rest := Go(l, ms, lim).s, Rest(l, left, ms, streams, lim);
    GoodDelivers(Go(l, ms, lim), lim);
    forall k | 0 <= k < |s.log| && s.log[k].transfer.task.Store?
      ensures var r := s.log[k];
              var stream := streams(r.client, Completions(s.log[..k], r.client));
              && r.ok && r.transfer.received == stream
              && r.after == (if r.transfer.task.append || stream == [] then r.transfer.before else []) + stream
    {
      assert Whole(s.log, k, streams) && Delivered(s.log[k]);
    }
    forall i | 0 <= i < |s.clients| && s.clients[i].task.Store?
      ensures s.clients[i].received + rest[i] == streams(i, Completions(s.log, i)) && (s.clients[i].eofSent ==> rest[i] == [])
    {
      assert Flows(s.clients[i], rest[i], streams(i, Completions(s.log, i)));
    }
  }

  lemma IdleFlows(clients: nat, files: map<string, seq<byte>>, streams: (nat, nat) -> seq<byte>)
    ensures AllFlow(Idle(clients, files).s, Silent(clients), streams)
    ensures AllWhole(Idle(clients, files).s.log, streams)
  {
  }

  lemma GoodDelivers(l: Loop, lim: Limits)
    requires Good(l, lim)
    ensures AllDelivered(l.s.log)
  {
    hide Inv, Room, AllDelivered;
  }

  // ------------------------------------------------------------ every stream arrives

  lemma Prepend(l: Loop, left: seq<seq<byte>>, m: Move, ms: seq<Move>, streams: (nat, nat) -> seq<byte>, lim: Limits)
    requires Honest(l, left, m, lim) && AllHonest(Next(l, m, lim), Left(l, left, m, streams, lim), ms, streams, lim)
    ensures AllHonest(l, left, [m] + ms, streams, lim) && Go(l, [m] + ms, lim) == Go(Next(l, m, lim), ms, lim)
  {
    hide Honest, Next, Left;
    assert ([m] + ms)[1..] == ms;
  }

  // Between two rounds of a store, with nothing on its way
  ghost predicate Between(l: Loop, name: string, append: bool, received: seq<byte>, size: nat) {
    && l.ready == [] && !l.polled && |l.s.clients| == 1 && l.s.slots == [Unused] && l.s.next == 0
    && l.s.io == [] && l.s.server == [] && l.s.log == []
    && var c := l.s.clients[0];
      c.task == Store(name, append) && !c.eofSent && c.received == received && |c.buffer| < size
  }

  // In a round the socket has all that is left, and what there is room for is taken
  // and, if the buffer is full or nothing was left, sent on.
  lemma RoundServed(l: Loop, rest: seq<byte>, name: string, append: bool, received: seq<byte>, lim: Limits)
    returns (m: Loop)
    requires Between(l, name, append, received, lim.buffer)
    ensures var n := Min(|rest|, lim.buffer - |l.s.clients[0].buffer|);
            && m == Next(Next(l, Poll([Data(0, rest)]), lim), Serve, lim)
            && m.ready == [] && m.polled
            && |m.s.clients| == 1 && m.s.slots == [Unused] && m.s.next == 0 && m.s.server == [] && m.s.log == []
            && m.s.clients[0].task == Store(name, append) && |m.s.clients[0].buffer| < lim.buffer
            && m.s.clients[0].received == received + rest[..n] && (m.s.clients[0].eofSent <==> rest == [])
            && (m.s.io == [] || (|m.s.io| == 1 && m.s.io[0].WriteFile? && m.s.io[0].client == 0
                                 && (m.s.io[0].eof <==> rest == [])))
            && (rest == [] ==> m.s.io != [])
  {
    hide Served;
    DataTaken(l.s, 0, rest, lim.buffer);
    var k := Next(l, Poll([Data(0, rest)]), lim);
    assert k.ready[1..] == [];
    m := Next(k, Serve, lim);
  }

  // A visit, the command if there is one, and the end of the round
  lemma RoundEnded(m: Loop, lim: Limits)
    requires m.ready == [] && m.polled && |m.s.clients| == 1 && m.s.slots == [Unused] && m.s.next == 0
    requires m.s.server == [] && m.s.log == []
    requires m.s.io == [] || (|m.s.io| == 1 && m.s.io[0].WriteFile? && m.s.io[0].client == 0)
    ensures var l := Next(Next(Next(m, Visit, lim), Execute, lim), EndRound, lim);
            && l.ready == [] && !l.polled && l.s.io == [] && l.s.server == [] && l.s.slots == [Unused] && l.s.next == 0
            && if m.s.io != [] && m.s.io[0].eof then
                 |l.s.log| == 1 && l.s.log[0].client == 0 && l.s.log[0].ok && l.s.log[0].transfer == m.s.clients[0]
               else l.s.clients == m.s.clients && l.s.log == []
  {
    hide Written, Content, FileOf;
    var a := Next(m, Visit, lim);
    var b := Next(a, Execute, lim);
    assert b.s.io == [];
    assert Next(b, EndRound, lim).ready == [];
  }

  // What is left of a stream is received round by round.
  lemma {:induction false} RestArrives(l: Loop, rest: seq<byte>, name: string, append: bool, received: seq<byte>,
                                       streams: (nat, nat) -> seq<byte>, lim: Limits) returns (ms: seq<Move>)
    requires Between(l, name, append, received, lim.buffer)
    ensures AllHonest(l, [rest], ms, streams, lim)
    ensures var log := Go(l, ms, lim).s.log;
            |log| == 1 && log[0].client == 0 && log[0].ok && log[0].transfer.task == Store(name, append)
            && log[0].transfer.received == received + rest
    decreases |rest|
  {
    hide Go, AllHonest, Next, Left, Honest, Storing;
    var m := RoundServed(l, rest, name, append, received, lim);
    RoundEnded(m, lim);
    var k := Next(l, Poll([Data(0, rest)]), lim);
    var a := Next(m, Visit, lim);
    var b := Next(a, Execute, lim);
    var e := Next(b, EndRound, lim);
    var n := Min(|rest|, lim.buffer - |l.s.clients[0].buffer|);
    var left := [Behind(rest, n)];
    RoundHonest(l, rest, name, append, received, streams, lim);
    ms := [];
    if rest == [] {
      NoMoves(e, left, streams, lim);
    } else {
      assert rest == rest[..n] + rest[n..];
      assert (received + rest[..n]) + rest[n..] == received + rest;
      ms := RestArrives(e, rest[n..], name, append, received + rest[..n], streams, lim);
    }
    OtherHonest(b, left, EndRound, streams, lim);
    Prepend(b, left, EndRound, ms, streams, lim);
    OtherHonest(a, left, Execute, streams, lim);
    Prepend(a, left, Execute, [EndRound] + ms, streams, lim);
    OtherHonest(m, left, Visit, streams, lim);
    Prepend(m, left, Visit, [Execute] + ([EndRound] + ms), streams, lim);
    ms := [Visit] + ([Execute] + ([EndRound] + ms));
    Prepend(k, [rest], Serve, ms, streams, lim);
    OtherHonest(l, [rest], Poll([Data(0, rest)]), streams, lim);
    Prepend(l, [rest], Poll([Data(0, rest)]), [Serve] + ms, streams, lim);
    ms := [Poll([Data(0, rest)])] + ([Serve] + ms);
  }

  lemma NoMoves(l: Loop, left: seq<seq<byte>>, streams: (nat, nat) -> seq<byte>, lim: Limits)
    ensures AllHonest(l, left, [], streams, lim) && Go(l, [], lim) == l
  {
  }

  lemma OtherHonest(l: Loop, left: seq<seq<byte>>, m: Move, streams: (nat, nat) -> seq<byte>, lim: Limits)
    requires !m.Serve?
    ensures Honest(l, left, m, lim) && Left(l, left, m, streams, lim) == left
  {
  }

  // Serving the data takes the stream forward by what there is room for.
  lemma RoundHonest(l: Loop, rest: seq<byte>, name: string, append: bool, received: seq<byte>,
                    streams: (nat, nat) -> seq<byte>, lim: Limits)
    requires Between(l, name, append, received, lim.buffer)
    ensures var k, n := Next(l, Poll([Data(0, rest)]), lim), Min(|rest|, lim.buffer - |l.s.clients[0].buffer|);
            Honest(k, [rest], Serve, lim) && Left(k, [rest], Serve, streams, lim) == [Behind(rest, n)]
  {
  }

  // For every stream, every file and all limits: there is a run in which a store
  // of the stream is completed.
  lemma StreamStored(name: string, was: seq<byte>, append: bool, stream: seq<byte>, lim: Limits) returns (ms: seq<Move>)
    requires 0 < lim.buffer
    ensures AllHonest(Idle(1, map[name := was]), Silent(1), ms, (_, _) => stream, lim)
    ensures var log := Go(Idle(1, map[name := was]), ms, lim).s.log;
            |log| == 1 && log[0].ok && log[0].transfer.task == Store(name, append) && log[0].transfer.received == stream
            && log[0].after == (if append || stream == [] then log[0].transfer.before else []) + stream
  {
    hide Go, AllHonest, Next, Left, Honest, Storing, Between, Behind;
    var l, streams := Idle(1, map[name := was]), (_: nat, _: nat) => stream;
    var first := Poll([Control(0, Store(name, append), false)]);
    var a := Next(l, first, lim);
    var b := Next(a, Serve, lim);
    var c := Next(b, EndRound, lim);
    FirstRound(name, was, append, stream, lim);
    ms := RestArrives(c, stream, name, append, [], streams, lim);
    assert [] + stream == stream;
    OtherHonest(b, [stream], EndRound, streams, lim);
    Prepend(b, [stream], EndRound, ms, streams, lim);
    Prepend(a, [[]], Serve, [EndRound] + ms, streams, lim);
    OtherHonest(l, [[]], first, streams, lim);
    Prepend(l, [[]], first, [Serve] + ([EndRound] + ms), streams, lim);
    ms := [first] + ([Serve] + ([EndRound] + ms));
    assert Silent(1) == [[]];
    StoresWhole(1, map[name := was], streams, ms, lim);
  }

  lemma FirstRound(name: string, was: seq<byte>, append: bool, stream: seq<byte>, lim: Limits)
    requires 0 < lim.buffer
    ensures var l, first := Idle(1, map[name := was]), Poll([Control(0, Store(name, append), false)]);
            var a := Next(l, first, lim);
            var b := Next(a, Serve, lim);
            && Between(Next(b, EndRound, lim), name, append, [], lim.buffer)
            && Honest(a, [[]], Serve, lim) && Left(a, [[]], Serve, (_, _) => stream, lim) == [stream]
  {
    var l := Idle(1, map[name := was]);
    assert l.s.clients == [IDLE] && l.s.slots == [Unused];
    var a := Next(l, Poll([Control(0, Store(name, append), false)]), lim);
    assert MayCommand(a.s, 0, Store(name, append));
    var b := Next(a, Serve, lim);
    assert b.ready == [] && b.polled && b.s.server == [];
    assert [[]][0 := stream] == [stream];
  }
}
