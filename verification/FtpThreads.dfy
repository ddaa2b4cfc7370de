/** The loops of Ftpd_server_thread and Ftpd_io_thread over the handlers and data of
    FtpDaemon. A thread returns where it has to wait for room in a queue, and
    goes on from there when it is called again. */
module FtpThreads {
  import opened Bits
  import opened FtpDaemon
  import opened FtpLoop
  import opened FtpStreams
  import opened FtpTransfer
  import opened Options

  predicate ByServer(ms: seq<Move>) {
    forall m | m in ms :: m.Poll? || m.Serve? || m.EndRound?
  }

  predicate ByIo(ms: seq<Move>) {
    forall m | m in ms :: m.Visit? || m.Execute?
  }

  lemma ByServerOn(a: seq<Move>, b: seq<Move>)
    requires ByServer(a) && ByServer(b)
    ensures ByServer(a + b)
  {
  }

  lemma ByServerFirst(m: Move)
    ensures ByServer([]) && Found([]) == []
    ensures m.Poll? ==> ByServer([m])
  {
  }

  // What the polls of a run found
  function Found(ms: seq<Move>): seq<seq<Turn>> {
    if ms == [] then [] else Found(ms[..|ms| - 1]) + (if ms[|ms| - 1].Poll? then [ms[|ms| - 1].turns] else [])
  }

  lemma {:induction false} FoundAppend(a: seq<Move>, b: seq<Move>)
    ensures Found(a + b) == Found(a) + Found(b)
    decreases |b|
  {
    if b == [] {
      assert a + b == a;
    } else {
      var last := b[|b| - 1];
      FoundAppend(a, b[..|b| - 1]);
      assert (a + b)[..|a + b| - 1] == a + b[..|b| - 1];
    }
  }

  lemma FoundOn(ms: seq<Move>, m: Move)
    ensures Found(ms + [m]) == Found(ms) + (if m.Poll? then [m.turns] else [])
  {
    assert (ms + [m])[..|ms|] == ms;
  }

  class ServerThread {
    const daemon: Daemon
    var handles: seq<Turn>   // found ready by the last poll and not served yet
    var polled: bool         // in a round

    ghost predicate Valid()
      reads this, daemon.Repr()
    {
      this !in daemon.Repr() && daemon.Valid()
    }

    ghost function Here(): Loop
      requires Valid()
      reads this, daemon.Repr()
    {
      Loop(daemon.Now(), handles, polled)
    }

    constructor (daemon: Daemon)
      requires daemon.Valid()
      ensures Valid() && this.daemon == daemon && Here() == Loop(old(daemon.Now()), [], false)
    {
      this.daemon, handles, polled := daemon, [], false;
    }

    lemma ClientNow(i: nat)
      requires daemon.Valid() && i < daemon.clients.task.Length
      ensures var c := daemon.clients;
              && |daemon.Now().clients| == c.task.Length == c.offset.Length && daemon.clients.model == daemon.Now().clients
              && daemon.Now().clients[i].task == c.task[i] && |daemon.Now().clients[i].buffer| == c.offset[i] <= c.size
              && c.size == daemon.lim.buffer
    {
      daemon.Sizes();
      daemon.clients.HoldsNow(i);
    }

    // Whether client i is free for the command and no other client is in its way
    method MayAccept(i: nat, task: Task) returns (ok: bool)
      requires Valid()
      ensures Valid() && daemon.Now() == old(daemon.Now()) && ok == MayCommand(daemon.Now(), i, task)
    {
      hide Daemon.Valid, Daemon.Repr, Apart;
      daemon.Sizes();
      DaemonFiles();
      if i >= daemon.clients.task.Length || task.Nothing? {
        return false;
      }
      ClientNow(i);
      if !daemon.clients.task[i].Nothing? || (task.Retrieve? && task.name !in daemon.files) {
        return false;
      }
      var j := 0;
      while j < daemon.clients.task.Length
        invariant Valid() && j <= daemon.clients.task.Length == |daemon.Now().clients|
        invariant forall k | 0 <= k < j :: Apart(daemon.Now().clients[k].task, task)
      {
        ClientNow(j);
        if !Apart(daemon.clients.task[j], task) {
          return false;
        }
        j := j + 1;
      }
      return true;
    }

    lemma DaemonFiles()
      requires daemon.Valid()
      ensures daemon.Now().files == daemon.files
    {
    }

    // One ready handle: a command, a data connection, or its data
    method ServeHandle(t: Turn)
      requires Valid() && !ServerWaits(daemon.Now(), daemon.lim)
      modifies daemon.Repr()
      ensures Valid() && daemon.Now() == Served(old(daemon.Now()), t, daemon.lim.buffer)
      ensures t.Data? ==> Takes(old(daemon.Now()), daemon.Now(), t.client, t.chunk)
    {
      hide Daemon.Valid, Daemon.Now, Daemon.Repr, Takes, MayCommand, Begun, Asked, Received, Fit;
      match t
      case Control(i, task, connected) => ServeCommand(i, task, connected);
      case Data(i, chunk) => ServeData(i, chunk);
      case Connect(i) => ServeConnection(i);
    }

    method ServeCommand(i: nat, task: Task, connected: bool)
      requires Valid() && !ServerWaits(daemon.Now(), daemon.lim)
      modifies daemon.Repr()
      ensures Valid() && daemon.Now() == Served(old(daemon.Now()), Control(i, task, connected), daemon.lim.buffer)
    {
      hide Daemon.Valid, Daemon.Now, Daemon.Repr, MayBegin, Asked;
      var ok := MayAccept(i, task);
      if ok {
        daemon.Accept(i, task);
        if connected {
          ServeConnection(i);
        }
      }
    }

    method ServeConnection(i: nat)
      requires Valid() && !ServerWaits(daemon.Now(), daemon.lim)
      modifies daemon.Repr()
      ensures Valid() && daemon.Now() == Asked(old(daemon.Now()), i)
    {
      hide Daemon.Valid, Daemon.Now, Daemon.Repr;
      daemon.Sizes();
      if i < daemon.clients.task.Length {
        ClientNow(i);
        if daemon.clients.task[i].Retrieve? {
          daemon.RetrieveBegin(i);
        }
      }
    }

    // From a store's data what there is room for is received, and the end mark goes
    // with an empty chunk alone.
    ghost predicate Takes(was: State, now: State, i: nat, chunk: seq<byte>) {
      Storing(was, i) && |was.clients[i].buffer| < daemon.lim.buffer ==>
        var c, n := was.clients[i], Min(|chunk|, daemon.lim.buffer - |was.clients[i].buffer|);
        && i < |now.clients|
        && now.clients[i].received == c.received + chunk[..n]
        && (now.clients[i].eofSent <==> chunk == [])
        && (var full := |c.buffer| + n == daemon.lim.buffer;
            if chunk == [] || full
            then now.clients[i].buffer == [] &&
                 now.io == was.io + [WriteFile(i, c.task.name, c.isAppend, chunk == [], c.buffer + chunk[..n])]
            else now.clients[i].buffer == c.buffer + chunk && now.io == was.io)
    }

    lemma ServedTakes(s: State, i: nat, chunk: seq<byte>)
      ensures Takes(s, Served(s, Data(i, chunk), daemon.lim.buffer), i, chunk)
    {
      hide Served;
      if Storing(s, i) && |s.clients[i].buffer| < daemon.lim.buffer {
        DataTaken(s, i, chunk, daemon.lim.buffer);
        assert chunk[..|chunk|] == chunk;
        assert s.io + [] == s.io;
      }
    }

    // As much as there is room for is received
    method ServeData(i: nat, chunk: seq<byte>)
      requires Valid() && !ServerWaits(daemon.Now(), daemon.lim)
      modifies daemon.Repr()
      ensures Valid() && daemon.Now() == Served(old(daemon.Now()), Data(i, chunk), daemon.lim.buffer)
      ensures Takes(old(daemon.Now()), daemon.Now(), i, chunk)
    {
      hide Daemon.Valid, Daemon.Now, Daemon.Repr, Takes;
      ServedTakes(daemon.Now(), i, chunk);
      daemon.Sizes();
      if i < daemon.clients.task.Length {
        ClientNow(i);
        if daemon.clients.task[i].Store? {
          var room := daemon.clients.size - daemon.clients.offset[i];
          daemon.StoreData(i, if |chunk| > room then chunk[..room] else chunk);
        }
      }
    }

    method ServeNext()
      requires Valid() && !ServerWaits(daemon.Now(), daemon.lim) && handles != []
      modifies this, daemon.Repr()
      ensures Valid() && Here() == Next(old(Here()), Serve, daemon.lim)
    {
      hide Daemon.Valid, Daemon.Now, Daemon.Repr, Served;
      ServeHandle(handles[0]);
      handles := handles[1..];
    }

    // One reply at most
    method TakeReply()
      requires Valid() && !ServerWaits(daemon.Now(), daemon.lim) && handles == [] && polled
      modifies this, daemon.Repr()
      ensures Valid() && Here() == Next(old(Here()), EndRound, daemon.lim)
    {
      hide Daemon.Valid, Daemon.Now, Daemon.Repr, DoReply;
      var to := daemon.ProcessReply();
      polled := false;
    }

    method Poll(found: seq<Turn>)
      requires Valid() && !ServerWaits(daemon.Now(), daemon.lim) && !polled && InOrder(found)
      modifies this
      ensures Valid() && Here() == Next(old(Here()), Move.Poll(found), daemon.lim) && polled && handles == found
    {
      hide Daemon.Valid, Daemon.Now, Daemon.Repr, InOrder;
      handles, polled := found, true;
    }

    // The rest of a round, up to where the thread has to wait
    method Round() returns (ghost ms: seq<Move>)
      requires Valid() && polled
      modifies this, daemon.Repr()
      ensures Valid() && Here() == Go(old(Here()), ms, daemon.lim) && ByServer(ms) && Found(ms) == []
      ensures polled <==> ServerWaits(daemon.Now(), daemon.lim)
    {
      hide Daemon.Valid, Daemon.Now, Daemon.Repr, ServerWaits, Next, Go;
      ghost var start := Here();
      ms := [];
      GoNothing(start, daemon.lim);
      daemon.Threads();
      while handles != [] && daemon.io.waiting.None?
        invariant Valid() && polled && Here() == Go(start, ms, daemon.lim) && ByServer(ms) && Found(ms) == []
        invariant daemon.io.waiting.Some? <==> ServerWaits(daemon.Now(), daemon.lim)
        decreases |handles|
      {
        ghost var l := Here();
        ServeNext();
        ServeLeaves(l, daemon.lim);
        GoOn(start, ms, Serve, daemon.lim);
        FoundOn(ms, Serve);
        ms := ms + [Serve];
        daemon.Threads();
      }
      if daemon.io.waiting.None? {
        ghost var l := Here();
        TakeReply();
        RoundEnds(l, daemon.lim);
        GoOn(start, ms, EndRound, daemon.lim);
        FoundOn(ms, EndRound);
        ms := ms + [EndRound];
      }
    }

    // Ftpd_server_thread: round after round, each with what its poll finds, up to
    // where the thread has to wait
    method Loops(found: seq<seq<Turn>>) returns (rounds: nat, ghost ms: seq<Move>)
      requires Valid() && (ServerWaits(daemon.Now(), daemon.lim) ==> polled)
      requires forall k | 0 <= k < |found| :: InOrder(found[k])
      modifies this, daemon.Repr()
      ensures Valid() && Here() == Go(old(Here()), ms, daemon.lim) && ByServer(ms)
      ensures rounds <= |found| && Found(ms) == found[..rounds]
      ensures if ServerWaits(daemon.Now(), daemon.lim) then polled else !polled && rounds == |found|
    {
      hide Daemon.Valid, Daemon.Now, Daemon.Repr, ServerWaits, Next, Go, InOrder, ByServer, Found;
      ghost var start := Here();
      ms, rounds := [], 0;
      GoNothing(start, daemon.lim);
      ByServerFirst(Serve);
      if polled {
        ms := Round();
      }
      while rounds < |found| && !polled
        invariant Valid() && Here() == Go(start, ms, daemon.lim) && ByServer(ms)
        invariant rounds <= |found| && Found(ms) == found[..rounds]
        invariant polled <==> ServerWaits(daemon.Now(), daemon.lim)
      {
        Poll(found[rounds]);
        rounds := rounds + 1;
        GoOn(start, ms, Move.Poll(handles), daemon.lim);
        FoundOn(ms, Move.Poll(handles));
        ByServerFirst(Move.Poll(handles));
        ByServerOn(ms, [Move.Poll(handles)]);
        ms := ms + [Move.Poll(handles)];
        ghost var rest := Round();
        GoAppend(start, ms, rest, daemon.lim);
        FoundAppend(ms, rest);
        ByServerOn(ms, rest);
        ms := ms + rest;
      }
    }
  }

  // Ftpd_io_thread: pass after pass over the slots, each with one command at most, up
  // to where the thread has to wait
  method IoLoops(daemon: Daemon, passes: nat, ghost l: Loop) returns (ghost ms: seq<Move>)
    requires daemon.Valid() && l.s == daemon.Now() && l.s.next <= |l.s.slots|
    modifies daemon.Repr()
    ensures daemon.Valid() && l.(s := daemon.Now()) == Go(l, ms, daemon.lim) && ByIo(ms)
    ensures IoWaits(daemon.Now(), daemon.lim) || passes == 0 || daemon.next == 0
  {
    hide Daemon.Valid, Daemon.Now, Daemon.Repr, IoWaits, Next, Go, DoTakeCommand, Visits;
    ms := [];
    GoNothing(l, daemon.lim);
    for i := 0 to passes
      invariant daemon.Valid() && l.(s := daemon.Now()) == Go(l, ms, daemon.lim) && ByIo(ms)
      invariant daemon.Now().next <= |daemon.Now().slots|
      invariant i > 0 ==> daemon.next == 0
    {
      ghost var m, first := Go(l, ms, daemon.lim), daemon.next;
      daemon.Threads();
      daemon.ProcessRead();
      ghost var visits := GoVisits(m, daemon.next - first, daemon.lim);
      GoAppend(l, ms, visits, daemon.lim);
      ms := ms + visits;
      daemon.Threads();
      if daemon.server.waiting.Some? {
        return;
      }
      ghost var n := Go(l, ms, daemon.lim);
      daemon.ProcessCommand();
      daemon.Threads();
      ExecuteIs(n, daemon.lim);
      GoOn(l, ms, Execute, daemon.lim);
      ms := ms + [Execute];
    }
  }

  lemma ExecuteIs(l: Loop, lim: Limits)
    ensures Next(l, Execute, lim) == l.(s := DoTakeCommand(l.s, lim))
    ensures !IoWaits(l.s, lim) && l.s.next >= |l.s.slots| ==> DoTakeCommand(l.s, lim).next == 0
  {
    hide DoCommand;
  }

  lemma {:induction false} GoVisits(l: Loop, n: nat, lim: Limits) returns (ms: seq<Move>)
    ensures Go(l, ms, lim) == l.(s := Visits(l.s, n, lim)) && ByIo(ms)
  {
    hide Go, DoVisitSlot;
    if n == 0 {
      GoNothing(l, lim);
      return [];
    }
    ms := GoVisits(l, n - 1, lim);
    GoOn(l, ms, Visit, lim);
    ms := ms + [Visit];
  }

  // Both threads at their beginning
  method StartThreads(n: nat, lim: Limits, files: map<string, seq<byte>>) returns (t: ServerThread)
    requires 0 < lim.buffer && 0 < lim.io && 0 < lim.server
    ensures fresh(t) && t.Valid() && t.daemon.lim == lim && t.Here() == Idle(n, files)
  {
    hide Daemon.Valid, Daemon.Now, Daemon.Repr;
    var daemon := StartDaemon(n, lim, files);
    t := new ServerThread(daemon);
  }

  lemma ServeLeaves(l: Loop, lim: Limits)
    requires !ServerWaits(l.s, lim) && l.ready != []
    ensures var m := Next(l, Serve, lim); |m.ready| < |l.ready| && m.polled == l.polled
  {
    hide Served;
  }

  lemma RoundEnds(l: Loop, lim: Limits)
    requires !ServerWaits(l.s, lim) && l.ready == []
    ensures var m := Next(l, EndRound, lim); !m.polled && !ServerWaits(m.s, lim)
  {
    hide FileOf;
  }
}
