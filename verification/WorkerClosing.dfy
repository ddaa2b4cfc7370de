/** Who can still be inside the decoder when the decode thread of
    source/video_player.c closes the file. */
module WorkerClosing {
  import opened PlayerStates
  import opened Queue
  import opened WorkerAbort

  // The convert thread may answer the abort before the video decoder passes a
  // request to clear images on to it. This is whether such a request is to come.
  predicate Passing(s: State) {
    && s.media.hasVideo && !Closed(s.player)
    && (ClearDecoder in s.threads(DecodeVideo).queue || s.threads(DecodeVideo).phase == Busy(ClearDecoder))
  }

  // The file is being closed while the convert thread clears images
  predicate Racing(s: State) {
    s.decoder.Closing? && s.threads(Convert).phase == Busy(ClearImages)
  }

  ghost predicate SameAbort(es: seq<Event>) {
    ByDecoder(StartAbort) !in es
  }

  // ------------------------------------------------------- what a worker can be doing

  ghost predicate TidyThread(w: Worker, th: Thread, run: bool) {
    && (run ==> !th.phase.Gone?)
    && (th.phase.Busy? ==> Handles(w, th.phase.command))
    && (w != Convert ==> !th.phase.AtGate? && !th.phase.PastGate? && !th.phase.Writing?)
  }

  ghost predicate Tidy(s: State) {
    && (!s.decoder.Exited? ==> s.run)
    && (forall w: Worker :: TidyThread(w, s.threads(w), s.run))
  }

  lemma DecoderTidy(s: State, e: DecoderEvent, max: nat)
    requires Tidy(s)
    ensures Tidy(StepDecoder(s, e, max))
  {
    hide Put, Handles;
  }

  lemma WorkerTidy(s: State, w: Worker, e: WorkerEvent, max: nat)
    requires Tidy(s)
    ensures Tidy(StepWorker(s, w, e, max))
  {
    hide Put, DoPoll, DoFinish;
    if e.Poll? {
      PollTidy(s, w, max);
    } else if e.Finish? {
      FinishTidy(s, w, e.fatal, max);
    }
  }

  lemma PollTidy(s: State, w: Worker, max: nat)
    requires Tidy(s)
    ensures Tidy(DoPoll(s, w, max))
  {
    hide Put, Dispatch;
    var th := s.threads(w);
    if th.phase == Polling && s.run && th.queue != [] {
      DispatchTidy(With(s, w, th.(queue := th.queue[1..])), w, th.queue[0], max);
    }
  }

  lemma DispatchTidy(s: State, w: Worker, c: Command, max: nat)
    requires Tidy(s)
    ensures Tidy(Dispatch(s, w, c, max))
  {
    hide Put, Carry, Handles;
    CarryTidy(s, w, c, max);
  }

  lemma CarryTidy(s: State, w: Worker, c: Command, max: nat)
    requires Tidy(s)
    ensures Tidy(Carry(s, w, c, max))
  {
    hide Put, Handles;
  }

  lemma FinishTidy(s: State, w: Worker, fatal: bool, max: nat)
    requires Tidy(s)
    ensures Tidy(DoFinish(s, w, fatal, max))
  {
    hide Put, Handles;
  }

  // What holds of every reachable state
  ghost predicate Good(s: State) {
    Inv(s) && Tidy(s)
  }

  lemma StepGood(s: State, e: Event, max: nat)
    requires Good(s)
    ensures Good(Step(s, e, max))
  {
    hide Inv, Tidy, StepDecoder, StepWorker;
    StepKeeps(s, e, max);
    match e {
      case ByDecoder(d) => DecoderTidy(s, d, max);
      case ByWorker(w, d) => WorkerTidy(s, w, d, max);
    }
  }

  lemma {:induction false} RunGood(s: State, es: seq<Event>, max: nat)
    requires Good(s)
    ensures Good(Run(s, es, max))
    decreases |es|
  {
    hide Good, Step;
    if es != [] {
      StepGood(s, es[0], max);
      RunGood(Step(s, es[0], max), es[1..], max);
    }
  }

  lemma StartGood()
    ensures Good(Start())
  {
    hide Inv;
    StartOk();
  }

  // ------------------------------------------------------------ when it cannot happen

  // The convert thread has carried the request out
  ghost predicate ConvertPast(s: State) {
    match s.decoder
    case Closing => true
    case Asking(w) => w == DecodeVideo
    case Awaiting(w) =>
      w == DecodeVideo || (w == Convert && Abort !in s.threads(Convert).queue && s.threads(Convert).phase != Flushing)
    case _ => false
  }

  ghost predicate ConvertOut(th: Thread, player: PlayerState, hasVideo: bool) {
    !th.phase.Busy? && (hasVideo && !Closed(player) ==> ClearImages !in th.queue)
  }

  ghost predicate NoRace(s: State) {
    s.decoder.Serving? || s.decoder.Opening? || s.decoder.Exited? ||
    (!Passing(s) && (ConvertPast(s) ==> ConvertOut(s.threads(Convert), s.player, s.media.hasVideo)))
  }

  lemma AnswerPast(s: State)
    requires WorkerOk(s, Convert) && s.decoder == Awaiting(Convert) && s.notes != [] && s.notes[0] == Aborted(Convert)
    ensures ConvertPast(s)
  {
    assert Aborted(Convert) in s.notes;
  }

  lemma ListenNoRace(s: State)
    requires Good(s) && NoRace(s)
    ensures NoRace(DoListen(s))
  {
    hide Good, ConvertOut;
    if s.decoder == Awaiting(Convert) && s.notes != [] && s.notes[0] == Aborted(Convert) {
      GoodWorker(s, Convert);
      AnswerPast(s);
    }
  }

  lemma AskNoRace(s: State, max: nat)
    requires NoRace(s)
    ensures NoRace(DoAsk(s, max))
  {
    hide ConvertOut;
  }

  lemma OpenedServes(s: State, video: bool, live: bool, ok: bool, max: nat)
    ensures var t := DoOpened(s, video, live, ok, max); t == s || t.decoder.Serving?
  {
    hide Put;
  }

  lemma NoRaceDecoder(s: State, e: DecoderEvent, max: nat)
    requires Good(s) && NoRace(s) && e != StartAbort
    ensures NoRace(StepDecoder(s, e, max))
  {
    hide Good, ConvertOut, DoOpened, DoListen, DoAsk, Passing;
    match e {
      case Listen => ListenNoRace(s);
      case Ask => AskNoRace(s, max);
      case Opened(video, live, ok) => OpenedServes(s, video, live, ok, max);
      case _ =>
    }
  }

  lemma GoodWorker(s: State, w: Worker)
    requires Good(s)
    ensures WorkerOk(s, w)
  {
  }

  // The convert thread's own steps: it takes the request to abort before all else
  lemma OwnNoRace(s: State, e: WorkerEvent, max: nat)
    requires Good(s) && NoRace(s)
    ensures NoRace(StepWorker(s, Convert, e, max))
  {
    hide Good, DoPoll;
    if e.Poll? {
      GoodWorker(s, Convert);
      PollNoRace(s, max);
    }
  }

  lemma PollNoRace(s: State, max: nat)
    requires WorkerOk(s, Convert) && NoRace(s)
    ensures NoRace(DoPoll(s, Convert, max))
  {
    hide Dispatch;
    var th := s.threads(Convert);
    if th.phase == Polling && s.run && th.queue != [] {
      TakeNoRace(s);
      DispatchNoRace(With(s, Convert, th.(queue := th.queue[1..])), th.queue[0], max);
    }
  }

  // The state in which the convert thread has taken c from its queue
  ghost predicate Taken(s: State, c: Command) {
    s.decoder.Serving? || s.decoder.Opening? || s.decoder.Exited? ||
    (&& !Passing(s)
     && (ConvertPast(s) && (c != Abort || s.decoder != Awaiting(Convert)) ==>
           && ConvertOut(s.threads(Convert), s.player, s.media.hasVideo)
           && (s.media.hasVideo && !Closed(s.player) ==> c != ClearImages)))
  }

  lemma TakeNoRace(s: State)
    requires WorkerOk(s, Convert) && NoRace(s) && s.threads(Convert).phase == Polling && s.threads(Convert).queue != []
    ensures var th := s.threads(Convert); Taken(With(s, Convert, th.(queue := th.queue[1..])), th.queue[0])
  {
    hide WorkerOk;
    var th := s.threads(Convert);
    if s.decoder == Awaiting(Convert) {
      AbortFirst(s);
    }
    assert th.queue == [th.queue[0]] + th.queue[1..];
  }

  lemma AbortFirst(s: State)
    requires WorkerOk(s, Convert) && s.decoder == Awaiting(Convert) && s.threads(Convert).queue != []
    ensures Abort in s.threads(Convert).queue ==> s.threads(Convert).queue[0] == Abort
  {
    hide Still;
  }

  lemma DispatchNoRace(s: State, c: Command, max: nat)
    requires Taken(s, c) && s.threads(Convert).phase == Polling
    ensures NoRace(Dispatch(s, Convert, c, max))
  {
  }

  // The video decoder passes nothing on that is not to come
  lemma VideoNoRace(s: State, e: WorkerEvent, max: nat)
    requires NoRace(s)
    ensures NoRace(StepWorker(s, DecodeVideo, e, max))
  {
    hide ConvertOut, DoPoll, DoFinish;
    if e.Poll? {
      VideoPollNoRace(s, max);
    } else if e.Finish? {
      VideoFinishNoRace(s, e.fatal, max);
    }
  }

  lemma VideoFinishNoRace(s: State, fatal: bool, max: nat)
    requires NoRace(s)
    ensures NoRace(DoFinish(s, DecodeVideo, fatal, max))
  {
  }

  lemma VideoPollNoRace(s: State, max: nat)
    requires NoRace(s)
    ensures NoRace(DoPoll(s, DecodeVideo, max))
  {
    hide Dispatch, ConvertOut;
    var th := s.threads(DecodeVideo);
    if th.phase == Polling && s.run && th.queue != [] {
      assert th.queue[0] in th.queue;
      VideoDispatchNoRace(With(s, DecodeVideo, th.(queue := th.queue[1..])), th.queue[0], max);
    }
  }

  lemma VideoDispatchNoRace(s: State, c: Command, max: nat)
    requires NoRace(s)
    requires !(s.decoder.Serving? || s.decoder.Opening? || s.decoder.Exited?) && s.media.hasVideo && !Closed(s.player) ==>
               c != ClearDecoder
    ensures NoRace(Dispatch(s, DecodeVideo, c, max))
  {
    hide Carry;
    VideoCarryNoRace(s, c, max);
  }

  lemma VideoCarryNoRace(s: State, c: Command, max: nat)
    requires NoRace(s)
    requires !(s.decoder.Serving? || s.decoder.Opening? || s.decoder.Exited?) && s.media.hasVideo && !Closed(s.player) ==>
               c != ClearDecoder
    ensures NoRace(Carry(s, DecodeVideo, c, max))
  {
    hide Handles;
  }

  lemma ReadNoRace(s: State, e: WorkerEvent, max: nat)
    requires Good(s) && NoRace(s)
    ensures NoRace(StepWorker(s, ReadPacket, e, max))
  {
    hide Good, ConvertOut, StepWorker;
    ReadElsewhere(s, e, max);
  }

  // Reading packets concerns neither of the other workers
  ghost predicate OthersSame(s: State, t: State) {
    && t.player == s.player && t.decoder == s.decoder && t.media.hasVideo == s.media.hasVideo
    && t.threads(Convert) == s.threads(Convert) && t.threads(DecodeVideo) == s.threads(DecodeVideo)
  }

  lemma ReadElsewhere(s: State, e: WorkerEvent, max: nat)
    ensures OthersSame(s, StepWorker(s, ReadPacket, e, max))
  {
    hide Put, DoPoll;
    if e.Poll? {
      ReadPollElsewhere(s, max);
    }
  }

  lemma ReadPollElsewhere(s: State, max: nat)
    ensures OthersSame(s, DoPoll(s, ReadPacket, max))
  {
    hide Put, Dispatch;
    var th := s.threads(ReadPacket);
    if th.phase == Polling && s.run && th.queue != [] {
      ReadDispatchElsewhere(With(s, ReadPacket, th.(queue := th.queue[1..])), th.queue[0], max);
    }
  }

  lemma ReadDispatchElsewhere(s: State, c: Command, max: nat)
    ensures OthersSame(s, Dispatch(s, ReadPacket, c, max))
  {
    hide Put;
  }

  lemma StepNoRace(s: State, e: Event, max: nat)
    requires Good(s) && NoRace(s) && e != ByDecoder(StartAbort)
    ensures NoRace(Step(s, e, max))
  {
    hide Good, NoRace, StepDecoder, StepWorker;
    match e {
      case ByDecoder(d) => NoRaceDecoder(s, d, max);
      case ByWorker(w, d) =>
        match w {
          case ReadPacket => ReadNoRace(s, d, max);
          case Convert => OwnNoRace(s, d, max);
          case DecodeVideo => VideoNoRace(s, d, max);
        }
    }
  }

  lemma {:induction false} RunNoRace(s: State, es: seq<Event>, max: nat)
    requires Good(s) && NoRace(s) && SameAbort(es)
    ensures NoRace(Run(s, es, max))
    decreases |es|
  {
    hide Good, NoRace, Step;
    if es != [] {
      assert es[0] in es;
      StepGood(s, es[0], max);
      StepNoRace(s, es[0], max);
      RunNoRace(Step(s, es[0], max), es[1..], max);
    }
  }

  // With nothing to pass on as the abort begins, all three workers are out of the
  // decoder when the file is closed
  lemma DecoderFreeToClose(s: State, es: seq<Event>, max: nat)
    requires Good(s) && s.decoder == Asking(ReadPacket) && !Passing(s) && SameAbort(es)
    ensures var r := Run(s, es, max);
            r.decoder.Closing? ==>
              && !r.threads(Convert).phase.PastGate? && !r.threads(Convert).phase.Writing?
              && forall w: Worker :: !r.threads(w).phase.Busy?
  {
    hide Run, Inv, Tidy, Passing;
    var r := Run(s, es, max);
    RunGood(s, es, max);
    RunNoRace(s, es, max);
    if r.decoder.Closing? {
      InvWorkers(r);
      StoppedStill(r);
      forall w: Worker ensures !r.threads(w).phase.Busy? {
        assert w == ReadPacket || w == Convert || w == DecodeVideo;
      }
    }
  }

  lemma InvWorkers(s: State)
    requires Inv(s)
    ensures forall w: Worker :: WorkerOk(s, w)
  {
  }

  // ------------------------------------------------------------------ when it happens

  // Going on from a run
  lemma Chain(s: State, a: seq<Event>, b: seq<Event>, max: nat)
    requires SameAbort(a) && SameAbort(b)
    ensures SameAbort(a + b) && Run(s, a + b, max) == Run(Run(s, a, max), b, max)
  {
    RunAppend(s, a, b, max);
  }

  // Only w has moved, besides notifications and flags
  ghost predicate OnlyMoved(s: State, t: State, w: Worker) {
    && t.player == s.player && t.run == s.run && t.decoder == s.decoder && t.media.hasVideo == s.media.hasVideo
    && (forall v | v != w :: t.threads(v) == s.threads(v))
  }

  // What w is in the middle of comes to its end
  lemma Settle(s: State, w: Worker, max: nat) returns (es: seq<Event>)
    requires Good(s) && s.run && !Aborting(s.threads(w).phase)
    requires w == DecodeVideo ==> s.threads(w).phase != Busy(ClearDecoder)
    ensures SameAbort(es)
    ensures var t := Run(s, es, max);
            OnlyMoved(s, t, w) && t.threads(w) == Thread(s.threads(w).queue, Polling)
  {
    hide Inv, Handles;
    var finish, resume, proceed := ByWorker(w, Finish(false)), ByWorker(w, Resume), ByWorker(w, Proceed(false));
    es := [] + [finish] + [resume] + [proceed] + [proceed];
    RunOn(s, [], finish, max);
    RunOn(s, [] + [finish], resume, max);
    RunOn(s, [] + [finish] + [resume], proceed, max);
    RunOn(s, [] + [finish] + [resume] + [proceed], proceed, max);
  }

  lemma PollMoves(s: State, w: Worker, max: nat)
    requires s.run && s.threads(w).phase == Polling && s.threads(w).queue != [] && s.threads(w).queue[0] != Abort
    requires w == DecodeVideo ==> s.threads(w).queue[0] != ClearDecoder
    ensures var t := DoPoll(s, w, max);
            && OnlyMoved(s, t, w) && t.threads(w).queue == s.threads(w).queue[1..]
            && !Aborting(t.threads(w).phase) && t.threads(w).phase != Busy(ClearDecoder)
  {
    hide Put;
  }

  lemma PollIs(s: State, w: Worker, max: nat)
    ensures Step(s, ByWorker(w, Poll), max) == DoPoll(s, w, max)
  {
  }

  // One command is taken, carried out and done with
  lemma TakeOne(s: State, w: Worker, max: nat) returns (es: seq<Event>)
    requires Good(s) && s.run && s.threads(w).phase == Polling && s.threads(w).queue != []
    requires s.threads(w).queue[0] != Abort && (w == DecodeVideo ==> s.threads(w).queue[0] != ClearDecoder)
    ensures SameAbort(es)
    ensures var t := Run(s, es, max);
            OnlyMoved(s, t, w) && t.threads(w) == Thread(s.threads(w).queue[1..], Polling)
  {
    hide Good, Step, DoPoll, Run;
    var poll := ByWorker(w, Poll);
    PollMoves(s, w, max);
    PollIs(s, w, max);
    StepGood(s, poll, max);
    var u := Step(s, poll, max);
    var rest := Settle(u, w, max);
    RunOn(s, [], poll, max);
    RunNothing(s, max);
    Chain(s, [] + [poll], rest, max);
    es := [] + [poll] + rest;
  }

  lemma RunNothing(s: State, max: nat)
    ensures Run(s, [], max) == s
  {
  }

  lemma {:induction false} Drain(s: State, w: Worker, max: nat) returns (es: seq<Event>)
    requires Good(s) && s.run && s.threads(w).phase == Polling && Abort !in s.threads(w).queue
    requires w == DecodeVideo ==> ClearDecoder !in s.threads(w).queue
    ensures SameAbort(es)
    ensures var t := Run(s, es, max); OnlyMoved(s, t, w) && t.threads(w) == Thread([], Polling)
    decreases |s.threads(w).queue|
  {
    hide Good, Run;
    if s.threads(w).queue == [] {
      RunNothing(s, max);
      return [];
    }
    assert s.threads(w).queue[0] in s.threads(w).queue;
    var a := TakeOne(s, w, max);
    RunGood(s, a, max);
    var b := Drain(Run(s, a, max), w, max);
    Chain(s, a, b, max);
    es := a + b;
  }

  lemma {:induction false} DrainNotes(s: State, max: nat) returns (es: seq<Event>)
    requires s.decoder.Awaiting? && Aborted(s.decoder.worker) !in s.notes
    ensures SameAbort(es) && Run(s, es, max) == s.(notes := [])
    decreases |s.notes|
  {
    if s.notes == [] {
      return [];
    }
    var listen := ByDecoder(Listen);
    assert s.notes[0] in s.notes;
    var t := Step(s, listen, max);
    assert t == s.(notes := s.notes[1..]);
    var rest := DrainNotes(t, max);
    es := [listen] + rest;
    assert es[1..] == rest;
  }

  // A worker with nothing to do acknowledges the request
  lemma AbortTaken(s: State, w: Worker, max: nat) returns (es: seq<Event>)
    requires s.run && 0 < max && s.decoder == Asking(w) && s.threads(w) == Thread([], Polling)
    ensures SameAbort(es)
    ensures var t := Run(s, es, max);
            && OnlyMoved(s, t.(decoder := s.decoder), w) && t.decoder == Awaiting(w) && t.notes == s.notes
            && t.threads(w) == Thread([], Acknowledging)
  {
    var ask, poll, flush := ByDecoder(Ask), ByWorker(w, Poll), ByWorker(w, Flush);
    RunOn(s, [], ask, max);
    RunOn(s, [] + [ask], poll, max);
    RunOn(s, [] + [ask] + [poll], flush, max);
    es := [] + [ask] + [poll] + [flush];
  }

  lemma AbortAnswered(s: State, w: Worker, max: nat) returns (es: seq<Event>)
    requires 0 < max && s.notes == [] && s.decoder == Awaiting(w) && s.threads(w) == Thread([], Acknowledging)
    ensures SameAbort(es)
    ensures var t := Run(s, es, max);
            && OnlyMoved(s, t.(decoder := s.decoder), w) && t.decoder == Following(w)
            && t.threads(w) == Thread([], Acknowledged)
  {
    var acknowledge, listen := ByWorker(w, Acknowledge), ByDecoder(Listen);
    RunOn(s, [], acknowledge, max);
    RunOn(s, [] + [acknowledge], listen, max);
    es := [] + [acknowledge] + [listen];
  }

  lemma AnswerAwaited(s: State, w: Worker)
    requires Good(s) && s.decoder == Awaiting(w) && s.threads(w).phase == Acknowledging
    ensures Aborted(w) !in s.notes
  {
    hide Still, Tidy;
    assert WorkerOk(s, w);
  }

  lemma AbortDone(s: State, w: Worker, max: nat) returns (es: seq<Event>)
    requires Good(s) && s.run && 0 < max && s.decoder == Asking(w) && s.threads(w) == Thread([], Polling)
    ensures SameAbort(es)
    ensures var t := Run(s, es, max);
            && OnlyMoved(s, t.(decoder := s.decoder), w) && t.decoder == Following(w)
            && t.threads(w) == Thread([], Acknowledged)
  {
    hide Good, Run;
    var a := AbortTaken(s, w, max);
    var t := Run(s, a, max);
    RunGood(s, a, max);
    AnswerAwaited(t, w);
    var b := DrainNotes(t, max);
    var u := t.(notes := []);
    var c := AbortAnswered(u, w, max);
    Chain(s, a, b, max);
    Chain(s, a + b, c, max);
    es := a + b + c;
  }

  // The video decoder has passed requests to clear images on
  ghost predicate PassedOn(s: State, t: State, images: seq<Command>) {
    && t.player == s.player && t.run == s.run && t.decoder == s.decoder && t.media.hasVideo == s.media.hasVideo
    && t.threads(ReadPacket) == s.threads(ReadPacket)
    && t.threads(Convert) == Thread(images, s.threads(Convert).phase)
  }

  lemma ClearTaken(s: State, max: nat) returns (es: seq<Event>)
    requires s.run && !Closed(s.player)
    requires var th := s.threads(DecodeVideo); th.phase == Polling && th.queue != [] && th.queue[0] == ClearDecoder
    ensures SameAbort(es)
    ensures var t := Run(s, es, max);
            && PassedOn(s, t, Put(s.threads(Convert).queue, max, ClearImages, false))
            && t.threads(DecodeVideo) == Thread(s.threads(DecodeVideo).queue[1..], Polling)
  {
    hide Put;
    var poll, finish := ByWorker(DecodeVideo, Poll), ByWorker(DecodeVideo, Finish(false));
    RunOn(s, [], poll, max);
    RunOn(s, [] + [poll], finish, max);
    es := [] + [poll] + [finish];
  }

  lemma ClearFinished(s: State, max: nat) returns (es: seq<Event>)
    requires s.threads(DecodeVideo).phase == Busy(ClearDecoder)
    ensures SameAbort(es)
    ensures var t := Run(s, es, max);
            && PassedOn(s, t, Put(s.threads(Convert).queue, max, ClearImages, false))
            && t.threads(DecodeVideo) == Thread(s.threads(DecodeVideo).queue, Polling)
  {
    hide Put;
    var finish := ByWorker(DecodeVideo, Finish(false));
    RunOn(s, [], finish, max);
    es := [] + [finish];
  }

  // The first request to come reaches the convert thread
  lemma {:induction false} PassOn(s: State, max: nat) returns (es: seq<Event>)
    requires Good(s) && s.run && 0 < max && Passing(s) && !Aborting(s.threads(DecodeVideo).phase)
    requires Abort !in s.threads(DecodeVideo).queue && s.threads(Convert) == Thread([], Polling)
    ensures SameAbort(es)
    ensures var t := Run(s, es, max);
            && PassedOn(s, t, [ClearImages])
            && t.threads(DecodeVideo).phase == Polling && Abort !in t.threads(DecodeVideo).queue
    decreases |s.threads(DecodeVideo).queue|
  {
    hide Good, Run;
    if s.threads(DecodeVideo).phase == Busy(ClearDecoder) {
      es := ClearFinished(s, max);
      return;
    }
    var a := Settle(s, DecodeVideo, max);
    var t := Run(s, a, max);
    RunGood(s, a, max);
    var q := s.threads(DecodeVideo).queue;
    assert q[0] in q;
    if q[0] == ClearDecoder {
      var b := ClearTaken(t, max);
      Chain(s, a, b, max);
      es := a + b;
    } else {
      var b := TakeOne(t, DecodeVideo, max);
      RunGood(t, b, max);
      var c := PassOn(Run(t, b, max), max);
      Chain(s, a, b, max);
      Chain(s, a + b, c, max);
      es := a + b + c;
    }
  }

  // The video decoder comes to the end of its queue, whatever it passes on
  lemma {:induction false} DrainVideo(s: State, max: nat) returns (es: seq<Event>)
    requires Good(s) && s.run && !Closed(s.player)
    requires s.threads(DecodeVideo).phase == Polling && Abort !in s.threads(DecodeVideo).queue
    ensures SameAbort(es)
    ensures var t := Run(s, es, max);
            PassedOn(s, t, t.threads(Convert).queue) && t.threads(DecodeVideo) == Thread([], Polling)
    decreases |s.threads(DecodeVideo).queue|
  {
    hide Good, Run, Put;
    var q := s.threads(DecodeVideo).queue;
    if q == [] {
      RunNothing(s, max);
      return [];
    }
    assert q[0] in q;
    var a;
    if q[0] == ClearDecoder {
      a := ClearTaken(s, max);
    } else {
      a := TakeOne(s, DecodeVideo, max);
    }
    RunGood(s, a, max);
    var b := DrainVideo(Run(s, a, max), max);
    Chain(s, a, b, max);
    es := a + b;
  }

  lemma ImagesTaken(s: State, max: nat) returns (es: seq<Event>)
    requires s.run && s.media.hasVideo && !Closed(s.player) && s.threads(Convert) == Thread([ClearImages], Polling)
    ensures SameAbort(es)
    ensures var t := Run(s, es, max);
            OnlyMoved(s, t, Convert) && t.threads(Convert).phase == Busy(ClearImages)
  {
    var poll := ByWorker(Convert, Poll);
    RunOn(s, [], poll, max);
    es := [] + [poll];
  }

  lemma QuietThread(s: State, w: Worker)
    requires Good(s) && !s.decoder.Exited? && s.decoder != Awaiting(w)
    ensures Abort !in s.threads(w).queue && !Aborting(s.threads(w).phase)
  {
    hide Still, Tidy;
    assert WorkerOk(s, w);
  }

  // A worker before its turn finishes what it has and acknowledges
  lemma WorkerAborted(s: State, w: Worker, max: nat) returns (es: seq<Event>)
    requires Good(s) && s.run && 0 < max && s.decoder == Asking(w) && w != DecodeVideo
    ensures SameAbort(es)
    ensures var t := Run(s, es, max);
            && OnlyMoved(s, t.(decoder := s.decoder), w) && t.decoder == Following(w)
            && t.threads(w) == Thread([], Acknowledged)
  {
    hide Good, Run;
    QuietThread(s, w);
    var a := Settle(s, w, max);
    var t := Run(s, a, max);
    RunGood(s, a, max);
    var b := Drain(t, w, max);
    var u := Run(t, b, max);
    RunGood(t, b, max);
    var c := AbortDone(u, w, max);
    Chain(s, a, b, max);
    Chain(s, a + b, c, max);
    es := a + b + c;
  }

  // From the answer of the convert thread on
  lemma PassedWhileAsking(s: State, max: nat) returns (es: seq<Event>)
    requires Good(s) && s.run && 0 < max && Passing(s) && s.decoder == Asking(DecodeVideo)
    requires s.threads(Convert) == Thread([], Acknowledged)
    ensures SameAbort(es)
    ensures var t := Run(s, es, max);
            && t.run && !Closed(t.player) && t.decoder == Asking(DecodeVideo)
            && t.threads(Convert).phase == Busy(ClearImages)
            && t.threads(DecodeVideo).phase == Polling && Abort !in t.threads(DecodeVideo).queue
  {
    hide Good, Run;
    QuietThread(s, DecodeVideo);
    var a := Settle(s, Convert, max);
    var t := Run(s, a, max);
    RunGood(s, a, max);
    var b := PassOn(t, max);
    var u := Run(t, b, max);
    var c := ImagesTaken(u, max);
    Chain(s, a, b, max);
    Chain(s, a + b, c, max);
    es := a + b + c;
  }

  // With something to pass on, the convert thread can be clearing decoded images,
  // inside the decoder, while the file is being closed
  lemma ClearWhileClosing(s: State, max: nat) returns (es: seq<Event>)
    requires Good(s) && 0 < max && s.decoder == Asking(ReadPacket) && Passing(s)
    ensures SameAbort(es) && Racing(Run(s, es, max))
  {
    hide Inv, Run, TidyThread;
    var a := WorkerAborted(s, ReadPacket, max);
    var t := Run(s, a, max);
    RunGood(s, a, max);
    var b := WorkerAborted(t, Convert, max);
    var u := Run(t, b, max);
    RunGood(t, b, max);
    var c := PassedWhileAsking(u, max);
    var v := Run(u, c, max);
    RunGood(u, c, max);
    var d := DrainVideo(v, max);
    var x := Run(v, d, max);
    RunGood(v, d, max);
    var e := AbortDone(x, DecodeVideo, max);
    Chain(s, a, b, max);
    Chain(s, a + b, c, max);
    Chain(s, a + b + c, d, max);
    Chain(s, a + b + c + d, e, max);
    es := a + b + c + d + e;
  }

  // The convert thread can be in the decoder when an abort comes to close the file if
  // and only if, as it began, the video decoder had something to pass on
  lemma RaceExactly(before: seq<Event>, max: nat)
    requires 0 < max && Run(Start(), before, max).decoder == Asking(ReadPacket)
    ensures var s := Run(Start(), before, max);
            (exists es :: SameAbort(es) && Racing(Run(s, es, max))) <==> Passing(s)
  {
    hide Good, Run, Start, Passing, SameAbort;
    var s := Run(Start(), before, max);
    StartGood();
    RunGood(Start(), before, max);
    if Passing(s) {
      var es := ClearWhileClosing(s, max);
    } else {
      forall es | SameAbort(es) ensures !Racing(Run(s, es, max)) {
        DecoderFreeToClose(s, es, max);
      }
    }
  }

  // Both kinds of state are reached: a seek has got as far as the video decoder, or
  // just past it, as the abort begins
  lemma SeekStarts(past: bool, max: nat) returns (es: seq<Event>)
    requires 1 < max
    ensures var s := Run(Start(), es, max);
            && s.decoder == Asking(ReadPacket) && Passing(s) == !past
            && (past ==> ClearImages in s.threads(Convert).queue)
  {
    hide Run;
    var start := ByDecoder(StartAbort);
    var a := SeekOrdered(max);
    var s := Run(Start(), a, max);
    var b := SeekCarriedOut(s, max);
    RunAppend(Start(), a, b, max);
    es := a + b;
    if past {
      var c := ClearTaken(Run(s, b, max), max);
      RunAppend(Start(), es, c, max);
      es := es + c;
    }
    RunOn(Start(), es, start, max);
    es := es + [start];
  }

  // A file is open, and a seek in it has been ordered
  lemma SeekOrdered(max: nat) returns (es: seq<Event>)
    requires 1 < max
    ensures var s := Run(Start(), es, max);
            && s.decoder == Serving && s.run && s.player == PrepareSeeking && s.notes == []
            && s.media.hasVideo && !s.media.failed && s.threads(ReadPacket) == Thread([Read, SeekFile], Polling)
            && s.threads(DecodeVideo) == Thread([], Polling) && |s.threads(Convert).queue| == 1
  {
    var a, b := ByDecoder(Open), ByDecoder(Opened(true, false, true));
    var c, d := ByDecoder(Change(PrepareSeeking)), ByDecoder(Order(ReadPacket, SeekFile));
    RunOn(Start(), [], a, max);
    RunOn(Start(), [] + [a], b, max);
    RunOn(Start(), [] + [a] + [b], c, max);
    RunOn(Start(), [] + [a] + [b] + [c], d, max);
    es := [] + [a] + [b] + [c] + [d];
  }

  // It is done and notified, and the video decoder is told to clear what it has
  lemma SeekCarriedOut(s: State, max: nat) returns (es: seq<Event>)
    requires 1 < max && s.decoder == Serving && s.run && s.player == PrepareSeeking && s.notes == []
    requires s.threads(ReadPacket) == Thread([Read, SeekFile], Polling) && s.threads(DecodeVideo) == Thread([], Polling)
    ensures var t := Run(s, es, max);
            && t.decoder == Serving && t.run && t.player == s.player && t.media == s.media && t.notes == []
            && t.threads(DecodeVideo) == Thread([ClearDecoder], Polling) && t.threads(Convert) == s.threads(Convert)
  {
    hide Run;
    var poll, tell := ByWorker(ReadPacket, WorkerEvent.Poll), ByWorker(ReadPacket, Tell);
    var finish := ByWorker(ReadPacket, Finish(false));
    var listen, clear := ByDecoder(Listen), ByDecoder(Order(DecodeVideo, ClearDecoder));
    RunNothing(s, max);
    RunOn(s, [], poll, max);
    RunOn(s, [] + [poll], finish, max);
    var a := [] + [poll] + [finish];
    RunOn(s, a, poll, max);
    RunOn(s, a + [poll], tell, max);
    RunOn(s, a + [poll] + [tell], finish, max);
    var b := a + [poll] + [tell] + [finish];
    RunOn(s, b, listen, max);
    RunOn(s, b + [listen], clear, max);
    es := b + [listen] + [clear];
  }

  // -------------------------------------------------------- when an abort can succeed

  // The awaited worker has acknowledged, and the acknowledgement is gone: the queue
  // of notifications was full
  ghost predicate Lost(s: State) {
    && s.decoder.Awaiting?
    && (var w := s.decoder.worker;
        var th := s.threads(w);
        Abort !in th.queue && !Aborting(th.phase) && Aborted(w) !in s.notes)
  }

  lemma LostStays(s: State, e: Event, max: nat)
    requires Lost(s)
    ensures var t := Step(s, e, max); t.decoder.Exited? || Lost(t)
  {
    match e {
      case ByDecoder(d) => LostDecoder(s, d, max);
      case ByWorker(w, d) => LostWorker(s, w, d, max);
    }
  }

  lemma LostDecoder(s: State, e: DecoderEvent, max: nat)
    requires Lost(s)
    ensures var t := StepDecoder(s, e, max); t.decoder.Exited? || Lost(t)
  {
    hide Put;
  }

  // The awaited worker takes no request to abort, so it does not acknowledge again
  lemma LostWorker(s: State, w: Worker, e: WorkerEvent, max: nat)
    requires Lost(s)
    ensures Lost(StepWorker(s, w, e, max))
  {
    hide StepWorker, Put;
    if w == s.decoder.worker {
      LostOwn(s, e, max);
    } else {
      StepElsewhere(s, w, e, s.decoder.worker, max);
      LostElsewhere(s, StepWorker(s, w, e, max), w, max);
    }
  }

  lemma LostElsewhere(s: State, t: State, v: Worker, max: nat)
    requires Lost(s) && v != s.decoder.worker && Elsewhere(s, t, v, s.decoder.worker, max)
    ensures Lost(t)
  {
  }

  lemma LostOwn(s: State, e: WorkerEvent, max: nat)
    requires Lost(s)
    ensures Lost(StepWorker(s, s.decoder.worker, e, max))
  {
    hide DoPoll, DoFinish;
    if e.Poll? {
      LostPoll(s, max);
    } else if e.Finish? {
      LostFinish(s, e.fatal, max);
    }
  }

  lemma LostFinish(s: State, fatal: bool, max: nat)
    requires Lost(s)
    ensures Lost(DoFinish(s, s.decoder.worker, fatal, max))
  {
  }

  lemma LostPoll(s: State, max: nat)
    requires Lost(s)
    ensures Lost(DoPoll(s, s.decoder.worker, max))
  {
    hide Dispatch;
    var w := s.decoder.worker;
    var th := s.threads(w);
    if th.phase == Polling && s.run && th.queue != [] {
      assert th.queue[0] in th.queue;
      LostDispatch(With(s, w, th.(queue := th.queue[1..])), th.queue[0], max);
    }
  }

  lemma LostDispatch(s: State, c: Command, max: nat)
    requires Lost(s) && c != Abort
    ensures Lost(Dispatch(s, s.decoder.worker, c, max))
  {
    hide Handles;
  }

  lemma {:induction false} LostForever(s: State, es: seq<Event>, max: nat)
    requires s.decoder.Exited? || Lost(s)
    ensures var t := Run(s, es, max); t.decoder.Exited? || Lost(t)
    decreases |es|
  {
    hide Lost, Step;
    if es != [] {
      if s.decoder.Exited? {
        ExitedStays(s, es[0], max);
      } else {
        LostStays(s, es[0], max);
      }
      LostForever(Step(s, es[0], max), es[1..], max);
    }
  }

  // Whatever the video decoder still has, it comes to acknowledge
  lemma VideoAborted(s: State, max: nat) returns (es: seq<Event>)
    requires Good(s) && s.run && 0 < max && s.decoder == Asking(DecodeVideo)
    ensures SameAbort(es) && Run(s, es, max).decoder == Closing
  {
    hide Good, Run, Put;
    QuietThread(s, DecodeVideo);
    var a := VideoSettled(s, max);
    var t := Run(s, a, max);
    RunGood(s, a, max);
    var b := [];
    RunNothing(t, max);
    if Closed(s.player) {
      ClosedEmpty(t, DecodeVideo);
    } else {
      b := DrainVideo(t, max);
    }
    var u := Run(t, b, max);
    RunGood(t, b, max);
    var c := AbortDone(u, DecodeVideo, max);
    Chain(s, a, b, max);
    Chain(s, a + b, c, max);
    es := a + b + c;
  }

  lemma VideoSettled(s: State, max: nat) returns (es: seq<Event>)
    requires Good(s) && s.run && !Aborting(s.threads(DecodeVideo).phase)
    ensures SameAbort(es)
    ensures var t := Run(s, es, max);
            && t.player == s.player && t.run == s.run && t.decoder == s.decoder
            && t.threads(DecodeVideo) == Thread(s.threads(DecodeVideo).queue, Polling)
  {
    hide Good, Run, Put;
    if s.threads(DecodeVideo).phase == Busy(ClearDecoder) {
      es := ClearFinished(s, max);
    } else {
      es := Settle(s, DecodeVideo, max);
    }
  }

  // With no file open, a worker that has not been asked has nothing to do
  lemma ClosedEmpty(s: State, w: Worker)
    requires Good(s) && Closed(s.player) && s.decoder.Asking? && w != Convert
    ensures s.threads(w).queue == []
  {
    hide Tidy;
    assert WorkerOk(s, w);
    var c := FirstIn(s.threads(w).queue);
  }

  lemma FirstIn(q: seq<Command>) returns (c: Command)
    ensures q == [] || (c in q && q[0] == c)
  {
    c := if q == [] then Abort else q[0];
  }

  // From a worker that is to be asked, to the end
  lemma AskedToClose(s: State, max: nat) returns (es: seq<Event>)
    requires Good(s) && s.run && 0 < max && s.decoder.Asking?
    ensures SameAbort(es) && Run(s, es, max).decoder == Closing
    decreases 2 - Rank(s.decoder.worker)
  {
    hide Good, Run;
    var w := s.decoder.worker;
    if w == DecodeVideo {
      es := VideoAborted(s, max);
      return;
    }
    var a := WorkerAborted(s, w, max);
    RunGood(s, a, max);
    var b := AskedToClose(Run(s, a, max), max);
    Chain(s, a, b, max);
    es := a + b;
  }

  // ------------------------------------------------------ from an awaited worker on

  lemma SettleAny(s: State, w: Worker, max: nat) returns (es: seq<Event>)
    requires Good(s) && s.run && !Aborting(s.threads(w).phase)
    ensures SameAbort(es)
    ensures var t := Run(s, es, max);
            && t.run == s.run && t.decoder == s.decoder && t.threads(w) == Thread(s.threads(w).queue, Polling)
  {
    hide Good, Run;
    if w == DecodeVideo {
      es := VideoSettled(s, max);
    } else {
      es := Settle(s, w, max);
    }
  }

  // A worker that has taken the request empties its queue
  lemma {:induction false} Flushed(s: State, w: Worker, max: nat) returns (es: seq<Event>)
    requires s.threads(w).phase == Flushing
    ensures SameAbort(es)
    ensures var t := Run(s, es, max); t.run == s.run && t.decoder == s.decoder && t.threads(w).phase == Acknowledging
    decreases |s.threads(w).queue|
  {
    hide Run;
    var flush := ByWorker(w, Flush);
    RunNothing(s, max);
    RunOn(s, [], flush, max);
    es := [] + [flush];
    if s.threads(w).queue != [] {
      var rest := Flushed(Run(s, es, max), w, max);
      Chain(s, es, rest, max);
      es := es + rest;
    }
  }

  lemma AcknowledgedHeard(s: State, w: Worker, max: nat) returns (es: seq<Event>)
    requires Good(s) && 0 < max && s.decoder == Awaiting(w) && s.threads(w).phase == Acknowledging
    ensures SameAbort(es) && Run(s, es, max).run == s.run && Run(s, es, max).decoder == Following(w)
  {
    hide Good, Run;
    AnswerAwaited(s, w);
    var a := DrainNotes(s, max);
    var t := s.(notes := []);
    var acknowledge, listen := ByWorker(w, Acknowledge), ByDecoder(Listen);
    RunNothing(t, max);
    RunOn(t, [], acknowledge, max);
    RunOn(t, [] + [acknowledge], listen, max);
    Chain(s, a, [] + [acknowledge] + [listen], max);
    es := a + ([] + [acknowledge] + [listen]);
  }

  // The decode thread listens up to the acknowledgement
  lemma {:induction false} AnswerHeard(s: State, w: Worker, max: nat) returns (es: seq<Event>)
    requires s.decoder == Awaiting(w) && Aborted(w) in s.notes
    ensures SameAbort(es) && Run(s, es, max).run == s.run && Run(s, es, max).decoder == Following(w)
    decreases |s.notes|
  {
    hide Run;
    var listen := ByDecoder(Listen);
    RunNothing(s, max);
    RunOn(s, [], listen, max);
    es := [] + [listen];
    if s.notes[0] != Aborted(w) {
      var rest := AnswerHeard(Run(s, es, max), w, max);
      Chain(s, es, rest, max);
      es := es + rest;
    }
  }

  // A request that is next in the queue is taken
  lemma RequestTaken(s: State, w: Worker, max: nat) returns (es: seq<Event>)
    requires Good(s) && s.run && !Aborting(s.threads(w).phase)
    requires s.threads(w).queue != [] && s.threads(w).queue[0] == Abort
    ensures SameAbort(es)
    ensures var t := Run(s, es, max); t.run == s.run && t.decoder == s.decoder && t.threads(w).phase == Flushing
  {
    hide Good, Run;
    var a := SettleAny(s, w, max);
    var t := Run(s, a, max);
    var poll := ByWorker(w, WorkerEvent.Poll);
    RunNothing(t, max);
    RunOn(t, [], poll, max);
    Chain(s, a, [] + [poll], max);
    es := a + ([] + [poll]);
  }

  lemma Unanswered(s: State, w: Worker)
    requires Good(s) && s.decoder == Awaiting(w) && !Lost(s) && Aborted(w) !in s.notes
    ensures var th := s.threads(w);
            Aborting(th.phase) || (th.queue != [] && th.queue[0] == Abort)
  {
    hide Still, Tidy;
    assert WorkerOk(s, w);
  }

  // An acknowledgement that is not lost can be heard
  lemma AwaitedHeard(s: State, w: Worker, max: nat) returns (es: seq<Event>)
    requires Good(s) && s.run && 0 < max && s.decoder == Awaiting(w) && !Lost(s)
    ensures SameAbort(es) && Run(s, es, max).run == s.run && Run(s, es, max).decoder == Following(w)
  {
    hide Good, Run, Lost;
    if Aborted(w) in s.notes {
      es := AnswerHeard(s, w, max);
      return;
    }
    Unanswered(s, w);
    var a := [];
    RunNothing(s, max);
    if !Aborting(s.threads(w).phase) {
      a := RequestTaken(s, w, max);
    }
    var t := Run(s, a, max);
    RunGood(s, a, max);
    var b := [];
    RunNothing(t, max);
    if t.threads(w).phase == Flushing {
      b := Flushed(t, w, max);
    }
    var u := Run(t, b, max);
    RunGood(t, b, max);
    var c := AcknowledgedHeard(u, w, max);
    Chain(s, a, b, max);
    Chain(s, a + b, c, max);
    es := a + b + c;
  }

  lemma GoodRuns(s: State)
    requires Good(s) && !s.decoder.Exited?
    ensures s.run
  {
    hide Inv;
  }

  lemma AbortCanClose(s: State, max: nat) returns (es: seq<Event>)
    requires Good(s) && 0 < max && (s.decoder.Asking? || s.decoder.Awaiting?) && !Lost(s)
    ensures SameAbort(es) && Run(s, es, max).decoder == Closing
  {
    hide Good, Run, Lost;
    GoodRuns(s);
    if s.decoder.Asking? {
      es := AskedToClose(s, max);
      return;
    }
    var a := AwaitedHeard(s, s.decoder.worker, max);
    var t := Run(s, a, max);
    RunGood(s, a, max);
    es := a;
    if t.decoder.Asking? {
      var b := AskedToClose(t, max);
      Chain(s, a, b, max);
      es := a + b;
    }
  }

  // An abort under way can come to close the file if and only if the worker awaited
  // has not lost its acknowledgement
  lemma AbortSucceeds(before: seq<Event>, max: nat)
    requires 0 < max
    requires var d := Run(Start(), before, max).decoder; d.Asking? || d.Awaiting?
    ensures var s := Run(Start(), before, max);
            (exists es :: SameAbort(es) && Run(s, es, max).decoder == Closing) <==> !Lost(s)
  {
    hide Good, Run, Start, Lost, SameAbort;
    var s := Run(Start(), before, max);
    StartGood();
    RunGood(Start(), before, max);
    if Lost(s) {
      forall es
        ensures Run(s, es, max).decoder != Closing
      {
        LostForever(s, es, max);
        LostAwaits(Run(s, es, max));
      }
    } else {
      var es := AbortCanClose(s, max);
    }
  }

  lemma LostAwaits(s: State)
    ensures Lost(s) ==> s.decoder.Awaiting?
  {
  }

  // Notifications of the decode thread to itself fill its queue.
  lemma {:induction false} FillNotes(s: State, max: nat) returns (es: seq<Event>)
    requires s.decoder.Serving? && |s.notes| <= max && Aborted(ReadPacket) !in s.notes
    ensures SameAbort(es)
    ensures var t := Run(s, es, max); t == s.(notes := t.notes) && |t.notes| == max && Aborted(ReadPacket) !in t.notes
    decreases max - |s.notes|
  {
    hide Run;
    var remark := ByDecoder(Remark);
    RunNothing(s, max);
    if |s.notes| == max {
      return [];
    }
    RunOn(s, [], remark, max);
    var rest := FillNotes(Run(s, [] + [remark], max), max);
    Chain(s, [] + [remark], rest, max);
    es := [] + [remark] + rest;
  }

  // With a full queue of notifications the acknowledgement is lost
  lemma LostReached(max: nat) returns (es: seq<Event>)
    requires 0 < max
    ensures Lost(Run(Start(), es, max))
  {
    hide Run;
    var a, b := ByDecoder(Open), ByDecoder(Opened(false, false, false));
    RunNothing(Start(), max);
    RunOn(Start(), [], a, max);
    RunOn(Start(), [] + [a], b, max);
    var s := Run(Start(), [] + [a] + [b], max);
    var fill := FillNotes(s, max);
    RunAppend(Start(), [] + [a] + [b], fill, max);
    var t := Run(s, fill, max);
    var rest := AcknowledgedInVain(t, max);
    RunAppend(Start(), [] + [a] + [b] + fill, rest, max);
    es := [] + [a] + [b] + fill + rest;
  }

  lemma AcknowledgedInVain(s: State, max: nat) returns (es: seq<Event>)
    requires 0 < max && s.decoder.Serving? && !s.player.Idle? && s.run && s.threads(ReadPacket) == Thread([], Polling)
    requires |s.notes| == max && Aborted(ReadPacket) !in s.notes
    ensures Lost(Run(s, es, max))
  {
    hide Run;
    var start := ByDecoder(StartAbort);
    RunNothing(s, max);
    RunOn(s, [], start, max);
    var t := Run(s, [] + [start], max);
    var a := AbortTaken(t, ReadPacket, max);
    RunAppend(s, [] + [start], a, max);
    es := [] + [start] + a;
    var acknowledge := ByWorker(ReadPacket, Acknowledge);
    RunOn(s, es, acknowledge, max);
    es := es + [acknowledge];
  }
}
