/** The acknowledged abort of source/video_player.c: the decode thread stops the
    three other workers one after another before it frees what they use. */
module WorkerAbort {
  import opened Options
  import opened PlayerStates
  import opened Queue

  datatype Worker = ReadPacket | Convert | DecodeVideo

  datatype Command = Read | SeekFile | Decode | ClearDecoder | StartConvert | ClearImages | Abort

  // Everything a worker says besides having aborted looks the same from here
  datatype Note = Aborted(worker: Worker) | Report

  // The decode thread
  datatype Decoder = Serving | Opening | Asking(worker: Worker) | Awaiting(worker: Worker) | Closing | Exited

  // Where a worker thread is in its loop. Past the gate the convert thread may use
  // the decoder; while it is writing it also holds a texture.
  datatype Phase =
    Polling | Busy(command: Command) | Flushing | Acknowledging | Acknowledged | AtGate | PastGate | Writing | Gone

  datatype Thread = Thread(queue: seq<Command>, phase: Phase)

  // What is open, and whether the convert thread and the decoder may use it
  datatype Media = Media(shouldConvert: bool, hasVideo: bool, textures: bool, live: bool, failed: bool)

  datatype State = State(player: PlayerState, run: bool, decoder: Decoder, notes: seq<Note>,
                         threads: Worker -> Thread, media: Media)

  function Update(threads: Worker -> Thread, w: Worker, th: Thread): (r: Worker -> Thread)
    ensures forall v :: r(v) == if v == w then th else threads(v)
  {
    v => if v == w then th else threads(v)
  }

  function With(s: State, w: Worker, th: Thread): State {
    s.(threads := Update(s.threads, w, th))
  }

  // ------------------------------------------------------------- the decode thread

  datatype DecoderEvent =
    | Open                                      // a file is to be played
    | Opened(video: bool, live: bool, ok: bool) // all of its parts are ready, or an error
    | Order(worker: Worker, command: Command)
    | Change(player: PlayerState)               // pause, resume, seek, buffering
    | StartAbort
    | Ask
    | Listen
    | TimeOut
    | Remark                                    // a notification to itself
    | Close(next: bool, shutdown: bool)

  predicate Ordinary(w: Worker, c: Command) {
    (w == ReadPacket && (c.Read? || c.SeekFile?)) || (w == DecodeVideo && (c.Decode? || c.ClearDecoder?))
  }

  // Whom Vid_abort_worker is called for once w has answered
  function Following(w: Worker): Decoder {
    match w
    case ReadPacket => Asking(Convert)
    case Convert => Asking(DecodeVideo)
    case DecodeVideo => Closing
  }

  function Fail(s: State): State {
    s.(run := false, player := Idle, decoder := Exited)
  }

  function Enqueue(s: State, w: Worker, c: Command, max: nat, front: bool): State {
    With(s, w, s.threads(w).(queue := Put(s.threads(w).queue, max, c, front)))
  }

  function Notify(s: State, n: Note, max: nat): State {
    s.(notes := Put(s.notes, max, n, false))
  }

  // A file is to be played; Vid_init_video_data frees what was left of the last one
  function DoOpen(s: State): State {
    if s.decoder.Serving? && Closed(s.player)
    then s.(media := s.media.(textures := false, hasVideo := false), player := Playing, decoder := Opening) else s
  }

  function DoOpened(s: State, video: bool, live: bool, ok: bool, max: nat): State {
    if !s.decoder.Opening? then s else
    var o := s.(media := s.media.(textures := video, hasVideo := video, live := live), decoder := Serving);
    if !ok then o else
    Enqueue(Enqueue(o.(player := if video then Buffering else o.player), ReadPacket, Read, max, false),
            Convert, StartConvert, max, false)
  }

  // The request goes to the front of the queue; a full queue fails at once
  function DoAsk(s: State, max: nat): State {
    if !s.decoder.Asking? then s else
    var w := s.decoder.worker;
    if |s.threads(w).queue| >= max then Fail(s) else
    Enqueue(s, w, Abort, max, true).(decoder := Awaiting(w))
  }

  // While a worker is awaited every other notification is dropped
  function DoListen(s: State): State {
    if s.notes == [] || !(s.decoder.Awaiting? || s.decoder.Serving?) then s else
    s.(notes := s.notes[1..],
       decoder := if s.decoder.Awaiting? && s.notes[0] == Aborted(s.decoder.worker)
                  then Following(s.decoder.worker) else s.decoder)
  }

  function DoClose(s: State, next: bool, shutdown: bool): State {
    if !s.decoder.Closing? then s else
    s.(media := s.media.(textures := false), player := if next then PreparePlaying else Idle,
       run := !shutdown, decoder := if shutdown then Exited else Serving)
  }

  function StepDecoder(s: State, e: DecoderEvent, max: nat): State {
    match e
    case Open => DoOpen(s)
    case Opened(video, live, ok) => DoOpened(s, video, live, ok, max)
    case Order(w, c) =>
      if s.decoder.Serving? && !Closed(s.player) && Ordinary(w, c) then Enqueue(s, w, c, max, false) else s
    case Change(p) =>
      if s.decoder.Serving? && !Closed(s.player) && !Closed(p) then s.(player := p) else s
    case StartAbort =>
      if s.decoder.Serving? && !s.player.Idle? then s.(decoder := Asking(ReadPacket)) else s
    case Ask => DoAsk(s, max)
    case Listen => DoListen(s)
    case TimeOut => if s.decoder.Awaiting? then Fail(s) else s
    case Remark => if s.decoder.Serving? then Notify(s, Report, max) else s
    case Close(next, shutdown) => DoClose(s, next, shutdown)
  }

  // ----------------------------------------------------------- the worker threads

  datatype WorkerEvent =
    | Poll
    | Flush
    | Acknowledge
    | Resume
    | Tell                 // any notification but the acknowledgement
    | Finish(fatal: bool)  // the command is done; fatal is a decoder error that is no request to retry
    | Proceed(write: bool)

  function After(w: Worker): Phase {
    if w == Convert then AtGate else Polling
  }

  function InPhase(s: State, w: Worker, p: Phase): State {
    With(s, w, s.threads(w).(phase := p))
  }

  predicate Handles(w: Worker, c: Command) {
    Ordinary(w, c) || (w == Convert && c.ClearImages?)
  }

  // A command that asks for work: after a fatal error packets are skipped, and
  // clearing is passed on without touching the decoder
  function Carry(s: State, w: Worker, c: Command, max: nat): State {
    if !Handles(w, c) || Closed(s.player) || (w == Convert && !s.media.hasVideo) then InPhase(s, w, After(w))
    else if c.Decode? && s.media.failed && s.media.live then Notify(InPhase(s, w, Polling), Report, max)
    else if c.ClearDecoder? && s.media.failed then
      Enqueue(InPhase(s, w, Polling), Convert, ClearImages, max, false)
    else InPhase(s, w, Busy(c))
  }

  // What w does with a command it took from its queue
  function Dispatch(s: State, w: Worker, c: Command, max: nat): State {
    match c
    case Abort =>
      InPhase(s, w, Flushing).(media := s.media.(shouldConvert := if w == Convert then false else s.media.shouldConvert))
    case StartConvert =>
      InPhase(s, w, After(w)).(media := s.media.(
        shouldConvert := s.media.shouldConvert || (w == Convert && !Closed(s.player) && s.media.hasVideo)))
    case _ => Carry(s, w, c, max)
  }

  function DoPoll(s: State, w: Worker, max: nat): State {
    var th := s.threads(w);
    if th.phase != Polling then s
    else if !s.run then InPhase(s, w, Gone)
    else if th.queue == [] then InPhase(s, w, After(w))
    else Dispatch(With(s, w, th.(queue := th.queue[1..])), w, th.queue[0], max)
  }

  function DoFlush(s: State, w: Worker): State {
    var th := s.threads(w);
    if th.phase != Flushing then s
    else With(s, w, if th.queue == [] then th.(phase := Acknowledging) else th.(queue := th.queue[1..]))
  }

  function DoAcknowledge(s: State, w: Worker, max: nat): State {
    if s.threads(w).phase != Acknowledging then s
    else Notify(InPhase(s, w, Acknowledged), Aborted(w), max)
  }

  function DoResume(s: State, w: Worker): State {
    if s.threads(w).phase != Acknowledged then s
    else InPhase(s, w, After(w)).(media := s.media.(failed := if w == DecodeVideo then false else s.media.failed))
  }

  function DoFinish(s: State, w: Worker, fatal: bool, max: nat): State {
    match s.threads(w).phase
    case Writing => InPhase(s, w, Polling)
    case Busy(c) =>
      var t := InPhase(s, w, After(w));
      if w == DecodeVideo && c.ClearDecoder? then Enqueue(t, Convert, ClearImages, max, false)
      else if w == DecodeVideo && c.Decode? && fatal && s.media.live then t.(media := s.media.(failed := true))
      else t
    case _ => s
  }

  // The convert thread goes on when a file is open and converting has been asked for
  function DoConvert(s: State, write: bool): State {
    match s.threads(Convert).phase
    case AtGate =>
      InPhase(s, Convert, if Closed(s.player) || s.player.PrepareSeeking? || !s.media.shouldConvert then Polling else PastGate)
    case PastGate => InPhase(s, Convert, if write && s.player.Playing? then Writing else Polling)
    case _ => s
  }

  function StepWorker(s: State, w: Worker, e: WorkerEvent, max: nat): State {
    match e
    case Poll => DoPoll(s, w, max)
    case Flush => DoFlush(s, w)
    case Acknowledge => DoAcknowledge(s, w, max)
    case Resume => DoResume(s, w)
    case Tell => if s.threads(w).phase.Busy? || s.threads(w).phase.PastGate? then Notify(s, Report, max) else s
    case Finish(fatal) => DoFinish(s, w, fatal, max)
    case Proceed(write) => if w == Convert then DoConvert(s, write) else s
  }

  datatype Event = ByDecoder(d: DecoderEvent) | ByWorker(w: Worker, e: WorkerEvent)

  function Step(s: State, e: Event, max: nat): State {
    match e
    case ByDecoder(d) => StepDecoder(s, d, max)
    case ByWorker(w, d) => StepWorker(s, w, d, max)
  }

  function Start(): State {
    State(Idle, true, Serving, [], _ => Thread([], Polling), Media(false, false, false, false, false))
  }

  function Run(s: State, es: seq<Event>, max: nat): State
    decreases |es|
  {
    if es == [] then s else Run(Step(s, es[0], max), es[1..], max)
  }

  // -------------------------------------------------------------------- invariant

  // w has nothing left to do with what is about to be freed
  ghost predicate Still(w: Worker, th: Thread, shouldConvert: bool) {
    if w == Convert then
      && !shouldConvert && StartConvert !in th.queue
      && !th.phase.PastGate? && !th.phase.Writing?
    else
      (forall i | 0 <= i < |th.queue| :: th.queue[i] == Abort) && !th.phase.Busy?
  }

  function Rank(w: Worker): nat {
    match w
    case ReadPacket => 0
    case Convert => 1
    case DecodeVideo => 2
  }

  // w has acknowledged and the next file is not open yet
  predicate Stopped(decoder: Decoder, player: PlayerState, w: Worker) {
    match decoder
    case Closing => true
    case Opening => true
    case Asking(v) => Closed(player) || Rank(w) < Rank(v)
    case Awaiting(v) => Closed(player) || Rank(w) < Rank(v)
    case Serving => Closed(player)
    case Exited => false
  }

  predicate Aborting(p: Phase) {
    p.Flushing? || p.Acknowledging?
  }

  // No request to abort, no answer to one, and nothing in between
  ghost predicate Quiet(w: Worker, th: Thread, notes: seq<Note>) {
    Abort !in th.queue && !Aborting(th.phase) && Aborted(w) !in notes
  }

  // The request is the first command, or it is being carried out, or answered
  ghost predicate Requested(w: Worker, th: Thread, notes: seq<Note>) {
    th.queue != [] && th.queue[0] == Abort && Abort !in th.queue[1..] && !Aborting(th.phase) && Aborted(w) !in notes
  }

  ghost predicate CarriedOut(w: Worker, th: Thread, notes: seq<Note>, shouldConvert: bool) {
    && Abort !in th.queue && Aborting(th.phase) && Aborted(w) !in notes
    && (w == Convert ==> !shouldConvert && (th.phase.Acknowledging? ==> StartConvert !in th.queue))
    && (w != Convert ==> th.phase.Acknowledging? ==> th.queue == [])
  }

  ghost predicate Answered(w: Worker, th: Thread, notes: seq<Note>, shouldConvert: bool) {
    Abort !in th.queue && !Aborting(th.phase) && multiset(notes)[Aborted(w)] <= 1 && Still(w, th, shouldConvert)
  }

  ghost predicate Handshake(awaited: bool, w: Worker, th: Thread, notes: seq<Note>, shouldConvert: bool) {
    if awaited then
      || Requested(w, th, notes)
      || CarriedOut(w, th, notes, shouldConvert)
      || Answered(w, th, notes, shouldConvert)
    else Quiet(w, th, notes)
  }

  ghost predicate WorkerOk(s: State, w: Worker) {
    && (!s.decoder.Exited? ==> Handshake(s.decoder == Awaiting(w), w, s.threads(w), s.notes, s.media.shouldConvert))
    && (Stopped(s.decoder, s.player, w) ==> Still(w, s.threads(w), s.media.shouldConvert))
    && (s.decoder.Opening? ==> s.player.Playing?)
  }

  // Wherever converting is possible, the textures of the open file exist
  ghost predicate TexturesOk(th: Thread, m: Media) {
    && (m.shouldConvert ==> m.hasVideo)
    && (th.phase.PastGate? || th.phase.Writing? ==> m.shouldConvert)
    && (m.shouldConvert || StartConvert in th.queue ==> m.textures == m.hasVideo)
  }

  // After a fatal error the decoder is left alone
  ghost predicate LatchOk(th: Thread, m: Media) {
    m.failed && m.live ==> !th.phase.Busy?
  }

  lemma OneFewer(notes: seq<Note>, w: Worker)
    requires notes != []
    ensures multiset(notes)[Aborted(w)] ==
            multiset(notes[1..])[Aborted(w)] + (if notes[0] == Aborted(w) then 1 else 0)
    ensures Aborted(w) in notes[1..] <==> multiset(notes[1..])[Aborted(w)] > 0
  {
    assert notes == [notes[0]] + notes[1..];
  }

  lemma PopKeeps(awaited: bool, w: Worker, th: Thread, notes: seq<Note>, shouldConvert: bool)
    requires notes != [] && !(awaited && notes[0] == Aborted(w))
    requires Handshake(awaited, w, th, notes, shouldConvert)
    ensures Handshake(awaited, w, th, notes[1..], shouldConvert)
  {
    hide Still;
    OneFewer(notes, w);
  }

  // Only a worker that has stopped answers, and it answers once
  lemma PopAnswer(w: Worker, th: Thread, notes: seq<Note>, shouldConvert: bool)
    requires notes != [] && notes[0] == Aborted(w)
    requires Handshake(true, w, th, notes, shouldConvert)
    ensures Handshake(false, w, th, notes[1..], shouldConvert) && Still(w, th, shouldConvert)
  {
    hide Still;
    OneFewer(notes, w);
  }

  lemma ListenStops(s: State, w: Worker)
    ensures DoListen(s).threads(w) == s.threads(w)
    ensures Stopped(DoListen(s).decoder, s.player, w) ==>
              Stopped(s.decoder, s.player, w) || (s.notes != [] && s.decoder == Awaiting(w) && s.notes[0] == Aborted(w))
  {
  }

  lemma ListenKeeps(s: State, w: Worker)
    requires WorkerOk(s, w)
    ensures WorkerOk(DoListen(s), w)
  {
    hide Handshake, Still, Stopped;
    ListenStops(s, w);
    if s.notes != [] && !s.decoder.Exited? {
      if s.decoder == Awaiting(w) && s.notes[0] == Aborted(w) {
        PopAnswer(w, s.threads(w), s.notes, s.media.shouldConvert);
      } else {
        PopKeeps(s.decoder == Awaiting(w), w, s.threads(w), s.notes, s.media.shouldConvert);
      }
    }
  }

  lemma Request(w: Worker, th: Thread, notes: seq<Note>, shouldConvert: bool)
    requires Handshake(false, w, th, notes, shouldConvert)
    ensures Handshake(true, w, th.(queue := [Abort] + th.queue), notes, shouldConvert)
    ensures Still(w, th, shouldConvert) ==> Still(w, th.(queue := [Abort] + th.queue), shouldConvert)
  {
    assert ([Abort] + th.queue)[1..] == th.queue;
  }

  lemma AskStops(s: State, w: Worker, max: nat)
    ensures Stopped(DoAsk(s, max).decoder, DoAsk(s, max).player, w) ==> Stopped(s.decoder, s.player, w)
    ensures var t := DoAsk(s, max);
            t.decoder.Exited? || t.threads(w) ==
              if s.decoder == Asking(w) then s.threads(w).(queue := [Abort] + s.threads(w).queue) else s.threads(w)
  {
  }

  lemma AskKeeps(s: State, w: Worker, max: nat)
    requires WorkerOk(s, w)
    ensures WorkerOk(DoAsk(s, max), w)
  {
    hide Handshake, Still, Stopped, Put;
    AskStops(s, w, max);
    if s.decoder == Asking(w) {
      Request(w, s.threads(w), s.notes, s.media.shouldConvert);
    }
  }

  lemma QueueKeepsQuiet(w: Worker, th: Thread, c: Command, notes: seq<Note>, shouldConvert: bool, max: nat)
    requires Handshake(false, w, th, notes, shouldConvert) && c != Abort
    ensures Handshake(false, w, th.(queue := Put(th.queue, max, c, false)), notes, shouldConvert)
  {
  }

  lemma OpenedKeeps(s: State, video: bool, live: bool, ok: bool, w: Worker, max: nat)
    requires WorkerOk(s, w)
    ensures WorkerOk(DoOpened(s, video, live, ok, max), w)
  {
    hide Handshake, Still, Put;
    if s.decoder.Opening? {
      QueueKeepsQuiet(w, s.threads(w), Read, s.notes, s.media.shouldConvert, max);
      QueueKeepsQuiet(w, s.threads(w), StartConvert, s.notes, s.media.shouldConvert, max);
    }
  }

  lemma SendKeeps(s: State, v: Worker, c: Command, w: Worker, max: nat)
    requires WorkerOk(s, w) && s.decoder.Serving? && !Closed(s.player) && c != Abort
    ensures WorkerOk(Enqueue(s, v, c, max, false), w)
  {
    hide Handshake, Still, Put;
    QueueKeepsQuiet(w, s.threads(w), c, s.notes, s.media.shouldConvert, max);
  }

  lemma CloseKeeps(s: State, next: bool, shutdown: bool, w: Worker)
    requires WorkerOk(s, w)
    ensures WorkerOk(DoClose(s, next, shutdown), w)
  {
    hide Handshake, Still;
  }

  lemma DecoderKeeps(s: State, e: DecoderEvent, w: Worker, max: nat)
    requires WorkerOk(s, w)
    ensures WorkerOk(StepDecoder(s, e, max), w)
  {
    hide Handshake, Still, Put, Enqueue, DoListen, DoAsk, DoOpened, DoClose;
    match e {
      case Listen => ListenKeeps(s, w);
      case Ask => AskKeeps(s, w, max);
      case Opened(video, live, ok) => OpenedKeeps(s, video, live, ok, w, max);
      case Close(next, shutdown) => CloseKeeps(s, next, shutdown, w);
      case Order(v, c) =>
        if s.decoder.Serving? && !Closed(s.player) && c != Abort {
          SendKeeps(s, v, c, w, max);
        }
      case Remark => NoteKeeps(s, Report, w, max);
      case _ =>
    }
  }

  // Steps that leave everything but w's own thread alone
  lemma PhaseKeeps(s: State, w: Worker, p: Phase)
    requires WorkerOk(s, w) && !Aborting(s.threads(w).phase) && !Aborting(p)
    requires Still(w, s.threads(w), s.media.shouldConvert) ==>
               Still(w, s.threads(w).(phase := p), s.media.shouldConvert)
    ensures WorkerOk(InPhase(s, w, p), w)
  {
    hide Still, Stopped;
  }

  lemma NoteKeeps(s: State, n: Note, w: Worker, max: nat)
    requires WorkerOk(s, w) && n != Aborted(w)
    ensures WorkerOk(Notify(s, n, max), w)
  {
    hide Still, Stopped;
  }

  lemma ClearKeeps(s: State, w: Worker, max: nat)
    requires WorkerOk(s, w)
    ensures WorkerOk(Enqueue(s, Convert, ClearImages, max, false), w)
  {
    hide Stopped;
  }

  // Convert's flag is no concern of the others
  lemma FlagKeeps(s: State, m: Media, w: Worker)
    requires WorkerOk(s, w) && (w == Convert ==> s.media.shouldConvert == m.shouldConvert)
    ensures WorkerOk(s.(media := m), w)
  {
    hide Stopped;
  }

  lemma TakeAbort(s: State, w: Worker, m: Media)
    requires WorkerOk(s, w) && s.threads(w).phase == Polling
    requires s.threads(w).queue != [] && s.threads(w).queue[0] == Abort
    requires w == Convert ==> !m.shouldConvert
    ensures var t := With(s, w, Thread(s.threads(w).queue[1..], Flushing)).(media := m);
            WorkerOk(t, w)
  {
    hide Stopped;
  }

  lemma TakeOther(s: State, w: Worker)
    requires WorkerOk(s, w) && s.threads(w).phase == Polling
    requires s.threads(w).queue != [] && s.threads(w).queue[0] != Abort
    ensures var t := With(s, w, s.threads(w).(queue := s.threads(w).queue[1..]));
            && WorkerOk(t, w)
            && (w != Convert || s.threads(w).queue[0] == StartConvert ==>
                  s.decoder != Awaiting(w) && !Stopped(s.decoder, s.player, w))
  {
  }

  // A command that is no abort request is carried out as before
  lemma DispatchKeeps(s: State, w: Worker, c: Command, max: nat)
    requires WorkerOk(s, w) && s.threads(w).phase == Polling && c != Abort
    requires w != Convert || c == StartConvert ==>
               s.decoder != Awaiting(w) && !Stopped(s.decoder, s.player, w)
    ensures WorkerOk(Dispatch(s, w, c, max), w)
  {
    hide Stopped;
  }

  lemma PollKeeps(s: State, w: Worker, max: nat)
    requires WorkerOk(s, w)
    ensures WorkerOk(DoPoll(s, w, max), w)
  {
    hide Handshake, Still, Stopped, Put;
    var th := s.threads(w);
    if th.phase == Polling && s.run && th.queue != [] {
      if th.queue[0] == Abort {
        TakeAbort(s, w, s.media.(shouldConvert := if w == Convert then false else s.media.shouldConvert));
      } else {
        TakeOther(s, w);
        DispatchKeeps(With(s, w, th.(queue := th.queue[1..])), w, th.queue[0], max);
      }
    } else if th.phase == Polling {
      StillAfter(w, th, s.media.shouldConvert);
      PhaseKeeps(s, w, if s.run then After(w) else Gone);
    }
  }

  lemma StillAfter(w: Worker, th: Thread, shouldConvert: bool)
    ensures Still(w, th, shouldConvert) ==>
              Still(w, th.(phase := Gone), shouldConvert) && Still(w, th.(phase := After(w)), shouldConvert)
  {
  }

  lemma FlushKeeps(s: State, w: Worker)
    requires WorkerOk(s, w)
    ensures WorkerOk(DoFlush(s, w), w)
  {
    hide Stopped;
  }

  lemma AcknowledgeKeeps(s: State, w: Worker, max: nat)
    requires WorkerOk(s, w)
    ensures WorkerOk(DoAcknowledge(s, w, max), w)
  {
    hide Stopped;
  }

  lemma ResumeKeeps(s: State, w: Worker)
    requires WorkerOk(s, w)
    ensures WorkerOk(DoResume(s, w), w)
  {
    hide Handshake, Still, Stopped;
    if s.threads(w).phase == Acknowledged {
      StillAfter(w, s.threads(w), s.media.shouldConvert);
      PhaseKeeps(s, w, After(w));
    }
  }

  lemma StillProceed(w: Worker, th: Thread, shouldConvert: bool, p: Phase)
    requires th.phase.AtGate? || th.phase.PastGate?
    requires p == Polling || (shouldConvert && (p.PastGate? || p.Writing?))
    ensures Still(w, th, shouldConvert) ==> Still(w, th.(phase := p), shouldConvert)
  {
  }

  lemma ProceedKeeps(s: State, write: bool)
    requires WorkerOk(s, Convert) && (s.threads(Convert).phase.PastGate? ==> s.media.shouldConvert)
    ensures WorkerOk(DoConvert(s, write), Convert)
  {
    hide Handshake, Still, Stopped;
    var th := s.threads(Convert);
    if th.phase.AtGate? || th.phase.PastGate? {
      var p := DoConvert(s, write).threads(Convert).phase;
      StillProceed(Convert, th, s.media.shouldConvert, p);
      PhaseKeeps(s, Convert, p);
    }
  }

  lemma StillFinish(w: Worker, th: Thread, shouldConvert: bool)
    requires th.phase.Busy? || th.phase.Writing?
    ensures Still(w, th, shouldConvert) ==> Still(w, th.(phase := After(w)), shouldConvert)
    ensures Still(w, th, shouldConvert) ==> Still(w, th.(phase := Polling), shouldConvert)
  {
  }

  lemma FinishKeeps(s: State, w: Worker, fatal: bool, max: nat)
    requires WorkerOk(s, w)
    ensures WorkerOk(DoFinish(s, w, fatal, max), w)
  {
    hide Handshake, Still, Stopped, Put;
    var th := s.threads(w);
    if th.phase.Busy? || th.phase.Writing? {
      StillFinish(w, th, s.media.shouldConvert);
      PhaseKeeps(s, w, if th.phase.Busy? then After(w) else Polling);
    }
  }

  lemma OwnKeeps(s: State, w: Worker, e: WorkerEvent, max: nat)
    requires WorkerOk(s, w) && (s.threads(Convert).phase.PastGate? ==> s.media.shouldConvert)
    ensures WorkerOk(StepWorker(s, w, e, max), w)
  {
    hide WorkerOk, DoPoll, DoFlush, DoAcknowledge, DoFinish, DoResume, DoConvert;
    match e {
      case Poll => PollKeeps(s, w, max);
      case Flush => FlushKeeps(s, w);
      case Acknowledge => AcknowledgeKeeps(s, w, max);
      case Finish(fatal) => FinishKeeps(s, w, fatal, max);
      case Tell => NoteKeeps(s, Report, w, max);
      case Resume => ResumeKeeps(s, w);
      case Proceed(write) =>
        if w == Convert {
          ProceedKeeps(s, write);
        }
    }
  }

  // What a step of v may change of the rest of the state
  ghost predicate Elsewhere(s: State, t: State, v: Worker, w: Worker, max: nat) {
    && t.player == s.player && t.decoder == s.decoder
    && (t.notes == s.notes || t.notes == Put(s.notes, max, Report, false) || t.notes == Put(s.notes, max, Aborted(v), false))
    && (t.threads(w) == s.threads(w) ||
        (w == Convert && t.threads(w) == s.threads(w).(queue := Put(s.threads(w).queue, max, ClearImages, false))))
    && (v != Convert ==> t.media.shouldConvert == s.media.shouldConvert)
  }

  lemma PollElsewhere(s: State, v: Worker, w: Worker, max: nat)
    requires v != w
    ensures Elsewhere(s, DoPoll(s, v, max), v, w, max)
  {
    hide Put, Dispatch;
    var th := s.threads(v);
    if th.phase == Polling && s.run && th.queue != [] {
      DispatchElsewhere(With(s, v, th.(queue := th.queue[1..])), v, th.queue[0], w, max);
    }
  }

  lemma DispatchElsewhere(s: State, v: Worker, c: Command, w: Worker, max: nat)
    requires v != w
    ensures Elsewhere(s, Dispatch(s, v, c, max), v, w, max)
  {
    hide Put, Carry;
    CarryElsewhere(s, v, c, w, max);
  }

  lemma CarryElsewhere(s: State, v: Worker, c: Command, w: Worker, max: nat)
    requires v != w
    ensures Elsewhere(s, Carry(s, v, c, max), v, w, max)
  {
    hide Put;
  }

  lemma StepElsewhere(s: State, v: Worker, e: WorkerEvent, w: Worker, max: nat)
    requires v != w
    ensures Elsewhere(s, StepWorker(s, v, e, max), v, w, max)
  {
    hide Put, DoPoll, DoFinish;
    if e.Poll? {
      PollElsewhere(s, v, w, max);
    } else if e.Finish? {
      FinishElsewhere(s, v, w, e.fatal, max);
    }
  }

  lemma FinishElsewhere(s: State, v: Worker, w: Worker, fatal: bool, max: nat)
    requires v != w
    ensures Elsewhere(s, DoFinish(s, v, fatal, max), v, w, max)
  {
    hide Put;
  }

  lemma OtherKeeps(s: State, t: State, v: Worker, w: Worker, max: nat)
    requires WorkerOk(s, w) && v != w && Elsewhere(s, t, v, w, max)
    ensures WorkerOk(t, w)
  {
    hide WorkerOk, Put;
    var n := if t.notes == Put(s.notes, max, Report, false) then Report else Aborted(v);
    var a := if t.notes == s.notes then s else Notify(s, n, max);
    if t.notes != s.notes {
      NoteKeeps(s, n, w, max);
    }
    var b := if t.threads(w) == s.threads(w) then a else Enqueue(a, Convert, ClearImages, max, false);
    if t.threads(w) != s.threads(w) {
      ClearKeeps(a, w, max);
    }
    FlagKeeps(b, t.media, w);
    SameView(b.(media := t.media), t, w);
  }

  lemma SameView(s: State, t: State, w: Worker)
    requires WorkerOk(s, w)
    requires t.player == s.player && t.decoder == s.decoder && t.notes == s.notes
    requires t.threads(w) == s.threads(w) && t.media == s.media
    ensures WorkerOk(t, w)
  {
    hide Handshake, Still, Stopped;
  }

  ghost predicate MediaOk(s: State) {
    TexturesOk(s.threads(Convert), s.media) && LatchOk(s.threads(DecodeVideo), s.media)
  }

  ghost predicate Inv(s: State) {
    (forall w: Worker :: WorkerOk(s, w)) && MediaOk(s)
  }

  // The two threads that matter here have stopped wherever media change
  lemma StoppedStill(s: State)
    requires forall w: Worker :: WorkerOk(s, w)
    requires s.decoder.Opening? || s.decoder.Closing? || (s.decoder.Serving? && Closed(s.player))
    ensures !s.media.shouldConvert && StartConvert !in s.threads(Convert).queue
    ensures !s.threads(Convert).phase.PastGate? && !s.threads(Convert).phase.Writing?
    ensures s.threads(ReadPacket).queue == s.threads(DecodeVideo).queue == []
    ensures !s.threads(ReadPacket).phase.Busy? && !s.threads(DecodeVideo).phase.Busy?
  {
    hide Handshake;
    assert WorkerOk(s, ReadPacket) && WorkerOk(s, Convert) && WorkerOk(s, DecodeVideo);
    StillQueue(ReadPacket, s.threads(ReadPacket), s.media.shouldConvert);
    StillQueue(DecodeVideo, s.threads(DecodeVideo), s.media.shouldConvert);
    NoRequest(s, ReadPacket);
    NoRequest(s, DecodeVideo);
  }

  lemma StillQueue(w: Worker, th: Thread, shouldConvert: bool)
    requires Still(w, th, shouldConvert) && w != Convert
    ensures th.queue == [] || Abort in th.queue
  {
    if th.queue != [] {
      assert th.queue[0] in th.queue;
    }
  }

  lemma NoRequest(s: State, w: Worker)
    requires WorkerOk(s, w) && !s.decoder.Exited? && s.decoder != Awaiting(w)
    ensures Abort !in s.threads(w).queue
  {
  }

  lemma DecoderMedia(s: State, e: DecoderEvent, max: nat)
    requires Inv(s)
    ensures MediaOk(StepDecoder(s, e, max))
  {
    hide WorkerOk, Stopped, DoOpened;
    if s.decoder.Opening? || s.decoder.Closing? || (s.decoder.Serving? && Closed(s.player)) {
      StoppedStill(s);
    }
    if e.Opened? {
      OpenedMedia(s, e.video, e.live, e.ok, max);
    }
  }

  lemma OpenedMedia(s: State, video: bool, live: bool, ok: bool, max: nat)
    requires Inv(s)
    ensures MediaOk(DoOpened(s, video, live, ok, max))
  {
    hide WorkerOk, Stopped;
    if s.decoder.Opening? {
      StoppedStill(s);
    }
  }

  lemma WorkerMedia(s: State, w: Worker, e: WorkerEvent, max: nat)
    requires MediaOk(s)
    ensures MediaOk(StepWorker(s, w, e, max))
  {
    hide DoPoll, DoFinish;
    if e.Poll? {
      PollMedia(s, w, max);
    } else if e.Finish? {
      FinishMedia(s, w, e.fatal, max);
    }
  }

  lemma CarryMedia(s: State, w: Worker, c: Command, max: nat)
    requires MediaOk(s) && s.threads(w).phase == Polling
    ensures MediaOk(Carry(s, w, c, max))
  {
    hide Put;
    PutMember(s.threads(Convert).queue, max, ClearImages, StartConvert);
  }

  lemma PutMember<T>(q: seq<T>, max: nat, x: T, y: T)
    requires x != y
    ensures y in Put(q, max, x, false) <==> y in q
  {
  }

  lemma AbortMedia(s: State, w: Worker, max: nat)
    requires MediaOk(s) && s.threads(w).phase == Polling
    ensures MediaOk(Dispatch(s, w, Abort, max))
  {
  }

  lemma StartMedia(s: State, w: Worker, max: nat)
    requires MediaOk(s) && s.threads(w).phase == Polling
    requires w == Convert ==> s.media.textures == s.media.hasVideo
    ensures MediaOk(Dispatch(s, w, StartConvert, max))
  {
  }

  lemma DispatchMedia(s: State, w: Worker, c: Command, max: nat)
    requires MediaOk(s) && s.threads(w).phase == Polling
    requires w == Convert && c == StartConvert ==> s.media.textures == s.media.hasVideo
    ensures MediaOk(Dispatch(s, w, c, max))
  {
    hide MediaOk, Carry;
    match c {
      case Abort => AbortMedia(s, w, max);
      case StartConvert => StartMedia(s, w, max);
      case _ => CarryMedia(s, w, c, max);
    }
  }

  lemma PollMedia(s: State, w: Worker, max: nat)
    requires MediaOk(s)
    ensures MediaOk(DoPoll(s, w, max))
  {
    hide Dispatch;
    var th := s.threads(w);
    if th.phase == Polling && s.run && th.queue != [] {
      DispatchMedia(With(s, w, th.(queue := th.queue[1..])), w, th.queue[0], max);
    }
  }

  lemma FinishMedia(s: State, w: Worker, fatal: bool, max: nat)
    requires MediaOk(s)
    ensures MediaOk(DoFinish(s, w, fatal, max))
  {
  }

  lemma PastGateAsked(s: State)
    requires MediaOk(s)
    ensures s.threads(Convert).phase.PastGate? ==> s.media.shouldConvert
  {
  }

  lemma StepKeeps(s: State, e: Event, max: nat)
    requires Inv(s)
    ensures Inv(Step(s, e, max))
  {
    hide WorkerOk, MediaOk, StepDecoder, StepWorker, Elsewhere;
    match e {
      case ByDecoder(d) =>
        DecoderMedia(s, d, max);
        forall w: Worker
          ensures WorkerOk(StepDecoder(s, d, max), w)
        {
          DecoderKeeps(s, d, w, max);
        }
      case ByWorker(v, d) =>
        WorkerMedia(s, v, d, max);
        PastGateAsked(s);
        forall w: Worker
          ensures WorkerOk(StepWorker(s, v, d, max), w)
        {
          if v == w {
            OwnKeeps(s, w, d, max);
          } else {
            StepElsewhere(s, v, d, w, max);
            OtherKeeps(s, StepWorker(s, v, d, max), v, w, max);
          }
        }
    }
  }

  // ---------------------------------------------------------------- Vid_abort_worker

  // heard is what the notification queue gives on each attempt before the deadline;
  // the first attempts of them are taken out of it
  method AbortWorker<D>(commands: Queue<D>, request: nat, expected: nat, heard: seq<Option<nat>>)
    returns (answered: bool, attempts: nat)
    requires commands.Valid()
    modifies commands, commands.eventId, commands.data
    ensures commands.Valid()
    ensures commands.Contents() == Put(old(commands.Contents()), commands.maxItems, Message(request, None), true)
    ensures answered == (|old(commands.Contents())| < commands.maxItems && Some(expected) in heard)
    ensures answered ==> 0 < attempts <= |heard| && heard[attempts - 1] == Some(expected)
    ensures answered ==> Some(expected) !in heard[..attempts - 1]
    ensures !answered ==> attempts == if |old(commands.Contents())| < commands.maxItems then |heard| else 0
  {
    hide Queue.Valid, Queue.Contents;
    attempts := 0;
    var status := commands.Add(request, None, false, true);
    if status != Success {
      return false, 0;
    }
    while attempts < |heard|
      invariant 0 <= attempts <= |heard| && Some(expected) !in heard[..attempts]
    {
      var notification := heard[attempts];
      attempts := attempts + 1;
      if notification == Some(expected) {
        return true, attempts;
      }
    }
    return false, attempts;
  }

  // ------------------------------------------------------------------------ runs

  lemma StartOk()
    ensures Inv(Start())
  {
  }

  lemma {:induction false} RunKeeps(s: State, es: seq<Event>, max: nat)
    requires Inv(s)
    ensures Inv(Run(s, es, max))
    decreases |es|
  {
    hide Inv, Step;
    if es != [] {
      StepKeeps(s, es[0], max);
      RunKeeps(Step(s, es[0], max), es[1..], max);
    }
  }

  // However the threads interleave: the textures exist while one is written; when
  // they are freed, by an abort or for the next file, nobody converts or is about
  // to; and after a fatal error no packet reaches the decoder
  lemma RunsSafe(es: seq<Event>, max: nat)
    ensures var s := Run(Start(), es, max);
            && (s.threads(Convert).phase.Writing? ==> s.media.textures)
            && (s.decoder.Closing? || (s.decoder.Serving? && Closed(s.player)) ==>
                  && !s.media.shouldConvert && StartConvert !in s.threads(Convert).queue
                  && !s.threads(Convert).phase.PastGate? && !s.threads(Convert).phase.Writing?
                  && s.threads(ReadPacket).queue == s.threads(DecodeVideo).queue == []
                  && !s.threads(ReadPacket).phase.Busy? && !s.threads(DecodeVideo).phase.Busy?)
            && (s.media.failed && s.media.live ==> !s.threads(DecodeVideo).phase.Busy?)
  {
    hide Run, WorkerOk;
    StartOk();
    RunKeeps(Start(), es, max);
    var s := Run(Start(), es, max);
    if s.decoder.Closing? || (s.decoder.Serving? && Closed(s.player)) {
      StoppedStill(s);
    }
  }

  predicate NotOpened(es: seq<Event>) {
    forall i | 0 <= i < |es| :: !(es[i].ByDecoder? && es[i].d.Opened?)
  }

  lemma StaysStopped(s: State, e: Event, w: Worker, max: nat)
    requires Stopped(s.decoder, s.player, w) && !(e.ByDecoder? && e.d.Opened?)
    ensures var t := Step(s, e, max); t.decoder.Exited? || Stopped(t.decoder, t.player, w)
  {
    hide StepWorker;
    if e.ByWorker? {
      PlayerUnchanged(s, e.w, e.e, max);
    }
  }

  lemma PlayerUnchanged(s: State, w: Worker, e: WorkerEvent, max: nat)
    ensures var t := StepWorker(s, w, e, max);
            t.player == s.player && t.decoder == s.decoder && t.media.textures == s.media.textures
  {
    hide Put, DoPoll;
    if e.Poll? {
      PollPlayer(s, w, max);
    }
  }

  lemma PollPlayer(s: State, w: Worker, max: nat)
    ensures var t := DoPoll(s, w, max);
            t.player == s.player && t.decoder == s.decoder && t.media.textures == s.media.textures
  {
    hide Put, Carry;
    if s.threads(w).queue != [] {
      CarryPlayer(With(s, w, s.threads(w).(queue := s.threads(w).queue[1..])), w, s.threads(w).queue[0], max);
    }
  }

  lemma CarryPlayer(s: State, w: Worker, c: Command, max: nat)
    ensures var t := Carry(s, w, c, max);
            t.player == s.player && t.decoder == s.decoder && t.media == s.media
  {
    hide Put, Handles;
  }

  lemma {:induction false} RunStaysStopped(s: State, es: seq<Event>, w: Worker, max: nat)
    requires (s.decoder.Exited? || Stopped(s.decoder, s.player, w)) && NotOpened(es)
    ensures var r := Run(s, es, max); r.decoder.Exited? || Stopped(r.decoder, r.player, w)
    decreases |es|
  {
    hide Step, Stopped;
    if es != [] {
      if s.decoder.Exited? {
        ExitedStays(s, es[0], max);
      } else {
        StaysStopped(s, es[0], w, max);
      }
      RunStaysStopped(Step(s, es[0], max), es[1..], w, max);
    }
  }

  // Once the abort of a worker has been acknowledged, it has nothing left to do
  // until the next file is open
  lemma AcknowledgedStaysStill(s: State, w: Worker, es: seq<Event>, max: nat)
    requires Inv(s) && s.decoder == Awaiting(w) && s.notes != [] && s.notes[0] == Aborted(w)
    requires NotOpened(es)
    ensures var r := Run(DoListen(s), es, max);
            r.decoder.Exited? || Still(w, r.threads(w), r.media.shouldConvert)
  {
    hide Run, Still, Step;
    var t := DoListen(s);
    assert t == Step(s, ByDecoder(Listen), max) by { ListenIsStep(s, max); }
    assert Stopped(t.decoder, t.player, w);
    StepKeeps(s, ByDecoder(Listen), max);
    RunKeeps(t, es, max);
    RunStaysStopped(t, es, w, max);
    assert WorkerOk(Run(t, es, max), w);
  }

  lemma ListenIsStep(s: State, max: nat)
    ensures Step(s, ByDecoder(Listen), max) == DoListen(s)
  {
  }

  lemma ExitedStays(s: State, e: Event, max: nat)
    requires s.decoder.Exited?
    ensures Step(s, e, max).decoder.Exited? && Step(s, e, max).media.textures == s.media.textures
  {
    hide Put, StepWorker;
    if e.ByWorker? {
      PlayerUnchanged(s, e.w, e.e, max);
    }
  }

  lemma {:induction false} ExitedFreesNothing(s: State, es: seq<Event>, max: nat)
    requires s.decoder.Exited?
    ensures Run(s, es, max).decoder.Exited? && Run(s, es, max).media.textures == s.media.textures
    decreases |es|
  {
    hide Step;
    if es != [] {
      ExitedStays(s, es[0], max);
      ExitedFreesNothing(Step(s, es[0], max), es[1..], max);
    }
  }

  // A full queue or a missing acknowledgement ends the thread with everything kept
  lemma FailureFreesNothing(s: State, e: DecoderEvent, es: seq<Event>, max: nat)
    requires !s.decoder.Exited? && (e == Ask || e == TimeOut)
    requires StepDecoder(s, e, max).decoder.Exited?
    ensures Run(StepDecoder(s, e, max), es, max).media.textures == s.media.textures
  {
    hide Put;
    ExitedFreesNothing(StepDecoder(s, e, max), es, max);
  }

  // Textures are made by a file that opens with video, and by nothing else
  lemma TexturesMade(s: State, e: Event, max: nat)
    requires Step(s, e, max).media.textures && !s.media.textures
    ensures s.decoder.Opening? && e.ByDecoder? && e.d.Opened? && e.d.video
  {
    hide Put, StepWorker;
    if e.ByWorker? {
      PlayerUnchanged(s, e.w, e.e, max);
    }
  }

  lemma {:induction false} NoneMade(s: State, es: seq<Event>, max: nat)
    requires !s.media.textures && NotOpened(es)
    ensures !Run(s, es, max).media.textures
    decreases |es|
  {
    hide Step;
    if es != [] {
      if Step(s, es[0], max).media.textures {
        TexturesMade(s, es[0], max);
      }
      NoneMade(Step(s, es[0], max), es[1..], max);
    }
  }

  // An abort that has come to close the file frees the textures, and there are none
  // until the next file is open
  lemma CloseFrees(s: State, next: bool, shutdown: bool, es: seq<Event>, max: nat)
    requires s.decoder.Closing? && NotOpened(es)
    ensures var t := Step(s, ByDecoder(Close(next, shutdown)), max);
            && !t.media.textures && t.player == (if next then PreparePlaying else Idle)
            && t.decoder == (if shutdown then Exited else Serving) && t.run == !shutdown
            && !Run(t, es, max).media.textures
  {
    hide Run;
    NoneMade(Step(s, ByDecoder(Close(next, shutdown)), max), es, max);
  }

  // A run in which a texture is written
  lemma WriteReached(max: nat) returns (es: seq<Event>)
    requires 0 < max
    ensures var s := Run(Start(), es, max); s.threads(Convert).phase.Writing? && s.media.textures
  {
    hide Run, Step;
    es := PlayReached(max);
    var s := Run(Start(), es, max);
    var a, b := ByWorker(Convert, Poll), ByWorker(Convert, Proceed(true));
    RunOn(Start(), es, a, max);
    RunOn(Start(), es + [a], b, max);
    RunOn(Start(), es + [a] + [b], b, max);
    ConvertWrites(s, max);
    es := es + [a] + [b] + [b];
  }

  // A file with video plays, and the convert thread is asked to start.
  lemma PlayReached(max: nat) returns (es: seq<Event>)
    requires 0 < max
    ensures var s := Run(Start(), es, max);
            && s.run && s.player == Playing && s.media.textures && s.media.hasVideo
            && s.threads(Convert) == Thread([StartConvert], Polling)
  {
    hide Run;
    var a, b, c := ByDecoder(Open), ByDecoder(Opened(true, false, true)), ByDecoder(Change(Playing));
    assert Run(Start(), [], max) == Start() by { NoRun(Start(), max); }
    RunOn(Start(), [], a, max);
    RunOn(Start(), [] + [a], b, max);
    RunOn(Start(), [] + [a] + [b], c, max);
    es := [] + [a] + [b] + [c];
  }

  lemma ConvertWrites(s: State, max: nat)
    requires s.run && s.player == Playing && s.media.textures && s.media.hasVideo
    requires s.threads(Convert) == Thread([StartConvert], Polling)
    ensures var a, b := ByWorker(Convert, Poll), ByWorker(Convert, Proceed(true));
            var t := Step(Step(Step(s, a, max), b, max), b, max);
            t.threads(Convert).phase.Writing? && t.media.textures
  {
  }

  lemma NoRun(s: State, max: nat)
    ensures Run(s, [], max) == s
  {
  }

  lemma {:induction false} RunAppend(s: State, a: seq<Event>, b: seq<Event>, max: nat)
    ensures Run(s, a + b, max) == Run(Run(s, a, max), b, max)
    decreases |a|
  {
    hide Step;
    if a == [] {
      assert a + b == b;
    } else {
      assert (a + b)[0] == a[0] && (a + b)[1..] == a[1..] + b;
      RunAppend(Step(s, a[0], max), a[1..], b, max);
    }
  }

  lemma RunOn(s: State, es: seq<Event>, e: Event, max: nat)
    ensures Run(s, es + [e], max) == Step(Run(s, es, max), e, max)
  {
    hide Step;
    RunAppend(s, es, [e], max);
    assert [e][1..] == [];
  }
}
