/** Play, pause, seek and buffering in source/video_player.c: the player keeps one
    of seven states and a flag to resume later, and what it refines is a phase
    beside the user's last wish. */
module PlayIntent {
  import opened PlayerStates

  // ------------------------------------------------------------- the simple machine

  datatype Phase = Steady | Refilling | SeekAsked | SeekRunning

  // With autoplay a live stream starts once its first buffering is done
  datatype Playback = Playback(phase: Phase, wanted: bool, autoplay: bool)

  datatype Event =
    | PauseRequest
    | ResumeRequest
    | SeekRequest
    | FinishedSeeking(noTracks: bool)
    | FinishedClearing
    | FinishedBuffering
    | OutOfBuffer(drained: bool)
    | ReachedTarget(video: bool)

  function Next(p: Playback, e: Event): Playback {
    match e
    case PauseRequest => p.(wanted := false)
    case ResumeRequest => p.(wanted := true)
    case SeekRequest => p.(phase := SeekAsked)
    case FinishedSeeking(noTracks) => if p.phase.SeekAsked? && noTracks then p.(phase := SeekRunning) else p
    case FinishedClearing => if p.phase.SeekAsked? then p.(phase := SeekRunning) else p
    case FinishedBuffering => if p.phase.Refilling? then Playback(Steady, p.wanted || p.autoplay, false) else p
    case OutOfBuffer(drained) => if p.phase.Steady? && !drained then p.(phase := Refilling) else p
    case ReachedTarget(video) =>
      if p.phase.SeekRunning? then p.(phase := if video then Refilling else Steady) else p
  }

  function Run(p: Playback, es: seq<Event>): Playback
    decreases |es|
  {
    if es == [] then p else Run(Next(p, es[0]), es[1..])
  }

  // ------------------------------------------------------------------- the phases

  // Where each event leads from each phase: a request to seek starts over; asking for
  // a seek ends when the data is there; running to the target ends in buffering, or
  // at once without video; buffering ends when it is done, and begins again when
  // more is to come and nothing is left
  lemma PhaseAfter(p: Playback, e: Event)
    ensures var q := Next(p, e).phase;
            match e
            case PauseRequest => q == p.phase
            case ResumeRequest => q == p.phase
            case SeekRequest => q == SeekAsked
            case FinishedSeeking(noTracks) => q == if p.phase == SeekAsked && noTracks then SeekRunning else p.phase
            case FinishedClearing => q == if p.phase == SeekAsked then SeekRunning else p.phase
            case FinishedBuffering => q == if p.phase == Refilling then Steady else p.phase
            case OutOfBuffer(drained) => q == if p.phase == Steady && !drained then Refilling else p.phase
            case ReachedTarget(video) =>
              q == if p.phase == SeekRunning then (if video then Refilling else Steady) else p.phase
  {
  }

  // The events that end a phase
  predicate Ends(phase: Phase, e: Event) {
    match phase
    case Steady => e.SeekRequest? || (e.OutOfBuffer? && !e.drained)
    case Refilling => e.SeekRequest? || e.FinishedBuffering?
    case SeekAsked => e.FinishedClearing? || (e.FinishedSeeking? && e.noTracks)
    case SeekRunning => e.SeekRequest? || e.ReachedTarget?
  }

  lemma EndsExactly(p: Playback, e: Event)
    ensures Ends(p.phase, e) <==> Next(p, e).phase != p.phase
  {
  }

  // Over a run a phase lasts until the first event that ends it
  lemma {:induction false} PhaseLasts(p: Playback, es: seq<Event>)
    ensures (forall i: nat | i <= |es| :: Run(p, es[..i]).phase == p.phase) <==>
            (forall i: nat | i < |es| :: !Ends(p.phase, es[i]))
    decreases |es|
  {
    hide Ends, Next;
    if es == [] {
      assert es[..0] == [];
    } else {
      var q := Next(p, es[0]);
      EndsExactly(p, es[0]);
      forall i: nat | i < |es|
        ensures Run(p, es[..i + 1]) == Run(q, es[1..][..i])
      {
        assert es[..i + 1][1..] == es[1..][..i];
      }
      assert es[..0] == [];
      if q.phase == p.phase {
        PhaseLasts(q, es[1..]);
        LastsOn(p, q, es);
      } else {
        assert Run(p, es[..0 + 1]) == Run(q, es[1..][..0]);
        assert es[1..][..0] == [];
      }
    }
  }

  lemma LastsOn(p: Playback, q: Playback, es: seq<Event>)
    requires es != [] && q.phase == p.phase && !Ends(p.phase, es[0]) && q == Next(p, es[0])
    requires forall i: nat | i < |es| :: Run(p, es[..i + 1]) == Run(q, es[1..][..i])
    ensures (forall i: nat | i <= |es| :: Run(p, es[..i]).phase == p.phase) <==>
            (forall i: nat | i <= |es| - 1 :: Run(q, es[1..][..i]).phase == q.phase)
    ensures (forall i: nat | i < |es| :: !Ends(p.phase, es[i])) <==>
            (forall i: nat | i < |es| - 1 :: !Ends(q.phase, es[1..][i]))
  {
    hide Ends, Next;
    assert es[..0] == [];
    forall i: nat | i < |es| - 1
      ensures es[1..][i] == es[i + 1]
    {
    }
    if forall i: nat | i <= |es| - 1 :: Run(q, es[1..][..i]).phase == q.phase {
      forall i: nat | i <= |es|
        ensures Run(p, es[..i]).phase == p.phase
      {
        if i > 0 {
          assert Run(p, es[..i - 1 + 1]) == Run(q, es[1..][..i - 1]);
        }
      }
    }
    if forall i: nat | i <= |es| :: Run(p, es[..i]).phase == p.phase {
      forall i: nat | i <= |es| - 1
        ensures Run(q, es[1..][..i]).phase == q.phase
      {
        assert Run(p, es[..i + 1]).phase == p.phase;
      }
    }
    if forall i: nat | i < |es| - 1 :: !Ends(q.phase, es[1..][i]) {
      forall i: nat | i < |es|
        ensures !Ends(p.phase, es[i])
      {
        if i > 0 {
          assert !Ends(q.phase, es[1..][i - 1]);
        }
      }
    }
  }

  // A whole seek: whatever else happens meanwhile, once the data is there, the target
  // reached and, with video, the buffers filled, the player is steady again
  lemma SeekThrough(p: Playback, a: seq<Event>, b: seq<Event>, c: seq<Event>, video: bool)
    requires forall e | e in a :: !Ends(SeekAsked, e)
    requires forall e | e in b :: !Ends(SeekRunning, e)
    requires forall e | e in c :: !Ends(if video then Refilling else Steady, e)
    ensures var q := Run(Next(p, SeekRequest), a);
            var r := Run(Next(q, FinishedClearing), b);
            var s := Run(Next(r, ReachedTarget(video)), c);
            && q.phase == SeekAsked && r.phase == SeekRunning
            && s.phase == (if video then Refilling else Steady)
            && Next(s, FinishedBuffering).phase == Steady
  {
    hide Run, Ends;
    var q := Next(p, SeekRequest);
    Stays(q, a);
    var r := Next(Run(q, a), FinishedClearing);
    Stays(r, b);
    var s := Next(Run(r, b), ReachedTarget(video));
    assert s.phase == if video then Refilling else Steady;
    Stays(s, c);
  }

  lemma Stays(p: Playback, es: seq<Event>)
    requires forall e | e in es :: !Ends(p.phase, e)
    ensures Run(p, es).phase == p.phase
  {
    hide Run, Ends;
    PhaseLasts(p, es);
    assert es[..|es|] == es;
  }

  // --------------------------------------------------------------------- the wish

  function Wish(wanted: bool, e: Event): bool {
    if e.PauseRequest? then false else if e.ResumeRequest? then true else wanted
  }

  // The user's last request
  function LastWish(wanted: bool, es: seq<Event>): bool {
    if es == [] then wanted else Wish(LastWish(wanted, es[..|es| - 1]), es[|es| - 1])
  }

  lemma {:induction false} LastWishFirst(wanted: bool, es: seq<Event>)
    requires es != []
    ensures LastWish(wanted, es) == LastWish(Wish(wanted, es[0]), es[1..])
  {
    if |es| > 1 {
      LastWishFirst(wanted, es[..|es| - 1]);
      assert es[..|es| - 1][1..] == es[1..][..|es| - 2];
    }
  }

  // Whatever buffers, seeks or runs out in between, the last request is what counts
  lemma {:induction false} WishKept(p: Playback, es: seq<Event>)
    requires !p.autoplay
    ensures Run(p, es).wanted == LastWish(p.wanted, es) && !Run(p, es).autoplay
    decreases |es|
  {
    if es != [] {
      LastWishFirst(p.wanted, es);
      WishKept(Next(p, es[0]), es[1..]);
    }
  }

  // The one event that may go against it, exactly
  lemma WishOverruled(p: Playback, e: Event)
    ensures Next(p, e).wanted == Wish(p.wanted, e) <==>
            !(e.FinishedBuffering? && p.phase.Refilling? && p.autoplay && !p.wanted)
  {
  }

  // Autoplay starts the stream at event i of a run
  ghost predicate AutoplayActs(p: Playback, es: seq<Event>, i: nat) {
    i < |es| && es[i].FinishedBuffering? && Run(p, es[..i]).autoplay && Run(p, es[..i]).phase.Refilling?
  }

  lemma ActsLater(p: Playback, es: seq<Event>, i: nat)
    requires 0 < i < |es|
    ensures Run(p, es[..i]) == Run(Next(p, es[0]), es[1..][..i - 1])
    ensures AutoplayActs(p, es, i) <==> AutoplayActs(Next(p, es[0]), es[1..], i - 1)
  {
    assert es[..i][1..] == es[1..][..i - 1];
  }

  // Without the flag it never does.
  lemma NoAutoplay(p: Playback, es: seq<Event>, i: nat)
    requires !p.autoplay
    ensures !AutoplayActs(p, es, i)
  {
    if i < |es| {
      WishKept(p, es[..i]);
    }
  }

  // Autoplay acts at most once, and from then on the last request counts again
  lemma {:induction false} AutoplayOnce(p: Playback, es: seq<Event>) returns (i: nat)
    requires p.autoplay
    ensures i <= |es| && forall j: nat :: AutoplayActs(p, es, j) <==> j == i < |es|
    ensures i == |es| ==> Run(p, es).autoplay && Run(p, es).wanted == LastWish(p.wanted, es)
    ensures i < |es| ==> !Run(p, es).autoplay && Run(p, es).wanted == LastWish(true, es[i + 1..])
    decreases |es|
  {
    if es == [] {
      return 0;
    }
    LastWishFirst(p.wanted, es);
    var q := Next(p, es[0]);
    if q.autoplay {
      var k := AutoplayOnce(q, es[1..]);
      i := k + 1;
      forall j: nat
        ensures AutoplayActs(p, es, j) <==> j == i < |es|
      {
        if 0 < j < |es| {
          ActsLater(p, es, j);
        }
      }
    } else {
      WishKept(q, es[1..]);
      i := 0;
      forall j: nat
        ensures AutoplayActs(p, es, j) <==> j == i < |es|
      {
        if 0 < j < |es| {
          ActsLater(p, es, j);
          NoAutoplay(q, es[1..], j - 1);
        }
      }
    }
  }

  predicate BySystem(es: seq<Event>) {
    forall i | 0 <= i < |es| :: !es[i].PauseRequest? && !es[i].ResumeRequest?
  }

  lemma BySystemLast(es: seq<Event>)
    requires es != []
    ensures var e := es[|es| - 1];
            BySystem(es) <==> BySystem(es[..|es| - 1]) && !e.PauseRequest? && !e.ResumeRequest?
  {
  }

  lemma LastWishLast(wanted: bool, es: seq<Event>)
    requires es != []
    ensures LastWish(wanted, es) == Wish(LastWish(wanted, es[..|es| - 1]), es[|es| - 1])
  {
  }

  // Only a request makes the last wish independent of the wish before.
  lemma {:induction false} WishForgets(es: seq<Event>)
    ensures if BySystem(es) then LastWish(true, es) && !LastWish(false, es)
            else LastWish(true, es) == LastWish(false, es)
    decreases |es|
  {
    hide BySystem, LastWish;
    if es == [] {
      NoWish();
    } else {
      WishForgets(es[..|es| - 1]);
      BySystemLast(es);
      LastWishLast(true, es);
      LastWishLast(false, es);
    }
  }

  lemma NoWish()
    ensures BySystem([]) && LastWish(true, []) && !LastWish(false, [])
  {
  }

  // Autoplay acts against a pause that no later request takes back
  ghost predicate Overruled(p: Playback, es: seq<Event>, i: nat) {
    AutoplayActs(p, es, i) && !Run(p, es[..i]).wanted && BySystem(es[i + 1..])
  }

  // Over a whole run, exactly this sets what is wanted apart from the last request
  lemma {:induction false} RunOverruled(p: Playback, es: seq<Event>)
    ensures Run(p, es).wanted != LastWish(p.wanted, es) <==> exists i: nat :: Overruled(p, es, i)
    decreases |es|
  {
    hide Wish, BySystem;
    if es == [] {
    } else {
      var q := Next(p, es[0]);
      LastWishFirst(p.wanted, es);
      WishOverruled(p, es[0]);
      if q.wanted == Wish(p.wanted, es[0]) {
        RunOverruled(q, es[1..]);
        OverruledLater(p, es);
      } else {
        WishKept(q, es[1..]);
        WishForgets(es[1..]);
        OverruledAtOnce(p, es);
      }
    }
  }

  lemma OverruledLater(p: Playback, es: seq<Event>)
    requires es != [] && !Overruled(p, es, 0)
    ensures (exists i: nat :: Overruled(p, es, i)) <==> exists i: nat :: Overruled(Next(p, es[0]), es[1..], i)
  {
    forall i: nat
      ensures Overruled(p, es, i + 1) <==> Overruled(Next(p, es[0]), es[1..], i)
    {
      if i + 1 < |es| {
        ActsLater(p, es, i + 1);
        assert es[i + 2..] == es[1..][i + 1..];
      }
    }
    if i: nat :| Overruled(p, es, i) {
      assert i != 0;
      assert Overruled(Next(p, es[0]), es[1..], i - 1);
    }
  }

  lemma OverruledAtOnce(p: Playback, es: seq<Event>)
    requires es != [] && !Next(p, es[0]).autoplay && AutoplayActs(p, es, 0) && !p.wanted
    ensures (exists i: nat :: Overruled(p, es, i)) <==> BySystem(es[1..])
  {
    assert BySystem(es[1..]) ==> Overruled(p, es, 0);
    forall i: nat | i != 0
      ensures !AutoplayActs(p, es, i)
    {
      if i < |es| {
        ActsLater(p, es, i);
        NoAutoplay(Next(p, es[0]), es[1..], i - 1);
      }
    }
  }

  // A pause while a live stream first buffers is forgotten
  lemma PauseForgotten(p: Playback)
    requires p.phase.Refilling? && p.autoplay
    ensures Run(p, [PauseRequest, FinishedBuffering]).wanted && !LastWish(p.wanted, [PauseRequest, FinishedBuffering])
  {
    assert [PauseRequest, FinishedBuffering][1..] == [FinishedBuffering];
    assert [PauseRequest, FinishedBuffering][..1] == [PauseRequest];
  }

  // ------------------------------------------------------------- the home menu

  // While the home menu is open nothing plays, and closing it restores what was
  // wanted, unless autoplay acts meanwhile: then something plays, and goes on
  // playing even if that was not wanted
  lemma MenuRestores(p: Playback, es: seq<Event>)
    requires BySystem(es)
    ensures var q := Run(Next(p, PauseRequest), es);
            && (q.wanted <==> exists i: nat :: AutoplayActs(Next(p, PauseRequest), es, i))
            && ((if p.wanted then Next(q, ResumeRequest) else q).wanted == p.wanted <==> p.wanted || !q.wanted)
  {
    hide LastWish;
    var paused := Next(p, PauseRequest);
    WishForgets(es);
    if p.autoplay {
      var i := AutoplayOnce(paused, es);
      assert BySystem(es[i..]);
      if i < |es| {
        WishForgets(es[i + 1..]);
        assert AutoplayActs(paused, es, i);
      }
    } else {
      WishKept(paused, es);
      forall i: nat
        ensures !AutoplayActs(paused, es, i)
      {
        NoAutoplay(paused, es, i);
      }
    }
  }

  // ------------------------------------------------------------- the player's code

  datatype Tapped = Play | PauseIt | ResumeIt | Nothing

  class Player {
    var state: PlayerState
    var resumeLater: bool   // PLAYER_SUB_STATE_RESUME_LATER
    var autoplay: bool      // vid_miniptv_force_initial_autoplay

    ghost predicate Valid()
      reads this
    {
      state.Playing? || state.Pause? ==> !resumeLater
    }

    ghost function Now(): Playback
      requires !Closed(state)
      reads this
    {
      Playback(match state
               case Buffering => Refilling
               case PrepareSeeking => SeekAsked
               case Seeking => SeekRunning
               case _ => Steady,
               state.Playing? || (!state.Pause? && resumeLater), autoplay)
    }

    // What the state of the player says of phase and wish
    lemma NowMeans()
      requires Valid() && !Closed(state)
      ensures state.Playing? <==> Now().phase.Steady? && Now().wanted
      ensures state.Pause? <==> Now().phase.Steady? && !Now().wanted
      ensures state.Buffering? <==> Now().phase.Refilling?
      ensures state.PrepareSeeking? <==> Now().phase.SeekAsked?
      ensures state.Seeking? <==> Now().phase.SeekRunning?
      ensures !Now().phase.Steady? ==> Now().wanted == resumeLater
    {
    }

    twostate predicate Follows(e: Event)
      reads this
    {
      if Closed(old(state)) then unchanged(this) else
      !Closed(state) && Now() == Next(old(Now()), e)
    }

    // The end of opening a file, when nothing has failed
    method Open(video: bool, seekQueued: bool)
      requires Closed(state)
      modifies this
      ensures Valid() && !Closed(state)
      ensures Now() == Playback(if video && !seekQueued then Refilling else Steady, true, old(autoplay))
    {
      state := Playing;
      resumeLater := false;
      if !seekQueued && video {
        resumeLater := true;
        state := Buffering;
      }
    }

    method Command(e: Event)
      requires Valid() && (e.PauseRequest? || e.ResumeRequest? || e.SeekRequest?)
      modifies this
      ensures Valid() && Follows(e)
    {
      match e
      case PauseRequest =>
        if state.Idle? || state.PreparePlaying? || state.Pause? {
          return;
        }
        if state.Playing? {
          state := Pause;
        } else {
          resumeLater := false;
        }
      case ResumeRequest =>
        if state.Idle? || state.PreparePlaying? || state.Playing? {
          return;
        }
        if state.Pause? {
          state := Playing;
        } else {
          resumeLater := true;
        }
      case SeekRequest =>
        if state.Idle? || state.PreparePlaying? || state.PrepareSeeking? {
          return;
        }
        if state.Playing? {
          resumeLater := true;
        } else if state.Pause? {
          resumeLater := false;
        }
        state := PrepareSeeking;
    }

    method Notification(e: Event)
      requires Valid() && (e.FinishedSeeking? || e.FinishedClearing? || e.FinishedBuffering? || e.OutOfBuffer?)
      modifies this
      ensures Valid() && Follows(e)
    {
      match e
      case FinishedSeeking(noTracks) =>
        if !state.PrepareSeeking? {
          return;
        }
        if noTracks {
          state := Seeking;
        }
      case FinishedClearing =>
        if !state.PrepareSeeking? {
          return;
        }
        state := Seeking;
      case FinishedBuffering =>
        if !state.Buffering? {
          return;
        }
        if autoplay || resumeLater {
          autoplay := false;
          resumeLater := false;
          state := Playing;
        } else {
          state := Pause;
        }
      case OutOfBuffer(drained) =>
        if (!state.Playing? && !state.Pause?) || drained {
          return;
        }
        if state.Playing? {
          resumeLater := true;
        } else {
          resumeLater := false;
        }
        state := Buffering;
    }

    // A packet at or past the position sought
    method SeekReached(video: bool)
      requires Valid()
      modifies this
      ensures Valid() && Follows(ReachedTarget(video))
    {
      if !state.Seeking? {
        return;
      }
      if video {
        state := Buffering;
      } else if resumeLater {
        resumeLater := false;
        state := Playing;
      } else {
        state := Pause;
      }
    }

    // The loop of the decode thread, as far as these events go
    method HandleAll(es: seq<Event>)
      requires Valid() && !Closed(state)
      modifies this
      ensures Valid() && !Closed(state) && Now() == Run(old(Now()), es)
    {
      ghost var start := Now();
      var i := 0;
      while i < |es|
        invariant 0 <= i <= |es| && Valid() && !Closed(state)
        invariant Run(start, es) == Run(Now(), es[i..])
      {
        var e := es[i];
        if e.PauseRequest? || e.ResumeRequest? || e.SeekRequest? {
          Command(e);
        } else if e.ReachedTarget? {
          SeekReached(e.video);
        } else {
          Notification(e);
        }
        assert es[i..][1..] == es[i + 1..];
        i := i + 1;
      }
    }

    // What a tap on the screen asks for
    method Tap() returns (t: Tapped)
      requires Valid()
      ensures !Closed(state) ==> t == if Now().wanted then PauseIt else ResumeIt
      ensures Closed(state) ==> t == if state.Idle? then Play else Nothing
    {
      if state.Idle? {
        return Play;
      } else if state.Playing? || (resumeLater && (state.Buffering? || state.PrepareSeeking? || state.Seeking?)) {
        return PauseIt;
      } else if state.Pause? || (!resumeLater && (state.Buffering? || state.PrepareSeeking? || state.Seeking?)) {
        return ResumeIt;
      }
      return Nothing;
    }

    // Whether to resume after the home menu or the keyboard
    method MustResume() returns (must: bool)
      requires Valid()
      ensures !Closed(state) ==> must == Now().wanted
      ensures Closed(state) ==> must == (state.PreparePlaying? || resumeLater)
    {
      must := state.PreparePlaying? || state.Playing? || resumeLater;
    }
  }
}
