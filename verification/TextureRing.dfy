/** The ring of textures between the convert thread and the draw thread of
    source/video_player.c, one ring for each video track. */
module TextureRing {
  import opened Options

  // ---------------------------------------------------------------- ring indices

  function Advance(i: nat, n: nat): nat {
    if i + 1 < n then i + 1 else 0
  }

  // Where the frame with number k goes
  function Position(k: nat, n: nat): (p: nat)
    requires 0 < n
    ensures p < n
  {
    if k == 0 then 0 else Advance(Position(k - 1, n), n)
  }

  // Frame k goes into slot k modulo the size of the ring
  lemma {:induction false} PositionIs(k: nat, n: nat)
    requires 0 < n
    ensures Position(k, n) == k % n
  {
    if k > 0 {
      PositionIs(k - 1, n);
      NextRemainder(k - 1, n);
    }
  }

  lemma NextRemainder(k: nat, n: nat)
    requires 0 < n
    ensures (k + 1) % n == if k % n + 1 < n then k % n + 1 else 0
  {
    var q, r := k / n, k % n;
    assert k == q * n + r;
    if r + 1 < n {
      RemainderOf(k + 1, q, r + 1, n);
    } else {
      assert k + 1 == (q + 1) * n + 0;
      RemainderOf(k + 1, q + 1, 0, n);
    }
  }

  lemma RemainderOf(k: nat, q: nat, r: nat, n: nat)
    requires r < n && k == q * n + r
    ensures k % n == r
  {
    var d := k / n - q;
    assert k % n == r - d * n;
    Multiple(d, n);
  }

  lemma Multiple(d: int, n: int)
    requires 0 < n
    ensures d > 0 ==> d * n >= n
    ensures d < 0 ==> d * n <= -n
  {
  }

  function Pending(draw: nat, store: nat, n: nat): nat
    requires draw < n
  {
    if draw <= store then store - draw else (n - draw) + store
  }

  // The slot on the screen is the one before the next to draw
  function Displayed(draw: nat, n: nat): nat
    requires draw < n
  {
    if draw > 0 then draw - 1 else n - 1
  }

  lemma {:induction false} PositionAhead(a: nat, d: nat, n: nat)
    requires 0 < n && d <= n
    ensures Position(a + d, n) == if Position(a, n) + d < n then Position(a, n) + d else Position(a, n) + d - n
  {
    if d > 0 {
      PositionAhead(a, d - 1, n);
    }
  }

  // The indices determine how many frames are pending
  lemma PendingCounts(a: nat, b: nat, n: nat)
    requires 0 < n && a <= b < a + n
    ensures Pending(Position(a, n), Position(b, n), n) == b - a
  {
    PositionAhead(a, b - a, n);
  }

  lemma DisplayedIsLast(a: nat, n: nat)
    requires 0 < n && 0 < a
    ensures Displayed(Position(a, n), n) == Position(a - 1, n)
  {
  }

  lemma PositionsDiffer(a: nat, b: nat, n: nat)
    requires 0 < n && a < b < a + n
    ensures Position(a, n) != Position(b, n)
  {
    PositionAhead(a, b - a, n);
  }

  // ------------------------------------------------------------------ the threads

  // The texture slots of a track, its two indices, and the frames published and
  // the slots selected so far
  datatype Track<F> = Track(slots: seq<Option<F>>, store: nat, draw: nat,
                            published: seq<F>, shown: seq<Option<F>>)

  datatype Convert<F> = Resting | Room(track: nat) | Filling(track: nat, frame: F) | Filled(track: nat, frame: F)

  // The draw thread measures every track, then visits every track
  datatype Draw = Draw(health: seq<nat>, next: nat)

  datatype State<F> = State(tracks: seq<Track<F>>, convert: Convert<F>, draw: Draw)

  datatype Event<F> =
    | Check(track: nat)       // the convert thread looks for room
    | Fill(frame: F)          // and starts overwriting the slot
    | GiveUp                  // conversion failed: nothing is published
    | Finish                  // the texture is complete
    | Publish                 // the store index moves on
    | Measure                 // the draw thread measures its next track
    | Visit(ready: bool)      // and decides on a track; ready when its frame is due and need not wait

  predicate AnyEmpty(health: seq<nat>) {
    exists i | 0 <= i < |health| :: health[i] == 0
  }

  predicate AnyFull(health: seq<nat>, n: nat) {
    exists i | 0 <= i < |health| :: health[i] >= n - 1
  }

  // Whether the draw thread takes a frame of track t
  predicate Takes(health: seq<nat>, t: nat, n: nat, ready: bool)
    requires t < |health|
  {
    ready && health[t] > 0 && (!AnyEmpty(health) || AnyFull(health, n))
  }

  predicate Shaped<F>(s: State<F>, n: nat) {
    && 1 < n
    && |s.draw.health| <= |s.tracks| && (0 < s.draw.next ==> |s.draw.health| == |s.tracks|)
    && s.draw.next <= |s.draw.health|
    && (s.convert != Resting ==> s.convert.track < |s.tracks|)
    && (forall t | 0 <= t < |s.tracks| ::
          |s.tracks[t].slots| == n && s.tracks[t].store < n && s.tracks[t].draw < n)
  }

  function OnTrack<F>(s: State<F>, t: nat, tr: Track<F>, convert: Convert<F>): State<F>
    requires t < |s.tracks|
  {
    s.(tracks := s.tracks[t := tr], convert := convert)
  }

  function StepConvert<F>(s: State<F>, e: Event<F>, n: nat): State<F>
    requires Shaped(s, n)
  {
    match (s.convert, e)
    case (Resting, Check(t)) =>
      if t < |s.tracks| && Pending(s.tracks[t].draw, s.tracks[t].store, n) + 1 < n
      then s.(convert := Room(t)) else s
    case (Room(t), Fill(f)) =>
      var tr := s.tracks[t];
      OnTrack(s, t, tr.(slots := tr.slots[tr.store := None]), Filling(t, f))
    case (Filling(t, f), Finish) =>
      var tr := s.tracks[t];
      OnTrack(s, t, tr.(slots := tr.slots[tr.store := Some(f)]), Filled(t, f))
    case (Filled(t, f), Publish) =>
      var tr := s.tracks[t];
      OnTrack(s, t, tr.(store := Advance(tr.store, n), published := tr.published + [f]), Resting)
    case (_, GiveUp) =>
      if s.convert.Filled? then s else s.(convert := Resting)
    case _ => s
  }

  function StepDraw<F>(s: State<F>, e: Event<F>, n: nat): State<F>
    requires Shaped(s, n)
  {
    var d := s.draw;
    match e
    case Measure =>
      if |d.health| < |s.tracks| then
        var tr := s.tracks[|d.health|];
        s.(draw := Draw(d.health + [Pending(tr.draw, tr.store, n)], 0))
      else s
    case Visit(ready) =>
      if |d.health| < |s.tracks| || d.next >= |s.tracks| then s else
      var tr := s.tracks[d.next];
      var took := if Takes(d.health, d.next, n, ready)
                  then tr.(draw := Advance(tr.draw, n), shown := tr.shown + [tr.slots[tr.draw]]) else tr;
      s.(tracks := s.tracks[d.next := took],
         draw := if d.next + 1 < |s.tracks| then Draw(d.health, d.next + 1) else Draw([], 0))
    case _ => s
  }

  function Step<F>(s: State<F>, e: Event<F>, n: nat): State<F>
    requires Shaped(s, n)
  {
    if e.Measure? || e.Visit? then StepDraw(s, e, n) else StepConvert(s, e, n)
  }

  // -------------------------------------------------------------------- invariant

  ghost predicate TrackOk<F>(tr: Track<F>, n: nat) {
    && 1 < n == |tr.slots|
    && tr.store == Position(|tr.published|, n)
    && tr.draw == Position(|tr.shown|, n)
    && |tr.shown| <= |tr.published| < |tr.shown| + n
    && (forall k | 0 <= k < |tr.shown| :: tr.shown[k] == Some(tr.published[k]))
    && (forall k: nat | |tr.shown| - 1 <= k < |tr.published| ::
          tr.slots[Position(k, n)] == Some(tr.published[k]))
  }

  // The convert thread holds a slot only where the ring has room for one more
  ghost predicate ConvertOk<F>(c: Convert<F>, tracks: seq<Track<F>>) {
    c == Resting ||
    (&& c.track < |tracks|
     && var tr := tracks[c.track];
        && |tr.published| + 1 < |tr.shown| + |tr.slots|
        && tr.store < |tr.slots|
        && (c.Filled? ==> tr.slots[tr.store] == Some(c.frame)))
  }

  // A measurement may be out of date, but never too high
  ghost predicate DrawOk<F>(d: Draw, tracks: seq<Track<F>>) {
    && |d.health| <= |tracks| && d.next <= |d.health|
    && (0 < d.next ==> |d.health| == |tracks|)
    && (forall t | d.next <= t < |d.health| ::
          |tracks[t].shown| + d.health[t] <= |tracks[t].published|)
  }

  ghost predicate Inv<F>(s: State<F>, n: nat) {
    && 1 < n
    && (forall t | 0 <= t < |s.tracks| :: TrackOk(s.tracks[t], n))
    && ConvertOk(s.convert, s.tracks)
    && DrawOk(s.draw, s.tracks)
  }

  lemma TrackSizes<F>(tr: Track<F>, n: nat)
    requires TrackOk(tr, n)
    ensures |tr.slots| == n && tr.store < n && tr.draw < n && |tr.shown| <= |tr.published| < |tr.shown| + n
    ensures Pending(tr.draw, tr.store, n) == |tr.published| - |tr.shown|
  {
    PendingCounts(|tr.shown|, |tr.published|, n);
  }

  lemma InvShaped<F>(s: State<F>, n: nat)
    requires Inv(s, n)
    ensures Shaped(s, n)
  {
    hide TrackOk, Position, Pending;
    forall t | 0 <= t < |s.tracks|
      ensures |s.tracks[t].slots| == n && s.tracks[t].store < n && s.tracks[t].draw < n
    {
      TrackSizes(s.tracks[t], n);
    }
  }

  // A frame taken from the ring is the next one published
  lemma TakeKeepsTrack<F>(tr: Track<F>, n: nat)
    requires TrackOk(tr, n) && |tr.shown| < |tr.published|
    ensures tr.draw < |tr.slots| && tr.slots[tr.draw] == Some(tr.published[|tr.shown|])
    ensures TrackOk(tr.(draw := Advance(tr.draw, n), shown := tr.shown + [tr.slots[tr.draw]]), n)
  {
  }

  // The free slot is neither pending nor on the screen
  lemma FreeSlot<F>(tr: Track<F>, n: nat, content: Option<F>)
    requires TrackOk(tr, n) && |tr.published| + 1 < |tr.shown| + n
    ensures tr.store < |tr.slots| && TrackOk(tr.(slots := tr.slots[tr.store := content]), n)
    ensures tr.draw < n && tr.store != Displayed(tr.draw, n)
  {
    if tr.shown == [] {
      PositionAhead(0, |tr.published|, n);
    } else {
      DisplayedIsLast(|tr.shown|, n);
      PositionsDiffer(|tr.shown| - 1, |tr.published|, n);
    }
    forall k: nat | |tr.shown| - 1 <= k < |tr.published|
      ensures Position(k, n) != tr.store
    {
      PositionsDiffer(k, |tr.published|, n);
    }
  }

  lemma PublishKeepsTrack<F>(tr: Track<F>, n: nat, f: F)
    requires TrackOk(tr, n) && |tr.published| + 1 < |tr.shown| + n
    requires tr.store < |tr.slots| && tr.slots[tr.store] == Some(f)
    ensures TrackOk(tr.(store := Advance(tr.store, n), published := tr.published + [f]), n)
  {
  }

  lemma ConvertKeeps<F>(s: State<F>, e: Event<F>, n: nat)
    requires Inv(s, n) && Shaped(s, n)
    ensures Inv(StepConvert(s, e, n), n)
  {
    hide TrackOk, Position, Pending;
    match (s.convert, e) {
      case (Resting, Check(t)) =>
        if t < |s.tracks| {
          TrackSizes(s.tracks[t], n);
        }
      case (Room(t), Fill(f)) => FreeSlot(s.tracks[t], n, None);
      case (Filling(t, f), Finish) => FreeSlot(s.tracks[t], n, Some(f));
      case (Filled(t, f), Publish) => PublishKeepsTrack(s.tracks[t], n, f);
      case _ =>
    }
  }

  lemma DrawKeeps<F>(s: State<F>, e: Event<F>, n: nat)
    requires Inv(s, n) && Shaped(s, n)
    ensures Inv(StepDraw(s, e, n), n)
  {
    hide TrackOk, Position, Pending, AnyEmpty, AnyFull;
    if e == Measure && |s.draw.health| < |s.tracks| {
      TrackSizes(s.tracks[|s.draw.health|], n);
    } else if e.Visit? && |s.draw.health| == |s.tracks| && s.draw.next < |s.tracks| {
      if Takes(s.draw.health, s.draw.next, n, e.ready) {
        TakeKeepsTrack(s.tracks[s.draw.next], n);
      }
    }
  }

  // ------------------------------------------------------------------------ runs

  function Start<F>(tracks: nat, n: nat): State<F> {
    State(seq(tracks, _ => Track(seq(n, _ => None), 0, 0, [], [])), Resting, Draw([], 0))
  }

  lemma StepKeeps<F>(s: State<F>, e: Event<F>, n: nat)
    requires Inv(s, n) && Shaped(s, n)
    ensures Inv(Step(s, e, n), n)
  {
    hide Inv, Shaped, StepConvert, StepDraw;
    ConvertKeeps(s, e, n);
    DrawKeeps(s, e, n);
  }

  ghost function Run<F>(s: State<F>, es: seq<Event<F>>, n: nat): (r: State<F>)
    requires Inv(s, n)
    ensures Inv(r, n)
    decreases |es|
  {
    if es == [] then s else
    InvShaped(s, n);
    StepKeeps(s, es[0], n);
    Run(Step(s, es[0], n), es[1..], n)
  }

  // The texture a track has on the screen
  function OnScreen<F>(tr: Track<F>, n: nat): Option<F>
    requires tr.draw < n == |tr.slots|
  {
    tr.slots[Displayed(tr.draw, n)]
  }

  predicate Overwriting<F>(c: Convert<F>) {
    c.Filling? || c.Filled?
  }

  // What a viewer relies on: frames are selected in the order they are published,
  // complete, none skipped or repeated; the last one stays on the screen; and the
  // convert thread never writes into the texture on the screen
  ghost predicate Safe<F>(s: State<F>, n: nat) {
    && (forall t | 0 <= t < |s.tracks| ::
          var tr := s.tracks[t];
          && tr.store < n && tr.draw < n == |tr.slots|
          && |tr.shown| <= |tr.published| < |tr.shown| + n
          && (forall k | 0 <= k < |tr.shown| :: tr.shown[k] == Some(tr.published[k]))
          && (tr.shown != [] ==> OnScreen(tr, n) == Some(tr.published[|tr.shown| - 1])))
    && (Overwriting(s.convert) ==>
          && s.convert.track < |s.tracks|
          && var tr := s.tracks[s.convert.track];
             tr.draw < n && tr.store != Displayed(tr.draw, n))
  }

  lemma TrackSafe<F>(tr: Track<F>, n: nat)
    requires TrackOk(tr, n)
    ensures tr.draw < n == |tr.slots|
    ensures forall k | 0 <= k < |tr.shown| :: |tr.shown| <= |tr.published| && tr.shown[k] == Some(tr.published[k])
    ensures tr.shown != [] ==> |tr.shown| <= |tr.published| && OnScreen(tr, n) == Some(tr.published[|tr.shown| - 1])
  {
    if tr.shown != [] {
      DisplayedIsLast(|tr.shown|, n);
    }
  }

  lemma InvSafe<F>(s: State<F>, n: nat)
    requires Inv(s, n)
    ensures Safe(s, n)
  {
    hide TrackOk, Position, Pending, OnScreen, Displayed;
    forall t | 0 <= t < |s.tracks|
      ensures var tr := s.tracks[t];
              && tr.store < n && tr.draw < n == |tr.slots|
              && |tr.shown| <= |tr.published| < |tr.shown| + n
              && (forall k | 0 <= k < |tr.shown| :: tr.shown[k] == Some(tr.published[k]))
              && (tr.shown != [] ==> OnScreen(tr, n) == Some(tr.published[|tr.shown| - 1]))
    {
      TrackSizes(s.tracks[t], n);
      TrackSafe(s.tracks[t], n);
    }
    if Overwriting(s.convert) {
      var tr := s.tracks[s.convert.track];
      TrackSizes(tr, n);
      FreeSlot(tr, n, None);
    }
  }

  lemma StartOk<F>(tracks: nat, n: nat)
    requires 1 < n
    ensures Inv(Start<F>(tracks, n), n)
  {
  }

  // However the two threads interleave, at every moment of a playing session
  lemma RunsSafe<F>(tracks: nat, n: nat, es: seq<Event<F>>)
    requires 1 < n
    ensures Inv(Start<F>(tracks, n), n)
    ensures Safe(Run(Start(tracks, n), es, n), n)
  {
    hide Inv, Safe, Run, Start;
    StartOk<F>(tracks, n);
    InvSafe(Run(Start(tracks, n), es, n), n);
  }

  // ------------------------------------------------------- one pass of the draw thread

  function Health<F>(tracks: seq<Track<F>>, n: nat): (h: seq<nat>)
    requires forall t | 0 <= t < |tracks| :: tracks[t].draw < n
    ensures |h| == |tracks|
    ensures forall t | 0 <= t < |h| :: h[t] == Pending(tracks[t].draw, tracks[t].store, n)
  {
    if tracks == [] then [] else
      var last := tracks[|tracks| - 1];
      Health(tracks[..|tracks| - 1], n) + [Pending(last.draw, last.store, n)]
  }

  function Visits<F>(ready: seq<bool>): (es: seq<Event<F>>) {
    if ready == [] then [] else [Visit(ready[0])] + Visits(ready[1..])
  }

  function Pass<F>(ready: seq<bool>, measures: nat): (es: seq<Event<F>>) {
    if measures == 0 then Visits(ready) else [Measure] + Pass(ready, measures - 1)
  }

  // What a pass that nothing interrupts makes of a track
  ghost predicate Passed<F>(before: Track<F>, after: Track<F>, took: bool, n: nat) {
    && after.store == before.store && after.published == before.published
    && after.draw == (if took then Advance(before.draw, n) else before.draw)
    && |after.shown| == |before.shown| + (if took then 1 else 0)
  }

  lemma {:induction false} VisitsPass<F>(s: State<F>, ready: seq<bool>, n: nat)
    requires Inv(s, n) && s.draw.next + |ready| == |s.tracks| == |s.draw.health|
    requires s.draw.next < |s.tracks| || ready == []
    ensures var r := Run(s, Visits(ready), n);
            && r.convert == s.convert && |r.tracks| == |s.tracks|
            && (forall t | 0 <= t < s.draw.next :: r.tracks[t] == s.tracks[t])
            && (forall t | s.draw.next <= t < |s.tracks| ::
                  Passed(s.tracks[t], r.tracks[t], Takes(s.draw.health, t, n, ready[t - s.draw.next]), n))
    decreases |ready|
  {
    hide Inv, TrackOk, AnyEmpty, AnyFull;
    if ready != [] {
      InvShaped(s, n);
      var e: Event<F> := Visit(ready[0]);
      StepKeeps(s, e, n);
      var s' := Step(s, e, n);
      assert Run(s, Visits(ready), n) == Run(s', Visits(ready[1..]), n) by {
        assert Visits<F>(ready)[1..] == Visits(ready[1..]);
      }
      if |ready| > 1 {
        VisitsPass(s', ready[1..], n);
      }
    }
  }

  lemma TracksMeasurable<F>(s: State<F>, n: nat)
    requires Inv(s, n)
    ensures forall t | 0 <= t < |s.tracks| :: s.tracks[t].draw < n
  {
    InvShaped(s, n);
  }

  lemma {:induction false} MeasuresRun<F>(s: State<F>, ready: seq<bool>, k: nat, n: nat)
    requires Inv(s, n) && s.draw.next == 0 && |s.draw.health| + k == |s.tracks|
    requires forall t | 0 <= t < |s.tracks| :: s.tracks[t].draw < n
    requires forall t | 0 <= t < |s.draw.health| ::
               s.draw.health[t] == Pending(s.tracks[t].draw, s.tracks[t].store, n)
    ensures var measured := s.(draw := Draw(Health(s.tracks, n), 0));
            Inv(measured, n) && Run(s, Pass(ready, k), n) == Run(measured, Visits(ready), n)
    decreases k
  {
    hide TrackOk, Pending, Visits;
    if k == 0 {
      assert s.draw.health == Health(s.tracks, n);
    } else {
      InvShaped(s, n);
      StepKeeps(s, Measure, n);
      assert Pass<F>(ready, k)[1..] == Pass(ready, k - 1);
      MeasuresRun(Step(s, Measure, n), ready, k - 1, n);
    }
  }

  // A pass takes a frame from exactly the tracks that have one which is due, and
  // only when no track is without one or some track is full
  lemma PassTakes<F>(s: State<F>, ready: seq<bool>, n: nat)
    requires Inv(s, n) && s.draw == Draw([], 0) && |ready| == |s.tracks|
    ensures var r := Run(s, Pass(ready, |ready|), n);
            && r.convert == s.convert && |r.tracks| == |s.tracks|
            && (forall t | 0 <= t < |s.tracks| ::
                  var took := && ready[t] && |s.tracks[t].published| > |s.tracks[t].shown|
                              && ((forall i | 0 <= i < |s.tracks| :: |s.tracks[i].published| > |s.tracks[i].shown|)
                                  || exists i | 0 <= i < |s.tracks| ::
                                       |s.tracks[i].published| - |s.tracks[i].shown| >= n - 1);
                  Passed(s.tracks[t], r.tracks[t], took, n))
  {
    hide Inv, Takes, Passed, Visits, Pass, Run;
    PassRuns(s, ready, n);
    forall t | 0 <= t < |s.tracks|
      ensures Takes(Health(s.tracks, n), t, n, ready[t]) ==
              (&& ready[t] && |s.tracks[t].published| > |s.tracks[t].shown|
               && ((forall i | 0 <= i < |s.tracks| :: |s.tracks[i].published| > |s.tracks[i].shown|)
                   || exists i | 0 <= i < |s.tracks| :: |s.tracks[i].published| - |s.tracks[i].shown| >= n - 1))
    {
      TakesWhen(s, t, ready[t], n);
    }
  }

  lemma TakesWhen<F>(s: State<F>, t: nat, ready: bool, n: nat)
    requires Inv(s, n) && t < |s.tracks| && forall i | 0 <= i < |s.tracks| :: s.tracks[i].draw < n
    ensures Takes(Health(s.tracks, n), t, n, ready) ==
            (&& ready && |s.tracks[t].published| > |s.tracks[t].shown|
             && ((forall i | 0 <= i < |s.tracks| :: |s.tracks[i].published| > |s.tracks[i].shown|)
                 || exists i | 0 <= i < |s.tracks| :: |s.tracks[i].published| - |s.tracks[i].shown| >= n - 1))
  {
    hide Inv, Pending;
    var h := Health(s.tracks, n);
    forall i | 0 <= i < |s.tracks|
      ensures h[i] == |s.tracks[i].published| - |s.tracks[i].shown|
    {
      FullRing(s, i, n);
    }
  }

  lemma PassRuns<F>(s: State<F>, ready: seq<bool>, n: nat)
    requires Inv(s, n) && s.draw == Draw([], 0) && |ready| == |s.tracks|
    ensures forall t | 0 <= t < |s.tracks| :: s.tracks[t].draw < n
    ensures var r, h := Run(s, Pass(ready, |ready|), n), Health(s.tracks, n);
            && r.convert == s.convert && |r.tracks| == |s.tracks|
            && (forall t | 0 <= t < |s.tracks| ::
                  Passed(s.tracks[t], r.tracks[t], Takes(h, t, n, ready[t]), n))
  {
    hide Inv, Takes, Passed, Visits, Pass, Run;
    TracksMeasurable(s, n);
    MeasuresRun(s, ready, |ready|, n);
    VisitsPass(s.(draw := Draw(Health(s.tracks, n), 0)), ready, n);
  }

  // The threads do not wait for each other: when the convert thread finds a ring
  // full, a pass in which every frame is due makes room in it
  lemma NoStall<F>(s: State<F>, t: nat, n: nat)
    requires Inv(s, n) && s.draw == Draw([], 0) && s.convert == Resting && t < |s.tracks|
    requires s.tracks[t].draw < n && Pending(s.tracks[t].draw, s.tracks[t].store, n) + 1 >= n
    ensures var ready := seq(|s.tracks|, _ => true);
            var r := Run(s, Pass(ready, |ready|), n);
            && |r.tracks| == |s.tracks| && |r.tracks[t].shown| == |s.tracks[t].shown| + 1
            && Shaped(r, n) && Step(r, Check(t), n).convert == Room(t)
  {
    hide Inv, Pass, Run, AnyEmpty, TrackOk, Position;
    var ready := seq(|s.tracks|, _ => true);
    PassRuns(s, ready, n);
    var h, r := Health(s.tracks, n), Run(s, Pass(ready, |ready|), n);
    assert h[t] >= n - 1;
    assert n > 1 by { InvShaped(s, n); }
    assert Takes(h, t, n, ready[t]);
    InvShaped(r, n);
    FullRing(s, t, n);
    FullRing(r, t, n);
  }

  lemma FullRing<F>(s: State<F>, t: nat, n: nat)
    requires Inv(s, n) && t < |s.tracks|
    ensures s.tracks[t].draw < n
    ensures Pending(s.tracks[t].draw, s.tracks[t].store, n) == |s.tracks[t].published| - |s.tracks[t].shown| < n
  {
    TrackSizes(s.tracks[t], n);
  }

  // ------------------------------------------------------------ the player's code

  function PendingAll(draw: seq<nat>, store: seq<nat>, n: nat): (h: seq<nat>)
    requires |draw| == |store| && forall i | 0 <= i < |draw| :: draw[i] < n
    ensures |h| == |draw| && forall i | 0 <= i < |h| :: h[i] == Pending(draw[i], store[i], n)
  {
    if draw == [] then [] else [Pending(draw[0], store[0], n)] + PendingAll(draw[1..], store[1..], n)
  }

  class Player {
    const buffers: nat          // VIDEO_BUFFERS
    const nextStore: array<nat> // for each track
    const nextDraw: array<nat>

    ghost predicate Valid()
      reads this, nextStore, nextDraw
    {
      && 1 < buffers && nextStore != nextDraw && nextStore.Length == nextDraw.Length
      && (forall t | 0 <= t < nextStore.Length :: nextStore[t] < buffers && nextDraw[t] < buffers)
    }

    // What every track has pending
    ghost function Measured(): (h: seq<nat>)
      requires Valid()
      reads this, nextStore, nextDraw
    {
      PendingAll(nextDraw[..], nextStore[..], buffers)
    }

    // Vid_init_video_data: the rings of a new session are empty
    constructor (buffers: nat, tracks: nat)
      requires 1 < buffers
      ensures Valid() && fresh(nextStore) && fresh(nextDraw) && this.buffers == buffers
      ensures nextStore.Length == tracks && forall t | 0 <= t < tracks :: nextStore[t] == nextDraw[t] == 0
    {
      this.buffers := buffers;
      nextStore := new nat[tracks](_ => 0);
      nextDraw := new nat[tracks](_ => 0);
    }

    // The part of Vid_main that chooses a texture for every track
    method SelectFrames(ready: seq<bool>) returns (image: seq<nat>)
      requires Valid() && |ready| == nextDraw.Length
      modifies nextDraw
      ensures Valid() && |image| == |ready|
      ensures var h := old(Measured());
              && (forall t | 0 <= t < |ready| ::
                    h[t] == if old(nextDraw[t]) <= old(nextStore[t]) then old(nextStore[t]) - old(nextDraw[t])
                            else buffers - old(nextDraw[t]) + old(nextStore[t]))
              && (forall t | 0 <= t < |ready| ::
                    var took := ready[t] && h[t] > 0 && ((forall i | 0 <= i < |h| :: h[i] > 0)
                                                         || exists i | 0 <= i < |h| :: h[i] >= buffers - 1);
                    && nextDraw[t] == (if !took then old(nextDraw[t])
                                       else if old(nextDraw[t]) + 1 < buffers then old(nextDraw[t]) + 1 else 0)
                    && image[t] == (if took then old(nextDraw[t])
                                    else if old(nextDraw[t]) > 0 then old(nextDraw[t]) - 1 else buffers - 1))
    {
      image := ChooseFrames(ready);
    }

    method ChooseFrames(ready: seq<bool>) returns (image: seq<nat>)
      requires Valid() && |ready| == nextDraw.Length
      modifies nextDraw
      ensures Valid() && |image| == |ready|
      ensures forall t | 0 <= t < |ready| ::
                nextDraw[t] == if Takes(old(Measured()), t, buffers, ready[t])
                               then Advance(old(nextDraw[t]), buffers) else old(nextDraw[t])
      ensures forall t | 0 <= t < |ready| :: image[t] == Displayed(nextDraw[t], buffers)
    {
      var health, empty, full := MeasureTracks();
      assert health == Measured();
      ghost var was := nextDraw[..];
      image := [];
      var t := 0;
      while t < nextDraw.Length
        invariant 0 <= t <= nextDraw.Length == |was| && |image| == t && Valid()
        invariant nextDraw[t..] == was[t..]
        invariant forall i | 0 <= i < t ::
                    nextDraw[i] == if Takes(health, i, buffers, ready[i]) then Advance(was[i], buffers) else was[i]
        invariant forall i | 0 <= i < t :: image[i] == Displayed(nextDraw[i], buffers)
      {
        var index := if nextDraw[t] > 0 then nextDraw[t] - 1 else buffers - 1;
        if ready[t] && health[t] > 0 && (!empty || full) {
          index := nextDraw[t];
          nextDraw[t] := if nextDraw[t] + 1 < buffers then nextDraw[t] + 1 else 0;
        }
        image := image + [index];
        t := t + 1;
      }
    }

    method MeasureTracks() returns (health: seq<nat>, empty: bool, full: bool)
      requires Valid()
      ensures health == Measured()
      ensures empty == AnyEmpty(health) && full == AnyFull(health, buffers)
    {
      health, empty, full := [], false, false;
      var t := 0;
      while t < nextDraw.Length
        invariant 0 <= t <= nextDraw.Length
        invariant |health| == t && forall i | 0 <= i < t :: health[i] == Pending(nextDraw[i], nextStore[i], buffers)
        invariant empty == AnyEmpty(health) && full == AnyFull(health, buffers)
      {
        var h := if nextDraw[t] <= nextStore[t] then nextStore[t] - nextDraw[t]
                 else (buffers - nextDraw[t]) + nextStore[t];
        ghost var before := health;
        health := health + [h];
        assert forall i | 0 <= i < t :: health[i] == before[i];
        full := full || h >= buffers - 1;
        empty := empty || h == 0;
        t := t + 1;
      }
    }

    // The check of Vid_convert_thread before it converts into the next slot
    method HasRoom(t: nat) returns (room: bool)
      requires Valid() && t < nextStore.Length
      ensures room == (Pending(nextDraw[t], nextStore[t], buffers) + 1 < buffers)
    {
      var health := if nextDraw[t] <= nextStore[t] then nextStore[t] - nextDraw[t]
                    else (buffers - nextDraw[t]) + nextStore[t];
      room := !(health + 1 >= buffers);
    }

    method PublishFrame(t: nat)
      requires Valid() && t < nextStore.Length
      modifies nextStore
      ensures Valid() && nextStore[..] == old(nextStore[..])[t := Advance(old(nextStore[t]), buffers)]
    {
      var next := nextStore[t];
      if next + 1 < buffers {
        next := next + 1;
      } else {
        next := 0;
      }
      nextStore[t] := next;
    }
  }
}
