/** The playback engine of lib/three/PlaybackController.ts. The callbacks it invokes
    (`onPositionUpdate`, `onStateChange`, `onPlaybackComplete`) and the path renderer's trailing
    hooks are one appended event log. The motion rules are the functions on `Player`; the class
    `PlaybackController` runs them imperatively against a `Toolhead` and is proved equal to them. */
module ThreePlayback {
  import opened Js
  import opened Constants
  import opened ThreeToolhead

  /** What the controller reports to the outside, in order. */
  datatype Event =
    | PositionUpdate(position: ToolPosition)
    | StateChange(state: SimulationState)
    | PlaybackComplete
    /** `pathRenderer.resetProgressiveTrailing()`. */
    | TrailingReset
    /** `pathRenderer.updateProgressiveTrailing(index)`. */
    | TrailingUpdate(index: int)

  /** The controller's fields together with the toolhead position. */
  datatype Player = Player(
    segments: seq<GCodeSegment>,
    index: int,
    playing: bool,
    speed: real,
    progress: real,
    tool: Point3D)

  /** One operation's effect: the new player and the events it emitted. */
  datatype Step = Step(player: Player, events: seq<Event>)

  /** Between ticks: progress is a fraction below 1 and the index stays within the list. */
  predicate Inv(p: Player) {
    0.0 <= p.progress < 1.0 && 0 <= p.index <= |p.segments|
  }

  const FrameSeconds: real := 1.0 / 60.0
  const MinLength: real := 0.000001

  /** `getState` / the payload of `emitStateChange`. */
  function StateOf(p: Player): (s: SimulationState)
    ensures s.isPaused <==> !p.playing && p.index > 0
    ensures s.isPlaying == p.playing && s.currentSegmentIndex == p.index && s.speed == p.speed
    ensures Inv(p) ==> 0.0 <= s.progress <= 1.0
    ensures |p.segments| == 0 ==> s.progress == 0.0
    ensures Inv(p) && |p.segments| > 0 ==> (s.progress == 1.0 <==> p.index == |p.segments|)
  {
    var progress := if |p.segments| > 0 then p.index as real / |p.segments| as real else 0.0;
    assert Inv(p) && |p.segments| > 0 ==> progress <= 1.0 && (progress == 1.0 <==> p.index == |p.segments|) by {
      if Inv(p) && |p.segments| > 0 {
        FractionAtMostOne(p.index, |p.segments|);
      }
    }
    SimulationState(p.playing, !p.playing && p.index > 0, p.index, progress, p.speed)
  }

  lemma FractionAtMostOne(i: int, n: int)
    requires 0 <= i <= n && 0 < n
    ensures i as real / n as real <= 1.0
    ensures i as real / n as real == 1.0 <==> i == n
  {
    assert (i as real / n as real) * (n as real) == i as real;
  }

  /** The position event `emitPositionUpdate` sends: the feed is `feed || 0`, and the spindle is
      on iff the current segment (if any) has a non-zero spindle value. */
  function PositionEvent(p: Player, at: Point3D, feed: Option<JsNum>): Event {
    var spindleOn := 0 <= p.index < |p.segments| && Truthy(p.segments[p.index].spindle);
    PositionUpdate(ToolPosition(at.x, at.y, at.z, OrElse(feed, 0.0), spindleOn))
  }

  /** Where a reset puts the tool: the first segment's start, or the origin. */
  function HomeOf(segments: seq<GCodeSegment>): Point3D {
    if |segments| > 0 then segments[0].from else Point3D(0.0, 0.0, 0.0)
  }

  /** `reset`: stopped at index 0 with progress 0, the tool at the home point; emits the
      position (with the first segment's feed), the trailing reset and the state. */
  function ResetStep(p: Player): (r: Step)
    ensures Inv(r.player) && !r.player.playing && r.player.index == 0 && r.player.progress == 0.0
    ensures r.player.segments == p.segments && r.player.speed == p.speed
    ensures r.player.tool == HomeOf(p.segments)
    ensures var home, first := HomeOf(p.segments), |p.segments| > 0;
      r.events == [
        PositionUpdate(ToolPosition(home.x, home.y, home.z,
                                    if first then OrElse(p.segments[0].feed, 0.0) else 0.0,
                                    first && Truthy(p.segments[0].spindle))),
        TrailingReset,
        StateChange(StateOf(r.player))]
    ensures var st := StateOf(r.player); !st.isPlaying && !st.isPaused && st.progress == 0.0
  {
    var q := p.(playing := false, index := 0, progress := 0.0, tool := HomeOf(p.segments));
    var feed := if |p.segments| > 0 then p.segments[0].feed else Some(Num(0.0));
    Step(q, [PositionEvent(q, q.tool, feed), TrailingReset, StateChange(StateOf(q))])
  }

  /** `setSegments`: a new list, then `reset`. */
  function SetSegmentsStep(p: Player, segments: seq<GCodeSegment>): (r: Step)
    ensures r.player.segments == segments && Inv(r.player)
    ensures r.player.index == 0 && !r.player.playing && r.player.tool == HomeOf(segments)
  {
    ResetStep(p.(segments := segments))
  }

  /** `play`: nothing on an empty list; otherwise playing, with a state event. */
  function PlayStep(p: Player): (r: Step)
    ensures |p.segments| == 0 ==> r == Step(p, [])
    ensures |p.segments| > 0 ==> r.player == p.(playing := true) && r.events == [StateChange(StateOf(r.player))]
  {
    if |p.segments| == 0 then Step(p, [])
    else
      var q := p.(playing := true);
      Step(q, [StateChange(StateOf(q))])
  }

  /** `pause`: only clears the playing flag, and reports the state. */
  function PauseStep(p: Player): (r: Step)
    ensures r.player == p.(playing := false) && r.events == [StateChange(StateOf(r.player))]
  {
    var q := p.(playing := false);
    Step(q, [StateChange(StateOf(q))])
  }

  /** The feed a segment plays at: `segment.feed || 600`. */
  function PlayFeed(s: GCodeSegment): real {
    OrElse(s.feed, DefaultFeedRate)
  }

  /** The progress one tick adds on segment `s`: the distance travelled in one frame at the
      segment's feed (in mm per minute) times the speed multiplier, over the segment length
      (at least 1e-6). */
  function Increment(lib: MathLib, s: GCodeSegment, speed: real): real {
    var dist := Hypot3(lib, s.to.x - s.from.x, s.to.y - s.from.y, s.to.z - s.from.z);
    FrameStep(PlayFeed(s), speed) / Max(dist, MinLength)
  }

  /** The millimetres one frame travels: the feed per second times the speed, over 1/60 s. */
  function FrameStep(feedRate: real, speed: real): real {
    (feedRate / 60.0) * speed * FrameSeconds
  }

  /** The clamped progress after one tick. */
  function Advance(progress: real, inc: real): (r: real)
    ensures 0.0 <= r <= 1.0
  {
    Min(1.0, Max(0.0, progress + inc))
  }

  /** The point a fraction `t` of the way from `a` to `b`. */
  function Lerp(a: Point3D, b: Point3D, t: real): (r: Point3D)
    ensures t == 0.0 ==> r == a
    ensures t == 1.0 ==> r == b
  {
    Point3D(a.x + (b.x - a.x) * t, a.y + (b.y - a.y) * t, a.z + (b.z - a.z) * t)
  }

  /** `update` on a playing player with a segment left: either the segment completes (the tool
      snaps to its end, the index moves on, progress restarts, and reaching the end stops
      playback with a completion event) or the tool moves to the interpolated point. */
  function AdvanceStep(lib: MathLib, p: Player): Step
    requires 0 <= p.index < |p.segments|
  {
    var s := p.segments[p.index];
    var prog := Advance(p.progress, Increment(lib, s, p.speed));
    var feed := PlayFeed(s);
    if prog >= 1.0 then
      var done := p.index + 1 >= |p.segments|;
      var q := p.(tool := s.to, index := p.index + 1, progress := 0.0, playing := p.playing && !done);
      Step(q, [TrailingUpdate(q.index)] + (if done then [PlaybackComplete] else [])
              + [PositionUpdate(ToolPosition(s.to.x, s.to.y, s.to.z, feed, Truthy(s.spindle))),
                 StateChange(StateOf(q))])
    else
      var at := Lerp(s.from, s.to, prog);
      var q := p.(tool := at, progress := prog);
      Step(q, [PositionUpdate(ToolPosition(at.x, at.y, at.z, feed, Truthy(s.spindle))), StateChange(StateOf(q))])
  }

  /** `AdvanceStep` when the segment completes, for the proof of `PlaybackController.Update`. */
  lemma AdvanceCompletes(lib: MathLib, p: Player, q: Player)
    requires 0 <= p.index < |p.segments|
    requires Advance(p.progress, Increment(lib, p.segments[p.index], p.speed)) >= 1.0
    requires q == p.(tool := p.segments[p.index].to, index := p.index + 1, progress := 0.0,
                     playing := p.playing && p.index + 1 < |p.segments|)
    ensures var s := p.segments[p.index];
      AdvanceStep(lib, p) == Step(q, [TrailingUpdate(q.index)] + (if q.index >= |p.segments| then [PlaybackComplete] else [])
        + [PositionUpdate(ToolPosition(s.to.x, s.to.y, s.to.z, PlayFeed(s), Truthy(s.spindle))), StateChange(StateOf(q))])
  {
  }

  /** `AdvanceStep` when the segment does not complete. */
  lemma AdvanceMoves(lib: MathLib, p: Player, prog: real, q: Player)
    requires 0 <= p.index < |p.segments|
    requires prog == Advance(p.progress, Increment(lib, p.segments[p.index], p.speed)) && prog < 1.0
    requires q == p.(tool := Lerp(p.segments[p.index].from, p.segments[p.index].to, prog), progress := prog)
    ensures AdvanceStep(lib, p) == Step(q, [PositionUpdate(ToolPosition(q.tool.x, q.tool.y, q.tool.z,
        PlayFeed(p.segments[p.index]), Truthy(p.segments[p.index].spindle))), StateChange(StateOf(q))])
  {
  }

  /** `update`, one animation frame. */
  function Tick(lib: MathLib, p: Player): Step {
    if !p.playing || |p.segments| == 0 then Step(p, [])
    else if p.index >= |p.segments| || p.index < 0 then
      var q := p.(playing := false);
      Step(q, [PlaybackComplete, StateChange(StateOf(q))])
    else AdvanceStep(lib, p)
  }

  // ---------------------------------------------------------------- properties of a tick

  /** A tick keeps the invariant, never changes the list or the speed, and moves the index by
      at most one: excess progress is dropped, so at most one segment completes per tick. */
  lemma TickKeepsInv(lib: MathLib, p: Player)
    requires Inv(p)
    ensures var q := Tick(lib, p).player;
      && Inv(q) && q.segments == p.segments && q.speed == p.speed
      && (q.index == p.index || q.index == p.index + 1)
      && (q.playing ==> p.playing)
  {
  }

  /** A tick does nothing unless playing with a non-empty list; at the end it only stops and
      reports completion without moving the tool. */
  lemma TickIdleAndEnd(lib: MathLib, p: Player)
    ensures !p.playing || |p.segments| == 0 ==> Tick(lib, p) == Step(p, [])
    ensures p.playing && |p.segments| > 0 && p.index >= |p.segments| ==>
      Tick(lib, p).player == p.(playing := false)
      && Tick(lib, p).events == [PlaybackComplete, StateChange(StateOf(p.(playing := false)))]
  {
  }

  /** When a tick does not complete the segment, the tool is at from + (to - from) * progress
      for the new progress; when it completes one, the tool is at its end and the trailing
      observer receives the new index. Completion is reported exactly when the last segment
      completes. */
  lemma TickMotion(lib: MathLib, p: Player)
    requires Inv(p) && p.playing && p.index < |p.segments|
    ensures var r := Tick(lib, p);
      var s := p.segments[p.index];
      && (r.player.index == p.index ==>
            r.player.tool == Lerp(s.from, s.to, r.player.progress) && r.player.playing)
      && (r.player.index == p.index + 1 ==>
            && r.player.tool == s.to && r.player.progress == 0.0
            && r.events[0] == TrailingUpdate(p.index + 1)
            && (PlaybackComplete in r.events <==> p.index + 1 == |p.segments|)
            && (r.player.playing <==> p.index + 1 < |p.segments|))
  {
  }

  /** A zero speed multiplier freezes playback: no index or progress change. */
  lemma ZeroSpeedFreezes(lib: MathLib, p: Player)
    requires Inv(p) && p.speed == 0.0
    ensures Tick(lib, p).player.index == p.index || p.index >= |p.segments|
    ensures p.index < |p.segments| ==> Tick(lib, p).player.progress == p.progress
  {
  }

  /** Feeds that play forward: `feed || 600` is positive for every segment. */
  predicate ForwardFeeds(segments: seq<GCodeSegment>) {
    forall k :: 0 <= k < |segments| ==> 0.0 < PlayFeed(segments[k])
  }

  lemma IncrementPositive(lib: MathLib, s: GCodeSegment, speed: real)
    requires 0.0 < PlayFeed(s) && 0.0 < speed
    ensures 0.0 < Increment(lib, s, speed)
  {
    var dist := Hypot3(lib, s.to.x - s.from.x, s.to.y - s.from.y, s.to.z - s.from.z);
    var num := FrameStep(PlayFeed(s), speed);
    assert 0.0 < PlayFeed(s) / 60.0;
    PositiveProduct(PlayFeed(s) / 60.0, speed);
    PositiveProduct(PlayFeed(s) / 60.0 * speed, FrameSeconds);
    assert 0.0 < num;
    assert 0.0 < Max(dist, MinLength);
  }

  lemma PositiveProduct(a: real, b: real)
    requires 0.0 < a && 0.0 < b
    ensures 0.0 < a * b
  {
  }

  /** `k` ticks in a row. */
  function Ticks(lib: MathLib, p: Player, k: nat): Player
    decreases k
  {
    if k == 0 then p else Ticks(lib, Tick(lib, p).player, k - 1)
  }

  /** `q` is `p` with its current segment played to the end: the index moved on by one, the
      tool at that segment's end, and playback stopped exactly when the list is done. */
  predicate FinishedSegment(p: Player, q: Player) {
    && 0 <= p.index < |p.segments|
    && q.index == p.index + 1 && q.segments == p.segments && q.speed == p.speed && Inv(q)
    && q.tool == p.segments[p.index].to
    && (q.playing <==> p.index + 1 < |p.segments|)
  }

  /** With a positive speed and a positive feed, the current segment completes after finitely
      many ticks. */
  lemma {:induction false} SegmentCompletes(lib: MathLib, p: Player)
    requires Inv(p) && p.playing && p.index < |p.segments|
    requires 0.0 < p.speed && 0.0 < PlayFeed(p.segments[p.index])
    ensures exists k: nat :: FinishedSegment(p, Ticks(lib, p, k))
    decreases ((1.0 - p.progress) / Increment(lib, p.segments[p.index], p.speed)).Floor
  {
    var s := p.segments[p.index];
    var inc := Increment(lib, s, p.speed);
    IncrementPositive(lib, s, p.speed);
    TickKeepsInv(lib, p);
    TickMotion(lib, p);
    var q := Tick(lib, p).player;
    assert Ticks(lib, p, 1) == q;
    if q.index == p.index + 1 {
      assert FinishedSegment(p, Ticks(lib, p, 1));
    } else {
      assert p.progress + inc < 1.0;
      assert q.progress == p.progress + inc;
      assert (1.0 - q.progress) / inc == (1.0 - p.progress) / inc - 1.0 by {
        assert (1.0 - q.progress) == (1.0 - p.progress) - inc;
        DivSub(1.0 - p.progress, inc);
      }
      assert 0.0 <= (1.0 - q.progress) / inc by {
        NonNegativeQuotient(1.0 - q.progress, inc);
      }
      SegmentCompletes(lib, q);
      var k: nat :| FinishedSegment(q, Ticks(lib, q, k));
      assert Ticks(lib, p, k + 1) == Ticks(lib, q, k);
      assert FinishedSegment(p, Ticks(lib, p, k + 1));
    }
  }

  lemma DivSub(a: real, b: real)
    requires 0.0 < b
    ensures (a - b) / b == a / b - 1.0
  {
    assert ((a - b) / b) * b == a - b;
    assert (a / b - 1.0) * b == a - b by {
      assert (a / b) * b == a;
    }
    MulCancel((a - b) / b, a / b - 1.0, b);
  }

  lemma MulCancel(x: real, y: real, b: real)
    requires 0.0 < b && x * b == y * b
    ensures x == y
  {
    assert (x - y) * b == 0.0;
  }

  lemma NonNegativeQuotient(a: real, b: real)
    requires 0.0 <= a && 0.0 < b
    ensures 0.0 <= a / b
  {
  }

  lemma {:induction false} TicksAdd(lib: MathLib, p: Player, j: nat, k: nat)
    ensures Ticks(lib, p, j + k) == Ticks(lib, Ticks(lib, p, j), k)
    decreases j
  {
    if j > 0 {
      TicksAdd(lib, Tick(lib, p).player, j - 1, k);
    }
  }

  /** The list played to the end: the index at the length, playback stopped, the tool at the
      last segment's end. */
  predicate FinishedList(p: Player, q: Player) {
    |p.segments| > 0 && q.index == |p.segments| && !q.playing && q.tool == p.segments[|p.segments| - 1].to
  }

  /** Liveness: playing forward with a positive speed, enough ticks reach the end of the list,
      stop playback and leave the tool at the last segment's end. */
  lemma {:induction false} PlaybackFinishes(lib: MathLib, p: Player)
    requires Inv(p) && p.playing && p.index < |p.segments|
    requires 0.0 < p.speed && ForwardFeeds(p.segments)
    ensures exists k: nat :: FinishedList(p, Ticks(lib, p, k))
    decreases |p.segments| - p.index
  {
    SegmentCompletes(lib, p);
    var j: nat :| FinishedSegment(p, Ticks(lib, p, j));
    var q := Ticks(lib, p, j);
    if p.index + 1 == |p.segments| {
      assert FinishedList(p, Ticks(lib, p, j));
    } else {
      PlaybackFinishes(lib, q);
      var k: nat :| FinishedList(q, Ticks(lib, q, k));
      TicksAdd(lib, p, j, k);
      assert FinishedList(p, Ticks(lib, p, j + k));
    }
  }

  /** From a reset, `play` on a non-empty list with a positive speed and forward feeds plays
      the whole list to the end. */
  lemma PlayFromResetFinishes(lib: MathLib, p: Player)
    requires |p.segments| > 0 && 0.0 < p.speed && ForwardFeeds(p.segments)
    ensures var q := PlayStep(ResetStep(p).player).player;
      q.index == 0 && q.playing && exists k: nat :: FinishedList(q, Ticks(lib, q, k))
  {
    PlaybackFinishes(lib, PlayStep(ResetStep(p).player).player);
  }

  /** A speed of zero or less never starts a segment moving: from progress 0 the tick leaves
      the tool at the segment's start and the index where it was. */
  lemma NonPositiveSpeedStays(lib: MathLib, p: Player)
    requires Inv(p) && p.playing && p.index < |p.segments| && p.progress == 0.0
    requires p.speed <= 0.0 && 0.0 < PlayFeed(p.segments[p.index])
    ensures var q := Tick(lib, p).player;
      q.index == p.index && q.progress == 0.0 && q.tool == p.segments[p.index].from
  {
    var s := p.segments[p.index];
    var dist := Hypot3(lib, s.to.x - s.from.x, s.to.y - s.from.y, s.to.z - s.from.z);
    assert FrameStep(PlayFeed(s), p.speed) <= 0.0 by {
      NonPositiveProduct(PlayFeed(s) / 60.0, p.speed);
      NonPositiveProduct(FrameSeconds, (PlayFeed(s) / 60.0) * p.speed);
    }
    assert 0.0 < Max(dist, MinLength);
    assert Increment(lib, s, p.speed) <= 0.0;
  }

  lemma NonPositiveProduct(a: real, b: real)
    requires 0.0 < a && b <= 0.0
    ensures a * b <= 0.0 && b * a <= 0.0
  {
  }

  /** After a reset, playback only moves forward: every later tick keeps the invariant and the
      index never decreases. */
  lemma {:induction false} TicksMonotone(lib: MathLib, p: Player, k: nat)
    requires Inv(p)
    ensures Inv(Ticks(lib, p, k)) && p.index <= Ticks(lib, p, k).index
    ensures Ticks(lib, p, k).segments == p.segments
    decreases k
  {
    if k > 0 {
      TickKeepsInv(lib, p);
      TicksMonotone(lib, Tick(lib, p).player, k - 1);
    }
  }

  // ---------------------------------------------------------------- the controller

  class PlaybackController {
    var segments: seq<GCodeSegment>
    var currentSegmentIndex: int
    var isPlaying: bool
    var speed: real
    var segmentProgress: real
    const toolhead: Toolhead
    /** Everything reported so far through the callbacks and the trailing hooks. */
    var events: seq<Event>

    /** The abstract player this controller stands for. */
    function Snap(): Player
      reads this, toolhead
    {
      Player(segments, currentSegmentIndex, isPlaying, speed, segmentProgress, toolhead.currentPosition)
    }

    predicate Valid()
      reads this, toolhead
    {
      toolhead.Valid() && Inv(Snap())
    }

    constructor (t: Toolhead)
      requires t.Valid()
      ensures toolhead == t && Valid() && events == []
      ensures Snap() == Player([], 0, false, 1.0, 0.0, t.currentPosition)
    {
      toolhead := t;
      segments := [];
      currentSegmentIndex := 0;
      isPlaying := false;
      speed := 1.0;
      segmentProgress := 0.0;
      events := [];
    }

    /** `setSegments`: replace the list and reset. */
    method SetSegments(s: seq<GCodeSegment>)
      requires Valid()
      modifies this, toolhead
      ensures Valid()
      ensures Snap() == SetSegmentsStep(old(Snap()), s).player
      ensures events == old(events) + SetSegmentsStep(old(Snap()), s).events
    {
      segments := s;
      Reset();
    }

    /** `play`. */
    method Play()
      requires Valid()
      modifies this
      ensures Valid() && toolhead.currentPosition == old(toolhead.currentPosition)
      ensures Snap() == PlayStep(old(Snap())).player
      ensures events == old(events) + PlayStep(old(Snap())).events
    {
      if |segments| == 0 {
        return;
      }
      isPlaying := true;
      EmitStateChange();
    }

    /** `pause`. */
    method Pause()
      requires Valid()
      modifies this
      ensures Valid()
      ensures Snap() == PauseStep(old(Snap())).player
      ensures events == old(events) + PauseStep(old(Snap())).events
    {
      isPlaying := false;
      EmitStateChange();
    }

    /** `reset`. */
    method Reset()
      requires toolhead.Valid()
      modifies this, toolhead
      ensures Valid()
      ensures Snap() == ResetStep(old(Snap())).player
      ensures events == old(events) + ResetStep(old(Snap())).events
    {
      isPlaying := false;
      currentSegmentIndex := 0;
      segmentProgress := 0.0;
      if |segments| > 0 {
        var first := segments[0];
        toolhead.SetPositionXYZ(first.from.x, first.from.y, first.from.z);
        EmitPositionUpdate(first.from, first.feed);
      } else {
        toolhead.SetPositionXYZ(0.0, 0.0, 0.0);
        EmitPositionUpdate(Point3D(0.0, 0.0, 0.0), Some(Num(0.0)));
      }
      events := events + [TrailingReset];
      EmitStateChange();
    }

    /** `setSpeed`: only stores the multiplier. */
    method SetSpeed(multiplier: real)
      requires Valid()
      modifies this
      ensures Valid()
      ensures Snap() == old(Snap()).(speed := multiplier) && events == old(events)
    {
      speed := multiplier;
    }

    /** `update`: one frame of playback. */
    method Update(lib: MathLib)
      requires Valid()
      modifies this, toolhead
      ensures Valid()
      ensures Snap() == Tick(lib, old(Snap())).player
      ensures events == old(events) + Tick(lib, old(Snap())).events
    {
      if !isPlaying || |segments| == 0 {
        return;
      }
      if currentSegmentIndex >= |segments| {
        isPlaying := false;
        events := events + [PlaybackComplete];
        EmitStateChange();
        return;
      }
      AdvanceSegment(lib);
    }

    /** The part of `update` that moves along the current segment. */
    method AdvanceSegment(lib: MathLib)
      requires Valid() && isPlaying && 0 <= currentSegmentIndex < |segments|
      modifies this, toolhead
      ensures Valid()
      ensures Snap() == AdvanceStep(lib, old(Snap())).player
      ensures events == old(events) + AdvanceStep(lib, old(Snap())).events
    {
      ghost var p := Snap();
      TickKeepsInv(lib, p);
      var segment := segments[currentSegmentIndex];
      var from := segment.from;
      var to := segment.to;
      var dist := Hypot3(lib, to.x - from.x, to.y - from.y, to.z - from.z);
      var feedRate := OrElse(segment.feed, 600.0);
      var step := FrameStep(feedRate, speed);
      var progressIncrement := step / Max(dist, MinLength);
      assert progressIncrement == Increment(lib, segment, speed);
      segmentProgress := segmentProgress + progressIncrement;
      segmentProgress := Min(1.0, Max(0.0, segmentProgress));
      ghost var prog := segmentProgress;
      assert prog == Advance(p.progress, Increment(lib, segment, p.speed));
      if segmentProgress >= 1.0 {
        CompleteSegment(to);
        AdvanceCompletes(lib, p, Snap());
      } else {
        var n := Lerp(from, to, segmentProgress);
        toolhead.SetPositionXYZ(n.x, n.y, n.z);
        assert Snap() == p.(tool := Lerp(from, to, prog), progress := prog);
        AdvanceMoves(lib, p, prog, Snap());
      }
      ReportPosition(feedRate, Truthy(segment.spindle));
    }

    /** The end of `update`: the position callback with the toolhead's position, the feed
        played and whether the segment's spindle value is non-zero, then the state. */
    method ReportPosition(feed: real, spindleOn: bool)
      requires toolhead.Valid()
      modifies this
      ensures Snap() == old(Snap())
      ensures events == old(events) + [PositionUpdate(ToolPosition(toolhead.currentPosition.x,
        toolhead.currentPosition.y, toolhead.currentPosition.z, feed, spindleOn)), StateChange(StateOf(Snap()))]
    {
      var pos := toolhead.GetPosition();
      events := events + [PositionUpdate(ToolPosition(pos.x, pos.y, pos.z, feed, spindleOn))];
      EmitStateChange();
    }

    /** A completed segment: the tool snaps to its end, the index moves on, progress restarts,
        the trailing observer gets the new index, and the end of the list stops playback. */
    method CompleteSegment(to: Point3D)
      requires toolhead.Valid() && 0 <= currentSegmentIndex < |segments|
      modifies this, toolhead
      ensures toolhead.Valid()
      ensures Snap() == old(Snap()).(tool := to, index := old(currentSegmentIndex) + 1, progress := 0.0,
                                     playing := old(isPlaying) && old(currentSegmentIndex) + 1 < |segments|)
      ensures events == old(events) + [TrailingUpdate(old(currentSegmentIndex) + 1)]
                        + (if old(currentSegmentIndex) + 1 >= |segments| then [PlaybackComplete] else [])
    {
      toolhead.SetPositionXYZ(to.x, to.y, to.z);
      currentSegmentIndex := currentSegmentIndex + 1;
      segmentProgress := 0.0;
      events := events + [TrailingUpdate(currentSegmentIndex)];
      if currentSegmentIndex >= |segments| {
        isPlaying := false;
        events := events + [PlaybackComplete];
      }
    }

    /** `emitPositionUpdate`. */
    method EmitPositionUpdate(position: Point3D, feed: Option<JsNum>)
      modifies this
      ensures events == old(events) + [PositionEvent(Snap(), position, feed)]
      ensures Snap() == old(Snap())
    {
      var spindleOn := 0 <= currentSegmentIndex < |segments| && Truthy(segments[currentSegmentIndex].spindle);
      events := events + [PositionUpdate(ToolPosition(position.x, position.y, position.z, OrElse(feed, 0.0), spindleOn))];
    }

    /** `emitStateChange`. */
    method EmitStateChange()
      modifies this
      ensures events == old(events) + [StateChange(StateOf(Snap()))]
      ensures Snap() == old(Snap())
    {
      var s := GetState();
      events := events + [StateChange(s)];
    }

    /** `getState`. */
    method GetState() returns (s: SimulationState)
      ensures s == StateOf(Snap())
    {
      var progress := if |segments| > 0 then currentSegmentIndex as real / |segments| as real else 0.0;
      s := SimulationState(isPlaying, !isPlaying && currentSegmentIndex > 0, currentSegmentIndex, progress, speed);
    }
  }
}
