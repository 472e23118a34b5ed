/** The photo-booth capture session as a value: its state, one transition
    function per handler of the component, the invariant every transition
    the UI offers keeps, and the shape of the countdown a capture displays. */
module Session {

  datatype Option<T> = None | Some(value: T)

  /** The three screens of the booth. */
  datatype Step = Intro | Capture | Preview

  /** Pixel offset of one photo inside the strip. */
  datatype Position = Position(x: int, y: int)

  /** The offset a freshly captured photo starts with. */
  const Origin := Position(0, 0)

  /** A captured photo: the data URL the frame grab produced. */
  type Photo = string

  /** A camera stream granted by the browser, told apart by an identity. */
  datatype MediaStream = MediaStream(id: nat)

  /** Photos taken by one capture sequence. */
  const ShotCount: nat := 3

  /** First value of the countdown before each photo. */
  const CountdownFrom: nat := 3

  /** The component's state, plus two logs of its effects on the outside
      world: `shown` holds every value the countdown overlay was set to, in
      order, and `stopped` every stream whose tracks were stopped, in order. */
  datatype State = State(
    step: Step,
    photos: seq<Photo>,
    positions: seq<Position>,
    isCapturing: bool,
    countdown: Option<nat>,
    stream: Option<MediaStream>,
    shown: seq<Option<nat>>,
    stopped: seq<MediaStream>)

  /** The `useState` initial values: intro screen, nothing captured. */
  function Initial(): (r: State)
    ensures Consistent(r)
  {
    State(Intro, [], [], false, None, None, [], [])
  }

  /** `if (photo)` in JavaScript: a missing grab and an empty string are both falsy. */
  predicate Truthy(photo: Option<Photo>) {
    photo.Some? && photo.value != ""
  }

  function Origins(n: nat): (r: seq<Position>)
    ensures |r| == n && forall k :: 0 <= k < n ==> r[k] == Origin
  {
    seq(n, _ => Origin)
  }

  lemma OriginsConcat(a: nat, b: nat)
    ensures Origins(a) + Origins(b) == Origins(a + b)
  {
    assert forall k :: 0 <= k < a + b ==> (Origins(a) + Origins(b))[k] == Origin;
  }

  // ---------------------------------------------------------------------------
  // Countdown

  /** The countdown values `n, n - 1, ..., 1`, as the overlay shows them. */
  function Countdown(n: nat): (r: seq<Option<nat>>)
    ensures |r| == n
    ensures forall k :: 0 <= k < n ==> r[k] == Some(n - k)
  {
    if n == 0 then [] else [Some(n)] + Countdown(n - 1)
  }

  /** What one shot sets the overlay to: the countdown, 0 at the shutter and
      nothing after the pause. */
  function ShotTrace(): (r: seq<Option<nat>>)
    ensures |r| == CountdownFrom + 2
    ensures forall k :: 0 <= k < CountdownFrom ==> r[k] == Some(CountdownFrom - k)
    ensures r[CountdownFrom] == Some(0) && r[CountdownFrom + 1] == None
  {
    Countdown(CountdownFrom) + [Some(0), None]
  }

  /** The overlay of one shot starts at three and strictly decreases through
      positive values before the shutter shows 0. */
  lemma ShotTraceDescends()
    ensures ShotTrace()[0] == Some(CountdownFrom)
    ensures forall j, k :: 0 <= j < k < CountdownFrom ==>
              ShotTrace()[j].Some? && ShotTrace()[k].Some? && ShotTrace()[j].value > ShotTrace()[k].value > 0
  {
  }

  // ---------------------------------------------------------------------------
  // Frame grabs

  /** The photos a run of frame grabs keeps, in grab order. */
  function Kept(frames: seq<Option<Photo>>): (r: seq<Photo>)
    ensures |r| <= |frames|
  {
    if |frames| == 0 then []
    else (if Truthy(frames[0]) then [frames[0].value] else []) + Kept(frames[1..])
  }

  /** `Kept` is the filter of truthy grabs: every kept photo is a non-empty
      grabbed photo, every truthy grab is kept, and nothing is dropped exactly
      when every grab is truthy. */
  lemma {:induction false} KeptIsFilter(frames: seq<Option<Photo>>)
    ensures |Kept(frames)| == |frames| <==> forall k :: 0 <= k < |frames| ==> Truthy(frames[k])
    ensures forall p :: p in Kept(frames) ==> p != "" && Some(p) in frames
    ensures forall k :: 0 <= k < |frames| && Truthy(frames[k]) ==> frames[k].value in Kept(frames)
  {
    if |frames| > 0 {
      var rest := frames[1..];
      KeptIsFilter(rest);
      assert forall k :: 1 <= k < |frames| ==> frames[k] == rest[k - 1];
      assert forall p :: Some(p) in rest ==> Some(p) in frames;
      if |Kept(frames)| == |frames| {
        assert Truthy(frames[0]) && |Kept(rest)| == |rest|;
      }
    }
  }

  lemma {:induction false} KeptConcat(a: seq<Option<Photo>>, b: seq<Option<Photo>>)
    ensures Kept(a + b) == Kept(a) + Kept(b)
  {
    if |a| == 0 {
      assert a + b == b;
    } else {
      var head := if Truthy(a[0]) then [a[0].value] else [];
      assert (a + b)[0] == a[0] && (a + b)[1..] == a[1..] + b;
      assert Kept(a + b) == head + Kept(a[1..] + b);
      KeptConcat(a[1..], b);
      assert Kept(a) == head + Kept(a[1..]);
    }
  }

  /** Grabs are kept in grab order: the k-th grab adds its photo, if truthy,
      after those of the earlier grabs. */
  lemma KeptStep(frames: seq<Option<Photo>>, k: nat)
    requires k < |frames|
    ensures Kept(frames[..k + 1]) == Kept(frames[..k]) + (if Truthy(frames[k]) then [frames[k].value] else [])
  {
    assert frames[..k + 1] == frames[..k] + [frames[k]];
    KeptConcat(frames[..k], [frames[k]]);
    assert [frames[k]][1..] == [];
  }

  /** The effect of one frame grab: a truthy photo is appended together with
      a default position; anything else leaves the session as it is. */
  function Grab(s: State, photo: Option<Photo>): (r: State)
    ensures r.photos == s.photos + Kept([photo])
    ensures r.positions == s.positions + Origins(|Kept([photo])|)
    ensures r.step == s.step && r.isCapturing == s.isCapturing && r.countdown == s.countdown
    ensures r.stream == s.stream && r.shown == s.shown && r.stopped == s.stopped
  {
    assert [photo][1..] == [];
    if Truthy(photo) then s.(photos := s.photos + [photo.value], positions := s.positions + [Origin])
    else s
  }

  /** One `captureOne` step, run while a capture is in progress: count down,
      grab a frame, clear the overlay. */
  function Shot(s: State, photo: Option<Photo>): (r: State)
    requires s.isCapturing
    ensures r.photos == s.photos + Kept([photo])
    ensures r.positions == s.positions + Origins(|Kept([photo])|)
    ensures r.shown == s.shown + ShotTrace() && r.countdown == None
    ensures r.step == s.step && r.isCapturing == s.isCapturing && r.stream == s.stream && r.stopped == s.stopped
  {
    Grab(s, photo).(countdown := None, shown := s.shown + ShotTrace())
  }

  // ---------------------------------------------------------------------------
  // Transitions, one per handler

  /** `startCamera`, `grant` being what `getUserMedia` resolves to (None when it rejects). */
  function AfterStartCamera(s: State, grant: Option<MediaStream>): (r: State)
    ensures grant.Some? ==> r.stream == grant && r.step == Capture
    ensures grant.None? ==> r == s
    ensures r.photos == s.photos && r.positions == s.positions && r.isCapturing == s.isCapturing
    ensures r.stopped == s.stopped
  {
    if grant.Some? then s.(stream := grant, step := Capture) else s
  }

  /** Stop the held stream's tracks and drop it. */
  function ReleaseStream(s: State): (r: State)
    ensures r.stream == None
    ensures r.stopped == s.stopped + (if s.stream.Some? then [s.stream.value] else [])
    ensures r.step == s.step && r.photos == s.photos && r.positions == s.positions
    ensures r.isCapturing == s.isCapturing && r.countdown == s.countdown && r.shown == s.shown
  {
    if s.stream.Some? then s.(stopped := s.stopped + [s.stream.value], stream := None) else s
  }

  /** `startCaptureSequence`, with `frames[k]` the result of the k-th frame grab. */
  function AfterSequence(s: State, frames: seq<Option<Photo>>): (r: State)
    requires |frames| == ShotCount
    ensures s.isCapturing ==> r == s
    ensures !s.isCapturing ==> !r.isCapturing && r.step == Preview && r.stream == None && r.countdown == None
  {
    if s.isCapturing then s
    else
      var armed := s.(isCapturing := true, photos := [], positions := []);
      var shot := Shot(Shot(Shot(armed, frames[0]), frames[1]), frames[2]);
      ReleaseStream(shot.(isCapturing := false, step := Preview))
  }

  /** `reset`: clear photos and positions, show the intro screen, then ask
      for the camera, `grant` being the answer. */
  function AfterReset(s: State, grant: Option<MediaStream>): (r: State)
    ensures r.photos == [] && r.positions == []
    ensures r.step == (if grant.Some? then Capture else Intro)
    ensures r.stream == (if grant.Some? then grant else s.stream)
    ensures r.isCapturing == s.isCapturing && r.stopped == s.stopped
  {
    AfterStartCamera(s.(photos := [], positions := [], step := Intro), grant)
  }

  /** `handlePhotoPositionChange`: move photo `i` to `p`. */
  function AfterSetPosition(s: State, i: nat, p: Position): (r: State)
    requires i < |s.positions|
    ensures |r.positions| == |s.positions| && r.positions[i] == p
    ensures forall k :: 0 <= k < |s.positions| && k != i ==> r.positions[k] == s.positions[k]
    ensures r.step == s.step && r.photos == s.photos && r.isCapturing == s.isCapturing
    ensures r.countdown == s.countdown && r.stream == s.stream && r.shown == s.shown && r.stopped == s.stopped
  {
    s.(positions := s.positions[i := p])
  }

  /** The photos a capture sequence leaves are exactly the truthy grabs, in
      grab order, each with the default position. */
  lemma SequenceKeepsGrabs(s: State, frames: seq<Option<Photo>>)
    requires |frames| == ShotCount && !s.isCapturing
    ensures AfterSequence(s, frames).photos == Kept(frames)
    ensures AfterSequence(s, frames).positions == Origins(|Kept(frames)|)
  {
    var armed := s.(isCapturing := true, photos := [], positions := []);
    var s1 := Shot(armed, frames[0]);
    var s2 := Shot(s1, frames[1]);
    var s3 := Shot(s2, frames[2]);
    var k0, k1, k2 := Kept([frames[0]]), Kept([frames[1]]), Kept([frames[2]]);
    assert s3.photos == k0 + k1 + k2;
    assert s3.positions == Origins(|k0|) + Origins(|k1|) + Origins(|k2|);
    assert frames == [frames[0]] + [frames[1]] + [frames[2]];
    KeptConcat([frames[0]] + [frames[1]], [frames[2]]);
    KeptConcat([frames[0]], [frames[1]]);
    OriginsConcat(|k0|, |k1|);
    OriginsConcat(|k0| + |k1|, |k2|);
    assert AfterSequence(s, frames) == ReleaseStream(s3.(isCapturing := false, step := Preview));
  }

  /** What a capture sequence does: a second request while one runs changes
      nothing; otherwise at most three photos are kept, each with a default
      position, the overlay ran three full countdowns, the session is on the
      preview screen, and the handler stopped the stream that was held, if
      any, and dropped it. */
  lemma SequenceOutcome(s: State, frames: seq<Option<Photo>>)
    requires |frames| == ShotCount
    ensures s.isCapturing ==> AfterSequence(s, frames) == s
    ensures !s.isCapturing ==>
      var r := AfterSequence(s, frames);
      && |r.photos| == |r.positions| <= ShotCount
      && !r.isCapturing && r.step == Preview && r.countdown == None
      && r.stream == None
      && r.stopped == s.stopped + (if s.stream.Some? then [s.stream.value] else [])
      && r.shown == s.shown + ShotTrace() + ShotTrace() + ShotTrace()
  {
    if !s.isCapturing {
      SequenceKeepsGrabs(s, frames);
    }
  }

  // ---------------------------------------------------------------------------
  // The invariant of the states a user can reach

  /** Between handlers: photos and positions stay in step and number at most
      three, no capture is running, the overlay is clear, a camera stream is
      held exactly while the capture screen is showing, and photos exist only
      on the preview screen. */
  predicate Consistent(s: State) {
    && |s.photos| == |s.positions|
    && |s.photos| <= ShotCount
    && !s.isCapturing
    && s.countdown == None
    && (s.stream.Some? <==> s.step == Capture)
    && (s.step != Preview ==> s.photos == [])
  }

  /** A user action, with what the browser answers to it. */
  datatype Event =
    | StartCameraClicked(grant: Option<MediaStream>)
    | CaptureClicked(frames: seq<Option<Photo>>)
    | RetakeClicked(grant: Option<MediaStream>)
    | PositionChanged(index: nat, pos: Position)

  /** Which actions the rendered screen offers: the start button on the intro
      screen, the shutter button on the capture screen while no capture runs,
      and retake on the preview screen. Position changes are allowed on the
      preview screen for any existing photo; nothing in this repository calls
      that handler, so this over-approximates what the screen offers. */
  predicate Enabled(s: State, e: Event) {
    match e
    case StartCameraClicked(_) => s.step == Intro
    case CaptureClicked(frames) => s.step == Capture && !s.isCapturing && |frames| == ShotCount
    case RetakeClicked(_) => s.step == Preview
    case PositionChanged(i, _) => s.step == Preview && i < |s.positions|
  }

  function Apply(s: State, e: Event): State
    requires Enabled(s, e)
  {
    match e
    case StartCameraClicked(grant) => AfterStartCamera(s, grant)
    case CaptureClicked(frames) => AfterSequence(s, frames)
    case RetakeClicked(grant) => AfterReset(s, grant)
    case PositionChanged(i, p) => AfterSetPosition(s, i, p)
  }

  lemma ApplyKeepsConsistent(s: State, e: Event)
    requires Consistent(s) && Enabled(s, e)
    ensures Consistent(Apply(s, e))
  {
    if e.CaptureClicked? {
      SequenceKeepsGrabs(s, e.frames);
      SequenceOutcome(s, e.frames);
    }
  }

  /** A run of actions each of which the screen offered when it happened. */
  predicate Admissible(s: State, events: seq<Event>)
    decreases |events|
  {
    |events| == 0 || (Enabled(s, events[0]) && Admissible(Apply(s, events[0]), events[1..]))
  }

  function Run(s: State, events: seq<Event>): State
    requires Admissible(s, events)
    decreases |events|
  {
    if |events| == 0 then s else Run(Apply(s, events[0]), events[1..])
  }

  lemma {:induction false} RunKeepsConsistent(s: State, events: seq<Event>)
    requires Consistent(s) && Admissible(s, events)
    ensures Consistent(Run(s, events))
    decreases |events|
  {
    if |events| > 0 {
      ApplyKeepsConsistent(s, events[0]);
      RunKeepsConsistent(Apply(s, events[0]), events[1..]);
    }
  }

  lemma KeptSkipsFailedGrab()
    ensures Kept([Some("a"), None, Some("b")]) == ["a", "b"]
  {
    var frames: seq<Option<Photo>> := [Some("a"), None, Some("b")];
    KeptStep(frames, 0);
    KeptStep(frames, 1);
    KeptStep(frames, 2);
    assert frames[..0] == [] && frames[..3] == frames;
  }

  /** A user starts the camera, shoots three frames of which the second grab
      fails, then retakes without a camera: two photos were kept, the handler
      stopped the stream once, and the booth is back on the intro screen. */
  lemma ThreeShotScenario()
    ensures var cam := MediaStream(1);
      var shoot := [StartCameraClicked(Some(cam)), CaptureClicked([Some("a"), None, Some("b")])];
      && Admissible(Initial(), shoot)
      && Run(Initial(), shoot).photos == ["a", "b"]
      && Run(Initial(), shoot).positions == [Origin, Origin]
      && Run(Initial(), shoot).step == Preview
      && Run(Initial(), shoot).stopped == [cam]
      && Admissible(Initial(), shoot + [RetakeClicked(None)])
      && Run(Initial(), shoot + [RetakeClicked(None)]).step == Intro
      && Run(Initial(), shoot + [RetakeClicked(None)]).photos == []
  {
    var cam := MediaStream(1);
    var frames: seq<Option<Photo>> := [Some("a"), None, Some("b")];
    var shoot := [StartCameraClicked(Some(cam)), CaptureClicked(frames)];
    var armed := AfterStartCamera(Initial(), Some(cam));
    SequenceKeepsGrabs(armed, frames);
    SequenceOutcome(armed, frames);
    KeptSkipsFailedGrab();
    assert shoot[1..][1..] == [];
    assert Run(Initial(), shoot) == Run(armed, shoot[1..]) == AfterSequence(armed, frames);
    var all := shoot + [RetakeClicked(None)];
    var after := AfterSequence(armed, frames);
    assert all[1..][1..] == [RetakeClicked(None)] && all[1..][0] == shoot[1];
    assert Admissible(after, [RetakeClicked(None)]);
    assert Admissible(armed, all[1..]);
    assert Run(Initial(), all) == Run(armed, all[1..]) == Run(after, [RetakeClicked(None)]);
  }
}
