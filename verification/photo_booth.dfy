/** The `PhotoBooth` component's capture session as an object whose handlers
    update its state fields step by step. Each await of the component is one
    step in sequence; the frame grabs and the browser's answer to a camera
    request are inputs. */
module PhotoBooth {
  import opened Session

  class PhotoBoothSession {
    var step: Step
    var photos: seq<Photo>
    var positions: seq<Position>
    var isCapturing: bool
    var countdown: Option<nat>
    var stream: Option<MediaStream>
    /** Every value the countdown overlay was set to, in order. */
    ghost var shown: seq<Option<nat>>
    /** Every stream whose tracks were stopped, in order. */
    ghost var stopped: seq<MediaStream>

    ghost function Current(): State
      reads this
    {
      State(step, photos, positions, isCapturing, countdown, stream, shown, stopped)
    }

    ghost predicate Valid()
      reads this
    {
      Consistent(Current())
    }

    constructor ()
      ensures Current() == Initial() && Valid()
    {
      step := Intro;
      photos := [];
      positions := [];
      isCapturing := false;
      countdown := None;
      stream := None;
      shown := [];
      stopped := [];
    }

    /** `grant` is the stream `getUserMedia` resolves to, or None when it rejects. */
    method StartCamera(grant: Option<MediaStream>)
      modifies this
      ensures Current() == AfterStartCamera(old(Current()), grant)
      ensures grant.Some? ==> stream == grant && step == Capture
      ensures grant.None? ==> step == old(step) && stream == old(stream)
      ensures photos == old(photos) && positions == old(positions) && isCapturing == old(isCapturing)
      ensures old(Valid()) && old(step) == Intro ==> Valid()
    {
      ghost var before := Current();
      if grant.Some? {
        stream := grant;
        step := Capture;
      }
      if Consistent(before) && before.step == Intro {
        ApplyKeepsConsistent(before, StartCameraClicked(grant));
      }
    }

    /** `captureOne`: count down from three, grab `photo`, pause, clear the overlay. */
    method CaptureOne(photo: Option<Photo>)
      requires isCapturing
      modifies this
      ensures Current() == Shot(old(Current()), photo)
      ensures Truthy(photo) ==> photos == old(photos) + [photo.value] && positions == old(positions) + [Origin]
      ensures !Truthy(photo) ==> photos == old(photos) && positions == old(positions)
      ensures isCapturing
    {
      var i := CountdownFrom;
      while i > 0
        invariant 0 <= i <= CountdownFrom
        invariant shown == old(shown) + Countdown(CountdownFrom)[..CountdownFrom - i]
        invariant step == old(step) && photos == old(photos) && positions == old(positions)
        invariant isCapturing == old(isCapturing) && stream == old(stream) && stopped == old(stopped)
      {
        countdown := Some(i);
        shown := shown + [countdown];
        // await one second
        i := i - 1;
      }
      countdown := Some(0);
      shown := shown + [countdown];
      if Truthy(photo) {
        photos := photos + [photo.value];
        positions := positions + [Origin];
      }
      // await half a second
      countdown := None;
      shown := shown + [countdown];
    }

    /** `startCaptureSequence`, with `frames[k]` the result of the k-th frame grab. */
    method StartCaptureSequence(frames: seq<Option<Photo>>)
      requires |frames| == ShotCount
      modifies this
      ensures Current() == AfterSequence(old(Current()), frames)
      ensures old(isCapturing) ==> unchanged(this)
      ensures !old(isCapturing) ==>
        && photos == Kept(frames) && positions == Origins(|photos|)
        && |photos| <= ShotCount
        && !isCapturing && step == Preview && countdown == None && stream == None
        && stopped == old(stopped) + (if old(stream).Some? then [old(stream).value] else [])
        && shown == old(shown) + ShotTrace() + ShotTrace() + ShotTrace()
      ensures old(Valid()) && old(step) == Capture ==> Valid()
    {
      ghost var before := Current();
      if isCapturing {
        return;
      }
      isCapturing := true;
      photos := [];
      positions := [];
      ghost var armed := Current();
      CaptureOne(frames[0]);
      ghost var first := Current();
      CaptureOne(frames[1]);
      ghost var second := Current();
      CaptureOne(frames[2]);
      assert first == Shot(armed, frames[0]) && second == Shot(first, frames[1]);
      assert Current() == Shot(Shot(Shot(armed, frames[0]), frames[1]), frames[2]);
      isCapturing := false;
      step := Preview;
      if stream.Some? {
        stopped := stopped + [stream.value];
        stream := None;
      }
      assert Current() == AfterSequence(before, frames);
      SequenceKeepsGrabs(before, frames);
      SequenceOutcome(before, frames);
      if Consistent(before) && before.step == Capture {
        ApplyKeepsConsistent(before, CaptureClicked(frames));
      }
    }

    /** `reset` (retake): clear the photos, go back to the intro screen and
        ask for the camera again, `grant` being the browser's answer. */
    method Reset(grant: Option<MediaStream>)
      modifies this
      ensures Current() == AfterReset(old(Current()), grant)
      ensures photos == [] && positions == []
      ensures step == (if grant.Some? then Capture else Intro)
      ensures stream == (if grant.Some? then grant else old(stream))
      ensures old(Valid()) && old(step) == Preview ==> Valid()
    {
      ghost var before := Current();
      photos := [];
      positions := [];
      step := Intro;
      StartCamera(grant);
      if Consistent(before) && before.step == Preview {
        ApplyKeepsConsistent(before, RetakeClicked(grant));
      }
    }

    /** `handlePhotoPositionChange`: move photo `i` to `p`. */
    method SetPosition(i: nat, p: Position)
      requires i < |positions|
      modifies this
      ensures Current() == AfterSetPosition(old(Current()), i, p)
      ensures |positions| == |old(positions)| && positions[i] == p
      ensures forall k :: 0 <= k < |positions| && k != i ==> positions[k] == old(positions)[k]
      ensures photos == old(photos) && step == old(step)
      ensures old(Valid()) ==> Valid()
    {
      positions := positions[i := p];
    }
  }
}
