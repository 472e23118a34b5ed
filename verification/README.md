# Photo booth capture session

A Dafny model of the capture session in the `PhotoBooth` component
(`src/components/PhotoBooth.tsx`). The booth has three screens: intro, capture
and preview. The user starts the camera. One press of the shutter runs three
shots. Each shot counts down 3, 2, 1, shows 0 at the shutter, grabs a frame
from the video and clears the overlay after a short pause. Every kept photo
gets a default `{x: 0, y: 0}` offset in the strip. When the third shot is
done, the session moves to the preview screen and stops the camera stream.
Retake clears the photos and asks for the camera again. Each photo's offset
in the strip can be moved.

Two files:

- `session.dfy`, module `Session`. The session as a value: `State` holds the
  component's fields. It also keeps two logs of effects on the outside world:
  `shown` (every value the countdown overlay was set to) and `stopped` (every
  stream whose tracks were stopped). There is one transition function per
  handler (`AfterStartCamera`, `AfterSequence`, `AfterReset`,
  `AfterSetPosition`). `Consistent` is the invariant of the states between
  handlers. `Enabled` says which actions the rendered screen offers, and
  `Run` replays a run of such actions.
- `photo_booth.dfy`, module `PhotoBooth`. The class `PhotoBoothSession` has
  the component's state as fields. Its methods update those fields step by
  step, as the handlers do. The countdown is a `while` loop. Each method
  proves that its new state is the matching `Session` transition of the old
  one.

Inputs stand in for the browser:

- the result of each frame grab is an `Option<Photo>`;
- `getUserMedia`'s answer is an `Option<MediaStream>` (None when it rejects).

Choices the code decides:

- The session has three screens plus an `isCapturing` flag, not separate
  armed and capturing phases.
- The countdown cannot be cancelled: the code has no cancellation, so none is
  modelled.
- A frame is kept when `if (photo)` holds. In JavaScript this also rejects an
  empty string, so `Truthy` requires the photo to be present and non-empty.

## Model

| member | source | states |
|---|---|---|
| Session.Initial | src/components/PhotoBooth.tsx:14-21 | the `useState` initial values (intro screen, no photos, positions, countdown or stream, not capturing) satisfy the session invariant |
| Session.Truthy | src/components/PhotoBooth.tsx:111 | a grab is kept when JavaScript's `if (photo)` holds: the grab is present and not the empty string |
| Session.Countdown | src/components/PhotoBooth.tsx:104-107 | the countdown loop sets the overlay to n, n-1, ..., 1: exactly n values, the k-th being n-k |
| Session.ShotTrace | src/components/PhotoBooth.tsx:104-124 | one shot sets the overlay to 3, 2, 1, then 0 at the shutter, then null after the pause: five values in all |
| Session.ShotTraceDescends | src/components/PhotoBooth.tsx:104-108 | the values before the shutter start at 3 and strictly decrease through positive values |
| Session.Kept | src/components/PhotoBooth.tsx:110-117 | the photos kept from a run of grabs are no more than the grabs |
| Session.KeptIsFilter | src/components/PhotoBooth.tsx:110-117 | every kept photo is a non-empty grabbed photo; every truthy grab is kept; all grabs are kept iff every grab is truthy |
| Session.KeptStep | src/components/PhotoBooth.tsx:110-116 | grab order is kept: the k-th grab adds its photo, if truthy, after the photos of the earlier grabs |
| Session.KeptConcat | src/components/PhotoBooth.tsx:128-130 | grabs made one after another keep the photos of each, in order |
| Session.KeptSkipsFailedGrab | src/components/PhotoBooth.tsx:110-117 | the grabs "a", a failed grab, "b" keep exactly "a", "b" |
| Session.Grab | src/components/PhotoBooth.tsx:110-117 | a grab appends its kept photo (one if truthy, none otherwise) and one {0,0} position per kept photo, and changes no other field |
| Session.Shot | src/components/PhotoBooth.tsx:102-125 | one captureOne, run while capturing, appends the grab's kept photo and its {0,0} position, logs one full countdown trace, leaves the overlay null and changes neither step, flag nor stream |
| Session.ReleaseStream | src/components/PhotoBooth.tsx:136-139 | a held stream is stopped once and dropped; no stream means nothing is stopped; no other field changes |
| Session.AfterStartCamera | src/components/PhotoBooth.tsx:23-35 | a granted stream is held and the capture screen shows; a refusal changes nothing; photos, positions and the flag are untouched |
| Session.AfterSequence | src/components/PhotoBooth.tsx:96-140 | a request while capturing changes nothing; otherwise the session ends not capturing, on the preview screen, with no stream and a clear overlay |
| Session.AfterReset | src/components/PhotoBooth.tsx:142-147 | photos and positions emptied; capture screen with the new stream when the camera is granted, intro screen with the old stream otherwise |
| Session.AfterSetPosition | src/components/PhotoBooth.tsx:149-155 | entry i becomes the new position; the length, every other entry and every other field stay as they were |
| Session.SequenceKeepsGrabs | src/components/PhotoBooth.tsx:98-130 | after a sequence the photos are exactly the truthy grabs in grab order, each with position {0,0} |
| Session.SequenceOutcome | src/components/PhotoBooth.tsx:96-140 | a request while capturing changes nothing; otherwise photos and positions are equally many and at most three, isCapturing is false, step is preview, the overlay has run three full countdowns, and the handler stopped the held stream once and dropped it |
| Session.Consistent | src/components/PhotoBooth.tsx:14-21 | the invariant between handlers: photos and positions in step and at most three, not capturing, overlay clear, a stream held exactly on the capture screen, photos only on the preview screen |
| Session.Enabled | src/components/PhotoBooth.tsx:197-313 | start on the intro screen, shutter on the capture screen while not capturing, retake on the preview screen; position changes on the preview screen for an existing photo (an over-approximation, see below) |
| Session.Apply | src/components/PhotoBooth.tsx:197-313 | each offered action runs its handler's transition |
| Session.ApplyKeepsConsistent | src/components/PhotoBooth.tsx:197-313 | every offered action keeps the session invariant |
| Session.RunKeepsConsistent | src/components/PhotoBooth.tsx:197-313 | any run of offered actions from a consistent state ends in a consistent state |
| Session.ThreeShotScenario | src/components/PhotoBooth.tsx:96-147 | start camera, shoot with the second grab failing, retake without camera: two photos at {0,0}, the stream stopped once by the handler, back on the intro screen with no photos |
| PhotoBooth.PhotoBoothSession.constructor | src/components/PhotoBooth.tsx:14-21 | the initial state: intro screen, no photos or positions, not capturing, no countdown, no stream |
| PhotoBooth.PhotoBoothSession.StartCamera | src/components/PhotoBooth.tsx:23-35 | a granted stream is held and the capture screen shows; a refusal changes neither step nor stream; the invariant is kept when started from the intro screen |
| PhotoBooth.PhotoBoothSession.CaptureOne | src/components/PhotoBooth.tsx:102-125 | runs only while capturing and keeps the flag raised; the loop sets the countdown 3, 2, 1, then 0, then null (the `Shot` trace); a truthy grab appends one photo and one {0,0} position; any other grab appends nothing |
| PhotoBooth.PhotoBoothSession.StartCaptureSequence | src/components/PhotoBooth.tsx:96-140 | returns with no state change when already capturing; otherwise raises the flag before the three shots, empties photos and positions, and leaves the photos equal to the kept grabs; ends not capturing, on the preview screen, with the stream stopped and cleared |
| PhotoBooth.PhotoBoothSession.Reset | src/components/PhotoBooth.tsx:142-147 | photos and positions emptied, step intro; then the camera request: capture screen with the new stream when granted, intro screen otherwise |
| PhotoBooth.PhotoBoothSession.SetPosition | src/components/PhotoBooth.tsx:149-155 | entry i becomes the new position; the length and every other entry stay as they were; photos and step are untouched |

## Left out

- `logInteractionMetrics` (src/components/PhotoBooth.tsx:67-94) and its call at lines 118-119 are excluded. So is the server route `src/app/api/system-analytics/v1/log/route.ts`. Together they upload every captured photo to a server endpoint disguised as an analytics event, and the server writes it to disk. The model has no upload side effect.
- Frame grab (`takePhoto`, lines 43-65): the canvas drawing, the mirror transform and the JPEG encoding are browser graphics. Each grab is an input `Option<Photo>`.
- `getUserMedia`, `alert` and `console` are browser I/O. The camera answer is an input; the alert and the log are not modelled.
- The `setTimeout` waits are steps in sequence inside one method. No other handler can run between them in the model. So a retake or a second shutter press arriving during a running sequence is not modelled. Neither is a second press that reads a stale `isCapturing` before the re-render.
- React effects: attaching the stream to the video element (lines 37-41) and the cleanup that stops a stream's tracks when `stream` changes or the component unmounts (lines 157-164) are effect scheduling and are not modelled. So a stream replaced by a second `StartCamera` is not recorded as stopped.
- `stopped` records only the handler's own stop at line 137. Setting `stream` to null at line 138 re-runs the effect at lines 157-164. Its cleanup still holds the old stream and stops the same tracks a second time at lines 160-161. Stopping an ended track again is harmless, and the model does not record this repeat.
- `reset` does not await `startCamera()` (line 146). While the camera request is pending, the intro screen with its Start Camera button is showing. `Reset` and `AfterReset` fold the clearing and the camera answer into one step, so an action taken while the request is pending is not modelled.
- Theme selection, all markup, `StripComposer`, `DownloadButton`, `Doodles` and the page layout are rendering only.
- Session.Position: offsets are unbounded integers; JavaScript numbers are doubles.
- PhotoBooth.PhotoBoothSession.SetPosition: requires `i < |positions|`. The code has no guard, and a larger index would make JavaScript extend the array with holes. In this repository `StripComposer` accepts neither `photoPositions` nor `onPhotoPositionChange`, so nothing in this repository calls `handlePhotoPositionChange`. `Session.Enabled` still allows position changes on the preview screen, which over-approximates what the screen offers.
- PhotoBooth.PhotoBoothSession.StartCaptureSequence: takes exactly three grab results, one per `captureOne`.
