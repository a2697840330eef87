# Voice-command photo capture: a Dafny model

This project models the decision logic of an Android proof of concept that
takes photos on spoken commands. Two Java classes make up the core:

- `SpeechRecognitionService` runs a speech recognizer in a loop that only
  `onDestroy` is meant to end. It stalls if `startListening` throws (see
  below). Each of `onEndOfSpeech`, `onError` and `onResults` posts a delayed
  restart to a handler. A restart destroys the old recognizer and creates a
  fresh one.
  The first recognition candidate is lowercased and matched against a fixed,
  ordered vocabulary. A hit is broadcast to the activity.
- `MainActivity` receives the broadcast and picks one of three paths:
  - zoom to 0.5, then take a photo 500 ms later and reset the zoom after it
    if the save succeeds;
  - take a plain photo;
  - publish "Unrecognized command".

  Capture is refused when the camera is not ready. The photo is named from a
  timestamp and, when a fix is known, the coordinates. When the photo is
  saved, and only when a fix is known, an EXIF geotag in
  degrees/minutes/seconds is written and the coordinates are drawn onto it.

Modules:

- `Wrappers` (`wrappers.dfy`): `Option`, for Java's nullable references.
- `Strings` (`strings.dfy`): models of `String.contains`, `toLowerCase` and
  the decimal text of an `int`, plus a digit reader that reads that text back.
- `Speech` (`speech.dfy`): the vocabulary, the matcher (a recursive
  specification `FirstMatch` and the loop `MatchCommand` proved equal to
  it), the error-delay table, `processResults`, and the class
  `SpeechRecognitionService`. Its fields are:
  - `isDestroyed`;
  - the recognizer handle, plus the set of live handles;
  - whether the wake lock is held;
  - the pending restart delays, in posting order;
  - the broadcasts sent.
- `Exif` (`exif.dfy`): `convertToDMS` over exact reals, the text
  "d/1,m/1,s/1", a reader for that text, and the four GPS attributes.
- `Activity` (`activity.dfy`): the dispatch decision, the file name and its
  decomposition, the enrichment on save, and the class `MainActivity`. Its
  fields are:
  - whether `imageCapture` and `camera` are set;
  - `lastKnownLocation`;
  - the published statuses;
  - the zoom directives sent to the camera;
  - the pending delayed captures;
  - the outstanding capture requests;
  - the saved photos.

The handler is modelled as a list of pending entries. `RunPending` and
`RunDelayedShot` fire one of them; which one is the caller's choice, since no
time is modelled. Foreign outcomes are parameters of the methods (the
recognizer or camera throwing, EXIF or overlay I/O failing, the permission,
the location result and the clock's timestamp).

The model keeps the source's quirks as they are:

- `"take photo"` is in the vocabulary, but the dispatcher rejects it as
  unrecognized (`RoutesOfVocabulary`, `HeardPhraseOutcome`).
- `"zoom in"` can never be returned, because `"zoom"` comes first
  (`ZoomInNeverMatched`).
- The zoom is reset only after a successful save
  (`ZoomKeptAfterFailedCapture`).
- Nothing stops a second capture while one is outstanding
  (`TwoCapturesOutstanding`).
- `onEndOfSpeech` and `onResults` each post a restart, so one utterance
  usually leads to two restarts.
- If `startListening` throws, its own catch only logs. Nothing is posted, so
  the loop stalls (`InitFault.ListenFails`). The class keeps no "listening"
  flag: after `ListenFails` its state is the same as after a successful
  cycle. The stall is the Android recognizer never calling back. The model
  captures it only in that no callback method is then invoked.
- A successful overlay throws the geotag away. `overlayCoordinatesOnImage`
  decodes the saved file to a bitmap and writes it back with
  `bitmap.compress`, which writes pixels only. The EXIF attributes saved just
  before are lost. `Photo.geoTag` records the attributes set, and
  `StoredGeoTag` gives what is left in the file
  (`GeoTagSurvivesOnlyFailedOverlay`).
- The file name uses the location known when `takePhoto` runs. The geotag and
  the overlay use the location known when the save callback runs.

The code has no busy guard on capture, no zoom reset after a failed capture,
and no fallback that waits for a fresh location fix when none is known. The
model has none of these either.

## Model

| member | source | states |
|---|---|---|
| `Speech.FirstMatch` | app/src/main/java/com/rdxindia/poc_application/SpeechRecognitionService.java:143-150 | None exactly when no vocabulary entry is a substring of the input; otherwise the result is the entry at the first index whose entry is contained and before which none is |
| `Speech.MatchCommand` | app/src/main/java/com/rdxindia/poc_application/SpeechRecognitionService.java:143-150 | the early-return loop over `COMMANDS` returns exactly the ordered first hit |
| `Speech.MatchedCommandOccurs` | app/src/main/java/com/rdxindia/poc_application/SpeechRecognitionService.java:143-150 | a returned command is a member of `COMMANDS` and a substring of the input |
| `Speech.ZoomInNeverMatched` | app/src/main/java/com/rdxindia/poc_application/SpeechRecognitionService.java:34-39 | "zoom in" is never returned, and an input containing "zoom in" always yields some command |
| `Speech.ZoomInYieldsZoom` | app/src/main/java/com/rdxindia/poc_application/SpeechRecognitionService.java:34-39 | an input with "zoom in" and neither photo phrase yields "zoom" |
| `Speech.TakePhotoMatchedOnlyWithoutTakeAPhoto` | app/src/main/java/com/rdxindia/poc_application/SpeechRecognitionService.java:34-39 | "take photo" is returned if and only if the input contains "take photo" but not "take a photo" |
| `Speech.ErrorDelay` | app/src/main/java/com/rdxindia/poc_application/SpeechRecognitionService.java:159-170 | no-match gives 300 ms and only no-match does; speech timeout gives 500 ms and only it does; every other code gives 1000 ms; every error delay lies in 300..1000 |
| `Speech.RestartDelaysBounded` | app/src/main/java/com/rdxindia/poc_application/SpeechRecognitionService.java:72-174 | every delay the service posts (100, 300, 500, 1000, 2000) is strictly positive and at most 2000 ms |
| `Speech.SpeechRecognitionService.PendingDelaysPositive` | app/src/main/java/com/rdxindia/poc_application/SpeechRecognitionService.java:172-174 | in every valid state each restart waiting in the handler has a delay greater than 0 and at most 2000 ms |
| `Strings.ToLowerCase` | app/src/main/java/com/rdxindia/poc_application/SpeechRecognitionService.java:134 | same length; each upper-case ASCII letter becomes the letter 32 code points above it, its lower-case form; every other character is kept; no upper-case ASCII letter is left |
| `Strings.Contains` | app/src/main/java/com/rdxindia/poc_application/SpeechRecognitionService.java:145 | `String.contains`: some index where the substring starts; implies it is no longer than the string, holds for every prefix, and the empty string is in every string |
| `Speech.ProcessResults` | app/src/main/java/com/rdxindia/poc_application/SpeechRecognitionService.java:131-141 | a command is sent if and only if the list is non-null, non-empty and its lowercased first candidate contains a vocabulary entry; what is sent is the first hit for that candidate alone |
| `Speech.SpeechRecognitionService.constructor` | app/src/main/java/com/rdxindia/poc_application/SpeechRecognitionService.java:41-57 | `onCreate`: wake lock held, not destroyed, first listening cycle run (recognizer 0 live unless creation failed; 2000 ms retry posted when creation or setup failed) |
| `Speech.SpeechRecognitionService.AtMostOneLive` | app/src/main/java/com/rdxindia/poc_application/SpeechRecognitionService.java:59-74 | in every valid state at most one recognizer is live |
| `Speech.SpeechRecognitionService.StartListeningCycle` | app/src/main/java/com/rdxindia/poc_application/SpeechRecognitionService.java:59-74 | no change at all once destroyed; otherwise the old recognizer is destroyed first and a fresh one becomes the only live recognizer (unless creation threw), and exactly one 2000 ms retry is posted when creation or listener setup threw |
| `Speech.SpeechRecognitionService.RestartListening` | app/src/main/java/com/rdxindia/poc_application/SpeechRecognitionService.java:172-174 | appends exactly one pending restart with the given delay |
| `Speech.SpeechRecognitionService.RunPending` | app/src/main/java/com/rdxindia/poc_application/SpeechRecognitionService.java:173 | the fired post leaves the queue and a listening cycle runs; once destroyed the cycle creates no recognizer and changes nothing else |
| `Speech.SpeechRecognitionService.OnEndOfSpeech` | app/src/main/java/com/rdxindia/poc_application/SpeechRecognitionService.java:92-95 | exactly one 100 ms restart is appended; nothing else changes |
| `Speech.SpeechRecognitionService.OnError` | app/src/main/java/com/rdxindia/poc_application/SpeechRecognitionService.java:97-100 | exactly one restart with the `handleError` delay is appended; nothing else changes |
| `Speech.SpeechRecognitionService.OnResults` | app/src/main/java/com/rdxindia/poc_application/SpeechRecognitionService.java:102-106 | the first hit for the first candidate, if any, is broadcast, and exactly one 100 ms restart is appended |
| `Speech.SpeechRecognitionService.OnDestroy` | app/src/main/java/com/rdxindia/poc_application/SpeechRecognitionService.java:199-210 | destroyed, no live recognizer, wake lock released, every pending restart removed; the recognizer field itself keeps its old value |
| `Speech.RepeatedTimeouts` | app/src/main/java/com/rdxindia/poc_application/SpeechRecognitionService.java:159-174 | when every restart creates its recognizer, n consecutive speech timeouts, each followed by its restart, create exactly n fresh recognizers; from the first restart on only the newest is live, and nothing is left pending |
| `Exif.ConvertToDms` | app/src/main/java/com/rdxindia/poc_application/MainActivity.java:295-301 | degrees = floor of the magnitude, minutes and seconds below 60, and d + m/60 + s/3600 <= abs(c) < d + m/60 + (s+1)/3600 |
| `Strings.NatToString` | app/src/main/java/com/rdxindia/poc_application/MainActivity.java:300 | the decimal text of an `int` is non-empty, all digits, and has no leading zero unless the number is 0 |
| `Strings.DigitsValueOfNatToString` | app/src/main/java/com/rdxindia/poc_application/MainActivity.java:300 | the decimal text of n denotes n, so no two numbers share a text |
| `Exif.RationalText` | app/src/main/java/com/rdxindia/poc_application/MainActivity.java:300 | one "n/1" rational: ends in "/1", and reading its leading number gives back n followed by exactly "/1" |
| `Exif.DmsText` | app/src/main/java/com/rdxindia/poc_application/MainActivity.java:300 | the string `convertToDMS` returns, "d/1,m/1,s/1", reads back as exactly the three fields it was written from |
| `Exif.GeoTagOf` | app/src/main/java/com/rdxindia/poc_application/MainActivity.java:285-293 | latitude ref "N" if and only if lat >= 0, else "S"; longitude ref "E" if and only if lon >= 0, else "W" |
| `Exif.DecodeWithinOneSecond` | app/src/main/java/com/rdxindia/poc_application/MainActivity.java:295-301 | the DMS text with its hemisphere decodes to a value within 1/3600 degree of the coordinate; a negative decoded value means a negative coordinate, and a negative coordinate decodes to a value at most 0 |
| `Exif.GeoTagRecoversCoordinates` | app/src/main/java/com/rdxindia/poc_application/MainActivity.java:285-301 | the written geotag gives back both coordinates to within one arcsecond, with the sign agreeing in both directions as for `DecodeWithinOneSecond` |
| `Activity.RouteOf` | app/src/main/java/com/rdxindia/poc_application/MainActivity.java:177-198 | zoom path if and only if the command contains "zoom", even with "take a photo"; plain capture if and only if it contains "take a photo" and not "zoom"; unrecognized otherwise |
| `Activity.RoutesOfVocabulary` | app/src/main/java/com/rdxindia/poc_application/MainActivity.java:179-180 | "take a photo" goes to plain capture, "zoom" and "zoom in" to the zoom path, and "take photo" is unrecognized |
| `Activity.HeardPhraseOutcome` | app/src/main/java/com/rdxindia/poc_application/MainActivity.java:177-198 | for the matcher's command of a heard phrase: a photo is taken if and only if the phrase has "take a photo", or has "zoom" without "take photo"; zoom path if and only if "zoom" without either photo phrase; rejected if and only if "take photo" without "take a photo" |
| `Activity.LocationSuffix` | app/src/main/java/com/rdxindia/poc_application/MainActivity.java:227-233 | the suffix is empty if and only if no location is known |
| `Activity.FileName` | app/src/main/java/com/rdxindia/poc_application/MainActivity.java:240-241 | starts with "IMG_", ends with ".jpg", and is 8 characters longer than timestamp plus suffix |
| `Activity.FileNameRoundTrip` | app/src/main/java/com/rdxindia/poc_application/MainActivity.java:223-241 | a name built from a 15-character timestamp splits back into that timestamp and the location suffix, and the suffix is empty if and only if there was no fix |
| `Activity.Enrich` | app/src/main/java/com/rdxindia/poc_application/MainActivity.java:249-263 | geotag written if and only if a fix is known and EXIF I/O succeeds, and then it is `setExifLocation` of that fix; overlay drawn if and only if, in addition, the overlay succeeds, and it shows that fix |
| `Activity.StoredGeoTag` | app/src/main/java/com/rdxindia/poc_application/MainActivity.java:316-334 | the geotag left in the file after `onImageSaved`: none once an overlay was drawn, because the file is decoded to a bitmap and rewritten with `bitmap.compress`, taken here to write pixels only; and the file never holds a tag other than the one that was written |
| `Activity.GeoTagSurvivesOnlyFailedOverlay` | app/src/main/java/com/rdxindia/poc_application/MainActivity.java:252-259 | the geotag is still in the file after `onImageSaved` if and only if a fix was known, the EXIF write succeeded and the overlay failed, because a drawn overlay re-encodes the file |
| `Activity.MainActivity.OverlaidPhotosLoseGeoTag` | app/src/main/java/com/rdxindia/poc_application/MainActivity.java:303-339 | every saved photo with the overlay had its geotag set, and none of them keeps it in the file |
| `Activity.MainActivity.constructor` | app/src/main/java/com/rdxindia/poc_application/MainActivity.java:55-62 | no camera, no image capture, no location, nothing published or outstanding |
| `Activity.MainActivity.OnCameraInitialized` | app/src/main/java/com/rdxindia/poc_application/MainActivity.java:151-174 | `imageCapture` becomes set unless the provider failed; `camera` only when binding succeeded |
| `Activity.MainActivity.FetchLocation` | app/src/main/java/com/rdxindia/poc_application/MainActivity.java:96-106 | the known location is replaced only by a non-null fix with permission granted, and is unchanged otherwise |
| `Activity.MainActivity.SetZoom` | app/src/main/java/com/rdxindia/poc_application/MainActivity.java:200-214 | without a camera: "Camera not ready for zoom" and no zoom directive; otherwise the level is sent unless the control throws ("Zoom failed") |
| `Activity.MainActivity.TakePhoto` | app/src/main/java/com/rdxindia/poc_application/MainActivity.java:216-282 | without an image capture: "Camera not ready" and no capture; otherwise exactly one request named `FileName(timestamp, lastKnownLocation)` is added, whatever is already outstanding, and "Capturing..." is published |
| `Activity.MainActivity.OnVoiceCommand` | app/src/main/java/com/rdxindia/poc_application/MainActivity.java:177-198 | zoom path: zoom 0.5, "Zooming and capturing...", one 500 ms delayed `takePhoto(true)`, no capture yet; plain path: `takePhoto(false)` and no zoom; otherwise only "Unrecognized command: " with the command |
| `Activity.MainActivity.OnReceive` | app/src/main/java/com/rdxindia/poc_application/MainActivity.java:65-76 | dispatches if and only if the action is "VOICE_COMMAND" and the command extra is non-null; otherwise nothing changes |
| `Activity.MainActivity.RunDelayedShot` | app/src/main/java/com/rdxindia/poc_application/MainActivity.java:187-190 | the fired post is a 500 ms one; it leaves the queue and runs `takePhoto(true)` |
| `Activity.MainActivity.OnImageSaved` | app/src/main/java/com/rdxindia/poc_application/MainActivity.java:249-272 | the request completes; the photo is enriched from the location known now; "Photo saved!" is published; zoom is reset to 0.0 only if the request asked for it |
| `Activity.MainActivity.OnCaptureError` | app/src/main/java/com/rdxindia/poc_application/MainActivity.java:274-278 | the request completes with "Error taking photo" only; no zoom directive, no photo |
| `Activity.TwoCapturesOutstanding` | app/src/main/java/com/rdxindia/poc_application/MainActivity.java:216-246 | two "take a photo" commands leave two capture requests outstanding: there is no busy guard |
| `Activity.ZoomKeptAfterFailedCapture` | app/src/main/java/com/rdxindia/poc_application/MainActivity.java:270-278 | a zoom command whose capture fails sends the 0.5 directive and never a reset |

## Left out

- `Strings.ToLowerCase`: only ASCII letters are lowercased. Java's
  locale-dependent Unicode case mapping is not modelled.
- `Exif.ConvertToDms`: the arithmetic is exact reals. The model leaves out
  IEEE-754 rounding in `(coordinate - degrees) * 60`, and the saturation of
  the `(int)` cast above 2^31, which no real coordinate reaches.
- The "%.5f" coordinate text and the "yyyyMMdd_HHmmss" timestamp are inputs.
  A `Fix` carries its formatted texts, and `TakePhoto` takes the timestamp as
  a parameter. The float text inside "Zoom set to …%" is kept as the level in
  `Status.ZoomSet`.
- Handler timing and threading: pending posts are lists, and firing order is
  the caller's choice. `runOnUiThread` and the camera executor thread are
  not modelled.
- CameraX: camera setup and binding are reduced to which fields become set
  (`OnCameraInitialized`). `takePicture` becomes an outstanding request
  whose save or error callback is a method. `setLinearZoom` becomes a
  recorded directive.
- Bitmap decoding, Canvas drawing, JPEG re-encoding and `ExifInterface` file
  I/O: the model records which attributes are set, whether an overlay is
  drawn, and the effect of an I/O exception. It does not model the pixels or
  the overlay's date text. Android's `Bitmap.compress` is taken to write
  pixels only, with no EXIF attributes.
- The recognizer's `destroy()` is taken never to throw. `onReadyForSpeech`,
  `onBeginningOfSpeech`, `onRmsChanged`, `onBufferReceived`,
  `onPartialResults` and `onEvent` only log or do nothing, and are not
  modelled.
- A `null` element inside the results list is not modelled: the list is a
  sequence of strings.
- The recognizer intent's extras, creating the pictures directory, Toasts,
  permission requests, receiver registration in `onResume`/`onPause`, the
  notification channel and foreground service, and the wake lock's
  10-minute timeout are platform plumbing with no decision logic.
- `PreviewActivity.java`, `ListeningService.java` and `CameraService.java`
  hold only UI and notification plumbing, and are not part of this model.
