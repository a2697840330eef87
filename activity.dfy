/**
  The camera activity: the broadcast receiver, the command dispatcher
  (zoom-then-capture, plain capture or "unrecognized"), the zoom and capture
  guards, the photo file name, the save/error callbacks with their
  location-gated enrichment, and the location update rule.
 */
module Activity {
  import opened Wrappers
  import opened Strings
  import Speech
  import Exif

  /** The broadcast action the receiver listens for. */
  const VoiceCommandAction: string := "VOICE_COMMAND"
  /** Linear zoom set before a zoom capture, and the level it is reset to. */
  const ZoomInLevel: real := 0.5
  const ZoomResetLevel: real := 0.0
  /** Milliseconds between setting the zoom and taking the zoomed photo. */
  const ZoomSettleDelay: nat := 500
  /** Length of a "yyyyMMdd_HHmmss" timestamp. */
  const TimestampLength: nat := 15

  /**
    A location fix. `latitudeText` and `longitudeText` are its coordinates
    as the "%.5f" format renders them; the rendering is taken as given.
   */
  datatype Fix = Fix(latitude: real, longitude: real, latitudeText: string, longitudeText: string)

  /** The status lines the activity publishes. */
  datatype Status =
    | CameraNotReadyForZoom            // "Camera not ready for zoom"
    | ZoomSet(level: real)             // "Zoom set to <level * 100>%"
    | ZoomFailed                       // "Zoom failed"
    | ZoomingAndCapturing              // "Zooming and capturing..."
    | UnrecognizedCommand(command: string)  // "Unrecognized command: " + command
    | CameraNotReady                   // "Camera not ready"
    | Capturing                        // "Capturing..."
    | PhotoSaved                       // "Photo saved!"
    | ErrorTakingPhoto                 // "Error taking photo"

  /** The three paths of `onVoiceCommand`. */
  datatype Route = ZoomThenCapture | PlainCapture | Unrecognized

  /** The dispatch decision of `onVoiceCommand`: "zoom" wins over "take a photo". */
  function RouteOf(command: string): (r: Route)
    ensures r == ZoomThenCapture <==> Contains(command, "zoom")
    ensures r == PlainCapture <==> Contains(command, "take a photo") && !Contains(command, "zoom")
    ensures r == Unrecognized <==> !Contains(command, "take a photo") && !Contains(command, "zoom")
  {
    var containsPhotoCommand := Contains(command, "take a photo") || Contains(command, "zoom");
    var zoomCommand := Contains(command, "zoom");
    if zoomCommand then ZoomThenCapture
    else if containsPhotoCommand then PlainCapture
    else Unrecognized
  }

  /** The substring facts about the vocabulary that the dispatch decisions rest on. */
  lemma VocabularyFacts()
    ensures Contains("take a photo", "take a photo") && Contains("zoom", "zoom") && Contains("zoom in", "zoom")
    ensures !Contains("take a photo", "zoom") && !Contains("take photo", "zoom")
    ensures !Contains("take photo", "take a photo") && !Contains("zoom", "take photo")
    ensures !Contains("take a photo", "take photo")
  {
    assert StartsWith("take a photo", "take a photo");
    assert StartsWith("zoom", "zoom");
    assert StartsWith("zoom in", "zoom");
    ContainsNeedsChar("take a photo", "zoom", 0);
    ContainsNeedsChar("take photo", "zoom", 0);
    ContainsOnlyShorter("take photo", "take a photo");
    ContainsOnlyShorter("zoom", "take photo");
    // at index 0 the sixth characters differ, at 1 and 2 the first ones do
    ContainsNoneFits("take a photo", "take photo", i => if i == 0 then 5 else 0);
  }

  /**
    How the dispatcher treats each word the matcher can emit: "take photo",
    although in the vocabulary, is rejected as unrecognized.
   */
  lemma RoutesOfVocabulary()
    ensures RouteOf("take a photo") == PlainCapture
    ensures RouteOf("take photo") == Unrecognized
    ensures RouteOf("zoom") == ZoomThenCapture
    ensures RouteOf("zoom in") == ZoomThenCapture
  {
    VocabularyFacts();
  }

  /**
    From a heard (lowercased) phrase to what the activity does with the
    command the service sends for it: a photo is taken exactly when the
    phrase has "take a photo", or has "zoom" but not "take photo".
   */
  lemma HeardPhraseOutcome(heard: string)
    ensures var m := Speech.FirstMatch(Speech.Commands, heard);
            ((m.Some? && RouteOf(m.value) != Unrecognized) <==>
               Contains(heard, "take a photo") || (Contains(heard, "zoom") && !Contains(heard, "take photo"))) &&
            ((m.Some? && RouteOf(m.value) == ZoomThenCapture) <==>
               !Contains(heard, "take a photo") && !Contains(heard, "take photo") && Contains(heard, "zoom")) &&
            ((m.Some? && RouteOf(m.value) == Unrecognized) <==>
               !Contains(heard, "take a photo") && Contains(heard, "take photo"))
  {
    RoutesOfVocabulary();
    Speech.ZoomInNeverMatched(heard);
    assert Speech.Commands[1..] == ["take photo", "zoom", "zoom in"];
    assert Speech.Commands[2..] == ["zoom", "zoom in"];
  }

  /** The "_<lat>_<lon>" part of the file name; empty without a fix. */
  function LocationSuffix(location: Option<Fix>): (s: string)
    ensures s == [] <==> location.None?
  {
    match location
    case None => ""
    case Some(fix) => "_" + fix.latitudeText + "_" + fix.longitudeText
  }

  /** The name `takePhoto` gives the photo file. */
  function FileName(timeStamp: string, location: Option<Fix>): (name: string)
    ensures StartsWith(name, "IMG_") && EndsWith(name, ".jpg")
    ensures |name| == 8 + |timeStamp| + |LocationSuffix(location)|
  {
    "IMG_" + timeStamp + LocationSuffix(location) + ".jpg"
  }

  /** Splits an "IMG_<timestamp><suffix>.jpg" name into its timestamp and its location suffix. */
  function NameParts(name: string): Option<(string, string)> {
    if |name| >= 8 + TimestampLength && StartsWith(name, "IMG_") && EndsWith(name, ".jpg") then
      Some((name[4..4 + TimestampLength], name[4 + TimestampLength..|name| - 4]))
    else None
  }

  /** A file name gives back its timestamp, and carries a location suffix exactly when a fix was known. */
  lemma FileNameRoundTrip(timeStamp: string, location: Option<Fix>)
    requires |timeStamp| == TimestampLength
    ensures NameParts(FileName(timeStamp, location)) == Some((timeStamp, LocationSuffix(location)))
    ensures NameParts(FileName(timeStamp, location)).value.1 == [] <==> location.None?
  {
    var name := FileName(timeStamp, location);
    assert name[4..4 + TimestampLength] == timeStamp;
    assert name[4 + TimestampLength..|name| - 4] == LocationSuffix(location);
  }

  /** One outstanding `takePicture` request. */
  datatype Shot = Shot(fileName: string, resetZoom: bool)

  /** A saved photo: the geotag written into it and the fix drawn onto it, if any. */
  datatype Photo = Photo(fileName: string, geoTag: Option<Exif.GeoTag>, overlay: Option<Fix>)

  /**
    `onImageSaved`'s enrichment with the location known at that moment.
    An I/O error writing the EXIF data skips the overlay too; an error
    inside the overlay is caught there and leaves the geotag in place.
   */
  function Enrich(fileName: string, location: Option<Fix>, exifFails: bool, overlayFails: bool): (p: Photo)
    ensures p.fileName == fileName
    ensures p.geoTag.Some? <==> location.Some? && !exifFails
    ensures p.overlay.Some? <==> location.Some? && !exifFails && !overlayFails
    ensures p.geoTag.Some? ==> p.geoTag.value == Exif.GeoTagOf(location.value.latitude, location.value.longitude)
    ensures p.overlay.Some? ==> p.overlay == location
  {
    match location
    case None => Photo(fileName, None, None)
    case Some(fix) =>
      if exifFails then Photo(fileName, None, None)
      else Photo(fileName, Some(Exif.GeoTagOf(fix.latitude, fix.longitude)), if overlayFails then None else Some(fix))
  }

  /**
    The geotag left in the file once `onImageSaved` is done. The overlay
    decodes the photo to a bitmap and re-encodes it as a new JPEG, which
    carries pixels only, so a drawn overlay discards the EXIF attributes
    written just before it.
   */
  function StoredGeoTag(p: Photo): (g: Option<Exif.GeoTag>)
    ensures p.overlay.Some? ==> g.None?
    ensures g.Some? ==> g == p.geoTag
  {
    if p.overlay.Some? then None else p.geoTag
  }

  /** A saved photo keeps its geotag exactly when a fix was known, the EXIF write succeeded and the overlay failed. */
  lemma GeoTagSurvivesOnlyFailedOverlay(fileName: string, location: Option<Fix>, exifFails: bool, overlayFails: bool)
    ensures StoredGeoTag(Enrich(fileName, location, exifFails, overlayFails)).Some? <==>
            location.Some? && !exifFails && overlayFails
  {
  }

  /** The status `setZoom` publishes. */
  function ZoomStatus(cameraReady: bool, controlFails: bool, level: real): Status {
    if !cameraReady then CameraNotReadyForZoom else if controlFails then ZoomFailed else ZoomSet(level)
  }

  /** The zoom directives `setZoom` hands to the camera control. */
  function ZoomApplied(cameraReady: bool, controlFails: bool, level: real): seq<real> {
    if cameraReady && !controlFails then [level] else []
  }

  /** The status `takePhoto` publishes. */
  function CaptureStatus(imageCaptureReady: bool): Status {
    if imageCaptureReady then Capturing else CameraNotReady
  }

  /** The requests `takePhoto` starts. */
  function CaptureStarted(imageCaptureReady: bool, shot: Shot): seq<Shot> {
    if imageCaptureReady then [shot] else []
  }

  /** How camera initialization ended. */
  datatype CameraSetup =
    | ProviderFails   // the camera provider future failed: nothing is set
    | BindFails       // `imageCapture` was built, then binding to the lifecycle threw
    | Bound           // `imageCapture` and `camera` are both set

  class MainActivity {
    var imageCaptureReady: bool        // `imageCapture != null`
    var cameraReady: bool              // `camera != null`
    var lastKnownLocation: Option<Fix>
    var status: seq<Status>            // every status line published, in order
    var zoomDirectives: seq<real>      // every `setLinearZoom` level handed to the camera control
    var delayedShots: seq<nat>         // pending delayed `takePhoto(true)` posts
    var inFlight: seq<Shot>            // `takePicture` requests not yet completed
    var photos: seq<Photo>             // photos reported saved, with their enrichment

    ghost predicate Valid()
      reads this
    {
      (forall k :: 0 <= k < |delayedShots| ==> delayedShots[k] == ZoomSettleDelay) &&
      (forall k :: 0 <= k < |photos| ==> photos[k].overlay.Some? ==> photos[k].geoTag.Some?)
    }

    /** Every photo that carries the overlay had its geotag set, and lost it to the re-encoding. */
    lemma OverlaidPhotosLoseGeoTag(k: nat)
      requires Valid()
      requires k < |photos| && photos[k].overlay.Some?
      ensures photos[k].geoTag.Some? && StoredGeoTag(photos[k]).None?
    {
    }

    /** A fresh activity: no camera, no fix, nothing published. */
    constructor ()
      ensures Valid()
      ensures !imageCaptureReady && !cameraReady && lastKnownLocation == None
      ensures status == [] && zoomDirectives == [] && delayedShots == [] && inFlight == [] && photos == []
    {
      imageCaptureReady := false;
      cameraReady := false;
      lastKnownLocation := None;
      status := [];
      zoomDirectives := [];
      delayedShots := [];
      inFlight := [];
      photos := [];
    }

    /** The end of `initializeCamera`, reduced to which of the two fields become non-null. */
    method OnCameraInitialized(setup: CameraSetup)
      requires Valid()
      modifies this`imageCaptureReady, this`cameraReady
      ensures Valid()
      ensures imageCaptureReady == (old(imageCaptureReady) || setup != ProviderFails)
      ensures cameraReady == (old(cameraReady) || setup == Bound)
    {
      if setup != ProviderFails {
        imageCaptureReady := true;
      }
      if setup == Bound {
        cameraReady := true;
      }
    }

    /** `fetchLocation`: only a non-null last location replaces the known one. */
    method FetchLocation(permissionGranted: bool, result: Option<Fix>)
      requires Valid()
      modifies this`lastKnownLocation
      ensures Valid()
      ensures lastKnownLocation == if permissionGranted && result.Some? then result else old(lastKnownLocation)
    {
      if permissionGranted && result.Some? {
        lastKnownLocation := result;
      }
    }

    /** `setZoom`: refused without a camera; otherwise the level goes to the camera control. */
    method SetZoom(level: real, controlFails: bool)
      requires Valid()
      modifies this`status, this`zoomDirectives
      ensures Valid()
      ensures status == old(status) + [ZoomStatus(cameraReady, controlFails, level)]
      ensures zoomDirectives == old(zoomDirectives) + ZoomApplied(cameraReady, controlFails, level)
      ensures !cameraReady ==> zoomDirectives == old(zoomDirectives)
    {
      if !cameraReady {
        status := status + [CameraNotReadyForZoom];
        return;
      }
      if controlFails {
        status := status + [ZoomFailed];
      } else {
        zoomDirectives := zoomDirectives + [level];
        status := status + [ZoomSet(level)];
      }
    }

    /**
      `takePhoto`: refused without an image capture; otherwise one capture
      request is started, named from the timestamp and the known location.
      Nothing stops a second request while one is outstanding.
     */
    method TakePhoto(resetZoom: bool, timeStamp: string)
      requires Valid()
      modifies this`status, this`inFlight
      ensures Valid()
      ensures status == old(status) + [CaptureStatus(imageCaptureReady)]
      ensures inFlight == old(inFlight) + CaptureStarted(imageCaptureReady, Shot(FileName(timeStamp, lastKnownLocation), resetZoom))
      ensures !imageCaptureReady ==> inFlight == old(inFlight)
    {
      if !imageCaptureReady {
        status := status + [CameraNotReady];
        return;
      }
      var file := FileName(timeStamp, lastKnownLocation);
      inFlight := inFlight + [Shot(file, resetZoom)];
      status := status + [Capturing];
    }

    /** The effect of `onVoiceCommand(command)` on the published status, the zoom and the capture requests. */
    twostate predicate Dispatched(command: string, timeStamp: string, controlFails: bool)
      reads this
    {
      match RouteOf(command)
      case ZoomThenCapture =>
        status == old(status) + [ZoomStatus(old(cameraReady), controlFails, ZoomInLevel), ZoomingAndCapturing] &&
        zoomDirectives == old(zoomDirectives) + ZoomApplied(old(cameraReady), controlFails, ZoomInLevel) &&
        delayedShots == old(delayedShots) + [ZoomSettleDelay] &&
        inFlight == old(inFlight)
      case PlainCapture =>
        status == old(status) + [CaptureStatus(old(imageCaptureReady))] &&
        zoomDirectives == old(zoomDirectives) &&
        delayedShots == old(delayedShots) &&
        inFlight == old(inFlight) + CaptureStarted(old(imageCaptureReady), Shot(FileName(timeStamp, old(lastKnownLocation)), false))
      case Unrecognized =>
        status == old(status) + [UnrecognizedCommand(command)] &&
        zoomDirectives == old(zoomDirectives) &&
        delayedShots == old(delayedShots) &&
        inFlight == old(inFlight)
    }

    /**
      `onVoiceCommand`: zoom to 0.5 and take a zoom-resetting photo 500 ms
      later; or take a plain photo; or report the command unrecognized.
     */
    method OnVoiceCommand(command: string, timeStamp: string, controlFails: bool)
      requires Valid()
      modifies this`status, this`zoomDirectives, this`delayedShots, this`inFlight
      ensures Valid()
      ensures Dispatched(command, timeStamp, controlFails)
    {
      var containsPhotoCommand := Contains(command, "take a photo") || Contains(command, "zoom");
      var zoomCommand := Contains(command, "zoom");
      if zoomCommand {
        SetZoom(ZoomInLevel, controlFails);
        status := status + [ZoomingAndCapturing];
        delayedShots := delayedShots + [ZoomSettleDelay];
      } else if containsPhotoCommand {
        TakePhoto(false, timeStamp);
      } else {
        status := status + [UnrecognizedCommand(command)];
      }
    }

    /** `voiceCommandReceiver.onReceive`: dispatch only a "VOICE_COMMAND" broadcast that carries a command. */
    method OnReceive(action: string, command: Option<string>, timeStamp: string, controlFails: bool)
      requires Valid()
      modifies this`status, this`zoomDirectives, this`delayedShots, this`inFlight
      ensures Valid()
      ensures action == VoiceCommandAction && command.Some? ==> Dispatched(command.value, timeStamp, controlFails)
      ensures !(action == VoiceCommandAction && command.Some?) ==> unchanged(this)
    {
      if action == VoiceCommandAction {
        if command.Some? {
          OnVoiceCommand(command.value, timeStamp, controlFails);
        }
      }
    }

    /** The handler runs the `k`-th delayed zoom capture: `takePhoto(true)`. */
    method RunDelayedShot(k: nat, timeStamp: string)
      requires Valid()
      requires k < |delayedShots|
      modifies this`delayedShots, this`status, this`inFlight
      ensures Valid()
      ensures old(delayedShots[k]) == ZoomSettleDelay
      ensures delayedShots == old(delayedShots[..k] + delayedShots[k + 1..])
      ensures status == old(status) + [CaptureStatus(imageCaptureReady)]
      ensures inFlight == old(inFlight) + CaptureStarted(imageCaptureReady, Shot(FileName(timeStamp, lastKnownLocation), true))
    {
      delayedShots := delayedShots[..k] + delayedShots[k + 1..];
      assert forall j :: 0 <= j < |delayedShots| ==> delayedShots[j] in old(delayedShots);
      TakePhoto(true, timeStamp);
    }

    /**
      `onImageSaved` for the `k`-th outstanding request: enrich with the
      location known now, publish "Photo saved!", and reset the zoom only
      if the request asked for it.
     */
    method OnImageSaved(k: nat, exifFails: bool, overlayFails: bool, controlFails: bool)
      requires Valid()
      requires k < |inFlight|
      modifies this`inFlight, this`photos, this`status, this`zoomDirectives
      ensures Valid()
      ensures inFlight == old(inFlight[..k] + inFlight[k + 1..])
      ensures photos == old(photos) + [Enrich(old(inFlight[k]).fileName, lastKnownLocation, exifFails, overlayFails)]
      ensures old(inFlight[k]).resetZoom ==>
                status == old(status) + [PhotoSaved, ZoomStatus(cameraReady, controlFails, ZoomResetLevel)] &&
                zoomDirectives == old(zoomDirectives) + ZoomApplied(cameraReady, controlFails, ZoomResetLevel)
      ensures !old(inFlight[k]).resetZoom ==>
                status == old(status) + [PhotoSaved] && zoomDirectives == old(zoomDirectives)
    {
      var shot := inFlight[k];
      inFlight := inFlight[..k] + inFlight[k + 1..];
      photos := photos + [Enrich(shot.fileName, lastKnownLocation, exifFails, overlayFails)];
      status := status + [PhotoSaved];
      if shot.resetZoom {
        SetZoom(ZoomResetLevel, controlFails);
      }
    }

    /** `onError` for the `k`-th outstanding request: publish "Error taking photo" and nothing else; the zoom stays. */
    method OnCaptureError(k: nat)
      requires Valid()
      requires k < |inFlight|
      modifies this`inFlight, this`status
      ensures Valid()
      ensures inFlight == old(inFlight[..k] + inFlight[k + 1..])
      ensures status == old(status) + [ErrorTakingPhoto]
      ensures zoomDirectives == old(zoomDirectives) && photos == old(photos)
    {
      inFlight := inFlight[..k] + inFlight[k + 1..];
      status := status + [ErrorTakingPhoto];
    }
  }

  /** Two "take a photo" commands in a row leave two captures outstanding: there is no busy guard. */
  method TwoCapturesOutstanding(timeStamp1: string, timeStamp2: string) returns (outstanding: seq<Shot>)
    ensures |outstanding| == 2
    ensures outstanding == [Shot(FileName(timeStamp1, None), false), Shot(FileName(timeStamp2, None), false)]
  {
    var activity := new MainActivity();
    activity.OnCameraInitialized(Bound);
    RoutesOfVocabulary();
    activity.OnVoiceCommand("take a photo", timeStamp1, false);
    activity.OnVoiceCommand("take a photo", timeStamp2, false);
    outstanding := activity.inFlight;
  }

  /** A zoom capture that fails keeps the 0.5 zoom: no reset directive is issued. */
  method ZoomKeptAfterFailedCapture(timeStamp: string) returns (directives: seq<real>, published: seq<Status>)
    ensures directives == [ZoomInLevel]
    ensures published == [ZoomSet(ZoomInLevel), ZoomingAndCapturing, Capturing, ErrorTakingPhoto]
  {
    var activity := new MainActivity();
    activity.OnCameraInitialized(Bound);
    RoutesOfVocabulary();
    activity.OnVoiceCommand("zoom", timeStamp, false);
    assert activity.status == [ZoomSet(ZoomInLevel), ZoomingAndCapturing];
    assert activity.zoomDirectives == [ZoomInLevel] && |activity.delayedShots| == 1;
    activity.RunDelayedShot(0, timeStamp);
    assert |activity.inFlight| == 1;
    activity.OnCaptureError(0);
    directives := activity.zoomDirectives;
    published := activity.status;
  }
}
