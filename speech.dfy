/**
  The background speech-recognition service: the fixed command vocabulary,
  the first-hit matcher, the error-code to restart-delay table and the
  self-restarting listen loop driven by recognizer callbacks.
 */
module Speech {
  import opened Wrappers
  import opened Strings

  /** The supported voice commands, in declaration (and matching) order. */
  const Commands: seq<string> := ["take a photo", "take photo", "zoom", "zoom in"]

  /** `SpeechRecognizer.ERROR_SPEECH_TIMEOUT` and `SpeechRecognizer.ERROR_NO_MATCH`. */
  const ErrorSpeechTimeout: int := 6
  const ErrorNoMatch: int := 7

  /** Restart delays in milliseconds. */
  const ResultsDelay: nat := 100     // after results and after end of speech
  const NoMatchDelay: nat := 300
  const TimeoutDelay: nat := 500
  const OtherErrorDelay: nat := 1000
  const InitFailureDelay: nat := 2000

  /** Every delay the service ever posts to its handler. */
  predicate IsRestartDelay(d: nat) {
    d == ResultsDelay || d == NoMatchDelay || d == TimeoutDelay || d == OtherErrorDelay || d == InitFailureDelay
  }

  /** `vocabulary[k]` is the earliest entry contained in `input`. */
  ghost predicate FirstHitAt(vocabulary: seq<string>, input: string, k: int) {
    0 <= k < |vocabulary| && Contains(input, vocabulary[k]) &&
    forall j :: 0 <= j < k ==> !Contains(input, vocabulary[j])
  }

  /** The ordered first-hit search: the first entry of `vocabulary` that is a substring of `input`. */
  function FirstMatch(vocabulary: seq<string>, input: string): (r: Option<string>)
    ensures r.None? <==> forall j :: 0 <= j < |vocabulary| ==> !Contains(input, vocabulary[j])
    ensures r.Some? ==> exists k :: FirstHitAt(vocabulary, input, k) && vocabulary[k] == r.value
    decreases |vocabulary|
  {
    if vocabulary == [] then None
    else if Contains(input, vocabulary[0]) then
      assert FirstHitAt(vocabulary, input, 0);
      Some(vocabulary[0])
    else
      var r := FirstMatch(vocabulary[1..], input);
      assert r.Some? ==> exists k :: FirstHitAt(vocabulary, input, k) && vocabulary[k] == r.value by {
        if r.Some? {
          var k :| FirstHitAt(vocabulary[1..], input, k) && vocabulary[1..][k] == r.value;
          assert FirstHitAt(vocabulary, input, k + 1);
        }
      }
      r
  }

  /** `matchCommand`: the early-return loop over `Commands`. */
  method MatchCommand(input: string) returns (command: Option<string>)
    ensures command == FirstMatch(Commands, input)
  {
    var i := 0;
    while i < |Commands|
      invariant 0 <= i <= |Commands|
      invariant FirstMatch(Commands[i..], input) == FirstMatch(Commands, input)
    {
      if Contains(input, Commands[i]) {
        return Some(Commands[i]);
      }
      assert Commands[i..][1..] == Commands[i + 1..];
      i := i + 1;
    }
    return None;
  }

  /** A returned command is a vocabulary entry that occurs in the input. */
  lemma MatchedCommandOccurs(input: string)
    ensures FirstMatch(Commands, input).Some? ==>
              FirstMatch(Commands, input).value in Commands &&
              Contains(input, FirstMatch(Commands, input).value)
  {
    var r := FirstMatch(Commands, input);
    if r.Some? {
      var k :| FirstHitAt(Commands, input, k) && Commands[k] == r.value;
    }
  }

  /** "zoom" is a prefix of "zoom in", so "zoom" always wins and "zoom in" is never returned. */
  lemma ZoomInNeverMatched(input: string)
    ensures FirstMatch(Commands, input) != Some("zoom in")
    ensures Contains(input, "zoom in") ==> FirstMatch(Commands, input).Some?
  {
    assert StartsWith("zoom in", "zoom");
    if Contains(input, "zoom in") {
      ContainsTransitive(input, "zoom in", "zoom");
    }
    MatchedCommandOccurs(input);
  }

  /** An input that contains "zoom in" but neither photo phrase yields "zoom". */
  lemma ZoomInYieldsZoom(input: string)
    requires Contains(input, "zoom in")
    requires !Contains(input, "take a photo") && !Contains(input, "take photo")
    ensures FirstMatch(Commands, input) == Some("zoom")
  {
    assert StartsWith("zoom in", "zoom");
    ContainsTransitive(input, "zoom in", "zoom");
    assert Commands[1..][1..] == ["zoom", "zoom in"];
  }

  /** "take photo" is returned exactly when the input has it but not "take a photo". */
  lemma TakePhotoMatchedOnlyWithoutTakeAPhoto(input: string)
    ensures FirstMatch(Commands, input) == Some("take photo") <==>
              Contains(input, "take photo") && !Contains(input, "take a photo")
  {
    assert Commands[1..] == ["take photo", "zoom", "zoom in"];
  }

  /** `handleError`: the restart delay chosen for a recognizer error code. */
  function ErrorDelay(error: int): (delay: nat)
    ensures NoMatchDelay <= delay <= OtherErrorDelay
    ensures delay == NoMatchDelay <==> error == ErrorNoMatch
    ensures delay == TimeoutDelay <==> error == ErrorSpeechTimeout
    ensures delay == OtherErrorDelay <==> error != ErrorNoMatch && error != ErrorSpeechTimeout
    ensures IsRestartDelay(delay)
  {
    if error == ErrorNoMatch then NoMatchDelay
    else if error == ErrorSpeechTimeout then TimeoutDelay
    else OtherErrorDelay
  }

  /** Every restart delay is positive and at most a few seconds. */
  lemma RestartDelaysBounded(d: nat)
    requires IsRestartDelay(d)
    ensures ResultsDelay <= d <= InitFailureDelay
    ensures d > 0
  {
  }

  /**
    `processResults`: only the first recognizer candidate is looked at,
    lowercased; a command is sent exactly when the list is present,
    non-empty and its first candidate matches.
   */
  method ProcessResults(matches: Option<seq<string>>) returns (sent: Option<string>)
    ensures sent.Some? <==>
              matches.Some? && |matches.value| > 0 &&
              exists k :: 0 <= k < |Commands| && Contains(ToLowerCase(matches.value[0]), Commands[k])
    ensures sent.Some? ==> sent.value in Commands && Contains(ToLowerCase(matches.value[0]), sent.value)
    ensures sent.Some? ==> sent == FirstMatch(Commands, ToLowerCase(matches.value[0]))
  {
    sent := None;
    if matches.Some? && |matches.value| > 0 {
      var rawCommand := ToLowerCase(matches.value[0]);
      sent := MatchCommand(rawCommand);
      MatchedCommandOccurs(rawCommand);
    }
  }

  /** What can go wrong inside one `startListeningCycle`. */
  datatype InitFault =
    | NoFault
    | CreateFails     // `createSpeechRecognizer` throws: caught, restart after 2000 ms
    | SetupFails      // `setRecognitionListener` throws: caught, restart after 2000 ms
    | ListenFails     // `startListening` throws: caught and only logged inside `startListening`

  /**
    The service's mutable state. Recognizers are named by the number of
    recognizers created before them; `live` holds those not yet destroyed.
   */
  class SpeechRecognitionService {
    var isDestroyed: bool
    var recognizer: Option<nat>     // the `speechRecognizer` field
    var created: nat                // how many recognizers have been created
    var live: set<nat>              // created and not yet destroyed
    var wakeLockHeld: bool
    var pending: seq<nat>           // delays of the `startListeningCycle` posts still in the handler, in posting order
    var broadcasts: seq<string>     // commands sent to the activity, in order

    ghost predicate Valid()
      reads this
    {
      (recognizer.None? ==> live == {}) &&
      (recognizer.Some? ==> recognizer.value < created && live <= {recognizer.value}) &&
      (isDestroyed ==> live == {} && !wakeLockHeld) &&
      (forall k :: 0 <= k < |pending| ==> IsRestartDelay(pending[k])) &&
      (forall k :: 0 <= k < |broadcasts| ==> broadcasts[k] in Commands)
    }

    /** At most one recognizer is live at any time. */
    lemma AtMostOneLive()
      requires Valid()
      ensures |live| <= 1
    {
      if recognizer.Some? && live != {} {
        assert live == {recognizer.value};
      }
    }

    /** Every restart waiting in the handler has a positive delay of at most 2000 ms. */
    lemma PendingDelaysPositive()
      requires Valid()
      ensures forall k :: 0 <= k < |pending| ==> 0 < pending[k] <= InitFailureDelay
    {
      forall k | 0 <= k < |pending| ensures 0 < pending[k] <= InitFailureDelay {
        RestartDelaysBounded(pending[k]);
      }
    }

    /** `onCreate`: acquire the wake lock, then run the first listening cycle. */
    constructor (fault: InitFault)
      ensures Valid()
      ensures !isDestroyed && wakeLockHeld && broadcasts == []
      ensures fault != CreateFails ==> recognizer == Some(0) && created == 1 && live == {0}
      ensures fault == CreateFails ==> recognizer == None && created == 0 && live == {}
      ensures pending == if fault == CreateFails || fault == SetupFails then [InitFailureDelay] else []
    {
      isDestroyed := false;
      recognizer := None;
      created := 0;
      live := {};
      wakeLockHeld := true;
      pending := [];
      broadcasts := [];
      new;
      StartListeningCycle(fault);
    }

    /**
      `startListeningCycle`: a no-op once destroyed; otherwise the current
      recognizer is destroyed before a fresh one is created.
     */
    method StartListeningCycle(fault: InitFault)
      requires Valid()
      modifies this
      ensures Valid()
      ensures old(isDestroyed) ==> unchanged(this)
      ensures isDestroyed == old(isDestroyed) && wakeLockHeld == old(wakeLockHeld) && broadcasts == old(broadcasts)
      ensures !old(isDestroyed) && fault != CreateFails ==>
                recognizer == Some(old(created)) && created == old(created) + 1 && live == {old(created)}
      ensures !old(isDestroyed) && fault == CreateFails ==>
                recognizer == old(recognizer) && created == old(created) && live == {}
      ensures !old(isDestroyed) ==>
                pending == old(pending) + (if fault == CreateFails || fault == SetupFails then [InitFailureDelay] else [])
    {
      if isDestroyed {
        return;
      }
      if recognizer.Some? {
        live := live - {recognizer.value};
      }
      if fault == CreateFails {
        RestartListening(InitFailureDelay);
        return;
      }
      recognizer := Some(created);
      live := live + {created};
      created := created + 1;
      if fault == SetupFails {
        RestartListening(InitFailureDelay);
      }
    }

    /** `restartListening`: post one delayed `startListeningCycle`. */
    method RestartListening(delay: nat)
      requires IsRestartDelay(delay)
      modifies this`pending
      ensures pending == old(pending) + [delay]
    {
      pending := pending + [delay];
    }

    /** The handler runs the `k`-th pending post: it leaves the queue and a listening cycle starts. */
    method RunPending(k: nat, fault: InitFault)
      requires Valid()
      requires k < |pending|
      modifies this
      ensures Valid()
      ensures old(isDestroyed) ==> pending == old(pending[..k] + pending[k + 1..]) &&
                                   created == old(created) && live == old(live) && recognizer == old(recognizer)
      ensures isDestroyed == old(isDestroyed) && wakeLockHeld == old(wakeLockHeld) && broadcasts == old(broadcasts)
      ensures !old(isDestroyed) && fault != CreateFails ==>
                recognizer == Some(old(created)) && created == old(created) + 1 && live == {old(created)}
      ensures !old(isDestroyed) && fault == CreateFails ==>
                recognizer == old(recognizer) && created == old(created) && live == {}
      ensures !old(isDestroyed) ==>
                pending == old(pending[..k] + pending[k + 1..]) +
                           (if fault == CreateFails || fault == SetupFails then [InitFailureDelay] else [])
    {
      pending := pending[..k] + pending[k + 1..];
      assert forall j :: 0 <= j < |pending| ==> pending[j] in old(pending);
      StartListeningCycle(fault);
    }

    /** `onEndOfSpeech`: schedule a restart after 100 ms. */
    method OnEndOfSpeech()
      requires Valid()
      modifies this`pending
      ensures Valid()
      ensures pending == old(pending) + [ResultsDelay]
    {
      RestartListening(ResultsDelay);
    }

    /** `onError`: schedule a restart after the delay `handleError` chooses for `error`. */
    method OnError(error: int)
      requires Valid()
      modifies this`pending
      ensures Valid()
      ensures pending == old(pending) + [ErrorDelay(error)]
    {
      RestartListening(ErrorDelay(error));
    }

    /** `onResults`: forward a matched command, then schedule a restart after 100 ms. */
    method OnResults(matches: Option<seq<string>>)
      requires Valid()
      modifies this`pending, this`broadcasts
      ensures Valid()
      ensures pending == old(pending) + [ResultsDelay]
      ensures var first := if matches.Some? && |matches.value| > 0
                           then FirstMatch(Commands, ToLowerCase(matches.value[0])) else None;
              broadcasts == old(broadcasts) + (if first.Some? then [first.value] else [])
    {
      var sent := ProcessResults(matches);
      if sent.Some? {
        broadcasts := broadcasts + [sent.value];
      }
      RestartListening(ResultsDelay);
    }

    /** `onDestroy`: stop for good, destroy the recognizer, release the wake lock, drop pending restarts. */
    method OnDestroy()
      requires Valid()
      modifies this
      ensures Valid()
      ensures isDestroyed && !wakeLockHeld && live == {} && pending == []
      ensures recognizer == old(recognizer) && created == old(created) && broadcasts == old(broadcasts)
    {
      isDestroyed := true;
      if recognizer.Some? {
        live := live - {recognizer.value};
      }
      if wakeLockHeld {
        wakeLockHeld := false;
      }
      pending := [];
    }
  }

  /**
    Repeated recognizer timeouts, when every restart creates its recognizer:
    each timeout schedules exactly one restart of 500 ms, and each restart
    destroys the previous recognizer before creating the next, so from the
    first restart on exactly one recognizer is live.
   */
  method RepeatedTimeouts(service: SpeechRecognitionService, n: nat)
    requires service.Valid() && !service.isDestroyed && service.pending == []
    modifies service
    ensures service.Valid() && !service.isDestroyed && service.pending == []
    ensures service.created == old(service.created) + n
    ensures n > 0 ==> service.live == {service.created - 1}
    ensures n == 0 ==> service.live == old(service.live)
  {
    var i := 0;
    while i < n
      invariant 0 <= i <= n
      invariant service.Valid() && !service.isDestroyed && service.pending == []
      invariant service.created == old(service.created) + i
      invariant i > 0 ==> service.live == {service.created - 1}
      invariant i == 0 ==> service.live == old(service.live)
    {
      service.OnError(ErrorSpeechTimeout);
      assert service.pending == [TimeoutDelay];
      service.RunPending(0, NoFault);
      i := i + 1;
    }
  }
}
