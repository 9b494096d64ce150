/**
 * The voice-session controller of the Home page as one pure transition
 * function. The state is the four flags the page keeps (`isMounted`,
 * `isSpeakingRef`, `isRecognizingRef`, and whether `recognitionRef` holds a
 * recognizer); each browser callback is an event, and a handler run is
 * `Step(name, flags, event)`, giving the new flags and the effects the
 * handler issued, in order. `name` is the assistant name the effect
 * captured when it was set up.
 */
module Session {
  import opened Wrappers
  import opened Speech
  import opened Effects
  import opened Dispatch
  import opened WakeWord
  import JsString
  import opened Recovery

  const InitialDelayMs: nat := 1000
  const RestartDelayMs: nat := 500
  const CooldownMs: nat := 5000
  const FatalNotice: string := "Microphone access denied or service unavailable."

  datatype Flags = Flags(mounted: bool, speaking: bool, recognizing: bool, hasRecognizer: bool)

  datatype Event =
    | RecognizerStart                               // recognition.onstart
    | RecognizerEnd                                 // recognition.onend
    | RecognizerError(error: string)                // recognition.onerror, with event.error
    | RecognizerResult(results: seq<seq<string>>)   // recognition.onresult: transcripts of each result's alternatives
    | ResolverReply(reply: Option<Command>, voices: seq<Voice>)  // getGeminiResponse settles; voices as getVoices() then reports
    | UtteranceEnd                                  // utterance.onend
    | TimerFired(timer: TimerKind)                  // a setTimeout callback runs
    | Cleanup                                       // the effect's cleanup function

  datatype Outcome = Outcome(flags: Flags, effects: seq<Effect>)

  /** Whether `startRecognition` would call `start()`. */
  predicate MayStart(s: Flags) {
    s.hasRecognizer && !s.speaking && !s.recognizing
  }

  /**
   * The effect body. Without a SpeechRecognition constructor it returns at
   * once; otherwise it installs the recognizer and schedules the first start.
   */
  function Setup(supported: bool): (r: Outcome)
    ensures r.flags.hasRecognizer == supported && r.flags.mounted == supported
    ensures !r.flags.speaking && !r.flags.recognizing
    ensures r.effects == if supported then [Schedule(InitialDelayMs, InitialStart)] else []
  {
    if supported then Outcome(Flags(true, false, false, true), [Schedule(InitialDelayMs, InitialStart)])
    else Outcome(Flags(false, false, false, false), [])
  }

  /**
   * `startRecognition`: asks the device to start only when a recognizer exists
   * and neither flag is set. It changes no flag: `recognizing` is set by
   * `onstart`, and an InvalidStateError from `start()` is swallowed.
   */
  function StartRecognition(s: Flags): (r: Outcome)
    ensures r.flags == s
    ensures StartDevice in r.effects <==> MayStart(s)
    ensures forall i :: 0 <= i < |r.effects| ==> r.effects[i] == StartDevice
    ensures |r.effects| <= 1
  {
    if MayStart(s) then Outcome(s, [StartDevice]) else Outcome(s, [])
  }

  /**
   * `speak(text)`: stop the recognizer (when there is one) and clear
   * `recognizing`, build the hi-IN utterance, set `speaking`, cancel whatever
   * is playing, then speak.
   */
  function SpeakText(s: Flags, text: string, voices: seq<Voice>): (r: Outcome)
    ensures r.flags.speaking
    ensures r.flags.mounted == s.mounted && r.flags.hasRecognizer == s.hasRecognizer
    ensures r.flags.recognizing == (s.recognizing && !s.hasRecognizer)
    ensures Count(r.effects, TStop) == (if s.hasRecognizer then 1 else 0)
    ensures Count(r.effects, TCancel) == 1 && Count(r.effects, TSpeak) == 1
    ensures Before(r.effects, TStop, TCancel) && Before(r.effects, TCancel, TSpeak)
    ensures Before(r.effects, TStop, TSpeak)
    ensures Speak(MakeUtterance(text, voices)) in r.effects
    ensures Absent(r.effects, TOpen) && Absent(r.effects, TStart) && Absent(r.effects, TSchedule)
    ensures s.hasRecognizer ==> r.effects[0] == StopDevice
  {
    var u := MakeUtterance(text, voices);
    var flags := s.(recognizing := if s.hasRecognizer then false else s.recognizing, speaking := true);
    SpeechEffectCounts(s.hasRecognizer, u);
    Outcome(flags, SpeechEffects(s.hasRecognizer, u))
  }

  /** The effects of `speak`: stop (when there is a recognizer), cancel, speak. */
  function SpeechEffects(hasRecognizer: bool, u: Utterance): seq<Effect> {
    (if hasRecognizer then [StopDevice] else []) + [CancelSpeech, Speak(u)]
  }

  lemma SpeechEffectCounts(hasRecognizer: bool, u: Utterance)
    ensures Count(SpeechEffects(hasRecognizer, u), TStop) == (if hasRecognizer then 1 else 0)
    ensures Count(SpeechEffects(hasRecognizer, u), TCancel) == 1
    ensures Count(SpeechEffects(hasRecognizer, u), TSpeak) == 1
  {
    var stop := if hasRecognizer then [StopDevice] else [];
    var tail := [CancelSpeech, Speak(u)];
    assert [CancelSpeech] + [Speak(u)] == tail;
    forall t ensures Count(stop + tail, t) == Count(stop, t) + Count([CancelSpeech], t) + Count([Speak(u)], t) {
      CountConcat(stop, tail, t);
      CountConcat([CancelSpeech], [Speak(u)], t);
    }
    CountSingle(CancelSpeech, TStop);
    CountSingle(CancelSpeech, TCancel);
    CountSingle(CancelSpeech, TSpeak);
    CountSingle(Speak(u), TStop);
    CountSingle(Speak(u), TCancel);
    CountSingle(Speak(u), TSpeak);
    CountSingle(StopDevice, TStop);
    CountSingle(StopDevice, TCancel);
    CountSingle(StopDevice, TSpeak);
  }

  /**
   * `handleCommand(data)`: speak the response, then open the page the
   * command kind names, if any.
   */
  function HandleCommand(s: Flags, cmd: Command, voices: seq<Voice>): (r: Outcome)
    ensures r.flags == s.(speaking := true, recognizing := s.recognizing && !s.hasRecognizer)
    ensures Before(r.effects, TSpeak, TOpen)
    ensures Before(r.effects, TCancel, TSpeak)
    ensures s.hasRecognizer ==> Before(r.effects, TStop, TSpeak)
    ensures Count(r.effects, TSpeak) == 1
    ensures Speak(MakeUtterance(cmd.response, voices)) in r.effects
    ensures Count(r.effects, TOpen) <= 1
    ensures forall url :: OpenUrl(url) in r.effects <==> Destination(cmd.kind, cmd.userInput) == Some(url)
    ensures Absent(r.effects, TStart) && Absent(r.effects, TSchedule)
    ensures s.hasRecognizer ==> r.effects[0] == StopDevice
  {
    var sp := SpeakText(s, cmd.response, voices);
    var open := OpenEffects(cmd.kind, cmd.userInput);
    OpenOnly(open, cmd);
    CommandEffectFacts(s.hasRecognizer, sp.effects, open, Destination(cmd.kind, cmd.userInput));
    Outcome(sp.flags, sp.effects + open)
  }

  /**
   * The speech effects followed by the link: what `speak` guarantees carries
   * over, the speak precedes the link, and the links are exactly `open`'s.
   */
  lemma CommandEffectFacts(hasRecognizer: bool, speech: seq<Effect>, open: seq<Effect>, dest: Option<string>)
    requires Count(speech, TSpeak) == 1
    requires Before(speech, TStop, TSpeak) && Before(speech, TCancel, TSpeak)
    requires Absent(speech, TOpen) && Absent(speech, TStart) && Absent(speech, TSchedule)
    requires hasRecognizer ==> |speech| > 0 && speech[0] == StopDevice
    requires |open| <= 1 && forall i :: 0 <= i < |open| ==> open[i].OpenUrl?
    requires forall url :: OpenUrl(url) in open <==> dest == Some(url)
    ensures Before(speech + open, TSpeak, TOpen)
    ensures Before(speech + open, TCancel, TSpeak)
    ensures Before(speech + open, TStop, TSpeak)
    ensures Count(speech + open, TSpeak) == 1
    ensures Count(speech + open, TOpen) <= 1
    ensures forall url :: OpenUrl(url) in speech + open <==> dest == Some(url)
    ensures Absent(speech + open, TStart) && Absent(speech + open, TSchedule)
    ensures hasRecognizer ==> (speech + open)[0] == StopDevice
  {
    CountConcat(speech, open, TSpeak);
    CountConcat(speech, open, TOpen);
    CountAbsent(open, TSpeak);
    CountAbsent(speech, TOpen);
    BeforeConcat(speech, open, TSpeak, TOpen);
    BeforeConcat(speech, open, TCancel, TSpeak);
    BeforeConcat(speech, open, TStop, TSpeak);
    AbsentConcat(speech, open, TSchedule);
    forall url
      ensures OpenUrl(url) !in speech
    {
      AbsentNotIn(speech, OpenUrl(url));
    }
  }

  lemma OpenOnly(open: seq<Effect>, cmd: Command)
    requires open == OpenEffects(cmd.kind, cmd.userInput)
    ensures |open| <= 1
    ensures forall url :: OpenUrl(url) in open <==> Destination(cmd.kind, cmd.userInput) == Some(url)
  {
    OpenEffectsFollowTable(cmd.kind, cmd.userInput);
  }

  /** `onstart`. */
  function OnStart(s: Flags): (r: Outcome)
    ensures r.flags.recognizing && r.effects == []
    ensures r.flags.(recognizing := s.recognizing) == s
  {
    Outcome(s.(recognizing := true), [])
  }

  /** `onend`: clears `recognizing`; restarts after 500 ms only while mounted and not speaking. */
  function OnEnd(s: Flags): (r: Outcome)
    ensures r.flags == s.(recognizing := false)
    ensures Schedule(RestartDelayMs, Restart) in r.effects <==> s.mounted && !s.speaking
    ensures forall i :: 0 <= i < |r.effects| ==> r.effects[i] == Schedule(RestartDelayMs, Restart)
    ensures |r.effects| <= 1
  {
    if s.mounted && !s.speaking then Outcome(s.(recognizing := false), [Schedule(RestartDelayMs, Restart)])
    else Outcome(s.(recognizing := false), [])
  }

  /** `onerror`: clears `recognizing`, then acts on the error string. */
  function OnError(s: Flags, error: string): (r: Outcome)
    ensures !r.flags.recognizing && r.flags.hasRecognizer == s.hasRecognizer
    ensures error == "no-speech" ==> r == Outcome(s.(recognizing := false), [])
    ensures error in {"not-allowed", "service-not-allowed"} ==>
              r.flags == s.(recognizing := false, mounted := false)
              && r.effects == [Alert(FatalNotice)]
    ensures error == "network" ==>
              r.flags == s.(recognizing := false, speaking := true)
              && r.effects == [Schedule(CooldownMs, Cooldown)]
    ensures error !in {"no-speech", "not-allowed", "service-not-allowed", "network"} ==>
              r == Outcome(s.(recognizing := false), [])
  {
    var cleared := s.(recognizing := false);
    match Classify(error)
    case Ignore => Outcome(cleared, [])
    case Fatal => Outcome(cleared.(mounted := false), [Alert(FatalNotice)])
    case Backoff => Outcome(cleared.(speaking := true), [Schedule(CooldownMs, Cooldown)])
    case Other => Outcome(cleared, [])
  }

  /**
   * `onresult`, up to its `await`: take the trimmed last transcript; when it
   * names the assistant, abort the recognizer, clear `recognizing` and call
   * the resolver with it. Otherwise, and when the results are malformed,
   * nothing happens.
   */
  function OnResult(name: string, s: Flags, results: seq<seq<string>>): (r: Outcome)
    ensures r.effects != [] <==>
              LastTranscript(results).Some? && Heard(JsString.Trim(LastTranscript(results).value), name)
    ensures r.effects != [] ==>
              r.flags == s.(recognizing := false)
              && r.effects == [AbortDevice, CallResolver(JsString.Trim(LastTranscript(results).value))]
    ensures r.effects == [] ==> r.flags == s
  {
    match LastTranscript(results)
    case None => Outcome(s, [])
    case Some(raw) =>
      var transcript := JsString.Trim(raw);
      if Heard(transcript, name) then
        Outcome(s.(recognizing := false), [AbortDevice, CallResolver(transcript)])
      else
        Outcome(s, [])
  }

  /**
   * The rest of `onresult`, once the resolver has settled. An `undefined`
   * reply makes the destructuring in `handleCommand` throw, so nothing
   * happens; otherwise the command is handled.
   */
  function OnReply(s: Flags, reply: Option<Command>, voices: seq<Voice>): (r: Outcome)
    ensures reply.None? ==> r == Outcome(s, [])
    ensures reply.Some? ==> r.flags.speaking && Count(r.effects, TSpeak) == 1 && Before(r.effects, TSpeak, TOpen)
  {
    match reply
    case None => Outcome(s, [])
    case Some(cmd) => HandleCommand(s, cmd, voices)
  }

  /** `utterance.onend`: clears `speaking` and schedules one 500 ms restart. */
  function OnUtteranceEnd(s: Flags): (r: Outcome)
    ensures r.flags == s.(speaking := false)
    ensures r.effects == [Schedule(RestartDelayMs, Restart)]
  {
    Outcome(s.(speaking := false), [Schedule(RestartDelayMs, Restart)])
  }

  /**
   * Timer callbacks. The first start and the 500 ms restarts call
   * `startRecognition`; the network cool-down clears `speaking` and then
   * restarts only while still mounted.
   */
  function OnTimer(s: Flags, timer: TimerKind): (r: Outcome)
    ensures timer != Cooldown ==> r.flags == s
    ensures timer == Cooldown ==> r.flags == s.(speaking := false)
    ensures StartDevice in r.effects <==>
              if timer == Cooldown then s.mounted && s.hasRecognizer && !s.recognizing else MayStart(s)
    ensures forall i :: 0 <= i < |r.effects| ==> r.effects[i] == StartDevice
  {
    match timer
    case InitialStart => StartRecognition(s)
    case Restart => StartRecognition(s)
    case Cooldown =>
      var unblocked := s.(speaking := false);
      if unblocked.mounted then StartRecognition(unblocked) else Outcome(unblocked, [])
  }

  /**
   * The effect's cleanup: unmount, clear the first-start timer, abort the
   * recognizer if there is one, clear `recognizing`.
   */
  function OnCleanup(s: Flags): (r: Outcome)
    ensures !r.flags.mounted && !r.flags.recognizing
    ensures r.flags.speaking == s.speaking && r.flags.hasRecognizer == s.hasRecognizer
    ensures ClearTimer(InitialStart) in r.effects
    ensures AbortDevice in r.effects <==> s.hasRecognizer
    ensures Absent(r.effects, TStart) && Absent(r.effects, TSchedule)
  {
    var abort := if s.hasRecognizer then [AbortDevice] else [];
    Outcome(s.(mounted := false, recognizing := false), [ClearTimer(InitialStart)] + abort)
  }

  /**
   * One handler run. Across every event: whether a recognizer exists never
   * changes, an unmounted controller never becomes mounted again, and a device
   * start is issued at most once, and only in a state where `startRecognition`'s
   * guard holds.
   */
  function Step(name: string, s: Flags, e: Event): (r: Outcome)
    ensures r.flags.hasRecognizer == s.hasRecognizer
    ensures r.flags.mounted ==> s.mounted
    ensures StartDevice in r.effects ==> MayStart(r.flags)
    ensures Count(r.effects, TStart) <= 1
  {
    var r := match e
      case RecognizerStart => OnStart(s)
      case RecognizerEnd => OnEnd(s)
      case RecognizerError(error) => OnError(s, error)
      case RecognizerResult(results) => OnResult(name, s, results)
      case ResolverReply(reply, voices) => OnReply(s, reply, voices)
      case UtteranceEnd => OnUtteranceEnd(s)
      case TimerFired(timer) => OnTimer(s, timer)
      case Cleanup => OnCleanup(s);
    StartCount(r.effects);
    r
  }

  /** A list that has no start, or only starts and at most one effect, has at most one start. */
  lemma StartCount(es: seq<Effect>)
    ensures StartDevice !in es ==> Count(es, TStart) == 0
    ensures |es| <= 1 ==> Count(es, TStart) <= 1
  {
  }
}
