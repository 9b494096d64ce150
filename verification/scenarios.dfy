/** Concrete walks through the controller, one handler at a time. */
module Scenarios {
  import opened Wrappers
  import opened Speech
  import opened Effects
  import opened Dispatch
  import opened WakeWord
  import opened Session
  import opened Browser
  import JsString
  import UriComponent
  import Reachability

  const ListeningFlags: Flags := Flags(true, false, true, true)
  const Idle: Flags := Flags(true, false, false, true)

  /** A transcript with no whitespace at either end trims to itself. */
  lemma TrimUntouched(s: string)
    requires |s| > 0 && !JsString.IsWhitespace(s[0]) && !JsString.IsWhitespace(s[|s| - 1])
    ensures JsString.Trim(s) == s
  {
    assert JsString.LeadingSpace(s) == 0;
    assert s[0..] == s;
    assert JsString.TrailingSpace(s) == 0;
  }

  /**
   * "turn on jarvis music" wakes an assistant named "jarvis": the recognizer
   * is aborted and the resolver called with the transcript.
   */
  lemma WakeWordHeard()
    ensures Step("jarvis", ListeningFlags, RecognizerResult([["turn on jarvis music"]]))
            == Outcome(Idle, [AbortDevice, CallResolver("turn on jarvis music")])
  {
    var t := "turn on jarvis music";
    TrimUntouched(t);
    assert JsString.Lower(t)[8..14] == "jarvis";
    assert JsString.Lower("jarvis") == "jarvis";
    assert JsString.OccursAt(JsString.Lower(t), JsString.Lower("jarvis"), 8);
  }

  /**
   * The reply `youtube-search` / "music" / "Playing music": stop, cancel,
   * speak, then open the video search for "music".
   */
  lemma YouTubeReply()
    ensures Step("jarvis", Idle, ResolverReply(Some(Command("youtube-search", "music", "Playing music")), []))
            == Outcome(Idle.(speaking := true),
                       [StopDevice, CancelSpeech, Speak(Utterance("Playing music", HindiLocale, None)),
                        OpenUrl("https://www.youtube.com/results?search_query=music")])
  {
    var cmd := Command("youtube-search", "music", "Playing music");
    var u := Utterance("Playing music", HindiLocale, None);
    MusicSearch();
    ReplyShape("jarvis", Idle, cmd, []);
    assert SpeechEffects(true, u) == [StopDevice, CancelSpeech, Speak(u)];
  }

  /** The handled reply: the effects of `speak` followed by the link, with the utterance `speak` builds. */
  lemma ReplyShape(name: string, s: Flags, cmd: Command, voices: seq<Voice>)
    ensures Step(name, s, ResolverReply(Some(cmd), voices))
            == Outcome(s.(speaking := true, recognizing := s.recognizing && !s.hasRecognizer),
                       SpeechEffects(s.hasRecognizer, MakeUtterance(cmd.response, voices))
                       + OpenEffects(cmd.kind, cmd.userInput))
    ensures voices == [] ==> MakeUtterance(cmd.response, voices) == Utterance(cmd.response, HindiLocale, None)
  {
  }

  lemma MusicSearch()
    ensures OpenEffects("youtube-search", "music") == [OpenUrl("https://www.youtube.com/results?search_query=music")]
  {
    UriComponent.EncodeUnreserved("music");
    assert YouTubeSearch + "music" == "https://www.youtube.com/results?search_query=music";
  }

  /** When the response has been spoken, one restart follows 500 ms later, and it starts the recognizer. */
  lemma SpeechDoneRestarts()
    ensures Step("jarvis", Idle.(speaking := true), UtteranceEnd) == Outcome(Idle, [Schedule(500, Restart)])
    ensures Step("jarvis", Idle, TimerFired(Restart)) == Outcome(Idle, [StartDevice])
  {
  }

  /**
   * A network error: `speaking` blocks the restart the end event would
   * make; after 5000 ms the cool-down clears it and starts the recognizer.
   */
  lemma NetworkCooldown()
    ensures Step("jarvis", ListeningFlags, RecognizerError("network"))
            == Outcome(Idle.(speaking := true), [Schedule(5000, Cooldown)])
    ensures Step("jarvis", Idle.(speaking := true), RecognizerEnd) == Outcome(Idle.(speaking := true), [])
    ensures Step("jarvis", Idle.(speaking := true), TimerFired(Cooldown)) == Outcome(Idle, [StartDevice])
  {
  }

  /** A cool-down that ends after cleanup clears `speaking` and starts nothing. */
  lemma CooldownAfterCleanup()
    ensures Step("jarvis", Flags(false, true, false, true), TimerFired(Cooldown))
            == Outcome(Flags(false, false, false, true), [])
  {
  }

  /** Permission denied: one notice, the page counts as unmounted, and the end event restarts nothing. */
  lemma PermissionDenied()
    ensures Step("jarvis", ListeningFlags, RecognizerError("not-allowed"))
            == Outcome(Idle.(mounted := false), [Alert(FatalNotice)])
    ensures Step("jarvis", Idle.(mounted := false), RecognizerEnd) == Outcome(Idle.(mounted := false), [])
  {
  }

  /**
   * A resolver that fails yields `undefined`; destructuring it throws, so the
   * reply changes nothing and issues nothing: no speech, no link, and no
   * restart of its own.
   */
  lemma FailedReplyDoesNothing(name: string, s: Flags, voices: seq<Voice>)
    ensures Step(name, s, ResolverReply(None, voices)) == Outcome(s, [])
  {
  }

  /** A reply is handled the same whether or not the page is still mounted. */
  lemma ReplyIgnoresMounted(name: string, s: Flags, cmd: Command, voices: seq<Voice>)
    ensures Step(name, s, ResolverReply(Some(cmd), voices)).effects
            == Step(name, s.(mounted := true), ResolverReply(Some(cmd), voices)).effects
    ensures Speak(MakeUtterance(cmd.response, voices)) in Step(name, s, ResolverReply(Some(cmd), voices)).effects
  {
  }

  const Heard1: World := World(Idle, Closing, multiset{}, 1, 0, false)
  const HeardThenCleaned: World := World(Idle.(mounted := false), Closing, multiset{}, 1, 0, true)

  /**
   * Cleanup does not cancel a resolver call in flight: after the page is
   * cleaned up its reply can still arrive, and handling it speaks.
   */
  lemma ReplyAfterCleanup()
    ensures Run("jarvis", Init(true),
                [TimerFired(InitialStart), RecognizerStart, RecognizerResult([["hey jarvis"]]), Cleanup])
            == Some(HeardThenCleaned)
    ensures HeardThenCleaned.cleaned && Enabled(HeardThenCleaned, ResolverReply(Some(Command("x", "", "ok")), []))
    ensures Count(Step("jarvis", HeardThenCleaned.flags, ResolverReply(Some(Command("x", "", "ok")), [])).effects, TSpeak) == 1
  {
    Reachability.FirstStart("jarvis");
    Reachability.Started("jarvis");
    HeardStep();
    CleanupAfterHeard();
    Reachability.RunStep("jarvis", Heard1, Cleanup, [], HeardThenCleaned);
    Reachability.RunStep("jarvis", Reachability.Listening1, RecognizerResult([["hey jarvis"]]), [Cleanup], Heard1);
    Reachability.RunStep("jarvis", Reachability.Starting1, RecognizerStart,
                         [RecognizerResult([["hey jarvis"]]), Cleanup], Reachability.Listening1);
    Reachability.RunStep("jarvis", Init(true), TimerFired(InitialStart),
                         [RecognizerStart, RecognizerResult([["hey jarvis"]]), Cleanup], Reachability.Starting1);
  }

  lemma HeardStep()
    ensures Deliver("jarvis", Reachability.Listening1, RecognizerResult([["hey jarvis"]])) == Some(Heard1)
  {
    HeyJarvis();
    HeardDelivery("jarvis", Reachability.Listening1, [["hey jarvis"]], "hey jarvis");
  }

  /** "hey jarvis" is a trimmed transcript that names "jarvis". */
  lemma HeyJarvis()
    ensures LastTranscript([["hey jarvis"]]) == Some("hey jarvis")
    ensures JsString.Trim("hey jarvis") == "hey jarvis" && Heard("hey jarvis", "jarvis")
  {
    var t := "hey jarvis";
    TrimUntouched(t);
    assert JsString.Lower(t)[4..10] == "jarvis";
    assert JsString.Lower("jarvis") == "jarvis";
    assert JsString.OccursAt(JsString.Lower(t), JsString.Lower("jarvis"), 4);
  }

  /** A result that names the assistant, delivered to a listening recognizer: it closes, and one resolver call is outstanding. */
  lemma HeardDelivery(name: string, w: World, results: seq<seq<string>>, t: string)
    requires w.device == Listening
    requires LastTranscript(results) == Some(t) && Heard(JsString.Trim(t), name)
    ensures Deliver(name, w, RecognizerResult(results))
            == Some(w.(flags := w.flags.(recognizing := false), device := Closing, calls := w.calls + 1))
  {
    var o := Step(name, w.flags, RecognizerResult(results));
    assert o == Outcome(w.flags.(recognizing := false), [AbortDevice, CallResolver(JsString.Trim(t))]);
    ApplyPair(w.(flags := o.flags), AbortDevice, CallResolver(JsString.Trim(t)));
  }

  lemma CleanupAfterHeard()
    ensures Deliver("jarvis", Heard1, Cleanup) == Some(HeardThenCleaned)
  {
    assert Step("jarvis", Heard1.flags, Cleanup)
        == Outcome(HeardThenCleaned.flags, [ClearTimer(InitialStart), AbortDevice]);
    ApplyPair(Heard1.(cleaned := true, flags := HeardThenCleaned.flags), ClearTimer(InitialStart), AbortDevice);
    assert multiset{}[InitialStart := 0] == multiset{};
  }

  // Worlds along the runs in which the network cool-down overlaps a spoken reply.
  const HeardEnded: World := World(Idle, Off, multiset{Restart}, 1, 0, false)
  const HeardRestarting: World := World(Idle, Starting, multiset{}, 1, 0, false)
  const HeardListening: World := World(ListeningFlags, Listening, multiset{}, 1, 0, false)
  const BackingOff: World := World(Idle.(speaking := true), Closing, multiset{Cooldown}, 1, 0, false)
  const BackedOff: World := World(Idle.(speaking := true), Off, multiset{Cooldown}, 1, 0, false)
  const ReplySpoken: World := World(Idle.(speaking := true), Off, multiset{Cooldown}, 0, 1, false)
  const CooledDown: World := World(Idle, Starting, multiset{}, 0, 1, false)
  const TalkedOver: World := World(ListeningFlags, Listening, multiset{}, 0, 1, false)
  const SpokenEarly: World := World(Idle, Off, multiset{Cooldown, Restart}, 0, 0, false)
  const RestartInCooldown: World := World(Idle, Starting, multiset{Cooldown}, 0, 0, false)
  const ListeningInCooldown: World := World(ListeningFlags, Listening, multiset{Cooldown}, 0, 0, false)

  /** The reply used in both runs: no link, a one-word answer. */
  const Reply: Event := ResolverReply(Some(Command("x", "", "ok")), [])

  // The runs, one event at a time: the wake word is heard; the abort's `onend`
  // restarts the recognizer while the command is resolved; a network error
  // starts the cool-down; the reply is spoken inside it. Then either the
  // cool-down ends first (TalkOverRun) or the reply does (CutShortRun).
  const HeardRun: seq<Event> := [TimerFired(InitialStart), RecognizerStart, RecognizerResult([["hey jarvis"]])]
  const EndedRun: seq<Event> := HeardRun + [RecognizerEnd]
  const RestartRun: seq<Event> := EndedRun + [TimerFired(Restart)]
  const RelistenRun: seq<Event> := RestartRun + [RecognizerStart]
  const NetworkRun: seq<Event> := RelistenRun + [RecognizerError("network")]
  const BackedOffRun: seq<Event> := NetworkRun + [RecognizerEnd]
  const ReplyRun: seq<Event> := BackedOffRun + [Reply]
  const CooledRun: seq<Event> := ReplyRun + [TimerFired(Cooldown)]
  const TalkOverRun: seq<Event> := CooledRun + [RecognizerStart]
  const SpokenRun: seq<Event> := ReplyRun + [UtteranceEnd]
  const EarlyRestartRun: seq<Event> := SpokenRun + [TimerFired(Restart)]
  const CutShortRun: seq<Event> := EarlyRestartRun + [RecognizerStart]

  /** The two runs, event by event. */
  lemma RunsSpelledOut()
    ensures TalkOverRun
            == [TimerFired(InitialStart), RecognizerStart, RecognizerResult([["hey jarvis"]]), RecognizerEnd,
                TimerFired(Restart), RecognizerStart, RecognizerError("network"), RecognizerEnd, Reply,
                TimerFired(Cooldown), RecognizerStart]
    ensures CutShortRun
            == [TimerFired(InitialStart), RecognizerStart, RecognizerResult([["hey jarvis"]]), RecognizerEnd,
                TimerFired(Restart), RecognizerStart, RecognizerError("network"), RecognizerEnd, Reply,
                UtteranceEnd, TimerFired(Restart), RecognizerStart]
  {
  }

  /** Extending a run by one deliverable event. */
  lemma {:induction false} RunExtend(name: string, w0: World, es: seq<Event>, w: World, e: Event, next: World)
    requires Run(name, w0, es) == Some(w) && Deliver(name, w, e) == Some(next)
    ensures Run(name, w0, es + [e]) == Some(next)
    decreases |es|
  {
    if es == [] {
      assert [e][1..] == [];
      assert es + [e] == [e];
    } else {
      var first := Deliver(name, w0, es[0]).value;
      assert (es + [e])[0] == es[0] && (es + [e])[1..] == es[1..] + [e];
      RunExtend(name, first, es[1..], w, e, next);
    }
  }

  lemma HeardThenEnded()
    ensures Deliver("jarvis", Heard1, RecognizerEnd) == Some(HeardEnded)
  {
    assert Step("jarvis", Heard1.flags, RecognizerEnd) == Outcome(Idle, [Schedule(RestartDelayMs, Restart)]);
    ApplySingle(Heard1.(device := Off), Schedule(RestartDelayMs, Restart));
    assert multiset{} + multiset{Restart} == multiset{Restart};
  }

  lemma RestartWhileResolving()
    ensures Deliver("jarvis", HeardEnded, TimerFired(Restart)) == Some(HeardRestarting)
  {
    assert Step("jarvis", Idle, TimerFired(Restart)) == Outcome(Idle, [StartDevice]);
    assert multiset{Restart} - multiset{Restart} == multiset{};
    ApplyStart(HeardEnded.(timers := multiset{}));
  }

  lemma RelistenWhileResolving()
    ensures Deliver("jarvis", HeardRestarting, RecognizerStart) == Some(HeardListening)
  {
  }

  lemma NetworkWhileResolving()
    ensures Deliver("jarvis", HeardListening, RecognizerError("network")) == Some(BackingOff)
  {
    assert Step("jarvis", ListeningFlags, RecognizerError("network"))
        == Outcome(BackingOff.flags, [Schedule(CooldownMs, Cooldown)]);
    ApplySingle(HeardListening.(device := Closing, flags := BackingOff.flags), Schedule(CooldownMs, Cooldown));
    assert multiset{} + multiset{Cooldown} == multiset{Cooldown};
  }

  lemma EndWhileBackingOff()
    ensures Deliver("jarvis", BackingOff, RecognizerEnd) == Some(BackedOff)
  {
    assert Step("jarvis", BackingOff.flags, RecognizerEnd) == Outcome(BackingOff.flags, []);
  }

  /** The reply's outcome with a recognizer present: stop, cancel, speak "ok"; no link. */
  lemma ReplySteps(name: string, s: Flags)
    requires s.hasRecognizer
    ensures Step(name, s, Reply)
            == Outcome(s.(speaking := true, recognizing := false),
                       [StopDevice, CancelSpeech, Speak(Utterance("ok", HindiLocale, None))])
  {
    var u := Utterance("ok", HindiLocale, None);
    ReplyShape(name, s, Command("x", "", "ok"), []);
    assert OpenEffects("x", "") == [];
    assert SpeechEffects(true, u) == [StopDevice, CancelSpeech, Speak(u)];
  }

  /** `speak` while the recognizer is off: the stop does nothing, and one utterance is outstanding. */
  lemma SpeakWhileOff(w: World, u: Utterance)
    requires w.device == Off
    ensures Apply(w, [StopDevice, CancelSpeech, Speak(u)]) == w.(utterances := w.utterances + 1)
  {
    ApplyTriple(w, StopDevice, CancelSpeech, Speak(u));
  }

  /** The reply during the cool-down: stop (the recognizer is already off), cancel, speak. */
  lemma ReplyDuringCooldown()
    ensures Deliver("jarvis", BackedOff, Reply) == Some(ReplySpoken)
  {
    var u := Utterance("ok", HindiLocale, None);
    ReplySteps("jarvis", BackedOff.flags);
    DeliverWith("jarvis", BackedOff, Reply, Outcome(BackedOff.flags, [StopDevice, CancelSpeech, Speak(u)]));
    SpeakWhileOff(ReplySpoken.(utterances := 0), u);
  }

  lemma CooldownEnds()
    ensures Deliver("jarvis", ReplySpoken, TimerFired(Cooldown)) == Some(CooledDown)
  {
    assert Step("jarvis", ReplySpoken.flags, TimerFired(Cooldown)) == Outcome(Idle, [StartDevice]);
    assert multiset{Cooldown} - multiset{Cooldown} == multiset{};
    ApplyStart(ReplySpoken.(timers := multiset{}, flags := Idle));
  }

  lemma StartAfterCooldown()
    ensures Deliver("jarvis", CooledDown, RecognizerStart) == Some(TalkedOver)
  {
  }

  lemma UtteranceEndsInCooldown()
    ensures Deliver("jarvis", ReplySpoken, UtteranceEnd) == Some(SpokenEarly)
  {
    assert Step("jarvis", ReplySpoken.flags, UtteranceEnd) == Outcome(Idle, [Schedule(RestartDelayMs, Restart)]);
    ApplySingle(ReplySpoken.(utterances := 0, flags := Idle), Schedule(RestartDelayMs, Restart));
    assert multiset{Cooldown} + multiset{Restart} == multiset{Cooldown, Restart};
  }

  lemma RestartInsideCooldown()
    ensures Deliver("jarvis", SpokenEarly, TimerFired(Restart)) == Some(RestartInCooldown)
  {
    assert Step("jarvis", Idle, TimerFired(Restart)) == Outcome(Idle, [StartDevice]);
    assert multiset{Cooldown, Restart} - multiset{Restart} == multiset{Cooldown};
    ApplyStart(SpokenEarly.(timers := multiset{Cooldown}));
  }

  lemma StartInsideCooldown()
    ensures Deliver("jarvis", RestartInCooldown, RecognizerStart) == Some(ListeningInCooldown)
  {
  }

  lemma HeardRunEnds()
    ensures Run("jarvis", Init(true), HeardRun) == Some(Heard1)
  {
    Reachability.FirstStart("jarvis");
    Reachability.Started("jarvis");
    HeardStep();
    Reachability.RunStep("jarvis", Reachability.Listening1, RecognizerResult([["hey jarvis"]]), [], Heard1);
    Reachability.RunStep("jarvis", Reachability.Starting1, RecognizerStart,
                         [RecognizerResult([["hey jarvis"]])], Reachability.Listening1);
    Reachability.RunStep("jarvis", Init(true), TimerFired(InitialStart),
                         [RecognizerStart, RecognizerResult([["hey jarvis"]])], Reachability.Starting1);
  }

  lemma EndedRunEnds()
    ensures Run("jarvis", Init(true), EndedRun) == Some(HeardEnded)
  {
    HeardRunEnds();
    HeardThenEnded();
    RunExtend("jarvis", Init(true), HeardRun, Heard1, RecognizerEnd, HeardEnded);
  }

  lemma RestartRunEnds()
    ensures Run("jarvis", Init(true), RestartRun) == Some(HeardRestarting)
  {
    EndedRunEnds();
    RestartWhileResolving();
    RunExtend("jarvis", Init(true), EndedRun, HeardEnded, TimerFired(Restart), HeardRestarting);
  }

  /** While the command is resolved, the abort's `onend` restarts the recognizer. */
  lemma RelistenRunEnds()
    ensures Run("jarvis", Init(true), RelistenRun) == Some(HeardListening)
  {
    RestartRunEnds();
    RelistenWhileResolving();
    RunExtend("jarvis", Init(true), RestartRun, HeardRestarting, RecognizerStart, HeardListening);
  }

  lemma NetworkRunEnds()
    ensures Run("jarvis", Init(true), NetworkRun) == Some(BackingOff)
  {
    RelistenRunEnds();
    NetworkWhileResolving();
    RunExtend("jarvis", Init(true), RelistenRun, HeardListening, RecognizerError("network"), BackingOff);
  }

  lemma BackedOffRunEnds()
    ensures Run("jarvis", Init(true), BackedOffRun) == Some(BackedOff)
  {
    NetworkRunEnds();
    EndWhileBackingOff();
    RunExtend("jarvis", Init(true), NetworkRun, BackingOff, RecognizerEnd, BackedOff);
  }

  /** A network error while the command is resolved starts the cool-down, and the reply is spoken inside it. */
  lemma ReplyPendingInCooldown()
    ensures Run("jarvis", Init(true), ReplyRun) == Some(ReplySpoken)
  {
    BackedOffRunEnds();
    ReplyDuringCooldown();
    RunExtend("jarvis", Init(true), BackedOffRun, BackedOff, Reply, ReplySpoken);
  }

  lemma CooledRunEnds()
    ensures Run("jarvis", Init(true), CooledRun) == Some(CooledDown)
  {
    ReplyPendingInCooldown();
    CooldownEnds();
    RunExtend("jarvis", Init(true), ReplyRun, ReplySpoken, TimerFired(Cooldown), CooledDown);
  }

  /**
   * The cool-down clears `speaking` without looking at the synthesizer: a
   * reply spoken during the cool-down is still playing (its end has not
   * arrived, and nothing cancelled it) when the cool-down restarts the
   * recognizer, which then listens while the page talks.
   */
  lemma CooldownTalksOver()
    ensures Run("jarvis", Init(true), TalkOverRun) == Some(TalkedOver)
    ensures TalkedOver.device == Listening && TalkedOver.utterances == 1
    ensures !TalkedOver.flags.speaking && TalkedOver.flags.recognizing
  {
    CooledRunEnds();
    StartAfterCooldown();
    RunExtend("jarvis", Init(true), CooledRun, CooledDown, RecognizerStart, TalkedOver);
  }

  lemma SpokenRunEnds()
    ensures Run("jarvis", Init(true), SpokenRun) == Some(SpokenEarly)
  {
    ReplyPendingInCooldown();
    UtteranceEndsInCooldown();
    RunExtend("jarvis", Init(true), ReplyRun, ReplySpoken, UtteranceEnd, SpokenEarly);
  }

  lemma EarlyRestartRunEnds()
    ensures Run("jarvis", Init(true), EarlyRestartRun) == Some(RestartInCooldown)
  {
    SpokenRunEnds();
    RestartInsideCooldown();
    RunExtend("jarvis", Init(true), SpokenRun, SpokenEarly, TimerFired(Restart), RestartInCooldown);
  }

  /**
   * The mirror case: the reply ends inside the cool-down, its 500 ms restart
   * starts the recognizer, and the recognizer listens while the 5000 ms
   * cool-down is still pending.
   */
  lemma UtteranceEndCutsCooldown()
    ensures Run("jarvis", Init(true), CutShortRun) == Some(ListeningInCooldown)
    ensures ListeningInCooldown.device == Listening && Cooldown in ListeningInCooldown.timers
  {
    EarlyRestartRunEnds();
    StartInsideCooldown();
    RunExtend("jarvis", Init(true), EarlyRestartRun, RestartInCooldown, RecognizerStart, ListeningInCooldown);
  }

  /**
   * What the device assumption of the Browser model excludes: were `onstart`
   * delivered after `speak` had stopped a starting recognizer, the page would
   * hold `speaking` and `recognizing` at once.
   */
  lemma LateStartWhileSpeaking(name: string)
    ensures var r := Step(name, Idle.(speaking := true), RecognizerStart);
            r.flags.speaking && r.flags.recognizing && r.effects == []
  {
  }

  // Worlds along the run in which permission is denied while a command is
  // being resolved: the reply is still spoken, and its end restarts the
  // recognizer on the page the error had marked unmounted.
  const DeniedFlags: Flags := Idle.(mounted := false)
  const DeniedWhileResolving: World := World(DeniedFlags, Closing, multiset{}, 1, 0, false)
  const DeniedEnded: World := World(DeniedFlags, Off, multiset{}, 1, 0, false)
  const DeniedReplySpoken: World := World(DeniedFlags.(speaking := true), Off, multiset{}, 0, 1, false)
  const DeniedSpoken: World := World(DeniedFlags, Off, multiset{Restart}, 0, 0, false)
  const DeniedRestarting: World := World(DeniedFlags, Starting, multiset{}, 0, 0, false)
  const DeniedListening: World := World(DeniedFlags.(recognizing := true), Listening, multiset{}, 0, 0, false)

  const DeniedRun: seq<Event> := RestartRun + [RecognizerError("not-allowed")]
  const DeniedEndRun: seq<Event> := DeniedRun + [RecognizerEnd]
  const DeniedReplyRun: seq<Event> := DeniedEndRun + [Reply]
  const DeniedSpokenRun: seq<Event> := DeniedReplyRun + [UtteranceEnd]
  const DeniedRestartRun: seq<Event> := DeniedSpokenRun + [TimerFired(Restart)]
  const DeniedRelistenRun: seq<Event> := DeniedRestartRun + [RecognizerStart]

  lemma DeniedWhileStarting()
    ensures Deliver("jarvis", HeardRestarting, RecognizerError("not-allowed")) == Some(DeniedWhileResolving)
  {
    assert Step("jarvis", Idle, RecognizerError("not-allowed")) == Outcome(DeniedFlags, [Alert(FatalNotice)]);
    ApplySingle(DeniedWhileResolving, Alert(FatalNotice));
  }

  lemma EndAfterDenial()
    ensures Deliver("jarvis", DeniedWhileResolving, RecognizerEnd) == Some(DeniedEnded)
  {
    assert Step("jarvis", DeniedFlags, RecognizerEnd) == Outcome(DeniedFlags, []);
  }

  /** The reply after the denial: stop (the recognizer is already off), cancel, speak. */
  lemma ReplyAfterDenial()
    ensures Deliver("jarvis", DeniedEnded, Reply) == Some(DeniedReplySpoken)
  {
    var u := Utterance("ok", HindiLocale, None);
    ReplySteps("jarvis", DeniedFlags);
    DeliverWith("jarvis", DeniedEnded, Reply, Outcome(DeniedReplySpoken.flags, [StopDevice, CancelSpeech, Speak(u)]));
    SpeakWhileOff(DeniedReplySpoken.(utterances := 0), u);
  }

  lemma UtteranceEndAfterDenial()
    ensures Deliver("jarvis", DeniedReplySpoken, UtteranceEnd) == Some(DeniedSpoken)
  {
    assert Step("jarvis", DeniedReplySpoken.flags, UtteranceEnd)
        == Outcome(DeniedFlags, [Schedule(RestartDelayMs, Restart)]);
    ApplySingle(DeniedReplySpoken.(utterances := 0, flags := DeniedFlags), Schedule(RestartDelayMs, Restart));
    assert multiset{} + multiset{Restart} == multiset{Restart};
  }

  lemma RestartAfterDenial()
    ensures Deliver("jarvis", DeniedSpoken, TimerFired(Restart)) == Some(DeniedRestarting)
  {
    assert Step("jarvis", DeniedFlags, TimerFired(Restart)) == Outcome(DeniedFlags, [StartDevice]);
    assert multiset{Restart} - multiset{Restart} == multiset{};
    ApplyStart(DeniedSpoken.(timers := multiset{}));
  }

  lemma StartAfterDenial()
    ensures Deliver("jarvis", DeniedRestarting, RecognizerStart) == Some(DeniedListening)
  {
  }

  lemma DeniedRunEnds()
    ensures Run("jarvis", Init(true), DeniedRun) == Some(DeniedWhileResolving)
  {
    RestartRunEnds();
    DeniedWhileStarting();
    RunExtend("jarvis", Init(true), RestartRun, HeardRestarting, RecognizerError("not-allowed"), DeniedWhileResolving);
  }

  lemma DeniedEndRunEnds()
    ensures Run("jarvis", Init(true), DeniedEndRun) == Some(DeniedEnded)
  {
    DeniedRunEnds();
    EndAfterDenial();
    RunExtend("jarvis", Init(true), DeniedRun, DeniedWhileResolving, RecognizerEnd, DeniedEnded);
  }

  lemma DeniedReplyRunEnds()
    ensures Run("jarvis", Init(true), DeniedReplyRun) == Some(DeniedReplySpoken)
  {
    DeniedEndRunEnds();
    ReplyAfterDenial();
    RunExtend("jarvis", Init(true), DeniedEndRun, DeniedEnded, Reply, DeniedReplySpoken);
  }

  lemma DeniedSpokenRunEnds()
    ensures Run("jarvis", Init(true), DeniedSpokenRun) == Some(DeniedSpoken)
  {
    DeniedReplyRunEnds();
    UtteranceEndAfterDenial();
    RunExtend("jarvis", Init(true), DeniedReplyRun, DeniedReplySpoken, UtteranceEnd, DeniedSpoken);
  }

  lemma DeniedRestartRunEnds()
    ensures Run("jarvis", Init(true), DeniedRestartRun) == Some(DeniedRestarting)
  {
    DeniedSpokenRunEnds();
    RestartAfterDenial();
    RunExtend("jarvis", Init(true), DeniedSpokenRun, DeniedSpoken, TimerFired(Restart), DeniedRestarting);
  }

  /**
   * A fatal error does not stop the listen loop. Permission is denied while
   * a command is being resolved: the notice is shown and the page counts as
   * unmounted, yet the reply is spoken, its end schedules a restart without
   * reading `isMounted`, and the restart starts the recognizer, which
   * listens again. From there a second denial shows the notice a second time.
   */
  lemma FatalDoesNotStop()
    ensures Run("jarvis", Init(true), DeniedRelistenRun) == Some(DeniedListening)
    ensures Step("jarvis", HeardRestarting.flags, RecognizerError("not-allowed")).effects == [Alert(FatalNotice)]
    ensures !DeniedListening.flags.mounted && DeniedListening.flags.recognizing && DeniedListening.device == Listening
    ensures Run("jarvis", Init(true), DeniedRestartRun) == Some(DeniedRestarting)
    ensures Enabled(DeniedRestarting, RecognizerError("not-allowed"))
    ensures Step("jarvis", DeniedRestarting.flags, RecognizerError("not-allowed")).effects == [Alert(FatalNotice)]
  {
    DeniedRestartRunEnds();
    StartAfterDenial();
    RunExtend("jarvis", Init(true), DeniedRestartRun, DeniedRestarting, RecognizerStart, DeniedListening);
  }

  /** The world after a second wake word: the recognizer closing again, two resolver calls outstanding. */
  const HeardTwice: World := World(Idle, Closing, multiset{}, 2, 0, false)
  const SecondHeardRun: seq<Event> := RelistenRun + [RecognizerResult([["hey jarvis"]])]

  /**
   * Capture is not suspended while a command is resolved. The abort after
   * the wake word ends the recognizer, its `onend` schedules a restart (no
   * flag blocks it), and the restarted recognizer hears the wake word again:
   * a second resolver call goes out while the first is still outstanding,
   * and either reply may be delivered next.
   */
  lemma SecondCallWhileResolving()
    ensures Run("jarvis", Init(true), SecondHeardRun) == Some(HeardTwice)
    ensures Step("jarvis", HeardListening.flags, RecognizerResult([["hey jarvis"]])).effects
            == [AbortDevice, CallResolver("hey jarvis")]
    ensures HeardTwice.calls == 2 && Enabled(HeardTwice, Reply)
  {
    RelistenRunEnds();
    HeyJarvis();
    HeardDelivery("jarvis", HeardListening, [["hey jarvis"]], "hey jarvis");
    RunExtend("jarvis", Init(true), RelistenRun, HeardListening, RecognizerResult([["hey jarvis"]]), HeardTwice);
  }
}
