/**
 * Which combinations of the four flags a page can reach: exactly those where
 * a page with a recognizer is never speaking and recognizing at once, and a
 * page without one keeps every flag false.
 */
module Reachability {
  import opened Wrappers
  import opened Effects
  import opened Session
  import opened Browser

  predicate Admissible(f: Flags) {
    if f.hasRecognizer then !(f.speaking && f.recognizing)
    else !f.mounted && !f.speaking && !f.recognizing
  }

  /** Some run from the first render ends with these flags. */
  ghost predicate FlagsReachable(name: string, f: Flags) {
    exists supported: bool, es: seq<Event> ::
      Run(name, Init(supported), es).Some? && Run(name, Init(supported), es).value.flags == f
  }

  lemma RunStep(name: string, w: World, e: Event, es: seq<Event>, next: World)
    requires Deliver(name, w, e) == Some(next)
    ensures Run(name, w, [e] + es) == Run(name, next, es)
  {
    assert ([e] + es)[0] == e && ([e] + es)[1..] == es;
  }

  const Mounted: Flags := Flags(true, false, false, true)

  // Worlds along the witness runs.
  const Starting1: World := World(Mounted, Starting, multiset{}, 0, 0, false)
  const Listening1: World := World(Mounted.(recognizing := true), Listening, multiset{}, 0, 0, false)
  const Ended1: World := World(Mounted, Off, multiset{Restart}, 0, 0, false)
  const CleanedOff: World := World(Mounted.(mounted := false), Off, multiset{Restart}, 0, 0, true)
  const Restarting: World := World(Mounted.(mounted := false), Starting, multiset{}, 0, 0, true)
  const ListeningUnmounted: World := World(Mounted.(mounted := false, recognizing := true), Listening, multiset{}, 0, 0, true)
  const CoolingDown: World := World(Mounted.(speaking := true), Closing, multiset{Cooldown}, 0, 0, false)
  const CoolingUnmounted: World := World(Mounted.(mounted := false, speaking := true), Closing, multiset{Cooldown}, 0, 0, true)
  const CleanedAtOnce: World := World(Mounted.(mounted := false), Off, multiset{}, 0, 0, true)

  /** The world right after the first render of a page with a recognizer. */
  lemma InitSupported()
    ensures Init(true) == World(Mounted, Off, multiset{InitialStart}, 0, 0, false)
  {
    var o := Setup(true);
    ApplySingle(World(o.flags, Off, multiset{}, 0, 0, false), o.effects[0]);
    assert o.effects == [o.effects[0]];
  }

  lemma FirstStart(name: string)
    ensures Deliver(name, Init(true), TimerFired(InitialStart)) == Some(Starting1)
  {
    InitSupported();
    assert Step(name, Mounted, TimerFired(InitialStart)).effects == [StartDevice];
    ApplyStart(World(Mounted, Off, multiset{}, 0, 0, false));
  }

  lemma Started(name: string)
    ensures Deliver(name, Starting1, RecognizerStart) == Some(Listening1)
  {
  }

  lemma EndedWhileMounted(name: string)
    ensures Deliver(name, Listening1, RecognizerEnd) == Some(Ended1)
  {
    assert Step(name, Listening1.flags, RecognizerEnd) == Outcome(Mounted, [Schedule(RestartDelayMs, Restart)]);
    ApplySingle(World(Mounted, Off, multiset{}, 0, 0, false), Schedule(RestartDelayMs, Restart));
    assert multiset{} + multiset{Restart} == multiset{Restart};
  }

  lemma CleanupAfterEnd(name: string)
    ensures Deliver(name, Ended1, Cleanup) == Some(CleanedOff)
  {
    assert Step(name, Ended1.flags, Cleanup) == Outcome(CleanedOff.flags, [ClearTimer(InitialStart), AbortDevice]);
    ApplyPair(Ended1.(cleaned := true, flags := CleanedOff.flags), ClearTimer(InitialStart), AbortDevice);
    assert multiset{Restart}[InitialStart := 0] == multiset{Restart};
  }

  lemma RestartFires(name: string)
    ensures Deliver(name, CleanedOff, TimerFired(Restart)) == Some(Restarting)
  {
    assert Step(name, CleanedOff.flags, TimerFired(Restart)) == Outcome(CleanedOff.flags, [StartDevice]);
    assert multiset{Restart} - multiset{Restart} == multiset{};
    ApplyStart(CleanedOff.(timers := multiset{}));
  }

  lemma RestartedUnmounted(name: string)
    ensures Deliver(name, Restarting, RecognizerStart) == Some(ListeningUnmounted)
  {
  }

  lemma NetworkError(name: string)
    ensures Deliver(name, Listening1, RecognizerError("network")) == Some(CoolingDown)
  {
    assert Step(name, Listening1.flags, RecognizerError("network"))
        == Outcome(CoolingDown.flags, [Schedule(CooldownMs, Cooldown)]);
    ApplySingle(Listening1.(device := Closing, flags := CoolingDown.flags), Schedule(CooldownMs, Cooldown));
    assert multiset{} + multiset{Cooldown} == multiset{Cooldown};
  }

  lemma CleanupDuringCooldown(name: string)
    ensures Deliver(name, CoolingDown, Cleanup) == Some(CoolingUnmounted)
  {
    assert Step(name, CoolingDown.flags, Cleanup)
        == Outcome(CoolingUnmounted.flags, [ClearTimer(InitialStart), AbortDevice]);
    ApplyPair(CoolingDown.(cleaned := true, flags := CoolingUnmounted.flags), ClearTimer(InitialStart), AbortDevice);
    assert multiset{Cooldown}[InitialStart := 0] == multiset{Cooldown};
  }

  lemma CleanupAtOnce(name: string)
    ensures Deliver(name, Init(true), Cleanup) == Some(CleanedAtOnce)
  {
    InitSupported();
    assert Step(name, Mounted, Cleanup) == Outcome(CleanedAtOnce.flags, [ClearTimer(InitialStart), AbortDevice]);
    ApplyPair(Init(true).(cleaned := true, flags := CleanedAtOnce.flags), ClearTimer(InitialStart), AbortDevice);
    assert multiset{InitialStart}[InitialStart := 0] == multiset{};
  }

  /**
   * Cleanup clears only the first-start timer: a 500 ms restart scheduled
   * by `onend` before cleanup still fires, and the recognizer listens again
   * on an unmounted page.
   */
  lemma RestartAfterCleanup(name: string)
    ensures Run(name, Init(true), [TimerFired(InitialStart), RecognizerStart, RecognizerEnd, Cleanup,
                                   TimerFired(Restart), RecognizerStart])
            == Some(ListeningUnmounted)
    ensures ListeningUnmounted.cleaned && !ListeningUnmounted.flags.mounted
            && ListeningUnmounted.device == Listening && ListeningUnmounted.flags.recognizing
  {
    FirstStart(name);
    Started(name);
    EndedWhileMounted(name);
    CleanupAfterEnd(name);
    RestartFires(name);
    RestartedUnmounted(name);
    RunStep(name, Restarting, RecognizerStart, [], ListeningUnmounted);
    RunStep(name, CleanedOff, TimerFired(Restart), [RecognizerStart], Restarting);
    RunStep(name, Ended1, Cleanup, [TimerFired(Restart), RecognizerStart], CleanedOff);
    RunStep(name, Listening1, RecognizerEnd, [Cleanup, TimerFired(Restart), RecognizerStart], Ended1);
    RunStep(name, Starting1, RecognizerStart, [RecognizerEnd, Cleanup, TimerFired(Restart), RecognizerStart], Listening1);
    RunStep(name, Init(true), TimerFired(InitialStart),
            [RecognizerStart, RecognizerEnd, Cleanup, TimerFired(Restart), RecognizerStart], Starting1);
  }

  lemma CoolDownRuns(name: string)
    ensures Run(name, Init(true), [TimerFired(InitialStart), RecognizerStart]) == Some(Listening1)
    ensures Run(name, Init(true), [TimerFired(InitialStart), RecognizerStart, RecognizerError("network")])
            == Some(CoolingDown)
    ensures Run(name, Init(true), [TimerFired(InitialStart), RecognizerStart, RecognizerError("network"), Cleanup])
            == Some(CoolingUnmounted)
  {
    FirstStart(name);
    Started(name);
    NetworkError(name);
    CleanupDuringCooldown(name);
    RunStep(name, CoolingDown, Cleanup, [], CoolingUnmounted);
    RunStep(name, Listening1, RecognizerError("network"), [], CoolingDown);
    RunStep(name, Listening1, RecognizerError("network"), [Cleanup], CoolingDown);
    RunStep(name, Starting1, RecognizerStart, [], Listening1);
    RunStep(name, Starting1, RecognizerStart, [RecognizerError("network")], Listening1);
    RunStep(name, Starting1, RecognizerStart, [RecognizerError("network"), Cleanup], Listening1);
    RunStep(name, Init(true), TimerFired(InitialStart), [RecognizerStart], Starting1);
    RunStep(name, Init(true), TimerFired(InitialStart), [RecognizerStart, RecognizerError("network")], Starting1);
    RunStep(name, Init(true), TimerFired(InitialStart),
            [RecognizerStart, RecognizerError("network"), Cleanup], Starting1);
  }

  /** A run from the first render that ends in `w` makes `w`'s flags reachable. */
  lemma Witness(name: string, supported: bool, es: seq<Event>, w: World)
    requires Run(name, Init(supported), es) == Some(w)
    ensures FlagsReachable(name, w.flags)
  {
  }

  lemma Witnesses(name: string)
    ensures FlagsReachable(name, Flags(false, false, false, false))
    ensures FlagsReachable(name, Mounted)
    ensures FlagsReachable(name, Mounted.(recognizing := true))
    ensures FlagsReachable(name, Mounted.(speaking := true))
    ensures FlagsReachable(name, Mounted.(mounted := false))
    ensures FlagsReachable(name, Mounted.(mounted := false, speaking := true))
    ensures FlagsReachable(name, Mounted.(mounted := false, recognizing := true))
  {
    Witness(name, false, [], Init(false));
    InitSupported();
    Witness(name, true, [], Init(true));
    CleanupAtOnce(name);
    RunStep(name, Init(true), Cleanup, [], CleanedAtOnce);
    Witness(name, true, [Cleanup], CleanedAtOnce);
    CoolDownRuns(name);
    Witness(name, true, [TimerFired(InitialStart), RecognizerStart], Listening1);
    Witness(name, true, [TimerFired(InitialStart), RecognizerStart, RecognizerError("network")], CoolingDown);
    Witness(name, true, [TimerFired(InitialStart), RecognizerStart, RecognizerError("network"), Cleanup], CoolingUnmounted);
    RestartAfterCleanup(name);
    Witness(name, true, [TimerFired(InitialStart), RecognizerStart, RecognizerEnd, Cleanup,
                         TimerFired(Restart), RecognizerStart], ListeningUnmounted);
  }

  /** A flag combination is reachable exactly when it is admissible. */
  lemma ReachableFlagsAdmissible(name: string, f: Flags)
    ensures FlagsReachable(name, f) <==> Admissible(f)
  {
    if FlagsReachable(name, f) {
      var supported, es :| Run(name, Init(supported), es).Some? && Run(name, Init(supported), es).value.flags == f;
      ReachableInv(name, Run(name, Init(supported), es).value);
    }
    if Admissible(f) {
      Witnesses(name);
    }
  }
}
