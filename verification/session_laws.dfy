/** Laws of the controller that relate several handler runs. */
module SessionLaws {
  import opened Effects
  import opened Session

  /** Running cleanup a second time leaves the same flags and issues the same requests. */
  lemma CleanupIdempotent(s: Flags)
    ensures OnCleanup(OnCleanup(s).flags) == OnCleanup(s)
  {
  }

  /**
   * On an unmounted page the recognizer's end event restarts nothing, whatever the
   * other flags say. The restart an utterance's end schedules does not read the
   * flag: see `Scenarios.FatalDoesNotStop`.
   */
  lemma NoRestartWhenUnmounted(name: string, s: Flags)
    requires !s.mounted
    ensures Step(name, s, RecognizerEnd) == Outcome(s.(recognizing := false), [])
  {
  }

  /** Only the end of the network cool-down, which clears `speaking` first, can start the recognizer from a speaking state. */
  lemma NoStartWhileSpeaking(name: string, s: Flags, e: Event)
    requires s.speaking && e != TimerFired(Cooldown)
    ensures StartDevice !in Step(name, s, e).effects
  {
  }
}
