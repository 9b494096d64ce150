/**
 * The browser around the controller, over-approximated: which callback may
 * run next. The recognizer is Off, Starting (start() accepted, `onstart` not
 * yet delivered), Listening, or Closing (stopped, aborted or failed, `onend`
 * not yet delivered). Timers are the pending `setTimeout` callbacks; `calls`
 * counts resolver requests still awaiting a reply; `utterances` counts
 * utterances whose `onend` may still arrive. A run delivers events one at a
 * time, each only when the browser could deliver it, and each handler runs
 * to completion.
 */
module Browser {
  import opened Wrappers
  import opened Effects
  import opened Session
  import JsString
  import WakeWord

  datatype Device = Off | Starting | Listening | Closing

  datatype World = World(
    flags: Flags,
    device: Device,
    timers: multiset<TimerKind>,
    calls: nat,
    utterances: nat,
    cleaned: bool)

  /** What one effect does to the world. A start of a recognizer that is not Off throws, and is swallowed. */
  function ApplyOne(w: World, e: Effect): World {
    match e
    case StartDevice => if w.device == Off then w.(device := Starting) else w
    case StopDevice => if w.device == Off then w else w.(device := Closing)
    case AbortDevice => if w.device == Off then w else w.(device := Closing)
    case Speak(_) => w.(utterances := w.utterances + 1)
    case Schedule(_, timer) => w.(timers := w.timers + multiset{timer})
    case ClearTimer(timer) => w.(timers := w.timers[timer := 0])
    case CallResolver(_) => w.(calls := w.calls + 1)
    case CancelSpeech => w
    case OpenUrl(_) => w
    case Alert(_) => w
  }

  function Apply(w: World, es: seq<Effect>): World
    decreases |es|
  {
    if es == [] then w else Apply(ApplyOne(w, es[0]), es[1..])
  }

  /** The page's first render: the effect body runs once. */
  function Init(supported: bool): World {
    var o := Setup(supported);
    Apply(World(o.flags, Off, multiset{}, 0, 0, false), o.effects)
  }

  /** Whether the browser could deliver `e` now. */
  predicate Enabled(w: World, e: Event) {
    match e
    case RecognizerStart => w.device == Starting
    case RecognizerEnd => w.device != Off
    case RecognizerError(_) => w.device != Off
    case RecognizerResult(_) => w.device == Listening || w.device == Closing
    case ResolverReply(_, _) => w.calls > 0
    case UtteranceEnd => w.utterances > 0
    case TimerFired(timer) => timer in w.timers
    case Cleanup => w.flags.hasRecognizer && !w.cleaned
  }

  /** The world once the event has been taken off its queue, before the handler runs. */
  function Consume(w: World, e: Event): World
    requires Enabled(w, e)
  {
    match e
    case RecognizerStart => w.(device := Listening)
    case RecognizerEnd => w.(device := Off)
    case RecognizerError(_) => w.(device := Closing)
    case RecognizerResult(_) => w
    case ResolverReply(_, _) => w.(calls := w.calls - 1)
    case UtteranceEnd => w.(utterances := w.utterances - 1)
    case TimerFired(timer) => w.(timers := w.timers - multiset{timer})
    case Cleanup => w.(cleaned := true)
  }

  /** Delivers one event: consume it, run its handler, carry out the handler's effects in order. */
  function Deliver(name: string, w: World, e: Event): Option<World> {
    if !Enabled(w, e) then None
    else
      var o := Step(name, w.flags, e);
      Some(Apply(Consume(w, e).(flags := o.flags), o.effects))
  }

  /** Delivers a sequence of events; `None` when one of them could not have been delivered. */
  function Run(name: string, w: World, es: seq<Event>): Option<World>
    decreases |es|
  {
    if es == [] then Some(w)
    else
      match Deliver(name, w, es[0])
      case None => None
      case Some(next) => Run(name, next, es[1..])
  }

  /** The world a page reaches from its first render by some run. */
  ghost predicate Reachable(name: string, w: World) {
    exists supported: bool, es: seq<Event> :: Run(name, Init(supported), es) == Some(w)
  }

  /** The world without a recognizer: nothing was installed and nothing can happen. */
  const Inert: World := World(Flags(false, false, false, false), Off, multiset{}, 0, 0, false)

  /** What holds of every reachable world. */
  ghost predicate Inv(w: World) {
    && (w.device != Off ==> w.flags.hasRecognizer)
    && (w.flags.recognizing <==> w.device == Listening)
    && (w.flags.speaking ==> w.device == Off || w.device == Closing)
    && (!w.flags.hasRecognizer ==> w == Inert)
    && (w.cleaned ==> !w.flags.mounted && w.timers[InitialStart] == 0)
  }

  /** Summary of `Apply`: flags untouched; the recognizer only moves as the start, stop and abort requests say. */
  lemma ApplyFacts(w: World, es: seq<Effect>)
    ensures Apply(w, es).flags == w.flags && Apply(w, es).cleaned == w.cleaned
    ensures Absent(es, TStart) && Absent(es, TStop) && Absent(es, TAbort) ==> Apply(w, es).device == w.device
    ensures Absent(es, TStart) ==>
              Apply(w, es).device == w.device || (w.device != Off && Apply(w, es).device == Closing)
    ensures Absent(es, TStart) && !(Absent(es, TStop) && Absent(es, TAbort)) ==>
              Apply(w, es).device == (if w.device == Off then Off else Closing)
    ensures (forall d :: Schedule(d, InitialStart) !in es) && w.timers[InitialStart] == 0 ==>
              Apply(w, es).timers[InitialStart] == 0
  {
    ApplyKeepsFlags(w, es);
    if Absent(es, TStart) {
      ApplyMovesDevice(w, es);
    }
    if forall d :: Schedule(d, InitialStart) !in es {
      ApplyKeepsFirstStart(w, es);
    }
  }

  /** Effects never touch the flags or the cleaned mark. */
  lemma {:induction false} ApplyKeepsFlags(w: World, es: seq<Effect>)
    ensures Apply(w, es).flags == w.flags && Apply(w, es).cleaned == w.cleaned
    decreases |es|
  {
    if es != [] {
      ApplyKeepsFlags(ApplyOne(w, es[0]), es[1..]);
    }
  }

  /** Without a start request, the recognizer stays put, or moves to Closing exactly when a stop or abort is asked. */
  lemma {:induction false} ApplyMovesDevice(w: World, es: seq<Effect>)
    requires Absent(es, TStart)
    ensures Absent(es, TStop) && Absent(es, TAbort) ==> Apply(w, es).device == w.device
    ensures !(Absent(es, TStop) && Absent(es, TAbort)) ==>
              Apply(w, es).device == (if w.device == Off then Off else Closing)
    decreases |es|
  {
    if es != [] {
      var w1 := ApplyOne(w, es[0]);
      assert forall i :: 1 <= i < |es| ==> es[1..][i - 1] == es[i];
      ApplyMovesDevice(w1, es[1..]);
      if es[0] != StopDevice && es[0] != AbortDevice && !(Absent(es, TStop) && Absent(es, TAbort)) {
        assert !(Absent(es[1..], TStop) && Absent(es[1..], TAbort));
      }
    }
  }

  /** Without a request to schedule it, no first-start timer appears. */
  lemma {:induction false} ApplyKeepsFirstStart(w: World, es: seq<Effect>)
    requires forall d :: Schedule(d, InitialStart) !in es
    ensures w.timers[InitialStart] == 0 ==> Apply(w, es).timers[InitialStart] == 0
    decreases |es|
  {
    if es != [] {
      assert forall d :: Schedule(d, InitialStart) !in es[1..];
      ApplyKeepsFirstStart(ApplyOne(w, es[0]), es[1..]);
    }
  }

  /** Delivery once the handler's outcome is known. */
  lemma DeliverWith(name: string, w: World, e: Event, o: Outcome)
    requires Enabled(w, e) && Step(name, w.flags, e) == o
    ensures Deliver(name, w, e) == Some(Apply(Consume(w, e).(flags := o.flags), o.effects))
  {
  }

  lemma ApplySingle(w: World, e: Effect)
    ensures Apply(w, [e]) == ApplyOne(w, e)
  {
    assert [e][1..] == [];
  }

  lemma ApplyPair(w: World, e1: Effect, e2: Effect)
    ensures Apply(w, [e1, e2]) == ApplyOne(ApplyOne(w, e1), e2)
  {
    assert [e1, e2][1..] == [e2];
    ApplySingle(ApplyOne(w, e1), e2);
  }

  lemma ApplyTriple(w: World, e1: Effect, e2: Effect, e3: Effect)
    ensures Apply(w, [e1, e2, e3]) == ApplyOne(ApplyOne(ApplyOne(w, e1), e2), e3)
  {
    assert [e1, e2, e3][1..] == [e2, e3];
    ApplyPair(ApplyOne(w, e1), e2, e3);
  }

  lemma ApplyStart(w: World)
    ensures Apply(w, [StartDevice]) == if w.device == Off then w.(device := Starting) else w
  {
    assert [StartDevice][1..] == [];
  }

  /** The handler's result, applied: the shape every per-event case below works with. */
  lemma AfterStep(name: string, w: World, e: Event)
    requires Inv(w) && Enabled(w, e)
    ensures var o := Step(name, w.flags, e);
            var c := Consume(w, e).(flags := o.flags);
            && Deliver(name, w, e) == Some(Apply(c, o.effects))
            && Apply(c, o.effects).flags == o.flags
            && Apply(c, o.effects).cleaned == c.cleaned
            && (Absent(o.effects, TStart) ==>
                  Apply(c, o.effects).device == c.device || (c.device != Off && Apply(c, o.effects).device == Closing))
            && (Absent(o.effects, TStart) && !(Absent(o.effects, TStop) && Absent(o.effects, TAbort)) ==>
                  Apply(c, o.effects).device == (if c.device == Off then Off else Closing))
            && (Absent(o.effects, TStart) && Absent(o.effects, TStop) && Absent(o.effects, TAbort) ==>
                  Apply(c, o.effects).device == c.device)
            && ((forall d :: Schedule(d, InitialStart) !in o.effects) && c.timers[InitialStart] == 0 ==>
                  Apply(c, o.effects).timers[InitialStart] == 0)
  {
    var o := Step(name, w.flags, e);
    ApplyFacts(Consume(w, e).(flags := o.flags), o.effects);
  }

  lemma DeliverTimer(name: string, w: World, timer: TimerKind)
    requires Inv(w) && Enabled(w, TimerFired(timer))
    ensures Inv(Deliver(name, w, TimerFired(timer)).value)
  {
    var e := TimerFired(timer);
    var o := Step(name, w.flags, e);
    var c := Consume(w, e).(flags := o.flags);
    AfterStep(name, w, e);
    if o.effects == [StartDevice] {
      ApplyStart(c);
    } else {
      assert o.effects == [];
    }
  }

  lemma DeliverRecognizer(name: string, w: World, e: Event)
    requires Inv(w) && Enabled(w, e)
    requires e.RecognizerStart? || e.RecognizerEnd? || e.RecognizerError?
    ensures Inv(Deliver(name, w, e).value)
  {
    var o := Step(name, w.flags, e);
    AfterStep(name, w, e);
    assert Absent(o.effects, TStart) && Absent(o.effects, TStop) && Absent(o.effects, TAbort);
    assert forall d :: Schedule(d, InitialStart) !in o.effects;
  }

  lemma DeliverResult(name: string, w: World, results: seq<seq<string>>)
    requires Inv(w) && Enabled(w, RecognizerResult(results))
    ensures Inv(Deliver(name, w, RecognizerResult(results)).value)
  {
    var e := RecognizerResult(results);
    var o := Step(name, w.flags, e);
    assert o == OnResult(name, w.flags, results);
    if o.effects == [] {
      assert Deliver(name, w, e) == Some(w);
    } else {
      var t := JsString.Trim(WakeWord.LastTranscript(results).value);
      assert o == Outcome(w.flags.(recognizing := false), [AbortDevice, CallResolver(t)]);
      ApplyPair(w.(flags := o.flags), AbortDevice, CallResolver(t));
      assert Deliver(name, w, e).value
          == w.(flags := o.flags, device := Closing, calls := w.calls + 1);
    }
  }

  lemma DeliverReply(name: string, w: World, reply: Option<Dispatch.Command>, voices: seq<Speech.Voice>)
    requires Inv(w) && Enabled(w, ResolverReply(reply, voices))
    ensures Inv(Deliver(name, w, ResolverReply(reply, voices)).value)
  {
    var e := ResolverReply(reply, voices);
    var o := Step(name, w.flags, e);
    assert o == OnReply(w.flags, reply, voices);
    AfterStep(name, w, e);
    match reply
    case None =>
      assert o == Outcome(w.flags, []);
    case Some(cmd) =>
      assert o == HandleCommand(w.flags, cmd, voices);
      ReplyEffects(w.flags, cmd, voices);
  }

  lemma ReplyEffects(s: Flags, cmd: Dispatch.Command, voices: seq<Speech.Voice>)
    requires s.hasRecognizer
    ensures var o := HandleCommand(s, cmd, voices);
            && Absent(o.effects, TStart)
            && !(Absent(o.effects, TStop) && Absent(o.effects, TAbort))
            && (forall d :: Schedule(d, InitialStart) !in o.effects)
            && o.flags.speaking && !o.flags.recognizing
            && o.flags.mounted == s.mounted && o.flags.hasRecognizer
  {
    var o := HandleCommand(s, cmd, voices);
    StoppingEffects(o.effects);
  }

  /** Effects that begin with a stop and neither start nor schedule. */
  lemma StoppingEffects(es: seq<Effect>)
    requires Absent(es, TStart) && Absent(es, TSchedule)
    requires |es| > 0 && es[0] == StopDevice
    ensures !(Absent(es, TStop) && Absent(es, TAbort))
    ensures forall d :: Schedule(d, InitialStart) !in es
  {
    assert es[0].Kind() == TStop;
    forall d ensures Schedule(d, InitialStart) !in es {
      AbsentNotIn(es, Schedule(d, InitialStart));
    }
  }

  lemma DeliverOther(name: string, w: World, e: Event)
    requires Inv(w) && Enabled(w, e)
    requires e.UtteranceEnd? || e.Cleanup?
    ensures Inv(Deliver(name, w, e).value)
  {
    var o := Step(name, w.flags, e);
    var c := Consume(w, e).(flags := o.flags);
    AfterStep(name, w, e);
    assert Absent(o.effects, TStart);
    if e.Cleanup? {
      var abort := if w.flags.hasRecognizer then [AbortDevice] else [];
      assert o.effects == [ClearTimer(InitialStart)] + abort;
      assert Apply(c, o.effects).timers[InitialStart] == 0 by {
        var c1 := ApplyOne(c, ClearTimer(InitialStart));
        assert o.effects[1..] == abort;
        ApplyFacts(c1, abort);
      }
    }
  }

  /** Every delivered event keeps the invariant. */
  lemma DeliverKeepsInv(name: string, w: World, e: Event)
    requires Inv(w) && Enabled(w, e)
    ensures Inv(Deliver(name, w, e).value)
  {
    match e
    case TimerFired(timer) => DeliverTimer(name, w, timer);
    case ResolverReply(reply, voices) => DeliverReply(name, w, reply, voices);
    case UtteranceEnd => DeliverOther(name, w, e);
    case Cleanup => DeliverOther(name, w, e);
    case RecognizerResult(results) => DeliverResult(name, w, results);
    case _ => DeliverRecognizer(name, w, e);
  }

  lemma InitInv(supported: bool)
    ensures Inv(Init(supported))
  {
    var o := Setup(supported);
    ApplyFacts(World(o.flags, Off, multiset{}, 0, 0, false), o.effects);
    if supported {
      assert o.effects == [Schedule(InitialDelayMs, InitialStart)];
      assert o.effects[1..] == [];
    }
  }

  lemma {:induction false} RunKeepsInv(name: string, w: World, es: seq<Event>)
    requires Inv(w) && Run(name, w, es).Some?
    ensures Inv(Run(name, w, es).value)
    decreases |es|
  {
    if es != [] {
      DeliverKeepsInv(name, w, es[0]);
      RunKeepsInv(name, Deliver(name, w, es[0]).value, es[1..]);
    }
  }

  /** Every reachable world satisfies the invariant. */
  lemma ReachableInv(name: string, w: World)
    requires Reachable(name, w)
    ensures Inv(w)
  {
    var supported, es :| Run(name, Init(supported), es) == Some(w);
    InitInv(supported);
    RunKeepsInv(name, Init(supported), es);
  }

  /**
   * A fact about the `speaking` flag, not about the synthesizer: in every
   * reachable world, while the flag is set the recognizer is neither starting
   * nor listening, and `speaking` and `recognizing` are never both set. An
   * utterance can still be playing after the flag was cleared by the network
   * cool-down; see `Scenarios.CooldownTalksOver`.
   */
  lemma NeverListensWhileSpeaking(name: string, w: World)
    requires Reachable(name, w)
    ensures w.flags.speaking ==> w.device != Starting && w.device != Listening
    ensures !(w.flags.speaking && w.flags.recognizing)
  {
    ReachableInv(name, w);
  }

  /** Once unmounted (by a fatal error or by cleanup), a page stays unmounted for the rest of any run. */
  lemma {:induction false} UnmountedStaysUnmounted(name: string, w: World, es: seq<Event>)
    requires !w.flags.mounted && Run(name, w, es).Some?
    ensures !Run(name, w, es).value.flags.mounted
    decreases |es|
  {
    if es != [] {
      var o := Step(name, w.flags, es[0]);
      ApplyFacts(Consume(w, es[0]).(flags := o.flags), o.effects);
      UnmountedStaysUnmounted(name, Deliver(name, w, es[0]).value, es[1..]);
    }
  }
}
