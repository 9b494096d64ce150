/** What one event handler asks of the outside world, in the order it asks. */
module Effects {
  import opened Speech

  /** The three `setTimeout` callbacks of the controller. */
  datatype TimerKind =
    | InitialStart   // the first start, 1000 ms after setup; the only timer cleanup clears
    | Restart        // a 500 ms restart after the recognizer or an utterance ended
    | Cooldown       // the 5000 ms network back-off

  datatype Effect =
    | StartDevice                 // recognition.start()
    | StopDevice                  // recognition.stop()
    | AbortDevice                 // recognition.abort()
    | CancelSpeech                // speechSynthesis.cancel()
    | Speak(utterance: Utterance) // speechSynthesis.speak(utterance)
    | OpenUrl(url: string)        // window.open(url, "_blank")
    | Alert(message: string)      // alert(message)
    | Schedule(delayMs: nat, timer: TimerKind) // setTimeout(callback, delayMs)
    | ClearTimer(timer: TimerKind)             // clearTimeout(handle)
    | CallResolver(transcript: string)         // getGeminiResponse(transcript)
  {
    function Kind(): Tag {
      match this
      case StartDevice => TStart
      case StopDevice => TStop
      case AbortDevice => TAbort
      case CancelSpeech => TCancel
      case Speak(_) => TSpeak
      case OpenUrl(_) => TOpen
      case Alert(_) => TAlert
      case Schedule(_, _) => TSchedule
      case ClearTimer(_) => TClear
      case CallResolver(_) => TResolve
    }
  }

  /** The constructor of an effect, without its arguments. */
  datatype Tag = TStart | TStop | TAbort | TCancel | TSpeak | TOpen | TAlert | TSchedule | TClear | TResolve

  /** How many effects of the list carry tag `t`. */
  function Count(es: seq<Effect>, t: Tag): nat {
    if es == [] then 0
    else (if es[0].Kind() == t then 1 else 0) + Count(es[1..], t)
  }

  /** Every effect tagged `a` comes before every effect tagged `b`. */
  predicate Before(es: seq<Effect>, a: Tag, b: Tag) {
    forall i, j :: 0 <= i < |es| && 0 <= j < |es| && es[i].Kind() == a && es[j].Kind() == b ==> i < j
  }

  /** Nothing in the list carries tag `t`. */
  predicate Absent(es: seq<Effect>, t: Tag) {
    forall i :: 0 <= i < |es| ==> es[i].Kind() != t
  }

  lemma {:induction false} CountAbsent(es: seq<Effect>, t: Tag)
    ensures Count(es, t) == 0 <==> Absent(es, t)
  {
    if es != [] {
      CountAbsent(es[1..], t);
      assert forall i :: 1 <= i < |es| ==> es[i] == es[1..][i - 1];
    }
  }

  lemma {:induction false} CountConcat(a: seq<Effect>, b: seq<Effect>, t: Tag)
    ensures Count(a + b, t) == Count(a, t) + Count(b, t)
  {
    if a == [] {
      assert a + b == b;
    } else {
      assert (a + b)[0] == a[0];
      assert (a + b)[1..] == a[1..] + b;
      CountConcat(a[1..], b, t);
    }
  }

  lemma CountSingle(e: Effect, t: Tag)
    ensures Count([e], t) == if e.Kind() == t then 1 else 0
  {
    assert [e][1..] == [];
  }

  /** Ordering survives concatenation when no `b` of the first part could follow an `a` of the second. */
  lemma BeforeConcat(xs: seq<Effect>, ys: seq<Effect>, a: Tag, b: Tag)
    requires Before(xs, a, b) && Before(ys, a, b)
    requires Absent(xs, b) || Absent(ys, a)
    ensures Before(xs + ys, a, b)
  {
    var zs := xs + ys;
    forall i, j | 0 <= i < |zs| && 0 <= j < |zs| && zs[i].Kind() == a && zs[j].Kind() == b
      ensures i < j
    {
      if i < |xs| && j < |xs| {
        assert xs[i].Kind() == a && xs[j].Kind() == b;
      } else if i >= |xs| && j >= |xs| {
        assert ys[i - |xs|].Kind() == a && ys[j - |xs|].Kind() == b;
      }
    }
  }

  lemma AbsentConcat(xs: seq<Effect>, ys: seq<Effect>, t: Tag)
    ensures Absent(xs + ys, t) <==> Absent(xs, t) && Absent(ys, t)
  {
    if Absent(xs, t) && Absent(ys, t) {
      forall i | 0 <= i < |xs + ys| ensures (xs + ys)[i].Kind() != t {
        if i >= |xs| {
          assert (xs + ys)[i] == ys[i - |xs|];
        }
      }
    }
    if Absent(xs + ys, t) {
      forall i | 0 <= i < |xs| ensures xs[i].Kind() != t {
        assert (xs + ys)[i] == xs[i];
      }
      forall i | 0 <= i < |ys| ensures ys[i].Kind() != t {
        assert (xs + ys)[|xs| + i] == ys[i];
      }
    }
  }

  lemma AbsentNotIn(es: seq<Effect>, e: Effect)
    requires Absent(es, e.Kind())
    ensures e !in es
  {
  }
}
