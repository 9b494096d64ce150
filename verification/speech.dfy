/** The speech-synthesis side: voices, utterances, and the voice `speak` picks. */
module Speech {
  import opened Wrappers

  /** The locale every utterance is given, and the voice locale searched for. */
  const HindiLocale: string := "hi-IN"

  datatype Voice = Voice(name: string, lang: string)

  /** An utterance as handed to the synthesizer; `voice == None` leaves the default voice. */
  datatype Utterance = Utterance(text: string, lang: string, voice: Option<Voice>)

  /**
   * `Array.prototype.find` with the test `v.lang === lang`: the first voice of
   * the list whose locale is `lang`, or none when no voice has it.
   */
  function FirstVoice(voices: seq<Voice>, lang: string): (r: Option<Voice>)
    ensures r.Some? ==> exists i :: 0 <= i < |voices| && voices[i] == r.value
                                 && r.value.lang == lang
                                 && forall k :: 0 <= k < i ==> voices[k].lang != lang
    ensures r.None? <==> forall k :: 0 <= k < |voices| ==> voices[k].lang != lang
  {
    if |voices| == 0 then None
    else if voices[0].lang == lang then Some(voices[0])
    else
      var r := FirstVoice(voices[1..], lang);
      assert r.Some? ==> (exists i :: 0 < i < |voices| && voices[i] == r.value
                                     && forall k :: 0 <= k < i ==> voices[k].lang != lang)
      by {
        if r.Some? {
          var j :| 0 <= j < |voices[1..]| && voices[1..][j] == r.value
                   && forall k :: 0 <= k < j ==> voices[1..][k].lang != lang;
          assert voices[j + 1] == r.value;
        }
      }
      r
  }

  /** The utterance `speak(text)` builds: locale always hi-IN, first hi-IN voice if any. */
  function MakeUtterance(text: string, voices: seq<Voice>): (u: Utterance)
    ensures u.text == text && u.lang == HindiLocale
    ensures u.voice.Some? ==> u.voice.value in voices && u.voice.value.lang == HindiLocale
    ensures u.voice == FirstVoice(voices, HindiLocale)
    ensures u.voice.None? <==> forall k :: 0 <= k < |voices| ==> voices[k].lang != HindiLocale
  {
    Utterance(text, HindiLocale, FirstVoice(voices, HindiLocale))
  }
}
