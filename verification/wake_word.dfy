/** The wake-word test of the recognizer's `onresult` handler. */
module WakeWord {
  import opened Wrappers
  import opened JsString

  /**
   * `e.results[e.results.length - 1][0].transcript`: the first alternative of
   * the last result; `None` where the expression would throw a TypeError.
   */
  function LastTranscript(results: seq<seq<string>>): (r: Option<string>)
    ensures r.Some? <==> |results| > 0 && |results[|results| - 1]| > 0
    ensures r.Some? ==> r.value in results[|results| - 1]
  {
    if |results| == 0 || |results[|results| - 1]| == 0 then None
    else Some(results[|results| - 1][0])
  }

  /** `transcript.toLowerCase().includes(assistantName.toLowerCase())`. */
  predicate Heard(transcript: string, name: string) {
    Contains(Lower(transcript), Lower(name))
  }

  /** Some stretch of the transcript spells the name, ignoring ASCII case. */
  ghost predicate SpellsNameAt(transcript: string, name: string, i: int) {
    0 <= i && i + |name| <= |transcript| && Lower(transcript[i..i + |name|]) == Lower(name)
  }

  /** The wake-word test is case-insensitive substring search: both directions. */
  lemma HeardIff(transcript: string, name: string)
    ensures Heard(transcript, name) <==> exists i :: SpellsNameAt(transcript, name, i)
  {
    var t := Lower(transcript);
    var n := Lower(name);
    forall i | OccursAt(t, n, i)
      ensures SpellsNameAt(transcript, name, i)
    {
      LowerSlice(transcript, i, i + |name|);
    }
    forall i | SpellsNameAt(transcript, name, i)
      ensures OccursAt(t, n, i)
    {
      LowerSlice(transcript, i, i + |name|);
    }
  }

  /** Lower-casing either side first does not change the answer. */
  lemma HeardIgnoresCase(transcript: string, name: string)
    ensures Heard(Lower(transcript), name) == Heard(transcript, name)
    ensures Heard(transcript, Lower(name)) == Heard(transcript, name)
  {
    LowerIdempotent(transcript);
    LowerIdempotent(name);
  }

  /** "HEY Jarvis please" wakes an assistant named "jarvis"; "hey jarv" does not. */
  lemma HeardExamples()
    ensures Heard("HEY Jarvis please", "jarvis")
    ensures !Heard("hey jarv", "jarvis")
  {
    var t := "HEY Jarvis please";
    assert Lower(t)[4..10] == "jarvis";
    assert OccursAt(Lower(t), Lower("jarvis"), 4);
    var u := Lower("hey jarv");
    assert u == "hey jarv";
    assert Lower("jarvis") == "jarvis";
    forall i | 0 <= i <= 2
      ensures !OccursAt(u, "jarvis", i)
    {
      assert u[i + 5] != 's';
      assert "jarvis"[5] == 's';
    }
  }
}
