/** The recognizer-error policy of the `onerror` handler. */
module Recovery {

  /** What `onerror` does beyond clearing the recognizing flag. */
  datatype Policy =
    | Ignore   // "no-speech": return early; the end event restarts
    | Fatal    // "not-allowed", "service-not-allowed": stop for good and alert once
    | Backoff  // "network": block restarts for 5000 ms, then restart
    | Other    // anything else: logged, nothing more

  /** The error-string comparisons of `onerror`, in the order the handler makes them. */
  function Classify(error: string): (p: Policy)
    ensures p == Ignore <==> error == "no-speech"
    ensures p == Fatal <==> error == "not-allowed" || error == "service-not-allowed"
    ensures p == Backoff <==> error == "network"
  {
    if error == "no-speech" then Ignore
    else if error == "not-allowed" || error == "service-not-allowed" then Fatal
    else if error == "network" then Backoff
    else Other
  }
}
