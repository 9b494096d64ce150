# Voice session controller: a Dafny model

This project models the voice-session control logic of the assistant's Home
page (`frontend/src/pages/Home.jsx`). That logic is a small event-driven
controller. It owns a speech recognizer (the capture device) and the speech
synthesizer (the output device), and it keeps four booleans:

- `isMounted`: set when the effect installs the recognizer; cleared by the
  effect's cleanup and also by a fatal recognizer error, while the instance
  is still live. Only the recognizer's `onend` and the end of the cool-down
  read it;
- `isSpeakingRef`: set when `speak` starts an utterance and when a network
  error starts the cool-down; cleared by the utterance's end and by the end
  of the cool-down, whichever comes first, so it does not track whether an
  utterance is playing;
- `isRecognizingRef`: the recognizer has reported `onstart`;
- whether `recognitionRef` holds a recognizer at all.

Every browser callback runs to completion on JavaScript's one thread. So a
handler run is modelled as one pure function,
`Session.Step(name, flags, event)`. It returns the new flags and the ordered
list of requests the handler made: start, stop or abort the recognizer;
cancel or speak; open a URL; alert; schedule or clear a timer; call the
resolver. `name` is the assistant name that the effect captured when it was
set up.

The modules follow the page's structure:

- `JsString`: `trim`, ASCII `toLowerCase`, and `includes`.
- `WakeWord`: the `onresult` transcript extraction and the wake-word test.
- `UriComponent`: `encodeURIComponent`, with a decoder as its partner.
- `Speech`: voices, utterances, and the first hi-IN voice.
- `Effects`: the request list and the counting/ordering predicates over it.
- `Recovery`: the error classification in `onerror`.
- `Dispatch`: `handleCommand`'s URL opening.
- `Session`: the flags, the handlers and `Step`.
- `SessionLaws`: laws that relate handler runs.
- `Browser`: an over-approximating model of which callback the browser may
  deliver next. It carries an invariant proved for every reachable world.
- `Reachability`: exactly which flag combinations can occur.
- `Scenarios`: concrete walks through the handlers.

`Browser` rests on one assumption about the recognizer: once `stop()` or
`abort()` has been requested, `onstart` is not delivered. `onresult` (after
`stop()`), `onerror` and `onend` may still arrive.

## Behaviour of the code

The model follows the code. Consequences of the code worth knowing, each
with the member that proves it where there is one:

- The state is four independent booleans, not a single phase.
  `Reachability.ReachableFlagsAdmissible` shows which combinations occur:
  all are false when there is no recognizer, and `speaking` never holds
  together with `recognizing` (under the recognizer assumption above).
- Cleanup clears only the first-start timer (`Home.jsx` line 220). A 500 ms
  restart that `onend` scheduled before cleanup still starts the recognizer
  on an unmounted page. See `Reachability.RestartAfterCleanup`.
- A resolver reply that arrives after cleanup is still spoken, and its link
  is still opened. See `Scenarios.ReplyAfterCleanup` and
  `Scenarios.ReplyIgnoresMounted`.
- When the resolver fails, `getGeminiResponse` yields `undefined` and the
  destructuring in `handleCommand` throws, so the reply does nothing at all.
  Listening resumes only because the abort's own `onend` already scheduled a
  restart. See `Scenarios.FailedReplyDoesNothing`.
- Transcripts are not checked for `isFinal`. The code relies on
  `interimResults = false` instead.
- The network cool-down and speech share the `speaking` flag, and either one
  clears it. So the recognizer can listen while the page talks. A reply
  spoken during the cool-down is still playing when the cool-down clears the
  flag and restarts the recognizer (`Home.jsx` lines 176-178). See
  `Scenarios.CooldownTalksOver`.
- The same sharing cuts the back-off short. A reply that ends inside the
  cool-down clears the flag, and its 500 ms restart starts the recognizer
  while the 5000 ms cool-down is still pending (`Home.jsx` lines 73-79). See
  `Scenarios.UtteranceEndCutsCooldown`.
- Capture is not suspended while a command is resolved. The abort after a
  wake word (line 196) ends the recognizer, and its `onend` schedules a
  restart, because neither `speaking` nor `isMounted` blocks it (lines
  145-149). So the recognizer listens during `await getGeminiResponse` (line
  200), and a second wake word sends a second request while the first is
  still outstanding. Both replies are then handled: each is spoken, the
  second `cancel()` cuts the first short, and each opens its link. See
  `Scenarios.SecondCallWhileResolving`.
- A fatal error does not stop the listen loop. It clears `isMounted` (line
  167), but the restart that an utterance's end schedules does not read
  `isMounted` (lines 73-79), and neither does `startRecognition`. So a reply
  still in flight is spoken, its end restarts the recognizer, and a second
  `not-allowed` alerts a second time, because `onerror` does not read
  `isMounted` either. Cleanup does not stop restarts that come through speech
  for the same reason (`Scenarios.ReplyAfterCleanup`). See
  `Scenarios.FatalDoesNotStop`.

## Model

| member | source | states |
|---|---|---|
| `JsString.Trim` | frontend/src/pages/Home.jsx:185 | the trimmed transcript is a slice of the original; everything cut from either end is ECMAScript whitespace; the result neither starts nor ends with whitespace |
| `JsString.Contains` | frontend/src/pages/Home.jsx:189 | `includes` holds exactly when the pattern occurs at some index of the string |
| `JsString.TrimIdempotent` | frontend/src/pages/Home.jsx:185 | trimming an already trimmed transcript changes nothing |
| `JsString.Lower` | frontend/src/pages/Home.jsx:189 | lower-casing keeps the length, turns each ASCII capital into its small letter, keeps every other character, and leaves no ASCII capital |
| `JsString.LowerIdempotent` | frontend/src/pages/Home.jsx:189 | lower-casing an already lower-cased string changes nothing |
| `WakeWord.LastTranscript` | frontend/src/pages/Home.jsx:185 | a transcript is produced exactly when there is a last result with at least one alternative, and it is one of that result's alternatives |
| `WakeWord.HeardIff` | frontend/src/pages/Home.jsx:188-190 | the wake-word test holds exactly when some stretch of the transcript spells the assistant name, ignoring ASCII case |
| `WakeWord.HeardIgnoresCase` | frontend/src/pages/Home.jsx:189 | lower-casing the transcript or the name beforehand does not change the test |
| `WakeWord.HeardExamples` | frontend/src/pages/Home.jsx:188-190 | "HEY Jarvis please" wakes "jarvis", "hey jarv" does not |
| `UriComponent.EncodeUriComponent` | frontend/src/pages/Home.jsx:90 | the encoded query holds only unreserved characters, `%` and upper-case hex digits, and is between one and twelve times the input's length |
| `UriComponent.DecodeEncode` | frontend/src/pages/Home.jsx:107 | decoding the encoded query gives back the user's input, for every string |
| `UriComponent.EncodeUnreserved` | frontend/src/pages/Home.jsx:90 | input made only of unreserved characters goes into the link unchanged |
| `Speech.FirstVoice` | frontend/src/pages/Home.jsx:66-67 | the chosen voice is in the list, has the wanted locale, and no earlier voice has it; none is chosen exactly when no voice has it |
| `Speech.MakeUtterance` | frontend/src/pages/Home.jsx:64-70 | the utterance carries the text, locale hi-IN always, and the first hi-IN voice when there is one, the default voice otherwise |
| `Recovery.Classify` | frontend/src/pages/Home.jsx:157-181 | "no-speech" is ignored, "not-allowed" and "service-not-allowed" are fatal, "network" backs off, each exactly for those strings |
| `Dispatch.OpenEffects` | frontend/src/pages/Home.jsx:89-112 | the six independent tests open at most one page, and only pages |
| `Dispatch.OpenEffectsFollowTable` | frontend/src/pages/Home.jsx:89-112 | the chain of tests opens exactly the destination a kind-to-page table gives, and nothing for an unlisted kind |
| `Dispatch.SearchQueryRecoversInput` | frontend/src/pages/Home.jsx:106-111 | a search link starts with the search page's prefix and its query decodes back to the user's input |
| `Session.Setup` | frontend/src/pages/Home.jsx:115-210 | without a recognizer nothing is installed or scheduled; with one the page is mounted and the first start is scheduled after 1000 ms |
| `Session.StartRecognition` | frontend/src/pages/Home.jsx:35-50 | a device start is requested exactly when a recognizer exists and neither speaking nor recognizing is set; no flag changes either way |
| `Session.SpeakText` | frontend/src/pages/Home.jsx:52-83 | stop (once, only with a recognizer) precedes cancel, which precedes the one speak; afterwards speaking is set and recognizing cleared |
| `Session.HandleCommand` | frontend/src/pages/Home.jsx:85-113 | the one speak carries the utterance built from the response and precedes any link; at most one link is opened, exactly the table's destination; no device start |
| `Session.OnStart` | frontend/src/pages/Home.jsx:132-136 | `onstart` sets recognizing and nothing else |
| `Session.OnEnd` | frontend/src/pages/Home.jsx:138-151 | `onend` clears recognizing and schedules a 500 ms restart exactly when mounted and not speaking |
| `Session.OnError` | frontend/src/pages/Home.jsx:153-182 | `onerror` always clears recognizing; a fatal error unmounts and alerts once; a network error sets speaking and schedules one 5000 ms cool-down; other errors do nothing more |
| `Session.OnResult` | frontend/src/pages/Home.jsx:184-199 | requests are made exactly when the trimmed last transcript names the assistant: abort, then the resolver call with that transcript, recognizing cleared; otherwise no flag changes |
| `Session.OnReply` | frontend/src/pages/Home.jsx:200-204 | an absent reply changes nothing; a reply speaks once, and its speak precedes any link |
| `Session.OnUtteranceEnd` | frontend/src/pages/Home.jsx:73-80 | the utterance's end clears speaking and schedules exactly one 500 ms restart |
| `Session.OnTimer` | frontend/src/pages/Home.jsx:176-179 | the cool-down clears speaking and starts only while mounted; the first start and the restarts go through the start guard |
| `Session.OnCleanup` | frontend/src/pages/Home.jsx:218-226 | cleanup unmounts, clears recognizing, clears the first-start timer, aborts exactly when a recognizer exists, and schedules or starts nothing |
| `Session.Step` | frontend/src/pages/Home.jsx:35-226 | no handler changes whether a recognizer exists or remounts the page; a device start is requested at most once, and only when the guard holds |
| `SessionLaws.CleanupIdempotent` | frontend/src/pages/Home.jsx:218-226 | a second cleanup leaves the same flags and makes the same requests |
| `SessionLaws.NoRestartWhenUnmounted` | frontend/src/pages/Home.jsx:145-150 | after a fatal error or cleanup, the recognizer's `onend` schedules nothing (restarts through speech are not stopped: `Scenarios.FatalDoesNotStop`) |
| `SessionLaws.NoStartWhileSpeaking` | frontend/src/pages/Home.jsx:36-40 | while speaking is set, only the end of the cool-down can request a device start |
| `Browser.ReachableInv` | frontend/src/pages/Home.jsx:35-226 | in every reachable world: recognizing holds exactly while the recognizer listens; speaking means it is off or closing; without a recognizer nothing ever happens; after cleanup the page is unmounted and no first start is pending |
| `Browser.NeverListensWhileSpeaking` | frontend/src/pages/Home.jsx:35-62 | in a reachable world the recognizer never starts or listens while speaking is set, and speaking and recognizing never hold together |
| `Browser.UnmountedStaysUnmounted` | frontend/src/pages/Home.jsx:130-226 | once unmounted, a page stays unmounted for the rest of any run |
| `Reachability.ReachableFlagsAdmissible` | frontend/src/pages/Home.jsx:115-226 | a flag combination is reachable exactly when it is admissible: with a recognizer, not speaking and recognizing at once; without one, all false |
| `Reachability.RestartAfterCleanup` | frontend/src/pages/Home.jsx:218-220 | a restart pending at cleanup still fires and the recognizer listens on an unmounted page |
| `Scenarios.WakeWordHeard` | frontend/src/pages/Home.jsx:188-199 | "turn on jarvis music" aborts the recognizer and sends that transcript to the resolver |
| `Scenarios.YouTubeReply` | frontend/src/pages/Home.jsx:106-111 | a youtube-search reply for "music" stops, cancels, speaks, then opens the video search for "music" |
| `Scenarios.SpeechDoneRestarts` | frontend/src/pages/Home.jsx:73-80 | after speech ends, one 500 ms restart follows, and it starts the recognizer |
| `Scenarios.NetworkCooldown` | frontend/src/pages/Home.jsx:172-180 | a network error blocks the end-event restart; the cool-down end clears speaking and starts the recognizer |
| `Scenarios.CooldownAfterCleanup` | frontend/src/pages/Home.jsx:178 | a cool-down ending after cleanup starts nothing |
| `Scenarios.PermissionDenied` | frontend/src/pages/Home.jsx:165-170 | permission denied alerts once and unmounts; the following end event restarts nothing |
| `Scenarios.FailedReplyDoesNothing` | frontend/src/pages/Home.jsx:86 | an absent reply issues nothing and changes nothing |
| `Scenarios.ReplyIgnoresMounted` | frontend/src/pages/Home.jsx:200-201 | a reply is handled the same, speech included, whether or not the page is still mounted |
| `Scenarios.ReplyAfterCleanup` | frontend/src/pages/Home.jsx:196-201 | a resolver call in flight at cleanup can still be answered, and its reply is spoken |
| `Scenarios.CooldownTalksOver` | frontend/src/pages/Home.jsx:172-180 | a run exists in which a reply is spoken during the network cool-down, the cool-down then restarts the recognizer, and the recognizer listens while that utterance has neither ended nor been cancelled |
| `Scenarios.UtteranceEndCutsCooldown` | frontend/src/pages/Home.jsx:73-80 | a run exists in which a reply ends inside the cool-down, its 500 ms restart starts the recognizer, and the recognizer listens while the cool-down is still pending |
| `Scenarios.LateStartWhileSpeaking` | frontend/src/pages/Home.jsx:132-136 | an `onstart` delivered while speaking is set sets recognizing too, so both flags hold; the Browser model's recognizer assumption is what rules this out |
| `Scenarios.FatalDoesNotStop` | frontend/src/pages/Home.jsx:73-80 | a run exists in which permission is denied while a command is resolved, yet the reply is spoken, its end restarts the recognizer on the page the error unmounted, and the recognizer listens again; just before that start a second denial can arrive, and it alerts a second time |
| `Scenarios.SecondCallWhileResolving` | frontend/src/pages/Home.jsx:145-149 | a run exists in which, while the first command is resolved, the abort's own `onend` restarts the recognizer, a second wake word sends a second resolver call, and two calls are outstanding with a reply deliverable |

## Left out

- Rendering, navigation, the menu and logout (`Home.jsx` lines 22-33 and 229-297) are not modelled. They are presentation, not control.
- React state setters (`setListening`, `setUserText`, `setAiText`) are not modelled. They only feed rendering.
- `frontend/src/context/UserContext.jsx` is not modelled. It is HTTP and React plumbing. The resolver is an outside call: its reply, possibly absent, arrives as an event.
- The effect re-running when `userData` changes is not modelled. The model follows one effect instance from setup to cleanup. The `speaking` and `recognizing` refs, which outlive an instance, are not carried into the next one.
- Time is not modelled. A timer is a pending callback tagged with its kind, and its delay is recorded on the scheduling request. Timers may fire in any order.
- The recognizer and synthesizer are abstract devices. Whether `start()` throws InvalidStateError is decided by the device model (a start of a non-idle recognizer changes nothing), and no flag depends on it.
- `speak`'s `try`/`catch` around `stop()` is not modelled. `stop()` does not throw, so the catch path is not modelled.
- WakeWord.LastTranscript: states only that the transcript is one of the last result's alternatives, not that it is the first, because the first-alternative choice is the body itself.
- JsString.Lower: lower-cases ASCII letters only, because full Unicode case mapping is out of scope.
- The greeting utterance is not modelled. It is built but never spoken (`Home.jsx` lines 212-216).
- `userInput` or `response` being `undefined` is not modelled. Both are strings here, so the `"undefined"` text that JavaScript would put into a link or an utterance does not arise.
- The URIError that `encodeURIComponent` throws on a lone surrogate is not modelled. Dafny strings hold Unicode scalar values, which cannot contain one.
- Browser.ReachableInv: the clauses "recognizing holds exactly while the recognizer listens" and "speaking means it is off or closing" rest on the recognizer assumption that `onstart` is never delivered after `stop()` or `abort()`. The source does not guarantee it: a start confirmation already queued when `speak` stops a starting recognizer would set recognizing while speaking is set (`Scenarios.LateStartWhileSpeaking`).
- Browser.NeverListensWhileSpeaking: holds only under the same recognizer assumption. It is also a statement about the `speaking` flag, not about a playing utterance (`Scenarios.CooldownTalksOver`).
- Reachability.ReachableFlagsAdmissible: the exclusion of speaking together with recognizing rests on the same recognizer assumption. Without it, that combination is reachable as well.
- Cancelled utterances: the model lets any utterance still deliver `onend`. Browsers differ here, so this over-approximates them.
