/** `handleCommand`'s link opening: which page a resolved command kind opens. */
module Dispatch {
  import opened Wrappers
  import opened Effects
  import opened UriComponent

  /** The resolver's reply: `{ type, userInput, response }`. */
  datatype Command = Command(kind: string, userInput: string, response: string)

  const GoogleSearch: string := "https://www.google.com/search?q="
  const YouTubeSearch: string := "https://www.youtube.com/results?search_query="
  const CalculatorPage: string := "https://www.google.com/search?q=calculator"
  const InstagramPage: string := "https://www.instagram.com/"
  const FacebookPage: string := "https://www.facebook.com/"
  const WeatherPage: string := "https://www.google.com/search?q=weather"

  /** The `window.open` calls of `handleCommand`: six independent `if` tests, in source order. */
  function OpenEffects(kind: string, input: string): (r: seq<Effect>)
    ensures |r| <= 1
    ensures forall i :: 0 <= i < |r| ==> r[i].OpenUrl?
  {
    (if kind == "google-search" then [OpenUrl(GoogleSearch + EncodeUriComponent(input))] else [])
    + (if kind == "calculator-open" then [OpenUrl(CalculatorPage)] else [])
    + (if kind == "instagram-open" then [OpenUrl(InstagramPage)] else [])
    + (if kind == "facebook-open" then [OpenUrl(FacebookPage)] else [])
    + (if kind == "weather-show" then [OpenUrl(WeatherPage)] else [])
    + (if kind == "youtube-search" || kind == "youtube-play"
       then [OpenUrl(YouTubeSearch + EncodeUriComponent(input))] else [])
  }

  /** The destination of each command kind, as a table; `None` for every kind not listed. */
  function Destination(kind: string, input: string): Option<string> {
    match kind
    case "google-search" => Some(GoogleSearch + EncodeUriComponent(input))
    case "calculator-open" => Some(CalculatorPage)
    case "instagram-open" => Some(InstagramPage)
    case "facebook-open" => Some(FacebookPage)
    case "weather-show" => Some(WeatherPage)
    case "youtube-search" => Some(YouTubeSearch + EncodeUriComponent(input))
    case "youtube-play" => Some(YouTubeSearch + EncodeUriComponent(input))
    case _ => None
  }

  /** The chain of `if`s opens exactly the table's destination, and nothing for an unlisted kind. */
  lemma OpenEffectsFollowTable(kind: string, input: string)
    ensures OpenEffects(kind, input) ==
      match Destination(kind, input)
      case Some(url) => [OpenUrl(url)]
      case None => []
  {
  }

  /** A search link carries the user's words: decoding its query gives them back. */
  lemma SearchQueryRecoversInput(kind: string, input: string)
    requires kind in {"google-search", "youtube-search", "youtube-play"}
    ensures Destination(kind, input).Some?
    ensures var url := Destination(kind, input).value;
            var prefix := if kind == "google-search" then GoogleSearch else YouTubeSearch;
            |prefix| <= |url| && url[..|prefix|] == prefix
            && DecodeUriComponent(url[|prefix|..]) == Some(input)
  {
    var prefix := if kind == "google-search" then GoogleSearch else YouTubeSearch;
    var url := Destination(kind, input).value;
    assert url == prefix + EncodeUriComponent(input);
    assert url[|prefix|..] == EncodeUriComponent(input);
    DecodeEncode(input);
  }
}
