/** The transcribe page's own logic: its id extractor, the choice of the
    transcript shown, the CSV download, and how a transcribe request and its
    response become page state. */
module TranscribePage {
  import opened Wrappers
  import opened JsString
  import opened YouTubeUrl
  import TranscribeUtils
  import Transcript
  import TranscribeRoute

  predicate IsIdChar(c: char)
  {
    ('a' <= c <= 'z') || ('A' <= c <= 'Z') || ('0' <= c <= '9') || c == '_' || c == '-'
  }

  /** `/^[a-zA-Z0-9_-]{10,15}$/`. */
  predicate IsIdToken(s: string)
  {
    10 <= |s| <= 15 && forall i :: 0 <= i < |s| ==> IsIdChar(s[i])
  }

  /** `getYouTubeId`: a 10-15 character id token as it is, else the URL rule. */
  function GetYouTubeId(input: string, parse: UrlParser): (r: Option<string>)
    ensures input == [] ==> r.None?
    ensures IsIdToken(Trim(input)) ==> r == Some(Trim(input))
    ensures !IsIdToken(Trim(input)) && parse(Trim(input)).None? ==> r.None?
    ensures r.Some? ==> r.value != []
  {
    if input == [] then None
    else
      var trimmed := Trim(input);
      if IsIdToken(trimmed) then Some(trimmed)
      else
        match parse(trimmed)
        case None => None
        case Some(u) => IdFromUrl(u)
  }

  /** Anything that is not an id token is decided by the shared URL rule. */
  lemma GetUrlBranch(input: string, parse: UrlParser, u: ParsedUrl)
    requires input != [] && !IsIdToken(Trim(input)) && parse(Trim(input)) == Some(u)
    ensures GetYouTubeId(input, parse) == IdFromUrl(u)
  {
  }

  /** On an id token both extractors return the token. */
  lemma ExtractorsAgreeOnIdTokens(input: string, parse: UrlParser)
    requires IsIdToken(Trim(input))
    ensures GetYouTubeId(input, parse) == Some(Trim(input))
    ensures TranscribeUtils.ParseYouTubeId(input, parse) == Some(Trim(input))
  {
    var t := Trim(input);
    assert TranscribeUtils.LooksBare(t) by {
      assert forall i :: 0 <= i < |t| ==> t[i] != '/' && t[i] != '?' && t[i] != ' ' by {
        forall i | 0 <= i < |t| ensures t[i] != '/' && t[i] != '?' && t[i] != ' ' {
          assert IsIdChar(t[i]);
        }
      }
    }
  }

  /** On input whose trimmed form has a slash, a question mark or a space
      the two extractors agree for every URL parser: they differ only on
      bare tokens. */
  lemma ExtractorsAgreeOnUrls(input: string, parse: UrlParser)
    requires !TranscribeUtils.LooksBare(Trim(input))
    ensures GetYouTubeId(input, parse) == TranscribeUtils.ParseYouTubeId(input, parse)
  {
    var t := Trim(input);
    var c := if '/' in t then '/' else if '?' in t then '?' else ' ';
    assert c in t;
    var i :| 0 <= i < |t| && t[i] == c;
    assert !IsIdChar(t[i]);
  }

  /** The bare-token rules differ: a token of ten or more code units with no
      slash, question mark or space but outside the id pattern (longer than
      15 characters, or with a character such as '.') is an id to
      `parseYouTubeId`, while `getYouTubeId` hands it to the URL parser and
      gives null when that fails. */
  lemma ExtractorsDisagreeOnLooseTokens(input: string, parse: UrlParser)
    requires TranscribeUtils.LooksBare(Trim(input)) && Utf16Length(Trim(input)) >= 10
    requires !IsIdToken(Trim(input)) && parse(Trim(input)).None?
    ensures TranscribeUtils.ParseYouTubeId(input, parse) == Some(Trim(input))
    ensures GetYouTubeId(input, parse) == None
  {
  }

  /** `getActiveTranscript`: the translation when it is switched on and not
      empty, the original transcript otherwise. */
  function ActiveTranscript(translateOn: bool, translated: string, transcript: string): (r: string)
    ensures translateOn && translated != [] ==> r == translated
    ensures !(translateOn && translated != []) ==> r == transcript
    ensures r == [] ==> transcript == []
  {
    if translateOn && translated != [] then translated else transcript
  }

  /** The text `downloadCSV` saves: the active transcript through `toCSV`
      (the page repeats `toCSV` inline; it is the same code). It reads back
      as the transcript that was shown. */
  function CsvDownload(translateOn: bool, translated: string, transcript: string): (r: string)
    ensures Split(r, '\n') == TranscribeUtils.QuoteLines(Split(ActiveTranscript(translateOn, translated, transcript), '\n'))
    ensures TranscribeUtils.FromCsv(r) == Some(ActiveTranscript(translateOn, translated, transcript))
  {
    var shown := ActiveTranscript(translateOn, translated, transcript);
    TranscribeUtils.CsvRoundTrip(shown);
    TranscribeUtils.ToCsv(shown)
  }

  // ---------------------------------------------------------------------
  // handleTranscribe

  /** The page state `handleTranscribe` writes. */
  datatype PageState = PageState(videoId: Option<string>, transcript: string, language: string, reason: string, busy: bool)

  /** The decoded JSON of `/api/transcribe`'s answer; absent fields are None. */
  datatype ApiData = ApiData(transcript: Option<string>, language: Option<string>, reason: Option<string>)

  /** What `fetch` and `res.json()` give: a network or decoding failure, a
      JSON `null`, or an object. */
  datatype ApiReply = RequestFailed | NullData | Data(data: ApiData)

  /** The transcribe endpoint as the page sees it, per video id. */
  type Server = string -> ApiReply

  const NotAvailable: string := "\U{26A0}\U{FE0F} Transcript not available."
  const FetchFailed: string := "\U{274C} Failed to fetch transcript (server error)."

  predicate Truthy(s: Option<string>)
  {
    s.Some? && s.value != []
  }

  /** `s || fallback` on an optional string. */
  function OrElse(s: Option<string>, fallback: string): (r: string)
    ensures Truthy(s) ==> r == s.value
    ensures !Truthy(s) ==> r == fallback
  {
    if Truthy(s) then s.value else fallback
  }

  /** The state after `handleTranscribe` (the title fetch and the alert are
      left out). With no id it stops before any request; otherwise it asks
      the endpoint and writes transcript, language and reason from its answer.
      A JSON null makes `data.reason` throw, which lands in the catch block. */
  function HandleTranscribe(st: PageState, videoUrl: string, parse: UrlParser, server: Server): (r: PageState)
    ensures r.videoId == GetYouTubeId(videoUrl, parse)
    ensures r.videoId.None? ==> r == st.(videoId := None, transcript := [], reason := [])
    ensures r.videoId.Some? ==> !r.busy
    ensures r.transcript != [] ==>
      r.videoId.Some? && server(r.videoId.value).Data? &&
      server(r.videoId.value).data.transcript == Some(r.transcript)
    ensures r.videoId.Some? && r.transcript == [] ==> r.language == Transcript.Unknown
    ensures r.videoId.Some? && r.transcript != [] ==>
      r.language == OrElse(server(r.videoId.value).data.language, Transcript.Unknown) &&
      r.reason == OrElse(server(r.videoId.value).data.reason, "Success")
    ensures r.videoId.Some? && !server(r.videoId.value).Data? ==> r.reason == FetchFailed
    // A decoded answer: its transcript when truthy, with the `||` defaults.
    ensures r.videoId.Some? && server(r.videoId.value).Data? ==>
      var data := server(r.videoId.value).data;
      r.transcript == (if Truthy(data.transcript) then data.transcript.value else []) &&
      r.language == (if Truthy(data.transcript) then OrElse(data.language, Transcript.Unknown) else Transcript.Unknown) &&
      r.reason == (if Truthy(data.transcript) then OrElse(data.reason, "Success") else OrElse(data.reason, NotAvailable))
  {
    var id := GetYouTubeId(videoUrl, parse);
    if id.None? then st.(videoId := None, transcript := [], reason := [])
    else
      var after := st.(videoId := id, busy := false);
      match server(id.value)
      case RequestFailed => after.(transcript := [], language := Transcript.Unknown, reason := FetchFailed)
      case NullData => after.(transcript := [], language := Transcript.Unknown, reason := FetchFailed)
      case Data(data) =>
        if Truthy(data.transcript) then
          after.(transcript := data.transcript.value,
                 language := OrElse(data.language, Transcript.Unknown),
                 reason := OrElse(data.reason, "Success"))
        else
          after.(transcript := [], language := Transcript.Unknown, reason := OrElse(data.reason, NotAvailable))
  }

  /** With no id no request is made: the endpoint plays no part. */
  lemma NoRequestWithoutId(st: PageState, videoUrl: string, parse: UrlParser, s1: Server, s2: Server)
    requires GetYouTubeId(videoUrl, parse).None?
    ensures HandleTranscribe(st, videoUrl, parse, s1) == HandleTranscribe(st, videoUrl, parse, s2)
  {
  }

  /** The route's JSON answer as the page decodes it. */
  function Decoded(b: TranscribeRoute.RouteBody): ApiData
  {
    ApiData(b.transcript, Some(b.language), Some(b.reason))
  }

  /** End to end: with the fallback route behind the page, the page shows the
      route's transcript ("" for null) and its reason, and a named language
      only next to a transcript. */
  lemma PageShowsRouteAnswer(st: PageState, videoUrl: string, parse: UrlParser, server: Server,
                             provider: TranscribeRoute.Provider, detect: Transcript.Detector, lookup: Transcript.NameLookup)
    requires GetYouTubeId(videoUrl, parse).Some?
    requires var id := GetYouTubeId(videoUrl, parse).value;
      server(id) == Data(Decoded(TranscribeRoute.Reply(TranscribeRoute.Body(Some(id)), provider, detect, lookup).body))
    ensures var id := GetYouTubeId(videoUrl, parse).value;
      var route := TranscribeRoute.Reply(TranscribeRoute.Body(Some(id)), provider, detect, lookup).body;
      var r := HandleTranscribe(st, videoUrl, parse, server);
      r.transcript == route.transcript.GetOr([]) &&
      r.reason == route.reason &&
      (r.language != Transcript.Unknown ==> r.transcript != [] && r.language == route.language)
  {
    var id := GetYouTubeId(videoUrl, parse).value;
    var route := TranscribeRoute.Reply(TranscribeRoute.Body(Some(id)), provider, detect, lookup).body;
    assert route.reason != [];
    assert Truthy(route.transcript) <==> route.transcript.Some?;
    assert route.language != Transcript.Unknown ==> route.transcript.Some?;
  }
}
