/** The older single-shot transcript endpoint: one unconstrained provider
    call, the same normalization and language gate, no `reason` field. */
module FetchYoutubeTranscript {
  import opened Wrappers
  import opened Transcript
  import R = TranscribeRoute

  /** `{ error }` or `{ transcript, language }`. */
  datatype LegacyBody = ErrorBody(error: string) | TranscriptBody(transcript: Option<string>, language: string)
  datatype LegacyResponse = LegacyResponse(status: int, body: LegacyBody)

  /** The handler. A malformed body and a throwing provider both land in the
      catch block, which answers a 200 with a null transcript. */
  function Post(body: R.RequestBody, provider: R.Provider, detect: Detector, lookup: NameLookup): (r: LegacyResponse)
    ensures r.status == 400 <==> body.Body? && !R.HasVideoId(body)
    ensures r.status == 400 <==> r.body.ErrorBody?
    ensures r.status != 400 ==> r.status == 200
    // `req.json()` failing lands in the catch block.
    ensures body.Malformed? ==> r == LegacyResponse(200, TranscriptBody(None, Unknown))
    ensures r.body.ErrorBody? ==> r.body.error == R.MissingVideoId
    ensures R.HasVideoId(body) && provider(body.videoId.value, None).Failure? ==>
      r == LegacyResponse(200, TranscriptBody(None, Unknown))
    ensures R.HasVideoId(body) && provider(body.videoId.value, None) == Success([]) ==>
      r == LegacyResponse(200, TranscriptBody(None, Unknown))
    ensures R.HasVideoId(body) && provider(body.videoId.value, None).Success? &&
            provider(body.videoId.value, None).value != [] ==>
      r.status == 200 &&
      r.body == TranscriptBody(Normalize(provider(body.videoId.value, None).value),
                               DetectLanguage(r.body.transcript, detect, lookup))
    ensures r.body.TranscriptBody? && r.body.transcript.None? ==> r.body.language == Unknown
    ensures r.body.TranscriptBody? && r.body.language != Unknown ==> LongEnough(r.body.transcript)
  {
    match body
    case Malformed => LegacyResponse(200, TranscriptBody(None, Unknown))
    case Body(videoId) =>
      if videoId.None? || videoId.value == [] then
        LegacyResponse(400, ErrorBody(R.MissingVideoId))
      else
        match provider(videoId.value, None)
        case Failure(_) => LegacyResponse(200, TranscriptBody(None, Unknown))
        case Success(fragments) =>
          if fragments == [] then LegacyResponse(200, TranscriptBody(None, Unknown))
          else
            var transcript := Normalize(fragments);
            LegacyResponse(200, TranscriptBody(transcript, DetectLanguage(transcript, detect, lookup)))
  }

  /** Exactly one provider call is made, with no language hint: two providers
      that agree on that call give the same answer, and without an id the
      provider plays no part at all. */
  lemma OnlyTheUnhintedCall(body: R.RequestBody, p1: R.Provider, p2: R.Provider, detect: Detector, lookup: NameLookup)
    requires R.HasVideoId(body) ==> p1(body.videoId.value, None) == p2(body.videoId.value, None)
    ensures Post(body, p1, detect, lookup) == Post(body, p2, detect, lookup)
  {
  }

  /** The older endpoint answers like the fallback route whenever every
      hinted call of the route throws: same transcript, same language. */
  lemma AgreesWithRouteWhenHintsThrow(body: R.RequestBody, provider: R.Provider, detect: Detector, lookup: NameLookup)
    requires R.HasVideoId(body)
    requires forall j :: 0 <= j < |R.FallbackLangs| ==> provider(body.videoId.value, Some(R.FallbackLangs[j])).Failure?
    ensures var route := R.Reply(body, provider, detect, lookup).body;
      Post(body, provider, detect, lookup).body == TranscriptBody(route.transcript, route.language)
  {
    R.AllHintsThrow(provider, body.videoId.value, R.FallbackLangs);
  }
}
