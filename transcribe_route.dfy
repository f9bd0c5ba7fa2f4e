/** The `/api/transcribe` POST handler: validate the id, try the English
    caption hints in order, fall back to an unconstrained fetch, then
    normalize the captions and name their language. */
module TranscribeRoute {
  import opened Wrappers
  import opened JsString
  import opened Transcript

  datatype ProviderError = ProviderError(message: string)

  /** `YoutubeTranscript.fetchTranscript(videoId, { lang })` when the hint is
      present and `fetchTranscript(videoId)` when it is not; `Failure` when
      the call throws. A null list is the same as an empty one to the
      handler, so the provider is modelled as always returning a list. */
  type Provider = (string, Option<string>) -> Result<seq<Fragment>, ProviderError>

  /** The parsed JSON request body, or `Malformed` when `req.json()` throws. */
  datatype RequestBody = Malformed | Body(videoId: Option<string>)

  /** The JSON response `{ transcript, language, reason }`. */
  datatype RouteBody = RouteBody(transcript: Option<string>, language: string, reason: string)
  datatype RouteResponse = RouteResponse(status: int, body: RouteBody)

  /** The language hints, in the order they are tried. */
  const FallbackLangs: seq<string> := ["en", "en-US", "en-GB", "en-CA", "en-AU"]

  const MissingVideoId: string := "Missing videoId"
  const NoCaptionsFound: string := "No captions found (try another video with CC)"
  const Succeeded: string := "Success"
  const ServerError: string := "Server error"

  /** `videoId` is present and truthy. */
  predicate HasVideoId(body: RequestBody)
  {
    body.Body? && body.videoId.Some? && body.videoId.value != []
  }

  /** The provider calls made for `id`, in order: each hint until one returns
      without throwing, then the unconstrained call if every hint threw. */
  function Attempts(provider: Provider, id: string, hints: seq<string>): seq<Option<string>>
  {
    if hints == [] then [None]
    else if provider(id, Some(hints[0])).Success? then [Some(hints[0])]
    else [Some(hints[0])] + Attempts(provider, id, hints[1..])
  }

  /** The caption list the handler goes on with: that of the first hint that
      returned, else that of the unconstrained call, else the initial []. */
  function Acquired(provider: Provider, id: string, hints: seq<string>): seq<Fragment>
  {
    if hints == [] then
      match provider(id, None)
      case Success(fragments) => fragments
      case Failure(_) => []
    else
      match provider(id, Some(hints[0]))
      case Success(fragments) => fragments
      case Failure(_) => Acquired(provider, id, hints[1..])
  }

  /** What the handler answers once it holds a caption list. */
  function ReplyFor(fragments: seq<Fragment>, detect: Detector, lookup: NameLookup): RouteResponse
  {
    if fragments == [] then RouteResponse(200, RouteBody(None, Unknown, NoCaptionsFound))
    else
      var transcript := Normalize(fragments);
      RouteResponse(200, RouteBody(transcript, DetectLanguage(transcript, detect, lookup), Succeeded))
  }

  /** The handler's answer to a request, as a function of the request and
      of what the provider, the detector and the name lookup return. */
  function Reply(body: RequestBody, provider: Provider, detect: Detector, lookup: NameLookup): (r: RouteResponse)
    // A missing or empty id is a 400; everything else is a 200.
    ensures r.status == 400 <==> body.Body? && !HasVideoId(body)
    ensures r.status != 400 ==> r.status == 200
    ensures !HasVideoId(body) ==> r.body.transcript.None? && r.body.language == Unknown
    ensures body.Body? && !HasVideoId(body) ==> r.body.reason == MissingVideoId
    ensures body.Malformed? ==> r.body.reason == ServerError
    // "Success" exactly when a non-empty caption list was obtained.
    ensures r.body.reason == Succeeded <==>
      HasVideoId(body) && Acquired(provider, body.videoId.value, FallbackLangs) != []
    ensures HasVideoId(body) && Acquired(provider, body.videoId.value, FallbackLangs) == [] ==>
      r.body == RouteBody(None, Unknown, NoCaptionsFound)
    // A track gives its normalized text and the gated language.
    ensures HasVideoId(body) && Acquired(provider, body.videoId.value, FallbackLangs) != [] ==>
      r.body.transcript == Normalize(Acquired(provider, body.videoId.value, FallbackLangs)) &&
      r.body.language == DetectLanguage(r.body.transcript, detect, lookup)
    // A transcript and a named language only come with "Success".
    ensures r.body.transcript.Some? ==> r.body.reason == Succeeded
    ensures r.body.language != Unknown ==> r.body.reason == Succeeded && LongEnough(r.body.transcript)
    ensures r.body.transcript.Some? ==> r.body.transcript.value != []
    ensures r.body.reason != []
  {
    match body
    case Malformed => RouteResponse(200, RouteBody(None, Unknown, ServerError))
    case Body(videoId) =>
      if videoId.None? || videoId.value == [] then
        RouteResponse(400, RouteBody(None, Unknown, MissingVideoId))
      else
        ReplyFor(Acquired(provider, videoId.value, FallbackLangs), detect, lookup)
  }

  /** The provider calls a request leads to. */
  function Calls(body: RequestBody, provider: Provider): seq<Option<string>>
  {
    if HasVideoId(body) then Attempts(provider, body.videoId.value, FallbackLangs) else []
  }

  /** The handler itself. `attempts` records, in order, the hint of every
      provider call (`None` for the unconstrained one). */
  method Post(body: RequestBody, provider: Provider, detect: Detector, lookup: NameLookup)
    returns (response: RouteResponse, ghost attempts: seq<Option<string>>)
    ensures response == Reply(body, provider, detect, lookup)
    ensures attempts == Calls(body, provider)
  {
    attempts := [];
    if body.Malformed? {
      response := RouteResponse(200, RouteBody(None, Unknown, ServerError));
      return;
    }
    var videoId := body.videoId;
    if videoId.None? || videoId.value == [] {
      response := RouteResponse(400, RouteBody(None, Unknown, MissingVideoId));
      return;
    }
    var transcriptArray;
    transcriptArray, attempts := FetchWithFallback(provider, videoId.value, FallbackLangs);

    if transcriptArray == [] {
      response := RouteResponse(200, RouteBody(None, Unknown, NoCaptionsFound));
      return;
    }

    var transcript := Normalize(transcriptArray);
    var language := Unknown;
    if transcript.Some? && Utf16Length(transcript.value) > MinDetectLength {
      var code := detect(transcript.value, DetectorMinLength);
      if IsDeterminedCode(code) {
        var info := lookup(code);
        if info.Some? {
          language := info.value;
        }
      }
    }
    response := RouteResponse(200, RouteBody(transcript, language, Succeeded));
  }

  /** The fallback loop of the handler: try each hint in order and stop at
      the first call that returns; if none does, make one unconstrained
      call. The list stays [] when every call threw. */
  method FetchWithFallback(provider: Provider, id: string, hints: seq<string>)
    returns (transcriptArray: seq<Fragment>, ghost attempts: seq<Option<string>>)
    ensures transcriptArray == Acquired(provider, id, hints)
    ensures attempts == Attempts(provider, id, hints)
  {
    transcriptArray := [];
    attempts := [];
    var fetched := false;
    var i := 0;
    while i < |hints|
      invariant 0 <= i <= |hints|
      invariant !fetched && transcriptArray == []
      invariant Attempts(provider, id, hints) == attempts + Attempts(provider, id, hints[i..])
      invariant Acquired(provider, id, hints) == Acquired(provider, id, hints[i..])
    {
      var lang := hints[i];
      attempts := attempts + [Some(lang)];
      var result := provider(id, Some(lang));
      if result.Success? {
        transcriptArray := result.value;
        fetched := true;
        break;
      }
      assert hints[i..][1..] == hints[i + 1..];
      i := i + 1;
    }

    if !fetched {
      attempts := attempts + [None];
      var result := provider(id, None);
      if result.Success? {
        transcriptArray := result.value;
        fetched := true;
      }
    }
  }

  /** Hints are tried in list order, followed at most by one unconstrained call. */
  lemma {:induction false} AttemptsInOrder(provider: Provider, id: string, hints: seq<string>)
    ensures var a := Attempts(provider, id, hints);
      1 <= |a| <= |hints| + 1 &&
      forall k :: 0 <= k < |a| ==> a[k] == if k < |hints| then Some(hints[k]) else None
  {
    if hints != [] && provider(id, Some(hints[0])).Failure? {
      AttemptsInOrder(provider, id, hints[1..]);
    }
  }

  /** Every call but the last threw; the last hinted call, if it is the last
      call, returned. So hint k is tried only after hints 1..k-1 all threw,
      and the loop stops at the first call that returns, even with []. */
  lemma {:induction false} AttemptsShortCircuit(provider: Provider, id: string, hints: seq<string>)
    ensures var a := Attempts(provider, id, hints);
      |a| >= 1 &&
      (forall k :: 0 <= k < |a| - 1 ==> provider(id, a[k]).Failure?) &&
      (a[|a| - 1].Some? ==> provider(id, a[|a| - 1]).Success?)
  {
    if hints != [] && provider(id, Some(hints[0])).Failure? {
      AttemptsShortCircuit(provider, id, hints[1..]);
      var rest := Attempts(provider, id, hints[1..]);
      assert Attempts(provider, id, hints) == [Some(hints[0])] + rest;
    }
  }

  /** The unconstrained call happens exactly when every hinted call threw. */
  lemma {:induction false} UnconstrainedIffAllHintsThrow(provider: Provider, id: string, hints: seq<string>)
    ensures None in Attempts(provider, id, hints) <==>
      forall k :: 0 <= k < |hints| ==> provider(id, Some(hints[k])).Failure?
    ensures None in Attempts(provider, id, hints) <==> |Attempts(provider, id, hints)| == |hints| + 1
  {
    AttemptsInOrder(provider, id, hints);
    if hints != [] && provider(id, Some(hints[0])).Failure? {
      UnconstrainedIffAllHintsThrow(provider, id, hints[1..]);
      var rest := Attempts(provider, id, hints[1..]);
      assert Attempts(provider, id, hints) == [Some(hints[0])] + rest;
      assert forall k :: 1 <= k < |hints| ==> hints[k] == hints[1..][k - 1];
    }
  }

  /** The list the handler goes on with is what the last call returned
      ([] if it threw). */
  lemma {:induction false} AcquiredFromLastAttempt(provider: Provider, id: string, hints: seq<string>)
    ensures var a := Attempts(provider, id, hints);
      |a| >= 1 &&
      Acquired(provider, id, hints) ==
        match provider(id, a[|a| - 1])
        case Success(fragments) => fragments
        case Failure(_) => []
  {
    if hints != [] && provider(id, Some(hints[0])).Failure? {
      AcquiredFromLastAttempt(provider, id, hints[1..]);
      AttemptsInOrder(provider, id, hints[1..]);
    }
  }

  /** At most six provider calls per request, and none without an id. */
  lemma AtMostSixCalls(body: RequestBody, provider: Provider)
    ensures |Calls(body, provider)| <= 6
    ensures !HasVideoId(body) ==> Calls(body, provider) == []
  {
    if HasVideoId(body) {
      AttemptsInOrder(provider, body.videoId.value, FallbackLangs);
    }
  }

  /** When hints 0..k-1 throw and hint k returns, exactly hints 0..k are
      tried and hint k's list is adopted. */
  lemma {:induction false} StopsAtFirstReturn(provider: Provider, id: string, hints: seq<string>, k: nat)
    requires k < |hints|
    requires forall j :: 0 <= j < k ==> provider(id, Some(hints[j])).Failure?
    requires provider(id, Some(hints[k])).Success?
    ensures Attempts(provider, id, hints) == seq(k + 1, j requires 0 <= j <= k => Some(hints[j]))
    ensures Acquired(provider, id, hints) == provider(id, Some(hints[k])).value
  {
    if k > 0 {
      assert forall j :: 0 <= j < k - 1 ==> hints[1..][j] == hints[j + 1];
      StopsAtFirstReturn(provider, id, hints[1..], k - 1);
    }
  }

  /** When every hint throws, the unconstrained call decides the list. */
  lemma {:induction false} AllHintsThrow(provider: Provider, id: string, hints: seq<string>)
    requires forall j :: 0 <= j < |hints| ==> provider(id, Some(hints[j])).Failure?
    ensures Attempts(provider, id, hints) == seq(|hints|, j requires 0 <= j < |hints| => Some(hints[j])) + [None]
    ensures Acquired(provider, id, hints) == if provider(id, None).Success? then provider(id, None).value else []
  {
    if hints != [] {
      assert forall j :: 0 <= j < |hints| - 1 ==> hints[1..][j] == hints[j + 1];
      AllHintsThrow(provider, id, hints[1..]);
    }
  }

  /** A provider that only answers for the third hint: the first two hints
      are tried and fail, the third succeeds, and nothing else is called. */
  lemma ThirdHintSucceeds(provider: Provider, id: string)
    requires id != []
    requires provider(id, Some("en")).Failure? && provider(id, Some("en-US")).Failure?
    requires provider(id, Some("en-GB")).Success?
    ensures Calls(Body(Some(id)), provider) == [Some("en"), Some("en-US"), Some("en-GB")]
  {
    StopsAtFirstReturn(provider, id, FallbackLangs, 2);
  }

  /** A provider that throws on every call leaves no captions: six calls,
      then the "No captions found" answer. */
  lemma TotalOutage(provider: Provider, id: string, detect: Detector, lookup: NameLookup)
    requires id != []
    requires forall hint: Option<string> :: provider(id, hint).Failure?
    ensures |Calls(Body(Some(id)), provider)| == 6
    ensures Reply(Body(Some(id)), provider, detect, lookup) ==
      RouteResponse(200, RouteBody(None, Unknown, NoCaptionsFound))
  {
    AllHintsThrow(provider, id, FallbackLangs);
  }

  /** Captions that are all blanks still answer "Success", with a null
      transcript: the reason reports the fetch, not the text. */
  lemma BlankCaptionsStillSucceed(provider: Provider, id: string, fragments: seq<Fragment>,
                                  detect: Detector, lookup: NameLookup)
    requires id != [] && fragments != []
    requires forall i :: 0 <= i < |fragments| ==> AllWhitespace(fragments[i].text)
    requires provider(id, Some("en")) == Success(fragments)
    ensures Reply(Body(Some(id)), provider, detect, lookup) ==
      RouteResponse(200, RouteBody(None, Unknown, Succeeded))
  {
    StopsAtFirstReturn(provider, id, FallbackLangs, 0);
    NormalizeNoneIff(fragments);
  }

  /** A track found under the first hint: exactly one call, and the
      transcript is the fragments joined in order with single spaces
      (for fragments without padding of their own). */
  lemma FirstHintTrack(provider: Provider, id: string, fragments: seq<Fragment>, detect: Detector, lookup: NameLookup)
    requires id != [] && |fragments| >= 1
    requires forall i :: 0 <= i < |fragments| ==> fragments[i].text != [] && Trimmed(fragments[i].text)
    requires provider(id, Some("en")) == Success(fragments)
    ensures var r := Reply(Body(Some(id)), provider, detect, lookup);
      r.status == 200 && r.body.transcript == Some(Join(Texts(fragments), ' ')) &&
      r.body.reason == Succeeded
    ensures Calls(Body(Some(id)), provider) == [Some("en")]
  {
    StopsAtFirstReturn(provider, id, FallbackLangs, 0);
    NormalizeJoinsInOrder(fragments);
  }
}
