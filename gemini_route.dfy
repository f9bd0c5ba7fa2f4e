/** The `/api/gemini` POST handler: build a prompt from the action and the
    text, hand it to the language model, relay the answer. */
module GeminiRoute {
  import opened Wrappers
  import opened JsString

  /** A prompt template: a fixed instruction followed by ":\n\n" and the
      text, or the translation template, which also takes a language. */
  datatype Template = Instruction(prefix: string) | Translation

  /** The `PROMPTS` table. */
  const Prompts: map<string, Template> := map[
    "summary" := Instruction("Summarize the following transcript in 6-10 bullet points. Keep it concise and clear"),
    "keywords" := Instruction("Extract 10-15 topical keywords/phrases from this transcript, comma-separated"),
    "notes" := Instruction("Create study notes with headings and bullet points based on this transcript"),
    "translate" := Translation
  ]

  const FreeAction: string := "free"
  const DefaultLanguage: string := "English"
  const NoInputText: string := "No input text provided"
  const RequestFailed: string := "Gemini request failed"

  /** Apply a template; `lang` defaults to English. */
  function Render(template: Template, text: string, lang: Option<string>): (r: string)
    ensures EndsWith(r, text) && |r| > |text|
  {
    match template
    case Instruction(prefix) => prefix + ":\n\n" + text
    case Translation =>
      "Translate this transcript into clear, natural " + lang.GetOr(DefaultLanguage) + ". Preserve meaning:\n\n" + text
  }

  /** The if/else chain choosing `finalPrompt`. */
  function BuildPrompt(action: string, text: string, targetLang: Option<string>): (r: string)
    // Every prompt ends with the text itself.
    ensures EndsWith(r, text)
    // The text goes out unchanged exactly for "free" and for actions not in the table.
    ensures r == text <==> action == FreeAction || action !in Prompts
  {
    if action == "translate" then Render(Translation, text, targetLang)
    else if action == FreeAction then text
    else if action in Prompts then Render(Prompts[action], text, None)
    else text
  }

  lemma TranslatePrompt(text: string, targetLang: Option<string>)
    ensures BuildPrompt("translate", text, targetLang) ==
      "Translate this transcript into clear, natural " + targetLang.GetOr("English") + ". Preserve meaning:\n\n" + text
  {
  }

  /** summary, keywords and notes: the action's instruction, ":\n\n", the text. */
  lemma InstructionPrompts(action: string, text: string, targetLang: Option<string>)
    requires action in {"summary", "keywords", "notes"}
    ensures Prompts[action].Instruction?
    ensures BuildPrompt(action, text, targetLang) == Prompts[action].prefix + ":\n\n" + text
  {
  }

  datatype ModelError = ModelError(message: string)

  /** `model.generateContent(prompt)` and `result.response.text()`; `Failure`
      when either throws. */
  type Model = string -> Result<string, ModelError>

  /** The parsed JSON body, or `Malformed` when `req.json()` throws. */
  datatype GeminiRequest = Malformed | Request(action: Option<string>, text: Option<string>, targetLang: Option<string>)

  /** `{ content }` or `{ error }`. */
  datatype GeminiBody = Content(content: string) | Error(error: string)
  datatype GeminiResponse = GeminiResponse(status: int, body: GeminiBody)

  predicate HasText(req: GeminiRequest)
  {
    req.Request? && req.text.Some? && req.text.value != []
  }

  /** The prompt a request with text leads to; an absent action is "free". */
  function PromptOf(req: GeminiRequest): string
    requires HasText(req)
  {
    BuildPrompt(req.action.GetOr(FreeAction), req.text.value, req.targetLang)
  }

  function Post(req: GeminiRequest, model: Model): (r: GeminiResponse)
    // Missing text is refused before the model is involved.
    ensures r.status == 400 <==> req.Request? && !HasText(req)
    ensures r.status == 400 ==> r.body == Error(NoInputText)
    // Content exactly when the model answered the built prompt.
    ensures r.body.Content? <==> HasText(req) && model(PromptOf(req)).Success?
    ensures r.body.Content? ==> r.status == 200 && model(PromptOf(req)) == Success(r.body.content)
    // Any other failure is a 500 with one fixed message.
    ensures !r.body.Content? && r.status != 400 ==> r == GeminiResponse(500, Error(RequestFailed))
    ensures r.status != 200 && r.status != 400 ==> r == GeminiResponse(500, Error(RequestFailed))
    ensures r.status == 200 || r.status == 400 || r.status == 500
  {
    match req
    case Malformed => GeminiResponse(500, Error(RequestFailed))
    case Request(action, text, targetLang) =>
      if text.None? || text.value == [] then GeminiResponse(400, Error(NoInputText))
      else
        match model(BuildPrompt(action.GetOr(FreeAction), text.value, targetLang))
        case Success(content) => GeminiResponse(200, Content(content))
        case Failure(_) => GeminiResponse(500, Error(RequestFailed))
  }

  /** The model is only ever shown the built prompt. */
  lemma ModelSeesOnlyThePrompt(req: GeminiRequest, m1: Model, m2: Model)
    requires HasText(req) ==> m1(PromptOf(req)) == m2(PromptOf(req))
    ensures Post(req, m1) == Post(req, m2)
  {
  }

  /** With no action the text itself is the prompt. */
  lemma AbsentActionIsFree(text: string, targetLang: Option<string>)
    requires text != []
    ensures PromptOf(Request(None, Some(text), targetLang)) == text
  {
  }
}
