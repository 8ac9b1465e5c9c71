/** The request assembly of `solveMathProblem`: the API-key check, the
    ordered `parts` list sent to the model, the fallback prompt, the
    empty-response check and the conversion of the reply text into the
    structured answer. The SDK call and `JSON.parse` are parameters: they
    belong to foreign code and may fail. */
module GeminiService {
  import opened Wrappers
  import opened Types
  import JsText

  const ModelName: string := "gemini-2.5-flash"

  /** Sent as the text part when the caller's prompt is the empty string. */
  const FallbackPrompt: string :=
    "Hãy giải bài toán trong hình/tài liệu này. Nếu không thấy bài toán cụ thể, hãy tóm tắt nội dung toán học chính."

  /** One element of the `parts` array of the request's single content. */
  datatype Part = InlineData(data: string, mimeType: string) | TextPart(text: string)

  /** The `generateContent` request: model name, the content's role and its
      parts. System instruction, schema and temperature are fixed
      configuration and are not modelled. */
  datatype Request = Request(model: string, role: string, parts: seq<Part>)

  /** What the SDK call produced: a response whose `text` may be undefined
      or empty, or a thrown error (network, credential rejected, ...). */
  datatype Transport = Replied(text: Option<string>) | TransportFailed

  /** Why `solveMathProblem` threw. The caller only learns that it failed. */
  datatype SolveError = ApiKeyMissing | RequestFailed | EmptyResponse | InvalidJson

  /** One invocation: the request that went out, if any, and what the
      promise settled to. */
  datatype SolveRun = SolveRun(sent: Option<Request>, result: Result<MathResponseData, SolveError>)

  /** The text of the final part: the prompt itself unless it is the empty
      string. A whitespace-only prompt is truthy and goes out unchanged. */
  function FinalPrompt(prompt: string): (text: string)
    ensures text != ""
    ensures prompt != "" ==> text == prompt
    ensures text != prompt ==> text == FallbackPrompt
  {
    if prompt != "" then prompt else FallbackPrompt
  }

  /** The `parts` list: an inline-data part when both the base64 payload
      and the MIME type are truthy, then always exactly one text part. */
  function BuildParts(prompt: string, fileBase64: Option<string>, mimeType: Option<string>): (parts: seq<Part>)
    ensures 1 <= |parts| <= 2
    ensures parts[|parts| - 1] == TextPart(FinalPrompt(prompt))
    ensures |parts| == 2 <==> JsText.Truthy(fileBase64) && JsText.Truthy(mimeType)
    ensures |parts| == 2 ==> parts[0] == InlineData(fileBase64.value, mimeType.value)
  {
    var filePart := if JsText.Truthy(fileBase64) && JsText.Truthy(mimeType)
                    then [InlineData(fileBase64.value, mimeType.value)] else [];
    filePart + [TextPart(FinalPrompt(prompt))]
  }

  /** `solveMathProblem(prompt, fileBase64, mimeType)` with the environment's
      `API_KEY`, the SDK call `generate` and the JSON parser `parse`. */
  function Solve(apiKey: Option<string>, prompt: string, fileBase64: Option<string>, mimeType: Option<string>,
                 generate: Request -> Transport, parse: string -> Option<MathResponseData>): (run: SolveRun)
    // a missing or empty key fails before any request is built
    ensures !JsText.Truthy(apiKey) <==> run.sent.None?
    ensures !JsText.Truthy(apiKey) ==> run.result == Failure(ApiKeyMissing)
    // otherwise exactly one request goes out, carrying the parts list
    ensures run.sent.Some? ==> run.sent.value == Request(ModelName, "user", BuildParts(prompt, fileBase64, mimeType))
    // a success is the parse of a non-empty reply, never a partial value
    ensures run.result.Success? <==>
              run.sent.Some? && generate(run.sent.value).Replied?
              && JsText.Truthy(generate(run.sent.value).text)
              && parse(generate(run.sent.value).text.value).Some?
    ensures run.result.Success? ==> Some(run.result.value) == parse(generate(run.sent.value).text.value)
    // each failure is reported with its cause
    ensures run.sent.Some? && generate(run.sent.value) == TransportFailed ==> run.result == Failure(RequestFailed)
    ensures run.sent.Some? && generate(run.sent.value).Replied? && !JsText.Truthy(generate(run.sent.value).text) ==>
              run.result == Failure(EmptyResponse)
    ensures && run.sent.Some? && generate(run.sent.value).Replied? && JsText.Truthy(generate(run.sent.value).text)
            && parse(generate(run.sent.value).text.value).None? ==>
              run.result == Failure(InvalidJson)
  {
    if !JsText.Truthy(apiKey) then SolveRun(None, Failure(ApiKeyMissing))
    else
      var request := Request(ModelName, "user", BuildParts(prompt, fileBase64, mimeType));
      var reply := generate(request);
      var result :=
        match reply
        case TransportFailed => Failure(RequestFailed)
        case Replied(text) =>
          if !JsText.Truthy(text) then Failure(EmptyResponse)
          else
            match parse(text.value)
            case None => Failure(InvalidJson)
            case Some(data) => Success(data);
      SolveRun(Some(request), result)
  }

  /** With no usable key the outcome does not depend on the model or the
      parser at all: nothing is sent, so nothing can come back. */
  lemma MissingKeyIgnoresBackend(apiKey: Option<string>, prompt: string, fileBase64: Option<string>, mimeType: Option<string>,
                                 g1: Request -> Transport, p1: string -> Option<MathResponseData>,
                                 g2: Request -> Transport, p2: string -> Option<MathResponseData>)
    requires !JsText.Truthy(apiKey)
    ensures Solve(apiKey, prompt, fileBase64, mimeType, g1, p1) == Solve(apiKey, prompt, fileBase64, mimeType, g2, p2)
  {
  }
}
