/** The language-model client (background.js `analyzeWithGemini`): guard the
    API key, issue one generation request, and recover a JSON object from the
    first candidate's text. The HTTP exchange and `JSON.parse` are inputs. */
module Gemini {
  import opened Js
  import opened Text
  import LenientJson

  /** The endpoint's model is fixed; a configured model name is not consulted. */
  const ModelPath := "gemini-2.5-flash"
  const MissingKeyMessage := "API Key is missing. Please set it in the extension popup."
  const EmptyResponseMessage := "Empty response from Gemini"

  /** The parsed analysis, seen through the fields its consumers read. A skill
      field is None when it is absent or not an array. */
  datatype RawAnalysis = RawAnalysis(
    matchPercentage: Option<int>,
    matchingSkills: Option<seq<string>>,
    missingSkills: Option<seq<string>>,
    experienceAnalysis: Option<string>,
    summary: Option<string>)

  /** The `data` of an `analyzeCV` message, as far as the client reads it. */
  datatype AnalysisData = AnalysisData(
    apiKey: Option<string>,
    cvText: string,
    modelName: Option<string>,
    jobDescription: string)

  /** What is sent: the model, the key in the URL, and the two texts the
      prompt embeds verbatim. The surrounding prompt wording is not modelled. */
  datatype GeminiRequest = GeminiRequest(model: string, apiKey: string, jobDescription: string, cvText: string)

  /** How the one request settles: `fetch` or the body read rejects; the answer
      is not OK (the message it raises is not computed here); or it is OK and
      holds the first candidate's first text part, if any. */
  datatype GeminiReply =
    | Rejected(message: string)
    | NotOk(message: string)
    | Answered(text: Option<string>)

  datatype AnalyzeOutcome = AnalyzeOutcome(result: Result<RawAnalysis>, sent: seq<GeminiRequest>)

  /** `analyzeWithGemini(data)`, with `reply` standing for the network and
      `parse` for `JSON.parse`. */
  function AnalyzeWithGemini(data: AnalysisData, reply: GeminiReply, parse: string -> Result<RawAnalysis>): (o: AnalyzeOutcome)
    ensures o.sent == [] <==> !Truthy(data.apiKey)
    ensures !Truthy(data.apiKey) ==> o.result == Err(MissingKeyMessage)
    ensures Truthy(data.apiKey) ==>
              o.sent == [GeminiRequest(ModelPath, data.apiKey.value, data.jobDescription, data.cvText)]
    ensures Truthy(data.apiKey) && !reply.Answered? ==> o.result.Err?
    ensures Truthy(data.apiKey) && reply.Answered? && !Truthy(reply.text) ==>
              o.result == Err(EmptyResponseMessage)
    ensures Truthy(data.apiKey) && reply.Answered? && Truthy(reply.text) ==>
              var extracted := LenientJson.ExtractJson(reply.text.value);
              && (extracted.Err? ==> o.result == Err(LenientJson.NoJsonMessage))
              && (extracted.Ok? ==> o.result == parse(extracted.value))
    ensures o.result.Ok? ==>
              && reply.Answered? && Truthy(reply.text)
              && '{' in reply.text.value && '}' in reply.text.value
  {
    if !Truthy(data.apiKey) then AnalyzeOutcome(Err(MissingKeyMessage), [])
    else
      var request := GeminiRequest(ModelPath, data.apiKey.value, data.jobDescription, data.cvText);
      var result :=
        match reply
        case Rejected(m) => Err(m)
        case NotOk(m) => Err(m)
        case Answered(text) =>
          if !Truthy(text) then Err(EmptyResponseMessage)
          else
            match LenientJson.ExtractJson(text.value)
            case Err(m) => Err(m)
            case Ok(json) => parse(json);
      AnalyzeOutcome(result, [request])
  }
}
