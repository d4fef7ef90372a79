/** The background process (background.js): the runtime message listener and
    the save chain behind the `saveToSheet` command. */
module Background {
  import opened Js
  import opened Bridge
  import Gemini
  import Sheets

  const AnalyzeAction := "analyzeCV"
  const SaveAction := "saveToSheet"
  const LoginMessage := "Please login via the extension popup first."
  const NotLoadedMessage := "SheetsService not loaded"

  /** What a save produced: the settled promise, the stored `spreadsheetId`,
      the server afterwards, and every request issued, in order. */
  datatype SaveOutcome = SaveOutcome(result: Result<string>, cache: Option<string>, drive: Sheets.Drive, calls: seq<Sheets.Call>)

  /** `saveJobToSheet(jobData)`: a silently obtained token (None when the
      identity call reports an error or returns nothing), then tracker
      resolution, then the append to the resolved id. `sheetsLoaded` is
      whether the spreadsheet client was imported; `today` is the date cell. */
  function SaveJobToSheet(token: Option<string>, sheetsLoaded: bool, cache: Option<string>, drive: Sheets.Drive,
                          today: string, job: Sheets.JobData): (o: SaveOutcome)
    // Without a token: the login message, and the sheet is never touched.
    ensures !Truthy(token) ==> o == SaveOutcome(Err(LoginMessage), cache, drive, [])
    ensures Truthy(token) && !sheetsLoaded ==> o == SaveOutcome(Err(NotLoadedMessage), cache, drive, [])
    // With both: resolution runs to completion first, and its effects stay.
    ensures Truthy(token) && sheetsLoaded ==>
              var res := Sheets.GetOrCreateSheet(cache, drive);
              && o.cache == res.cache && o.drive == res.drive
              && |o.calls| >= |res.calls| && o.calls[..|res.calls|] == res.calls
              && (res.result.Err? ==> o.result == res.result && o.calls == res.calls)
              && (res.result.Ok? ==>
                    && o.calls == res.calls + [Sheets.Append(res.result.value, Sheets.BuildRow(today, job))]
                    && o.result == Sheets.AppendJob(res.drive, res.result.value, today, job).result)
    // At most one append, and it is the last request.
    ensures forall i :: 0 <= i < |o.calls| && o.calls[i].Append? ==> i == |o.calls| - 1
  {
    if !Truthy(token) then SaveOutcome(Err(LoginMessage), cache, drive, [])
    else if !sheetsLoaded then SaveOutcome(Err(NotLoadedMessage), cache, drive, [])
    else
      var res := Sheets.GetOrCreateSheet(cache, drive);
      match res.result
      case Err(m) => SaveOutcome(Err(m), res.cache, res.drive, res.calls)
      case Ok(id) =>
        var appended := Sheets.AppendJob(res.drive, id, today, job);
        SaveOutcome(appended.result, res.cache, res.drive, res.calls + [appended.call])
  }

  /** A runtime message, with its `data` object read through the fields each
      handler consults. */
  datatype Message = Message(action: string, analysis: Gemini.AnalysisData, job: Sheets.JobData)

  /** What a successful command answers with: the parsed analysis, or the
      append response body. */
  datatype Payload = Analysis(analysis: Gemini.RawAnalysis) | AppendResponse(body: string)

  /** Everything outside the message that the handlers consult or change. */
  datatype World = World(
    token: Option<string>,
    sheetsLoaded: bool,
    cache: Option<string>,
    drive: Sheets.Drive,
    today: string,
    gemini: Gemini.GeminiReply)

  /** The listener's return value (true keeps the channel open), the answers
      sent through `sendResponse`, the world afterwards, and the requests made. */
  datatype Handled = Handled(
    keepOpen: bool,
    responses: seq<Envelope<Payload>>,
    world: World,
    geminiRequests: seq<Gemini.GeminiRequest>,
    sheetCalls: seq<Sheets.Call>)

  /** The runtime message listener: the two commands answer exactly once with
      an envelope of their outcome; anything else gets no answer. */
  function OnMessage(m: Message, w: World, parse: string -> Result<Gemini.RawAnalysis>): (h: Handled)
    ensures m.action != AnalyzeAction && m.action != SaveAction ==>
              h == Handled(false, [], w, [], [])
    ensures m.action == AnalyzeAction ==>
              var a := Gemini.AnalyzeWithGemini(m.analysis, w.gemini, parse);
              && h.keepOpen && |h.responses| == 1
              && (h.responses[0].Succeeded? <==> a.result.Ok?)
              && (a.result.Ok? ==> h.responses[0].data == Analysis(a.result.value))
              && (a.result.Err? ==> h.responses[0].error == a.result.message)
              && h.world == w && h.geminiRequests == a.sent && h.sheetCalls == []
    ensures m.action == SaveAction ==>
              var s := SaveJobToSheet(w.token, w.sheetsLoaded, w.cache, w.drive, w.today, m.job);
              && h.keepOpen && |h.responses| == 1
              && (h.responses[0].Succeeded? <==> s.result.Ok?)
              && (s.result.Ok? ==> h.responses[0].data == AppendResponse(s.result.value))
              && (s.result.Err? ==> h.responses[0].error == s.result.message)
              && h.world == w.(cache := s.cache, drive := s.drive)
              && h.geminiRequests == [] && h.sheetCalls == s.calls
  {
    if m.action == AnalyzeAction then
      var a := Gemini.AnalyzeWithGemini(m.analysis, w.gemini, parse);
      Handled(true, [Reify(a.result.MapValue(x => Analysis(x)))], w, a.sent, [])
    else if m.action == SaveAction then
      var s := SaveJobToSheet(w.token, w.sheetsLoaded, w.cache, w.drive, w.today, m.job);
      Handled(true, [Reify(s.result.MapValue(b => AppendResponse(b)))], w.(cache := s.cache, drive := s.drive), [], s.calls)
    else
      Handled(false, [], w, [], [])
  }
}
