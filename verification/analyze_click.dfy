/** The click handler of the trigger (content.js `handleAnalyzeClick`): read
    the stored settings, scrape the page, ask the background worker for an
    analysis and show it. Alerts, the button and the overlay become effects
    in order; the storage read, the worker's answer and the page document the
    overlay is shown in are inputs. */
module AnalyzeClick {
  import opened Js
  import opened Bridge
  import Gemini
  import Scraper
  import Overlay

  const BusyLabel := "Analyzing..."
  const MinDescriptionLength := 50
  const ConfigAlert := "Please configure your Gemini API Key and CV in the extension settings first."
  const ConfigMissing := "Configuration missing"
  const NoDescriptionAlert := "Could not find a valid job description on this page."
  const NoDescription := "Job description not found"
  const UnexpectedAlert := "An unexpected error occurred."

  /** The three stored settings, each possibly absent. */
  datatype Settings = Settings(geminiApiKey: Option<string>, userCvText: Option<string>, geminiModel: Option<string>)

  /** The storage read: the settings, or the message of the error it threw. */
  datatype SettingsRead = Loaded(settings: Settings) | ReadFailed(message: string)

  /** The trigger button, if the page has one. */
  datatype Button = Button(caption: string, disabled: bool)

  /** How the analyze message ends: the runtime reports an error, sending
      throws, the callback gets no response at all, or the worker answers. */
  datatype BridgeAnswer =
    | LastError(message: string)
    | SendThrew(message: string)
    | NoResponse
    | Answer(envelope: Envelope<Gemini.RawAnalysis>)

  datatype Effect =
    | Scrape
    | Alert(text: string)
    | SendAnalyze(data: Gemini.AnalysisData, meta: Scraper.JobMetadata)
    | ResetButton
    | ShowOverlay(analysis: Gemini.RawAnalysis, meta: Scraper.JobMetadata)

  /** The settled result (None while the promise never settles), the effects
      in order, the button while the request is pending, and the button after. */
  datatype ClickOutcome = ClickOutcome(result: Option<Envelope<()>>, effects: seq<Effect>, busy: Option<Button>, button: Option<Button>)

  predicate Configured(s: Settings) {
    Truthy(s.geminiApiKey) && Truthy(s.userCvText)
  }

  /** Some effect sends the analyze message. */
  predicate Sent(effects: seq<Effect>) {
    exists i :: 0 <= i < |effects| && effects[i].SendAnalyze?
  }

  /** Some effect alerts the user. */
  predicate Alerted(effects: seq<Effect>) {
    exists i :: 0 <= i < |effects| && effects[i].Alert?
  }

  function Busy(button: Option<Button>): Option<Button> {
    if button.Some? then Some(Button(BusyLabel, true)) else None
  }

  function Restored(button: Option<Button>): Option<Button> {
    if button.Some? then Some(Button(button.value.caption, false)) else None
  }

  /** Giving up before anything is sent: the failure, one alert, and the
      button reset, in the order the handler does them. */
  function Abort(error: string, alert: string, alertFirst: bool, busy: Option<Button>, after: Option<Button>): (r: ClickOutcome)
    ensures r.result == Some(Failed(error)) && r.busy == busy && r.button == after
    ensures !Sent(r.effects) && Alerted(r.effects)
    ensures multiset(r.effects)[ResetButton] == 1
    ensures r.effects == if alertFirst then [Alert(alert), ResetButton] else [ResetButton, Alert(alert)]
  {
    var effects := if alertFirst then [Alert(alert), ResetButton] else [ResetButton, Alert(alert)];
    assert effects[if alertFirst then 0 else 1].Alert?;
    ClickOutcome(Some(Failed(error)), effects, busy, after)
  }

  /** The step after the message is handed to the runtime: what `send`'s
      answer turns into. Showing a successful analysis throws inside the
      callback when the overlay reference is stale (`Overlay.ShowResultsOverlay`
      gives `None`), so `resolve` is never reached. */
  function Deliver(send: Effect, meta: Scraper.JobMetadata, answer: BridgeAnswer, doc: Overlay.Document,
                   busy: Option<Button>, after: Option<Button>): (r: ClickOutcome)
    requires send.SendAnalyze?
    ensures r.busy == busy && r.button == after
    ensures multiset(r.effects)[ResetButton] == 1
    ensures answer.SendThrew? ==> r == ClickOutcome(Some(Failed(answer.message)), [ResetButton, Alert(UnexpectedAlert)], busy, after)
    ensures Sent(r.effects) <==> !answer.SendThrew?
    ensures Sent(r.effects) ==> r.effects[0] == send
    ensures r.result == Some(Succeeded(())) <==> answer.Answer? && answer.envelope.Succeeded? && !Overlay.StaleReference(doc)
    ensures r.result == Some(Succeeded(())) ==> r.effects[|r.effects| - 1] == ShowOverlay(answer.envelope.data, meta)
    ensures r.result.None? <==> answer.NoResponse? || (answer.Answer? && answer.envelope.Succeeded? && Overlay.StaleReference(doc))
    ensures r.result.None? ==> r.effects == [send, ResetButton]
    ensures r.result.Some? && r.result.value.Failed? ==> Alerted(r.effects)
    ensures answer.LastError? ==> r.result == Some(Failed(answer.message))
    ensures answer.Answer? && answer.envelope.Failed? ==> r.result == Some(Failed(answer.envelope.error))
  {
    match answer
    case SendThrew(m) =>
      Abort(m, UnexpectedAlert, false, busy, after)
    // the callback resets the button, then reading `success` of nothing throws
    case NoResponse =>
      var r := ClickOutcome(None, [send, ResetButton], busy, after);
      assert r.effects[0].SendAnalyze?;
      r
    case LastError(m) =>
      var r := ClickOutcome(Some(Failed(m)), [send, ResetButton, Alert("Error: " + m)], busy, after);
      assert r.effects[0].SendAnalyze? && r.effects[2].Alert?;
      r
    case Answer(Succeeded(data)) =>
      if Overlay.StaleReference(doc) then
        var r := ClickOutcome(None, [send, ResetButton], busy, after);
        assert r.effects[0].SendAnalyze?;
        r
      else
        var r := ClickOutcome(Some(Succeeded(())), [send, ResetButton, ShowOverlay(data, meta)], busy, after);
        assert r.effects[0].SendAnalyze?;
        r
    case Answer(Failed(e)) =>
      var r := ClickOutcome(Some(Failed(e)), [send, ResetButton, Alert("Analysis failed: " + e)], busy, after);
      assert r.effects[0].SendAnalyze? && r.effects[2].Alert?;
      r
  }

  /** An outcome reached after the page was scraped. */
  function AfterScrape(o: ClickOutcome): (r: ClickOutcome)
    ensures |r.effects| > 0 && r.effects[0] == Scrape && r.effects[1..] == o.effects
    ensures r.result == o.result && r.busy == o.busy && r.button == o.button
    ensures Sent(r.effects) <==> Sent(o.effects)
    ensures Alerted(r.effects) <==> Alerted(o.effects)
    ensures multiset(r.effects)[ResetButton] == multiset(o.effects)[ResetButton]
  {
    var r := o.(effects := [Scrape] + o.effects);
    assert forall i :: 0 < i < |r.effects| ==> r.effects[i] == o.effects[i - 1];
    r
  }

  function HandleAnalyzeClick(button: Option<Button>, read: SettingsRead, page: Scraper.Page, answer: BridgeAnswer,
                              doc: Overlay.Document): (r: ClickOutcome)
    // the button is busy while waiting and always gets its caption back, enabled
    ensures r.busy == Busy(button) && r.button == Restored(button)
    ensures multiset(r.effects)[ResetButton] == 1
    // preconditions of sending
    ensures read.ReadFailed? ==> r == ClickOutcome(Some(Failed(read.message)), [ResetButton, Alert(UnexpectedAlert)], Busy(button), Restored(button))
    ensures read.Loaded? && !Configured(read.settings) ==>
              r == ClickOutcome(Some(Failed(ConfigMissing)), [Alert(ConfigAlert), ResetButton], Busy(button), Restored(button))
    ensures (|r.effects| > 0 && r.effects[0] == Scrape) <==> read.Loaded? && Configured(read.settings)
    ensures read.Loaded? && Configured(read.settings) && |Scraper.GetJobDescription(page)| < MinDescriptionLength ==>
              r == ClickOutcome(Some(Failed(NoDescription)), [Scrape, Alert(NoDescriptionAlert), ResetButton], Busy(button), Restored(button))
    ensures Sent(r.effects) ==>
              && read.Loaded? && Configured(read.settings) && !answer.SendThrew?
              && |Scraper.GetJobDescription(page)| >= MinDescriptionLength
              && r.effects[1] == SendAnalyze(
                   Gemini.AnalysisData(read.settings.geminiApiKey, read.settings.userCvText.value,
                                       read.settings.geminiModel, Scraper.GetJobDescription(page)),
                   Scraper.GetJobMetadata(page))
    ensures (&& read.Loaded? && Configured(read.settings)
             && |Scraper.GetJobDescription(page)| >= MinDescriptionLength && !answer.SendThrew?) ==> Sent(r.effects)
    // what the answer decides
    ensures r.result == Some(Succeeded(())) <==>
              Sent(r.effects) && answer.Answer? && answer.envelope.Succeeded? && !Overlay.StaleReference(doc)
    ensures r.result == Some(Succeeded(())) ==>
              r.effects[|r.effects| - 1] == ShowOverlay(answer.envelope.data, Scraper.GetJobMetadata(page))
    ensures r.result.None? <==>
              Sent(r.effects) && (answer.NoResponse? || (answer.Answer? && answer.envelope.Succeeded? && Overlay.StaleReference(doc)))
    ensures r.result.Some? && r.result.value.Failed? ==> Alerted(r.effects)
    ensures Sent(r.effects) && answer.LastError? ==> r.result == Some(Failed(answer.message))
    ensures Sent(r.effects) && answer.Answer? && answer.envelope.Failed? ==> r.result == Some(Failed(answer.envelope.error))
  {
    var busy := Busy(button);
    var after := Restored(button);
    match read
    case ReadFailed(m) => Abort(m, UnexpectedAlert, false, busy, after)
    case Loaded(s) =>
      if !Configured(s) then Abort(ConfigMissing, ConfigAlert, true, busy, after)
      else
        var description := Scraper.GetJobDescription(page);
        var meta := Scraper.GetJobMetadata(page);
        if |description| < MinDescriptionLength then
          AfterScrape(Abort(NoDescription, NoDescriptionAlert, true, busy, after))
        else
          var send := SendAnalyze(Gemini.AnalysisData(s.geminiApiKey, s.userCvText.value, s.geminiModel, description), meta);
          AfterScrape(Deliver(send, meta, answer, doc, busy, after))
  }

  /** An analysis the page sends always carries a key, so the worker does not
      stop at its missing-key guard: it makes exactly one model request, for the
      scraped description and the stored CV. */
  lemma SentAnalysisReachesModel(button: Option<Button>, read: SettingsRead, page: Scraper.Page, answer: BridgeAnswer,
                                 doc: Overlay.Document, reply: Gemini.GeminiReply, parse: string -> Result<Gemini.RawAnalysis>)
    requires read.Loaded? && Configured(read.settings) && !answer.SendThrew?
    requires |Scraper.GetJobDescription(page)| >= MinDescriptionLength
    ensures var r := HandleAnalyzeClick(button, read, page, answer, doc);
            && Sent(r.effects) && r.effects[1].SendAnalyze?
            && var o := Gemini.AnalyzeWithGemini(r.effects[1].data, reply, parse);
            && |o.sent| == 1
            && o.sent[0].jobDescription == Scraper.GetJobDescription(page)
            && o.sent[0].cvText == read.settings.userCvText.value
  {
  }

  /** While the script alone manages the overlay (`Overlay.OverlayWf`), a
      successful answer always settles the click as a success with the overlay
      shown; only a panel detached by the host page leaves it unsettled. */
  lemma WellFormedOverlaySettlesSuccess(button: Option<Button>, read: SettingsRead, page: Scraper.Page,
                                        data: Gemini.RawAnalysis, doc: Overlay.Document)
    requires read.Loaded? && Configured(read.settings)
    requires |Scraper.GetJobDescription(page)| >= MinDescriptionLength
    requires Overlay.OverlayWf(doc)
    ensures var r := HandleAnalyzeClick(button, read, page, Answer(Succeeded(data)), doc);
            && r.result == Some(Succeeded(()))
            && r.effects[|r.effects| - 1] == ShowOverlay(data, Scraper.GetJobMetadata(page))
            && Overlay.ShowResultsOverlay(doc, Overlay.Normalise(data), Scraper.GetJobMetadata(page)).Some?
  {
  }
}
