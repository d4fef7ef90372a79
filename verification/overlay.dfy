/** The page-side presentation (content.js): safe-default normalisation of an
    analysis, the score colour, the overlay's save control, and the two
    injected elements — the floating trigger button, added at most once, and
    the results overlay, of which at most one is ever shown. The document is
    reduced to the children of its body. */
module Overlay {
  import opened Js
  import opened Text
  import opened Bridge
  import Gemini
  import Scraper
  import Sheets

  const NoSummary := "No summary provided."
  const NoAnalysis := "No analysis provided."
  const NoneTag := "None"
  const ButtonId := "cv-matcher-analyze-btn"
  const OverlayId := "cv-matcher-overlay"
  const AnalyzeLabel := "Analyze Match"
  const SaveLabel := "Save to Google Sheet"
  const SavingLabel := "Saving..."
  const SavedLabel := "Saved!"
  const RetryLabel := "Retry Save"
  const SavedStatus := "Row added to spreadsheet."
  const UnknownError := "Unknown error"

  /** The analysis as the overlay shows it, every field filled. */
  datatype View = View(score: int, summary: string, matchingSkills: seq<string>, missingSkills: seq<string>, experience: string)

  /** A view with nothing left blank. */
  predicate Filled(v: View) {
    v.summary != "" && v.experience != ""
  }

  /** The safe defaults of `showResultsOverlay`: a falsy score becomes 0, blank
      texts get their placeholder, and a skill field that is not an array becomes
      empty. The score is not clamped. */
  function Normalise(raw: Gemini.RawAnalysis): (v: View)
    ensures Filled(v)
    ensures v.score == 0 <==> !TruthyNumber(raw.matchPercentage)
    ensures TruthyNumber(raw.matchPercentage) ==> v.score == raw.matchPercentage.value
    ensures Truthy(raw.summary) ==> v.summary == raw.summary.value
    ensures !Truthy(raw.summary) ==> v.summary == NoSummary
    ensures Truthy(raw.experienceAnalysis) ==> v.experience == raw.experienceAnalysis.value
    ensures !Truthy(raw.experienceAnalysis) ==> v.experience == NoAnalysis
    ensures raw.matchingSkills.None? ==> v.matchingSkills == []
    ensures raw.matchingSkills.Some? ==> v.matchingSkills == raw.matchingSkills.value
    ensures raw.missingSkills.None? ==> v.missingSkills == []
    ensures raw.missingSkills.Some? ==> v.missingSkills == raw.missingSkills.value
  {
    View(
      if TruthyNumber(raw.matchPercentage) then raw.matchPercentage.value else 0,
      OrDefault(raw.summary, NoSummary),
      if raw.matchingSkills.Some? then raw.matchingSkills.value else [],
      if raw.missingSkills.Some? then raw.missingSkills.value else [],
      OrDefault(raw.experienceAnalysis, NoAnalysis))
  }

  /** A view written back as an analysis object with every field present. */
  function AsAnalysis(v: View): Gemini.RawAnalysis {
    Gemini.RawAnalysis(Some(v.score), Some(v.matchingSkills), Some(v.missingSkills), Some(v.experience), Some(v.summary))
  }

  /** Normalising is idempotent: a normalised view shown again is unchanged. */
  lemma NormaliseIdempotent(raw: Gemini.RawAnalysis)
    ensures Normalise(AsAnalysis(Normalise(raw))) == Normalise(raw)
  {
  }

  datatype Colour = Green | Yellow | Red {
    function Hex(): string {
      match this
      case Green => "#188038"
      case Yellow => "#f9ab00"
      case Red => "#d93025"
    }

    /** Red < Yellow < Green. */
    function Rank(): nat {
      match this
      case Red => 0
      case Yellow => 1
      case Green => 2
    }
  }

  /** The score badge colour: green from 70, yellow from 40, red below. */
  function ScoreColour(score: int): (c: Colour)
    ensures c == Green <==> score >= 70
    ensures c == Yellow <==> 40 <= score < 70
    ensures c == Red <==> score < 40
  {
    if score >= 70 then Green else if score >= 40 then Yellow else Red
  }

  /** A higher score never gets a worse colour. */
  lemma ScoreColourMonotone(a: int, b: int)
    requires a <= b
    ensures ScoreColour(a).Rank() <= ScoreColour(b).Rank()
  {
  }

  datatype TagKind = Matching | Missing | Placeholder
  datatype Tag = Tag(text: string, kind: TagKind)

  /** The skill tags: one per skill, in order, or a single placeholder "None". */
  function SkillTags(skills: seq<string>, kind: TagKind): (tags: seq<Tag>)
    ensures |skills| == 0 ==> tags == [Tag(NoneTag, Placeholder)]
    ensures |skills| > 0 ==> |tags| == |skills| && forall i :: 0 <= i < |skills| ==> tags[i] == Tag(skills[i], kind)
  {
    if |skills| == 0 then [Tag(NoneTag, Placeholder)] else seq(|skills|, i requires 0 <= i < |skills| => Tag(skills[i], kind))
  }

  /** The save control inside the overlay: its caption, whether it is disabled,
      and the status line under it. */
  datatype SaveControl = SaveControl(caption: string, disabled: bool, status: string)

  const IdleSave := SaveControl(SaveLabel, false, "")

  /** What the save control sends: the page metadata, the shown score, and the
      summary as notes. */
  function SaveRequest(v: View, meta: Scraper.JobMetadata): Sheets.JobData {
    Sheets.JobData(Some(meta.title), Some(meta.company), Some(meta.url), Some(v.score), Some(v.summary))
  }

  /** A click disables the control and shows the busy label. */
  function OnSaveClick(c: SaveControl): (r: SaveControl)
    ensures r.disabled && r.caption == SavingLabel && r.status == c.status
  {
    SaveControl(SavingLabel, true, c.status)
  }

  /** The answer to the save message (None when there is none): success
      keeps the control as the click left it; anything else re-enables it as a
      retry showing the error. */
  function OnSaveAnswer<T>(c: SaveControl, answer: Option<Envelope<T>>): (r: SaveControl)
    ensures answer.Some? && answer.value.Succeeded? ==> r == SaveControl(SavedLabel, c.disabled, SavedStatus)
    ensures !(answer.Some? && answer.value.Succeeded?) ==> r.caption == RetryLabel && !r.disabled
    ensures answer.Some? && answer.value.Failed? ==> r.status == "Error: " + answer.value.error
    ensures answer.None? ==> r.status == "Error: " + UnknownError
  {
    match answer
    case Some(Succeeded(_)) => c.(caption := SavedLabel, status := SavedStatus)
    case Some(Failed(e)) => SaveControl(RetryLabel, false, "Error: " + e)
    case None => SaveControl(RetryLabel, false, "Error: " + UnknownError)
  }

  /** One save attempt: the control ends disabled exactly when the row was
      added, so a failed save can always be retried and a saved one not repeated. */
  lemma SaveAttempt<T>(c: SaveControl, answer: Option<Envelope<T>>)
    ensures var r := OnSaveAnswer(OnSaveClick(c), answer);
            && (r.disabled <==> answer.Some? && answer.value.Succeeded?)
            && (r.disabled ==> r.status == SavedStatus)
            && (!r.disabled ==> r.caption == RetryLabel && r.status != SavedStatus)
  {
    var r := OnSaveAnswer(OnSaveClick(c), answer);
    if !r.disabled {
      assert r.status[0] == 'E' != SavedStatus[0];
    }
  }

  /** The row a save from the overlay appends: a falsy model score was shown
      as 0 and is written "N/A"; the notes are the shown summary, never blank. */
  lemma SavedRowFromOverlay(raw: Gemini.RawAnalysis, meta: Scraper.JobMetadata, date: string)
    ensures var row := Sheets.BuildRow(date, SaveRequest(Normalise(raw), meta));
            && (row[4] == Sheets.NoScore <==> !TruthyNumber(raw.matchPercentage))
            && row[6] == Normalise(raw).summary && row[6] != ""
            && row[3] == meta.url
  {
  }

  /** A child of the page body: the trigger button, an overlay panel (each
      carries the serial number that identifies it), or an element of the host page.
      The trigger's caption and disabled flag are those it is created with; its
      busy/restore cycle during a click is tracked by `AnalyzeClick.Button`. */
  datatype Element =
    | AnalyzeButton(caption: string, disabled: bool)
    | Panel(serial: nat, view: View, meta: Scraper.JobMetadata, save: SaveControl)
    | HostElement(id: string)
  {
    function Id(): string {
      match this
      case AnalyzeButton(_, _) => ButtonId
      case Panel(_, _, _, _) => OverlayId
      case HostElement(id) => id
    }
  }

  /** The body's children, the script's `overlay` reference (the serial of the
      panel it designates), and the serial the next panel gets. */
  datatype Document = Document(body: seq<Element>, overlay: Option<nat>, nextSerial: nat)

  /** Number of children with the given id. */
  function CountId(body: seq<Element>, id: string): nat {
    if |body| == 0 then 0
    else CountId(body[..|body| - 1], id) + (if body[|body| - 1].Id() == id then 1 else 0)
  }

  /** Number of overlay panels. */
  function CountPanels(body: seq<Element>): nat {
    if |body| == 0 then 0
    else CountPanels(body[..|body| - 1]) + (if body[|body| - 1].Panel? then 1 else 0)
  }

  /** Number of panels with the given serial. */
  function CountSerial(body: seq<Element>, k: nat): nat {
    if |body| == 0 then 0
    else CountSerial(body[..|body| - 1], k) + (if body[|body| - 1].Panel? && body[|body| - 1].serial == k then 1 else 0)
  }

  /** `body.removeChild(panel k)`. */
  function RemovePanel(body: seq<Element>, k: nat): seq<Element> {
    if |body| == 0 then []
    else
      var last := body[|body| - 1];
      RemovePanel(body[..|body| - 1], k) + (if last.Panel? && last.serial == k then [] else [last])
  }

  /** The children that are not overlay panels. */
  function HostPart(body: seq<Element>): seq<Element> {
    if |body| == 0 then []
    else HostPart(body[..|body| - 1]) + (if body[|body| - 1].Panel? then [] else [body[|body| - 1]])
  }

  /** The overlay invariant: at most one panel, the reference is set exactly
      when there is one, and it designates that panel. */
  predicate OverlayWf(d: Document) {
    && CountPanels(d.body) <= 1
    && (d.overlay.None? ==> CountPanels(d.body) == 0)
    && (d.overlay.Some? ==> CountSerial(d.body, d.overlay.value) > 0)
  }

  lemma {:induction false} CountsAppend(body: seq<Element>, e: Element)
    ensures CountPanels(body + [e]) == CountPanels(body) + (if e.Panel? then 1 else 0)
    ensures forall id :: CountId(body + [e], id) == CountId(body, id) + (if e.Id() == id then 1 else 0)
    ensures forall k :: CountSerial(body + [e], k) == CountSerial(body, k) + (if e.Panel? && e.serial == k then 1 else 0)
    ensures HostPart(body + [e]) == HostPart(body) + (if e.Panel? then [] else [e])
  {
    assert (body + [e])[..|body|] == body;
  }

  /** Removing panel `k` removes every panel with serial `k` and nothing else. */
  lemma {:induction false} RemovePanelCounts(body: seq<Element>, k: nat)
    ensures CountPanels(RemovePanel(body, k)) + CountSerial(body, k) == CountPanels(body)
    ensures CountSerial(body, k) <= CountPanels(body)
    ensures HostPart(RemovePanel(body, k)) == HostPart(body)
    ensures forall id :: id != OverlayId ==> CountId(RemovePanel(body, k), id) == CountId(body, id)
    decreases |body|
  {
    if |body| > 0 {
      var init := body[..|body| - 1];
      var last := body[|body| - 1];
      assert body == init + [last];
      RemovePanelCounts(init, k);
      CountsAppend(init, last);
      if last.Panel? && last.serial == k {
        assert RemovePanel(body, k) == RemovePanel(init, k) + [];
        assert RemovePanel(init, k) + [] == RemovePanel(init, k);
      } else {
        assert RemovePanel(body, k) == RemovePanel(init, k) + [last];
        CountsAppend(RemovePanel(init, k), last);
      }
    }
  }

  /** `createAnalyzeButton`: on a LinkedIn host, append the trigger unless an
      element with its id already exists. */
  function CreateAnalyzeButton(hostname: string, d: Document): (r: Document)
    ensures !Scraper.OnLinkedIn(hostname) ==> r == d
    ensures Scraper.OnLinkedIn(hostname) ==> CountId(r.body, ButtonId) >= 1
    ensures r == d || (CountId(d.body, ButtonId) == 0 && CountId(r.body, ButtonId) == 1)
    ensures r == d || r == d.(body := d.body + [AnalyzeButton(AnalyzeLabel, false)])
    ensures OverlayWf(d) ==> OverlayWf(r)
  {
    if !Scraper.OnLinkedIn(hostname) || CountId(d.body, ButtonId) > 0 then d
    else
      var button := AnalyzeButton(AnalyzeLabel, false);
      CountsAppend(d.body, button);
      d.(body := d.body + [button])
  }

  /** Injecting twice is injecting once. */
  lemma CreateAnalyzeButtonIdempotent(hostname: string, d: Document)
    ensures CreateAnalyzeButton(hostname, CreateAnalyzeButton(hostname, d)) == CreateAnalyzeButton(hostname, d)
  {
  }

  /** The page after `n` ticks of the two-second injection timer. */
  function Poll(hostname: string, d: Document, n: nat): Document {
    if n == 0 then d else CreateAnalyzeButton(hostname, Poll(hostname, d, n - 1))
  }

  /** However often the timer fires, the page is as after the first tick, so a
      page that had no trigger ends with at most one. */
  lemma {:induction false} PollingInjectsOnce(hostname: string, d: Document, n: nat)
    requires n >= 1
    ensures Poll(hostname, d, n) == CreateAnalyzeButton(hostname, d)
    ensures CountId(d.body, ButtonId) == 0 ==> CountId(Poll(hostname, d, n).body, ButtonId) <= 1
  {
    if n > 1 {
      PollingInjectsOnce(hostname, d, n - 1);
      CreateAnalyzeButtonIdempotent(hostname, d);
    }
  }

  /** The script's `overlay` reference designates a panel the host page has
      since detached from the body. */
  predicate StaleReference(d: Document) {
    d.overlay.Some? && CountSerial(d.body, d.overlay.value) == 0
  }

  /** `showResultsOverlay`: remove the referenced panel, then append a new one
      with an idle save control and point the reference at it. `removeChild`
      throws when the host page has already detached the referenced panel:
      `None` is that throw, before anything is appended or the reference is
      cleared, so the document stays as it was. */
  function ShowResultsOverlay(d: Document, v: View, meta: Scraper.JobMetadata): (r: Option<Document>)
    ensures r.None? <==> StaleReference(d)
    ensures r.Some? ==> r.value.overlay == Some(d.nextSerial) && r.value.nextSerial > d.nextSerial
    ensures r.Some? ==> |r.value.body| > 0 && r.value.body[|r.value.body| - 1] == Panel(d.nextSerial, v, meta, IdleSave)
    ensures r.Some? ==> HostPart(r.value.body) == HostPart(d.body)
    ensures OverlayWf(d) ==> r.Some? && OverlayWf(r.value) && CountPanels(r.value.body) == 1
  {
    if StaleReference(d) then None
    else
      var kept := if d.overlay.Some? then RemovePanel(d.body, d.overlay.value) else d.body;
      var panel := Panel(d.nextSerial, v, meta, IdleSave);
      CountsAppend(kept, panel);
      if d.overlay.Some? then
        RemovePanelCounts(d.body, d.overlay.value);
        Some(Document(kept + [panel], Some(d.nextSerial), d.nextSerial + 1))
      else Some(Document(kept + [panel], Some(d.nextSerial), d.nextSerial + 1))
  }

  /** A show on a stale reference throws, and since the throw leaves the
      reference in place the next show throws as well; only the close control,
      which clears the reference, lets a later show succeed. */
  lemma DetachedOverlayBlocksShows(d: Document, v: View, meta: Scraper.JobMetadata, w: View, meta2: Scraper.JobMetadata)
    requires StaleReference(d)
    ensures ShowResultsOverlay(d, v, meta).None? && ShowResultsOverlay(d, w, meta2).None?
    ensures ShowResultsOverlay(CloseOverlay(d), w, meta2).Some?
  {
  }

  /** The close control: remove the referenced panel if it is still attached
      and clear the reference. */
  function CloseOverlay(d: Document): (r: Document)
    ensures r.overlay.None?
    ensures HostPart(r.body) == HostPart(d.body)
    ensures OverlayWf(d) ==> OverlayWf(r) && CountPanels(r.body) == 0
  {
    if d.overlay.Some? && CountSerial(d.body, d.overlay.value) > 0 then
      RemovePanelCounts(d.body, d.overlay.value);
      Document(RemovePanel(d.body, d.overlay.value), None, d.nextSerial)
    else Document(d.body, None, d.nextSerial)
  }
}
