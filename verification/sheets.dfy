/** The spreadsheet client (sheets.js `SheetsService`): resolve the tracker
    spreadsheet through a one-slot cache, a title search and creation, and
    append one row per saved job. The Drive and Sheets endpoints are an
    abstract server; every request the client issues is recorded as a `Call`. */
module Sheets {
  import opened Js
  import opened Text

  const TrackerTitle := "Job Application Tracker - CV Matcher"
  const CreateFailedMessage := "Failed to create spreadsheet"
  const AppendFailedMessage := "Failed to append data"
  const UnknownField := "Unknown"
  const AnalyzedStatus := "Analyzed"
  const NoScore := "N/A"

  /** The column titles of the tracker, in order. */
  const HeaderNames: seq<string> := ["Date", "Company", "Job Title", "Job URL", "Match Score", "Status", "Notes"]

  datatype HeaderCell = HeaderCell(text: string, bold: bool)

  /** The part of a spreadsheet-create body the client fills in. */
  datatype SheetLayout = SheetLayout(title: string, frozenRows: nat, header: seq<HeaderCell>)

  /** How the title search settles: `fetch` or the body read rejects, the answer
      is not OK, or it lists the ids of the matching files in server order. */
  datatype SearchReply = SearchRejected(message: string) | SearchNotOk | SearchFiles(ids: seq<string>)

  /** How the create request settles; an OK answer carries the new id. */
  datatype CreateReply = CreateRejected(message: string) | CreateNotOk | Created(id: string)

  /** How the append request settles; a non-OK answer may carry `error.message`. */
  datatype AppendReply = AppendRejected(message: string) | AppendNotOk(errorMessage: Option<string>) | AppendOk(body: string)

  /** The server as the client sees it: the ids whose metadata fetch succeeds,
      and how the next search, create and append requests settle. */
  datatype Drive = Drive(live: set<string>, search: SearchReply, create: CreateReply, append: AppendReply)

  /** A request issued to the server. */
  datatype Call =
    | Verify(id: string)
    | Search(title: string)
    | Create(layout: SheetLayout)
    | Append(id: string, row: seq<string>)

  /** The `jobData` of a save request. */
  datatype JobData = JobData(
    title: Option<string>,
    company: Option<string>,
    url: Option<string>,
    matchScore: Option<int>,
    recommendation: Option<string>)

  /** The result of `getOrCreateSheet`: the settled promise, the stored
      `spreadsheetId` afterwards, the server afterwards, and the requests made. */
  datatype Resolution = Resolution(result: Result<string>, cache: Option<string>, drive: Drive, calls: seq<Call>)

  /** The layout `createNewSheet` sends. */
  function TrackerLayout(): (l: SheetLayout)
    ensures l.title == TrackerTitle && l.frozenRows == 1
    ensures |l.header| == |HeaderNames| == 7
    ensures forall i :: 0 <= i < |l.header| ==> l.header[i].text == HeaderNames[i] && l.header[i].bold
  {
    SheetLayout(TrackerTitle, 1, [
      HeaderCell("Date", true),
      HeaderCell("Company", true),
      HeaderCell("Job Title", true),
      HeaderCell("Job URL", true),
      HeaderCell("Match Score", true),
      HeaderCell("Status", true),
      HeaderCell("Notes", true)])
  }

  /** `searchSheetByName`: the first listed id, or null (None) when the answer
      is not OK or lists nothing; a rejected request propagates. */
  function SearchSheetByName(drive: Drive): (r: Result<Option<string>>)
    ensures r.Err? <==> drive.search.SearchRejected?
    ensures r.Ok? && r.value.Some? <==> drive.search.SearchFiles? && |drive.search.ids| > 0
    ensures r.Ok? && r.value.Some? ==> r.value.value == drive.search.ids[0]
  {
    match drive.search
    case SearchRejected(m) => Err(m)
    case SearchNotOk => Ok(None)
    case SearchFiles(ids) => if |ids| > 0 then Ok(Some(ids[0])) else Ok(None)
  }

  /** `createNewSheet`: send the tracker layout; an OK answer's id becomes a live sheet. */
  function CreateNewSheet(drive: Drive): (r: (Result<string>, Drive))
    ensures r.0.Ok? <==> drive.create.Created?
    ensures r.0.Ok? ==> r.0.value == drive.create.id && r.1.live == drive.live + {r.0.value}
    ensures drive.create == CreateNotOk ==> r.0 == Err(CreateFailedMessage)
    ensures r.0.Err? ==> r.1 == drive
  {
    match drive.create
    case CreateRejected(m) => (Err(m), drive)
    case CreateNotOk => (Err(CreateFailedMessage), drive)
    case Created(id) => (Ok(id), drive.(live := drive.live + {id}))
  }

  /** The stored id is usable: present, non-empty, and its metadata fetch succeeds. */
  predicate CacheVerifies(cache: Option<string>, drive: Drive) {
    Truthy(cache) && cache.value in drive.live
  }

  /** The verification request made before falling through, if any. */
  function VerifyCalls(cache: Option<string>): seq<Call> {
    if Truthy(cache) then [Verify(cache.value)] else []
  }

  /** `getOrCreateSheet`: the cached id if it verifies, else the first search
      hit (cached), else a newly created sheet (cached). */
  function GetOrCreateSheet(cache: Option<string>, drive: Drive): (r: Resolution)
    // After any success the stored id is the returned id; a failure stores nothing.
    ensures r.result.Ok? ==> r.cache == Some(r.result.value)
    ensures r.result.Err? ==> r.cache == cache
    // A cached id that verifies is returned with no search and no create.
    ensures CacheVerifies(cache, drive) ==>
              r == Resolution(Ok(cache.value), cache, drive, [Verify(cache.value)])
    // Otherwise the search is always issued, right after the failed verification if any.
    ensures !CacheVerifies(cache, drive) ==>
              |r.calls| > |VerifyCalls(cache)| && r.calls[..|VerifyCalls(cache)| + 1] == VerifyCalls(cache) + [Search(TrackerTitle)]
    // A truthy search hit is cached and returned, and nothing is created.
    ensures !CacheVerifies(cache, drive) && SearchSheetByName(drive).Ok? && Truthy(SearchSheetByName(drive).value) ==>
              && r.result == Ok(SearchSheetByName(drive).value.value)
              && r.calls == VerifyCalls(cache) + [Search(TrackerTitle)]
              && r.drive == drive
    // No valid cache and no hit: exactly one create, issued last.
    ensures !CacheVerifies(cache, drive) && SearchSheetByName(drive).Ok? && !Truthy(SearchSheetByName(drive).value) ==>
              && r.calls == VerifyCalls(cache) + [Search(TrackerTitle), Create(TrackerLayout())]
              && (r.result.Ok? <==> drive.create.Created?)
              && (r.result.Ok? ==> r.result.value == drive.create.id && r.drive.live == drive.live + {r.result.value})
    // At most one create ever, never an append, and no sheet disappears.
    ensures forall i :: 0 <= i < |r.calls| && r.calls[i].Create? ==> i == |r.calls| - 1
    ensures forall i :: 0 <= i < |r.calls| ==> !r.calls[i].Append?
    ensures drive.live <= r.drive.live
  {
    if CacheVerifies(cache, drive) then Resolution(Ok(cache.value), cache, drive, [Verify(cache.value)])
    else
      var tried := VerifyCalls(cache) + [Search(TrackerTitle)];
      match SearchSheetByName(drive)
      case Err(m) => Resolution(Err(m), cache, drive, tried)
      case Ok(found) =>
        if Truthy(found) then Resolution(Ok(found.value), Some(found.value), drive, tried)
        else
          var (created, after) := CreateNewSheet(drive);
          var calls := tried + [Create(TrackerLayout())];
          match created
          case Err(m) => Resolution(Err(m), cache, after, calls)
          case Ok(id) => Resolution(Ok(id), Some(id), after, calls)
  }

  /** A server whose search hits are live sheets and which hands out non-empty ids. */
  predicate Coherent(drive: Drive) {
    && (drive.search.SearchFiles? && |drive.search.ids| > 0 ==> drive.search.ids[0] in drive.live)
    && (drive.create.Created? ==> drive.create.id != "")
  }

  /** Resolving again after a success returns the same id straight from the
      cache: the tracker is never created twice by sequential saves. */
  lemma ResolveTwiceReusesTracker(cache: Option<string>, drive: Drive)
    requires Coherent(drive)
    requires GetOrCreateSheet(cache, drive).result.Ok?
    ensures var first := GetOrCreateSheet(cache, drive);
            GetOrCreateSheet(first.cache, first.drive)
              == Resolution(first.result, first.cache, first.drive, [Verify(first.result.value)])
  {
  }

  /** The Match Score cell: `"<n>%"` for a truthy score, `"N/A"` for a missing or zero one. */
  function ScoreCell(score: Option<int>): (cell: string)
    ensures cell == NoScore <==> !TruthyNumber(score)
    ensures TruthyNumber(score) ==> cell == IntToString(score.value) + "%"
  {
    if TruthyNumber(score) then
      var cell := IntToString(score.value) + "%";
      assert cell[|cell| - 1] != NoScore[|NoScore| - 1];
      cell
    else NoScore
  }

  /** Reads a Match Score cell back: the number before a trailing `%`, if any. */
  function ReadScoreCell(cell: string): Option<int> {
    if |cell| >= 1 && cell[|cell| - 1] == '%' then ParseInt(cell[..|cell| - 1]) else None
  }

  /** The Match Score cell keeps a truthy score exactly and reads back as no
      score otherwise, zero included. */
  lemma ScoreCellRoundTrip(score: Option<int>)
    ensures ReadScoreCell(ScoreCell(score)) == if TruthyNumber(score) then score else None
  {
    var cell := ScoreCell(score);
    if TruthyNumber(score) {
      assert cell[..|cell| - 1] == IntToString(score.value);
      IntToStringRoundTrip(score.value);
    }
  }

  /** A score of 72 is written as "72%", and a score of 0 as "N/A". */
  lemma ScoreCellExamples()
    ensures ScoreCell(Some(72)) == "72%"
    ensures ScoreCell(Some(0)) == NoScore && ScoreCell(None) == NoScore
  {
    assert NatToDecimal(7) == "7";
    assert NatToDecimal(72) == NatToDecimal(7) + [DigitChar(2)];
  }

  /** The appended row: one cell per header column. */
  function BuildRow(date: string, job: JobData): (row: seq<string>)
    ensures |row| == |TrackerLayout().header|
    ensures row[0] == date
    ensures row[1] == (if Truthy(job.company) then job.company.value else UnknownField)
    ensures row[2] == (if Truthy(job.title) then job.title.value else UnknownField)
    ensures row[3] == (if Truthy(job.url) then job.url.value else "")
    ensures row[4] == ScoreCell(job.matchScore)
    ensures row[5] == AnalyzedStatus
    ensures row[6] == (if Truthy(job.recommendation) then job.recommendation.value else "")
  {
    [ date,
      OrDefault(job.company, UnknownField),
      OrDefault(job.title, UnknownField),
      OrDefault(job.url, ""),
      ScoreCell(job.matchScore),
      AnalyzedStatus,
      OrDefault(job.recommendation, "") ]
  }

  datatype AppendOutcome = AppendOutcome(result: Result<string>, call: Call)

  /** `appendJob`: one append request carrying the built row; a non-OK answer
      rejects with the server's message or the fallback text. */
  function AppendJob(drive: Drive, id: string, date: string, job: JobData): (o: AppendOutcome)
    ensures o.call == Append(id, BuildRow(date, job))
    ensures o.result.Ok? <==> drive.append.AppendOk?
    ensures drive.append.AppendOk? ==> o.result.value == drive.append.body
    ensures drive.append.AppendNotOk? ==>
              o.result == Err(if Truthy(drive.append.errorMessage) then drive.append.errorMessage.value else AppendFailedMessage)
  {
    var call := Append(id, BuildRow(date, job));
    match drive.append
    case AppendRejected(m) => AppendOutcome(Err(m), call)
    case AppendNotOk(m) => AppendOutcome(Err(OrDefault(m, AppendFailedMessage)), call)
    case AppendOk(body) => AppendOutcome(Ok(body), call)
  }
}
