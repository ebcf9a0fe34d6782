/**
 * The APOD views that decide something: the shared fetch-and-store routine,
 * the three terminal endpoints that drive it, the lookup by date and the
 * choice of picture on the home page.
 *
 * NASA's answer to a request is an input (an oracle from the requested date
 * to a response), and so is the current time.
 */
module ApodViews {
  import opened Common
  import opened Dates
  import opened Json
  import opened ApodModels

  // ---------------------------------------------------------------------------
  // NASA responses
  // ---------------------------------------------------------------------------

  /** What `response.json()` yields for a response. */
  datatype NasaBody =
    | NasaObject(fields: map<string, JsonValue>)   // a JSON object
    | NasaNonObject                                // JSON, but not an object
    | NasaNotJson                                  // `json()` raises

  /**
   * One answer of the APOD endpoint. `error` is the text of the exception the
   * answer leads to, when it leads to one.
   */
  datatype ApodResponse =
    | NoResponse(error: string)                          // connection error or timeout
    | Response(status: int, body: NasaBody, error: string)

  /** NASA's answer for each requested date. */
  type ApodOracle = Date -> ApodResponse

  /** `raise_for_status()` raises for client and server errors. */
  predicate RaisesForStatus(status: int) {
    400 <= status < 600
  }

  /** A `requests` exception escapes the call, `raise_for_status()` or `json()`. */
  predicate RequestFails(resp: ApodResponse) {
    resp.NoResponse? || RaisesForStatus(resp.status) || resp.body.NasaNotJson?
  }

  /** The response gets as far as a JSON object. */
  predicate AnswersObject(resp: ApodResponse) {
    resp.Response? && !RaisesForStatus(resp.status) && resp.body.NasaObject?
  }

  /** The response gets as far as a JSON object whose members the picture table accepts. */
  predicate Delivers(resp: ApodResponse) {
    AnswersObject(resp) && ContentFromResponse(resp.body.fields).Storable?
  }

  /** Writing a row: the columns it stores, or the NOT NULL column that makes SQLite refuse it. */
  datatype RowWrite = Storable(content: ApodContent) | NullInColumn(column: string)

  /** The text of the IntegrityError SQLite raises for a null in `column`. */
  function NotNullMessage(column: string): string {
    "NOT NULL constraint failed: apod_apodimage." + column
  }

  /** A nullable text column: null stays null, anything else is stored as `str(value)`. */
  function NullableText(v: JsonValue): (r: Option<string>)
    ensures r.None? <==> v.JNull?
  {
    if v.JNull? then None else Some(PyStr(v))
  }

  /**
   * The row the `defaults` of `update_or_create` describe, each column
   * taking the member of the same name (a missing member gives '', and
   * 'image' for the media type). A null in title, explanation, url or
   * media_type, the columns that refuse one, fails the write, naming the
   * first such column in table order.
   */
  function ContentFromResponse(fields: map<string, JsonValue>): (r: RowWrite) {
    var title := Member(fields, "title", JString(""));
    var explanation := Member(fields, "explanation", JString(""));
    var url := Member(fields, "url", JString(""));
    var mediaType := Member(fields, "media_type", JString(DefaultMediaType));
    if title.JNull? then NullInColumn("title")
    else if explanation.JNull? then NullInColumn("explanation")
    else if url.JNull? then NullInColumn("url")
    else if mediaType.JNull? then NullInColumn("media_type")
    else Storable(ApodContent(
      PyStr(title), PyStr(explanation), PyStr(url),
      NullableText(Member(fields, "hdurl", JString(""))),
      PyStr(mediaType),
      NullableText(Member(fields, "copyright", JString(""))),
      NullableText(Member(fields, "thumbnail_url", JString("")))))
  }

  /** The JSON value of a nullable column. */
  function NullableJson(v: Option<string>): JsonValue {
    if v.Some? then JString(v.value) else JNull
  }

  /** The members NASA sends for a picture. */
  function ResponseFieldsOf(c: ApodContent): map<string, JsonValue> {
    map["title" := JString(c.title), "explanation" := JString(c.explanation), "url" := JString(c.url),
        "hdurl" := NullableJson(c.hdurl), "media_type" := JString(c.mediaType),
        "copyright" := NullableJson(c.copyright), "thumbnail_url" := NullableJson(c.thumbnailUrl)]
  }

  /** Storing the response that describes a picture stores exactly that picture, nulls included. */
  lemma ContentFromResponseRoundTrip(c: ApodContent)
    ensures ContentFromResponse(ResponseFieldsOf(c)) == Storable(c)
  {
  }

  /** An empty object stores '' everywhere except the media type, which is 'image'. */
  lemma ContentFromEmptyResponse()
    ensures ContentFromResponse(map[]) == Storable(ApodContent("", "", "", Some(""), "image", Some(""), Some("")))
  {
  }

  /** The four columns that refuse a null, in table order. */
  const NotNullColumns: seq<string> := ["title", "explanation", "url", "media_type"]

  /**
   * A write fails exactly when one of the four NOT NULL columns receives a
   * null, and then it names the first of them that does.
   */
  lemma ContentFromResponseFailsOnNull(fields: map<string, JsonValue>)
    ensures var r := ContentFromResponse(fields);
      && (r.NullInColumn? <==> exists k | 0 <= k < 4 :: NotNullColumns[k] in fields && fields[NotNullColumns[k]].JNull?)
      && (r.NullInColumn? ==> exists k | 0 <= k < 4 ::
            && r.column == NotNullColumns[k]
            && fields[NotNullColumns[k]].JNull?
            && forall j | 0 <= j < k :: !(NotNullColumns[j] in fields && fields[NotNullColumns[j]].JNull?))
  {
    var r := ContentFromResponse(fields);
    var cols := NotNullColumns;
    if r.NullInColumn? {
      if r.column == "title" {
        assert cols[0] == "title";
      } else if r.column == "explanation" {
        assert cols[1] == "explanation";
      } else if r.column == "url" {
        assert cols[2] == "url";
      } else {
        assert cols[3] == "media_type";
      }
    } else {
      forall k | 0 <= k < 4
        ensures !(cols[k] in fields && fields[cols[k]].JNull?)
      {
        assert cols[k] in {"title", "explanation", "url", "media_type"};
      }
    }
  }

  /** A null in a nullable column is stored as NULL, not as the text 'None'. */
  lemma NullHdurlStoredAsNull(fields: map<string, JsonValue>)
    requires "hdurl" in fields && fields["hdurl"].JNull?
    requires ContentFromResponse(fields).Storable?
    ensures ContentFromResponse(fields).content.hdurl.None?
  {
  }

  /** A number sent for the title is stored as its decimal text, which `int()` reads back. */
  lemma NumericTitleStoredAsText(fields: map<string, JsonValue>, i: int)
    requires "title" in fields && fields["title"] == JInt(i)
    requires ContentFromResponse(fields).Storable?
    ensures var title := ContentFromResponse(fields).content.title;
      && title == IntToString(i)
      && IntOf(JString(title)) == Some(i)
  {
    assert Member(fields, "title", JString("")) == JInt(i);
    assert ContentFromResponse(fields).content.title == PyStr(JInt(i));
    assert PyStr(JInt(i)) == IntToString(i);
    IntOfDecimalString(i);
  }

  // ---------------------------------------------------------------------------
  // fetch_and_save_apod
  // ---------------------------------------------------------------------------

  function ErrorDetails(error: string): Option<LogDetails> {
    Some(map["error" := JString(error)])
  }

  /** `{'title': data.get('title')}`: the title member as sent, null when it is missing. */
  function TitleDetails(fields: map<string, JsonValue>): Option<LogDetails> {
    Some(map["title" := Member(fields, "title", JNull)])
  }

  function FetchFailedMessage(date: Date): string {
    "Failed to fetch APOD for " + FormatDate(date)
  }

  function FetchedMessage(date: Date): string {
    "Successfully fetched APOD for " + FormatDate(date)
  }

  /**
   * The effect of `fetch_and_save_apod(date)` when NASA answers `resp`: the
   * tables afterwards and the stored row, if any.
   */
  function FetchAndSaveEffect(t: ApodTables, date: Date, resp: ApodResponse, now: Instant): (ApodTables, Option<APODImage>) {
    if RequestFails(resp) then
      (AddLog(t, Error, FetchFailedMessage(date), ErrorDetails(resp.error), now), None)
    else if !resp.body.NasaObject? then
      (AddLog(t, Error, "Error processing APOD data", ErrorDetails(resp.error), now), None)
    else
      var fields := resp.body.fields;
      match ContentFromResponse(fields)
      case NullInColumn(column) =>
        (AddLog(t, Error, "Error processing APOD data", ErrorDetails(NotNullMessage(column)), now), None)
      case Storable(content) =>
        var up := UpsertImage(t, date, content, now);
        (AddLog(up.0, Success, FetchedMessage(date), TitleDetails(fields), now), Some(up.1))
  }

  method FetchAndSaveApod(db: ApodDatabase, date: Date, resp: ApodResponse, now: Instant) returns (apod: Option<APODImage>)
    modifies db
    ensures (db.Tables(), apod) == FetchAndSaveEffect(old(db.Tables()), date, resp, now)
  {
    if RequestFails(resp) {
      db.CreateLog(Error, FetchFailedMessage(date), ErrorDetails(resp.error), now);
      return None;
    }
    if !resp.body.NasaObject? {
      db.CreateLog(Error, "Error processing APOD data", ErrorDetails(resp.error), now);
      return None;
    }
    var fields := resp.body.fields;
    var write := ContentFromResponse(fields);
    if write.NullInColumn? {
      db.CreateLog(Error, "Error processing APOD data", ErrorDetails(NotNullMessage(write.column)), now);
      return None;
    }
    var row, _ := db.UpdateOrCreateImage(date, write.content, now);
    db.CreateLog(Success, FetchedMessage(date), TitleDetails(fields), now);
    apod := Some(row);
  }

  /**
   * A delivered response leaves exactly one row for the date, holding the
   * response's values, touches no other picture, and appends one 'success'
   * entry carrying the title.
   */
  lemma FetchAndSaveStoresResponse(t: ApodTables, date: Date, resp: ApodResponse, now: Instant)
    requires Delivers(resp)
    ensures var r := FetchAndSaveEffect(t, date, resp, now);
      && r.1.Some? && r.1.value.date == date
      && r.1.value.content == ContentFromResponse(resp.body.fields).content
      && r.0.images == t.images[date := r.1.value]
      && r.0.images.Keys == t.images.Keys + {date}
      && r.0.coordinates == t.coordinates
      && r.0.logs == t.logs + [SystemLog(now, Success, FetchedMessage(date), TitleDetails(resp.body.fields))]
  {
  }

  /**
   * Any other answer returns nothing, leaves the pictures alone and appends
   * one 'error' entry; a request error names the date, and a null in a
   * NOT NULL column is reported as SQLite's integrity error.
   */
  lemma FetchAndSaveFailureKeepsImages(t: ApodTables, date: Date, resp: ApodResponse, now: Instant)
    requires !Delivers(resp)
    ensures var r := FetchAndSaveEffect(t, date, resp, now);
      && r.1.None?
      && r.0.images == t.images && r.0.nextImageId == t.nextImageId && r.0.coordinates == t.coordinates
      && |r.0.logs| == |t.logs| + 1 && r.0.logs[..|t.logs|] == t.logs
      && r.0.logs[|t.logs|].level == Error
      && (RequestFails(resp) ==> r.0.logs[|t.logs|].message == FetchFailedMessage(date))
      && (AnswersObject(resp) ==>
            && r.0.logs[|t.logs|].message == "Error processing APOD data"
            && r.0.logs[|t.logs|].details
               == ErrorDetails(NotNullMessage(ContentFromResponse(resp.body.fields).column)))
  {
    var r := FetchAndSaveEffect(t, date, resp, now);
    assert r.0.logs[..|t.logs|] == t.logs;
  }

  /** A null title is refused by the table: nothing is stored and the error names the column. */
  lemma FetchAndSaveNullTitle(t: ApodTables, date: Date, resp: ApodResponse, now: Instant)
    requires AnswersObject(resp) && "title" in resp.body.fields && resp.body.fields["title"].JNull?
    ensures var r := FetchAndSaveEffect(t, date, resp, now);
      && r.1.None? && r.0.images == t.images
      && r.0.logs == t.logs + [SystemLog(now, Error, "Error processing APOD data",
                                         Some(map["error" := JString("NOT NULL constraint failed: apod_apodimage.title")]))]
  {
    assert ContentFromResponse(resp.body.fields) == NullInColumn("title");
    assert NotNullMessage("title") == "NOT NULL constraint failed: apod_apodimage.title";
  }

  /** What one fetch does to the picture table. */
  lemma FetchAndSaveImages(t: ApodTables, date: Date, resp: ApodResponse, now: Instant)
    ensures var r := FetchAndSaveEffect(t, date, resp, now);
      && (Delivers(resp) ==>
            && r.1.Some?
            && r.0.images == t.images[date := r.1.value]
            && r.1.value.content == ContentFromResponse(resp.body.fields).content
            && (date in t.images ==> r.1.value.id == t.images[date].id))
      && (!Delivers(resp) ==> r.0.images == t.images)
  {
  }

  /**
   * Two fetches of one date never make a second row: afterwards the date has
   * at most one row, with the first row's id when both succeed and the
   * second answer's content when the second succeeds; no other date changes.
   */
  lemma FetchAndSaveTwice(t: ApodTables, date: Date, first: ApodResponse, second: ApodResponse, now1: Instant, now2: Instant)
    ensures var r1 := FetchAndSaveEffect(t, date, first, now1);
            var r2 := FetchAndSaveEffect(r1.0, date, second, now2);
      && r2.0.images.Keys <= t.images.Keys + {date}
      && |r2.0.images| <= |t.images| + 1
      && (forall d | d in t.images && d != date :: d in r2.0.images && r2.0.images[d] == t.images[d])
      && (Delivers(second) ==> date in r2.0.images && r2.0.images[date].content == ContentFromResponse(second.body.fields).content)
      && (Delivers(first) && Delivers(second) ==>
            date in r1.0.images && date in r2.0.images && r2.0.images[date].id == r1.0.images[date].id)
  {
    var r1 := FetchAndSaveEffect(t, date, first, now1);
    var r2 := FetchAndSaveEffect(r1.0, date, second, now2);
    FetchAndSaveImages(t, date, first, now1);
    FetchAndSaveImages(r1.0, date, second, now2);
    forall d | d in t.images && d != date
      ensures d in r2.0.images && r2.0.images[d] == t.images[d]
    {
      assert r1.0.images[d] == t.images[d];
    }
    var before, after := t.images.Keys + {date}, r2.0.images.Keys;
    assert after <= before;
    SubsetCardinality(after, before);
    if date in t.images {
      assert before == t.images.Keys;
    } else {
      assert |before| == |t.images.Keys| + 1;
    }
  }

  lemma SubsetCardinality<T>(a: set<T>, b: set<T>)
    requires a <= b
    ensures |a| <= |b|
  {
    assert b == a + (b - a);
  }

  lemma FetchAndSavePreservesValid(t: ApodTables, date: Date, resp: ApodResponse, now: Instant)
    requires TablesValid(t)
    ensures TablesValid(FetchAndSaveEffect(t, date, resp, now).0)
  {
    if RequestFails(resp) || !resp.body.NasaObject? {
      AddLogPreservesValid(t, Error, FetchFailedMessage(date), ErrorDetails(resp.error), now);
      AddLogPreservesValid(t, Error, "Error processing APOD data", ErrorDetails(resp.error), now);
    } else {
      var fields := resp.body.fields;
      match ContentFromResponse(fields)
      case NullInColumn(column) =>
        AddLogPreservesValid(t, Error, "Error processing APOD data", ErrorDetails(NotNullMessage(column)), now);
      case Storable(content) =>
        var up := UpsertImage(t, date, content, now);
        UpsertImagePreservesValid(t, date, content, now);
        AddLogPreservesValid(up.0, Success, FetchedMessage(date), TitleDetails(fields), now);
    }
  }

  // ---------------------------------------------------------------------------
  // terminal_fetch
  // ---------------------------------------------------------------------------

  datatype TerminalFetchReply =
    | FetchSucceeded(title: string, date: string)
    | InvalidDateFormat          // 'Invalid date format. Use YYYY-MM-DD'
    | FetchFailed                // 'Failed to fetch APOD. …'
    | FetchRaised                // an exception reached the endpoint's handler

  /** The date `terminal_fetch` asks NASA for, or why it asks for none. */
  datatype FetchTarget = TargetDate(date: Date) | TargetInvalid | TargetRaises

  function TerminalFetchTarget(body: RequestBody, today: Date): (r: FetchTarget)
    ensures r.TargetDate? ==> InPythonRange(r.date)
  {
    if body.Malformed? then TargetRaises
    else
      match GetMember(body.value, "date", JString(""))
      case None => TargetRaises
      case Some(v) =>
        if !v.JString? then TargetRaises
        else if Lower(v.s) == "yesterday" then
          (if InPythonRange(SubDays(today, 1)) then TargetDate(SubDays(today, 1)) else TargetRaises)
        else
          match ParseDate(v.s)
          case NoMatch => TargetInvalid
          case OutOfRange => TargetRaises
          case Parsed(d) => TargetDate(d)
  }

  function TerminalFetchEffect(t: ApodTables, body: RequestBody, now: Instant, oracle: ApodOracle): (ApodTables, TerminalFetchReply) {
    match TerminalFetchTarget(body, now.date)
    case TargetInvalid => (t, InvalidDateFormat)
    case TargetRaises => (t, FetchRaised)
    case TargetDate(d) =>
      var r := FetchAndSaveEffect(t, d, oracle(d), now);
      (r.0, if r.1.Some? then FetchSucceeded(r.1.value.content.title, FormatDate(r.1.value.date)) else FetchFailed)
  }

  method TerminalFetch(db: ApodDatabase, body: RequestBody, now: Instant, oracle: ApodOracle) returns (reply: TerminalFetchReply)
    modifies db
    ensures (db.Tables(), reply) == TerminalFetchEffect(old(db.Tables()), body, now, oracle)
  {
    var target := TerminalFetchTarget(body, now.date);
    match target
    case TargetInvalid => reply := InvalidDateFormat;
    case TargetRaises => reply := FetchRaised;
    case TargetDate(d) =>
      var apod := FetchAndSaveApod(db, d, oracle(d), now);
      if apod.Some? {
        reply := FetchSucceeded(apod.value.content.title, FormatDate(apod.value.date));
      } else {
        reply := FetchFailed;
      }
  }

  /** 'yesterday', in any letter case, asks for the day before today. */
  lemma TerminalFetchYesterday(members: map<string, JsonValue>, today: Date)
    requires "date" in members && members["date"].JString? && Lower(members["date"].s) == "yesterday"
    requires InPythonRange(SubDays(today, 1))
    ensures var target := TerminalFetchTarget(Decoded(JObject(members)), today);
      target.TargetDate? && DayNumber(target.date) == DayNumber(today) - 1
  {
    SubDaysNumber(today, 1);
  }

  lemma UpperCaseYesterday()
    ensures Lower("YeSTerDAY") == "yesterday"
  {
  }

  /**
   * A string that is neither 'yesterday' nor a text `parse_date` reads as a
   * date is refused without a request: nothing is written.
   */
  lemma TerminalFetchRefusesUnparseable(t: ApodTables, s: string, now: Instant, oracle: ApodOracle)
    requires Lower(s) != "yesterday" && ParseDate(s) == NoMatch
    ensures TerminalFetchEffect(t, Decoded(JObject(map["date" := JString(s)])), now, oracle) == (t, InvalidDateFormat)
  {
  }

  /** A date followed by one newline is still read as that date, so the fetch goes ahead. */
  lemma TerminalFetchAcceptsFinalNewline(d: Date, today: Date)
    requires InPythonRange(d)
    ensures TerminalFetchTarget(Decoded(JObject(map["date" := JString(FormatDate(d) + "\n")])), today) == TargetDate(d)
  {
    ParseFormatWithNewline(d);
    FormatDateShape(d);
    assert |Lower(FormatDate(d) + "\n")| == 11;
  }

  /** A body without a date means '', which is refused the same way. */
  lemma TerminalFetchWithoutDate(t: ApodTables, now: Instant, oracle: ApodOracle)
    ensures TerminalFetchEffect(t, Decoded(JObject(map[])), now, oracle) == (t, InvalidDateFormat)
  {
  }

  // ---------------------------------------------------------------------------
  // terminal_backfill
  // ---------------------------------------------------------------------------

  datatype DayResult = DayFetched(date: string, title: string) | DayFailed(date: string)

  datatype BackfillReply =
    | BackfillDone(count: nat, total: int, results: seq<DayResult>)
    | BackfillRaised

  /** `today - timedelta(days=i+1)` for `i in range(days)`. */
  function DaysBefore(today: Date, days: int): (r: seq<Date>)
    ensures |r| == if days < 0 then 0 else days
    ensures forall i | 0 <= i < |r| :: r[i] == SubDays(today, i + 1)
  {
    seq(if days < 0 then 0 else days, i requires 0 <= i => SubDays(today, i + 1))
  }

  /** The dates of a backfill all lie before today, newest first, one day apart. */
  lemma DaysBeforeDescend(today: Date, days: int)
    ensures var ds := DaysBefore(today, days);
      forall i | 0 <= i < |ds| :: DayNumber(ds[i]) == DayNumber(today) - (i + 1)
  {
    var ds := DaysBefore(today, days);
    forall i | 0 <= i < |ds|
      ensures DayNumber(ds[i]) == DayNumber(today) - (i + 1)
    {
      SubDaysNumber(today, i + 1);
    }
  }

  function DayResultOf(date: Date, apod: Option<APODImage>): DayResult {
    if apod.Some? then DayFetched(FormatDate(date), apod.value.content.title) else DayFailed(FormatDate(date))
  }

  /** The number of fetched days in a results list. */
  function CountFetched(results: seq<DayResult>): nat {
    if results == [] then 0
    else CountFetched(results[..|results| - 1]) + if results[|results| - 1].DayFetched? then 1 else 0
  }

  lemma {:induction false} CountFetchedBound(results: seq<DayResult>)
    ensures CountFetched(results) <= |results|
  {
    if results != [] {
      CountFetchedBound(results[..|results| - 1]);
    }
  }

  /** Fetching a list of dates in order; `overflowed` when a date fell outside year 1. */
  datatype BackfillRun = BackfillRun(tables: ApodTables, results: seq<DayResult>, overflowed: bool)

  function BackfillRunOf(t: ApodTables, dates: seq<Date>, oracle: ApodOracle, now: Instant): BackfillRun
    decreases |dates|
  {
    if dates == [] then BackfillRun(t, [], false)
    else if !InPythonRange(dates[0]) then BackfillRun(t, [], true)
    else
      var r := FetchAndSaveEffect(t, dates[0], oracle(dates[0]), now);
      var rest := BackfillRunOf(r.0, dates[1..], oracle, now);
      BackfillRun(rest.tables, [DayResultOf(dates[0], r.1)] + rest.results, rest.overflowed)
  }

  /** A run that completes reports one result per date, in the order of the dates. */
  lemma {:induction false} BackfillRunReportsEachDate(t: ApodTables, dates: seq<Date>, oracle: ApodOracle, now: Instant)
    ensures var run := BackfillRunOf(t, dates, oracle, now);
      !run.overflowed ==>
        && |run.results| == |dates|
        && forall i | 0 <= i < |dates| :: run.results[i].date == FormatDate(dates[i])
    decreases |dates|
  {
    if dates != [] && InPythonRange(dates[0]) {
      var r := FetchAndSaveEffect(t, dates[0], oracle(dates[0]), now);
      BackfillRunReportsEachDate(r.0, dates[1..], oracle, now);
    }
  }

  /** `int(data.get('days', 7))`, or `None` when that raises. */
  function DaysRequested(body: RequestBody): Option<int> {
    if body.Malformed? then None
    else
      match GetMember(body.value, "days", JInt(7))
      case None => None
      case Some(v) => IntOf(v)
  }

  function TerminalBackfillEffect(t: ApodTables, body: RequestBody, now: Instant, oracle: ApodOracle): (ApodTables, BackfillReply) {
    match DaysRequested(body)
    case None => (t, BackfillRaised)
    case Some(days) =>
      var run := BackfillRunOf(t, DaysBefore(now.date, days), oracle, now);
      if run.overflowed then (run.tables, BackfillRaised)
      else (run.tables, BackfillDone(CountFetched(run.results), days, run.results))
  }

  /** The part of a run still to come from `t` on `rest` completes `final` after `done`. */
  ghost predicate RunContinues(t: ApodTables, rest: seq<Date>, done: seq<DayResult>, final: BackfillRun, oracle: ApodOracle, now: Instant) {
    var run := BackfillRunOf(t, rest, oracle, now);
    run.tables == final.tables && done + run.results == final.results && run.overflowed == final.overflowed
  }

  lemma RunContinuesStep(t: ApodTables, rest: seq<Date>, done: seq<DayResult>, final: BackfillRun, oracle: ApodOracle, now: Instant)
    requires RunContinues(t, rest, done, final, oracle, now)
    requires rest != [] && InPythonRange(rest[0])
    ensures var r := FetchAndSaveEffect(t, rest[0], oracle(rest[0]), now);
      RunContinues(r.0, rest[1..], done + [DayResultOf(rest[0], r.1)], final, oracle, now)
  {
  }

  lemma RunContinuesOverflow(t: ApodTables, rest: seq<Date>, done: seq<DayResult>, final: BackfillRun, oracle: ApodOracle, now: Instant)
    requires RunContinues(t, rest, done, final, oracle, now)
    requires rest != [] && !InPythonRange(rest[0])
    ensures final.tables == t && final.overflowed
  {
  }

  lemma RunContinuesEnd(t: ApodTables, done: seq<DayResult>, final: BackfillRun, oracle: ApodOracle, now: Instant)
    requires RunContinues(t, [], done, final, oracle, now)
    ensures final == BackfillRun(t, done, false)
  {
  }

  /** One day of the backfill loop keeps the run on course and the count in step. */
  lemma BackfillStep(before: ApodTables, after: ApodTables, apod: Option<APODImage>, dates: seq<Date>, i: nat,
                     results: seq<DayResult>, final: BackfillRun, oracle: ApodOracle, now: Instant)
    requires i < |dates| && InPythonRange(dates[i])
    requires RunContinues(before, dates[i..], results, final, oracle, now)
    requires (after, apod) == FetchAndSaveEffect(before, dates[i], oracle(dates[i]), now)
    ensures RunContinues(after, dates[i + 1..], results + [DayResultOf(dates[i], apod)], final, oracle, now)
    ensures CountFetched(results + [DayResultOf(dates[i], apod)]) == CountFetched(results) + if apod.Some? then 1 else 0
  {
    assert dates[i..][0] == dates[i] && dates[i..][1..] == dates[i + 1..];
    RunContinuesStep(before, dates[i..], results, final, oracle, now);
    var result := DayResultOf(dates[i], apod);
    assert (results + [result])[..|results|] == results;
  }

  method TerminalBackfill(db: ApodDatabase, body: RequestBody, now: Instant, oracle: ApodOracle) returns (reply: BackfillReply)
    modifies db
    ensures (db.Tables(), reply) == TerminalBackfillEffect(old(db.Tables()), body, now, oracle)
  {
    var requested := DaysRequested(body);
    if requested.None? {
      return BackfillRaised;
    }
    var days := requested.value;
    var results, successCount, overflowed := BackfillLoop(db, now.date, days, now, oracle);
    if overflowed {
      return BackfillRaised;
    }
    reply := BackfillDone(successCount, days, results);
  }

  /** The loop of `terminal_backfill`: the days before today, most recent first. */
  method BackfillLoop(db: ApodDatabase, today: Date, days: int, now: Instant, oracle: ApodOracle)
    returns (results: seq<DayResult>, successCount: nat, overflowed: bool)
    modifies db
    ensures var run := BackfillRunOf(old(db.Tables()), DaysBefore(today, days), oracle, now);
      && db.Tables() == run.tables && overflowed == run.overflowed
      && (!overflowed ==> results == run.results && successCount == CountFetched(results))
  {
    ghost var dates := DaysBefore(today, days);
    ghost var final := BackfillRunOf(db.Tables(), dates, oracle, now);
    assert dates[0..] == dates;
    results, successCount := [], 0;
    var i := 0;
    while i < days
      invariant 0 <= i <= |dates|
      invariant RunContinues(db.Tables(), dates[i..], results, final, oracle, now)
      invariant successCount == CountFetched(results)
    {
      var date := SubDays(today, i + 1);
      assert dates[i..][0] == dates[i] == date;
      if !InPythonRange(date) {
        RunContinuesOverflow(db.Tables(), dates[i..], results, final, oracle, now);
        return results, successCount, true;
      }
      ghost var before := db.Tables();
      var apod := FetchAndSaveApod(db, date, oracle(date), now);
      BackfillStep(before, db.Tables(), apod, dates, i, results, final, oracle, now);
      results := results + [DayResultOf(date, apod)];
      if apod.Some? {
        successCount := successCount + 1;
      }
      i := i + 1;
    }
    assert dates[i..] == [];
    RunContinuesEnd(db.Tables(), results, final, oracle, now);
    overflowed := false;
  }

  /**
   * A completed backfill reports `days` results, the i-th for the day i+1
   * days before today, and a success count no larger than that.
   */
  lemma TerminalBackfillReport(t: ApodTables, body: RequestBody, now: Instant, oracle: ApodOracle)
    ensures var reply := TerminalBackfillEffect(t, body, now, oracle).1;
      reply.BackfillDone? ==>
        && reply.count <= |reply.results|
        && |reply.results| == (if reply.total < 0 then 0 else reply.total)
        && forall i | 0 <= i < |reply.results| ::
             reply.results[i].date == FormatDate(SubDays(now.date, i + 1))
  {
    var reply := TerminalBackfillEffect(t, body, now, oracle).1;
    if reply.BackfillDone? {
      var days := DaysRequested(body).value;
      BackfillRunReportsEachDate(t, DaysBefore(now.date, days), oracle, now);
      CountFetchedBound(reply.results);
    }
  }

  // ---------------------------------------------------------------------------
  // terminal_populate_coordinates
  // ---------------------------------------------------------------------------

  datatype CoordinateSeed = CoordinateSeed(name: string, kind: string, latitude: real, longitude: real, body: string)

  const TerminalCoordinateSeeds: seq<CoordinateSeed> := [
    CoordinateSeed("Tycho Crater", "crater", 0.0, -43.3, "Moon"),
    CoordinateSeed("Olympus Mons", "mountain", 18.65, 133.8, "Mars"),
    CoordinateSeed("Andromeda Galaxy", "galaxy", 41.27, 121.17, "Space"),
    CoordinateSeed("Gale Crater", "crater", -5.4, 137.8, "Mars"),
    CoordinateSeed("Mare Tranquillitatis", "other", 8.5, 31.4, "Moon"),
    CoordinateSeed("Valles Marineris", "other", -14.0, -59.2, "Mars"),
    CoordinateSeed("Orion Nebula", "nebula", -5.4, 83.8, "Space"),
    CoordinateSeed("Crab Nebula", "nebula", 22.0, 83.6, "Space"),
    CoordinateSeed("Copernicus Crater", "crater", 9.7, -20.1, "Moon"),
    CoordinateSeed("Eagle Nebula", "nebula", -13.8, 275.0, "Space")
  ]

  /** The defaults of a seed: its type, position and "<Type> located on <body>". */
  function SeedFields(s: CoordinateSeed): CoordinateFields {
    CoordinateFields(s.kind, s.latitude, s.longitude, Some(TitleCase(s.kind) + " located on " + s.body))
  }

  /** The tables after `get_or_create` on each seed in turn, and how many rows were created. */
  function PopulateEffect(t: ApodTables, seeds: seq<CoordinateSeed>, now: Instant): (ApodTables, nat)
    decreases |seeds|
  {
    if seeds == [] then (t, 0)
    else
      var g := GetOrCreateCoordinate(t, seeds[0].name, seeds[0].body, SeedFields(seeds[0]), now);
      var rest := PopulateEffect(g.0, seeds[1..], now);
      (rest.0, rest.1 + if g.2 then 1 else 0)
  }

  /** `get_or_create` on each seed in turn, counting the rows created. */
  method GetOrCreateEach(db: ApodDatabase, seeds: seq<CoordinateSeed>, now: Instant) returns (count: nat)
    modifies db
    ensures (db.Tables(), count) == PopulateEffect(old(db.Tables()), seeds, now)
  {
    ghost var final := PopulateEffect(db.Tables(), seeds, now);
    count := 0;
    for i := 0 to |seeds|
      invariant PopulateEffect(db.Tables(), seeds[i..], now).0 == final.0
      invariant count + PopulateEffect(db.Tables(), seeds[i..], now).1 == final.1
    {
      assert seeds[i..][0] == seeds[i] && seeds[i..][1..] == seeds[i + 1..];
      var _, created := db.GetOrCreateCoordinateRow(seeds[i].name, seeds[i].body, SeedFields(seeds[i]), now);
      if created {
        count := count + 1;
      }
    }
    assert seeds[|seeds|..] == [];
  }

  /** `terminal_populate_coordinates`: the ten built-in coordinates, keyed on (name, body). */
  method TerminalPopulateCoordinates(db: ApodDatabase, now: Instant) returns (count: nat)
    modifies db
    ensures (db.Tables(), count) == PopulateEffect(old(db.Tables()), TerminalCoordinateSeeds, now)
  {
    count := GetOrCreateEach(db, TerminalCoordinateSeeds, now);
  }

  function SeedKeys(seeds: seq<CoordinateSeed>): set<CoordinateKey> {
    set s | s in seeds :: (s.name, s.body)
  }

  /**
   * Populating leaves every existing coordinate as it was, adds a row for
   * each missing seed, and counts exactly the rows it added.
   */
  lemma PopulateKeepsExisting(t: ApodTables, seeds: seq<CoordinateSeed>, now: Instant)
    ensures var r := PopulateEffect(t, seeds, now);
      && r.0.coordinates.Keys == t.coordinates.Keys + SeedKeys(seeds)
      && (forall k | k in t.coordinates :: r.0.coordinates[k] == t.coordinates[k])
      && r.0.images == t.images && r.0.logs == t.logs
  {
    PopulateKeys(t, seeds, now);
    PopulateKeepsValues(t, seeds, now);
  }

  /** The coordinate keys after populating: the old ones and one per seed; images and logs are untouched. */
  lemma {:induction false} PopulateKeys(t: ApodTables, seeds: seq<CoordinateSeed>, now: Instant)
    ensures var r := PopulateEffect(t, seeds, now);
      && r.0.coordinates.Keys == t.coordinates.Keys + SeedKeys(seeds)
      && r.0.images == t.images && r.0.logs == t.logs
    decreases |seeds|
  {
    if seeds != [] {
      var g := GetOrCreateCoordinate(t, seeds[0].name, seeds[0].body, SeedFields(seeds[0]), now);
      var rest := PopulateEffect(g.0, seeds[1..], now);
      assert PopulateEffect(t, seeds, now).0 == rest.0;
      PopulateKeys(g.0, seeds[1..], now);
      SeedKeysCons(seeds);
      assert g.0.coordinates.Keys == t.coordinates.Keys + {(seeds[0].name, seeds[0].body)};
    }
  }

  /** Populating never changes a coordinate that already existed. */
  lemma {:induction false} PopulateKeepsValues(t: ApodTables, seeds: seq<CoordinateSeed>, now: Instant)
    ensures var r := PopulateEffect(t, seeds, now);
      forall k | k in t.coordinates :: k in r.0.coordinates && r.0.coordinates[k] == t.coordinates[k]
    decreases |seeds|
  {
    if seeds != [] {
      var g := GetOrCreateCoordinate(t, seeds[0].name, seeds[0].body, SeedFields(seeds[0]), now);
      var rest := PopulateEffect(g.0, seeds[1..], now);
      assert PopulateEffect(t, seeds, now).0 == rest.0;
      PopulateKeepsValues(g.0, seeds[1..], now);
      forall k | k in t.coordinates
        ensures k in rest.0.coordinates && rest.0.coordinates[k] == t.coordinates[k]
      {
        assert k in g.0.coordinates && g.0.coordinates[k] == t.coordinates[k];
      }
    }
  }

  /** The count a populate run reports is the number of rows it added. */
  lemma {:induction false} PopulateCountsAdded(t: ApodTables, seeds: seq<CoordinateSeed>, now: Instant)
    ensures var r := PopulateEffect(t, seeds, now);
      r.1 == |r.0.coordinates| - |t.coordinates|
    decreases |seeds|
  {
    if seeds != [] {
      var g := GetOrCreateCoordinate(t, seeds[0].name, seeds[0].body, SeedFields(seeds[0]), now);
      PopulateCountsAdded(g.0, seeds[1..], now);
      GetOrCreateCoordinateGrows(t, seeds[0].name, seeds[0].body, SeedFields(seeds[0]), now);
    }
  }

  lemma SeedKeysCons(seeds: seq<CoordinateSeed>)
    requires seeds != []
    ensures SeedKeys(seeds) == {(seeds[0].name, seeds[0].body)} + SeedKeys(seeds[1..])
  {
    assert forall s | s in seeds :: s == seeds[0] || s in seeds[1..];
  }

  lemma GetOrCreateCoordinateGrows(t: ApodTables, name: string, body: string, defaults: CoordinateFields, now: Instant)
    ensures var g := GetOrCreateCoordinate(t, name, body, defaults, now);
      && g.0.coordinates.Keys == t.coordinates.Keys + {(name, body)}
      && (forall k | k in t.coordinates :: g.0.coordinates[k] == t.coordinates[k])
      && |g.0.coordinates| == |t.coordinates| + (if g.2 then 1 else 0)
      && g.0.images == t.images && g.0.logs == t.logs
  {
    var g := GetOrCreateCoordinate(t, name, body, defaults, now);
    if g.2 {
      assert g.0.coordinates.Keys == t.coordinates.Keys + {(name, body)};
      assert |g.0.coordinates.Keys| == |t.coordinates.Keys| + 1;
    }
  }

  /** Populating when every seed already has its row changes nothing and reports 0. */
  lemma {:induction false} PopulateNothingMissing(t: ApodTables, seeds: seq<CoordinateSeed>, now: Instant)
    requires SeedKeys(seeds) <= t.coordinates.Keys
    ensures PopulateEffect(t, seeds, now) == (t, 0)
    decreases |seeds|
  {
    if seeds != [] {
      assert seeds[0] in seeds;
      assert SeedKeys(seeds[1..]) <= SeedKeys(seeds) by {
        assert forall s | s in seeds[1..] :: s in seeds;
      }
      PopulateNothingMissing(t, seeds[1..], now);
    }
  }

  /** An immediate second run reports 0 new coordinates and changes nothing. */
  lemma PopulateTwiceCreatesNone(t: ApodTables, now1: Instant, now2: Instant)
    ensures var first := PopulateEffect(t, TerminalCoordinateSeeds, now1);
      PopulateEffect(first.0, TerminalCoordinateSeeds, now2) == (first.0, 0)
  {
    var first := PopulateEffect(t, TerminalCoordinateSeeds, now1);
    PopulateKeepsExisting(t, TerminalCoordinateSeeds, now1);
    PopulateNothingMissing(first.0, TerminalCoordinateSeeds, now2);
  }

  // ---------------------------------------------------------------------------
  // api_image_by_date
  // ---------------------------------------------------------------------------

  datatype ImageByDateReply =
    | ImageFound(id: nat, title: string, date: string)   // 200
    | DateRequired                                       // 400, no parameter
    | DateRejected                                       // 400, the date does not exist
    | ImageNotFound                                      // 404

  function StatusOf(r: ImageByDateReply): int {
    match r
    case ImageFound(_, _, _) => 200
    case DateRequired => 400
    case DateRejected => 400
    case ImageNotFound => 404
  }

  /**
   * `api_image_by_date` for the `date` query parameter: a text `parse_date`
   * reads as no date gives `None`, which matches no row (404); a text of the
   * YYYY-M-D form naming no real day raises inside the handler (400).
   */
  function ApiImageByDate(t: ApodTables, param: Option<string>): (r: ImageByDateReply)
    ensures r.ImageFound? <==> param.Some? && param.value != "" && ParseDate(param.value).Parsed?
                               && ParseDate(param.value).date in t.images
    ensures r.DateRequired? <==> param.None? || param.value == ""
  {
    if param.None? || param.value == "" then DateRequired
    else
      match ParseDate(param.value)
      case OutOfRange => DateRejected
      case NoMatch => ImageNotFound
      case Parsed(d) =>
        if d in t.images then
          ImageFound(t.images[d].id, t.images[d].content.title, FormatDate(t.images[d].date))
        else ImageNotFound
  }

  /** Asking for a stored date in its ISO form returns that date's row. */
  lemma ApiImageByDateFindsStored(t: ApodTables, d: Date)
    requires TablesValid(t) && d in t.images && InPythonRange(d)
    ensures ApiImageByDate(t, Some(FormatDate(d)))
         == ImageFound(t.images[d].id, t.images[d].content.title, FormatDate(d))
  {
    ParseFormatRoundTrip(d);
  }

  /** A stored date followed by one newline, or written without zero padding, still finds its row. */
  lemma ApiImageByDateReadsLooseForms(t: ApodTables, d: Date)
    requires TablesValid(t) && d in t.images && InPythonRange(d)
    ensures ApiImageByDate(t, Some(FormatDate(d) + "\n"))
         == ImageFound(t.images[d].id, t.images[d].content.title, FormatDate(d))
    ensures d.month < 10 && d.day < 10 ==>
      ApiImageByDate(t, Some(UnpaddedDate(d))) == ImageFound(t.images[d].id, t.images[d].content.title, FormatDate(d))
  {
    ParseFormatWithNewline(d);
    if d.month < 10 && d.day < 10 {
      UnpaddedDateParsedByPattern(d);
    }
  }

  /** A missing parameter is a 400; a date with no row is a 404. */
  lemma ApiImageByDateStatuses(t: ApodTables, d: Date)
    requires d !in t.images && InPythonRange(d)
    ensures StatusOf(ApiImageByDate(t, None)) == 400
    ensures StatusOf(ApiImageByDate(t, Some(""))) == 400
    ensures StatusOf(ApiImageByDate(t, Some(FormatDate(d)))) == 404
  {
    ParseFormatRoundTrip(d);
  }

  // ---------------------------------------------------------------------------
  // home
  // ---------------------------------------------------------------------------

  datatype HomePage = ShowsImage(image: APODImage) | ErrorPage | ServerError

  /** `APODImage.objects.get(id=…)`. */
  ghost function ImageWithId(t: ApodTables, id: int): (r: Option<APODImage>)
    ensures r.Some? ==> r.value in t.images.Values && r.value.id == id
  {
    if exists d | d in t.images :: t.images[d].id == id then
      var d :| d in t.images && t.images[d].id == id;
      Some(t.images[d])
    else None
  }

  /** The page for a chosen picture, with the 'info' entry recording the visit. */
  function Shown(t: ApodTables, apod: Option<APODImage>, now: Instant): (ApodTables, HomePage) {
    if apod.None? then (t, ErrorPage)
    else
      var a := apod.value;
      (AddLog(t, Info, "APOD home page accessed - " + a.content.title + " (" + FormatDate(a.date) + ")", None, now),
       ShowsImage(a))
  }

  /**
   * `home`: the picture named by the `image` parameter; otherwise today's,
   * else the latest stored, else whatever fetching today and then yesterday
   * stores. A non-numeric `image` parameter raises.
   */
  ghost function HomeEffect(t: ApodTables, imageParam: Option<string>, now: Instant, oracle: ApodOracle): (ApodTables, HomePage) {
    if imageParam.Some? && imageParam.value != "" then
      match ParseInt(imageParam.value)
      case None => (t, ServerError)
      case Some(id) => Shown(t, ImageWithId(t, id), now)
    else
      var today := now.date;
      if today in t.images then Shown(t, Some(t.images[today]), now)
      else if LatestImage(t).Some? then Shown(t, LatestImage(t), now)
      else
        var first := FetchAndSaveEffect(t, today, oracle(today), now);
        if first.1.Some? then Shown(first.0, first.1, now)
        else if !InPythonRange(SubDays(today, 1)) then (first.0, ServerError)
        else
          var yesterday := SubDays(today, 1);
          var second := FetchAndSaveEffect(first.0, yesterday, oracle(yesterday), now);
          Shown(second.0, second.1, now)
  }

  /** With today's picture stored, the home page shows it and only logs the visit. */
  lemma HomePrefersToday(t: ApodTables, now: Instant, oracle: ApodOracle)
    requires now.date in t.images
    ensures var r := HomeEffect(t, None, now, oracle);
      && r.1 == ShowsImage(t.images[now.date])
      && r.0.images == t.images
      && |r.0.logs| == |t.logs| + 1 && r.0.logs[|t.logs|].level == Info
  {
  }

  /** Without today's picture, the latest stored picture is shown and nothing is fetched. */
  lemma HomeFallsBackToLatest(t: ApodTables, now: Instant, oracle: ApodOracle)
    requires TablesValid(t)
    requires now.date !in t.images && t.images != map[]
    ensures var r := HomeEffect(t, None, now, oracle);
      && r.1.ShowsImage? && r.1.image in t.images.Values
      && (forall d | d in t.images :: DayNumber(d) <= DayNumber(r.1.image.date))
      && r.0.images == t.images
  {
  }

  /** The home page writes pictures only when the table was empty and no id was asked for. */
  lemma HomeFetchesOnlyWhenEmpty(t: ApodTables, imageParam: Option<string>, now: Instant, oracle: ApodOracle)
    ensures HomeEffect(t, imageParam, now, oracle).0.images != t.images ==>
      t.images == map[] && (imageParam.None? || imageParam.value == "")
  {
  }
}
