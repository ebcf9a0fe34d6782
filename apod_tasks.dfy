/**
 * The four periodic APOD tasks: fetching today's picture, checking NASA for
 * an update, backfilling the archive, and purging week-old log entries.
 * The scheduler that runs them is not modelled; each task is one call with
 * the current time and NASA's answers as inputs.
 */
module ApodTasks {
  import opened Common
  import opened Dates
  import opened Json
  import opened ApodModels
  import opened ApodViews

  // ---------------------------------------------------------------------------
  // fetch_latest_apod
  // ---------------------------------------------------------------------------

  function FetchLatestEffect(t: ApodTables, now: Instant, oracle: ApodOracle): ApodTables {
    var today := now.date;
    if today in t.images then
      AddLog(t, Info, "APOD for " + FormatDate(today) + " already exists", None, now)
    else
      var r := FetchAndSaveEffect(t, today, oracle(today), now);
      if r.1.Some? then AddLog(r.0, Success, "Successfully fetched latest APOD: " + r.1.value.content.title, None, now)
      else AddLog(r.0, Error, "Failed to fetch APOD for " + FormatDate(today), None, now)
  }

  method FetchLatestApod(db: ApodDatabase, now: Instant, oracle: ApodOracle)
    modifies db
    ensures db.Tables() == FetchLatestEffect(old(db.Tables()), now, oracle)
  {
    var today := now.date;
    if today in db.images {
      db.CreateLog(Info, "APOD for " + FormatDate(today) + " already exists", None, now);
      return;
    }
    var apod := FetchAndSaveApod(db, today, oracle(today), now);
    if apod.Some? {
      db.CreateLog(Success, "Successfully fetched latest APOD: " + apod.value.content.title, None, now);
    } else {
      db.CreateLog(Error, "Failed to fetch APOD for " + FormatDate(today), None, now);
    }
  }

  /** With today's picture stored, the task only appends one 'info' entry. */
  lemma FetchLatestWhenPresent(t: ApodTables, now: Instant, oracle: ApodOracle)
    requires now.date in t.images
    ensures var r := FetchLatestEffect(t, now, oracle);
      && r.images == t.images && r.nextImageId == t.nextImageId && r.coordinates == t.coordinates
      && r.logs == t.logs + [SystemLog(now, Info, "APOD for " + FormatDate(now.date) + " already exists", None)]
  {
  }

  /**
   * Without it, the task fetches today and appends two entries: the
   * fetch's own, then 'success' or 'error'.
   */
  lemma FetchLatestWhenAbsent(t: ApodTables, now: Instant, oracle: ApodOracle)
    requires now.date !in t.images
    ensures var r := FetchLatestEffect(t, now, oracle);
      && |r.logs| == |t.logs| + 2
      && r.logs[|t.logs| + 1].level == (if Delivers(oracle(now.date)) then Success else Error)
      && r.images.Keys == t.images.Keys + (if Delivers(oracle(now.date)) then {now.date} else {})
  {
    FetchAndSaveImages(t, now.date, oracle(now.date), now);
  }

  // ---------------------------------------------------------------------------
  // check_nasa_api_update
  // ---------------------------------------------------------------------------

  function WarnCheckFailed(t: ApodTables, text: string, now: Instant): ApodTables {
    AddLog(t, Warning, "APOD check failed: " + text, None, now)
  }

  /**
   * `datetime.strptime(v, '%Y-%m-%d')` for the decoded `date` member: only a
   * string is accepted. The argument check names the type of anything else,
   * but writes `None` itself for a null.
   */
  function StrptimeValue(v: JsonValue): (r: StrptimeResult)
    ensures v.JString? ==> r == Strptime(v.s)
    ensures !v.JString? ==> r.StrptimeError?
  {
    if v.JString? then Strptime(v.s)
    else StrptimeError("strptime() argument 1 must be str, not " + (if v.JNull? then "None" else TypeName(v)))
  }

  /** The date NASA's current picture is for, when the answer gets that far. */
  function ReturnedDate(resp: ApodResponse): (r: Option<Date>)
    ensures r.Some? ==> AnswersObject(resp) && "date" in resp.body.fields
    ensures r.Some? ==> StrptimeValue(resp.body.fields["date"]) == StrptimeDate(r.value)
    ensures AnswersObject(resp) && "date" in resp.body.fields && r.None? ==>
      StrptimeValue(resp.body.fields["date"]).StrptimeError?
  {
    if !AnswersObject(resp) || "date" !in resp.body.fields then None
    else
      match StrptimeValue(resp.body.fields["date"])
      case StrptimeDate(d) => Some(d)
      case _ => None
  }

  /**
   * A stale row's columns after `data.get(column, existing.column)` for
   * title, explanation, url and hdurl, or the NOT NULL column a null
   * member makes `save()` fail on.
   */
  function RefreshedContent(c: ApodContent, fields: map<string, JsonValue>): RowWrite {
    var title := Member(fields, "title", JString(c.title));
    var explanation := Member(fields, "explanation", JString(c.explanation));
    var url := Member(fields, "url", JString(c.url));
    if title.JNull? then NullInColumn("title")
    else if explanation.JNull? then NullInColumn("explanation")
    else if url.JNull? then NullInColumn("url")
    else Storable(c.(title := PyStr(title), explanation := PyStr(explanation), url := PyStr(url),
                     hdurl := if "hdurl" in fields then NullableText(fields["hdurl"]) else c.hdurl))
  }

  /** A stored row is stale when it was last saved more than an hour before now. */
  predicate IsStale(row: APODImage, now: Instant) {
    Earlier(row.updatedAt, MinusOneHour(now))
  }

  function CheckUpdateEffect(t: ApodTables, resp: ApodResponse, now: Instant): ApodTables {
    match ReturnedDate(resp)
    case None => WarnCheckFailed(t, CheckFailureText(resp), now)
    case Some(d) => CheckReturnedDate(t, d, resp.body.fields, now)
  }

  /** The text after "APOD check failed: " when no date comes back. */
  function CheckFailureText(resp: ApodResponse): string
    requires ReturnedDate(resp).None?
  {
    if RequestFails(resp) || !resp.body.NasaObject? then resp.error
    else if "date" !in resp.body.fields then "'date'"
    else StrptimeValue(resp.body.fields["date"]).message
  }

  /** What the check does once it has the date of NASA's current picture. */
  function CheckReturnedDate(t: ApodTables, d: Date, fields: map<string, JsonValue>, now: Instant): ApodTables {
    if d !in t.images then
      match ContentFromResponse(fields)
      case NullInColumn(column) => WarnCheckFailed(t, NotNullMessage(column), now)
      case Storable(content) =>
        var c := CreateImage(t, d, content, now);
        AddLog(c.0, Success, "New APOD detected and saved: " + c.1.content.title, None, now)
    else if IsStale(t.images[d], now) then
      var existing := t.images[d];
      match RefreshedContent(existing.content, fields)
      case NullInColumn(column) => WarnCheckFailed(t, NotNullMessage(column), now)
      case Storable(content) =>
        var refreshed := APODImage(existing.id, d, content, existing.createdAt, existing.updatedAt);
        AddLog(SaveImage(t, refreshed, now), Info, "Updated existing APOD: " + refreshed.content.title, None, now)
    else t
  }

  method CheckNasaApiUpdate(db: ApodDatabase, resp: ApodResponse, now: Instant)
    modifies db
    ensures db.Tables() == CheckUpdateEffect(old(db.Tables()), resp, now)
  {
    if RequestFails(resp) || !resp.body.NasaObject? {
      db.CreateLog(Warning, "APOD check failed: " + resp.error, None, now);
      return;
    }
    var fields := resp.body.fields;
    if "date" !in fields {
      db.CreateLog(Warning, "APOD check failed: " + "'date'", None, now);
      return;
    }
    var parsed := StrptimeValue(fields["date"]);
    if parsed.StrptimeError? {
      db.CreateLog(Warning, "APOD check failed: " + parsed.message, None, now);
      return;
    }
    var date := parsed.date;
    if date !in db.images {
      var write := ContentFromResponse(fields);
      if write.NullInColumn? {
        db.CreateLog(Warning, "APOD check failed: " + NotNullMessage(write.column), None, now);
        return;
      }
      var apod := db.CreateImageRow(date, write.content, now);
      db.CreateLog(Success, "New APOD detected and saved: " + apod.content.title, None, now);
    } else if IsStale(db.images[date], now) {
      var existing := db.images[date];
      var write := RefreshedContent(existing.content, fields);
      if write.NullInColumn? {
        db.CreateLog(Warning, "APOD check failed: " + NotNullMessage(write.column), None, now);
        return;
      }
      existing := APODImage(existing.id, date, write.content, existing.createdAt, existing.updatedAt);
      db.SaveImageRow(existing, now);
      db.CreateLog(Info, "Updated existing APOD: " + existing.content.title, None, now);
    }
  }

  /**
   * The check never removes a row, and adds one only for the returned date
   * when that date had none and the answer's columns are storable: a new
   * row with the next id and the answer's content.
   */
  lemma CheckCreatesOnlyWhenAbsent(t: ApodTables, resp: ApodResponse, now: Instant)
    ensures var r := CheckUpdateEffect(t, resp, now);
      && r.images.Keys == t.images.Keys
           + (if ReturnedDate(resp).Some? && ContentFromResponse(resp.body.fields).Storable?
              then {ReturnedDate(resp).value} else {})
      && (ReturnedDate(resp).Some? && ReturnedDate(resp).value !in t.images
          && ContentFromResponse(resp.body.fields).Storable? ==>
            r.images[ReturnedDate(resp).value]
              == APODImage(t.nextImageId, ReturnedDate(resp).value, ContentFromResponse(resp.body.fields).content, now, now))
      && (forall d | d in t.images && (ReturnedDate(resp).None? || d != ReturnedDate(resp).value) :: r.images[d] == t.images[d])
  {
    match ReturnedDate(resp)
    case None =>
    case Some(d) =>
      var fields := resp.body.fields;
      if d !in t.images {
        match ContentFromResponse(fields)
        case NullInColumn(_) =>
        case Storable(content) =>
          assert CheckUpdateEffect(t, resp, now).images == t.images[d := APODImage(t.nextImageId, d, content, now, now)];
      } else if IsStale(t.images[d], now) {
        var existing := t.images[d];
        match RefreshedContent(existing.content, fields)
        case NullInColumn(_) =>
        case Storable(content) =>
          assert CheckUpdateEffect(t, resp, now).images.Keys == t.images.Keys;
      }
  }

  /**
   * A stale row takes title, explanation, url and hdurl from the answer
   * (keeping each absent one, storing `str()` of a non-string, and NULL
   * for a null hdurl), keeps media type, copyright, thumbnail, id and
   * creation time, and is stamped now; one 'info' entry is appended.
   */
  lemma CheckRefreshesStaleRow(t: ApodTables, resp: ApodResponse, now: Instant)
    requires ReturnedDate(resp).Some? && ReturnedDate(resp).value in t.images
    requires IsStale(t.images[ReturnedDate(resp).value], now)
    requires RefreshedContent(t.images[ReturnedDate(resp).value].content, resp.body.fields).Storable?
    ensures var d := ReturnedDate(resp).value;
            var old_ := t.images[d];
            var r := CheckUpdateEffect(t, resp, now);
            var fields := resp.body.fields;
      && r.images == t.images[d := r.images[d]]
      && r.images[d].content.title == PyStr(Member(fields, "title", JString(old_.content.title)))
      && r.images[d].content.explanation == PyStr(Member(fields, "explanation", JString(old_.content.explanation)))
      && r.images[d].content.url == PyStr(Member(fields, "url", JString(old_.content.url)))
      && r.images[d].content.hdurl == (if "hdurl" in fields then NullableText(fields["hdurl"]) else old_.content.hdurl)
      && ("title" !in fields ==> r.images[d].content.title == old_.content.title)
      && r.images[d].content.mediaType == old_.content.mediaType
      && r.images[d].content.copyright == old_.content.copyright
      && r.images[d].content.thumbnailUrl == old_.content.thumbnailUrl
      && r.images[d].id == old_.id && r.images[d].createdAt == old_.createdAt && r.images[d].updatedAt == now
      && |r.logs| == |t.logs| + 1 && r.logs[|t.logs|].level == Info
  {
  }

  /**
   * A null in a column that refuses one, on the create path or the
   * refresh path, writes no picture and warns with SQLite's message.
   */
  lemma CheckRefusesNull(t: ApodTables, resp: ApodResponse, now: Instant)
    requires ReturnedDate(resp).Some?
    requires var d := ReturnedDate(resp).value;
      || (d !in t.images && ContentFromResponse(resp.body.fields).NullInColumn?)
      || (d in t.images && IsStale(t.images[d], now)
          && RefreshedContent(t.images[d].content, resp.body.fields).NullInColumn?)
    ensures var d := ReturnedDate(resp).value;
            var column := if d !in t.images then ContentFromResponse(resp.body.fields).column
                          else RefreshedContent(t.images[d].content, resp.body.fields).column;
      && column in NotNullColumns
      && CheckUpdateEffect(t, resp, now) == WarnCheckFailed(t, NotNullMessage(column), now)
  {
  }

  /** A row saved within the last hour leaves every table exactly as it was. */
  lemma CheckLeavesFreshRow(t: ApodTables, resp: ApodResponse, now: Instant)
    requires ReturnedDate(resp).Some? && ReturnedDate(resp).value in t.images
    requires !IsStale(t.images[ReturnedDate(resp).value], now)
    ensures CheckUpdateEffect(t, resp, now) == t
  {
  }

  /** Every failure appends exactly one 'warning' entry and writes no picture. */
  lemma CheckFailureWarnsOnce(t: ApodTables, resp: ApodResponse, now: Instant)
    requires ReturnedDate(resp).None?
    ensures var r := CheckUpdateEffect(t, resp, now);
      && r.images == t.images && r.nextImageId == t.nextImageId && r.coordinates == t.coordinates
      && |r.logs| == |t.logs| + 1 && r.logs[..|t.logs|] == t.logs
      && r.logs[|t.logs|].level == Warning
      && r.logs[|t.logs|].message[..19] == "APOD check failed: "
  {
    var r := CheckUpdateEffect(t, resp, now);
    assert r.logs[..|t.logs|] == t.logs;
  }

  /** A date sent as a number fails with `strptime`'s TypeError, naming the Python type. */
  lemma CheckRefusesNumericDate(t: ApodTables, resp: ApodResponse, now: Instant, n: int)
    requires AnswersObject(resp) && "date" in resp.body.fields && resp.body.fields["date"] == JInt(n)
    ensures CheckUpdateEffect(t, resp, now)
              == WarnCheckFailed(t, "strptime() argument 1 must be str, not int", now)
  {
    assert ReturnedDate(resp).None?;
    assert TypeName(JInt(n)) == "int";
    assert "strptime() argument 1 must be str, not " + "int" == "strptime() argument 1 must be str, not int";
    assert CheckFailureText(resp) == "strptime() argument 1 must be str, not int";
  }

  /** A null date fails with `strptime`'s TypeError, which shows `None` rather than a type name. */
  lemma CheckRefusesNullDate(t: ApodTables, resp: ApodResponse, now: Instant)
    requires AnswersObject(resp) && "date" in resp.body.fields && resp.body.fields["date"] == JNull
    ensures CheckUpdateEffect(t, resp, now)
              == WarnCheckFailed(t, "strptime() argument 1 must be str, not None", now)
  {
    assert ReturnedDate(resp).None?;
    assert "strptime() argument 1 must be str, not " + "None" == "strptime() argument 1 must be str, not None";
    assert CheckFailureText(resp) == "strptime() argument 1 must be str, not None";
  }

  /** A date string naming a day the month does not have fails with `strptime`'s range error. */
  lemma CheckRefusesMissingDay(t: ApodTables, resp: ApodResponse, now: Instant)
    requires AnswersObject(resp) && "date" in resp.body.fields && resp.body.fields["date"] == JString("2024-02-30")
    ensures CheckUpdateEffect(t, resp, now) == WarnCheckFailed(t, "day is out of range for month", now)
  {
    StrptimeDayOutOfRange();
  }

  // ---------------------------------------------------------------------------
  // backfill_apod_archive
  // ---------------------------------------------------------------------------

  /** The number of days the archive backfill covers when none is given. */
  const DefaultBackfillDays := 30

  /** `today - timedelta(days=i)` for `i in range(days)`: today first. */
  function ArchiveDates(today: Date, days: int): (r: seq<Date>)
    ensures |r| == if days < 0 then 0 else days
    ensures forall i | 0 <= i < |r| :: r[i] == SubDays(today, i)
  {
    seq(if days < 0 then 0 else days, i requires 0 <= i => SubDays(today, i))
  }

  /** The archive backfill covers today and the days before it, one day apart. */
  lemma ArchiveDatesFromToday(today: Date, days: int)
    ensures var ds := ArchiveDates(today, days);
      && (days > 0 ==> ds[0] == today)
      && forall i | 0 <= i < |ds| :: DayNumber(ds[i]) == DayNumber(today) - i
  {
    var ds := ArchiveDates(today, days);
    forall i | 0 <= i < |ds|
      ensures DayNumber(ds[i]) == DayNumber(today) - i
    {
      SubDaysNumber(today, i);
    }
  }

  /** The dates in turn, fetching only those without a row; `.1` when a date overflowed. */
  function ArchiveRunOf(t: ApodTables, dates: seq<Date>, oracle: ApodOracle, now: Instant): (ApodTables, bool)
    decreases |dates|
  {
    if dates == [] then (t, false)
    else if !InPythonRange(dates[0]) then (t, true)
    else
      var next := if dates[0] in t.images then t else FetchAndSaveEffect(t, dates[0], oracle(dates[0]), now).0;
      ArchiveRunOf(next, dates[1..], oracle, now)
  }

  /** The tables afterwards, and whether the task completed (an overflow raises). */
  function BackfillArchiveEffect(t: ApodTables, now: Instant, oracle: ApodOracle, days: int := DefaultBackfillDays)
    : (ApodTables, bool)
  {
    var run := ArchiveRunOf(t, ArchiveDates(now.date, days), oracle, now);
    if run.1 then (run.0, false)
    else (AddLog(run.0, Success, "Completed backfill of " + IntToString(days) + " days", None, now), true)
  }

  ghost predicate ArchiveContinues(t: ApodTables, rest: seq<Date>, final: (ApodTables, bool), oracle: ApodOracle, now: Instant) {
    ArchiveRunOf(t, rest, oracle, now) == final
  }

  method BackfillApodArchive(db: ApodDatabase, now: Instant, oracle: ApodOracle, days: int := DefaultBackfillDays)
    returns (completed: bool)
    modifies db
    ensures (db.Tables(), completed) == BackfillArchiveEffect(old(db.Tables()), now, oracle, days)
  {
    var today := now.date;
    ghost var dates := ArchiveDates(today, days);
    ghost var final := ArchiveRunOf(db.Tables(), dates, oracle, now);
    assert dates[0..] == dates;
    var i := 0;
    while i < days
      invariant 0 <= i <= |dates|
      invariant ArchiveContinues(db.Tables(), dates[i..], final, oracle, now)
    {
      var date := SubDays(today, i);
      assert dates[i..][0] == date && dates[i..][1..] == dates[i + 1..];
      if !InPythonRange(date) {
        return false;
      }
      if date !in db.images {
        var _ := FetchAndSaveApod(db, date, oracle(date), now);
      }
      i := i + 1;
    }
    assert dates[i..] == [];
    db.CreateLog(Success, "Completed backfill of " + IntToString(days) + " days", None, now);
    completed := true;
  }

  /**
   * The archive backfill never changes a row that existed, and adds rows
   * only for the dates it visits.
   */
  lemma {:induction false} ArchiveRunKeepsExistingRows(t: ApodTables, dates: seq<Date>, oracle: ApodOracle, now: Instant)
    ensures var r := ArchiveRunOf(t, dates, oracle, now).0;
      && (forall d | d in t.images :: d in r.images && r.images[d] == t.images[d])
      && (forall d | d in r.images && d !in t.images :: d in dates)
    decreases |dates|
  {
    if dates != [] && InPythonRange(dates[0]) {
      var next := if dates[0] in t.images then t else FetchAndSaveEffect(t, dates[0], oracle(dates[0]), now).0;
      FetchAndSaveImages(t, dates[0], oracle(dates[0]), now);
      ArchiveRunKeepsExistingRows(next, dates[1..], oracle, now);
      assert forall d | d in dates[1..] :: d in dates;
    }
  }

  /** A completed archive backfill ends with exactly one 'success' entry naming the day count. */
  lemma BackfillArchiveEndsWithSuccess(t: ApodTables, days: int, now: Instant, oracle: ApodOracle)
    ensures var r := BackfillArchiveEffect(t, now, oracle, days);
      r.1 ==> r.0.logs[|r.0.logs| - 1] == SystemLog(now, Success, "Completed backfill of " + IntToString(days) + " days", None)
  {
  }

  /**
   * Run with no day count, the archive backfill visits today and the 29 days
   * before it, and a completed run reports "Completed backfill of 30 days".
   */
  lemma BackfillArchiveDefaultsToThirtyDays(t: ApodTables, now: Instant, oracle: ApodOracle)
    ensures var r := BackfillArchiveEffect(t, now, oracle);
      r.1 ==> r.0.logs[|r.0.logs| - 1].message == "Completed backfill of 30 days"
    ensures var ds := ArchiveDates(now.date, DefaultBackfillDays);
      |ds| == 30 && ds[0] == now.date && ds[29] == SubDays(now.date, 29)
  {
    assert IntToString(30) == "30" by {
      assert NatToString(30) == NatToString(3) + [DigitChar(0)];
    }
    assert SubDays(now.date, 0) == now.date;
  }

  // ---------------------------------------------------------------------------
  // cleanup_old_logs
  // ---------------------------------------------------------------------------

  function CleanupEffect(t: ApodTables, now: Instant): ApodTables {
    var d := DeleteLogsBefore(t, MinusDays(now, 7));
    AddLog(d.0, Info, "Cleaned up " + IntToString(d.1) + " old log entries", None, now)
  }

  method CleanupOldLogs(db: ApodDatabase, now: Instant)
    modifies db
    ensures db.Tables() == CleanupEffect(old(db.Tables()), now)
  {
    var cutoff := MinusDays(now, 7);
    var deletedCount := db.DeleteLogsOlderThan(cutoff);
    db.CreateLog(Info, "Cleaned up " + IntToString(deletedCount) + " old log entries", None, now);
  }

  /**
   * The purge keeps exactly the entries stamped at or after seven days
   * before now, in order, then appends one 'info' entry with the number
   * deleted.
   */
  lemma CleanupKeepsExactlyRecent(t: ApodTables, now: Instant)
    ensures var r := CleanupEffect(t, now);
            var cutoff := MinusDays(now, 7);
            var kept := r.logs[..|r.logs| - 1];
      && EpochSeconds(cutoff) == EpochSeconds(now) - 7 * SecondsPerDay
      && kept == LogsFrom(t.logs, cutoff)
      && (forall l | l in t.logs :: l in kept <==> !Earlier(l.timestamp, cutoff))
      && (forall l | l in kept :: l in t.logs)
      && r.logs[|r.logs| - 1] == SystemLog(now, Info, "Cleaned up " + IntToString(|t.logs| - |kept|) + " old log entries", None)
      && r.images == t.images && r.coordinates == t.coordinates
  {
    var cutoff := MinusDays(now, 7);
    LogsFromKeepsExactlyTheRecent(t.logs, cutoff);
    var r := CleanupEffect(t, now);
    assert r.logs[..|r.logs| - 1] == LogsFrom(t.logs, cutoff);
    var kept := LogsFrom(t.logs, cutoff);
    forall l | l in kept
      ensures !Earlier(l.timestamp, cutoff)
    {
      var i :| 0 <= i < |kept| && kept[i] == l;
    }
  }
}
