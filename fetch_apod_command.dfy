/**
 * The `fetch_apod` management command: a backfill of the days before today,
 * one given date, or yesterday. Unlike the web view it writes no log
 * entries, and it accepts only a 200 answer.
 */
module FetchApodCommand {
  import opened Common
  import opened Dates
  import opened ApodModels
  import opened ApodViews

  /** The effect of `fetch_single_apod(date)` when NASA answers `resp`, and what it returns. */
  function FetchSingleEffect(t: ApodTables, date: Date, resp: ApodResponse, now: Instant): (ApodTables, bool) {
    if resp.NoResponse? || resp.status != 200 || !resp.body.NasaObject? then (t, false)
    else
      match ContentFromResponse(resp.body.fields)
      case NullInColumn(_) => (t, false)
      case Storable(content) => (UpsertImage(t, date, content, now).0, true)
  }

  method FetchSingleApod(db: ApodDatabase, date: Date, resp: ApodResponse, now: Instant) returns (ok: bool)
    modifies db
    ensures (db.Tables(), ok) == FetchSingleEffect(old(db.Tables()), date, resp, now)
  {
    if resp.NoResponse? {
      return false;
    }
    if resp.status != 200 {
      return false;
    }
    if !resp.body.NasaObject? {
      return false;
    }
    var write := ContentFromResponse(resp.body.fields);
    if write.NullInColumn? {
      return false;
    }
    var _, _ := db.UpdateOrCreateImage(date, write.content, now);
    ok := true;
  }

  /** Any status but 200 returns False and writes nothing. */
  lemma FetchSingleNeeds200(t: ApodTables, date: Date, resp: ApodResponse, now: Instant)
    requires resp.Response? && resp.status != 200
    ensures FetchSingleEffect(t, date, resp, now) == (t, false)
  {
  }

  /**
   * A 200 answer with a JSON object stores its content under the date (the
   * same defaults as the web view) and returns True; no log entry is written
   * in any case.
   */
  lemma FetchSingleStores(t: ApodTables, date: Date, resp: ApodResponse, now: Instant)
    ensures var r := FetchSingleEffect(t, date, resp, now);
      && r.0.logs == t.logs && r.0.coordinates == t.coordinates
      && (r.1 <==> resp.Response? && resp.status == 200 && resp.body.NasaObject?
                   && ContentFromResponse(resp.body.fields).Storable?)
      && (r.1 ==> (&& r.0.images.Keys == t.images.Keys + {date}
                   && r.0.images[date].content == ContentFromResponse(resp.body.fields).content
                   && forall d | d in t.images && d != date :: r.0.images[d] == t.images[d]))
      && (!r.1 ==> r.0 == t)
  {
  }

  // ---------------------------------------------------------------------------
  // handle
  // ---------------------------------------------------------------------------

  datatype CommandOutcome =
    | BackfillReport(successes: nat, days: int)   // "Successfully fetched s/d images"
    | InvalidDate                                 // "Invalid date format. Use YYYY-MM-DD"
    | SingleFetch(date: Date, ok: bool)
    | Crashed                                     // an exception ends the command

  /** The backfill loop over `dates`: tables, successes, and whether a date overflowed. */
  function SingleRunOf(t: ApodTables, dates: seq<Date>, oracle: ApodOracle, now: Instant): (ApodTables, nat, bool)
    decreases |dates|
  {
    if dates == [] then (t, 0, false)
    else if !InPythonRange(dates[0]) then (t, 0, true)
    else
      var r := FetchSingleEffect(t, dates[0], oracle(dates[0]), now);
      var rest := SingleRunOf(r.0, dates[1..], oracle, now);
      (rest.0, rest.1 + if r.1 then 1 else 0, rest.2)
  }

  function HandleEffect(t: ApodTables, dateArg: Option<string>, backfill: int, now: Instant, oracle: ApodOracle)
    : (ApodTables, CommandOutcome)
  {
    if backfill > 0 then
      var run := SingleRunOf(t, DaysBefore(now.date, backfill), oracle, now);
      (run.0, if run.2 then Crashed else BackfillReport(run.1, backfill))
    else if dateArg.Some? && dateArg.value != "" then
      match ParseDate(dateArg.value)
      case NoMatch => (t, InvalidDate)
      case OutOfRange => (t, Crashed)
      case Parsed(d) =>
        var r := FetchSingleEffect(t, d, oracle(d), now);
        (r.0, SingleFetch(d, r.1))
    else if !InPythonRange(SubDays(now.date, 1)) then (t, Crashed)
    else
      var yesterday := SubDays(now.date, 1);
      var r := FetchSingleEffect(t, yesterday, oracle(yesterday), now);
      (r.0, SingleFetch(yesterday, r.1))
  }

  ghost predicate SingleRunContinues(t: ApodTables, rest: seq<Date>, count: nat, final: (ApodTables, nat, bool),
                                     oracle: ApodOracle, now: Instant) {
    var run := SingleRunOf(t, rest, oracle, now);
    run.0 == final.0 && count + run.1 == final.1 && run.2 == final.2
  }

  method Handle(db: ApodDatabase, dateArg: Option<string>, backfill: int, now: Instant, oracle: ApodOracle)
    returns (outcome: CommandOutcome)
    modifies db
    ensures (db.Tables(), outcome) == HandleEffect(old(db.Tables()), dateArg, backfill, now, oracle)
  {
    var today := now.date;
    if backfill > 0 {
      var days := backfill;
      ghost var dates := DaysBefore(today, days);
      ghost var final := SingleRunOf(db.Tables(), dates, oracle, now);
      assert dates[0..] == dates;
      var successCount: nat := 0;
      for i := 0 to days
        invariant |dates| == days
        invariant SingleRunContinues(db.Tables(), dates[i..], successCount, final, oracle, now)
      {
        var date := SubDays(today, i + 1);
        assert dates[i..][0] == date && dates[i..][1..] == dates[i + 1..];
        if !InPythonRange(date) {
          return Crashed;
        }
        var ok := FetchSingleApod(db, date, oracle(date), now);
        if ok {
          successCount := successCount + 1;
        }
      }
      assert dates[days..] == [];
      outcome := BackfillReport(successCount, days);
    } else if dateArg.Some? && dateArg.value != "" {
      var parsed := ParseDate(dateArg.value);
      match parsed
      case NoMatch => outcome := InvalidDate;
      case OutOfRange => outcome := Crashed;
      case Parsed(d) =>
        var ok := FetchSingleApod(db, d, oracle(d), now);
        outcome := SingleFetch(d, ok);
    } else {
      var yesterday := SubDays(today, 1);
      if !InPythonRange(yesterday) {
        return Crashed;
      }
      var ok := FetchSingleApod(db, yesterday, oracle(yesterday), now);
      outcome := SingleFetch(yesterday, ok);
    }
  }

  /** A positive `--backfill` wins over a positional date. */
  lemma BackfillTakesPrecedence(t: ApodTables, dateArg: Option<string>, backfill: int, now: Instant, oracle: ApodOracle)
    requires backfill > 0
    ensures HandleEffect(t, dateArg, backfill, now, oracle) == HandleEffect(t, None, backfill, now, oracle)
  {
  }

  /** The successes a backfill reports never exceed the days it covered, and it writes only those days. */
  lemma {:induction false} SingleRunBounds(t: ApodTables, dates: seq<Date>, oracle: ApodOracle, now: Instant)
    ensures var run := SingleRunOf(t, dates, oracle, now);
      && run.1 <= |dates|
      && (forall d | d in run.0.images && d !in dates :: d in t.images && run.0.images[d] == t.images[d])
      && run.0.logs == t.logs
    decreases |dates|
  {
    if dates != [] && InPythonRange(dates[0]) {
      var r := FetchSingleEffect(t, dates[0], oracle(dates[0]), now);
      FetchSingleStores(t, dates[0], oracle(dates[0]), now);
      SingleRunBounds(r.0, dates[1..], oracle, now);
      assert forall d | d in dates[1..] :: d in dates;
    }
  }

  /**
   * `--backfill N` fetches the N days before today and reports at most N
   * successes out of N.
   */
  lemma BackfillReportBound(t: ApodTables, backfill: int, now: Instant, oracle: ApodOracle)
    requires backfill > 0
    ensures var r := HandleEffect(t, None, backfill, now, oracle);
      r.1.BackfillReport? ==> r.1.days == backfill && r.1.successes <= backfill
  {
    SingleRunBounds(t, DaysBefore(now.date, backfill), oracle, now);
  }

  /** A date argument of the wrong form reports an error and fetches nothing. */
  lemma InvalidDateFetchesNothing(t: ApodTables, s: string, backfill: int, now: Instant, oracle: ApodOracle)
    requires backfill <= 0 && s != "" && ParseDate(s) == NoMatch
    ensures HandleEffect(t, Some(s), backfill, now, oracle) == (t, InvalidDate)
  {
  }

  /** With no arguments, only yesterday is fetched. */
  lemma NoArgumentsFetchesYesterday(t: ApodTables, now: Instant, oracle: ApodOracle)
    requires InPythonRange(SubDays(now.date, 1))
    ensures var r := HandleEffect(t, None, 0, now, oracle);
      && r.1.SingleFetch?
      && DayNumber(r.1.date) == DayNumber(now.date) - 1
      && (forall d | d in r.0.images && d != r.1.date :: d in t.images && r.0.images[d] == t.images[d])
  {
    SubDaysNumber(now.date, 1);
    var yesterday := SubDays(now.date, 1);
    FetchSingleStores(t, yesterday, oracle(yesterday), now);
  }
}
