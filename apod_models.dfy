/**
 * The APOD application's three tables (pictures of the day, celestial
 * coordinates, the system log), the ORM operations the application performs
 * on them, and the database object whose fields those operations update.
 *
 * A picture is keyed by its date (the column is unique), a coordinate by its
 * (name, body) pair (`unique_together`), and the log is a sequence in
 * insertion order. Row ids come from an AUTOINCREMENT counter.
 */
module ApodModels {
  import opened Common
  import opened Dates
  import opened Json
  import opened Sorting

  // ---------------------------------------------------------------------------
  // SystemLog levels
  // ---------------------------------------------------------------------------

  /** The four `LEVEL_CHOICES`; a new log entry is `Info` unless told otherwise. */
  datatype Level = Info | Success | Warning | Error

  const DefaultLevel: Level := Info

  /** The value stored in the `level` column. */
  function LevelValue(l: Level): string {
    match l
    case Info => "info"
    case Success => "success"
    case Warning => "warning"
    case Error => "error"
  }

  /** Reads a stored `level` value back; anything but the four choices is rejected. */
  function LevelFromValue(s: string): (r: Option<Level>)
    ensures r.Some? ==> LevelValue(r.value) == s
  {
    if s == "info" then Some(Info)
    else if s == "success" then Some(Success)
    else if s == "warning" then Some(Warning)
    else if s == "error" then Some(Error)
    else None
  }

  /** Every level is stored as one of the choice values and reads back as itself. */
  lemma LevelValueRoundTrip(l: Level)
    ensures LevelFromValue(LevelValue(l)) == Some(l)
    ensures |LevelValue(l)| <= 10
  {
  }

  // ---------------------------------------------------------------------------
  // Rows
  // ---------------------------------------------------------------------------

  /** The columns of an APODImage row that the NASA response supplies. */
  datatype ApodContent = ApodContent(
    title: string,
    explanation: string,
    url: string,
    hdurl: Option<string>,
    mediaType: string,
    copyright: Option<string>,
    thumbnailUrl: Option<string>)

  const DefaultMediaType := "image"

  datatype APODImage = APODImage(
    id: nat,
    date: Date,
    content: ApodContent,
    createdAt: Instant,
    updatedAt: Instant)

  /**
   * The row `APODImage(date=…, title=…, explanation=…, url=…)` would hold
   * when no other column is given: the media type takes its default and the
   * three nullable columns are null.
   */
  function ContentWithDefaults(title: string, explanation: string, url: string): (c: ApodContent)
    ensures c.mediaType == "image"
    ensures c.hdurl.None? && c.copyright.None? && c.thumbnailUrl.None?
    ensures (c.title, c.explanation, c.url) == (title, explanation, url)
  {
    ApodContent(title, explanation, url, None, DefaultMediaType, None, None)
  }

  /** The coordinate columns other than the (name, body) key. */
  datatype CoordinateFields = CoordinateFields(
    kind: string,
    latitude: real,
    longitude: real,
    description: Option<string>)

  datatype CelestialCoordinate = CelestialCoordinate(
    name: string,
    body: string,
    fields: CoordinateFields,
    apodImage: Option<nat>,
    createdAt: Instant)

  type CoordinateKey = (string, string)

  function KeyOf(c: CelestialCoordinate): CoordinateKey {
    (c.name, c.body)
  }

  /** The members of the JSON object the `details` column holds. */
  type LogDetails = map<string, JsonValue>

  datatype SystemLog = SystemLog(
    timestamp: Instant,
    level: Level,
    message: string,
    details: Option<LogDetails>)

  /** `SystemLog.objects.create(message=…)` with every other column defaulted. */
  function NewLog(message: string, now: Instant): (l: SystemLog)
    ensures l.level == DefaultLevel && l.timestamp == now && l.details.None?
    ensures l.message == message
  {
    SystemLog(now, DefaultLevel, message, None)
  }

  // ---------------------------------------------------------------------------
  // String forms
  // ---------------------------------------------------------------------------

  /** `APODImage.__str__`: "YYYY-MM-DD - title". */
  function ImageLabel(img: APODImage): string {
    FormatDate(img.date) + " - " + img.content.title
  }

  /** `CelestialCoordinate.__str__`: "name (body)". */
  function CoordinateLabel(c: CelestialCoordinate): string {
    c.name + " (" + c.body + ")"
  }

  /** `SystemLog.__str__`: timestamp, level value, and at most 50 characters of the message. */
  function LogLabel(l: SystemLog): string {
    FormatInstant(l.timestamp) + " - " + LevelValue(l.level) + ": " + SlicePrefix(l.message, 50)
  }

  /** The label of a picture starts with its date, which reads back as that date. */
  lemma ImageLabelStartsWithDate(img: APODImage)
    requires InPythonRange(img.date)
    ensures |ImageLabel(img)| >= 13
    ensures ParseDate(ImageLabel(img)[..10]) == Parsed(img.date)
  {
    var s := FormatDate(img.date);
    assert |ZeroPad(img.date.year, 4)| == 4 by { NatDigitsBound(img.date.year, 4); assert Pow10(4) == 10000; }
    assert |ZeroPad(img.date.month, 2)| == 2 by { NatDigitsBound(img.date.month, 2); assert Pow10(2) == 100; }
    assert |ZeroPad(img.date.day, 2)| == 2 by { NatDigitsBound(img.date.day, 2); assert Pow10(2) == 100; }
    assert |s| == 10;
    assert ImageLabel(img)[..10] == s;
    ParseFormatRoundTrip(img.date);
  }

  /** Only the first 50 characters of a log message reach its label. */
  lemma LogLabelIgnoresMessageTail(a: SystemLog, b: SystemLog)
    requires a.timestamp == b.timestamp && a.level == b.level
    requires |a.message| >= 50 && |b.message| >= 50
    requires a.message[..50] == b.message[..50]
    ensures LogLabel(a) == LogLabel(b)
  {
  }

  /** A label never holds more than 50 characters of the message. */
  lemma LogLabelLength(l: SystemLog)
    ensures |LogLabel(l)| <= |FormatInstant(l.timestamp)| + 3 + 7 + 2 + 50
    ensures |l.message| <= 50 ==> LogLabel(l) == FormatInstant(l.timestamp) + " - " + LevelValue(l.level) + ": " + l.message
  {
  }

  // ---------------------------------------------------------------------------
  // Tables
  // ---------------------------------------------------------------------------

  datatype ApodTables = ApodTables(
    images: map<Date, APODImage>,
    nextImageId: nat,
    coordinates: map<CoordinateKey, CelestialCoordinate>,
    logs: seq<SystemLog>)

  const EmptyTables := ApodTables(map[], 1, map[], [])

  predicate HasImageWithId(t: ApodTables, id: nat) {
    exists d | d in t.images :: t.images[d].id == id
  }

  /**
   * What the schema guarantees of the stored rows: each picture sits under
   * its own date with an id below the counter, ids are distinct, each
   * coordinate sits under its own (name, body), and a coordinate's picture
   * reference names an existing picture.
   */
  predicate TablesValid(t: ApodTables) {
    && (forall d | d in t.images :: t.images[d].date == d && t.images[d].id < t.nextImageId)
    && (forall d1, d2 | d1 in t.images && d2 in t.images && d1 != d2 :: t.images[d1].id != t.images[d2].id)
    && (forall k | k in t.coordinates :: KeyOf(t.coordinates[k]) == k)
    && (forall k | k in t.coordinates && t.coordinates[k].apodImage.Some? ::
          HasImageWithId(t, t.coordinates[k].apodImage.value))
  }

  lemma EmptyTablesValid()
    ensures TablesValid(EmptyTables)
  {
  }

  /** There is at most one picture per date: two stored rows with one date are one row. */
  lemma OneImagePerDate(t: ApodTables, a: APODImage, b: APODImage)
    requires TablesValid(t)
    requires a in t.images.Values && b in t.images.Values && a.date == b.date
    ensures a == b
  {
  }

  /**
   * At most one coordinate per (name, body); one name may sit on several
   * bodies.
   */
  lemma OneCoordinatePerNameAndBody(t: ApodTables, a: CelestialCoordinate, b: CelestialCoordinate)
    requires TablesValid(t)
    requires a in t.coordinates.Values && b in t.coordinates.Values
    requires a.name == b.name && a.body == b.body
    ensures a == b
  {
  }

  lemma SameNameOnTwoBodies(now: Instant)
    ensures var f := CoordinateFields("crater", 0.0, 0.0, None);
            var a := CelestialCoordinate("Gale", "Mars", f, None, now);
            var b := CelestialCoordinate("Gale", "Moon", f, None, now);
            TablesValid(ApodTables(map[], 1, map[KeyOf(a) := a, KeyOf(b) := b], []))
  {
  }

  // ---------------------------------------------------------------------------
  // Picture operations
  // ---------------------------------------------------------------------------

  /**
   * `APODImage.objects.update_or_create(date=…, defaults=content)`: the row
   * for the date gets the new content and `updated_at`; a missing row is
   * created with the next id and both timestamps set to now.
   */
  function UpsertImage(t: ApodTables, date: Date, content: ApodContent, now: Instant): (r: (ApodTables, APODImage))
    ensures r.0.images == t.images[date := r.1]
    ensures r.1.date == date && r.1.content == content && r.1.updatedAt == now
    ensures date in t.images ==> r.1.id == t.images[date].id && r.1.createdAt == t.images[date].createdAt
    ensures date !in t.images ==> r.1.id == t.nextImageId && r.1.createdAt == now
    ensures r.0.coordinates == t.coordinates && r.0.logs == t.logs
  {
    if date in t.images then
      var row := APODImage(t.images[date].id, date, content, t.images[date].createdAt, now);
      (t.(images := t.images[date := row]), row)
    else
      var row := APODImage(t.nextImageId, date, content, now, now);
      (t.(images := t.images[date := row], nextImageId := t.nextImageId + 1), row)
  }

  /**
   * `APODImage.objects.create(date=…, …)` for a date with no row (the unique
   * column refuses a second one).
   */
  function CreateImage(t: ApodTables, date: Date, content: ApodContent, now: Instant): (r: (ApodTables, APODImage))
    requires date !in t.images
    ensures r.0.images == t.images[date := r.1] && r.0.nextImageId == t.nextImageId + 1
    ensures r.1 == APODImage(t.nextImageId, date, content, now, now)
    ensures r.0.coordinates == t.coordinates && r.0.logs == t.logs
  {
    UpsertImage(t, date, content, now)
  }

  /** `row.save()` on a row read earlier: every column written back, `updated_at` set to now. */
  function SaveImage(t: ApodTables, row: APODImage, now: Instant): (r: ApodTables)
    requires row.date in t.images && t.images[row.date].id == row.id
    ensures r.images == t.images[row.date := row.(updatedAt := now)]
    ensures r.nextImageId == t.nextImageId && r.coordinates == t.coordinates && r.logs == t.logs
  {
    t.(images := t.images[row.date := row.(updatedAt := now)])
  }

  /**
   * Deleting a picture: its row goes, every coordinate that referenced it
   * has its reference set to null (`on_delete=SET_NULL`), and no coordinate
   * is deleted.
   */
  function DeleteImage(t: ApodTables, date: Date): (r: ApodTables)
    requires date in t.images
  {
    var id := t.images[date].id;
    t.(images := t.images - {date},
       coordinates := map k | k in t.coordinates ::
         if t.coordinates[k].apodImage == Some(id) then t.coordinates[k].(apodImage := None)
         else t.coordinates[k])
  }

  lemma DeleteImageNullsReferences(t: ApodTables, date: Date)
    requires TablesValid(t) && date in t.images
    ensures var r := DeleteImage(t, date);
      && r.images.Keys == t.images.Keys - {date}
      && r.coordinates.Keys == t.coordinates.Keys
      && (forall k | k in t.coordinates ::
            r.coordinates[k] == if t.coordinates[k].apodImage == Some(t.images[date].id)
                                then t.coordinates[k].(apodImage := None)
                                else t.coordinates[k])
      && TablesValid(r)
  {
    var r := DeleteImage(t, date);
    var id := t.images[date].id;
    forall k | k in r.coordinates && r.coordinates[k].apodImage.Some?
      ensures HasImageWithId(r, r.coordinates[k].apodImage.value)
    {
      var other := r.coordinates[k].apodImage.value;
      assert other != id && HasImageWithId(t, other);
      var d :| d in t.images && t.images[d].id == other;
      assert d != date && d in r.images;
    }
  }

  lemma UpsertImagePreservesValid(t: ApodTables, date: Date, content: ApodContent, now: Instant)
    requires TablesValid(t)
    ensures TablesValid(UpsertImage(t, date, content, now).0)
  {
    var r := UpsertImage(t, date, content, now).0;
    forall k | k in r.coordinates && r.coordinates[k].apodImage.Some?
      ensures HasImageWithId(r, r.coordinates[k].apodImage.value)
    {
      var id := r.coordinates[k].apodImage.value;
      var d :| d in t.images && t.images[d].id == id;
      assert d in r.images && r.images[d].id == id;
    }
  }

  lemma SaveImagePreservesValid(t: ApodTables, row: APODImage, now: Instant)
    requires TablesValid(t)
    requires row.date in t.images && t.images[row.date].id == row.id
    ensures TablesValid(SaveImage(t, row, now))
  {
    var r := SaveImage(t, row, now);
    forall k | k in r.coordinates && r.coordinates[k].apodImage.Some?
      ensures HasImageWithId(r, r.coordinates[k].apodImage.value)
    {
      var id := r.coordinates[k].apodImage.value;
      var d :| d in t.images && t.images[d].id == id;
      assert d in r.images && r.images[d].id == id;
    }
  }

  // ---------------------------------------------------------------------------
  // Log operations
  // ---------------------------------------------------------------------------

  /** `SystemLog.objects.create(level=…, message=…, details=…)`, timestamped now. */
  function AddLog(t: ApodTables, level: Level, message: string, details: Option<LogDetails>, now: Instant): (r: ApodTables)
    ensures r.logs == t.logs + [SystemLog(now, level, message, details)]
    ensures r.images == t.images && r.nextImageId == t.nextImageId && r.coordinates == t.coordinates
  {
    t.(logs := t.logs + [SystemLog(now, level, message, details)])
  }

  lemma AddLogPreservesValid(t: ApodTables, level: Level, message: string, details: Option<LogDetails>, now: Instant)
    requires TablesValid(t)
    ensures TablesValid(AddLog(t, level, message, details, now))
  {
    var r := AddLog(t, level, message, details, now);
    assert forall id :: HasImageWithId(r, id) == HasImageWithId(t, id);
  }

  /** The entries of `logs` stamped at or after `cutoff`, in their order. */
  function LogsFrom(logs: seq<SystemLog>, cutoff: Instant): (r: seq<SystemLog>)
    ensures |r| <= |logs|
    ensures forall i | 0 <= i < |r| :: !Earlier(r[i].timestamp, cutoff)
    ensures multiset(r) <= multiset(logs)
    decreases |logs|
  {
    if logs == [] then []
    else
      assert logs == [logs[0]] + logs[1..];
      var rest := LogsFrom(logs[1..], cutoff);
      if Earlier(logs[0].timestamp, cutoff) then rest else [logs[0]] + rest
  }

  /** How many entries of `logs` are stamped before `cutoff`. */
  function CountBefore(logs: seq<SystemLog>, cutoff: Instant): nat
    decreases |logs|
  {
    if logs == [] then 0
    else CountBefore(logs[1..], cutoff) + if Earlier(logs[0].timestamp, cutoff) then 1 else 0
  }

  /**
   * Deleting the entries before `cutoff` keeps every other entry, in order,
   * and removes exactly `CountBefore` entries.
   */
  lemma {:induction false} LogsFromKeepsExactlyTheRecent(logs: seq<SystemLog>, cutoff: Instant)
    ensures |LogsFrom(logs, cutoff)| + CountBefore(logs, cutoff) == |logs|
    ensures forall l | l in logs && !Earlier(l.timestamp, cutoff) :: l in LogsFrom(logs, cutoff)
    ensures forall l | l in LogsFrom(logs, cutoff) :: l in logs
    decreases |logs|
  {
    if logs != [] {
      LogsFromKeepsExactlyTheRecent(logs[1..], cutoff);
      assert forall l | l in logs :: l == logs[0] || l in logs[1..];
      var r := LogsFrom(logs, cutoff);
      assert forall l | l in r :: l in multiset(logs);
    }
  }

  /** `SystemLog.objects.filter(timestamp__lt=cutoff).delete()`: the tables and the deleted count. */
  function DeleteLogsBefore(t: ApodTables, cutoff: Instant): (r: (ApodTables, nat))
    ensures r.0.logs == LogsFrom(t.logs, cutoff) && r.1 == CountBefore(t.logs, cutoff)
    ensures r.0.images == t.images && r.0.nextImageId == t.nextImageId && r.0.coordinates == t.coordinates
  {
    (t.(logs := LogsFrom(t.logs, cutoff)), CountBefore(t.logs, cutoff))
  }

  // ---------------------------------------------------------------------------
  // Coordinate operations
  // ---------------------------------------------------------------------------

  /**
   * `CelestialCoordinate.objects.get_or_create(name=…, body=…, defaults=…)`:
   * the existing row is returned untouched; a missing one is created from
   * the defaults with no picture reference.
   */
  function GetOrCreateCoordinate(t: ApodTables, name: string, body: string, defaults: CoordinateFields, now: Instant)
    : (r: (ApodTables, CelestialCoordinate, bool))
    ensures r.2 <==> (name, body) !in t.coordinates
    ensures r.0.coordinates == t.coordinates[(name, body) := r.1]
    ensures !r.2 ==> r.1 == t.coordinates[(name, body)] && r.0 == t
    ensures r.2 ==> r.1 == CelestialCoordinate(name, body, defaults, None, now)
    ensures r.0.images == t.images && r.0.nextImageId == t.nextImageId && r.0.logs == t.logs
  {
    if (name, body) in t.coordinates then
      assert t.coordinates[(name, body) := t.coordinates[(name, body)]] == t.coordinates;
      (t, t.coordinates[(name, body)], false)
    else
      var row := CelestialCoordinate(name, body, defaults, None, now);
      (t.(coordinates := t.coordinates[(name, body) := row]), row, true)
  }

  lemma GetOrCreateCoordinatePreservesValid(t: ApodTables, name: string, body: string, defaults: CoordinateFields, now: Instant)
    requires TablesValid(t)
    ensures TablesValid(GetOrCreateCoordinate(t, name, body, defaults, now).0)
  {
    var r := GetOrCreateCoordinate(t, name, body, defaults, now).0;
    assert forall id :: HasImageWithId(r, id) == HasImageWithId(t, id);
  }

  /** The keys of the coordinates called `name`, on whatever body. */
  function KeysNamed(t: ApodTables, name: string): set<CoordinateKey> {
    set k | k in t.coordinates && k.0 == name
  }

  // ---------------------------------------------------------------------------
  // Default orderings (`Meta.ordering`)
  // ---------------------------------------------------------------------------

  /** `ordering = ['-date']`. */
  predicate NewerOrSameDate(a: APODImage, b: APODImage) {
    DayNumber(a.date) >= DayNumber(b.date)
  }

  /** `ordering = ['name']`. */
  predicate NameNotAfter(a: CelestialCoordinate, b: CelestialCoordinate) {
    StrLe(a.name, b.name)
  }

  /** `ordering = ['-timestamp']`. */
  predicate NewerOrSameTimestamp(a: SystemLog, b: SystemLog) {
    EpochSeconds(a.timestamp) >= EpochSeconds(b.timestamp)
  }

  lemma NameOrderIsTotal()
    ensures TotalPreorder(NameNotAfter)
  {
    forall a: CelestialCoordinate, b: CelestialCoordinate
      ensures NameNotAfter(a, b) || NameNotAfter(b, a)
    {
      StrLeTotal(a.name, b.name);
    }
    forall a: CelestialCoordinate, b: CelestialCoordinate, c: CelestialCoordinate
      | NameNotAfter(a, b) && NameNotAfter(b, c)
      ensures NameNotAfter(a, c)
    {
      StrLeTransitive(a.name, b.name, c.name);
    }
  }

  /** `APODImage.objects.all()`: every picture once, newest date first. */
  ghost function ImagesInDefaultOrder(t: ApodTables): (r: seq<APODImage>)
    ensures |r| == |t.images.Values|
    ensures forall x :: x in r <==> x in t.images.Values
    ensures forall i, j | 0 <= i < j < |r| :: DayNumber(r[i].date) >= DayNumber(r[j].date)
  {
    SortedListOf(t.images.Values, NewerOrSameDate)
  }

  /** `CelestialCoordinate.objects.all()`: every coordinate once, by name. */
  ghost function CoordinatesInDefaultOrder(t: ApodTables): (r: seq<CelestialCoordinate>)
    ensures |r| == |t.coordinates.Values|
    ensures forall x :: x in r <==> x in t.coordinates.Values
    ensures forall i, j | 0 <= i < j < |r| :: StrLe(r[i].name, r[j].name)
  {
    NameOrderIsTotal();
    SortedListOf(t.coordinates.Values, NameNotAfter)
  }

  /** `SystemLog.objects.all()`: every entry, newest first. */
  function LogsInDefaultOrder(t: ApodTables): (r: seq<SystemLog>)
    ensures multiset(r) == multiset(t.logs)
    ensures forall i, j | 0 <= i < j < |r| :: EpochSeconds(r[i].timestamp) >= EpochSeconds(r[j].timestamp)
  {
    SortBy(t.logs, NewerOrSameTimestamp)
  }

  /**
   * `APODImage.objects.order_by('-date').first()`: the picture with the
   * latest date, or nothing for an empty table.
   */
  ghost function LatestImage(t: ApodTables): (r: Option<APODImage>)
    ensures r.None? <==> t.images == map[]
    ensures r.Some? ==> r.value in t.images.Values
    ensures r.Some? ==> forall d | d in t.images :: DayNumber(t.images[d].date) <= DayNumber(r.value.date)
  {
    var listing := ImagesInDefaultOrder(t);
    if listing == [] then
      None
    else
      NewestComesFirst(t, listing);
      Some(listing[0])
  }

  lemma NewestComesFirst(t: ApodTables, listing: seq<APODImage>)
    requires listing == ImagesInDefaultOrder(t) && listing != []
    ensures forall d | d in t.images :: DayNumber(t.images[d].date) <= DayNumber(listing[0].date)
  {
    forall d | d in t.images
      ensures DayNumber(t.images[d].date) <= DayNumber(listing[0].date)
    {
      assert t.images[d] in t.images.Values;
      var i :| 0 <= i < |listing| && listing[i] == t.images[d];
      if i > 0 {
        assert DayNumber(listing[0].date) >= DayNumber(listing[i].date);
      }
    }
  }

  // ---------------------------------------------------------------------------
  // The database object
  // ---------------------------------------------------------------------------

  /** The application's database: the three tables, updated in place by the ORM calls. */
  class ApodDatabase {
    var images: map<Date, APODImage>
    var nextImageId: nat
    var coordinates: map<CoordinateKey, CelestialCoordinate>
    var logs: seq<SystemLog>

    function Tables(): ApodTables
      reads this
    {
      ApodTables(images, nextImageId, coordinates, logs)
    }

    constructor ()
      ensures Tables() == EmptyTables
    {
      images := map[];
      nextImageId := 1;
      coordinates := map[];
      logs := [];
    }

    method UpdateOrCreateImage(date: Date, content: ApodContent, now: Instant) returns (row: APODImage, created: bool)
      modifies this
      ensures (Tables(), row) == UpsertImage(old(Tables()), date, content, now)
      ensures created <==> date !in old(images)
    {
      created := date !in images;
      var t;
      t, row := UpsertImage(Tables(), date, content, now).0, UpsertImage(Tables(), date, content, now).1;
      images, nextImageId := t.images, t.nextImageId;
    }

    method CreateImageRow(date: Date, content: ApodContent, now: Instant) returns (row: APODImage)
      requires date !in images
      modifies this
      ensures (Tables(), row) == CreateImage(old(Tables()), date, content, now)
    {
      row := APODImage(nextImageId, date, content, now, now);
      images := images[date := row];
      nextImageId := nextImageId + 1;
    }

    method SaveImageRow(row: APODImage, now: Instant)
      requires row.date in images && images[row.date].id == row.id
      modifies this
      ensures Tables() == SaveImage(old(Tables()), row, now)
    {
      images := images[row.date := row.(updatedAt := now)];
    }

    method CreateLog(level: Level, message: string, details: Option<LogDetails>, now: Instant)
      modifies this
      ensures Tables() == AddLog(old(Tables()), level, message, details, now)
    {
      logs := logs + [SystemLog(now, level, message, details)];
    }

    method DeleteLogsOlderThan(cutoff: Instant) returns (count: nat)
      modifies this
      ensures (Tables(), count) == DeleteLogsBefore(old(Tables()), cutoff)
    {
      count := CountBefore(logs, cutoff);
      logs := LogsFrom(logs, cutoff);
    }

    method GetOrCreateCoordinateRow(name: string, body: string, defaults: CoordinateFields, now: Instant)
      returns (row: CelestialCoordinate, created: bool)
      modifies this
      ensures (Tables(), row, created) == GetOrCreateCoordinate(old(Tables()), name, body, defaults, now)
    {
      if (name, body) in coordinates {
        row, created := coordinates[(name, body)], false;
      } else {
        row, created := CelestialCoordinate(name, body, defaults, None, now), true;
        coordinates := coordinates[(name, body) := row];
      }
    }
  }
}
