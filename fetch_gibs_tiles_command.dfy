/**
 * The `fetch_gibs_tiles` management command: the built-in list of NASA
 * Worldview layers, cut to `--limit` when one is given, is walked in
 * order; with `--test-tiles` each layer's zoom-2 tile is probed for the
 * test date and an unavailable layer is counted and skipped; every other
 * layer is created or overwritten, keyed on its `layer_id`.
 */
module FetchGibsTilesCommand {
  import opened Common
  import opened Dates
  import opened GibsModels
  import opened GibsServices

  /**
   * One layer dictionary of the list: `id` and `title` are read with `[]`,
   * every other key with `.get`, so each of those is `None` when absent.
   */
  datatype WorldviewLayer = WorldviewLayer(
    id: string,
    title: string,
    subtitle: Option<string>,
    description: Option<string>,
    format: Option<string>,
    startDate: Option<Date>,
    endDate: Option<Date>,
    period: Option<string>,
    category: Option<string>)

  /** `d.get(key, default)`. */
  function GetOr<T>(o: Option<T>, default: T): T {
    if o.Some? then o.value else default
  }

  /** An entry of the built-in list: every key but `subtitle` present. */
  function Worldview(id: string, title: string, description: string, category: string, format: string,
                     startDate: Date, endDate: Date, period: string): WorldviewLayer
  {
    WorldviewLayer(id, title, None, Some(description), Some(format), Some(startDate), Some(endDate),
                   Some(period), Some(category))
  }

  /** The fixed start and end dates of the built-in list. */
  const Day2000_01_01: Date := Ymd(2000, 1, 1)
  const Day2000_11_01: Date := Ymd(2000, 11, 1)
  const Day2000_02_24: Date := Ymd(2000, 2, 24)
  const Day2000_03_05: Date := Ymd(2000, 3, 5)
  const Day2002_07_03: Date := Ymd(2002, 7, 3)
  const Day2002_07_08: Date := Ymd(2002, 7, 8)
  const Day2004_01_01: Date := Ymd(2004, 1, 1)
  const Day2004_12_31: Date := Ymd(2004, 12, 31)
  const Day2015_11_24: Date := Ymd(2015, 11, 24)
  const Day2018_01_01: Date := Ymd(2018, 1, 1)

  /**
   * `get_worldview_layers`: the built-in list of 32 layers; most end
   * `yesterday`, the two 8-day vegetation layers two years (730 days) ago.
   */
  function WorldviewLayers(yesterday: Date, twoYearsAgo: Date): seq<WorldviewLayer> {
    seq(32, i requires 0 <= i < 32 => WorldviewLayerAt(i, yesterday, twoYearsAgo))
  }

  /** Entry `i` of the list, in the order the source lists them. */
  function WorldviewLayerAt(i: nat, yesterday: Date, twoYearsAgo: Date): WorldviewLayer
    requires i < 32
  {
    match i
    case 0 => Worldview("VIIRS_SNPP_CorrectedReflectance_TrueColor",
                  "Corrected Reflectance (True Color, VIIRS, SNPP)",
                  "High-resolution true-color imagery from VIIRS instrument",
                  "Corrected Reflectance", "jpg", Day2015_11_24, yesterday, "daily")
    case 1 => Worldview("VIIRS_NOAA20_CorrectedReflectance_TrueColor",
                  "Corrected Reflectance (True Color, VIIRS, NOAA-20)",
                  "True-color imagery from VIIRS on NOAA-20",
                  "Corrected Reflectance", "jpg", Day2018_01_01, yesterday, "daily")
    case 2 => Worldview("MODIS_Terra_CorrectedReflectance_TrueColor",
                  "Corrected Reflectance (True Color, MODIS, Terra)",
                  "True-color imagery from MODIS Terra satellite",
                  "Corrected Reflectance", "jpg", Day2000_02_24, yesterday, "daily")
    case 3 => Worldview("MODIS_Aqua_CorrectedReflectance_TrueColor",
                  "Corrected Reflectance (True Color, MODIS, Aqua)",
                  "True-color imagery from MODIS Aqua satellite",
                  "Corrected Reflectance", "jpg", Day2002_07_03, yesterday, "daily")
    case 4 => Worldview("MODIS_Terra_CorrectedReflectance_Bands367",
                  "Corrected Reflectance (Bands 3-6-7, MODIS, Terra)",
                  "False color for fires and burn scars",
                  "Corrected Reflectance", "jpg", Day2000_02_24, yesterday, "daily")
    case 5 => Worldview("MODIS_Aqua_CorrectedReflectance_Bands721",
                  "Corrected Reflectance (Bands 7-2-1, MODIS, Aqua)",
                  "False color for land/water boundaries",
                  "Corrected Reflectance", "jpg", Day2002_07_03, yesterday, "daily")
    case 6 => Worldview("VIIRS_SNPP_CorrectedReflectance_BandsM11-I2-I1",
                  "Corrected Reflectance (Bands M11-I2-I1, VIIRS, SNPP)",
                  "False color for fires",
                  "Corrected Reflectance", "jpg", Day2015_11_24, yesterday, "daily")
    case 7 => Worldview("MODIS_Terra_Thermal_Anomalies_All",
                  "Fires and Thermal Anomalies (Day and Night, MODIS, Terra)",
                  "Active fires detected by MODIS Terra",
                  "Fires", "png", Day2000_11_01, yesterday, "daily")
    case 8 => Worldview("MODIS_Aqua_Thermal_Anomalies_All",
                  "Fires and Thermal Anomalies (Day and Night, MODIS, Aqua)",
                  "Active fires detected by MODIS Aqua",
                  "Fires", "png", Day2002_07_03, yesterday, "daily")
    case 9 => Worldview("VIIRS_SNPP_Thermal_Anomalies_375m_Day",
                  "Fires and Thermal Anomalies (Day, 375m, VIIRS, SNPP)",
                  "High-resolution fire detection",
                  "Fires", "png", Day2015_11_24, yesterday, "daily")
    case 10 => Worldview("VIIRS_SNPP_Thermal_Anomalies_375m_Night",
                  "Fires and Thermal Anomalies (Night, 375m, VIIRS, SNPP)",
                  "Nighttime fire detection",
                  "Fires", "png", Day2015_11_24, yesterday, "daily")
    case 11 => Worldview("VIIRS_NOAA20_Thermal_Anomalies_375m_Day",
                  "Fires and Thermal Anomalies (Day, 375m, VIIRS, NOAA-20)",
                  "High-resolution fire detection from NOAA-20",
                  "Fires", "png", Day2018_01_01, yesterday, "daily")
    case 12 => Worldview("MODIS_Terra_Snow_Cover",
                  "Snow Cover (NDSI, MODIS, Terra)",
                  "Daily snow cover from MODIS Terra",
                  "Snow Cover", "png", Day2000_02_24, yesterday, "daily")
    case 13 => Worldview("MODIS_Aqua_Snow_Cover",
                  "Snow Cover (NDSI, MODIS, Aqua)",
                  "Daily snow cover from MODIS Aqua",
                  "Snow Cover", "png", Day2002_07_03, yesterday, "daily")
    case 14 => Worldview("VIIRS_SNPP_Snow_Cover",
                  "Snow Cover (VIIRS, SNPP)",
                  "High-resolution snow cover",
                  "Snow Cover", "png", Day2015_11_24, yesterday, "daily")
    case 15 => Worldview("MODIS_Terra_Sea_Ice",
                  "Sea Ice (MODIS, Terra)",
                  "Sea ice extent from MODIS Terra",
                  "Sea Ice", "png", Day2000_02_24, yesterday, "daily")
    case 16 => Worldview("MODIS_Aqua_Sea_Ice",
                  "Sea Ice (MODIS, Aqua)",
                  "Sea ice extent from MODIS Aqua",
                  "Sea Ice", "png", Day2002_07_03, yesterday, "daily")
    case 17 => Worldview("MODIS_Terra_Land_Surface_Temp_Day",
                  "Land Surface Temperature (Day, MODIS, Terra)",
                  "Daytime land surface temperature",
                  "Land Surface", "png", Day2000_03_05, yesterday, "daily")
    case 18 => Worldview("MODIS_Terra_Land_Surface_Temp_Night",
                  "Land Surface Temperature (Night, MODIS, Terra)",
                  "Nighttime land surface temperature",
                  "Land Surface", "png", Day2000_03_05, yesterday, "daily")
    case 19 => Worldview("MODIS_Aqua_Land_Surface_Temp_Day",
                  "Land Surface Temperature (Day, MODIS, Aqua)",
                  "Daytime land surface temperature",
                  "Land Surface", "png", Day2002_07_08, yesterday, "daily")
    case 20 => Worldview("MODIS_Terra_NDVI_8Day",
                  "Vegetation Index (8-Day, NDVI, MODIS, Terra)",
                  "Vegetation health indicator",
                  "Vegetation", "png", Day2000_02_24, twoYearsAgo, "8day")
    case 21 => Worldview("MODIS_Terra_EVI_8Day",
                  "Vegetation Index (8-Day, EVI, MODIS, Terra)",
                  "Enhanced vegetation index",
                  "Vegetation", "png", Day2000_02_24, twoYearsAgo, "8day")
    case 22 => Worldview("MODIS_Aqua_Chlorophyll_A",
                  "Chlorophyll A (MODIS, Aqua)",
                  "Ocean chlorophyll concentration",
                  "Ocean", "png", Day2002_07_03, yesterday, "daily")
    case 23 => Worldview("MODIS_Terra_Chlorophyll_A",
                  "Chlorophyll A (MODIS, Terra)",
                  "Ocean chlorophyll concentration",
                  "Ocean", "png", Day2000_02_24, yesterday, "daily")
    case 24 => Worldview("MODIS_Combined_Value_Added_AOD",
                  "Aerosol Optical Depth (Combined, MODIS)",
                  "Atmospheric aerosol levels",
                  "Aerosols", "png", Day2000_02_24, yesterday, "daily")
    case 25 => Worldview("MODIS_Terra_Water_Vapor_5km_Day",
                  "Water Vapor (5km, Day, MODIS, Terra)",
                  "Atmospheric water vapor",
                  "Water Vapor", "png", Day2000_02_24, yesterday, "daily")
    case 26 => Worldview("MODIS_Aqua_Water_Vapor_5km_Day",
                  "Water Vapor (5km, Day, MODIS, Aqua)",
                  "Atmospheric water vapor",
                  "Water Vapor", "png", Day2002_07_03, yesterday, "daily")
    case 27 => Worldview("MODIS_Terra_Cloud_Top_Temp_Day",
                  "Cloud Top Temperature (Day, MODIS, Terra)",
                  "Temperature at cloud tops",
                  "Clouds", "png", Day2000_02_24, yesterday, "daily")
    case 28 => Worldview("BlueMarble_NextGeneration",
                  "Blue Marble: Next Generation",
                  "Cloud-free Earth imagery",
                  "Reference", "jpg", Day2004_01_01, Day2004_12_31, "static")
    case 29 => Worldview("BlueMarble_ShadedRelief_Bathymetry",
                  "Blue Marble: Shaded Relief and Bathymetry",
                  "Topography and ocean floor",
                  "Reference", "jpg", Day2004_01_01, Day2004_12_31, "static")
    case 30 => Worldview("Coastlines",
                  "Coastlines",
                  "World coastline boundaries",
                  "Reference", "png", Day2000_01_01, yesterday, "static")
    case 31 => Worldview("Reference_Features_15m",
                  "Borders and Roads",
                  "Political boundaries and major roads",
                  "Reference", "png", Day2000_01_01, yesterday, "static")
  }

  // ---------------------------------------------------------------------------
  // Options
  // ---------------------------------------------------------------------------

  /**
   * `(datetime.now() - timedelta(days=n)).date()`; `None` when the
   * subtraction leaves the years Python can represent (`OverflowError`).
   */
  function DaysAgo(now: Instant, n: nat): (r: Option<Date>)
    ensures r.Some? ==> InPythonRange(r.value) && DayNumber(r.value) == DayNumber(now.date) - n
    ensures r.None? <==> !InPythonRange(SubDays(now.date, n))
  {
    SubDaysNumber(now.date, n);
    var d := MinusDays(now, n).date;
    if InPythonRange(d) then Some(d) else None
  }

  /**
   * The test date: the `--date` argument read as YYYY-MM-DD when it is a
   * non-empty string, yesterday otherwise; `None` when the argument names
   * no date (`ValueError`) or yesterday overflows.
   */
  function TestDate(dateArg: Option<string>, now: Instant): Option<Date> {
    if dateArg.Some? && dateArg.value != "" then
      match Strptime(dateArg.value)
      case StrptimeDate(d) => Some(d)
      case _ => None
    else DaysAgo(now, 1)
  }

  /** Without a `--date` (or with an empty one) the test date is the day before today. */
  lemma DefaultTestDateIsYesterday(dateArg: Option<string>, now: Instant)
    requires dateArg.None? || dateArg.value == ""
    requires InPythonRange(now.date) && now.date.year > MinYear
    ensures var r := TestDate(dateArg, now);
      r.Some? && DayNumber(r.value) == DayNumber(now.date) - 1
  {
    assert SubDays(now.date, 1) == Pred(now.date);
  }

  /** A `--date` written as YYYY-MM-DD is the date tested. */
  lemma DateArgumentIsTestDate(d: Date, now: Instant)
    requires InPythonRange(d)
    ensures TestDate(Some(FormatDate(d)), now) == Some(d)
  {
    StrptimeFormatRoundTrip(d);
  }

  /**
   * `layers_data[:limit]` when the limit is truthy: a positive limit keeps
   * that many layers from the front (all when it exceeds the list), a
   * negative one drops that many from the end; no limit or 0 keeps all.
   */
  function LimitLayers<T>(layers: seq<T>, limit: Option<int>): seq<T> {
    if limit.Some? && limit.value != 0 then SlicePrefix(layers, limit.value) else layers
  }

  /**
   * A truthy limit keeps a prefix: a positive one that many layers from
   * the front (all when it exceeds the list), a negative one all but that
   * many from the end; no limit or 0 keeps the whole list.
   */
  lemma LimitKeepsPrefix<T>(layers: seq<T>, limit: Option<int>)
    ensures var r := LimitLayers(layers, limit);
      && r <= layers
      && (limit.None? || limit.value == 0 ==> r == layers)
      && (limit.Some? && limit.value > 0 ==> |r| == if limit.value < |layers| then limit.value else |layers|)
      && (limit.Some? && limit.value < 0 ==> |r| == if -limit.value < |layers| then |layers| + limit.value else 0)
  {
  }

  // ---------------------------------------------------------------------------
  // test_layer_tiles
  // ---------------------------------------------------------------------------

  /** The address probed: zoom 2, row 1, column 1 of the 250m tile matrix set. */
  function TestTileUrl(layerId: string, date: Date, formatType: string): string {
    TileUrlPrefix + (layerId + "/default/" + FormatDate(date) + "/250m/2/1/1." + formatType)
  }

  /** The probe asks for the very tile `get_tile_url` names for zoom 2, x 1, y 1 in EPSG:4326. */
  lemma TestTileUrlIsTileUrl(layerId: string, date: Date, formatType: string)
    ensures TestTileUrl(layerId, date, formatType) == GetTileUrl(layerId, FormatDate(date), 2, 1, 1, "EPSG:4326", formatType)
  {
    assert IntToString(2) == "2" && IntToString(1) == "1";
    var ds := FormatDate(date);
    assert "/" + "250m" + "/" + "2" + "/" + "1" + "/" + "1" + "." == "/250m/2/1/1.";
    calc {
      GetTileUrl(layerId, ds, 2, 1, 1, "EPSG:4326", formatType);
      TileUrlPrefix + (layerId + "/default/" + ds + "/" + "250m" + "/" + "2" + "/" + "1" + "/" + "1" + "." + formatType);
      { assert layerId + "/default/" + ds + "/" + "250m" + "/" + "2" + "/" + "1" + "/" + "1" + "." + formatType
          == layerId + "/default/" + ds + ("/" + "250m" + "/" + "2" + "/" + "1" + "/" + "1" + ".") + formatType; }
      TestTileUrl(layerId, date, formatType);
    }
  }

  /**
   * The HEAD responses, by address: the status each address answers with;
   * an address missing from the map raises (timeout, connection error).
   */
  type Probe = map<string, int>

  /** A layer's tiles are available when its test address answers 200. */
  predicate TileAvailable(probe: Probe, layerId: string, date: Date, formatType: string) {
    var url := TestTileUrl(layerId, date, formatType);
    url in probe && probe[url] == 200
  }

  /** `test_layer_tiles`: one HEAD request; only status 200 counts, and an exception means unavailable. */
  method TestLayerTiles(layerId: string, date: Date, formatType: string, probe: Probe) returns (works: bool)
    ensures works <==> TileAvailable(probe, layerId, date, formatType)
    ensures TestTileUrl(layerId, date, formatType) !in probe ==> !works
    ensures works ==> probe[TestTileUrl(layerId, date, formatType)] == 200
  {
    var url := TestTileUrl(layerId, date, formatType);
    if url !in probe {
      return false;
    }
    works := probe[url] == 200;
  }

  // ---------------------------------------------------------------------------
  // The loop
  // ---------------------------------------------------------------------------

  /** Whether the layer is written: always without `--test-tiles`, else when its tile answers. */
  predicate Works(layer: WorldviewLayer, testTiles: bool, date: Date, probe: Probe) {
    !testTiles || TileAvailable(probe, layer.id, date, GetOr(layer.format, "jpg"))
  }

  /** The columns written for a layer. */
  function TileLayerFields(layer: WorldviewLayer): LayerFields {
    LayerFields(layer.title, GetOr(layer.subtitle, ""), GetOr(layer.description, ""), GetOr(layer.format, "jpg"),
                "EPSG:4326", layer.startDate, layer.endDate, GetOr(layer.period, "daily"),
                GetOr(layer.category, "Other"), [Lower(GetOr(layer.category, "other"))], "NASA GIBS Worldview", true)
  }

  /**
   * The columns written: what the dictionary holds, else '' for texts,
   * 'jpg', 'daily' and 'Other'; the geographic projection, the Worldview
   * source, wraparound, and one tag, the lower-cased category, which the
   * two different fallbacks ('Other' and 'other') keep in step.
   */
  lemma TileLayerFieldsDefaults(layer: WorldviewLayer)
    ensures var f := TileLayerFields(layer);
      && f.title == layer.title
      && f.subtitle == (if layer.subtitle.Some? then layer.subtitle.value else "")
      && f.description == (if layer.description.Some? then layer.description.value else "")
      && f.formatType == (if layer.format.Some? then layer.format.value else "jpg")
      && f.temporalResolution == (if layer.period.Some? then layer.period.value else "daily")
      && f.category == (if layer.category.Some? then layer.category.value else "Other")
      && (f.startDate, f.endDate) == (layer.startDate, layer.endDate)
      && f.projection == "EPSG:4326" && f.source == "NASA GIBS Worldview" && f.wraparound
      && f.tags == [Lower(f.category)]
  {
    assert Lower("Other") == "other" == Lower("other");
  }

  /** What became of one layer of the list. */
  datatype TileOutcome = Created | Updated | Unavailable

  /** One turn of the loop. */
  function TileStep(t: GibsTables, layer: WorldviewLayer, testTiles: bool, date: Date, probe: Probe, now: Instant)
    : (GibsTables, TileOutcome)
  {
    if !Works(layer, testTiles, date, probe) then (t, Unavailable)
    else
      var (t1, created) := UpsertLayer(t, layer.id, TileLayerFields(layer), now);
      (t1, if created then Created else Updated)
  }

  /**
   * One layer: an unavailable one writes nothing; a working one is
   * created exactly when its id is not stored yet, and the layer table
   * alone changes.
   */
  lemma TileStepOutcome(t: GibsTables, layer: WorldviewLayer, testTiles: bool, date: Date, probe: Probe, now: Instant)
    ensures var (t1, o) := TileStep(t, layer, testTiles, date, probe, now);
      && t1.weekImages == t.weekImages && t1.configs == t.configs
      && (o == Unavailable <==> !Works(layer, testTiles, date, probe))
      && (o == Unavailable ==> t1 == t)
      && (o != Unavailable ==>
            && t1 == UpsertLayer(t, layer.id, TileLayerFields(layer), now).0
            && (o == Created <==> layer.id !in t.layers))
  {
  }

  /** The tables after the loop and its four counters. */
  datatype TilesRun = TilesRun(tables: GibsTables, created: nat, updated: nat, working: nat, failed: nat)

  function SyncTiles(t: GibsTables, layers: seq<WorldviewLayer>, testTiles: bool, date: Date, probe: Probe,
                     now: Instant): TilesRun
    decreases |layers|
  {
    if layers == [] then TilesRun(t, 0, 0, 0, 0)
    else
      var step := TileStep(t, layers[0], testTiles, date, probe, now);
      Tally(step.1, SyncTiles(step.0, layers[1..], testTiles, date, probe, now))
  }

  /** The run after one more layer with outcome `o` in front. */
  function Tally(o: TileOutcome, run: TilesRun): TilesRun {
    run.(created := run.created + (if o == Created then 1 else 0),
         updated := run.updated + (if o == Updated then 1 else 0),
         working := run.working + (if o == Unavailable then 0 else 1),
         failed := run.failed + (if o == Unavailable then 1 else 0))
  }

  /**
   * `Command.handle`: `None` when the test date cannot be had or the dates
   * of the built-in list overflow, before anything is written.
   */
  function HandleEffect(t: GibsTables, testTiles: bool, dateArg: Option<string>, limit: Option<int>,
                        now: Instant, probe: Probe): Option<TilesRun>
  {
    match (TestDate(dateArg, now), DaysAgo(now, 1), DaysAgo(now, 730))
    case (Some(date), Some(yesterday), Some(twoYearsAgo)) =>
      Some(SyncTiles(t, LimitLayers(WorldviewLayers(yesterday, twoYearsAgo), limit), testTiles, date, probe, now))
    case _ => None
  }

  /** The counters the command reports. */
  datatype TileCounts = TileCounts(created: nat, updated: nat, working: nat, failed: nat)

  ghost predicate TilesContinue(t: GibsTables, rest: seq<WorldviewLayer>, testTiles: bool, date: Date, probe: Probe,
                                now: Instant, counts: TileCounts, final: TilesRun) {
    var run := SyncTiles(t, rest, testTiles, date, probe, now);
    && run.tables == final.tables
    && counts.created + run.created == final.created
    && counts.updated + run.updated == final.updated
    && counts.working + run.working == final.working
    && counts.failed + run.failed == final.failed
  }

  /** The counters after one more layer with outcome `o`. */
  function CountOutcome(counts: TileCounts, o: TileOutcome): TileCounts {
    TileCounts(counts.created + (if o == Created then 1 else 0), counts.updated + (if o == Updated then 1 else 0),
               counts.working + (if o == Unavailable then 0 else 1), counts.failed + (if o == Unavailable then 1 else 0))
  }

  lemma TilesContinueStep(t: GibsTables, layers: seq<WorldviewLayer>, i: nat, testTiles: bool, date: Date,
                          probe: Probe, now: Instant, counts: TileCounts, final: TilesRun)
    requires i < |layers| && TilesContinue(t, layers[i..], testTiles, date, probe, now, counts, final)
    ensures var step := TileStep(t, layers[i], testTiles, date, probe, now);
      TilesContinue(step.0, layers[i + 1..], testTiles, date, probe, now, CountOutcome(counts, step.1), final)
  {
    assert layers[i..][0] == layers[i] && layers[i..][1..] == layers[i + 1..];
  }

  /** The body of the loop: test the layer's tile if asked, then write the layer when it works. */
  method SyncOneTile(db: GibsDatabase, layer: WorldviewLayer, testTiles: bool, date: Date, probe: Probe,
                     now: Instant) returns (outcome: TileOutcome)
    modifies db
    ensures (db.Tables(), outcome) == TileStep(old(db.Tables()), layer, testTiles, date, probe, now)
  {
    var tileWorks := true;
    if testTiles {
      tileWorks := TestLayerTiles(layer.id, date, GetOr(layer.format, "jpg"), probe);
    }
    if !tileWorks {
      return Unavailable;
    }
    var created := db.UpdateOrCreateLayer(layer.id, TileLayerFields(layer), now);
    outcome := if created then Created else Updated;
  }

  /** The loop over the (possibly cut) list. */
  method TileLoop(db: GibsDatabase, layers: seq<WorldviewLayer>, testTiles: bool, date: Date, probe: Probe,
                  now: Instant) returns (counts: TileCounts)
    modifies db
    ensures var e := SyncTiles(old(db.Tables()), layers, testTiles, date, probe, now);
      db.Tables() == e.tables && counts == TileCounts(e.created, e.updated, e.working, e.failed)
  {
    ghost var final := SyncTiles(db.Tables(), layers, testTiles, date, probe, now);
    counts := TileCounts(0, 0, 0, 0);
    assert layers[0..] == layers;
    for i := 0 to |layers|
      invariant TilesContinue(db.Tables(), layers[i..], testTiles, date, probe, now, counts, final)
    {
      TilesContinueStep(db.Tables(), layers, i, testTiles, date, probe, now, counts, final);
      var outcome := SyncOneTile(db, layers[i], testTiles, date, probe, now);
      counts := CountOutcome(counts, outcome);
    }
    assert layers[|layers|..] == [];
  }

  /** `Command.handle`. */
  method Handle(db: GibsDatabase, testTiles: bool, dateArg: Option<string>, limit: Option<int>, now: Instant,
                probe: Probe) returns (counts: Option<TileCounts>)
    modifies db
    ensures var e := HandleEffect(old(db.Tables()), testTiles, dateArg, limit, now, probe);
      && (e.None? ==> counts.None? && db.Tables() == old(db.Tables()))
      && (e.Some? ==> db.Tables() == e.value.tables
                      && counts == Some(TileCounts(e.value.created, e.value.updated, e.value.working, e.value.failed)))
  {
    var testDate := TestDate(dateArg, now);
    if testDate.None? {
      return None;
    }
    var yesterday, twoYearsAgo := DaysAgo(now, 1), DaysAgo(now, 730);
    if yesterday.None? || twoYearsAgo.None? {
      return None;
    }
    var layers := LimitLayers(WorldviewLayers(yesterday.value, twoYearsAgo.value), limit);
    var c := TileLoop(db, layers, testTiles, testDate.value, probe, now);
    counts := Some(c);
  }

  // ---------------------------------------------------------------------------
  // Properties of the run
  // ---------------------------------------------------------------------------

  /** Every layer is either working or failed, and every working layer is either created or updated. */
  lemma {:induction false} TileCountersAddUp(t: GibsTables, layers: seq<WorldviewLayer>, testTiles: bool, date: Date,
                                             probe: Probe, now: Instant)
    ensures var run := SyncTiles(t, layers, testTiles, date, probe, now);
      run.working + run.failed == |layers| && run.created + run.updated == run.working
    decreases |layers|
  {
    if layers != [] {
      var step := TileStep(t, layers[0], testTiles, date, probe, now);
      TileCountersAddUp(step.0, layers[1..], testTiles, date, probe, now);
    }
  }

  /**
   * The layer table grows by the number created and stays well-formed;
   * the other tables are untouched.
   */
  lemma {:induction false} TileRunGrowsByCreated(t: GibsTables, layers: seq<WorldviewLayer>, testTiles: bool,
                                                 date: Date, probe: Probe, now: Instant)
    requires GibsTablesValid(t)
    ensures var run := SyncTiles(t, layers, testTiles, date, probe, now);
      && |run.tables.layers| == |t.layers| + run.created
      && GibsTablesValid(run.tables)
      && run.tables.weekImages == t.weekImages && run.tables.configs == t.configs
    decreases |layers|
  {
    if layers != [] {
      var step := TileStep(t, layers[0], testTiles, date, probe, now);
      TileStepOutcome(t, layers[0], testTiles, date, probe, now);
      if step.1 != Unavailable {
        UpsertLayerPreservesValid(t, layers[0].id, TileLayerFields(layers[0]), now);
      }
      TileRunGrowsByCreated(step.0, layers[1..], testTiles, date, probe, now);
    }
  }

  /** Without `--test-tiles` no layer fails and every one is written. */
  lemma {:induction false} UntestedLayersAllWork(t: GibsTables, layers: seq<WorldviewLayer>, date: Date,
                                                 probe: Probe, now: Instant)
    ensures var run := SyncTiles(t, layers, false, date, probe, now);
      run.failed == 0 && run.working == |layers|
    decreases |layers|
  {
    if layers != [] {
      var step := TileStep(t, layers[0], false, date, probe, now);
      UntestedLayersAllWork(step.0, layers[1..], date, probe, now);
    }
  }

  /** The ids of the layers that pass the test. */
  function WorkingIds(layers: seq<WorldviewLayer>, testTiles: bool, date: Date, probe: Probe): set<string> {
    set i | 0 <= i < |layers| && Works(layers[i], testTiles, date, probe) :: layers[i].id
  }

  lemma WorkingIdsCons(layers: seq<WorldviewLayer>, testTiles: bool, date: Date, probe: Probe)
    requires layers != []
    ensures WorkingIds(layers, testTiles, date, probe)
      == (if Works(layers[0], testTiles, date, probe) then {layers[0].id} else {})
         + WorkingIds(layers[1..], testTiles, date, probe)
  {
    var all, rest := WorkingIds(layers, testTiles, date, probe), WorkingIds(layers[1..], testTiles, date, probe);
    forall k | k in rest ensures k in all {
      var i :| 0 <= i < |layers[1..]| && Works(layers[1..][i], testTiles, date, probe) && layers[1..][i].id == k;
      assert layers[i + 1] == layers[1..][i];
    }
    forall k | k in all && k != layers[0].id ensures k in rest {
      var i :| 0 <= i < |layers| && Works(layers[i], testTiles, date, probe) && layers[i].id == k;
      assert i != 0 && layers[1..][i - 1] == layers[i];
    }
  }

  /** The run adds to the layer table exactly the ids of the layers that pass the test. */
  lemma {:induction false} RunAddsWorkingIds(t: GibsTables, layers: seq<WorldviewLayer>, testTiles: bool,
                                             date: Date, probe: Probe, now: Instant)
    ensures SyncTiles(t, layers, testTiles, date, probe, now).tables.layers.Keys
      == t.layers.Keys + WorkingIds(layers, testTiles, date, probe)
    decreases |layers|
  {
    if layers != [] {
      var step := TileStep(t, layers[0], testTiles, date, probe, now);
      TileStepOutcome(t, layers[0], testTiles, date, probe, now);
      WorkingIdsCons(layers, testTiles, date, probe);
      RunAddsWorkingIds(step.0, layers[1..], testTiles, date, probe, now);
    }
  }

  /**
   * A layer failing the tile test is never written: every stored row whose
   * id no working layer carries is left as it was.
   */
  lemma {:induction false} FailedLayersNeverWritten(t: GibsTables, layers: seq<WorldviewLayer>, testTiles: bool,
                                                    date: Date, probe: Probe, now: Instant)
    ensures var run := SyncTiles(t, layers, testTiles, date, probe, now);
      forall k | k in t.layers && k !in WorkingIds(layers, testTiles, date, probe) ::
        k in run.tables.layers && run.tables.layers[k] == t.layers[k]
    decreases |layers|
  {
    if layers != [] {
      var step := TileStep(t, layers[0], testTiles, date, probe, now);
      TileStepOutcome(t, layers[0], testTiles, date, probe, now);
      WorkingIdsCons(layers, testTiles, date, probe);
      FailedLayersNeverWritten(step.0, layers[1..], testTiles, date, probe, now);
    }
  }
}
