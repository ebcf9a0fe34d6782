/**
 * The `fetch_gibs_layers` management command: the layers of the WMTS
 * capabilities document (or a built-in list when it yields none) are
 * written to the layer table one by one, skipping layers already stored
 * unless `--force` is given.
 */
module FetchGibsLayersCommand {
  import opened Common
  import opened Dates
  import opened GibsModels
  import opened GibsServices

  /** One layer dictionary of the list the command walks through. */
  datatype LayerRecord = LayerRecord(
    identifier: Option<string>,        // None: the value is None
    title: Option<Option<string>>,     // None: no 'title' key
    abstractText: Option<string>,      // None: no 'abstract' key
    format: Option<Option<string>>,    // None: no 'format' key
    category: Option<string>)          // None: no 'category' key

  /** A capabilities entry: identifier, title and maybe a format, nothing else. */
  function FromCapability(c: CapabilityLayer): LayerRecord {
    LayerRecord(c.identifier, Some(c.title), None, c.format, None)
  }

  function Entry(identifier: string, title: string, abstractText: string, format: string, category: string)
    : LayerRecord
  {
    LayerRecord(Some(identifier), Some(Some(title)), Some(abstractText), Some(Some(format)), Some(category))
  }

  /** `get_comprehensive_layers`: the built-in list used when the capabilities yield no layer. */
  const DefaultLayers: seq<LayerRecord> :=
    [
      Entry("VIIRS_SNPP_CorrectedReflectance_TrueColor",
            "VIIRS SNPP Corrected Reflectance (True Color)",
            "True-color corrected reflectance from VIIRS on Suomi NPP", "jpg", "Corrected Reflectance"),
      Entry("MODIS_Terra_CorrectedReflectance_TrueColor",
            "MODIS Terra Corrected Reflectance (True Color)",
            "True-color corrected reflectance from MODIS on Terra", "jpg", "Corrected Reflectance"),
      Entry("MODIS_Aqua_CorrectedReflectance_TrueColor",
            "MODIS Aqua Corrected Reflectance (True Color)",
            "True-color corrected reflectance from MODIS on Aqua", "jpg", "Corrected Reflectance"),
      Entry("VIIRS_NOAA20_CorrectedReflectance_TrueColor",
            "VIIRS NOAA-20 Corrected Reflectance (True Color)",
            "True-color corrected reflectance from VIIRS on NOAA-20", "jpg", "Corrected Reflectance"),
      Entry("MODIS_Terra_CorrectedReflectance_Bands367",
            "MODIS Terra Corrected Reflectance (Bands 3-6-7)",
            "False color composite for fire detection", "jpg", "Corrected Reflectance"),
      Entry("MODIS_Aqua_CorrectedReflectance_Bands721",
            "MODIS Aqua Corrected Reflectance (Bands 7-2-1)",
            "False color for land/water boundaries", "jpg", "Corrected Reflectance"),
      Entry("MODIS_Aqua_Thermal_Anomalies_All",
            "Fires and Thermal Anomalies (MODIS Aqua, Day and Night)",
            "Thermal anomalies and fires detected by MODIS on Aqua", "png", "Fires"),
      Entry("MODIS_Terra_Thermal_Anomalies_All",
            "Fires and Thermal Anomalies (MODIS Terra, Day and Night)",
            "Thermal anomalies and fires detected by MODIS on Terra", "png", "Fires"),
      Entry("VIIRS_SNPP_Thermal_Anomalies_375m_Day",
            "Fires and Thermal Anomalies (VIIRS SNPP, 375m, Day)",
            "High-resolution thermal anomalies from VIIRS", "png", "Fires"),
      Entry("VIIRS_NOAA20_Thermal_Anomalies_375m_Day",
            "Fires and Thermal Anomalies (VIIRS NOAA-20, 375m, Day)",
            "High-resolution thermal anomalies from VIIRS NOAA-20", "png", "Fires"),
      Entry("MODIS_Combined_Value_Added_AOD",
            "Aerosol Optical Depth (MODIS Combined)",
            "Combined aerosol optical depth from Terra and Aqua", "png", "Aerosols"),
      Entry("OMI_Aerosol_Index",
            "Aerosol Index (OMI)",
            "UV aerosol index from OMI", "png", "Aerosols"),
      Entry("AMSR2_Sea_Ice_Concentration_12km",
            "Sea Ice Concentration (AMSR2, 12km)",
            "Sea ice concentration from AMSR2", "png", "Sea Ice"),
      Entry("MODIS_Terra_Sea_Ice",
            "Sea Ice (MODIS Terra)",
            "Sea ice extent from MODIS Terra", "png", "Sea Ice"),
      Entry("MODIS_Terra_Snow_Cover",
            "Snow Cover (MODIS Terra, NDSI)",
            "Normalized Difference Snow Index from MODIS Terra", "png", "Snow Cover"),
      Entry("MODIS_Aqua_Snow_Cover",
            "Snow Cover (MODIS Aqua, NDSI)",
            "Normalized Difference Snow Index from MODIS Aqua", "png", "Snow Cover"),
      Entry("MODIS_Terra_Land_Surface_Temp_Day",
            "Land Surface Temperature (MODIS Terra, Day)",
            "Daytime land surface temperature from MODIS Terra", "png", "Land Surface"),
      Entry("MODIS_Aqua_Land_Surface_Temp_Day",
            "Land Surface Temperature (MODIS Aqua, Day)",
            "Daytime land surface temperature from MODIS Aqua", "png", "Land Surface"),
      Entry("MODIS_Terra_NDVI_8Day",
            "Vegetation Index (MODIS Terra, NDVI, 8-Day)",
            "Normalized Difference Vegetation Index", "png", "Vegetation"),
      Entry("VIIRS_SNPP_NDVI",
            "Vegetation Index (VIIRS SNPP, NDVI)",
            "Vegetation health from VIIRS", "png", "Vegetation"),
      Entry("AIRS_L2_Water_Vapor_Volume_Mixing_Ratio",
            "Water Vapor (AIRS)",
            "Atmospheric water vapor from AIRS", "png", "Water Vapor"),
      Entry("MODIS_Terra_Water_Vapor_5km",
            "Water Vapor (MODIS Terra, 5km)",
            "Water vapor from MODIS Terra", "png", "Water Vapor"),
      Entry("MODIS_Terra_Cloud_Fraction_Day",
            "Cloud Fraction (MODIS Terra, Day)",
            "Cloud cover fraction from MODIS Terra", "png", "Clouds"),
      Entry("MODIS_Terra_Cloud_Top_Temp_Day",
            "Cloud Top Temperature (MODIS Terra, Day)",
            "Cloud top temperature from MODIS Terra", "png", "Clouds"),
      Entry("BlueMarble_NextGeneration",
            "Blue Marble: Next Generation",
            "A cloud-free view of Earth based on data from 2004", "jpg", "Reference"),
      Entry("BlueMarble_ShadedRelief_Bathymetry",
            "Blue Marble: Shaded Relief and Bathymetry",
            "Topography and ocean floor relief", "jpg", "Reference"),
      Entry("Coastlines",
            "Coastlines",
            "World coastline boundaries", "png", "Reference")
    ]

  /** The identifiers of the built-in list are pairwise distinct. */
  lemma DefaultIdentifiersDistinct()
    ensures |DefaultLayers| == 27
    ensures forall i, j | 0 <= i < j < |DefaultLayers| :: DefaultLayers[i].identifier != DefaultLayers[j].identifier
  {
  }

  /** Every built-in entry has an identifier, a title and a format. */
  lemma DefaultLayersWellFormed()
    ensures forall i | 0 <= i < |DefaultLayers| :: WellFormed(DefaultLayers[i])
  {
  }

  /** The list handled: the capabilities' layers, or the built-in list when there are none. */
  function RecordsFor(resp: CapabilitiesResponse): seq<LayerRecord> {
    var caps := if resp.CapabilitiesUnavailable? then [] else CapabilityLayers(resp.elements);
    if caps == [] then DefaultLayers
    else seq(|caps|, i requires 0 <= i < |caps| => FromCapability(caps[i]))
  }

  /** The built-in list is used exactly when the capabilities yield no layer. */
  lemma FallbackExactlyWhenEmpty(resp: CapabilitiesResponse)
    ensures var caps := if resp.CapabilitiesUnavailable? then [] else CapabilityLayers(resp.elements);
      (RecordsFor(resp) == DefaultLayers <==> caps == [])
      && (caps != [] ==> |RecordsFor(resp)| == |caps| && forall i | 0 <= i < |caps| :: RecordsFor(resp)[i] == FromCapability(caps[i]))
  {
    var caps := if resp.CapabilitiesUnavailable? then [] else CapabilityLayers(resp.elements);
    if caps != [] {
      assert RecordsFor(resp) == seq(|caps|, i requires 0 <= i < |caps| => FromCapability(caps[i]));
      assert RecordsFor(resp)[0] == FromCapability(caps[0]);
      assert DefaultLayers[0].abstractText.Some?;
    }
  }

  const DefaultEndDate: Date := Ymd(2025, 10, 1)
  const HistoryDays := 365 * 5

  /**
   * The columns written for a layer: `None` when the default start date
   * (five years of 365 days before now) raises, or when the title or the
   * format is None and the NOT NULL column refuses it.
   */
  function LayerFieldsFor(rec: LayerRecord, now: Instant): (r: Option<LayerFields>)
    requires rec.identifier.Some?
    ensures r.None? <==>
      || (rec.title.Some? && rec.title.value.None?)
      || (rec.format.Some? && rec.format.value.None?)
      || !InPythonRange(SubDays(now.date, HistoryDays))
    ensures r.Some? ==>
      && r.value.title == (if rec.title.Some? then rec.title.value.value else rec.identifier.value)
      && r.value.description == (if rec.abstractText.Some? then rec.abstractText.value else "")
      && r.value.formatType == (if rec.format.Some? then rec.format.value.value else "jpg")
      && r.value.category == (if rec.category.Some? then rec.category.value else "Other")
      && r.value.tags == [Lower(r.value.category)]
      && r.value.subtitle == "" && r.value.projection == "EPSG:4326" && r.value.temporalResolution == "daily"
      && r.value.source == "NASA GIBS" && r.value.wraparound
      && r.value.endDate == Some(DefaultEndDate)
      && r.value.startDate.Some? && DayNumber(r.value.startDate.value) == DayNumber(now.date) - HistoryDays
  {
    var title := if rec.title.Some? then rec.title.value else rec.identifier;
    var description := if rec.abstractText.Some? then rec.abstractText.value else "";
    var format := if rec.format.Some? then rec.format.value else Some("jpg");
    var category := if rec.category.Some? then rec.category.value else "Other";
    var start := SubDays(now.date, HistoryDays);
    SubDaysNumber(now.date, HistoryDays);
    if title.None? || format.None? || !InPythonRange(start) then None
    else
      Some(LayerFields(title.value, "", description, format.value, "EPSG:4326", Some(start), Some(DefaultEndDate),
                       "daily", category, [Lower(category)], "NASA GIBS", true))
  }

  /** What became of one layer of the list. */
  datatype LayerOutcome = Created | Updated | Skipped | Failed

  /** One turn of the loop. */
  function SyncOne(t: GibsTables, rec: LayerRecord, force: bool, now: Instant): (GibsTables, LayerOutcome) {
    if !force && rec.identifier.Some? && rec.identifier.value in t.layers then (t, Skipped)
    else if rec.identifier.None? then (t, Failed)
    else
      match LayerFieldsFor(rec, now)
      case None => (t, Failed)
      case Some(f) =>
        var (t1, created) := UpsertLayer(t, rec.identifier.value, f, now);
        (t1, if created then Created else Updated)
  }

  /**
   * Each layer: skipped when stored and not forced (left as it is),
   * otherwise created or completely rewritten with the computed columns;
   * a failure writes nothing.
   */
  lemma SyncOneOutcome(t: GibsTables, rec: LayerRecord, force: bool, now: Instant)
    ensures var (t1, o) := SyncOne(t, rec, force, now);
      && t1.weekImages == t.weekImages && t1.configs == t.configs
      && (o == Skipped <==> !force && rec.identifier.Some? && rec.identifier.value in t.layers)
      && (o == Skipped || o == Failed ==> t1 == t)
      && (o == Created || o == Updated ==>
            && rec.identifier.Some? && LayerFieldsFor(rec, now).Some?
            && (o == Created <==> rec.identifier.value !in t.layers)
            && t1.layers.Keys == t.layers.Keys + {rec.identifier.value}
            && t1.layers[rec.identifier.value].fields == LayerFieldsFor(rec, now).value
            && forall k | k in t.layers && k != rec.identifier.value :: t1.layers[k] == t.layers[k])
  {
  }

  /** The tables after the loop, the three counters, and whether the loop ran to the end. */
  datatype SyncRun = SyncRun(tables: GibsTables, created: nat, updated: nat, skipped: nat, completed: bool)

  /** The loop: one `try` around it all, so the first failure abandons the rest of the list. */
  function SyncLayers(t: GibsTables, recs: seq<LayerRecord>, force: bool, now: Instant): SyncRun
    decreases |recs|
  {
    if recs == [] then SyncRun(t, 0, 0, 0, true)
    else
      var step := SyncOne(t, recs[0], force, now);
      var o := step.1;
      if o == Failed then SyncRun(t, 0, 0, 0, false)
      else
        Count(o, SyncLayers(step.0, recs[1..], force, now))
  }

  /** The run after one more layer with outcome `o` in front. */
  function Count(o: LayerOutcome, run: SyncRun): SyncRun {
    run.(created := run.created + (if o == Created then 1 else 0),
         updated := run.updated + (if o == Updated then 1 else 0),
         skipped := run.skipped + (if o == Skipped then 1 else 0))
  }

  function HandleEffect(t: GibsTables, resp: CapabilitiesResponse, force: bool, now: Instant): SyncRun {
    SyncLayers(t, RecordsFor(resp), force, now)
  }

  /** The counters the command keeps. */
  datatype SyncCounts = SyncCounts(created: nat, updated: nat, skipped: nat, completed: bool)

  ghost predicate SyncContinues(t: GibsTables, rest: seq<LayerRecord>, force: bool, now: Instant,
                                created: nat, updated: nat, skipped: nat, final: SyncRun) {
    var run := SyncLayers(t, rest, force, now);
    && run.tables == final.tables && run.completed == final.completed
    && created + run.created == final.created
    && updated + run.updated == final.updated
    && skipped + run.skipped == final.skipped
  }

  /** The list the loop walks through: the capabilities' layers, or the built-in list. */
  method LayerList(resp: CapabilitiesResponse) returns (records: seq<LayerRecord>)
    ensures records == RecordsFor(resp)
  {
    var caps := FetchCapabilities(resp);
    if caps == [] {
      records := DefaultLayers;
    } else {
      records := seq(|caps|, i requires 0 <= i < |caps| => FromCapability(caps[i]));
    }
  }

  /** One turn of the loop, on the database. */
  method SyncOneLayer(db: GibsDatabase, rec: LayerRecord, force: bool, now: Instant) returns (outcome: LayerOutcome)
    modifies db
    ensures (db.Tables(), outcome) == SyncOne(old(db.Tables()), rec, force, now)
  {
    if !force && rec.identifier.Some? && rec.identifier.value in db.layers {
      return Skipped;
    }
    if rec.identifier.None? {
      return Failed;
    }
    var fields := LayerFieldsFor(rec, now);
    if fields.None? {
      return Failed;
    }
    var isNew := db.UpdateOrCreateLayer(rec.identifier.value, fields.value, now);
    outcome := if isNew then Created else Updated;
  }

  lemma SyncContinuesStep(t: GibsTables, records: seq<LayerRecord>, i: nat, force: bool, now: Instant,
                          created: nat, updated: nat, skipped: nat, final: SyncRun)
    requires i < |records| && SyncContinues(t, records[i..], force, now, created, updated, skipped, final)
    ensures var step := SyncOne(t, records[i], force, now);
      && (step.1 == Failed ==>
            final.tables == t && !final.completed
            && final.created == created && final.updated == updated && final.skipped == skipped)
      && (step.1 != Failed ==>
            SyncContinues(step.0, records[i + 1..], force, now,
                          created + (if step.1 == Created then 1 else 0),
                          updated + (if step.1 == Updated then 1 else 0),
                          skipped + (if step.1 == Skipped then 1 else 0), final))
  {
    assert records[i..][0] == records[i] && records[i..][1..] == records[i + 1..];
  }

  /** The loop over the list. */
  method SyncLoop(db: GibsDatabase, records: seq<LayerRecord>, force: bool, now: Instant) returns (counts: SyncCounts)
    modifies db
    ensures var e := SyncLayers(old(db.Tables()), records, force, now);
      db.Tables() == e.tables && counts == SyncCounts(e.created, e.updated, e.skipped, e.completed)
  {
    ghost var final := SyncLayers(db.Tables(), records, force, now);
    var created, updated, skipped := 0, 0, 0;
    assert records[0..] == records;
    for i := 0 to |records|
      invariant SyncContinues(db.Tables(), records[i..], force, now, created, updated, skipped, final)
    {
      SyncContinuesStep(db.Tables(), records, i, force, now, created, updated, skipped, final);
      var outcome := SyncOneLayer(db, records[i], force, now);
      if outcome == Failed {
        return SyncCounts(created, updated, skipped, false);
      }
      created := created + if outcome == Created then 1 else 0;
      updated := updated + if outcome == Updated then 1 else 0;
      skipped := skipped + if outcome == Skipped then 1 else 0;
    }
    assert records[|records|..] == [];
    counts := SyncCounts(created, updated, skipped, true);
  }

  /** `Command.handle`. */
  method Handle(db: GibsDatabase, resp: CapabilitiesResponse, force: bool, now: Instant) returns (counts: SyncCounts)
    modifies db
    ensures var e := HandleEffect(old(db.Tables()), resp, force, now);
      db.Tables() == e.tables && counts == SyncCounts(e.created, e.updated, e.skipped, e.completed)
  {
    var records := LayerList(resp);
    counts := SyncLoop(db, records, force, now);
  }

  /**
   * Every layer handled moves exactly one counter: the three add up to the
   * length of the list when the loop finishes, and to fewer when it is
   * abandoned.
   */
  lemma {:induction false} SyncCountersAddUp(t: GibsTables, recs: seq<LayerRecord>, force: bool, now: Instant)
    ensures var run := SyncLayers(t, recs, force, now);
      && (run.completed ==> run.created + run.updated + run.skipped == |recs|)
      && (!run.completed ==> run.created + run.updated + run.skipped < |recs|)
    decreases |recs|
  {
    if recs != [] {
      var step := SyncOne(t, recs[0], force, now);
      if step.1 != Failed {
        SyncCountersAddUp(step.0, recs[1..], force, now);
      }
    }
  }

  /** The layer table grows by exactly the rows the run created, stays valid, and nothing else changes. */
  lemma {:induction false} SyncGrowsByCreated(t: GibsTables, recs: seq<LayerRecord>, force: bool, now: Instant)
    requires GibsTablesValid(t)
    ensures var run := SyncLayers(t, recs, force, now);
      && |run.tables.layers| == |t.layers| + run.created
      && GibsTablesValid(run.tables)
      && run.tables.weekImages == t.weekImages && run.tables.configs == t.configs
    decreases |recs|
  {
    if recs != [] {
      var step := SyncOne(t, recs[0], force, now);
      var o := step.1;
      SyncOneOutcome(t, recs[0], force, now);
      if o != Failed {
        if o == Created || o == Updated {
          UpsertLayerPreservesValid(t, recs[0].identifier.value, LayerFieldsFor(recs[0], now).value, now);
        }
        SyncGrowsByCreated(step.0, recs[1..], force, now);
      }
    }
  }

  /** Without `--force`, every layer stored before the run is left exactly as it was. */
  lemma {:induction false} NoForceKeepsStoredLayers(t: GibsTables, recs: seq<LayerRecord>, now: Instant)
    ensures var run := SyncLayers(t, recs, false, now);
      && t.layers.Keys <= run.tables.layers.Keys
      && forall k | k in t.layers :: run.tables.layers[k] == t.layers[k]
    decreases |recs|
  {
    if recs != [] {
      var (t1, o) := SyncOne(t, recs[0], false, now);
      SyncOneOutcome(t, recs[0], false, now);
      if o != Failed {
        NoForceKeepsStoredLayers(t1, recs[1..], now);
      }
    }
  }

  /** Once a layer fails, the layers after it are never looked at. */
  lemma {:induction false} FailureAbandonsRest(t: GibsTables, recs: seq<LayerRecord>, later: seq<LayerRecord>,
                                               force: bool, now: Instant)
    requires !SyncLayers(t, recs, force, now).completed
    ensures SyncLayers(t, recs + later, force, now) == SyncLayers(t, recs, force, now)
    decreases |recs|
  {
    var all := recs + later;
    assert all[0] == recs[0] && all[1..] == recs[1..] + later;
    var step := SyncOne(t, recs[0], force, now);
    if step.1 != Failed {
      FailureAbandonsRest(step.0, recs[1..], later, force, now);
    }
  }

  predicate WellFormed(rec: LayerRecord) {
    && rec.identifier.Some?
    && (rec.title.Some? ==> rec.title.value.Some?)
    && (rec.format.Some? ==> rec.format.value.Some?)
  }

  /**
   * Layers with distinct identifiers, none of them stored and all of them
   * complete, are all created, whether or not `--force` is given.
   */
  lemma {:induction false} NewLayersAllCreated(t: GibsTables, recs: seq<LayerRecord>, force: bool, now: Instant)
    requires InPythonRange(SubDays(now.date, HistoryDays))
    requires forall i | 0 <= i < |recs| :: WellFormed(recs[i]) && recs[i].identifier.value !in t.layers
    requires forall i, j | 0 <= i < j < |recs| :: recs[i].identifier != recs[j].identifier
    ensures var run := SyncLayers(t, recs, force, now);
      run.completed && run.created == |recs| && run.updated == 0 && run.skipped == 0
    decreases |recs|
  {
    if recs != [] {
      var (t1, o) := SyncOne(t, recs[0], force, now);
      SyncOneOutcome(t, recs[0], force, now);
      assert o == Created;
      forall i | 0 <= i < |recs[1..]| ensures WellFormed(recs[1..][i]) && recs[1..][i].identifier.value !in t1.layers {
        assert recs[1..][i] == recs[i + 1];
      }
      NewLayersAllCreated(t1, recs[1..], force, now);
    }
  }

  /** On an empty table, the built-in list creates all 27 layers. */
  lemma DefaultsFillEmptyTable(t: GibsTables, resp: CapabilitiesResponse, force: bool, now: Instant)
    requires t.layers == map[] && InPythonRange(SubDays(now.date, HistoryDays))
    requires resp.CapabilitiesUnavailable?
    ensures var run := HandleEffect(t, resp, force, now);
      run.completed && run.created == 27 && run.updated == 0 && run.skipped == 0 && |run.tables.layers| == 27
  {
    DefaultIdentifiersDistinct();
    DefaultLayersWellFormed();
    NewLayersAllCreated(t, DefaultLayers, force, now);
    SyncGrowsByCreated(t, DefaultLayers, force, now);
  }
}
