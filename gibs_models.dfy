/**
 * The GIBS tables: visualization layers keyed by their unique `layer_id`,
 * Worldview "Image of the Week" entries, and per-session layer
 * configurations. Titles and session ids are not unique in the schema, so
 * those two tables are kept as sequences in insertion order.
 */
module GibsModels {
  import opened Common
  import opened Dates
  import opened Json
  import opened Sorting

  // ---------------------------------------------------------------------------
  // GIBSLayer
  // ---------------------------------------------------------------------------

  /** Every column of a layer except its key and its timestamps. */
  datatype LayerFields = LayerFields(
    title: string,
    subtitle: string,
    description: string,
    formatType: string,
    projection: string,
    startDate: Option<Date>,
    endDate: Option<Date>,
    temporalResolution: string,
    category: string,
    tags: seq<string>,
    source: string,
    wraparound: bool)

  datatype GIBSLayer = GIBSLayer(layerId: string, fields: LayerFields, createdAt: Instant, updatedAt: Instant)

  /**
   * The columns of a layer created with only its required values: blank
   * texts, no dates, no tags, and no wraparound.
   */
  function LayerDefaults(title: string, formatType: string, projection: string): (f: LayerFields)
    ensures f.tags == [] && !f.wraparound
    ensures f.startDate.None? && f.endDate.None?
    ensures f.subtitle == "" && f.description == "" && f.temporalResolution == "" && f.category == "" && f.source == ""
    ensures (f.title, f.formatType, f.projection) == (title, formatType, projection)
  {
    LayerFields(title, "", "", formatType, projection, None, None, "", "", [], "", false)
  }

  // ---------------------------------------------------------------------------
  // WorldviewImageOfWeek
  // ---------------------------------------------------------------------------

  /** The columns of an entry other than its title and timestamps (its location JSON is not modelled). */
  datatype WeekImageFields = WeekImageFields(
    description: string,
    imageUrl: string,
    thumbnailUrl: string,
    publishedDate: Date,
    captureDate: Option<Date>,
    location: string,
    layersUsed: seq<string>,
    satellite: string,
    instrument: string,
    permalink: string,
    featured: bool)

  datatype WorldviewImageOfWeek = WorldviewImageOfWeek(
    title: string,
    fields: WeekImageFields,
    createdAt: Instant,
    updatedAt: Instant)

  /** `__str__`: "{title} - {published_date}". */
  function WeekImageLabel(img: WorldviewImageOfWeek): string {
    img.title + " - " + FormatDate(img.fields.publishedDate)
  }

  /** The label starts with the title and ends with the publication date, which parses back. */
  lemma WeekImageLabelShowsTitleAndDate(img: WorldviewImageOfWeek)
    requires InPythonRange(img.fields.publishedDate)
    ensures var text := WeekImageLabel(img);
      && |text| == |img.title| + 13
      && text[..|img.title|] == img.title
      && ParseDate(text[|img.title| + 3..]) == Parsed(img.fields.publishedDate)
  {
    var text := WeekImageLabel(img);
    var d := FormatDate(img.fields.publishedDate);
    ParseFormatRoundTrip(img.fields.publishedDate);
    assert |ZeroPad(img.fields.publishedDate.year, 4)| == 4 by {
      NatDigitsBound(img.fields.publishedDate.year, 4);
      assert Pow10(4) == 10000;
    }
    assert |ZeroPad(img.fields.publishedDate.month, 2)| == 2 by {
      NatDigitsBound(img.fields.publishedDate.month, 2);
      assert Pow10(2) == 100;
    }
    assert |ZeroPad(img.fields.publishedDate.day, 2)| == 2 by {
      NatDigitsBound(img.fields.publishedDate.day, 2);
      assert Pow10(2) == 100;
    }
    assert text[|img.title| + 3..] == d;
  }

  // ---------------------------------------------------------------------------
  // UserLayerConfig
  // ---------------------------------------------------------------------------

  /** The stored preferences of a session (the opacity map and active layers as JSON). */
  datatype ConfigSettings = ConfigSettings(
    activeLayers: JsonValue,
    layerOpacity: JsonValue,
    centerLat: real,
    centerLon: real,
    zoomLevel: int,
    projection: string,
    currentDate: Date)

  datatype UserLayerConfig = UserLayerConfig(
    sessionId: string,
    settings: ConfigSettings,
    createdAt: Instant,
    updatedAt: Instant)

  const DefaultZoomLevel := 2
  const DefaultProjection := "EPSG:4326"

  /** A new configuration: no active layers, no opacities, centre (0, 0), zoom 2, EPSG:4326, today. */
  function DefaultSettings(now: Instant): (c: ConfigSettings)
    ensures c.activeLayers == JArray([]) && c.layerOpacity == JObject(map[])
    ensures c.centerLat == 0.0 && c.centerLon == 0.0
    ensures c.zoomLevel == 2 && c.projection == "EPSG:4326"
    ensures c.currentDate == now.date
  {
    ConfigSettings(JArray([]), JObject(map[]), 0.0, 0.0, DefaultZoomLevel, DefaultProjection, now.date)
  }

  function ConfigLabel(c: UserLayerConfig): string {
    "Config for " + c.sessionId
  }

  // ---------------------------------------------------------------------------
  // Tables
  // ---------------------------------------------------------------------------

  datatype GibsTables = GibsTables(
    layers: map<string, GIBSLayer>,
    weekImages: seq<WorldviewImageOfWeek>,
    configs: seq<UserLayerConfig>)

  const EmptyGibsTables := GibsTables(map[], [], [])

  /** Each layer is stored under its own `layer_id`. */
  predicate GibsTablesValid(t: GibsTables) {
    forall k | k in t.layers :: t.layers[k].layerId == k
  }

  lemma EmptyGibsTablesValid()
    ensures GibsTablesValid(EmptyGibsTables)
  {
  }

  /** `layer_id` is unique: two stored layers with the same id are the same row. */
  lemma OneLayerPerId(t: GibsTables, a: GIBSLayer, b: GIBSLayer)
    requires GibsTablesValid(t)
    requires a in t.layers.Values && b in t.layers.Values && a.layerId == b.layerId
    ensures a == b
  {
    var ka :| ka in t.layers && t.layers[ka] == a;
    var kb :| kb in t.layers && t.layers[kb] == b;
  }

  /** Nothing in the schema stops two configurations from sharing a session id. */
  lemma TwoConfigsMayShareSession(now: Instant)
    ensures var c := UserLayerConfig("s", DefaultSettings(now), now, now);
      var t := GibsTables(map[], [], [c, c]);
      GibsTablesValid(t) && CountSession(t.configs, "s") == 2
  {
    var c := UserLayerConfig("s", DefaultSettings(now), now, now);
    assert [c, c][1..] == [c] && [c][1..] == [];
    assert CountSession([c], "s") == 1;
  }

  // ---------------------------------------------------------------------------
  // ORM operations on the layer table
  // ---------------------------------------------------------------------------

  /**
   * `GIBSLayer.objects.update_or_create(layer_id=…, defaults=fields)`: the
   * row for the id gets exactly `fields`; a new row is stamped `now` twice,
   * an existing one keeps its creation time.
   */
  function UpsertLayer(t: GibsTables, layerId: string, fields: LayerFields, now: Instant): (r: (GibsTables, bool))
    ensures r.1 <==> layerId !in t.layers
    ensures r.0.layers.Keys == t.layers.Keys + {layerId}
    ensures r.0.layers[layerId].fields == fields && r.0.layers[layerId].updatedAt == now
    ensures forall k | k in t.layers && k != layerId :: r.0.layers[k] == t.layers[k]
    ensures r.0.weekImages == t.weekImages && r.0.configs == t.configs
  {
    var created := layerId !in t.layers;
    var createdAt := if created then now else t.layers[layerId].createdAt;
    (t.(layers := t.layers[layerId := GIBSLayer(layerId, fields, createdAt, now)]), created)
  }

  lemma UpsertLayerPreservesValid(t: GibsTables, layerId: string, fields: LayerFields, now: Instant)
    requires GibsTablesValid(t)
    ensures GibsTablesValid(UpsertLayer(t, layerId, fields, now).0)
  {
  }

  // ---------------------------------------------------------------------------
  // Lookups on the non-unique columns
  // ---------------------------------------------------------------------------

  function CountTitled(imgs: seq<WorldviewImageOfWeek>, title: string): nat {
    if imgs == [] then 0 else (if imgs[0].title == title then 1 else 0) + CountTitled(imgs[1..], title)
  }

  lemma {:induction false} CountTitledZero(imgs: seq<WorldviewImageOfWeek>, title: string)
    ensures CountTitled(imgs, title) == 0 <==> forall i | 0 <= i < |imgs| :: imgs[i].title != title
  {
    if imgs != [] {
      CountTitledZero(imgs[1..], title);
      if imgs[0].title != title {
        forall i | 1 <= i < |imgs| ensures imgs[i].title == imgs[1..][i - 1].title {}
      }
    }
  }

  function CountSession(cs: seq<UserLayerConfig>, sessionId: string): nat {
    if cs == [] then 0 else (if cs[0].sessionId == sessionId then 1 else 0) + CountSession(cs[1..], sessionId)
  }

  /** The position of the first configuration of a session. */
  function FirstOfSession(cs: seq<UserLayerConfig>, sessionId: string): (r: Option<nat>)
    ensures r.Some? ==> r.value < |cs| && cs[r.value].sessionId == sessionId
    ensures r.Some? ==> forall j | 0 <= j < r.value :: cs[j].sessionId != sessionId
    ensures r.None? <==> CountSession(cs, sessionId) == 0
  {
    if cs == [] then None
    else if cs[0].sessionId == sessionId then Some(0)
    else
      match FirstOfSession(cs[1..], sessionId)
      case None => None
      case Some(i) => Some(i + 1)
  }

  /**
   * `WorldviewImageOfWeek.objects.get_or_create(title=…, defaults=fields)`:
   * `None` when two entries already have the title (MultipleObjectsReturned);
   * otherwise the tables and whether an entry was appended.
   */
  function GetOrCreateWeekImage(t: GibsTables, title: string, fields: WeekImageFields, now: Instant)
    : (r: Option<(GibsTables, bool)>)
    ensures r.None? <==> CountTitled(t.weekImages, title) >= 2
    ensures r.Some? && !r.value.1 ==> r.value.0 == t
    ensures r.Some? && r.value.1 ==>
      r.value.0 == t.(weekImages := t.weekImages + [WorldviewImageOfWeek(title, fields, now, now)])
    ensures r.Some? ==> (r.value.1 <==> CountTitled(t.weekImages, title) == 0)
  {
    var n := CountTitled(t.weekImages, title);
    if n >= 2 then None
    else if n == 1 then Some((t, false))
    else Some((t.(weekImages := t.weekImages + [WorldviewImageOfWeek(title, fields, now, now)]), true))
  }

  /**
   * `UserLayerConfig.objects.get_or_create(session_id=…)`: `None` when two
   * configurations share the session; otherwise the tables and the position
   * of the session's configuration, appended with the defaults if missing.
   */
  function GetOrCreateConfig(t: GibsTables, sessionId: string, now: Instant): (r: Option<(GibsTables, nat)>)
    ensures r.None? <==> CountSession(t.configs, sessionId) >= 2
    ensures r.Some? ==> r.value.1 < |r.value.0.configs| && r.value.0.configs[r.value.1].sessionId == sessionId
    ensures r.Some? && CountSession(t.configs, sessionId) == 1 ==> r.value.0 == t
    ensures r.Some? && CountSession(t.configs, sessionId) == 0 ==>
      r.value == (t.(configs := t.configs + [UserLayerConfig(sessionId, DefaultSettings(now), now, now)]), |t.configs|)
  {
    var n := CountSession(t.configs, sessionId);
    if n >= 2 then None
    else
      match FirstOfSession(t.configs, sessionId)
      case Some(i) => Some((t, i))
      case None =>
        Some((t.(configs := t.configs + [UserLayerConfig(sessionId, DefaultSettings(now), now, now)]), |t.configs|))
  }

  /** `config.save()` for the configuration at position `i`: its settings are replaced and it is stamped `now`. */
  function SaveConfig(t: GibsTables, i: nat, settings: ConfigSettings, now: Instant): (r: GibsTables)
    requires i < |t.configs|
    ensures |r.configs| == |t.configs|
    ensures r.configs[i] == t.configs[i].(settings := settings, updatedAt := now)
    ensures forall j | 0 <= j < |t.configs| && j != i :: r.configs[j] == t.configs[j]
    ensures r.layers == t.layers && r.weekImages == t.weekImages
  {
    t.(configs := t.configs[i := t.configs[i].(settings := settings, updatedAt := now)])
  }

  // ---------------------------------------------------------------------------
  // Default orderings
  // ---------------------------------------------------------------------------

  /** `GIBSLayer`: `ordering = ['-updated_at']`. */
  predicate UpdatedNoEarlier(a: GIBSLayer, b: GIBSLayer) {
    EpochSeconds(a.updatedAt) >= EpochSeconds(b.updatedAt)
  }

  /** `WorldviewImageOfWeek`: `ordering = ['-published_date']`. */
  predicate PublishedNoEarlier(a: WorldviewImageOfWeek, b: WorldviewImageOfWeek) {
    DayNumber(a.fields.publishedDate) >= DayNumber(b.fields.publishedDate)
  }

  /** `GIBSLayer.objects.all()`: every layer once, most recently updated first. */
  ghost function LayersInDefaultOrder(t: GibsTables): (r: seq<GIBSLayer>)
    ensures |r| == |t.layers.Values|
    ensures forall x :: x in r <==> x in t.layers.Values
    ensures forall i, j | 0 <= i < j < |r| :: EpochSeconds(r[i].updatedAt) >= EpochSeconds(r[j].updatedAt)
  {
    SortedListOf(t.layers.Values, UpdatedNoEarlier)
  }

  /** `WorldviewImageOfWeek.objects.all()`: every entry, newest publication first. */
  function WeekImagesInDefaultOrder(t: GibsTables): (r: seq<WorldviewImageOfWeek>)
    ensures multiset(r) == multiset(t.weekImages)
    ensures forall i, j | 0 <= i < j < |r| :: DayNumber(r[i].fields.publishedDate) >= DayNumber(r[j].fields.publishedDate)
  {
    SortBy(t.weekImages, PublishedNoEarlier)
  }

  // ---------------------------------------------------------------------------
  // The database object
  // ---------------------------------------------------------------------------

  class GibsDatabase {
    var layers: map<string, GIBSLayer>
    var weekImages: seq<WorldviewImageOfWeek>
    var configs: seq<UserLayerConfig>

    function Tables(): GibsTables
      reads this
    {
      GibsTables(layers, weekImages, configs)
    }

    constructor ()
      ensures Tables() == EmptyGibsTables
    {
      layers, weekImages, configs := map[], [], [];
    }

    method UpdateOrCreateLayer(layerId: string, fields: LayerFields, now: Instant) returns (created: bool)
      modifies this
      ensures (Tables(), created) == UpsertLayer(old(Tables()), layerId, fields, now)
    {
      created := layerId !in layers;
      var createdAt := if created then now else layers[layerId].createdAt;
      layers := layers[layerId := GIBSLayer(layerId, fields, createdAt, now)];
    }

    method GetOrCreateWeekImageRow(title: string, fields: WeekImageFields, now: Instant) returns (r: Option<bool>)
      modifies this
      ensures r.None? <==> GetOrCreateWeekImage(old(Tables()), title, fields, now).None?
      ensures r.Some? ==> (Tables(), r.value) == GetOrCreateWeekImage(old(Tables()), title, fields, now).value
      ensures r.None? ==> Tables() == old(Tables())
    {
      var n := CountTitled(weekImages, title);
      if n >= 2 {
        return None;
      }
      if n == 1 {
        return Some(false);
      }
      weekImages := weekImages + [WorldviewImageOfWeek(title, fields, now, now)];
      r := Some(true);
    }

    method GetOrCreateConfigRow(sessionId: string, now: Instant) returns (r: Option<nat>)
      modifies this
      ensures r.None? <==> GetOrCreateConfig(old(Tables()), sessionId, now).None?
      ensures r.Some? ==> (Tables(), r.value) == GetOrCreateConfig(old(Tables()), sessionId, now).value
      ensures r.None? ==> Tables() == old(Tables())
    {
      if CountSession(configs, sessionId) >= 2 {
        return None;
      }
      var first := FirstOfSession(configs, sessionId);
      if first.Some? {
        return first;
      }
      configs := configs + [UserLayerConfig(sessionId, DefaultSettings(now), now, now)];
      r := Some(|configs| - 1);
    }

    method SaveConfigRow(i: nat, settings: ConfigSettings, now: Instant)
      requires i < |configs|
      modifies this
      ensures Tables() == SaveConfig(old(Tables()), i, settings, now)
    {
      configs := configs[i := configs[i].(settings := settings, updatedAt := now)];
    }
  }
}
