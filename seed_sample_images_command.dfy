/**
 * The `seed_sample_images` management command: eight built-in Image of the
 * Week entries are fetched or created by title, one week apart starting
 * sixty days before now; each capture date lies one to three days (drawn
 * at random) before its publication date, and the first three entries are
 * featured.
 */
module SeedSampleImagesCommand {
  import opened Common
  import opened Dates
  import opened GibsModels

  /** One dictionary of the built-in list (its `coordinates` are not modelled). */
  datatype SampleImage = SampleImage(
    title: string,
    description: string,
    location: string,
    satellite: string,
    instrument: string,
    imageUrl: string,
    layersUsed: seq<string>)

  const SampleCount := 8

  /** The entry at position `i` of the built-in list. */
  function SampleAt(i: nat): SampleImage
    requires i < SampleCount
  {
    SampleImage(SampleTitles[i], SampleDescription(i), SampleLocation(i), SampleSatellite(i), SampleInstrument(i),
                SampleImageUrl(i), SampleLayersUsed(i))
  }

  /** The titles of the list, in order. */
  const SampleTitles: seq<string> := [
    "Typhoon Ragasa",
    "Smoke From Fires in Washington State and British Columbia",
    "Flooding in Pakistan",
    "Dam Removal on the Klamath River, USA",
    "Phytoplankton Bloom in the Barents Sea",
    "Hurricane forming in Atlantic",
    "Glacial Lakes in Patagonia",
    "Sand Dunes in Sahara Desert"]

  /** `description` of the entry at position `i`. */
  function SampleDescription(i: nat): string
    requires i < SampleCount
  {
    match i
    case 0 => "Image captured by the VIIRS instrument aboard the joint NASA/NOAA NOAA-21 platform, showing Typhoon Ragasa over the Pacific Ocean."
    case 1 => "Image captured by the VIIRS instrument showing smoke plumes from wildfires spreading across the Pacific Northwest."
    case 2 => "Harmonized Landsat Sentinel-2 imagery showing extensive flooding across Pakistan's agricultural regions."
    case 3 => "Harmonized Landsat Sentinel-2 image showing the landscape transformation after dam removal on the Klamath River."
    case 4 => "MODIS Terra captured vibrant phytoplankton blooms swirling in the cold waters of the Barents Sea."
    case 5 => "GOES-16 satellite imagery showing the development of a tropical cyclone in the Atlantic Ocean."
    case 6 => "Stunning turquoise glacial lakes visible in this Landsat image of Patagonia's Torres del Paine region."
    case 7 => "Spectacular patterns of sand dunes in the Sahara Desert captured by Landsat 8."
  }

  /** `location` of the entry at position `i`. */
  function SampleLocation(i: nat): string
    requires i < SampleCount
  {
    match i
    case 0 => "Pacific Ocean"
    case 1 => "Washington State, USA"
    case 2 => "Pakistan"
    case 3 => "California, USA"
    case 4 => "Barents Sea"
    case 5 => "Atlantic Ocean"
    case 6 => "Patagonia, Chile"
    case 7 => "Sahara Desert, Algeria"
  }

  /** `satellite` of the entry at position `i`. */
  function SampleSatellite(i: nat): string
    requires i < SampleCount
  {
    match i
    case 0 => "NOAA-21"
    case 1 => "Suomi NPP"
    case 2 => "Landsat 8"
    case 3 => "Landsat 8"
    case 4 => "Terra"
    case 5 => "GOES-16"
    case 6 => "Landsat 8"
    case 7 => "Landsat 8"
  }

  /** `instrument` of the entry at position `i`. */
  function SampleInstrument(i: nat): string
    requires i < SampleCount
  {
    match i
    case 0 => "VIIRS"
    case 1 => "VIIRS"
    case 2 => "OLI"
    case 3 => "OLI"
    case 4 => "MODIS"
    case 5 => "ABI"
    case 6 => "OLI"
    case 7 => "OLI"
  }

  /** `image_url` of the entry at position `i`. */
  function SampleImageUrl(i: nat): string
    requires i < SampleCount
  {
    match i
    case 0 => "https://worldview.earthdata.nasa.gov/image-download?REQUEST=GetSnapshot&TIME=2025-09-24&LAYERS=VIIRS_SNPP_CorrectedReflectance_TrueColor"
    case 1 => "https://worldview.earthdata.nasa.gov/image-download?REQUEST=GetSnapshot&TIME=2025-09-17&LAYERS=VIIRS_SNPP_CorrectedReflectance_TrueColor"
    case 2 => "https://worldview.earthdata.nasa.gov/image-download?REQUEST=GetSnapshot&TIME=2025-09-11&LAYERS=HLS_S30_Nadir_BRDF_Adjusted_Reflectance"
    case 3 => "https://worldview.earthdata.nasa.gov/image-download?REQUEST=GetSnapshot&TIME=2025-09-04&LAYERS=HLS_L30_Nadir_BRDF_Adjusted_Reflectance"
    case 4 => "https://worldview.earthdata.nasa.gov/image-download?REQUEST=GetSnapshot&TIME=2025-08-28&LAYERS=MODIS_Terra_CorrectedReflectance_TrueColor"
    case 5 => "https://worldview.earthdata.nasa.gov/image-download?REQUEST=GetSnapshot&TIME=2025-08-21&LAYERS=VIIRS_NOAA20_CorrectedReflectance_TrueColor"
    case 6 => "https://worldview.earthdata.nasa.gov/image-download?REQUEST=GetSnapshot&TIME=2025-08-14&LAYERS=HLS_L30_Nadir_BRDF_Adjusted_Reflectance"
    case 7 => "https://worldview.earthdata.nasa.gov/image-download?REQUEST=GetSnapshot&TIME=2025-08-07&LAYERS=HLS_L30_Nadir_BRDF_Adjusted_Reflectance"
  }

  /** `layers_used` of the entry at position `i`. */
  function SampleLayersUsed(i: nat): seq<string>
    requires i < SampleCount
  {
    match i
    case 0 => ["VIIRS_SNPP_CorrectedReflectance_TrueColor"]
    case 1 => ["VIIRS_SNPP_CorrectedReflectance_TrueColor", "VIIRS_SNPP_Fires_375m_Day"]
    case 2 => ["HLS_S30_Nadir_BRDF_Adjusted_Reflectance"]
    case 3 => ["HLS_L30_Nadir_BRDF_Adjusted_Reflectance"]
    case 4 => ["MODIS_Terra_CorrectedReflectance_TrueColor"]
    case 5 => ["VIIRS_NOAA20_CorrectedReflectance_TrueColor"]
    case 6 => ["HLS_L30_Nadir_BRDF_Adjusted_Reflectance"]
    case 7 => ["HLS_L30_Nadir_BRDF_Adjusted_Reflectance"]
  }

  /** The built-in list, in order. */
  function SampleImages(): seq<SampleImage> {
    seq(SampleCount, i requires 0 <= i < SampleCount => SampleAt(i))
  }

  /** No two entries of the list share a title. */
  lemma SampleTitlesDistinct()
    ensures |SampleImages()| == SampleCount
    ensures forall i, j | 0 <= i < j < |SampleImages()| :: SampleImages()[i].title != SampleImages()[j].title
  {
    assert forall i, j | 0 <= i < j < |SampleTitles| :: SampleTitles[i] != SampleTitles[j];
  }

  // ---------------------------------------------------------------------------
  // One entry
  // ---------------------------------------------------------------------------

  /**
   * The `defaults` of entry `idx`: the image URL doubles as the thumbnail,
   * `permalink` keeps its blank default, and only the first three are featured.
   */
  function SampleFields(sample: SampleImage, idx: nat, published: Date, capture: Date): WeekImageFields {
    WeekImageFields(sample.description, sample.imageUrl, sample.imageUrl, published, Some(capture), sample.location,
                    sample.layersUsed, sample.satellite, sample.instrument, "", idx < 3)
  }

  /** How one entry ended: appended, found by its title, or the command raised. */
  datatype SeedOutcome = NewImage | ExistingImage | Raised

  /**
   * One pass of the loop for entry `idx`, with `draw` the value of
   * `random.randint(1, 3)`: the publication date is `base` plus `idx` weeks
   * and the capture date `draw` days before it (either raises
   * `OverflowError` when it leaves the calendar); then `get_or_create` by
   * title, which raises when two entries already carry the title.
   */
  function SeedStep(t: GibsTables, sample: SampleImage, idx: nat, base: Date, draw: nat, now: Instant)
    : (GibsTables, SeedOutcome)
  {
    var published := AddDays(base, 7 * idx);
    var capture := SubDays(published, draw);
    if !InPythonRange(published) || !InPythonRange(capture) then (t, Raised)
    else
      var r := GetOrCreateWeekImage(t, sample.title, SampleFields(sample, idx, published, capture), now);
      if r.None? then (t, Raised)
      else (r.value.0, if r.value.1 then NewImage else ExistingImage)
  }

  /** What one pass writes, and when. */
  lemma SeedStepOutcome(t: GibsTables, sample: SampleImage, idx: nat, base: Date, draw: nat, now: Instant)
    ensures var step := SeedStep(t, sample, idx, base, draw, now);
      var t1, o := step.0, step.1;
      var published := AddDays(base, 7 * idx);
      var capture := SubDays(published, draw);
      && (o == Raised <==> !InPythonRange(published) || !InPythonRange(capture)
                           || CountTitled(t.weekImages, sample.title) >= 2)
      && (o == NewImage <==> o != Raised && CountTitled(t.weekImages, sample.title) == 0)
      && (o != NewImage ==> t1 == t)
      && (o == NewImage ==> && t1.layers == t.layers && t1.configs == t.configs
                            && |t1.weekImages| == |t.weekImages| + 1 && t1.weekImages[..|t.weekImages|] == t.weekImages
                            && var row := t1.weekImages[|t.weekImages|];
                               && row.title == sample.title && row.createdAt == now && row.updatedAt == now
                               && row.fields.imageUrl == sample.imageUrl && row.fields.thumbnailUrl == sample.imageUrl
                               && row.fields.description == sample.description
                               && row.fields.location == sample.location
                               && row.fields.layersUsed == sample.layersUsed
                               && row.fields.satellite == sample.satellite
                               && row.fields.instrument == sample.instrument
                               && row.fields.permalink == ""
                               && (row.fields.featured <==> idx < 3)
                               && DayNumber(row.fields.publishedDate) == DayNumber(base) + 7 * idx
                               && row.fields.captureDate.Some?
                               && DayNumber(row.fields.captureDate.value) == DayNumber(row.fields.publishedDate) - draw)
  {
    AddDaysNumber(base, 7 * idx);
    SubDaysNumber(AddDays(base, 7 * idx), draw);
  }

  // ---------------------------------------------------------------------------
  // The loop
  // ---------------------------------------------------------------------------

  /** The tables, the number of entries created, and whether the command raised. */
  datatype SeedRun = SeedRun(tables: GibsTables, created: nat, raised: bool)

  /** The loop from entry `idx` on, `draws` holding one random draw per entry. */
  function SeedFrom(t: GibsTables, samples: seq<SampleImage>, idx: nat, base: Date, draws: seq<nat>, now: Instant)
    : SeedRun
    requires |draws| == |samples|
    decreases |samples| - idx
  {
    if idx >= |samples| then SeedRun(t, 0, false)
    else
      var step := SeedStep(t, samples[idx], idx, base, draws[idx], now);
      if step.1 == Raised then SeedRun(t, 0, true)
      else
        var rest := SeedFrom(step.0, samples, idx + 1, base, draws, now);
        rest.(created := rest.created + if step.1 == NewImage then 1 else 0)
  }

  /**
   * `Command.handle`: `base_date` is sixty days before now (raising
   * `OverflowError` before any write when that leaves the calendar), then
   * the loop over the built-in list.
   */
  function SeedRunOf(t: GibsTables, draws: seq<nat>, now: Instant): SeedRun
    requires |draws| == SampleCount
  {
    var base := MinusDays(now, 60).date;
    if !InPythonRange(base) then SeedRun(t, 0, true)
    else SeedFrom(t, SampleImages(), 0, base, draws, now)
  }

  /** The loop invariant: finishing the loop from here gives `final`. */
  ghost predicate SeedContinues(t: GibsTables, samples: seq<SampleImage>, idx: nat, base: Date, draws: seq<nat>,
                                now: Instant, created: nat, final: SeedRun)
    requires |draws| == |samples|
  {
    var run := SeedFrom(t, samples, idx, base, draws, now);
    run.tables == final.tables && run.raised == final.raised && created + run.created == final.created
  }

  /** The body of the loop for entry `idx`. */
  method SeedOne(db: GibsDatabase, sample: SampleImage, idx: nat, base: Date, draw: nat, now: Instant)
    returns (outcome: SeedOutcome)
    modifies db
    ensures (db.Tables(), outcome) == SeedStep(old(db.Tables()), sample, idx, base, draw, now)
  {
    var published := AddDays(base, 7 * idx);
    var capture := SubDays(published, draw);
    if !InPythonRange(published) || !InPythonRange(capture) {
      return Raised;
    }
    var r := db.GetOrCreateWeekImageRow(sample.title, SampleFields(sample, idx, published, capture), now);
    outcome := if r.None? then Raised else if r.value then NewImage else ExistingImage;
  }

  /** The loop over the list; it stops at the first entry that raises. */
  method SeedLoop(db: GibsDatabase, samples: seq<SampleImage>, base: Date, draws: seq<nat>, now: Instant)
    returns (createdCount: nat, raised: bool)
    requires |draws| == |samples|
    modifies db
    ensures var run := SeedFrom(old(db.Tables()), samples, 0, base, draws, now);
      db.Tables() == run.tables && raised == run.raised && (!raised ==> createdCount == run.created)
  {
    ghost var final := SeedFrom(db.Tables(), samples, 0, base, draws, now);
    createdCount, raised := 0, false;
    for idx := 0 to |samples|
      invariant SeedContinues(db.Tables(), samples, idx, base, draws, now, createdCount, final)
    {
      var outcome := SeedOne(db, samples[idx], idx, base, draws[idx], now);
      if outcome == Raised {
        return createdCount, true;
      }
      if outcome == NewImage {
        createdCount := createdCount + 1;
      }
    }
  }

  /**
   * `Command.handle`, with `draws` standing for the successive values of
   * `random.randint(1, 3)`: the number of entries created, or `None` when
   * the command raised (the entries written before stay written).
   */
  method Handle(db: GibsDatabase, draws: seq<nat>, now: Instant) returns (createdCount: Option<nat>)
    requires |draws| == SampleCount
    requires forall i | 0 <= i < |draws| :: 1 <= draws[i] <= 3
    modifies db
    ensures var run := SeedRunOf(old(db.Tables()), draws, now);
      db.Tables() == run.tables && createdCount == if run.raised then None else Some(run.created)
  {
    var base := MinusDays(now, 60).date;
    if !InPythonRange(base) {
      return None;
    }
    var n, raised := SeedLoop(db, SampleImages(), base, draws, now);
    createdCount := if raised then None else Some(n);
  }

  // ---------------------------------------------------------------------------
  // Properties of the run
  // ---------------------------------------------------------------------------

  lemma {:induction false} CountTitledAppend(imgs: seq<WorldviewImageOfWeek>, row: WorldviewImageOfWeek, title: string)
    ensures CountTitled(imgs + [row], title) == CountTitled(imgs, title) + if row.title == title then 1 else 0
  {
    if imgs != [] {
      assert (imgs + [row])[0] == imgs[0] && (imgs + [row])[1..] == imgs[1..] + [row];
      CountTitledAppend(imgs[1..], row, title);
    }
  }

  /**
   * Entries already stored are kept as they are, the new ones are appended
   * (one per entry created, so at most one per remaining sample), and the
   * layer and configuration tables are untouched.
   */
  lemma {:induction false} SeedRunGrowsByCreated(t: GibsTables, samples: seq<SampleImage>, idx: nat, base: Date,
                                                 draws: seq<nat>, now: Instant)
    requires |draws| == |samples| && idx <= |samples|
    ensures var run := SeedFrom(t, samples, idx, base, draws, now);
      && run.created <= |samples| - idx
      && |run.tables.weekImages| == |t.weekImages| + run.created
      && run.tables.weekImages[..|t.weekImages|] == t.weekImages
      && run.tables.layers == t.layers && run.tables.configs == t.configs
    decreases |samples| - idx
  {
    if idx < |samples| {
      var step := SeedStep(t, samples[idx], idx, base, draws[idx], now);
      SeedStepShape(t, samples[idx], idx, base, draws[idx], now);
      if step.1 != Raised {
        SeedRunGrowsByCreated(step.0, samples, idx + 1, base, draws, now);
        var rest := SeedFrom(step.0, samples, idx + 1, base, draws, now);
        assert rest.tables.weekImages[..|t.weekImages|] == rest.tables.weekImages[..|step.0.weekImages|][..|t.weekImages|];
      }
    }
  }

  /** One pass leaves the tables alone or appends one entry. */
  lemma SeedStepShape(t: GibsTables, sample: SampleImage, idx: nat, base: Date, draw: nat, now: Instant)
    ensures var step := SeedStep(t, sample, idx, base, draw, now);
      && (step.1 != NewImage ==> step.0 == t)
      && (step.1 == NewImage ==>
            && |step.0.weekImages| == |t.weekImages| + 1
            && step.0 == t.(weekImages := t.weekImages + [step.0.weekImages[|t.weekImages|]]))
  {
  }

  /**
   * An entry written by the run from position `idx`: its thumbnail is its
   * image, it is published at least `idx` weeks after `base`, captured one
   * to three days before that, featured exactly when published within the
   * first three weeks, and stamped with `now`.
   */
  predicate ScheduledRow(row: WorldviewImageOfWeek, base: Date, idx: nat, now: Instant) {
    var published := DayNumber(row.fields.publishedDate);
    && row.fields.thumbnailUrl == row.fields.imageUrl
    && DayNumber(base) + 7 * idx <= published
    && row.fields.captureDate.Some?
    && published - 3 <= DayNumber(row.fields.captureDate.value) <= published - 1
    && (row.fields.featured <==> published < DayNumber(base) + 21)
    && row.createdAt == now && row.updatedAt == now
  }

  /** The entry one pass appends follows the schedule. */
  lemma SeedStepScheduled(t: GibsTables, sample: SampleImage, idx: nat, base: Date, draw: nat, now: Instant)
    requires 1 <= draw <= 3
    ensures var step := SeedStep(t, sample, idx, base, draw, now);
      && (step.1 != NewImage ==> step.0.weekImages == t.weekImages)
      && (step.1 == NewImage ==>
            && |step.0.weekImages| == |t.weekImages| + 1
            && step.0.weekImages[..|t.weekImages|] == t.weekImages
            && ScheduledRow(step.0.weekImages[|t.weekImages|], base, idx, now)
            && DayNumber(step.0.weekImages[|t.weekImages|].fields.publishedDate) == DayNumber(base) + 7 * idx)
  {
    AddDaysNumber(base, 7 * idx);
    SubDaysNumber(AddDays(base, 7 * idx), draw);
  }

  /** Every entry the run appends follows the schedule. */
  lemma {:induction false} SeededRowsFollowSchedule(t: GibsTables, samples: seq<SampleImage>, idx: nat, base: Date,
                                                    draws: seq<nat>, now: Instant)
    requires |draws| == |samples| && idx <= |samples|
    requires forall i | 0 <= i < |draws| :: 1 <= draws[i] <= 3
    ensures var run := SeedFrom(t, samples, idx, base, draws, now);
      && |t.weekImages| <= |run.tables.weekImages|
      && forall j | |t.weekImages| <= j < |run.tables.weekImages| :: ScheduledRow(run.tables.weekImages[j], base, idx, now)
    decreases |samples| - idx
  {
    var run := SeedFrom(t, samples, idx, base, draws, now);
    SeedRunGrowsByCreated(t, samples, idx, base, draws, now);
    if idx < |samples| {
      var step := SeedStep(t, samples[idx], idx, base, draws[idx], now);
      SeedStepScheduled(t, samples[idx], idx, base, draws[idx], now);
      if step.1 != Raised {
        SeededRowsFollowSchedule(step.0, samples, idx + 1, base, draws, now);
        assert run == SeedFrom(step.0, samples, idx + 1, base, draws, now).(created := run.created);
        forall j | |t.weekImages| <= j < |run.tables.weekImages|
          ensures ScheduledRow(run.tables.weekImages[j], base, idx, now)
        {
          if j >= |step.0.weekImages| {
            assert ScheduledRow(run.tables.weekImages[j], base, idx + 1, now);
          } else {
            SeedRunGrowsByCreated(step.0, samples, idx + 1, base, draws, now);
            assert run.tables.weekImages[j] == run.tables.weekImages[..|step.0.weekImages|][j];
          }
        }
      }
    }
  }

  /** Each entry the run appends is published a week or more after the one appended before it. */
  lemma {:induction false} SeededRowsWeekApart(t: GibsTables, samples: seq<SampleImage>, idx: nat, base: Date,
                                               draws: seq<nat>, now: Instant)
    requires |draws| == |samples| && idx <= |samples|
    requires forall i | 0 <= i < |draws| :: 1 <= draws[i] <= 3
    ensures var w := SeedFrom(t, samples, idx, base, draws, now).tables.weekImages;
      && |t.weekImages| <= |w|
      && forall j | |t.weekImages| <= j < |w| - 1 ::
           DayNumber(w[j].fields.publishedDate) + 7 <= DayNumber(w[j + 1].fields.publishedDate)
    decreases |samples| - idx
  {
    SeedRunGrowsByCreated(t, samples, idx, base, draws, now);
    if idx < |samples| {
      var step := SeedStep(t, samples[idx], idx, base, draws[idx], now);
      SeedFromTables(t, samples, idx, base, draws, now);
      if step.1 == NewImage {
        NewImageThenWeekApart(t, samples, idx, base, draws, now);
      } else if step.1 == ExistingImage {
        SeedStepShape(t, samples[idx], idx, base, draws[idx], now);
        SeededRowsWeekApart(step.0, samples, idx + 1, base, draws, now);
      }
    }
  }

  /** The spacing of the entries when the pass at `idx` appends one. */
  lemma NewImageThenWeekApart(t: GibsTables, samples: seq<SampleImage>, idx: nat, base: Date, draws: seq<nat>,
                              now: Instant)
    requires |draws| == |samples| && idx < |samples|
    requires forall i | 0 <= i < |draws| :: 1 <= draws[i] <= 3
    requires SeedStep(t, samples[idx], idx, base, draws[idx], now).1 == NewImage
    decreases |samples| - idx, 0
    ensures var w := SeedFrom(SeedStep(t, samples[idx], idx, base, draws[idx], now).0, samples, idx + 1, base, draws,
                              now).tables.weekImages;
      && |t.weekImages| < |w|
      && forall j | |t.weekImages| <= j < |w| - 1 ::
           DayNumber(w[j].fields.publishedDate) + 7 <= DayNumber(w[j + 1].fields.publishedDate)
  {
    var t1 := SeedStep(t, samples[idx], idx, base, draws[idx], now).0;
    SeedStepPublished(t, samples[idx], idx, base, draws[idx], now);
    SeededRowsWeekApart(t1, samples, idx + 1, base, draws, now);
    LaterRowsLater(t1, samples, idx + 1, base, draws, now, |t.weekImages|);
    WeekApartFrom(SeedFrom(t1, samples, idx + 1, base, draws, now).tables.weekImages, |t.weekImages|);
  }

  /** Where the entry one pass appends goes, and its publication day. */
  lemma SeedStepPublished(t: GibsTables, sample: SampleImage, idx: nat, base: Date, draw: nat, now: Instant)
    requires SeedStep(t, sample, idx, base, draw, now).1 == NewImage
    ensures var w := SeedStep(t, sample, idx, base, draw, now).0.weekImages;
      |w| == |t.weekImages| + 1 && DayNumber(w[|t.weekImages|].fields.publishedDate) == DayNumber(base) + 7 * idx
  {
    AddDaysNumber(base, 7 * idx);
  }

  /** The tables after the run from `idx` are those after one pass and the run from `idx + 1`. */
  lemma SeedFromTables(t: GibsTables, samples: seq<SampleImage>, idx: nat, base: Date, draws: seq<nat>, now: Instant)
    requires |draws| == |samples| && idx < |samples|
    ensures var step := SeedStep(t, samples[idx], idx, base, draws[idx], now);
      SeedFrom(t, samples, idx, base, draws, now).tables
        == if step.1 == Raised then t else SeedFrom(step.0, samples, idx + 1, base, draws, now).tables
  {
  }

  /** The run from `idx` is one pass followed by the run from `idx + 1`. */
  lemma SeedFromStep(t: GibsTables, samples: seq<SampleImage>, idx: nat, base: Date, draws: seq<nat>, now: Instant)
    requires |draws| == |samples| && idx < |samples|
    ensures var step := SeedStep(t, samples[idx], idx, base, draws[idx], now);
      var run := SeedFrom(t, samples, idx, base, draws, now);
      && (step.1 == Raised ==> run == SeedRun(t, 0, true))
      && (step.1 != Raised ==>
            var rest := SeedFrom(step.0, samples, idx + 1, base, draws, now);
            run == rest.(created := rest.created + if step.1 == NewImage then 1 else 0))
  {
  }

  /** Consecutive entries from `n + 1` on are a week apart, and so is entry `n` from all later ones. */
  lemma WeekApartFrom(w: seq<WorldviewImageOfWeek>, n: nat)
    requires n < |w|
    requires forall j | n + 1 <= j < |w| - 1 ::
               DayNumber(w[j].fields.publishedDate) + 7 <= DayNumber(w[j + 1].fields.publishedDate)
    requires forall k | n + 1 <= k < |w| ::
               DayNumber(w[n].fields.publishedDate) + 7 <= DayNumber(w[k].fields.publishedDate)
    ensures forall j | n <= j < |w| - 1 ::
              DayNumber(w[j].fields.publishedDate) + 7 <= DayNumber(w[j + 1].fields.publishedDate)
  {
  }

  /**
   * When the last entry stored so far was published `idx - 1` weeks after
   * `base`, every entry the run from `idx` appends comes a week or more later.
   */
  lemma LaterRowsLater(t: GibsTables, samples: seq<SampleImage>, idx: nat, base: Date, draws: seq<nat>,
                       now: Instant, n: nat)
    requires |draws| == |samples| && 0 < idx <= |samples|
    requires forall i | 0 <= i < |draws| :: 1 <= draws[i] <= 3
    requires n < |t.weekImages| && DayNumber(t.weekImages[n].fields.publishedDate) == DayNumber(base) + 7 * (idx - 1)
    ensures var w := SeedFrom(t, samples, idx, base, draws, now).tables.weekImages;
      && n < |w| && w[n] == t.weekImages[n]
      && forall k | |t.weekImages| <= k < |w| ::
           DayNumber(w[n].fields.publishedDate) + 7 <= DayNumber(w[k].fields.publishedDate)
  {
    var w := SeedFrom(t, samples, idx, base, draws, now).tables.weekImages;
    SeedRunGrowsByCreated(t, samples, idx, base, draws, now);
    SeededRowsFollowSchedule(t, samples, idx, base, draws, now);
    assert w[n] == w[..|t.weekImages|][n];
    forall k | |t.weekImages| <= k < |w|
      ensures DayNumber(w[n].fields.publishedDate) + 7 <= DayNumber(w[k].fields.publishedDate)
    {
      assert ScheduledRow(w[k], base, idx, now);
    }
  }

  /** A title no remaining sample carries keeps its count. */
  lemma {:induction false} SeedKeepsOtherTitle(t: GibsTables, samples: seq<SampleImage>, idx: nat, base: Date,
                                               draws: seq<nat>, now: Instant, title: string)
    requires |draws| == |samples| && idx <= |samples|
    requires forall i | idx <= i < |samples| :: samples[i].title != title
    ensures CountTitled(SeedFrom(t, samples, idx, base, draws, now).tables.weekImages, title)
         == CountTitled(t.weekImages, title)
    decreases |samples| - idx
  {
    if idx < |samples| {
      var step := SeedStep(t, samples[idx], idx, base, draws[idx], now);
      SeedFromStep(t, samples, idx, base, draws, now);
      SeedStepShape(t, samples[idx], idx, base, draws[idx], now);
      if step.1 != Raised {
        SeedKeepsOtherTitle(step.0, samples, idx + 1, base, draws, now, title);
        if step.1 == NewImage {
          CountTitledAppend(t.weekImages, step.0.weekImages[|t.weekImages|], title);
        }
      }
    }
  }

  /**
   * When no stored entry carries any of the remaining (distinct) titles and
   * the run does not raise, it creates every remaining sample, after which
   * each of those titles is stored exactly once.
   */
  lemma {:induction false} SeedCreatesAbsentTitles(t: GibsTables, samples: seq<SampleImage>, idx: nat, base: Date,
                                                   draws: seq<nat>, now: Instant)
    requires |draws| == |samples| && idx <= |samples|
    requires forall i, j | idx <= i < j < |samples| :: samples[i].title != samples[j].title
    requires forall i | idx <= i < |samples| :: CountTitled(t.weekImages, samples[i].title) == 0
    ensures var run := SeedFrom(t, samples, idx, base, draws, now);
      !run.raised ==>
        && run.created == |samples| - idx
        && forall i | idx <= i < |samples| :: CountTitled(run.tables.weekImages, samples[i].title) == 1
    decreases |samples| - idx
  {
    if idx < |samples| {
      var step := SeedStep(t, samples[idx], idx, base, draws[idx], now);
      SeedFromStep(t, samples, idx, base, draws, now);
      SeedStepShape(t, samples[idx], idx, base, draws[idx], now);
      if step.1 == NewImage {
        var row := step.0.weekImages[|t.weekImages|];
        forall i | idx + 1 <= i < |samples| ensures CountTitled(step.0.weekImages, samples[i].title) == 0 {
          CountTitledAppend(t.weekImages, row, samples[i].title);
        }
        SeedCreatesAbsentTitles(step.0, samples, idx + 1, base, draws, now);
        CountTitledAppend(t.weekImages, row, samples[idx].title);
        SeedKeepsOtherTitle(step.0, samples, idx + 1, base, draws, now, samples[idx].title);
      }
    }
  }

  /**
   * When every remaining title is stored exactly once, the run creates
   * nothing and leaves the tables as they are.
   */
  lemma {:induction false} SeedFindsStoredTitles(t: GibsTables, samples: seq<SampleImage>, idx: nat, base: Date,
                                                 draws: seq<nat>, now: Instant)
    requires |draws| == |samples| && idx <= |samples|
    requires forall i | idx <= i < |samples| :: CountTitled(t.weekImages, samples[i].title) == 1
    ensures var run := SeedFrom(t, samples, idx, base, draws, now);
      run.created == 0 && run.tables == t
    decreases |samples| - idx
  {
    if idx < |samples| {
      SeedFromStep(t, samples, idx, base, draws, now);
      SeedStepShape(t, samples[idx], idx, base, draws[idx], now);
      SeedFindsStoredTitles(t, samples, idx + 1, base, draws, now);
    }
  }

  /**
   * A run over distinct titles, none of them stored, that does not raise
   * creates every sample; a second run (from any base date, with any draws)
   * then finds them all and writes nothing.
   */
  lemma RunTwiceCreatesNothing(t: GibsTables, samples: seq<SampleImage>, base: Date, draws: seq<nat>, now: Instant,
                               base2: Date, draws2: seq<nat>, later: Instant)
    requires |draws| == |samples| && |draws2| == |samples|
    requires forall i, j | 0 <= i < j < |samples| :: samples[i].title != samples[j].title
    requires forall i | 0 <= i < |samples| :: CountTitled(t.weekImages, samples[i].title) == 0
    requires !SeedFrom(t, samples, 0, base, draws, now).raised
    ensures var first := SeedFrom(t, samples, 0, base, draws, now);
      var second := SeedFrom(first.tables, samples, 0, base2, draws2, later);
      && first.created == |samples|
      && second.created == 0 && second.tables == first.tables
  {
    SeedCreatesAbsentTitles(t, samples, 0, base, draws, now);
    var first := SeedFrom(t, samples, 0, base, draws, now);
    SeedFindsStoredTitles(first.tables, samples, 0, base2, draws2, later);
  }

  /**
   * Seeding a database that holds none of the sample titles creates all
   * eight entries when it does not raise, and seeding it again (at any
   * time, with any draws) finds them all and writes nothing.
   */
  lemma SeedTwiceCreatesNothing(t: GibsTables, draws: seq<nat>, now: Instant, draws2: seq<nat>, later: Instant)
    requires |draws| == SampleCount && |draws2| == SampleCount
    requires forall i | 0 <= i < SampleCount :: CountTitled(t.weekImages, SampleImages()[i].title) == 0
    requires !SeedRunOf(t, draws, now).raised
    ensures var first := SeedRunOf(t, draws, now);
      var second := SeedRunOf(first.tables, draws2, later);
      && first.created == SampleCount
      && second.created == 0 && second.tables == first.tables
  {
    SampleTitlesDistinct();
    var samples := SampleImages();
    var base, base2 := MinusDays(now, 60).date, MinusDays(later, 60).date;
    assert SeedRunOf(t, draws, now) == SeedFrom(t, samples, 0, base, draws, now);
    assert forall i | 0 <= i < |samples| :: CountTitled(t.weekImages, samples[i].title) == 0;
    var first := SeedRunOf(t, draws, now);
    assert InPythonRange(base2) ==> SeedRunOf(first.tables, draws2, later) == SeedFrom(first.tables, samples, 0, base2, draws2, later);
    RunTwiceCreatesNothing(t, SampleImages(), base, draws, now, base2, draws2, later);
  }
}
