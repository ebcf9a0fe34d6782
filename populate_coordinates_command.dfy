/**
 * The `populate_coordinates` management command: `get_or_create` keyed on
 * the name alone, for two built-in entries. Their positions are written in
 * degrees, minutes and seconds, which the float columns cannot take.
 */
module PopulateCoordinatesCommand {
  import opened Common
  import opened Dates
  import opened ApodModels

  /** A position as the entry supplies it: text the column must convert, or a number. */
  datatype PositionValue = Text(s: string) | Number(v: real)

  datatype NamedSeed = NamedSeed(
    name: string,
    kind: string,
    latitude: PositionValue,
    longitude: PositionValue,
    body: string,
    description: string)

  /** The entries as written: degree-minute-second text. */
  const DmsSeeds: seq<NamedSeed> := [
    NamedSeed("Polaris", "star", Text("89°15′50.8″"), Text("37°57′07″"), "Star", "The North Star"),
    NamedSeed("Pleiades", "cluster", Text("24°07′"), Text("56°19′"), "Star Cluster", "The Seven Sisters star cluster")
  ]

  /** The same entries with their positions in decimal degrees. */
  const DecimalSeeds: seq<NamedSeed> := [
    NamedSeed("Polaris", "star", Number(89.0 + 15.0 / 60.0 + 50.8 / 3600.0), Number(37.0 + 57.0 / 60.0 + 7.0 / 3600.0),
              "Star", "The North Star"),
    NamedSeed("Pleiades", "cluster", Number(24.0 + 7.0 / 60.0), Number(56.0 + 19.0 / 60.0),
              "Star Cluster", "The Seven Sisters star cluster")
  ]

  /** The column's conversion of a position: a number is kept, a text must read as a decimal. */
  function FloatOf(v: PositionValue): Option<real> {
    match v
    case Number(x) => Some(x)
    case Text(s) => ParseDecimal(s)
  }

  // ---------------------------------------------------------------------------
  // handle
  // ---------------------------------------------------------------------------

  /** `Added coordinate: <name>`, written after every entry. */
  function AddedLine(name: string): string {
    "Added coordinate: " + name
  }

  /**
   * `get_or_create(name=…, defaults=…)`: two rows with the name raise
   * MultipleObjectsReturned, one row is returned untouched, and a missing
   * row is created only when both positions convert (otherwise the column
   * raises). `None` stands for the exception.
   */
  function GetOrCreateByName(t: ApodTables, s: NamedSeed, now: Instant): (r: Option<ApodTables>)
    ensures |KeysNamed(t, s.name)| >= 2 ==> r.None?
    ensures |KeysNamed(t, s.name)| == 1 ==> r == Some(t)
    ensures r.Some? ==> r.value.images == t.images && r.value.logs == t.logs
  {
    var named := KeysNamed(t, s.name);
    if |named| >= 2 then None
    else if |named| == 1 then Some(t)
    else
      match (FloatOf(s.latitude), FloatOf(s.longitude))
      case (Some(lat), Some(lon)) =>
        Some(GetOrCreateCoordinate(t, s.name, s.body, CoordinateFields(s.kind, lat, lon, Some(s.description)), now).0)
      case _ => None
  }

  /** The tables after the run, the lines written, and whether an exception ended it. */
  function PopulateByNameEffect(t: ApodTables, seeds: seq<NamedSeed>, now: Instant): (ApodTables, seq<string>, bool)
    decreases |seeds|
  {
    if seeds == [] then (t, [], false)
    else
      match GetOrCreateByName(t, seeds[0], now)
      case None => (t, [], true)
      case Some(t') =>
        var rest := PopulateByNameEffect(t', seeds[1..], now);
        (rest.0, [AddedLine(seeds[0].name)] + rest.1, rest.2)
  }

  method GetOrCreateByNameRow(db: ApodDatabase, s: NamedSeed, now: Instant) returns (raised: bool)
    modifies db
    ensures raised <==> GetOrCreateByName(old(db.Tables()), s, now).None?
    ensures !raised ==> db.Tables() == GetOrCreateByName(old(db.Tables()), s, now).value
    ensures raised ==> db.Tables() == old(db.Tables())
  {
    var named := KeysNamed(db.Tables(), s.name);
    if |named| >= 2 {
      return true;
    }
    if |named| == 1 {
      return false;
    }
    var lat, lon := FloatOf(s.latitude), FloatOf(s.longitude);
    if lat.None? || lon.None? {
      return true;
    }
    var _, _ := db.GetOrCreateCoordinateRow(s.name, s.body, CoordinateFields(s.kind, lat.value, lon.value, Some(s.description)), now);
    raised := false;
  }

  ghost predicate ByNameContinues(t: ApodTables, rest: seq<NamedSeed>, lines: seq<string>,
                                  final: (ApodTables, seq<string>, bool), now: Instant) {
    var run := PopulateByNameEffect(t, rest, now);
    run.0 == final.0 && lines + run.1 == final.1 && run.2 == final.2
  }

  /** `get_or_create` by name on each entry in turn, writing a line after each. */
  method PopulateByName(db: ApodDatabase, seeds: seq<NamedSeed>, now: Instant) returns (lines: seq<string>, raised: bool)
    modifies db
    ensures (db.Tables(), lines, raised) == PopulateByNameEffect(old(db.Tables()), seeds, now)
  {
    ghost var final := PopulateByNameEffect(db.Tables(), seeds, now);
    lines := [];
    assert seeds[0..] == seeds;
    for i := 0 to |seeds|
      invariant ByNameContinues(db.Tables(), seeds[i..], lines, final, now)
    {
      assert seeds[i..][0] == seeds[i] && seeds[i..][1..] == seeds[i + 1..];
      var failed := GetOrCreateByNameRow(db, seeds[i], now);
      if failed {
        assert PopulateByNameEffect(db.Tables(), seeds[i..], now) == (db.Tables(), [], true);
        assert lines + [] == lines;
        return lines, true;
      }
      lines := lines + [AddedLine(seeds[i].name)];
    }
    assert seeds[|seeds|..] == [];
    assert lines + [] == lines;
    raised := false;
  }

  /** `Command.handle` as written. */
  method Handle(db: ApodDatabase, now: Instant) returns (lines: seq<string>, raised: bool)
    modifies db
    ensures (db.Tables(), lines, raised) == PopulateByNameEffect(old(db.Tables()), DmsSeeds, now)
  {
    lines, raised := PopulateByName(db, DmsSeeds, now);
  }

  /** The command with its positions in decimal degrees, as the float columns expect. */
  method HandleWithDecimalPositions(db: ApodDatabase, now: Instant) returns (lines: seq<string>, raised: bool)
    modifies db
    ensures (db.Tables(), lines, raised) == PopulateByNameEffect(old(db.Tables()), DecimalSeeds, now)
  {
    lines, raised := PopulateByName(db, DecimalSeeds, now);
  }

  // ---------------------------------------------------------------------------
  // Properties
  // ---------------------------------------------------------------------------

  /** A run never changes or removes an existing coordinate, nor touches pictures or logs. */
  lemma {:induction false} PopulateByNameKeepsExisting(t: ApodTables, seeds: seq<NamedSeed>, now: Instant)
    ensures var r := PopulateByNameEffect(t, seeds, now);
      && (forall k | k in t.coordinates :: k in r.0.coordinates && r.0.coordinates[k] == t.coordinates[k])
      && r.0.images == t.images && r.0.logs == t.logs
    decreases |seeds|
  {
    if seeds != [] {
      var g := GetOrCreateByName(t, seeds[0], now);
      if g.Some? {
        PopulateByNameKeepsExisting(g.value, seeds[1..], now);
      }
    }
  }

  /** A run that ends normally wrote one "Added" line per entry, in list order, whether or not it created a row. */
  lemma {:induction false} PopulateByNameWritesEveryLine(t: ApodTables, seeds: seq<NamedSeed>, now: Instant)
    ensures var r := PopulateByNameEffect(t, seeds, now);
      !r.2 ==> |r.1| == |seeds| && forall i | 0 <= i < |seeds| :: r.1[i] == AddedLine(seeds[i].name)
    decreases |seeds|
  {
    if seeds != [] {
      var g := GetOrCreateByName(t, seeds[0], now);
      if g.Some? {
        PopulateByNameWritesEveryLine(g.value, seeds[1..], now);
        var rest := PopulateByNameEffect(g.value, seeds[1..], now);
        forall i | 1 <= i < |seeds| && !rest.2
          ensures ([AddedLine(seeds[0].name)] + rest.1)[i] == AddedLine(seeds[i].name)
        {
          assert seeds[1..][i - 1] == seeds[i];
        }
      }
    }
  }

  /** Entries whose latitude never converts can only find rows, never create them. */
  lemma {:induction false} UnconvertibleSeedsNeverCreate(t: ApodTables, seeds: seq<NamedSeed>, now: Instant)
    requires forall s | s in seeds :: FloatOf(s.latitude).None?
    ensures PopulateByNameEffect(t, seeds, now).0 == t
    decreases |seeds|
  {
    if seeds != [] {
      assert seeds[0] in seeds;
      assert forall s | s in seeds[1..] :: s in seeds;
      var g := GetOrCreateByName(t, seeds[0], now);
      if g.Some? {
        assert g.value == t;
        UnconvertibleSeedsNeverCreate(t, seeds[1..], now);
      }
    }
  }

  /**
   * Finding, as written: the degree-minute-second entries never convert, so
   * whatever the table holds the command creates no row — it either ends
   * with every entry already present or raises on the first missing one.
   */
  lemma DmsSeedsNeverCreate(t: ApodTables, now: Instant)
    ensures PopulateByNameEffect(t, DmsSeeds, now).0 == t
  {
    DmsLatitudesRefused();
    UnconvertibleSeedsNeverCreate(t, DmsSeeds, now);
  }

  /** Neither latitude of the entries as written reads as a decimal. */
  lemma DmsLatitudesRefused()
    ensures forall s | s in DmsSeeds :: FloatOf(s.latitude).None?
  {
    ForeignCharacterRefused("89°15′50.8″", 2);
    ForeignCharacterRefused("24°07′", 2);
    forall s | s in DmsSeeds ensures FloatOf(s.latitude).None? {
      assert s == DmsSeeds[0] || s == DmsSeeds[1];
    }
  }

  /** On a table without Polaris, the command as written raises before writing any line. */
  lemma DmsSeedsRaiseOnEmptyTable(now: Instant)
    ensures PopulateByNameEffect(EmptyTables, DmsSeeds, now) == (EmptyTables, [], true)
  {
    DmsLatitudesRefused();
    assert DmsSeeds[0] in DmsSeeds && DmsSeeds[0].name == "Polaris";
    assert KeysNamed(EmptyTables, "Polaris") == {};
    assert GetOrCreateByName(EmptyTables, DmsSeeds[0], now).None?;
  }

  lemma KeysNamedAfterCreate(t: ApodTables, name: string, body: string, defaults: CoordinateFields, now: Instant, other: string)
    requires other != name
    ensures KeysNamed(GetOrCreateCoordinate(t, name, body, defaults, now).0, other) == KeysNamed(t, other)
  {
  }

  /**
   * Corrected: with positions in decimal degrees, entries with distinct
   * names, and no name already on two bodies, the run ends normally and
   * every entry's name then has a row.
   */
  lemma {:induction false} ConvertibleSeedsAllPresent(t: ApodTables, seeds: seq<NamedSeed>, now: Instant)
    requires forall s | s in seeds :: FloatOf(s.latitude).Some? && FloatOf(s.longitude).Some?
    requires forall i, j | 0 <= i < j < |seeds| :: seeds[i].name != seeds[j].name
    requires forall s | s in seeds :: |KeysNamed(t, s.name)| <= 1
    ensures var r := PopulateByNameEffect(t, seeds, now);
      !r.2 && forall s | s in seeds :: KeysNamed(r.0, s.name) != {}
    decreases |seeds|
  {
    if seeds != [] {
      var s := seeds[0];
      var g := GetOrCreateByName(t, s, now);
      assert s in seeds;
      var t' := g.value;
      assert KeysNamed(t', s.name) != {} by {
        if KeysNamed(t, s.name) == {} {
          assert (s.name, s.body) in KeysNamed(t', s.name);
        }
      }
      forall s2 | s2 in seeds[1..]
        ensures KeysNamed(t', s2.name) == KeysNamed(t, s2.name) && s2 in seeds
      {
        var j :| 0 <= j < |seeds[1..]| && seeds[1..][j] == s2;
        assert seeds[j + 1] == s2;
        if |KeysNamed(t, s.name)| == 0 {
          KeysNamedAfterCreate(t, s.name, s.body, CoordinateFields(s.kind, FloatOf(s.latitude).value,
            FloatOf(s.longitude).value, Some(s.description)), now, s2.name);
        }
      }
      forall i, j | 0 <= i < j < |seeds[1..]| ensures seeds[1..][i].name != seeds[1..][j].name {
        assert seeds[1..][i] == seeds[i + 1] && seeds[1..][j] == seeds[j + 1];
      }
      ConvertibleSeedsAllPresent(t', seeds[1..], now);
      PopulateByNameKeepsExisting(t', seeds[1..], now);
      var r := PopulateByNameEffect(t', seeds[1..], now);
      forall s2 | s2 in seeds ensures KeysNamed(r.0, s2.name) != {} {
        if s2 == s {
          var k :| k in KeysNamed(t', s.name);
          assert k in KeysNamed(r.0, s.name);
        } else {
          assert s2 in seeds[1..];
        }
      }
    }
  }

  /** With decimal positions, a run on a table without either name adds both entries. */
  lemma DecimalSeedsCreateOnEmptyTable(now: Instant)
    ensures var r := PopulateByNameEffect(EmptyTables, DecimalSeeds, now);
      !r.2 && KeysNamed(r.0, "Polaris") != {} && KeysNamed(r.0, "Pleiades") != {}
  {
    assert KeysNamed(EmptyTables, "Polaris") == {} && KeysNamed(EmptyTables, "Pleiades") == {};
    ConvertibleSeedsAllPresent(EmptyTables, DecimalSeeds, now);
    assert DecimalSeeds[0] in DecimalSeeds && DecimalSeeds[1] in DecimalSeeds;
  }
}
