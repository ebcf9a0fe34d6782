/**
 * The GIBS helpers: tile and WMTS request addresses, the day-by-day date
 * list of a layer, and the layer list read from the WMTS capabilities
 * document. The document arrives already parsed, as its layer elements.
 */
module GibsServices {
  import opened Common
  import opened Dates

  // ---------------------------------------------------------------------------
  // get_tile_url
  // ---------------------------------------------------------------------------

  const TileUrlPrefix := "https://gibs.earthdata.nasa.gov/wmts/epsg4326/best/"

  /** The projection and image format a tile address uses when the caller names none. */
  const DefaultProjection := "EPSG:4326"
  const DefaultTileFormat := "jpg"

  /** The tile matrix set: 250m tiles for the geographic projection, 31.25m for any other. */
  function TileMatrixSetFor(projection: string): (r: string)
    ensures r == "250m" <==> projection == "EPSG:4326"
    ensures r != "250m" ==> r == "31.25m"
  {
    if projection == "EPSG:4326" then "250m" else "31.25m"
  }

  /** `get_tile_url`: the tile address, with the zoom, then the row (y), then the column (x). */
  function GetTileUrl(layerId: string, date: string, z: int, x: int, y: int,
                      projection: string := DefaultProjection, formatType: string := DefaultTileFormat)
    : string
  {
    TileUrlPrefix + (layerId + "/default/" + date + "/" + TileMatrixSetFor(projection) + "/"
      + IntToString(z) + "/" + IntToString(y) + "/" + IntToString(x) + "." + formatType)
  }

  /** The path segments after the fixed prefix. */
  function TilePath(layerId: string, date: string, z: int, x: int, y: int, projection: string, formatType: string)
    : seq<string>
  {
    [layerId, "default", date, TileMatrixSetFor(projection), IntToString(z), IntToString(y),
     IntToString(x) + "." + formatType]
  }

  lemma IntToStringHasNoSeparator(i: int, sep: char)
    requires sep != '-' && !IsDigit(sep)
    ensures sep !in IntToString(i)
  {
    if i < 0 {
      assert IntToString(i) == "-" + NatToString(-i);
    }
  }

  lemma JoinCons(head: string, rest: seq<string>, sep: char)
    requires rest != []
    ensures Join([head] + rest, sep) == head + [sep] + Join(rest, sep)
  {
    assert ([head] + rest)[1..] == rest;
  }

  /** Joining seven segments puts one separator between each pair. */
  lemma JoinSeven(p: seq<string>, sep: char)
    requires |p| == 7
    ensures Join(p, sep) == p[0] + [sep] + p[1] + [sep] + p[2] + [sep] + p[3] + [sep] + p[4] + [sep] + p[5] + [sep] + p[6]
  {
    assert Join(p[6..], sep) == p[6];
    JoinCons(p[5], p[6..], sep);
    assert p[5..] == [p[5]] + p[6..];
    JoinCons(p[4], p[5..], sep);
    assert p[4..] == [p[4]] + p[5..];
    JoinCons(p[3], p[4..], sep);
    assert p[3..] == [p[3]] + p[4..];
    JoinCons(p[2], p[3..], sep);
    assert p[2..] == [p[2]] + p[3..];
    JoinCons(p[1], p[2..], sep);
    assert p[1..] == [p[1]] + p[2..];
    JoinCons(p[0], p[1..], sep);
    assert p == [p[0]] + p[1..];
  }

  /** Seven segments run together with a separator between each pair. */
  lemma SevenSegments(a: string, b: string, c: string, d: string, e: string, f: string, g: string, sep: string)
    requires |sep| == 1
    ensures Join([a, b, c, d, e, f, g], sep[0]) == a + sep + b + sep + c + sep + d + sep + e + sep + f + sep + g
  {
    assert sep == [sep[0]];
    JoinSeven([a, b, c, d, e, f, g], sep[0]);
  }

  lemma TileUrlIsJoin(layerId: string, date: string, z: int, x: int, y: int, projection: string, formatType: string)
    ensures GetTileUrl(layerId, date, z, x, y, projection, formatType)
      == TileUrlPrefix + Join(TilePath(layerId, date, z, x, y, projection, formatType), '/')
  {
    var tms, zs, ys, xs := TileMatrixSetFor(projection), IntToString(z), IntToString(y), IntToString(x);
    var last := xs + "." + formatType;
    SevenSegments(layerId, "default", date, tms, zs, ys, last, "/");
    var head := layerId + "/default/" + date + "/" + tms + "/" + zs + "/" + ys + "/";
    var head2 := layerId + "/" + "default" + "/" + date + "/" + tms + "/" + zs + "/" + ys + "/";
    assert head == head2 by {
      assert layerId + "/default/" == layerId + "/" + "default" + "/";
    }
    assert head + xs + "." + formatType == head2 + last;
  }

  /**
   * When the layer, date and format hold no '/', the address is the prefix
   * followed by exactly seven path segments — layer, "default", date, tile
   * matrix set, z, y, and "x.format" — and the numbers read back.
   */
  lemma TileUrlSegments(layerId: string, date: string, z: int, x: int, y: int, projection: string, formatType: string)
    requires '/' !in layerId && '/' !in date && '/' !in formatType
    ensures var url := GetTileUrl(layerId, date, z, x, y, projection, formatType);
      && url[..|TileUrlPrefix|] == TileUrlPrefix
      && Split(url[|TileUrlPrefix|..], '/') == TilePath(layerId, date, z, x, y, projection, formatType)
      && ParseInt(TilePath(layerId, date, z, x, y, projection, formatType)[4]) == Some(z)
      && ParseInt(TilePath(layerId, date, z, x, y, projection, formatType)[5]) == Some(y)
  {
    TileUrlSplits(layerId, date, z, x, y, projection, formatType);
    TilePathNumbers(layerId, date, z, x, y, projection, formatType);
  }

  lemma TileUrlSplits(layerId: string, date: string, z: int, x: int, y: int, projection: string, formatType: string)
    requires '/' !in layerId && '/' !in date && '/' !in formatType
    ensures var url := GetTileUrl(layerId, date, z, x, y, projection, formatType);
      && url[..|TileUrlPrefix|] == TileUrlPrefix
      && Split(url[|TileUrlPrefix|..], '/') == TilePath(layerId, date, z, x, y, projection, formatType)
  {
    var p := TilePath(layerId, date, z, x, y, projection, formatType);
    IntToStringHasNoSeparator(z, '/');
    IntToStringHasNoSeparator(y, '/');
    IntToStringHasNoSeparator(x, '/');
    assert '/' !in p[6] by {
      assert p[6] == IntToString(x) + "." + formatType;
    }
    TileUrlIsJoin(layerId, date, z, x, y, projection, formatType);
    var url := GetTileUrl(layerId, date, z, x, y, projection, formatType);
    assert url[|TileUrlPrefix|..] == Join(p, '/');
    SplitJoinRoundTrip(p, '/');
  }

  lemma TilePathNumbers(layerId: string, date: string, z: int, x: int, y: int, projection: string, formatType: string)
    ensures ParseInt(TilePath(layerId, date, z, x, y, projection, formatType)[4]) == Some(z)
    ensures ParseInt(TilePath(layerId, date, z, x, y, projection, formatType)[5]) == Some(y)
  {
    ParseIntRoundTrip(z);
    ParseIntRoundTrip(y);
  }

  /**
   * Naming only the layer, date and tile asks for a 250m JPEG tile of the
   * geographic projection.
   */
  lemma TileUrlDefaults(layerId: string, date: string, z: int, x: int, y: int)
    requires '/' !in layerId && '/' !in date
    ensures var url := GetTileUrl(layerId, date, z, x, y);
      && url[..|TileUrlPrefix|] == TileUrlPrefix
      && var segments := Split(url[|TileUrlPrefix|..], '/');
      && |segments| == 7 && segments[3] == "250m" && segments[6] == IntToString(x) + ".jpg"
  {
    TileUrlSegments(layerId, date, z, x, y, DefaultProjection, DefaultTileFormat);
    DefaultTilePath(layerId, date, z, x, y);
  }

  lemma DefaultTilePath(layerId: string, date: string, z: int, x: int, y: int)
    ensures var p := TilePath(layerId, date, z, x, y, DefaultProjection, DefaultTileFormat);
      |p| == 7 && p[3] == "250m" && p[6] == IntToString(x) + ".jpg"
  {
    var xs := IntToString(x);
    assert xs + "." + "jpg" == xs + ".jpg";
  }

  // ---------------------------------------------------------------------------
  // build_wmts_url
  // ---------------------------------------------------------------------------

  const WmtsBaseUrl := "https://gibs.earthdata.nasa.gov/wmts/epsg4326/best/wmts.cgi"

  /** The tile matrix set and format of a request that names none. */
  const DefaultTileMatrix := "EPSG4326_250m"
  const DefaultWmtsFormat := "image/jpeg"

  const WmtsKeys: seq<string> := ["SERVICE", "REQUEST", "VERSION", "LAYER", "STYLE", "TILEMATRIXSET",
                                  "TILEMATRIX", "TILEROW", "TILECOL", "FORMAT", "TIME"]

  /** The request parameters in the order the dictionary lists them. */
  function WmtsValues(layerId: string, date: string, tileMatrix: string, tileRow: int, tileCol: int,
                      tileMatrixLevel: int, formatType: string): seq<string>
  {
    ["WMTS", "GetTile", "1.0.0", layerId, "default", tileMatrix, IntToString(tileMatrixLevel),
     IntToString(tileRow), IntToString(tileCol), formatType, date]
  }

  /** `key=value` for each parameter, nothing escaped. */
  function QueryPairs(keys: seq<string>, values: seq<string>): (r: seq<string>)
    requires |keys| == |values|
    ensures |r| == |keys|
    ensures forall i | 0 <= i < |r| :: r[i] == keys[i] + "=" + values[i]
  {
    seq(|keys|, i requires 0 <= i < |keys| => keys[i] + "=" + values[i])
  }

  /** `build_wmts_url`: the endpoint, '?', then the eleven pairs joined by '&'. */
  function BuildWmtsUrl(layerId: string, date: string, tileMatrix: string := DefaultTileMatrix,
                        tileRow: int := 0, tileCol: int := 0, tileMatrixLevel: int := 0,
                        formatType: string := DefaultWmtsFormat): string
  {
    WmtsBaseUrl + "?"
      + Join(QueryPairs(WmtsKeys, WmtsValues(layerId, date, tileMatrix, tileRow, tileCol, tileMatrixLevel, formatType)), '&')
  }

  /**
   * When the layer, tile matrix set, format and date hold no '&', splitting
   * the query on '&' gives back the eleven pairs, SERVICE first and TIME
   * last, each carrying its value.
   */
  lemma WmtsQueryPairs(layerId: string, date: string, tileMatrix: string, tileRow: int, tileCol: int,
                       tileMatrixLevel: int, formatType: string)
    requires '&' !in layerId && '&' !in date && '&' !in tileMatrix && '&' !in formatType
    ensures var url := BuildWmtsUrl(layerId, date, tileMatrix, tileRow, tileCol, tileMatrixLevel, formatType);
      var values := WmtsValues(layerId, date, tileMatrix, tileRow, tileCol, tileMatrixLevel, formatType);
      && url[..|WmtsBaseUrl| + 1] == WmtsBaseUrl + "?"
      && var pairs := Split(url[|WmtsBaseUrl| + 1..], '&');
      && |pairs| == 11
      && (forall i | 0 <= i < 11 :: pairs[i] == WmtsKeys[i] + "=" + values[i])
      && pairs[0] == "SERVICE=WMTS" && pairs[10] == "TIME=" + date
  {
    var values := WmtsValues(layerId, date, tileMatrix, tileRow, tileCol, tileMatrixLevel, formatType);
    var pairs := QueryPairs(WmtsKeys, values);
    IntToStringHasNoSeparator(tileMatrixLevel, '&');
    IntToStringHasNoSeparator(tileRow, '&');
    IntToStringHasNoSeparator(tileCol, '&');
    forall i | 0 <= i < |pairs| ensures '&' !in pairs[i] {
      assert '&' !in WmtsKeys[i] && '&' !in values[i];
      assert pairs[i] == WmtsKeys[i] + "=" + values[i];
    }
    SplitJoinRoundTrip(pairs, '&');
  }

  /**
   * Naming only the layer and date asks for the top-left tile of the
   * coarsest level of the 250m geographic tile matrix set, as a JPEG.
   */
  lemma WmtsUrlDefaults(layerId: string, date: string)
    requires '&' !in layerId && '&' !in date
    ensures var url := BuildWmtsUrl(layerId, date);
      var pairs := Split(url[|WmtsBaseUrl| + 1..], '&');
      && |pairs| == 11
      && pairs[5] == "TILEMATRIXSET=EPSG4326_250m" && pairs[6] == "TILEMATRIX=0"
      && pairs[7] == "TILEROW=0" && pairs[8] == "TILECOL=0" && pairs[9] == "FORMAT=image/jpeg"
  {
    var values := WmtsValues(layerId, date, DefaultTileMatrix, 0, 0, 0, DefaultWmtsFormat);
    WmtsQueryPairs(layerId, date, DefaultTileMatrix, 0, 0, 0, DefaultWmtsFormat);
    var pairs := Split(BuildWmtsUrl(layerId, date)[|WmtsBaseUrl| + 1..], '&');
    assert pairs[5] == WmtsKeys[5] + "=" + values[5] && pairs[6] == WmtsKeys[6] + "=" + values[6];
    assert pairs[7] == WmtsKeys[7] + "=" + values[7] && pairs[8] == WmtsKeys[8] + "=" + values[8];
    assert pairs[9] == WmtsKeys[9] + "=" + values[9];
    DefaultPairTexts();
  }

  lemma DefaultPairTexts()
    ensures WmtsKeys[5] + "=" + DefaultTileMatrix == "TILEMATRIXSET=EPSG4326_250m"
    ensures WmtsKeys[6] + "=" + IntToString(0) == "TILEMATRIX=0"
    ensures WmtsKeys[7] + "=" + IntToString(0) == "TILEROW=0"
    ensures WmtsKeys[8] + "=" + IntToString(0) == "TILECOL=0"
    ensures WmtsKeys[9] + "=" + DefaultWmtsFormat == "FORMAT=image/jpeg"
  {
    assert IntToString(0) == "0";
  }

  // ---------------------------------------------------------------------------
  // get_available_dates
  // ---------------------------------------------------------------------------

  /**
   * The dates the loop appends from `current` while `current <= end`, one
   * day at a time; `None` when stepping past 9999-12-31 raises OverflowError.
   */
  /** `t + timedelta(days=1)`, when it stays representable. */
  function NextDay(t: Instant): (r: Instant)
    ensures EpochSeconds(r) == EpochSeconds(t) + SecondsPerDay
  {
    SuccIsNextDay(t.date);
    Moment(Succ(t.date), t.second)
  }

  function DatesFrom(current: Instant, end: Instant): (r: Option<seq<Date>>)
    decreases EpochSeconds(end) - EpochSeconds(current)
  {
    if Earlier(end, current) then Some([])
    else if !InPythonRange(Succ(current.date)) then None
    else
      match DatesFrom(NextDay(current), end)
      case None => None
      case Some(rest) => Some([current.date] + rest)
  }

  /** `strftime('%Y-%m-%d')` of each date. */
  function FormatAll(ds: seq<Date>): (r: seq<string>)
    ensures |r| == |ds| && forall i | 0 <= i < |ds| :: r[i] == FormatDate(ds[i])
  {
    seq(|ds|, i requires 0 <= i < |ds| => FormatDate(ds[i]))
  }

  /** `get_available_dates`: start defaults to a year before `now`, end to `now`; `None` when it raises. */
  function AvailableDates(start: Option<Instant>, end: Option<Instant>, now: Instant): (r: Option<seq<string>>) {
    var from := if start.Some? then start.value else MinusDays(now, 365);
    var to := if end.Some? then end.value else now;
    if !InPythonRange(from.date) then None
    else
      match DatesFrom(from, to)
      case None => None
      case Some(ds) => Some(FormatAll(ds))
  }

  /** The dates already appended followed by those still to come, if the rest does not raise. */
  function Resume(visited: seq<Date>, rest: Option<seq<Date>>): Option<seq<Date>> {
    if rest.None? then None else Some(visited + rest.value)
  }

  /** One turn of the loop: appending today and resuming from tomorrow describes the same run. */
  lemma ResumeStep(visited: seq<Date>, current: Instant, end: Instant)
    requires !Earlier(end, current)
    ensures InPythonRange(Succ(current.date)) ==>
      Resume(visited, DatesFrom(current, end)) == Resume(visited + [current.date], DatesFrom(NextDay(current), end))
    ensures !InPythonRange(Succ(current.date)) ==> Resume(visited, DatesFrom(current, end)) == None
  {
    if InPythonRange(Succ(current.date)) && DatesFrom(NextDay(current), end).Some? {
      assert visited + ([current.date] + DatesFrom(NextDay(current), end).value)
        == visited + [current.date] + DatesFrom(NextDay(current), end).value;
    }
  }

  method GetAvailableDates(layerId: string, start: Option<Instant>, end: Option<Instant>, now: Instant)
    returns (r: Option<seq<string>>)
    requires start.Some? ==> InPythonRange(start.value.date)
    requires end.Some? ==> InPythonRange(end.value.date)
    ensures r == AvailableDates(start, end, now)
  {
    var from := if start.Some? then start.value else MinusDays(now, 365);
    var to := if end.Some? then end.value else now;
    if !InPythonRange(from.date) {
      return None;
    }
    ghost var all := DatesFrom(from, to);
    var dates: seq<string> := [];
    ghost var visited: seq<Date> := [];
    var current: Instant := from;
    assert all.Some? ==> visited + all.value == all.value;
    while !Earlier(to, current)
      invariant all == Resume(visited, DatesFrom(current, to))
      invariant dates == FormatAll(visited)
      decreases EpochSeconds(to) - EpochSeconds(current)
    {
      dates := dates + [FormatDate(current.date)];
      ResumeStep(visited, current, to);
      visited := visited + [current.date];
      if !InPythonRange(Succ(current.date)) {
        return None;
      }
      current := NextDay(current);
    }
    assert visited + [] == visited;
    r := Some(dates);
  }

  /**
   * The list is every day from the start onwards, ascending and one per day,
   * for as long as the start's time of day plus whole days stays at or
   * before the end; it is empty when the start is after the end.
   */
  lemma {:induction false} DatesFromConsecutive(current: Instant, end: Instant)
    ensures var r := DatesFrom(current, end);
      r.Some? ==>
        && (forall i | 0 <= i < |r.value| :: DayNumber(r.value[i]) == DayNumber(current.date) + i)
        && (Earlier(end, current) <==> r.value == [])
        && (r.value != [] ==> EpochSeconds(current) + (|r.value| - 1) * SecondsPerDay <= EpochSeconds(end))
        && EpochSeconds(end) < EpochSeconds(current) + |r.value| * SecondsPerDay
    decreases EpochSeconds(end) - EpochSeconds(current)
  {
    if !Earlier(end, current) && InPythonRange(Succ(current.date)) {
      var next := NextDay(current);
      DatesFromConsecutive(next, end);
      var rest := DatesFrom(next, end);
      if rest.Some? {
        var ds := [current.date] + rest.value;
        forall i | 1 <= i < |ds| ensures DayNumber(ds[i]) == DayNumber(current.date) + i {
          assert ds[i] == rest.value[i - 1];
        }
      }
    }
  }

  /** Only a range reaching the last representable day can raise. */
  lemma {:induction false} DatesFromWithinRange(current: Instant, end: Instant)
    requires InPythonRange(current.date) && end.date.year < MaxYear
    ensures DatesFrom(current, end).Some?
    decreases EpochSeconds(end) - EpochSeconds(current)
  {
    if !Earlier(end, current) {
      SuccIsNextDay(current.date);
      assert DayNumber(current.date) <= DayNumber(end.date);
      assert current.date.year < MaxYear by {
        if current.date.year >= MaxYear {
          YearOrderFollowsDayNumber(end.date, current.date);
        }
      }
      assert InPythonRange(Succ(current.date)) by {
        SuccYearBound(current.date);
      }
      DatesFromWithinRange(NextDay(current), end);
    }
  }

  lemma SuccYearBound(d: Date)
    requires InPythonRange(d) && d.year < MaxYear
    ensures InPythonRange(Succ(d))
  {
  }

  /** With neither bound given, the list covers the 366 days from a year ago to today. */
  lemma DefaultWindowIsOneYear(now: Instant)
    requires InPythonRange(SubDays(now.date, 365)) && now.date.year < MaxYear
    ensures var r := AvailableDates(None, None, now);
      r.Some? && |r.value| == 366
      && r.value[0] == FormatDate(SubDays(now.date, 365)) && r.value[365] == FormatDate(now.date)
  {
    var from := MinusDays(now, 365);
    DatesFromWithinRange(from, now);
    DatesFromConsecutive(from, now);
    var ds := DatesFrom(from, now).value;
    SubDaysNumber(now.date, 365);
    assert |ds| == 366;
    DayNumberDeterminesDate(ds[365], now.date);
    DayNumberDeterminesDate(ds[0], from.date);
  }

  // ---------------------------------------------------------------------------
  // fetch_capabilities
  // ---------------------------------------------------------------------------

  /**
   * A `wmts:Layer` element: for its `ows:Identifier`, `ows:Title` and first
   * `wmts:Format`, whether the element exists and, if so, its text (which
   * may be missing).
   */
  datatype LayerElement = LayerElement(
    identifier: Option<Option<string>>,
    title: Option<Option<string>>,
    format: Option<Option<string>>)

  /** A layer dictionary: identifier, title, and a 'format' key only when the element had one. */
  datatype CapabilityLayer = CapabilityLayer(
    identifier: Option<string>,
    title: Option<string>,
    format: Option<Option<string>>)

  /** The capabilities answer: unusable (request failure, bad status, unparseable XML), or its layer elements. */
  datatype CapabilitiesResponse = CapabilitiesUnavailable | CapabilitiesDocument(elements: seq<LayerElement>)

  predicate HasIdentifierAndTitle(e: LayerElement) {
    e.identifier.Some? && e.title.Some?
  }

  function LayerEntry(e: LayerElement): CapabilityLayer
    requires HasIdentifierAndTitle(e)
  {
    CapabilityLayer(e.identifier.value, e.title.value, e.format)
  }

  /** The entries for the elements that have both an identifier and a title, in document order. */
  function CapabilityLayers(elements: seq<LayerElement>): seq<CapabilityLayer>
    decreases |elements|
  {
    if elements == [] then []
    else
      var last := elements[|elements| - 1];
      CapabilityLayers(elements[..|elements| - 1]) + if HasIdentifierAndTitle(last) then [LayerEntry(last)] else []
  }

  /** `fetch_capabilities`: an unusable answer gives the empty list. */
  method FetchCapabilities(resp: CapabilitiesResponse) returns (layers: seq<CapabilityLayer>)
    ensures layers == if resp.CapabilitiesUnavailable? then [] else CapabilityLayers(resp.elements)
  {
    if resp.CapabilitiesUnavailable? {
      return [];
    }
    var elements := resp.elements;
    layers := [];
    for i := 0 to |elements|
      invariant layers == CapabilityLayers(elements[..i])
    {
      assert elements[..i + 1][..i] == elements[..i];
      var e := elements[i];
      if e.identifier.Some? && e.title.Some? {
        var entry := CapabilityLayer(e.identifier.value, e.title.value, e.format);
        layers := layers + [entry];
      }
    }
    assert elements[..|elements|] == elements;
  }

  /** The filter keeps document order: the entries of two runs of elements are those of each, in turn. */
  lemma {:induction false} CapabilityLayersAppend(a: seq<LayerElement>, b: seq<LayerElement>)
    ensures CapabilityLayers(a + b) == CapabilityLayers(a) + CapabilityLayers(b)
    decreases |b|
  {
    if b == [] {
      assert a + b == a;
    } else {
      var b' := b[..|b| - 1];
      assert (a + b)[..|a + b| - 1] == a + b';
      CapabilityLayersAppend(a, b');
    }
  }

  /**
   * An element is listed exactly when it has both an identifier and a title,
   * and every listed entry comes from such an element.
   */
  lemma {:induction false} CapabilityLayersMembership(elements: seq<LayerElement>)
    ensures forall e | e in elements && HasIdentifierAndTitle(e) :: LayerEntry(e) in CapabilityLayers(elements)
    ensures forall c | c in CapabilityLayers(elements) ::
      exists e | e in elements && HasIdentifierAndTitle(e) :: LayerEntry(e) == c
    ensures |CapabilityLayers(elements)| <= |elements|
    decreases |elements|
  {
    if elements != [] {
      var init := elements[..|elements| - 1];
      var last := elements[|elements| - 1];
      CapabilityLayersMembership(init);
      assert elements == init + [last];
      forall e | e in elements && HasIdentifierAndTitle(e) ensures LayerEntry(e) in CapabilityLayers(elements) {
        if e != last {
          assert e in init;
        }
      }
      forall c | c in CapabilityLayers(elements)
        ensures exists e | e in elements && HasIdentifierAndTitle(e) :: LayerEntry(e) == c
      {
        if c in CapabilityLayers(init) {
          var e :| e in init && HasIdentifierAndTitle(e) && LayerEntry(e) == c;
          assert e in elements;
        } else {
          assert last in elements;
        }
      }
    }
  }

  /** The 'format' key is present exactly when the element had a format element. */
  lemma FormatKeyOnlyWhenPresent(e: LayerElement)
    requires HasIdentifierAndTitle(e)
    ensures LayerEntry(e).format.Some? <==> e.format.Some?
  {
  }
}
