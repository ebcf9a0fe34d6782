/**
 * The `TileImageLoader` of the browser script: integer tile arithmetic for
 * a zoomable image, a set of tile ids already requested, and the grid of
 * tiles a viewport covers.
 */
module TileLoader {
  import opened Common

  const DefaultTileSize := 256

  // ---------------------------------------------------------------------------
  // Tile arithmetic
  // ---------------------------------------------------------------------------

  /** `Math.floor(a / size)` for a positive size: the multiple of `size` at or below `a`, counted. */
  function FloorDiv(a: int, size: int): (q: int)
    requires size > 0
    ensures q * size <= a < (q + 1) * size
  {
    a / size
  }

  /** `Math.ceil(a / size)` for a positive size: the multiple of `size` at or above `a`, counted. */
  function CeilDiv(a: int, size: int): (q: int)
    requires size > 0
    ensures (q - 1) * size < a <= q * size
  {
    var f := FloorDiv(-a, size);
    assert f * size <= -a < (f + 1) * size;
    -f
  }

  /** What `getTileCoordinates` returns. */
  datatype TileCoordinates = TileCoordinates(tileX: int, tileY: int, zoom: int)

  /** One entry of the list `getVisibleTiles` returns. */
  datatype Tile = Tile(x: int, y: int, zoom: int)

  /** The `viewport` argument of `getVisibleTiles`. */
  datatype Viewport = Viewport(x: int, y: int, width: int, height: int, zoom: int)

  // ---------------------------------------------------------------------------
  // Tile ids
  // ---------------------------------------------------------------------------

  /** The template `${zoom}-${tileX}-${tileY}`. */
  function TileId(zoom: int, tileX: int, tileY: int): string {
    IntToString(zoom) + "-" + IntToString(tileX) + "-" + IntToString(tileY)
  }

  /** The length of the run of decimal digits that `s` starts with. */
  function DigitRun(s: string): (n: nat)
    ensures n <= |s|
    ensures forall i | 0 <= i < n :: IsDigit(s[i])
    decreases |s|
  {
    if s != [] && IsDigit(s[0]) then 1 + DigitRun(s[1..]) else 0
  }

  /** An optionally negative decimal integer at the start of `s`, and what follows it. */
  function ReadInt(s: string): Option<(int, string)> {
    var negative := |s| > 0 && s[0] == '-';
    var body := if negative then s[1..] else s;
    var n := DigitRun(body);
    if n == 0 then None
    else
      assert AllDigits(body[..n]);
      var magnitude: int := DigitsValue(body[..n]);
      Some((if negative then -magnitude else magnitude, body[n..]))
  }

  /** An integer and the dash after it, and what follows the dash. */
  function ReadIntThenDash(s: string): Option<(int, string)> {
    var r := ReadInt(s);
    if r.None? || |r.value.1| == 0 || r.value.1[0] != '-' then None
    else Some((r.value.0, r.value.1[1..]))
  }

  /** Reads the three numbers of a tile id back; `None` for any other text. */
  function ParseTileId(s: string): Option<(int, int, int)> {
    var first := ReadIntThenDash(s);
    if first.None? then None
    else
      var second := ReadIntThenDash(first.value.1);
      if second.None? then None
      else
        var third := ReadInt(second.value.1);
        if third.None? || third.value.1 != "" then None
        else Some((first.value.0, second.value.0, third.value.0))
  }

  lemma {:induction false} DigitRunOf(digits: string, rest: string)
    requires AllDigits(digits)
    requires rest == [] || !IsDigit(rest[0])
    ensures DigitRun(digits + rest) == |digits|
    decreases |digits|
  {
    if digits == [] {
      assert digits + rest == rest;
    } else {
      assert (digits + rest)[0] == digits[0];
      assert (digits + rest)[1..] == digits[1..] + rest;
      DigitRunOf(digits[1..], rest);
    }
  }

  /** The digits of a natural number, followed by a dash or by nothing, read back as that number. */
  lemma ReadNatRoundTrip(n: nat, rest: string)
    requires rest == [] || rest[0] == '-'
    ensures var digits := NatToString(n);
      && DigitRun(digits + rest) == |digits| > 0
      && (digits + rest)[..|digits|] == digits && (digits + rest)[|digits|..] == rest
      && DigitsValue(digits) == n
  {
    var digits := NatToString(n);
    DigitRunOf(digits, rest);
    assert (digits + rest)[..|digits|] == digits && (digits + rest)[|digits|..] == rest;
    NatToStringRoundTrip(n);
  }

  /** A printed integer followed by a dash (or by nothing) reads back as that integer. */
  lemma ReadIntRoundTrip(i: int, rest: string)
    requires rest == [] || rest[0] == '-'
    ensures ReadInt(IntToString(i) + rest) == Some((i, rest))
  {
    if i < 0 {
      var digits := NatToString(-i);
      assert IntToString(i) == "-" + digits;
      assert ("-" + digits) + rest == "-" + (digits + rest);
      ReadNegativeRoundTrip(-i, rest);
    } else {
      assert IntToString(i) == NatToString(i);
      ReadUnsignedRoundTrip(i, rest);
    }
  }

  lemma ReadUnsignedRoundTrip(n: nat, rest: string)
    requires rest == [] || rest[0] == '-'
    ensures ReadInt(NatToString(n) + rest) == Some((n, rest))
  {
    var digits := NatToString(n);
    ReadNatRoundTrip(n, rest);
    assert (digits + rest)[0] == digits[0] && IsDigit(digits[0]);
  }

  lemma ReadNegativeRoundTrip(n: nat, rest: string)
    requires rest == [] || rest[0] == '-'
    ensures ReadInt("-" + (NatToString(n) + rest)) == Some((-(n as int), rest))
  {
    var digits := NatToString(n);
    ReadNatRoundTrip(n, rest);
    var s := "-" + (digits + rest);
    assert s[0] == '-' && s[1..] == digits + rest;
  }

  /** A printed integer, a dash and any text read back as the integer and that text. */
  lemma ReadIntThenDashRoundTrip(i: int, tail: string)
    ensures ReadIntThenDash(IntToString(i) + ("-" + tail)) == Some((i, tail))
  {
    ReadIntRoundTrip(i, "-" + tail);
    assert ("-" + tail)[1..] == tail;
  }

  /** A tile id reads back as the tile it names. */
  lemma TileIdRoundTrip(zoom: int, tileX: int, tileY: int)
    ensures ParseTileId(TileId(zoom, tileX, tileY)) == Some((zoom, tileX, tileY))
  {
    var sz, sx, sy := IntToString(zoom), IntToString(tileX), IntToString(tileY);
    assert TileId(zoom, tileX, tileY) == sz + ("-" + (sx + ("-" + sy)));
    ReadIntThenDashRoundTrip(zoom, sx + ("-" + sy));
    ReadIntThenDashRoundTrip(tileX, sy);
    ReadIntRoundTrip(tileY, "");
    assert sy + "" == sy;
  }

  /** Two tiles share an id only when they are the same tile, negative coordinates included. */
  lemma TileIdInjective(z1: int, x1: int, y1: int, z2: int, x2: int, y2: int)
    ensures TileId(z1, x1, y1) == TileId(z2, x2, y2) <==> (z1, x1, y1) == (z2, x2, y2)
  {
    TileIdRoundTrip(z1, x1, y1);
    TileIdRoundTrip(z2, x2, y2);
  }

  // ---------------------------------------------------------------------------
  // Loading a tile
  // ---------------------------------------------------------------------------

  /**
   * `loadTile` on the set of loaded ids: an id already there changes
   * nothing and calls nobody; otherwise the id is added and handed to the
   * callback when there is one. The second component is the callback's
   * argument, `None` when it is not called.
   */
  function LoadTileEffect(loaded: set<string>, zoom: int, tileX: int, tileY: int, hasCallback: bool)
    : (set<string>, Option<string>)
  {
    var id := TileId(zoom, tileX, tileY);
    if id in loaded then (loaded, None)
    else (loaded + {id}, if hasCallback then Some(id) else None)
  }

  /** The set only grows, by at most the requested id, and the callback sees only a new id. */
  lemma LoadTileGrows(loaded: set<string>, zoom: int, tileX: int, tileY: int, hasCallback: bool)
    ensures var (after, called) := LoadTileEffect(loaded, zoom, tileX, tileY, hasCallback);
      var id := TileId(zoom, tileX, tileY);
      && loaded <= after && after - loaded <= {id} && id in after
      && (called.Some? <==> hasCallback && id !in loaded)
      && (called.Some? ==> called.value == id && after == loaded + {id})
  {
  }

  /** Asking for the same tile twice calls back at most once and leaves the set as the first call did. */
  lemma LoadTileIdempotent(loaded: set<string>, zoom: int, tileX: int, tileY: int, cb1: bool, cb2: bool)
    ensures var first := LoadTileEffect(loaded, zoom, tileX, tileY, cb1);
      var second := LoadTileEffect(first.0, zoom, tileX, tileY, cb2);
      second == (first.0, None)
  {
  }

  /**
   * Loading one tile never keeps a different, not yet loaded tile from
   * being loaded and called back afterwards.
   */
  lemma LoadTileKeepsOthersNew(loaded: set<string>, z1: int, x1: int, y1: int, z2: int, x2: int, y2: int,
                               cb1: bool)
    requires (z1, x1, y1) != (z2, x2, y2)
    requires TileId(z2, x2, y2) !in loaded
    ensures var first := LoadTileEffect(loaded, z1, x1, y1, cb1);
      LoadTileEffect(first.0, z2, x2, y2, true).1 == Some(TileId(z2, x2, y2))
  {
    TileIdInjective(z1, x1, y1, z2, x2, y2);
  }

  // ---------------------------------------------------------------------------
  // Visible tiles
  // ---------------------------------------------------------------------------

  /** The inner loop for column `x`: rows `startY` to `endY`, in order. */
  function Column(x: int, startY: int, endY: int, zoom: int): seq<Tile> {
    seq(if endY < startY then 0 else endY - startY + 1, j => Tile(x, startY + j, zoom))
  }

  /** Columns `startX` to `stopX - 1`, each of rows `startY` to `endY`, columns in order. */
  function Columns(startX: int, stopX: int, startY: int, endY: int, zoom: int): seq<Tile>
    decreases stopX - startX
  {
    if stopX <= startX then [] else Columns(startX, stopX - 1, startY, endY, zoom) + Column(stopX - 1, startY, endY, zoom)
  }

  /** What `getVisibleTiles` returns for `viewport` and tile size `size`. */
  function VisibleTiles(size: int, v: Viewport): seq<Tile>
    requires size > 0
  {
    var startX, startY := FloorDiv(v.x, size), FloorDiv(v.y, size);
    var endX, endY := CeilDiv(v.x + v.width, size), CeilDiv(v.y + v.height, size);
    Columns(startX, endX + 1, startY, endY, v.zoom)
  }

  /** The grid has one tile per column and row. */
  lemma {:induction false} ColumnsSize(startX: int, stopX: int, startY: int, endY: int, zoom: int)
    ensures |Columns(startX, stopX, startY, endY, zoom)|
         == (if stopX <= startX then 0 else stopX - startX) * (if endY < startY then 0 else endY - startY + 1)
    decreases stopX - startX
  {
    if stopX > startX {
      ColumnsSize(startX, stopX - 1, startY, endY, zoom);
    }
  }

  lemma Distrib(a: int, b: int, size: int)
    ensures b * size - a * size == (b - a) * size
  {
  }

  lemma MulPositive(a: int, b: int)
    requires a > 0 && b > 0
    ensures a * b > 0
  {
  }

  lemma MulAtLeast(d: int, h: int)
    requires d >= 1 && h > 0
    ensures d * h >= h
  {
    Distrib(1, d, h);
    if d > 1 {
      MulPositive(d - 1, h);
    }
  }

  lemma DivModUnique(i: int, q: int, r: int, h: int)
    requires h > 0 && 0 <= r < h && i == q * h + r
    ensures i / h == q && i % h == r
  {
    var q0, r0 := i / h, i % h;
    Distrib(q0, q, h);
    if q > q0 {
      MulAtLeast(q - q0, h);
    } else if q < q0 {
      Distrib(q, q0, h);
      MulAtLeast(q0 - q, h);
    }
  }

  /** The tiles run column by column (x outer), top to bottom within a column (y inner). */
  lemma {:induction false} ColumnsIndex(startX: int, stopX: int, startY: int, endY: int, zoom: int, i: int)
    requires startY <= endY
    requires 0 <= i < |Columns(startX, stopX, startY, endY, zoom)|
    ensures var h := endY - startY + 1;
      Columns(startX, stopX, startY, endY, zoom)[i] == Tile(startX + i / h, startY + i % h, zoom)
    decreases stopX - startX
  {
    var h := endY - startY + 1;
    var front := Columns(startX, stopX - 1, startY, endY, zoom);
    ColumnsSize(startX, stopX - 1, startY, endY, zoom);
    if i < |front| {
      ColumnsIndex(startX, stopX - 1, startY, endY, zoom, i);
    } else {
      var q := stopX - 1 - startX;
      assert |front| == q * h;
      DivModUnique(i, q, i - q * h, h);
    }
  }

  /** A tile is in the grid exactly when its column, row and zoom are in range. */
  lemma {:induction false} ColumnsMembership(startX: int, stopX: int, startY: int, endY: int, zoom: int, t: Tile)
    ensures t in Columns(startX, stopX, startY, endY, zoom)
        <==> startX <= t.x < stopX && startY <= t.y <= endY && t.zoom == zoom
    decreases stopX - startX
  {
    if stopX > startX {
      ColumnsMembership(startX, stopX - 1, startY, endY, zoom, t);
      var col := Column(stopX - 1, startY, endY, zoom);
      if t.x == stopX - 1 && startY <= t.y <= endY && t.zoom == zoom {
        assert col[t.y - startY] == t;
      }
    }
  }

  /** `getVisibleTiles` returns (endX - startX + 1) · (endY - startY + 1) tiles. */
  lemma VisibleTilesCount(size: int, v: Viewport)
    requires size > 0
    ensures var startX, startY := FloorDiv(v.x, size), FloorDiv(v.y, size);
      var endX, endY := CeilDiv(v.x + v.width, size), CeilDiv(v.y + v.height, size);
      |VisibleTiles(size, v)|
        == (if endX < startX then 0 else endX - startX + 1) * (if endY < startY then 0 else endY - startY + 1)
  {
    var startX, startY := FloorDiv(v.x, size), FloorDiv(v.y, size);
    var endX, endY := CeilDiv(v.x + v.width, size), CeilDiv(v.y + v.height, size);
    ColumnsSize(startX, endX + 1, startY, endY, v.zoom);
  }

  lemma MulMonotone(a: int, b: int, size: int)
    requires size > 0 && a * size <= b * size
    ensures a <= b
  {
    Distrib(a, b, size);
    if b < a {
      MulPositive(a - b, size);
    }
  }

  /**
   * The tile under every point of a viewport of non-negative size is among
   * its visible tiles, at the viewport's zoom.
   */
  lemma VisibleTilesCoverViewport(size: int, v: Viewport, px: int, py: int)
    requires size > 0
    requires v.x <= px <= v.x + v.width && v.y <= py <= v.y + v.height
    ensures Tile(FloorDiv(px, size), FloorDiv(py, size), v.zoom) in VisibleTiles(size, v)
  {
    var startX, startY := FloorDiv(v.x, size), FloorDiv(v.y, size);
    var endX, endY := CeilDiv(v.x + v.width, size), CeilDiv(v.y + v.height, size);
    var tx, ty := FloorDiv(px, size), FloorDiv(py, size);
    MulMonotone(tx, endX, size);
    MulMonotone(ty, endY, size);
    MulMonotone(startX, tx + 1, size);
    MulMonotone(startY, ty + 1, size);
    ColumnsMembership(startX, endX + 1, startY, endY, v.zoom, Tile(tx, ty, v.zoom));
  }

  // ---------------------------------------------------------------------------
  // The class
  // ---------------------------------------------------------------------------

  class TileImageLoader {
    var imageUrl: string
    var tileSize: int
    var loadedTiles: set<string>

    /** `new TileImageLoader(imageUrl, tileSize = 256)`; `None` stands for an omitted size. */
    constructor (imageUrl: string, tileSize: Option<int>)
      ensures this.imageUrl == imageUrl
      ensures this.tileSize == if tileSize.Some? then tileSize.value else DefaultTileSize
      ensures loadedTiles == {}
    {
      this.imageUrl := imageUrl;
      this.tileSize := if tileSize.Some? then tileSize.value else DefaultTileSize;
      loadedTiles := {};
    }

    /** `getTileCoordinates`: the tile whose square holds the point, at the given zoom. */
    function TileCoordinatesOf(x: int, y: int, zoom: int): (c: TileCoordinates)
      reads this
      requires tileSize > 0
      ensures c.tileX * tileSize <= x < (c.tileX + 1) * tileSize
      ensures c.tileY * tileSize <= y < (c.tileY + 1) * tileSize
      ensures c.zoom == zoom
    {
      TileCoordinates(FloorDiv(x, tileSize), FloorDiv(y, tileSize), zoom)
    }

    /**
     * `loadTile`; `hasCallback` says whether a callback was passed, and the
     * result is the argument it was called with.
     */
    method LoadTile(tileX: int, tileY: int, zoom: int, hasCallback: bool) returns (callbackArg: Option<string>)
      modifies this
      ensures (loadedTiles, callbackArg) == LoadTileEffect(old(loadedTiles), zoom, tileX, tileY, hasCallback)
      ensures imageUrl == old(imageUrl) && tileSize == old(tileSize)
    {
      var tileId := TileId(zoom, tileX, tileY);
      if tileId in loadedTiles {
        return None;
      }
      loadedTiles := loadedTiles + {tileId};
      callbackArg := if hasCallback then Some(tileId) else None;
    }

    /** `getVisibleTiles`: the nested loops over columns and rows. */
    method GetVisibleTiles(viewport: Viewport) returns (tiles: seq<Tile>)
      requires tileSize > 0
      ensures tiles == VisibleTiles(tileSize, viewport)
    {
      tiles := [];
      var startX := FloorDiv(viewport.x, tileSize);
      var startY := FloorDiv(viewport.y, tileSize);
      var endX := CeilDiv(viewport.x + viewport.width, tileSize);
      var endY := CeilDiv(viewport.y + viewport.height, tileSize);
      var x := startX;
      while x <= endX
        invariant startX <= x <= if endX < startX then startX else endX + 1
        invariant tiles == Columns(startX, x, startY, endY, viewport.zoom)
        decreases endX - x
      {
        var y := startY;
        while y <= endY
          invariant startY <= y <= if endY < startY then startY else endY + 1
          invariant tiles == Columns(startX, x, startY, endY, viewport.zoom) + Column(x, startY, y - 1, viewport.zoom)
          decreases endY - y
        {
          tiles := tiles + [Tile(x, y, viewport.zoom)];
          y := y + 1;
        }
        assert Column(x, startY, y - 1, viewport.zoom) == Column(x, startY, endY, viewport.zoom);
        x := x + 1;
      }
    }
  }
}
