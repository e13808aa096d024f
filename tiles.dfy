/** The integer tile-grid work of fetchTilesAndRenderCanvas in utils.js:
    the corner tiles put in order, the tile counts and canvas size, and the
    enumeration of the tiles with their URLs. */
module Tiles {
  import opened Js

  const TileSize: int := 256
  const ZoomLevel: nat := 17

  /** A tile index at zoom level 17, as latLngToTile returns it. */
  datatype TileXY = TileXY(x: int, y: int)

  /** One entry of `tiles`: its URL and its offset from the top-left tile. */
  datatype Tile = Tile(url: string, x: int, y: int)

  function Min(a: int, b: int): int { if a <= b then a else b }
  function Max(a: int, b: int): int { if a <= b then b else a }

  /** The top-left and bottom-right tiles: coordinate-wise minimum and
      maximum of the two corner tiles. */
  function NormalizeCorners(a: TileXY, b: TileXY): (r: (TileXY, TileXY))
    ensures r.0.x <= r.1.x && r.0.y <= r.1.y
    ensures {r.0.x, r.1.x} == {a.x, b.x} && {r.0.y, r.1.y} == {a.y, b.y}
  {
    (TileXY(Min(a.x, b.x), Min(a.y, b.y)), TileXY(Max(a.x, b.x), Max(a.y, b.y)))
  }

  /** The corners may come in either order. */
  lemma NormalizeCornersIsSymmetric(a: TileXY, b: TileXY)
    ensures NormalizeCorners(a, b) == NormalizeCorners(b, a)
    ensures NormalizeCorners(a, b).0.x <= a.x <= NormalizeCorners(a, b).1.x
    ensures NormalizeCorners(a, b).0.y <= b.y <= NormalizeCorners(a, b).1.y
  {
  }

  /** `max - min + 1`. */
  function TileCount(lo: int, hi: int): (n: int)
    requires lo <= hi
    ensures n >= 1 && lo + n - 1 == hi
  {
    hi - lo + 1
  }

  /** The canvas is a whole number of tiles wide and high. */
  function CanvasSize(topLeft: TileXY, bottomRight: TileXY): (size: (int, int))
    requires topLeft.x <= bottomRight.x && topLeft.y <= bottomRight.y
    ensures size.0 == TileCount(topLeft.x, bottomRight.x) * TileSize && size.0 >= TileSize
    ensures size.1 == TileCount(topLeft.y, bottomRight.y) * TileSize && size.1 >= TileSize
  {
    (TileCount(topLeft.x, bottomRight.x) * TileSize, TileCount(topLeft.y, bottomRight.y) * TileSize)
  }

  // ---------------------------------------------------------------------
  // Tile URLs

  predicate OccursAt(s: string, pat: string, i: nat) {
    i + |pat| <= |s| && s[i..i + |pat|] == pat
  }

  /** The first index from `from` on at which `pat` occurs in `s`, as
      `String.indexOf`. */
  function IndexOf(s: string, pat: string, from: nat): (r: Option<nat>)
    requires from <= |s|
    ensures r.Some? ==> from <= r.value && OccursAt(s, pat, r.value)
    ensures r.Some? ==> forall i :: from <= i < r.value ==> !OccursAt(s, pat, i)
    ensures r.None? ==> forall i :: from <= i ==> !OccursAt(s, pat, i)
    decreases |s| - from
  {
    if from + |pat| > |s| then None
    else if s[from..from + |pat|] == pat then Some(from)
    else IndexOf(s, pat, from + 1)
  }

  /** `s.replace(pat, rep)` with a string pattern: only the first occurrence
      is replaced. */
  function ReplaceFirst(s: string, pat: string, rep: string): (r: string)
    ensures (forall i :: 0 <= i ==> !OccursAt(s, pat, i)) ==> r == s
    ensures forall i: nat :: OccursAt(s, pat, i) && (forall j :: 0 <= j < i ==> !OccursAt(s, pat, j)) ==>
      r == s[..i] + rep + s[i + |pat|..]
  {
    match IndexOf(s, pat, 0)
    case None => s
    case Some(i) => s[..i] + rep + s[i + |pat|..]
  }

  function DigitChar(d: nat): char
    requires d < 10
  {
    "0123456789"[d]
  }

  /** The decimal digits of a natural number, most significant first. */
  function NatDigits(n: nat): (r: string)
    ensures r != []
    ensures forall k :: 0 <= k < |r| ==> '0' <= r[k] <= '9'
  {
    if n < 10 then [DigitChar(n)] else NatDigits(n / 10) + [DigitChar(n % 10)]
  }

  /** `String(n)` for an integer. */
  function IntString(n: int): string {
    if n < 0 then "-" + NatDigits(-n) else NatDigits(n)
  }

  /** The value of a string of decimal digits. */
  function DigitsValue(s: string): nat
    requires forall k :: 0 <= k < |s| ==> '0' <= s[k] <= '9'
  {
    if s == [] then 0 else 10 * DigitsValue(s[..|s| - 1]) + (s[|s| - 1] as int - '0' as int)
  }

  /** The digits read back as the number they were made from. */
  lemma {:induction false} NatDigitsRoundTrip(n: nat)
    ensures DigitsValue(NatDigits(n)) == n
  {
    if n >= 10 {
      NatDigitsRoundTrip(n / 10);
      var r := NatDigits(n);
      assert r[..|r| - 1] == NatDigits(n / 10);
    }
  }

  /** The URL of the tile (x, y): the layer template with its first `{z}`,
      `{x}` and `{y}` replaced, in that order. */
  function TileUrl(template: string, x: int, y: int): string {
    ReplaceFirst(ReplaceFirst(ReplaceFirst(template, "{z}", IntString(ZoomLevel)), "{x}", IntString(x)), "{y}", IntString(y))
  }

  predicate NoBrace(s: string) {
    forall k :: 0 <= k < |s| ==> s[k] != '{'
  }

  /** A placeholder after text without `{` is the first occurrence, so it
      is the one replaced. */
  lemma ReplaceAfterPlainText(pre: string, pat: string, post: string, rep: string)
    requires |pat| > 0 && pat[0] == '{' && NoBrace(pre)
    ensures ReplaceFirst(pre + pat + post, pat, rep) == pre + rep + post
  {
    var s := pre + pat + post;
    assert s[|pre|..|pre| + |pat|] == pat;
    forall j | 0 <= j < |pre|
      ensures !OccursAt(s, pat, j)
    {
      assert s[j..j + |pat|][0] == s[j] == pre[j];
    }
    assert s[..|pre|] == pre;
    assert s[|pre| + |pat|..] == post;
  }

  lemma IntStringNoBrace(n: int)
    ensures NoBrace(IntString(n))
  {
  }

  /** For a template whose text around the placeholders has no `{`, such
      as `https://tile.example.org/{z}/{x}/{y}.png`, the URL is that text
      with the zoom level 17 and the tile's column and row written in. */
  lemma TileUrlFillsPlaceholders(p: string, q: string, r: string, t: string, x: int, y: int)
    requires NoBrace(p) && NoBrace(q) && NoBrace(r)
    ensures TileUrl(p + "{z}" + q + "{x}" + r + "{y}" + t, x, y)
         == p + "17" + q + IntString(x) + r + IntString(y) + t
  {
    ZoomLevelString();
    FillZoom(p, q, r, t);
    FillColumn(p, q, r, t, x);
    FillRow(p, q, r, t, x, y);
  }

  /** `String(17)`. */
  lemma ZoomLevelString()
    ensures IntString(ZoomLevel) == "17"
  {
    assert NatDigits(17) == NatDigits(1) + [DigitChar(7)];
  }

  /** The three replacements, one at a time. */
  lemma FillZoom(p: string, q: string, r: string, t: string)
    requires NoBrace(p)
    ensures ReplaceFirst(p + "{z}" + q + "{x}" + r + "{y}" + t, "{z}", "17")
         == p + "17" + q + "{x}" + r + "{y}" + t
  {
    var post := q + "{x}" + r + "{y}" + t;
    RegroupFive(p + "{z}", q, "{x}", r, "{y}", t);
    RegroupFive(p + "17", q, "{x}", r, "{y}", t);
    ReplaceAfterPlainText(p, "{z}", post, "17");
  }

  lemma FillColumn(p: string, q: string, r: string, t: string, x: int)
    requires NoBrace(p) && NoBrace(q)
    ensures ReplaceFirst(p + "17" + q + "{x}" + r + "{y}" + t, "{x}", IntString(x))
         == p + "17" + q + IntString(x) + r + "{y}" + t
  {
    NoBraceAppend(p, "17");
    NoBraceAppend(p + "17", q);
    RegroupThree(p + "17" + q + "{x}", r, "{y}", t);
    RegroupThree(p + "17" + q + IntString(x), r, "{y}", t);
    ReplaceAfterPlainText(p + "17" + q, "{x}", r + "{y}" + t, IntString(x));
  }

  lemma FillRow(p: string, q: string, r: string, t: string, x: int, y: int)
    requires NoBrace(p) && NoBrace(q) && NoBrace(r)
    ensures ReplaceFirst(p + "17" + q + IntString(x) + r + "{y}" + t, "{y}", IntString(y))
         == p + "17" + q + IntString(x) + r + IntString(y) + t
  {
    IntStringNoBrace(x);
    NoBraceAppend(p, "17");
    NoBraceAppend(p + "17", q);
    NoBraceAppend(p + "17" + q, IntString(x));
    NoBraceAppend(p + "17" + q + IntString(x), r);
    ReplaceAfterPlainText(p + "17" + q + IntString(x) + r, "{y}", t, IntString(y));
  }

  /** Concatenation regrouped to the right. */
  lemma RegroupThree(a: string, b: string, c: string, d: string)
    ensures a + b + c + d == a + (b + c + d)
  {
    calc {
      a + (b + c + d);
      (a + (b + c)) + d;
      a + b + c + d;
    }
  }

  lemma RegroupFive(a: string, b: string, c: string, d: string, e: string, f: string)
    ensures a + b + c + d + e + f == a + (b + c + d + e + f)
  {
    calc {
      a + (b + c + d + e + f);
      (a + (b + c + d + e)) + f;
      { RegroupThree(a, b, c, d); }
      a + b + c + d + e + f;
    }
  }

  lemma NoBraceAppend(a: string, b: string)
    requires NoBrace(a) && NoBrace(b)
    ensures NoBrace(a + b)
  {
    forall k | 0 <= k < |a + b|
      ensures (a + b)[k] != '{'
    {
      if k < |a| {
        assert (a + b)[k] == a[k];
      } else {
        assert (a + b)[k] == b[k - |a|];
      }
    }
  }

  /** The URL of every tile of a layer. */
  function LayerUrls(template: string): (int, int) -> string {
    (x, y) => TileUrl(template, x, y)
  }

  // ---------------------------------------------------------------------
  // Enumeration

  /** The tiles of one column x, for y from the top row down. */
  function Column(url: (int, int) -> string, topLeft: TileXY, x: int, countY: nat): (col: seq<Tile>)
    ensures |col| == countY
    ensures forall j :: 0 <= j < countY ==>
      col[j] == Tile(url(x, topLeft.y + j), x - topLeft.x, j)
  {
    seq(countY, j requires 0 <= j < countY => Tile(url(x, topLeft.y + j), x - topLeft.x, j))
  }

  /** The tiles of the first `columns` columns, x outer and y inner. */
  function Grid(url: (int, int) -> string, topLeft: TileXY, columns: nat, countY: nat): seq<Tile> {
    if columns == 0 then []
    else Grid(url, topLeft, columns - 1, countY) + Column(url, topLeft, topLeft.x + columns - 1, countY)
  }

  /** `a` comes before `b` with x outer and y inner. */
  predicate Before(a: Tile, b: Tile) {
    a.x < b.x || (a.x == b.x && a.y < b.y)
  }

  /** The grid holds the tile with offset (i, j). */
  predicate Lists(g: seq<Tile>, url: (int, int) -> string, topLeft: TileXY, i: int, j: int) {
    exists k :: 0 <= k < |g| && g[k] == Tile(url(topLeft.x + i, topLeft.y + j), i, j)
  }

  lemma MulStep(countX: nat, countY: nat)
    requires countX > 0
    ensures (countX - 1) * countY + countY == countX * countY
  {
  }

  /** The grid has countX * countY tiles. */
  lemma {:induction false} GridLength(url: (int, int) -> string, topLeft: TileXY, countX: nat, countY: nat)
    ensures |Grid(url, topLeft, countX, countY)| == countX * countY
  {
    if countX > 0 {
      GridLength(url, topLeft, countX - 1, countY);
      MulStep(countX, countY);
    }
  }

  /** Each offset lies in [0, countX) x [0, countY) and each URL is the one
      of the tile at that offset. */
  lemma {:induction false} GridEntries(url: (int, int) -> string, topLeft: TileXY, countX: nat, countY: nat)
    ensures forall k :: 0 <= k < |Grid(url, topLeft, countX, countY)| ==>
      (0 <= Grid(url, topLeft, countX, countY)[k].x < countX && 0 <= Grid(url, topLeft, countX, countY)[k].y < countY
       && Grid(url, topLeft, countX, countY)[k].url == url(topLeft.x + Grid(url, topLeft, countX, countY)[k].x, topLeft.y + Grid(url, topLeft, countX, countY)[k].y))
  {
    if countX > 0 {
      GridEntries(url, topLeft, countX - 1, countY);
      var prev := Grid(url, topLeft, countX - 1, countY);
      var col := Column(url, topLeft, topLeft.x + countX - 1, countY);
      var g := prev + col;
      forall k | 0 <= k < |g|
        ensures 0 <= g[k].x < countX && 0 <= g[k].y < countY
             && g[k].url == url(topLeft.x + g[k].x, topLeft.y + g[k].y)
      {
        if k < |prev| {
          assert g[k] == prev[k];
        } else {
          assert g[k] == col[k - |prev|];
        }
      }
    }
  }

  /** The tiles come in strictly increasing order, x outer and y inner, so
      no offset repeats. */
  lemma {:induction false} GridOrdered(url: (int, int) -> string, topLeft: TileXY, countX: nat, countY: nat)
    ensures forall k, m :: 0 <= k < m < |Grid(url, topLeft, countX, countY)| ==> Before(Grid(url, topLeft, countX, countY)[k], Grid(url, topLeft, countX, countY)[m])
  {
    if countX > 0 {
      GridOrdered(url, topLeft, countX - 1, countY);
      GridEntries(url, topLeft, countX - 1, countY);
      var prev := Grid(url, topLeft, countX - 1, countY);
      var col := Column(url, topLeft, topLeft.x + countX - 1, countY);
      var g := prev + col;
      forall k, m | 0 <= k < m < |g| ensures Before(g[k], g[m]) {
        if m < |prev| {
          assert g[k] == prev[k] && g[m] == prev[m];
        } else if k < |prev| {
          assert g[k] == prev[k] && g[m] == col[m - |prev|];
        } else {
          assert g[k] == col[k - |prev|] && g[m] == col[m - |prev|];
        }
      }
    }
  }

  /** Every offset in [0, countX) x [0, countY) is listed. */
  lemma {:induction false} GridComplete(url: (int, int) -> string, topLeft: TileXY, countX: nat, countY: nat)
    ensures forall i, j :: 0 <= i < countX && 0 <= j < countY ==> Lists(Grid(url, topLeft, countX, countY), url, topLeft, i, j)
  {
    if countX > 0 {
      GridComplete(url, topLeft, countX - 1, countY);
      var prev := Grid(url, topLeft, countX - 1, countY);
      var col := Column(url, topLeft, topLeft.x + countX - 1, countY);
      var g := prev + col;
      forall i, j | 0 <= i < countX && 0 <= j < countY ensures Lists(g, url, topLeft, i, j) {
        if i < countX - 1 {
          assert Lists(prev, url, topLeft, i, j);
          var k :| 0 <= k < |prev| && prev[k] == Tile(url(topLeft.x + i, topLeft.y + j), i, j);
          assert g[k] == prev[k];
        } else {
          assert g[|prev| + j] == col[j];
        }
      }
    }
  }

  /** What fetchTilesAndRenderCanvas works out before any tile is fetched:
      the canvas size and the tiles to draw. */
  datatype TilePlan = TilePlan(width: int, height: int, tiles: seq<Tile>)

  /** No plan without a drawn area or a selected layer; otherwise the
      corners in order, the canvas size and the grid of tiles. */
  function PlanTiles(hasArea: bool, layer: Option<string>, a: TileXY, b: TileXY): Option<TilePlan> {
    if !hasArea || layer.None? then None
    else
      var corners := NormalizeCorners(a, b);
      var size := CanvasSize(corners.0, corners.1);
      var countX := TileCount(corners.0.x, corners.1.x);
      var countY := TileCount(corners.0.y, corners.1.y);
      Some(TilePlan(size.0, size.1, Grid(LayerUrls(layer.value), corners.0, countX, countY)))
  }

  /** The inner loop for column x: one entry per row, from the top row
      down, each with the URL the layer gives the tile. */
  method EnumerateColumn(url: (int, int) -> string, topLeft: TileXY, bottomRight: TileXY, x: int) returns (col: seq<Tile>)
    requires topLeft.y <= bottomRight.y
    ensures col == Column(url, topLeft, x, bottomRight.y - topLeft.y + 1)
  {
    ghost var spec := Column(url, topLeft, x, bottomRight.y - topLeft.y + 1);
    col := [];
    for y := topLeft.y to bottomRight.y + 1
      invariant |col| == y - topLeft.y
      invariant forall j :: 0 <= j < |col| ==> col[j] == spec[j]
    {
      col := col + [Tile(url(x, y), x - topLeft.x, y - topLeft.y)];
    }
  }

  /** The nested loop, x outer and y inner, that pushes one entry per tile
      from the top-left to the bottom-right tile. */
  method EnumerateTiles(url: (int, int) -> string, topLeft: TileXY, bottomRight: TileXY) returns (tiles: seq<Tile>)
    requires topLeft.x <= bottomRight.x && topLeft.y <= bottomRight.y
    ensures tiles == Grid(url, topLeft, bottomRight.x - topLeft.x + 1, bottomRight.y - topLeft.y + 1)
  {
    var countY := bottomRight.y - topLeft.y + 1;
    tiles := [];
    for x := topLeft.x to bottomRight.x + 1
      invariant tiles == Grid(url, topLeft, x - topLeft.x, countY)
    {
      var col := EnumerateColumn(url, topLeft, bottomRight, x);
      tiles := tiles + col;
    }
  }

  /** The guard, the normalisation, the counts and the canvas size, then
      the enumeration. */
  method PlanTileFetch(hasArea: bool, layer: Option<string>, a: TileXY, b: TileXY) returns (plan: Option<TilePlan>)
    ensures plan == PlanTiles(hasArea, layer, a, b)
  {
    if !hasArea || layer.None? {
      return None;
    }
    var topLeft := TileXY(Min(a.x, b.x), Min(a.y, b.y));
    var bottomRight := TileXY(Max(a.x, b.x), Max(a.y, b.y));
    var countX := bottomRight.x - topLeft.x + 1;
    var countY := bottomRight.y - topLeft.y + 1;
    var width, height := countX * TileSize, countY * TileSize;
    var tiles := EnumerateTiles(LayerUrls(layer.value), topLeft, bottomRight);
    return Some(TilePlan(width, height, tiles));
  }

  /** A plan's tiles: countX * countY of them, offsets in range and none
      repeated, on a canvas of countX by countY tiles. */
  lemma PlanShape(hasArea: bool, template: string, a: TileXY, b: TileXY)
    requires hasArea
    ensures var plan := PlanTiles(hasArea, Some(template), a, b).value;
      var countX := Max(a.x, b.x) - Min(a.x, b.x) + 1;
      var countY := Max(a.y, b.y) - Min(a.y, b.y) + 1;
      plan.width == countX * TileSize && plan.height == countY * TileSize
      && |plan.tiles| == countX * countY
      && (forall k :: 0 <= k < |plan.tiles| ==> 0 <= plan.tiles[k].x < countX && 0 <= plan.tiles[k].y < countY)
      && (forall k, m :: 0 <= k < m < |plan.tiles| ==>
            (plan.tiles[k].x, plan.tiles[k].y) != (plan.tiles[m].x, plan.tiles[m].y))
  {
    var corners := NormalizeCorners(a, b);
    var countX := TileCount(corners.0.x, corners.1.x);
    var countY := TileCount(corners.0.y, corners.1.y);
    GridLength(LayerUrls(template), corners.0, countX, countY);
    GridEntries(LayerUrls(template), corners.0, countX, countY);
    GridOrdered(LayerUrls(template), corners.0, countX, countY);
    var g := Grid(LayerUrls(template), corners.0, countX, countY);
    forall k, m | 0 <= k < m < |g| ensures (g[k].x, g[k].y) != (g[m].x, g[m].y) {
      assert Before(g[k], g[m]);
    }
  }
}
