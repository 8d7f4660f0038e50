/**
 * The checkerboard drawn behind the preview (`build_preview`): 16-pixel
 * tiles in two greys, one grid cell per tile.
 */
module PreviewGrid {

  datatype Rgba = Rgba(r: int, g: int, b: int, a: int)

  const TileSize: nat := 16
  const Light := Rgba(220, 220, 220, 255)
  const Dark := Rgba(180, 180, 180, 255)

  /** `math.ceil(n / 16)`: the fewest tiles that cover `n` pixels. */
  function CeilTiles(n: int): (k: int)
    ensures TileSize * (k - 1) < n <= TileSize * k
  {
    (n + TileSize - 1) / TileSize
  }

  /** The number of passes of `for _ in range(CeilTiles(n))`. */
  function TileCount(n: int): (k: nat)
    ensures n > 0 ==> TileSize * (k - 1) < n <= TileSize * k
    ensures n <= 0 ==> k == 0
  {
    var c := CeilTiles(n);
    if c > 0 then c else 0
  }

  /** Tile `(x, y)` is light when `x + y` is even and dark otherwise. */
  function TileColor(x: int, y: int): (c: Rgba)
    ensures c == Light || c == Dark
  {
    if (x + y) % 2 == 0 then Light else Dark
  }

  /** Tiles that share an edge never share a colour. */
  lemma AdjacentTilesDiffer(x: int, y: int)
    ensures TileColor(x, y) != TileColor(x + 1, y)
    ensures TileColor(x, y) != TileColor(x, y + 1)
  {
  }

  /**
   * Draws the checkerboard for a `canvasW` x `canvasH` preview row by row:
   * `tiles[y, x]` is the fill of tile column `x` in tile row `y`.
   */
  method BuildTiles(canvasW: int, canvasH: int) returns (tiles: array2<Rgba>)
    ensures tiles.Length0 == TileCount(canvasH) && tiles.Length1 == TileCount(canvasW)
    ensures forall y, x :: 0 <= y < tiles.Length0 && 0 <= x < tiles.Length1 ==>
      tiles[y, x] == (if (x + y) % 2 == 0 then Light else Dark)
  {
    var rows, cols := TileCount(canvasH), TileCount(canvasW);
    tiles := new Rgba[rows, cols]((_, _) => Rgba(0, 0, 0, 0));
    var y := 0;
    while y < rows
      invariant 0 <= y <= rows
      invariant forall j, i :: 0 <= j < y && 0 <= i < cols ==> tiles[j, i] == TileColor(i, j)
    {
      var x := 0;
      while x < cols
        invariant 0 <= x <= cols
        invariant forall j, i :: 0 <= j < y && 0 <= i < cols ==> tiles[j, i] == TileColor(i, j)
        invariant forall i :: 0 <= i < x ==> tiles[y, i] == TileColor(i, y)
      {
        tiles[y, x] := TileColor(x, y);
        x := x + 1;
      }
      y := y + 1;
    }
  }
}
