/**
 * `MBTileManager.GetTile`: the map-tile lookup of the file-system sample.
 * Tiles are requested in XYZ order, where row 0 is the top, but an MBTiles
 * file stores them in TMS order, where row 0 is the bottom; so the row is
 * flipped before the query.
 *
 * The SQLite connection becomes `connected` and the query `query`, a
 * function of the three numbers the SQL text is formatted from.
 * `(long)Math.Pow(2, z)` is exact for 0 <= z <= 62 and 0 for negative z;
 * above 62 the conversion of an out-of-range `double` depends on the
 * runtime, so it is the parameter `hugePower`.
 */
module MBTileManager {
  import opened Wrappers
  import opened Text

  /** A row of the `tiles` table. */
  datatype TileResult = TileResult(tileData: Option<Bytes>, tileRow: int, tileColumn: int, zoomLevel: int)

  function Pow2(z: nat): (r: nat)
    ensures r >= 1
  {
    if z == 0 then 1 else 2 * Pow2(z - 1)
  }

  /** `(long)Math.Pow(2, z)`. */
  function PowerAsLong(z: int, hugePower: int -> int): (r: int)
    ensures 0 <= z <= 62 ==> r == Pow2(z)
    ensures z < 0 ==> r == 0
  {
    if z < 0 then 0 else if z <= 62 then Pow2(z) else hugePower(z)
  }

  /** The TMS row of XYZ row `y` at zoom `z`: `2^z - 1 - y` in 64-bit arithmetic. */
  function FlipRow(y: int, z: int, hugePower: int -> int): (r: int)
    ensures IsInt64(r)
  {
    Wrap64(Wrap64(PowerAsLong(z, hugePower) - 1) - y)
  }

  /** For a row on the map at that zoom, the flip is exact and stays on the map. */
  lemma {:induction false} FlipInRange(y: int, z: nat, hugePower: int -> int)
    requires z <= 62 && 0 <= y < Pow2(z)
    ensures FlipRow(y, z, hugePower) == Pow2(z) - 1 - y
    ensures 0 <= FlipRow(y, z, hugePower) < Pow2(z)
  {
    Pow2Bound(z);
  }

  lemma Pow2Bound(z: nat)
    requires z <= 62
    ensures Pow2(z) <= TwoTo64 / 4
  {
    Pow2Monotone(z, 62);
    Pow2Of62();
  }

  /** 2^62, by squaring 2^16 twice and dividing 2^64 by four. */
  lemma Pow2Of62()
    ensures Pow2(62) == TwoTo64 / 4
  {
    Pow2Of32();
    Pow2Add(32, 32);
    Pow2Add(62, 2);
    assert Pow2(2) == 4;
  }

  lemma Pow2Of32()
    ensures Pow2(32) == TwoTo32
  {
    Pow2Of16();
    Pow2Add(16, 16);
  }

  lemma Pow2Of16()
    ensures Pow2(16) == 0x1_0000
  {
    Pow2Add(8, 8);
    Pow2Add(4, 4);
    Pow2Add(2, 2);
    assert Pow2(2) == 4;
  }

  lemma {:induction false} Pow2Add(a: nat, b: nat)
    ensures Pow2(a + b) == Pow2(a) * Pow2(b)
  {
    if a > 0 {
      Pow2Add(a - 1, b);
    }
  }

  lemma {:induction false} Pow2Monotone(a: nat, b: nat)
    requires a <= b
    ensures Pow2(a) <= Pow2(b)
    decreases b - a
  {
    if a < b {
      Pow2Monotone(a, b - 1);
    }
  }

  /** Flipping twice gives back any 64-bit row, at every zoom. */
  lemma FlipInvolution(y: int, z: int, hugePower: int -> int)
    requires IsInt64(y)
    ensures FlipRow(FlipRow(y, z, hugePower), z, hugePower) == y
  {
    var m := Wrap64(PowerAsLong(z, hugePower) - 1);
    Wrap64Reflect(m, y);
  }

  /**
   * `GetTile`: null without a connection or a coordinate; otherwise the
   * first row of the query for column `x`, the flipped row and zoom `z`,
   * when it has tile data.
   */
  function GetTile(connected: bool, x: Option<int>, y: Option<int>, z: Option<int>,
                   query: (int, int, int) -> seq<TileResult>, hugePower: int -> int): (r: Option<Bytes>)
    ensures !connected || x.None? || y.None? || z.None? ==> r.None?
    ensures r.Some? ==>
              var rows := query(x.value, FlipRow(y.value, z.value, hugePower), z.value);
              |rows| > 0 && rows[0].tileData == r
    ensures connected && x.Some? && y.Some? && z.Some? ==>
              var rows := query(x.value, FlipRow(y.value, z.value, hugePower), z.value);
              (r.Some? <==> |rows| > 0 && rows[0].tileData.Some?)
  {
    if connected && x.Some? && y.Some? && z.Some? then
      var rows := query(x.value, FlipRow(y.value, z.value, hugePower), z.value);
      if |rows| > 0 && rows[0].tileData.Some? then rows[0].tileData else None
    else None
  }

  /** The top-left tile of any zoom level up to 62 is looked up in the top TMS row. */
  lemma TopRowIsLastTmsRow(z: nat, hugePower: int -> int)
    requires z <= 62
    ensures FlipRow(0, z, hugePower) == Pow2(z) - 1
  {
    FlipInRange(0, z, hugePower);
  }
}
