/** The kitchen's tile map as the game rules see it (the lookups of
    Code/GameUtils/FoodOnTileManager.swift): a rectangle of columns and rows whose
    cells may carry a named tile group. The grid is fixed for a level. */
module TileGrid {
  import opened Wrappers
  import opened Tiles

  /** `columns` by `rows` cells; `names` gives the tile-group name of the cells that have one. */
  datatype Grid = Grid(columns: nat, rows: nat, names: map<TilePoint, string>)

  predicate InBounds(g: Grid, p: TilePoint) {
    0 <= p.x < g.columns && 0 <= p.y < g.rows
  }

  /** `tileMap.tileGroup(atColumn:row:)?.name`: no name outside the map or on a cell
      without a group. */
  function GroupName(g: Grid, p: TilePoint): Option<string> {
    if InBounds(g, p) && p in g.names then Some(g.names[p]) else None
  }

  /** `tileGroup(at:)`: the kind named by the cell's group, or `Unknown` when the cell
      has no group or its name is not a kind's raw value. */
  function TileGroupAt(g: Grid, p: TilePoint): (t: TileType)
    ensures GroupName(g, p) == Some(t.RawValue()) || t == Unknown
    ensures GroupName(g, p).None? ==> t == Unknown
    ensures forall k: TileType :: GroupName(g, p) == Some(k.RawValue()) ==> t == k
  {
    FromRawValue(GroupName(g, p).GetOr("")).GetOr(Unknown)
  }

  /** Whether the enumeration collects cell (column, row) for kind `t`: its group name
      is `t`'s raw value. */
  predicate Collects(g: Grid, t: TileType, column: int, row: int) {
    GroupName(g, TilePoint(column, row)) == Some(t.RawValue())
  }

  /** The matching cells of one column, rows `0 ..< rows`, in row order. */
  function ColumnCells(g: Grid, t: TileType, column: int, rows: nat): seq<TilePoint> {
    if rows == 0 then []
    else ColumnCells(g, t, column, rows - 1)
         + (if Collects(g, t, column, rows - 1) then [TilePoint(column, rows - 1)] else [])
  }

  /** The matching cells of columns `0 ..< columns`, column after column. */
  function GridCells(g: Grid, t: TileType, columns: nat): seq<TilePoint> {
    if columns == 0 then []
    else GridCells(g, t, columns - 1) + ColumnCells(g, t, columns - 1, g.rows)
  }

  /** The positions `getPositionsOfTileGroup` returns, specified column-major. */
  function Positions(g: Grid, t: TileType): seq<TilePoint> {
    GridCells(g, t, g.columns)
  }

  /** `getPositionsOfTileGroup(for:)`: the nested loops over columns, then rows. */
  method GetPositionsOfTileGroup(g: Grid, t: TileType) returns (positions: seq<TilePoint>)
    ensures positions == Positions(g, t)
  {
    positions := [];
    var column := 0;
    while column < g.columns
      invariant 0 <= column <= g.columns
      invariant positions == GridCells(g, t, column)
    {
      var row := 0;
      while row < g.rows
        invariant 0 <= row <= g.rows
        invariant positions == GridCells(g, t, column) + ColumnCells(g, t, column, row)
      {
        if GroupName(g, TilePoint(column, row)) == Some(t.RawValue()) {
          positions := positions + [TilePoint(column, row)];
        }
        row := row + 1;
      }
      column := column + 1;
    }
  }

  // ---------------------------------------------------------------------------
  // Properties of the enumeration
  // ---------------------------------------------------------------------------

  /** Strictly increasing in column-major order: column first, then row. */
  predicate Before(p: TilePoint, q: TilePoint) {
    p.x < q.x || (p.x == q.x && p.y < q.y)
  }

  predicate ColumnMajor(s: seq<TilePoint>) {
    forall i, j :: 0 <= i < j < |s| ==> Before(s[i], s[j])
  }

  lemma {:induction false} ColumnCellsSpec(g: Grid, t: TileType, column: int, rows: nat)
    ensures forall p :: p in ColumnCells(g, t, column, rows) <==>
      p.x == column && 0 <= p.y < rows && Collects(g, t, p.x, p.y)
    ensures ColumnMajor(ColumnCells(g, t, column, rows))
  {
    if rows > 0 {
      ColumnCellsSpec(g, t, column, rows - 1);
    }
  }

  lemma {:induction false} GridCellsSpec(g: Grid, t: TileType, columns: nat)
    ensures forall p :: p in GridCells(g, t, columns) <==>
      0 <= p.x < columns && 0 <= p.y < g.rows && Collects(g, t, p.x, p.y)
    ensures ColumnMajor(GridCells(g, t, columns))
  {
    if columns > 0 {
      GridCellsSpec(g, t, columns - 1);
      ColumnCellsSpec(g, t, columns - 1, g.rows);
      var left, right := GridCells(g, t, columns - 1), ColumnCells(g, t, columns - 1, g.rows);
      forall i, j | 0 <= i < j < |left + right| ensures Before((left + right)[i], (left + right)[j]) {
        if j >= |left| && i < |left| {
          assert left[i] in left && right[j - |left|] in right;
        }
      }
    }
  }

  /** The enumeration lists each cell whose group name is `t`'s raw value, and nothing
      else; it lists them column by column, each column from row 0 up, so no cell twice. */
  lemma PositionsSpec(g: Grid, t: TileType)
    ensures forall p :: p in Positions(g, t) <==> InBounds(g, p) && GroupName(g, p) == Some(t.RawValue())
    ensures ColumnMajor(Positions(g, t))
    ensures forall i, j :: 0 <= i < j < |Positions(g, t)| ==> Positions(g, t)[i] != Positions(g, t)[j]
  {
    GridCellsSpec(g, t, g.columns);
  }

  /** For every kind but `Unknown`, the enumeration gives exactly the cells
      `tileGroup(at:)` classifies as that kind. Cells with no group are classified
      `Unknown` but are not enumerated as `Unknown`. */
  lemma PositionsAreCellsOfKind(g: Grid, t: TileType, p: TilePoint)
    ensures t != Unknown ==> (p in Positions(g, t) <==> InBounds(g, p) && TileGroupAt(g, p) == t)
    ensures GroupName(g, p).None? ==> TileGroupAt(g, p) == Unknown && p !in Positions(g, Unknown)
  {
    PositionsSpec(g, t);
    PositionsSpec(g, Unknown);
    RawValueRoundTrip(t, t.RawValue());
    if GroupName(g, p).Some? {
      RawValueRoundTrip(TileGroupAt(g, p), GroupName(g, p).value);
    }
  }
}
