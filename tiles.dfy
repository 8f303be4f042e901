/** Tile kinds (Code/DataTypes/TileType.swift) and tile coordinates
    (Code/DataTypes/TilePoint.swift). */
module Tiles {
  import opened Wrappers

  /** `enum TileType: String`, cases in declaration order. */
  datatype TileType = Counter | Machine | Floor | Table | Sink | Trashcan | Unknown {
    /** The string raw value, which is also the name of the tile group in the tile map. */
    function RawValue(): string {
      match this
      case Counter => "Counter"
      case Machine => "Machine"
      case Floor => "Floor"
      case Table => "Table"
      case Sink => "Sink"
      case Trashcan => "Trashcan"
      case Unknown => "Unknown"
    }
  }

  /** The failable initialiser `TileType(rawValue:)`. */
  function FromRawValue(name: string): Option<TileType> {
    if name == "Counter" then Some(Counter)
    else if name == "Machine" then Some(Machine)
    else if name == "Floor" then Some(Floor)
    else if name == "Table" then Some(Table)
    else if name == "Sink" then Some(Sink)
    else if name == "Trashcan" then Some(Trashcan)
    else if name == "Unknown" then Some(Unknown)
    else None
  }

  /** Reading a kind back from its raw value gives the kind, and a name is only
      recognised when it is the raw value of what it yields. */
  lemma RawValueRoundTrip(t: TileType, name: string)
    ensures FromRawValue(t.RawValue()) == Some(t)
    ensures FromRawValue(name) == Some(t) ==> t.RawValue() == name
  {
  }

  /** The seven raw values are pairwise distinct. */
  lemma {:induction false} RawValuesDistinct(a: TileType, b: TileType)
    requires a != b
    ensures a.RawValue() != b.RawValue()
  {
    RawValueRoundTrip(a, a.RawValue());
    RawValueRoundTrip(b, b.RawValue());
  }

  /** `TileType.placeable`: whether food may be set down on the tile. */
  predicate Placeable(t: TileType) {
    match t
    case Counter | Machine | Table | Sink | Trashcan => true
    case Floor | Unknown => false
  }

  /** Food can rest everywhere except on the floor and on unrecognised tiles. */
  lemma PlaceableExceptFloorAndUnknown(t: TileType)
    ensures Placeable(t) <==> t != Floor && t != Unknown
  {
  }

  /** `struct TilePoint: Hashable`: `x` is the column and `y` the row. */
  datatype TilePoint = TilePoint(x: int, y: int) {
    /** The computed accessor `column`. */
    function Column(): int { x }
    /** The computed accessor `row`. */
    function Row(): int { y }
    /** What `hash(into:)` feeds to the hasher: `x`, then `y`. */
    function HashInput(): seq<int> { [x, y] }
  }

  /** The deprecated initialiser `init(x:y:)`. */
  function PointFromXY(x: int, y: int): TilePoint {
    TilePoint(x, y)
  }

  /** The initialiser `init(column:row:)`. */
  function PointAt(column: int, row: int): (p: TilePoint)
    ensures p.Column() == column && p.Row() == row
  {
    TilePoint(column, row)
  }

  /** Both initialisers build the same point from the same integers, and the
      accessors give those integers back. */
  lemma InitialisersAgree(a: int, b: int)
    ensures PointFromXY(a, b) == PointAt(a, b)
    ensures PointAt(a, b).x == a && PointAt(a, b).y == b
  {
  }

  /** Equality and hashing both look at exactly `x` and `y`, so equal points hash alike. */
  lemma {:induction false} EqualityAndHash(p: TilePoint, q: TilePoint)
    ensures p == q <==> p.x == q.x && p.y == q.y
    ensures p == q <==> p.HashInput() == q.HashInput()
  {
    if p.HashInput() == q.HashInput() {
      assert p.HashInput()[0] == q.HashInput()[0];
      assert p.HashInput()[1] == q.HashInput()[1];
    }
  }
}
