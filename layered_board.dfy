/** The board: an ordered list of tile cells built from a level's tile
    list. Every cell that holds an item can be tapped; the blocking graph is
    switched off, so nothing else decides availability. */
module Boards {
  import opened Collections
  import opened Items
  import opened Cells
  import opened Levels

  /** The cells of cs that hold an item, in board order. */
  function AvailableOf(cs: seq<TileCell>): (r: seq<TileCell>)
    reads cs
    ensures |r| <= |cs|
    ensures forall c :: c in r ==> c in cs && c.IsAvailable()
    ensures forall c :: c in cs && c.IsAvailable() ==> c in r
    ensures NoDup(cs) ==> NoDup(r)
  {
    if cs == [] then []
    else
      var rest := AvailableOf(cs[1..]);
      assert NoDup(cs) ==> NoDup(cs[1..]) && cs[0] !in cs[1..];
      (if cs[0].IsAvailable() then [cs[0]] else []) + rest
  }

  /** The filter keeps the board order: filtering a concatenation filters
      each part in turn. */
  lemma {:induction false} AvailableOfConcat(a: seq<TileCell>, b: seq<TileCell>)
    ensures AvailableOf(a + b) == AvailableOf(a) + AvailableOf(b)
  {
    if a == [] {
      assert a + b == b;
    } else {
      assert (a + b)[1..] == a[1..] + b;
      AvailableOfConcat(a[1..], b);
    }
  }

  /** A single cell is kept exactly when it holds an item. */
  lemma AvailableOfCell(c: TileCell)
    ensures AvailableOf([c]) == if c.IsAvailable() then [c] else []
  {
    assert [c][1..] == [];
  }

  /** The number of cells of cs that are not empty. */
  function OccupiedCount(cs: seq<TileCell>): nat
    reads cs
  {
    if cs == [] then 0
    else (if !cs[0].IsEmpty() then 1 else 0) + OccupiedCount(cs[1..])
  }

  /** Counting the occupied cells and listing the available ones agree. */
  lemma {:induction false} OccupiedCountIsAvailableLength(cs: seq<TileCell>)
    ensures OccupiedCount(cs) == |AvailableOf(cs)|
  {
    if cs != [] {
      OccupiedCountIsAvailableLength(cs[1..]);
    }
  }

  /** No occupied cell is left exactly when every cell is empty. */
  lemma {:induction false} OccupiedCountZero(cs: seq<TileCell>)
    ensures OccupiedCount(cs) == 0 <==> forall c :: c in cs ==> c.IsEmpty()
  {
    if cs != [] {
      OccupiedCountZero(cs[1..]);
      assert forall c :: c in cs ==> c == cs[0] || c in cs[1..];
    }
  }

  /** The body of CreateBoard's loop: a cell set up at the tile's position
      on layer 0, holding a fresh item of the tile's type. */
  method NewCell(tile: TileData) returns (cell: TileCell)
    ensures fresh(cell) && cell.item.Some? && fresh(cell.item.value)
    ensures cell.boardX == tile.x && cell.boardY == tile.y && cell.layer == 0
    ensures cell.LinksEmpty() && cell.item.value.kind == tile.itemType
  {
    cell := new TileCell();
    cell.Setup(tile.x, tile.y, 0);
    var item := new Item(tile.itemType);
    cell.Assign(Some(item));
  }

  class LayeredBoard {
    /** All cells, in creation order. */
    var cells: seq<TileCell>

    /** No cell is listed twice. */
    ghost predicate Valid()
      reads this
    {
      NoDup(cells)
    }

    constructor ()
      ensures Valid() && cells == []
    {
      cells := [];
    }

    /** The cells are those of the tile list, one per entry and in order:
        same coordinates, layer 0, empty link lists and a fresh item of the
        entry's type. */
    ghost predicate BuiltFrom(tiles: seq<TileData>)
      reads this, cells
    {
      |cells| == |tiles| &&
      forall i :: 0 <= i < |cells| ==>
        cells[i].boardX == tiles[i].x && cells[i].boardY == tiles[i].y && cells[i].layer == 0 &&
        cells[i].LinksEmpty() && cells[i].item.Some? && cells[i].item.value.kind == tiles[i].itemType
    }

    /** Discards the old cells, then creates one cell per tile entry. */
    method CreateBoard(level: LevelData)
      requires level.tiles.Some?
      modifies this, cells
      ensures Valid() && BuiltFrom(level.tiles.value)
      ensures forall i :: 0 <= i < |cells| ==> fresh(cells[i]) && fresh(cells[i].item.value)
      ensures forall c :: c in old(cells) ==> c.item == None && c.LinksEmpty()
    {
      Clear();
      var tiles := level.tiles.value;
      for i := 0 to |tiles|
        invariant Valid() && BuiltFrom(tiles[..i])
        invariant forall j :: 0 <= j < |cells| ==> fresh(cells[j]) && fresh(cells[j].item.value)
        invariant forall c :: c in old(cells) ==> c.item == None && c.LinksEmpty()
      {
        var cell := NewCell(tiles[i]);
        assert cell !in cells;
        cells := cells + [cell];
      }
      assert tiles[..|tiles|] == tiles;
    }

    /** The cells that can be tapped, in board order. */
    function GetAvailableCells(): (r: seq<TileCell>)
      reads this, cells
      ensures forall c :: c in r ==> c in cells && c.IsAvailable()
      ensures forall c :: c in cells && c.IsAvailable() ==> c in r
      ensures Valid() ==> NoDup(r)
    {
      AvailableOf(cells)
    }

    /** Takes the first occurrence of the cell out of the list; the other
        cells keep their order. */
    method OnCellRemoved(removed: TileCell)
      requires Valid()
      modifies this
      ensures Valid() && removed !in cells
      ensures cells == RemoveFirst(old(cells), removed)
      ensures forall i :: 0 <= i < |old(cells)| && old(cells)[i] == removed ==>
        cells == old(cells)[..i] + old(cells)[i + 1..]
      ensures removed !in old(cells) ==> cells == old(cells)
    {
      ghost var before := cells;
      forall i | 0 <= i < |before| && before[i] == removed
        ensures RemoveFirst(before, removed) == before[..i] + before[i + 1..]
      {
        RemoveFirstAt(before, removed, i);
      }
      if removed !in before {
        RemoveFirstAbsent(before, removed);
      }
      RemoveFirstNoDup(cells, removed);
      cells := RemoveFirst(cells, removed);
    }

    /** No cell holds an item (a board without cells included). */
    function IsEmpty(): (r: bool)
      reads this, cells
      ensures r <==> OccupiedCount(cells) == 0
    {
      OccupiedCountZero(cells);
      |cells| == 0 || forall c :: c in cells ==> c.IsEmpty()
    }

    function HasAvailableMoves(): (r: bool)
      reads this, cells
      ensures r <==> exists c :: c in cells && c.IsAvailable()
      ensures r <==> !IsEmpty()
    {
      var available := GetAvailableCells();
      assert |available| > 0 ==> available[0] in available;
      |available| > 0
    }

    /** Clears every cell and empties the list. */
    method Clear()
      modifies this, cells
      ensures Valid() && cells == []
      ensures forall c :: c in old(cells) ==> c.item == None && c.LinksEmpty()
    {
      for i := 0 to |cells|
        invariant cells == old(cells)
        invariant forall j :: 0 <= j < i ==> cells[j].item == None && cells[j].LinksEmpty()
      {
        cells[i].Clear();
      }
      cells := [];
    }

    /** The number of cells still holding an item. */
    function GetRemainingItemCount(): (r: nat)
      reads this, cells
      ensures r == |GetAvailableCells()| && r <= |cells|
    {
      OccupiedCountIsAvailableLength(cells);
      OccupiedCount(cells)
    }

    /** Cells are unit squares; on integer coordinates two of them overlap
        exactly when they are at the same position. */
    function IsOverlapping(bottom: TileCell, top: TileCell): (r: bool)
      reads bottom, top
      ensures r <==> bottom.boardX == top.boardX && bottom.boardY == top.boardY
    {
      (Abs(top.boardX - bottom.boardX) as real) < 1.0 && (Abs(top.boardY - bottom.boardY) as real) < 1.0
    }
  }

  /** The board's three emptiness queries agree: it is empty exactly when no
      item remains, exactly when no move is available. */
  lemma BoardQueriesAgree(b: LayeredBoard)
    ensures b.IsEmpty() <==> b.GetRemainingItemCount() == 0
    ensures b.HasAvailableMoves() <==> !b.IsEmpty()
    ensures b.GetRemainingItemCount() == |b.GetAvailableCells()|
  {
    OccupiedCountZero(b.cells);
    OccupiedCountIsAvailableLength(b.cells);
  }
}
