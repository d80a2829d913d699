/** One tile position on the board: its coordinates, the item it holds and
    three link lists (blocking cells above, left and right neighbours) that
    are kept but never consulted for availability. */
module Cells {
  import opened Collections
  import opened Items

  function Abs(n: int): nat
  {
    if n < 0 then -n else n
  }

  class TileCell {
    var boardX: int
    var boardY: int
    var layer: int
    /** The held item; None stands for a null Item. */
    var item: Option<Item>
    var blockingAbove: seq<TileCell>
    var neighboursLeft: seq<TileCell>
    var neighboursRight: seq<TileCell>

    /** The link lists hold no cell twice: every insertion is guarded by a
        membership test. */
    ghost predicate Valid()
      reads this
    {
      NoDup(blockingAbove) && NoDup(neighboursLeft) && NoDup(neighboursRight)
    }

    predicate LinksEmpty()
      reads this
    {
      blockingAbove == [] && neighboursLeft == [] && neighboursRight == []
    }

    /** Everything but the item is as it was: the coordinates and the three
        link lists. */
    twostate predicate PlaceKept()
      reads this
    {
      boardX == old(boardX) && boardY == old(boardY) && layer == old(layer) &&
      blockingAbove == old(blockingAbove) && neighboursLeft == old(neighboursLeft) &&
      neighboursRight == old(neighboursRight)
    }

    constructor ()
      ensures Valid() && LinksEmpty() && item == None
      ensures boardX == 0 && boardY == 0 && layer == 0
    {
      boardX, boardY, layer := 0, 0, 0;
      item := None;
      blockingAbove, neighboursLeft, neighboursRight := [], [], [];
    }

    /** A cell can be tapped exactly when it holds an item. */
    function IsAvailable(): (r: bool)
      reads this
      ensures r <==> item != None
    {
      item.Some?
    }

    /** The negation of IsAvailable. */
    function IsEmpty(): (r: bool)
      reads this
      ensures r <==> !IsAvailable()
    {
      item == None
    }

    /** Records the coordinates and layer and empties the link lists. */
    method Setup(x: int, y: int, layer: int)
      modifies this
      ensures boardX == x && boardY == y && this.layer == layer
      ensures LinksEmpty() && Valid()
      ensures item == old(item)
    {
      boardX, boardY, this.layer := x, y, layer;
      blockingAbove, neighboursLeft, neighboursRight := [], [], [];
    }

    /** Places an item (or none) and empties the link lists. */
    method Assign(newItem: Option<Item>)
      modifies this
      ensures item == newItem && IsAvailable() == newItem.Some?
      ensures LinksEmpty() && Valid()
      ensures boardX == old(boardX) && boardY == old(boardY) && layer == old(layer)
    {
      item := newItem;
      blockingAbove, neighboursLeft, neighboursRight := [], [], [];
    }

    method Free()
      modifies this
      ensures item == None && !IsAvailable()
      ensures boardX == old(boardX) && boardY == old(boardY) && layer == old(layer)
      ensures blockingAbove == old(blockingAbove)
      ensures neighboursLeft == old(neighboursLeft) && neighboursRight == old(neighboursRight)
    {
      item := None;
    }

    /** Drops the item, if any, and then notifies the callback, when one is
        given, with this cell: also when the cell was already empty. */
    method RemoveItem(hasCallback: bool) returns (notified: Option<TileCell>)
      modifies this
      ensures item == None
      ensures notified == if hasCallback then Some(this) else None
      ensures boardX == old(boardX) && boardY == old(boardY) && layer == old(layer)
      ensures blockingAbove == old(blockingAbove)
      ensures neighboursLeft == old(neighboursLeft) && neighboursRight == old(neighboursRight)
    {
      if item.Some? {
        item := None;
      }
      notified := if hasCallback then Some(this) else None;
    }

    /** Drops the item and empties the link lists; the coordinates stay. */
    method Clear()
      modifies this
      ensures item == None && LinksEmpty() && Valid()
      ensures boardX == old(boardX) && boardY == old(boardY) && layer == old(layer)
    {
      if item.Some? {
        item := None;
      }
      blockingAbove, neighboursLeft, neighboursRight := [], [], [];
    }

    method AddBlockingCellAbove(c: TileCell)
      requires Valid()
      modifies this
      ensures Valid() && c in blockingAbove
      ensures blockingAbove == if c in old(blockingAbove) then old(blockingAbove) else old(blockingAbove) + [c]
      ensures item == old(item) && neighboursLeft == old(neighboursLeft) && neighboursRight == old(neighboursRight)
      ensures boardX == old(boardX) && boardY == old(boardY) && layer == old(layer)
    {
      if c !in blockingAbove {
        blockingAbove := blockingAbove + [c];
      }
    }

    method RemoveBlockingCellAbove(c: TileCell)
      requires Valid()
      modifies this
      ensures Valid() && c !in blockingAbove
      ensures blockingAbove == RemoveFirst(old(blockingAbove), c)
      ensures item == old(item) && neighboursLeft == old(neighboursLeft) && neighboursRight == old(neighboursRight)
      ensures boardX == old(boardX) && boardY == old(boardY) && layer == old(layer)
    {
      RemoveFirstNoDup(blockingAbove, c);
      blockingAbove := RemoveFirst(blockingAbove, c);
    }

    method AddNeighbourLeft(c: TileCell)
      requires Valid()
      modifies this
      ensures Valid() && c in neighboursLeft
      ensures neighboursLeft == if c in old(neighboursLeft) then old(neighboursLeft) else old(neighboursLeft) + [c]
      ensures item == old(item) && blockingAbove == old(blockingAbove) && neighboursRight == old(neighboursRight)
      ensures boardX == old(boardX) && boardY == old(boardY) && layer == old(layer)
    {
      if c !in neighboursLeft {
        neighboursLeft := neighboursLeft + [c];
      }
    }

    method AddNeighbourRight(c: TileCell)
      requires Valid()
      modifies this
      ensures Valid() && c in neighboursRight
      ensures neighboursRight == if c in old(neighboursRight) then old(neighboursRight) else old(neighboursRight) + [c]
      ensures item == old(item) && blockingAbove == old(blockingAbove) && neighboursLeft == old(neighboursLeft)
      ensures boardX == old(boardX) && boardY == old(boardY) && layer == old(layer)
    {
      if c !in neighboursRight {
        neighboursRight := neighboursRight + [c];
      }
    }

    method RemoveNeighbourLeft(c: TileCell)
      requires Valid()
      modifies this
      ensures Valid() && c !in neighboursLeft
      ensures neighboursLeft == RemoveFirst(old(neighboursLeft), c)
      ensures item == old(item) && blockingAbove == old(blockingAbove) && neighboursRight == old(neighboursRight)
      ensures boardX == old(boardX) && boardY == old(boardY) && layer == old(layer)
    {
      RemoveFirstNoDup(neighboursLeft, c);
      neighboursLeft := RemoveFirst(neighboursLeft, c);
    }

    method RemoveNeighbourRight(c: TileCell)
      requires Valid()
      modifies this
      ensures Valid() && c !in neighboursRight
      ensures neighboursRight == RemoveFirst(old(neighboursRight), c)
      ensures item == old(item) && blockingAbove == old(blockingAbove) && neighboursLeft == old(neighboursLeft)
      ensures boardX == old(boardX) && boardY == old(boardY) && layer == old(layer)
    {
      RemoveFirstNoDup(neighboursRight, c);
      neighboursRight := RemoveFirst(neighboursRight, c);
    }

    /** On integer coordinates the float test |dy| < 0.5 admits only dy = 0,
        so a left neighbour is the cell one column to the left, same row. */
    function IsLeftNeighbour(other: TileCell): (r: bool)
      reads this, other
      ensures r <==> other.boardX == boardX - 1 && other.boardY == boardY
    {
      other.boardX < boardX &&
      (Abs(other.boardY - boardY) as real) < 0.5 &&
      Abs(other.boardX - boardX) <= 1
    }

    function IsRightNeighbour(other: TileCell): (r: bool)
      reads this, other
      ensures r <==> other.boardX == boardX + 1 && other.boardY == boardY
    {
      other.boardX > boardX &&
      (Abs(other.boardY - boardY) as real) < 0.5 &&
      Abs(other.boardX - boardX) <= 1
    }
  }
}
