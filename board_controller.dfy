/** The round controller: a small state machine over the busy and game-over
    flags that moves a tapped tile's item into the tray, frees and removes
    the cell, and decides between losing (tray filled) and winning (board
    emptied), the loss being latched first. */
module Round {
  import opened Collections
  import opened Items
  import opened Matching
  import opened Cells
  import opened Levels
  import opened Boards
  import opened Slots

  /** The game manager's states the controller listens to. */
  datatype GameState = Setup | MainMenu | GameStarted | Pause | GameOver

  /** The controller's own signals: a finished move, a won or a lost level. */
  datatype RoundEvent = Moved | LevelComplete | LevelFailed

  /** The controller's answers to the tray's signals, in the order they are
      raised: a slots-full signal is answered by a level-failed signal and a
      match signal by nothing but a log line. */
  function Answers(ev: seq<SlotsEvent>): (r: seq<RoundEvent>)
    ensures LevelFailed in r <==> SlotsFull in ev
    ensures Moved !in r && LevelComplete !in r
  {
    if ev == [] then []
    else
      Answers(ev[..|ev| - 1]) + (if ev[|ev| - 1] == SlotsFull then [LevelFailed] else [])
  }

  lemma AnswersOfPlacement(matched: bool, full: bool)
    ensures Answers((if matched then [ItemsMatched(3)] else []) + (if full then [SlotsFull] else [])) ==
      if full then [LevelFailed] else []
  {
    var ev := (if matched then [ItemsMatched(3)] else []) + (if full then [SlotsFull] else []);
    if matched {
      assert ev[..1] == [ItemsMatched(3)];
      assert Answers([ItemsMatched(3)]) == [];
    }
  }

  class LayeredBoardController {
    var isBusy: bool
    var gameOver: bool
    var board: LayeredBoard
    const slots: BottomSlotsManager
    const currentLevel: LevelData

    ghost predicate Valid()
      reads this, board, slots
    {
      board.Valid() && slots.Valid() && currentLevel.tiles.Some?
    }

    /** StartGame: keeps the given level when it is present and valid and
        otherwise generates level 1 with one layer and defaultTileCount
        tiles (an Inspector setting, 18 unless changed); builds the board
        from it with fresh cells and items, uses the given tray or a new
        one of default capacity, and clears both flags. */
    constructor StartGame(level: Option<LevelData>, tray: Option<BottomSlotsManager>,
                          defaultTileCount: int, typeCount: nat, oracle: Oracle)
      requires typeCount > 0
      requires tray.Some? ==> tray.value.Valid()
      ensures Valid() && !isBusy && !gameOver
      ensures currentLevel ==
        if level.Some? && IsValid(level.value) then level.value
        else GeneratedLevel(1, 1, defaultTileCount, typeCount, oracle)
      ensures fresh(board) && board.BuiltFrom(currentLevel.tiles.value)
      ensures forall i :: 0 <= i < |board.cells| ==> fresh(board.cells[i]) && fresh(board.cells[i].item.value)
      ensures tray.Some? ==> slots == tray.value && slots.items == tray.value.items
      ensures tray.None? ==> fresh(slots) && slots.items == [] && slots.maxSlots == 5
    {
      var lvl;
      if level.None? || !IsValid(level.value) {
        lvl := CreateRandomLevel(1, 1, defaultTileCount, typeCount, oracle);
        GeneratedLevelShape(1, 1, defaultTileCount, typeCount, oracle);
      } else {
        lvl := level.value;
      }
      var b := new LayeredBoard();
      b.CreateBoard(lvl);
      var s;
      if tray.Some? {
        s := tray.value;
      } else {
        s := new BottomSlotsManager(5);
      }
      board, slots, currentLevel := b, s, lvl;
      isBusy, gameOver := false, false;
    }

    /** GAME_STARTED clears both flags, PAUSE sets busy, GAME_OVER sets
        game-over; the other states change nothing. */
    method OnGameStateChange(state: GameState)
      modifies this
      ensures board == old(board)
      ensures state == GameStarted ==> !isBusy && !gameOver
      ensures state == Pause ==> isBusy && gameOver == old(gameOver)
      ensures state == GameOver ==> gameOver && isBusy == old(isBusy)
      ensures state in {Setup, MainMenu} ==> isBusy == old(isBusy) && gameOver == old(gameOver)
    {
      match state {
        case GameStarted =>
          isBusy := false;
          gameOver := false;
        case Pause =>
          isBusy := true;
        case GameOver =>
          gameOver := true;
        case _ =>
      }
    }

    /** A frame's input step: nothing happens while the round is over or a
        move is in flight; otherwise a tap on a cell holding an item is a
        tile click. */
    method Update(tap: Option<TileCell>) returns (events: seq<RoundEvent>)
      requires Valid()
      modifies this, slots, board, if tap.Some? then {tap.value} else {}
      ensures Valid() && board == old(board)
      ensures old(gameOver) || old(isBusy) || tap.None? || !old(CanTake(tap.value)) ==>
        events == [] && isBusy == old(isBusy) && gameOver == old(gameOver) &&
        slots.items == old(slots.items) && board.cells == old(board.cells) &&
        (tap.Some? ==> unchanged(tap.value))
      ensures !old(gameOver) && !old(isBusy) && tap.Some? && old(CanTake(tap.value)) ==>
        Clicked(tap.value, old(tap.value.item), events)
    {
      if gameOver || isBusy {
        return [];
      }
      match tap
      case None =>
        return [];
      case Some(cell) =>
        if cell.IsAvailable() {
          events := OnTileClicked(cell);
        } else {
          events := [];
        }
    }

    /** A click on the cell is accepted: the cell holds an item and the
        tray has a free slot. */
    predicate CanTake(cell: TileCell)
      reads this, slots, cell
    {
      cell.item.Some? && |slots.items| < slots.maxSlots
    }

    /** The outcome of an accepted click on a cell that held item: the item
        went into the tray, which resolved at most one match; the cell was
        freed, keeping its place and links, and taken off the board; the
        move was reported; the level was lost if the tray was full after
        the insertion, and won if it was not, the round was still running
        and the board is now empty. */
    twostate predicate Clicked(cell: TileCell, item: Option<Item>, events: seq<RoundEvent>)
      reads this, slots, board, board.cells, cell
    {
      var lost := |old(slots.items)| + 1 >= slots.maxSlots;
      var won := !old(gameOver) && !lost && board.IsEmpty();
      item.Some? &&
      slots.items == AfterMatch(old(slots.items) + [item.value]) &&
      cell.item == None && cell.PlaceKept() &&
      board.cells == RemoveFirst(old(board.cells), cell) &&
      !isBusy &&
      gameOver == (old(gameOver) || lost || board.IsEmpty()) &&
      events == (if lost then [LevelFailed] else []) + [Moved] + (if won then [LevelComplete] else [])
    }

    /** A click on a cell with no item, or while the tray is full, changes
        nothing. Otherwise the controller turns busy, adds the item to the
        tray and, when the item has landed, dispatches the tray's signals
        and runs the move's continuation. */
    method OnTileClicked(cell: TileCell) returns (events: seq<RoundEvent>)
      requires Valid()
      modifies this, slots, board, cell
      ensures Valid() && board == old(board)
      ensures !old(CanTake(cell)) ==>
        events == [] && isBusy == old(isBusy) && gameOver == old(gameOver) &&
        slots.items == old(slots.items) && board.cells == old(board.cells) && unchanged(cell)
      ensures old(CanTake(cell)) ==> Clicked(cell, old(cell.item), events)
      ensures !(LevelFailed in events && LevelComplete in events)
    {
      if cell.item.None? {
        return [];
      }
      if slots.IsFull() {
        return [];
      }
      isBusy := true;
      var itemToMove := cell.item.value;
      ghost var items0, over0 := slots.items, gameOver;
      var failed := PlaceInTray(itemToMove);
      ghost var lost := |items0| + 1 >= slots.maxSlots;
      assert gameOver == (over0 || lost);
      var rest := CompleteMove(cell);
      events := failed + rest;
      ghost var won := !over0 && !lost && board.IsEmpty();
      assert rest == [Moved] + (if won then [LevelComplete] else []);
      assert events == (if lost then [LevelFailed] else []) + [Moved] + (if won then [LevelComplete] else []);
    }

    /** The tray's part of a click: the item is added, the tray resolves a
        match when the item lands, and its signals are dispatched. */
    method PlaceInTray(item: Item) returns (events: seq<RoundEvent>)
      requires Valid() && |slots.items| < slots.maxSlots
      modifies this, slots
      ensures Valid() && board == old(board)
      ensures slots.items == AfterMatch(old(slots.items) + [item])
      ensures var lost := |old(slots.items)| + 1 >= slots.maxSlots;
        events == (if lost then [LevelFailed] else []) &&
        gameOver == (old(gameOver) || lost) &&
        (lost ==> !isBusy) && (!lost ==> isBusy == old(isBusy))
    {
      ghost var items0 := slots.items;
      var placed, refused := slots.AddItem(item);
      var trayEvents := slots.CompletePlacement();
      ghost var lost := |items0| + 1 >= slots.maxSlots;
      AnswersOfPlacement(MatchType(items0 + [item]).Some?, lost);
      events := DispatchSlotsEvents(trayEvents);
    }

    /** The continuation run when the item has landed: free the cell, take
        it off the board, clear busy, report the move, and check for a win
        unless the round is already over. */
    method CompleteMove(cell: TileCell) returns (events: seq<RoundEvent>)
      requires Valid()
      modifies this, board, cell
      ensures Valid() && board == old(board)
      ensures cell.item == None && cell.PlaceKept() && board.cells == RemoveFirst(old(board.cells), cell)
      ensures !isBusy && gameOver == (old(gameOver) || board.IsEmpty())
      ensures events == [Moved] + (if !old(gameOver) && board.IsEmpty() then [LevelComplete] else [])
    {
      cell.Free();
      board.OnCellRemoved(cell);
      isBusy := false;
      events := [Moved];
      if !gameOver {
        var win := CheckWinCondition();
        events := events + win;
      }
    }

    /** Passes the tray's signals, in order, to their handlers. */
    method DispatchSlotsEvents(trayEvents: seq<SlotsEvent>) returns (events: seq<RoundEvent>)
      modifies this
      ensures board == old(board)
      ensures events == Answers(trayEvents)
      ensures SlotsFull in trayEvents ==> gameOver && !isBusy
      ensures SlotsFull !in trayEvents ==> gameOver == old(gameOver) && isBusy == old(isBusy)
    {
      events := [];
      for i := 0 to |trayEvents|
        invariant board == old(board)
        invariant events == Answers(trayEvents[..i])
        invariant SlotsFull in trayEvents[..i] ==> gameOver && !isBusy
        invariant SlotsFull !in trayEvents[..i] ==> gameOver == old(gameOver) && isBusy == old(isBusy)
      {
        assert trayEvents[..i + 1][..i] == trayEvents[..i];
        if trayEvents[i] == SlotsFull {
          var failed := OnBottomSlotsFull();
          events := events + failed;
        } else {
          var none := OnItemsMatched(trayEvents[i].count);
          events := events + none;
        }
      }
      assert trayEvents[..|trayEvents|] == trayEvents;
    }

    /** The win check: an empty board ends the round as won. */
    method CheckWinCondition() returns (events: seq<RoundEvent>)
      modifies this
      ensures board == old(board) && isBusy == old(isBusy)
      ensures board.IsEmpty() ==> gameOver && events == [LevelComplete]
      ensures !board.IsEmpty() ==> gameOver == old(gameOver) && events == []
    {
      if board.IsEmpty() {
        gameOver := true;
        return [LevelComplete];
      }
      return [];
    }

    /** The slots-full handler: the round is over and lost. */
    method OnBottomSlotsFull() returns (events: seq<RoundEvent>)
      modifies this
      ensures board == old(board)
      ensures !isBusy && gameOver && events == [LevelFailed]
    {
      isBusy := false;
      gameOver := true;
      events := [LevelFailed];
    }

    /** The match handler only logs: it raises no signal and changes no
        state. */
    method OnItemsMatched(count: nat) returns (events: seq<RoundEvent>)
      ensures events == []
    {
      events := [];
    }

    /** Clears the board and the tray. */
    method Clear()
      requires Valid()
      modifies board, board.cells, slots
      ensures Valid()
      ensures board.cells == [] && slots.items == []
      ensures forall c :: c in old(board.cells) ==> c.item == None && c.LinksEmpty()
    {
      board.Clear();
      slots.Clear();
    }

    /** Clears, rebuilds the board from the current level and reopens the
        round. */
    method RestartLevel()
      requires Valid()
      modifies this, board, board.cells, slots
      ensures Valid() && !isBusy && !gameOver
      ensures fresh(board) && board.BuiltFrom(currentLevel.tiles.value)
      ensures forall i :: 0 <= i < |board.cells| ==> fresh(board.cells[i]) && fresh(board.cells[i].item.value)
      ensures slots.items == []
      ensures forall c :: c in old(board.cells) ==> c.item == None && c.LinksEmpty()
    {
      Clear();
      board := new LayeredBoard();
      board.CreateBoard(currentLevel);
      isBusy := false;
      gameOver := false;
    }
  }
}
