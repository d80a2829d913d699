# Tile-match round engine, modelled in Dafny

This project models the game-state engine of a Unity puzzle in which the
player taps tiles on a board. Each tapped tile's item moves into a bounded
tray of slots (five by default). Three items of one type in the tray
cancel out. The round is lost when the tray fills and won when the board
is emptied. The model follows the C# sources part by part:

- **Tray** (`Slots`, with the matching rule in `Matching`).
  - `BottomSlotsManager` is a class holding an ordered `seq<Item>`.
  - Placing an item has two phases. `AddItem` appends the item.
    `CompletePlacement` is the tween's completion callback, run
    synchronously. It samples fullness, resolves at most one group of three
    and then raises the slots-full signal.
  - The group to resolve is the first one, in the grouping dictionary's
    key order, that holds three items. .NET does not promise an enumeration
    order for `Dictionary`, so the model chooses the tie-break: keys in
    insertion order, that is, the first-occurrence order of the types. This
    matches what the current runtime does for a dictionary from which no key
    has been removed, which is the only kind the tray builds.
  - The sequence of `List.Remove` calls is proved equal to "drop the first
    three items of that type".
- **Board** (`Boards`, `Cells`).
  - `LayeredBoard` holds an ordered `seq<TileCell>`.
  - A `TileCell` holds coordinates, an optional item and three link lists.
    The lists are kept, but availability depends only on whether the cell
    holds an item.
- **Round controller** (`Round`).
  - `LayeredBoardController` flips `isBusy`/`gameOver`.
  - A tap is modelled as one call. It returns the signals the controller
    raises (`Moved`, `LevelComplete`, `LevelFailed`), in order.
- **Level generator and validator** (`Levels`).
  - The generator rounds the tile count up to a multiple of three, builds
    the types in triples, shuffles them with Fisher–Yates, and places them
    on a fixed template.
  - The seeded `System.Random` is an oracle `(seed, n) -> nat` giving the
    raw value of the n-th draw. A draw in `[lo, hi)` is `lo + raw % (hi - lo)`.
  - The number of item types (the enum's length) is a parameter `typeCount > 0`.
- **Move counter** (`Moves`, with decimal printing in `Text`).
  - `LevelMoves` is a counter that decrements and then latches.
  - Its label is `"MOVES:\n"` followed by the count.

Events are returned as lists of signals, not invoked through delegates.
Integers are unbounded. A `null` reference is `None` of `Option`.

## Capacity three loses

A round is expected to be winnable with a tray of three or more slots.
The code does not allow this with exactly three:
- `CompletePlacement` samples `IsFull` after the insertion and before the
  match (`BottomSlotsManager.cs:121-133`).
- So the third item in a three-slot tray always raises the slots-full
  signal, even when it completes a match.
- The controller then latches the loss (`LayeredBoardController.cs:178-186`)
  and skips the win check (`:156`).

The model follows the code. `Slots.BottomSlotsManager.CompletePlacement`
and `Round.LayeredBoardController.Clicked` state this outcome: the round is
lost exactly when `|items| + 1 >= maxSlots` after the insertion, whatever
the match does.

## Model

| member | source | states |
|---|---|---|
| Slots.BottomSlotsManager.constructor | Assets/Scripts/BottomSlotsManager.cs:10-20 | a new tray is empty, holds the given slot count, and satisfies the capacity invariant |
| Slots.BottomSlotsManager.IsFull | Assets/Scripts/BottomSlotsManager.cs:23 | with the capacity invariant, the tray is full exactly when it holds as many items as it has slots |
| Slots.BottomSlotsManager.ItemCount | Assets/Scripts/BottomSlotsManager.cs:24 | the count never exceeds the capacity and is zero exactly when the tray is empty |
| Slots.BottomSlotsManager.AddItem | Assets/Scripts/BottomSlotsManager.cs:88-107 | a full tray (count ≥ maxSlots) refuses the item, keeps its list and raises the slots-full signal; otherwise the item is appended at the end, at index count-1, and no signal is raised; the count never exceeds the capacity |
| Slots.BottomSlotsManager.CompletePlacement | Assets/Scripts/BottomSlotsManager.cs:114-139 | the list becomes the list after one match check; the signals are one match signal (count 3) when a group was resolved, followed by the slots-full signal exactly when the tray was full before the match, even if the match freed slots |
| Slots.BottomSlotsManager.CheckForMatches | Assets/Scripts/BottomSlotsManager.cs:149-179 | with fewer than three items nothing changes; otherwise the first three items of the chosen type are removed and 3 is reported, or 0 when no type has three |
| Slots.GroupByType | Assets/Scripts/BottomSlotsManager.cs:153-168 | the dictionary loop yields exactly the grouping: keys in first-occurrence order, each group the items of its type in list order |
| Slots.GroupedSnoc | Assets/Scripts/BottomSlotsManager.cs:155-167 | one iteration of the grouping loop (open a group if the key is new, append the item) keeps the grouping exact |
| Slots.FindTripleGroup | Assets/Scripts/BottomSlotsManager.cs:170-178 | the scan over the dictionary stops at the first key whose group holds three or more items, having passed only groups of fewer than three |
| Slots.ScanStopsAtMatch | Assets/Scripts/BottomSlotsManager.cs:170-176 | when the scan stops at a key, that key is the resolved type and removing its group's first three items is the list after the match |
| Slots.ScanFindsNothing | Assets/Scripts/BottomSlotsManager.cs:170-178 | when the scan passes every key, no type is resolved and the list is unchanged |
| Slots.BottomSlotsManager.RemoveMatchedItems | Assets/Scripts/BottomSlotsManager.cs:181-191 | the list is the old list with each given item removed in turn by List.Remove, and the reported count is the number of items given |
| Slots.BottomSlotsManager.Clear | Assets/Scripts/BottomSlotsManager.cs:213-224 | the tray is left empty |
| Slots.CountByType | Assets/Scripts/BottomSlotsManager.cs:230-245 | the counting loop records, for every type present, exactly how many items of that type the tray holds, and no absent type |
| Slots.BottomSlotsManager.CanMatch | Assets/Scripts/BottomSlotsManager.cs:226-248 | true with fewer than three items; otherwise true exactly when some item's type occurs at least three times |
| Matching.OfType | Assets/Scripts/BottomSlotsManager.cs:157-166 | a group is no longer than the list and holds only items of its type |
| Matching.TypesInOrder | Assets/Scripts/BottomSlotsManager.cs:161-164 | the key list contains every item's type and no type twice |
| Matching.FirstWithTriple | Assets/Scripts/BottomSlotsManager.cs:170-178 | a found key is among the keys and has at least three items; no key is found only when every key has fewer than three |
| Matching.CountedTypeIsKey | Assets/Scripts/BottomSlotsManager.cs:161-164 | every type the tray holds is a key of the dictionary |
| Matching.KeysArePresentTypes | Assets/Scripts/BottomSlotsManager.cs:157-164 | every key of the dictionary is the type of some item in the tray |
| Matching.FirstWithTripleSkips | Assets/Scripts/BottomSlotsManager.cs:170-173 | keys whose groups have fewer than three items do not change the scan's outcome |
| Matching.ScanFindsEarliest | Assets/Scripts/BottomSlotsManager.cs:155-178 | scanning the keys of a prefix finds nothing exactly when no item of the prefix has a type with three items, and otherwise finds the type of the earliest such item |
| Matching.MatchType | Assets/Scripts/BottomSlotsManager.cs:149-178 | a resolved type is held at least three times; no type is resolved exactly when there are fewer than three items or no item's type is held three times |
| Matching.AfterMatch | Assets/Scripts/BottomSlotsManager.cs:149-189 | the list after the match check is three shorter when a type was resolved and unchanged in length otherwise |
| Matching.MatchTypeIsEarliest | Assets/Scripts/BottomSlotsManager.cs:151-178 | the resolved type is absent exactly when there are fewer than three items or no type has three; otherwise it has at least three items and is the type of the earliest item whose type has three |
| Matching.MatchRemovesFirstThree | Assets/Scripts/BottomSlotsManager.cs:170-189 | a match removes exactly the first three items of the resolved type: the others keep their order, the list shrinks by three, the resolved group loses its first three items and every other group is unchanged |
| Matching.RemoveGroupPrefix | Assets/Scripts/BottomSlotsManager.cs:183-187 | removing the first n items of a group one List.Remove at a time is the same as dropping the first n items of that type |
| Matching.OfTypeDrop | Assets/Scripts/BottomSlotsManager.cs:183-187 | dropping n items of one type shortens that type's group by its first n items and leaves every other group unchanged |
| Matching.DropLength | Assets/Scripts/BottomSlotsManager.cs:183-187 | dropping n items of a type held at least n times shortens the list by n |
| Matching.OnlyAddedTypeCanMatch | Assets/Scripts/BottomSlotsManager.cs:104-124 | if no type had three items before an addition, only the added item's type can be resolved |
| Matching.AddThenMatchKeepsNoTriple | Assets/Scripts/BottomSlotsManager.cs:104-124 | a tray with no three of a kind still has none after an addition followed by the match check |
| Collections.RemoveFirst | Assets/Scripts/LayeredBoard.cs:88 | List.Remove never lengthens the list |
| Collections.RemoveFirstAt | Assets/Scripts/LayeredBoard.cs:88 | List.Remove cuts the list at the first occurrence of the element and keeps the order of everything else |
| Collections.RemoveFirstAbsent | Assets/Scripts/LayeredBoard.cs:88 | List.Remove of an absent element leaves the list unchanged |
| Collections.RemoveFirstMultiset | Assets/Scripts/BottomSlotsManager.cs:186 | List.Remove of a present element takes out exactly one copy of it |
| Collections.RemoveFirstNoDup | Assets/Scripts/TileCell.cs:172-176 | in a duplicate-free list, List.Remove deletes the element for good and keeps the list duplicate-free |
| Cells.TileCell.constructor | Assets/Scripts/TileCell.cs:6-14 | a new cell has no item and empty link lists |
| Cells.TileCell.IsAvailable | Assets/Scripts/TileCell.cs:19 | a cell can be tapped exactly when its item reference is not null |
| Cells.TileCell.IsEmpty | Assets/Scripts/TileCell.cs:19-21 | a cell is empty exactly when it is not available, that is, exactly when it holds no item |
| Cells.TileCell.Setup | Assets/Scripts/TileCell.cs:101-121 | records x, y and layer, empties the three link lists and keeps the item |
| Cells.TileCell.Assign | Assets/Scripts/TileCell.cs:123-145 | sets the item, so the cell is available exactly when an item was given, empties the link lists and keeps the coordinates |
| Cells.TileCell.Free | Assets/Scripts/TileCell.cs:147-150 | drops the item and changes nothing else |
| Cells.TileCell.RemoveItem | Assets/Scripts/TileCell.cs:254-263 | drops the item and notifies the callback, when given, with this cell, also when the cell was already empty |
| Cells.TileCell.Clear | Assets/Scripts/TileCell.cs:265-286 | drops the item and empties the link lists; the coordinates stay |
| Cells.TileCell.AddBlockingCellAbove | Assets/Scripts/TileCell.cs:163-170 | the cell is in the list afterwards, appended only if it was absent, so no duplicate arises; the item, the coordinates and layer, and the other lists are unchanged |
| Cells.TileCell.RemoveBlockingCellAbove | Assets/Scripts/TileCell.cs:172-176 | the list is the old one with the cell removed by List.Remove; the cell is no longer in it; the item, the coordinates and layer, and the other lists are unchanged |
| Cells.TileCell.AddNeighbourLeft | Assets/Scripts/TileCell.cs:178-185 | as AddBlockingCellAbove, for the left-neighbour list |
| Cells.TileCell.AddNeighbourRight | Assets/Scripts/TileCell.cs:187-194 | as AddBlockingCellAbove, for the right-neighbour list |
| Cells.TileCell.RemoveNeighbourLeft | Assets/Scripts/TileCell.cs:196-200 | as RemoveBlockingCellAbove, for the left-neighbour list |
| Cells.TileCell.RemoveNeighbourRight | Assets/Scripts/TileCell.cs:202-206 | as RemoveBlockingCellAbove, for the right-neighbour list |
| Cells.TileCell.IsLeftNeighbour | Assets/Scripts/TileCell.cs:288-293 | on integer coordinates, true exactly when the other cell is one column to the left in the same row |
| Cells.TileCell.IsRightNeighbour | Assets/Scripts/TileCell.cs:295-300 | on integer coordinates, true exactly when the other cell is one column to the right in the same row |
| Boards.LayeredBoard.constructor | Assets/Scripts/LayeredBoard.cs:10-13 | a new board has no cells |
| Boards.NewCell | Assets/Scripts/LayeredBoard.cs:37-50 | one loop body of CreateBoard: a fresh cell at the tile's position on layer 0, with empty links and a fresh item of the tile's type |
| Boards.LayeredBoard.CreateBoard | Assets/Scripts/LayeredBoard.cs:15-57 | the old cells are cleared first; then there is exactly one fresh cell per tile entry, in list order, with the entry's x and y, layer 0, empty links and a fresh item of the entry's type; no cell is listed twice |
| Boards.AvailableOf | Assets/Scripts/LayeredBoard.cs:80 | the filter keeps exactly the cells that hold an item, and lists no cell twice when the board lists none twice |
| Boards.AvailableOfConcat | Assets/Scripts/LayeredBoard.cs:80 | the filter keeps board order: filtering a concatenation is filtering each part in turn, so the result is the available cells in their board order |
| Boards.LayeredBoard.GetAvailableCells | Assets/Scripts/LayeredBoard.cs:78-81 | a cell is in the result exactly when it is on the board and holds an item; on a valid board no cell is listed twice; the order is the board order (AvailableOfConcat) |
| Boards.LayeredBoard.OnCellRemoved | Assets/Scripts/LayeredBoard.cs:83-92 | the cell is no longer on the board; the list is the old one cut at the cell's position, so every other cell keeps its order; a cell not on the board changes nothing |
| Boards.LayeredBoard.IsEmpty | Assets/Scripts/LayeredBoard.cs:94-97 | the board is empty exactly when no cell still holds an item |
| Boards.LayeredBoard.HasAvailableMoves | Assets/Scripts/LayeredBoard.cs:99-102 | a move is available exactly when some cell holds an item, that is, exactly when the board is not empty |
| Boards.LayeredBoard.GetRemainingItemCount | Assets/Scripts/LayeredBoard.cs:118-121 | the remaining-item count is the number of available cells and at most the number of cells |
| Boards.LayeredBoard.Clear | Assets/Scripts/LayeredBoard.cs:104-116 | every old cell is cleared (no item, empty links) and the board has no cells |
| Boards.LayeredBoard.IsOverlapping | Assets/Scripts/LayeredBoard.cs:69-76 | on integer coordinates, two cells overlap exactly when they have the same x and the same y |
| Boards.OccupiedCountIsAvailableLength | Assets/Scripts/LayeredBoard.cs:118-121 | the number of non-empty cells equals the number of available cells |
| Boards.OccupiedCountZero | Assets/Scripts/LayeredBoard.cs:94-97 | no cell holds an item exactly when every cell is empty |
| Boards.BoardQueriesAgree | Assets/Scripts/LayeredBoard.cs:94-121 | the board is empty exactly when no item remains; it has available moves exactly when it is not empty; the remaining-item count is the number of available cells |
| Levels.IsValid | Assets/Scripts/LevelData.cs:123-134 | a level is valid exactly when it has at least one layer and a tile list holding a positive number of whole triples (at least three tiles, a multiple of three) |
| Levels.Draw | Assets/Scripts/LevelData.cs:113-114 | a draw from the generator lies in the half-open range [lo, hi) |
| Levels.TotalTiles | Assets/Scripts/LevelData.cs:49-53 | the smallest multiple of three that is at least the requested count |
| Levels.RoundUpToTriple | Assets/Scripts/LevelData.cs:49-53 | the round-up loop ends with that smallest multiple of three |
| Levels.TripleTypes | Assets/Scripts/LevelData.cs:56-65 | the pre-shuffle list holds three entries per group |
| Levels.TripleTypesSnoc | Assets/Scripts/LevelData.cs:59-65 | each further group appends one triple of type g mod typeCount |
| Levels.BuildItemTypes | Assets/Scripts/LevelData.cs:56-65 | the fill loop builds the triple list: positions 3g..3g+2 hold type g mod typeCount, with no groups when the count is negative |
| Levels.TriplesComeInThrees | Assets/Scripts/LevelData.cs:56-65 | every type occurs in the pre-shuffle list three times per group of that type |
| Levels.Swap | Assets/Scripts/LevelData.cs:71-73 | a swap keeps the length |
| Levels.SwapPermutes | Assets/Scripts/LevelData.cs:71-73 | a swap keeps the multiset of types |
| Levels.ShuffleFrom | Assets/Scripts/LevelData.cs:68-74 | the Fisher–Yates steps from position i down keep the length |
| Levels.ShufflePermutes | Assets/Scripts/LevelData.cs:68-74 | the shuffle is a permutation: the multiset of types is preserved |
| Levels.Shuffle | Assets/Scripts/LevelData.cs:68-74 | the in-place loop computes the Fisher–Yates shuffle with j drawn from [0, i], preserves the multiset of types and makes one draw per position above 0 |
| Levels.TemplateTile | Assets/Scripts/LevelData.cs:90-118 | tile k keeps type k and layer 0; the first 15 lie in x -2..2, y 0..2; the next 6 in x -1..1, y 1..2; later ones in x -1..1, y 2..3 |
| Levels.StackedLayout | Assets/Scripts/LevelData.cs:83-121 | the layout has max(totalTiles, 0) tiles |
| Levels.FixedBandsRowMajor | Assets/Scripts/LevelData.cs:90-107 | within each fixed band, tiles are laid out row by row and left to right, so no two share a position |
| Levels.LayBaseBand | Assets/Scripts/LevelData.cs:90-97 | the base loops place the template's first min(15, total) tiles |
| Levels.LayMiddleBand | Assets/Scripts/LevelData.cs:100-107 | the middle loops continue the template up to min(21, total) tiles |
| Levels.LayTopBand | Assets/Scripts/LevelData.cs:110-118 | the top loop completes the template to max(total, 0) tiles, drawing two values per tile |
| Levels.CreateStackedLayout | Assets/Scripts/LevelData.cs:83-121 | the three loops produce exactly the template layout and make 2·max(total-21, 0) draws |
| Levels.GeneratedLevel | Assets/Scripts/LevelData.cs:38-81 | a generated level keeps its number and layer count and has a tile list whose length is a multiple of three and at least the requested count |
| Levels.CreateRandomLevel | Assets/Scripts/LevelData.cs:38-81 | the generator's result is a deterministic function of level number, layer count, tile count and the generator seeded with the level number |
| Levels.LayoutKeepsTypes | Assets/Scripts/LevelData.cs:94-116 | tile k of a layout carries type k of the list, so the types are kept in order |
| Levels.GeneratedLevelShape | Assets/Scripts/LevelData.cs:38-53 | a generated level records its number, name "Level n" and layer count, has the rounded-up number of tiles (a multiple of three), and is valid exactly when the layer count and tile count are positive |
| Levels.GeneratedLevelTypes | Assets/Scripts/LevelData.cs:56-77 | the tile types of a generated level are the shuffled triple list |
| Levels.GeneratedTypesComeInThrees | Assets/Scripts/LevelData.cs:56-77 | every type appears on a generated level three times per group of that type, hence a multiple of three times |
| Text.NatToString | Assets/Scripts/Controllers/LevelMoves.cs:58 | a decimal numeral is a non-empty run of digits without a leading zero, one digit long exactly below ten |
| Text.NatToStringRoundTrip | Assets/Scripts/Controllers/LevelMoves.cs:58 | reading a printed natural number back gives the number |
| Text.IntToStringRoundTrip | Assets/Scripts/Controllers/LevelMoves.cs:58 | reading a printed integer back, sign included, gives the integer |
| Text.IntToStringInjective | Assets/Scripts/Controllers/LevelMoves.cs:58 | different integers print differently |
| Moves.MovesText | Assets/Scripts/Controllers/LevelMoves.cs:58 | the label starts with "MOVES:" and a line break and is followed by at least one character of the count |
| Moves.MovesTextDeterminesCount | Assets/Scripts/Controllers/LevelMoves.cs:56-59 | the label text determines the counter value |
| Moves.TruncateToInt | Assets/Scripts/Controllers/LevelMoves.cs:15 | the cast truncates toward zero |
| Moves.LevelMoves.Setup | Assets/Scripts/Controllers/LevelMoves.cs:12-24 | the counter starts at the truncated configured value, the condition is open, and an attached label shows "MOVES:\n" and the count |
| Moves.LevelMoves.OnMove | Assets/Scripts/Controllers/LevelMoves.cs:41-52 | once the condition has completed, nothing changes; otherwise the counter drops by exactly one, the label follows, and the condition completes exactly when the counter is no longer positive |
| Moves.LevelMoves.OnConditionComplete | Assets/Scripts/Controllers/LevelMoves.cs:50 | sets the completion latch and leaves counter and label alone |
| Moves.LevelMoves.UpdateText | Assets/Scripts/Controllers/LevelMoves.cs:54-60 | an attached label shows "MOVES:\n" and the count; without one nothing changes |
| Round.Answers | Assets/Scripts/Board/LayeredBoardController.cs:178-192 | the controller answers the tray's signals with a level-failed signal exactly when the tray raised slots-full, and never with a move or a win |
| Round.AnswersOfPlacement | Assets/Scripts/Board/LayeredBoardController.cs:178-192 | the answer to one placement's signals is a single level-failed signal when the tray was full and nothing otherwise |
| Round.LayeredBoardController.StartGame | Assets/Scripts/Board/LayeredBoardController.cs:25-75 | keeps a present, valid level and otherwise uses the generated level 1 with one layer and the default tile count; builds the board from it with fresh cells and fresh items; uses the given tray or a new empty one of five slots; clears both flags |
| Round.LayeredBoardController.OnGameStateChange | Assets/Scripts/Board/LayeredBoardController.cs:77-92 | GAME_STARTED clears busy and game-over, PAUSE sets busy, GAME_OVER sets game-over, other states change nothing |
| Round.LayeredBoardController.Update | Assets/Scripts/Board/LayeredBoardController.cs:94-117 | nothing changes while the round is over or busy, without a tap, or when the tapped cell cannot be taken; a rejected tap leaves the cell untouched; otherwise the tap is an accepted tile click |
| Round.LayeredBoardController.OnTileClicked | Assets/Scripts/Board/LayeredBoardController.cs:119-166 | a cell without an item or a full tray changes nothing, the cell included; otherwise the item goes into the tray, which resolves at most one match; the cell is freed, keeping its coordinates and links, and removed from the board; busy is cleared; one move is reported; the loss, when the tray was full after the insertion, is reported before the move; a win is reported after it only if the round was running, not lost, and the board is empty; a click never reports both a loss and a win |
| Round.LayeredBoardController.PlaceInTray | Assets/Scripts/Board/LayeredBoardController.cs:139-144 | the tray's part of a click: the tray ends as after one match check of the extended list; the loss is latched, with busy cleared, exactly when the tray was full after the insertion |
| Round.LayeredBoardController.CompleteMove | Assets/Scripts/Board/LayeredBoardController.cs:144-165 | the completion callback frees the cell, keeping its coordinates and links, removes it from the board, clears busy, reports one move, and then reports a win only if the round was not over and the board is empty |
| Round.LayeredBoardController.DispatchSlotsEvents | Assets/Scripts/Board/LayeredBoardController.cs:178-192 | handling the tray's signals in order yields their answers; the round ends, with busy cleared, exactly when a slots-full signal was among them |
| Round.LayeredBoardController.OnItemsMatched | Assets/Scripts/Board/LayeredBoardController.cs:188-192 | the match handler raises no signal and changes no state |
| Round.LayeredBoardController.CheckWinCondition | Assets/Scripts/Board/LayeredBoardController.cs:168-176 | an empty board ends the round and reports a win; otherwise nothing changes |
| Round.LayeredBoardController.OnBottomSlotsFull | Assets/Scripts/Board/LayeredBoardController.cs:178-186 | clears busy, ends the round and reports a loss |
| Round.LayeredBoardController.Clear | Assets/Scripts/Board/LayeredBoardController.cs:194-205 | every old cell is cleared, the board has no cells and the tray is empty |
| Round.LayeredBoardController.RestartLevel | Assets/Scripts/Board/LayeredBoardController.cs:207-226 | clears board and tray, rebuilds a fresh board, with fresh cells and items, from the current level, and clears busy and game-over |

## Left out

- Rendering and animation are not modelled: sprites, colours, sorting orders, the white background and glow objects, `CreateSlotPositions`, and the DOTween moves and scales (including `ReorganizeItems`). A slot's index is its list index, so re-indexing after a match is the list itself.
- The tween delay is not modelled. `OnComplete` is a synchronous second phase of the same click, so `isBusy` is never observed as true between the two phases.
- The raycast, camera and mouse of `HandleTapInput` are not modelled. A tap is an optional cell reference.
- `Resources.Load`, `Instantiate`, `Destroy`, `FindObjectOfType` and the auto-created tray `GameObject` are not modelled. The prefab-missing early return of `CreateBoard` is out of scope. The tray-is-null branches of the controller are out of scope, because the model always has a tray.
- Null and non-normal items are not modelled:
  - The null item / null `View` branch of `AddItem`, which calls `onComplete` without a match, is left out, because board items are never null.
  - Items that are not `NormalItem`, which grouping skips, are left out, because every board item is one.
- `System.Random` is replaced by the oracle. .NET's generator itself is not reproduced.
- The enum `NormalItem.eNormalType` is not part of this model. Its length is the parameter `typeCount`.
- Delegate events, their subscription and unsubscription (including double subscription when `StartGame` runs twice), `Debug.Log` text and `OnItemsMatched`'s log line are not modelled. Signals are returned as lists.
- The `LevelCondition` base class and the timer condition `LevelTime` are not part of this model. `OnConditionComplete` is assumed to set the latch read by `OnMove`. `Setup`'s subscription to the move event is left to the caller, who calls `OnMove` once per `Moved` signal.
- `GetBoardInfo`, `GetTopLayer` and `CalculateBlockingRelationships` only format text, return a constant or log, so they are left out.
- `targetScore`, `moveLimit` and `timeLimit` are left out. They are level fields that no modelled code reads.
- `GameManager` and the UI panels are not part of this model.
- The `boardRoot == null` branch of `RestartLevel` is left out. It skips rebuilding, and `StartGame` always sets a root.
- 32-bit arithmetic is not modelled. `int` overflow (huge tile counts or levels, `m_moves` below `int.MinValue`) and float-to-int casts of values outside the `int` range are left out.
- Moves.TruncateToInt: models the C# float-to-int cast on exact reals, without `float` rounding.
