/** Level records, their validity test, and the seeded generator of a
    random single-layer level: round the tile count up to a multiple of
    three, lay out the types in triples, shuffle them with Fisher–Yates and
    place them on a fixed row template. */
module Levels {
  import opened Collections
  import opened Items
  import opened Text

  datatype TileData = TileData(x: int, y: int, layer: int, itemType: ItemType)

  /** A level; a tiles value of None stands for a null tile list. */
  datatype LevelData = LevelData(levelNumber: int, levelName: string, maxLayers: int, tiles: Option<seq<TileData>>)

  /** A level is playable when it has at least one layer and a non-empty
      tile list whose length is a multiple of three. */
  function IsValid(level: LevelData): (r: bool)
    ensures r <==> (level.tiles.Some? && level.maxLayers >= 1 &&
                    3 <= |level.tiles.value| && |level.tiles.value| % 3 == 0)
  {
    if level.tiles == None || |level.tiles.value| == 0 then false
    else if level.maxLayers <= 0 then false
    else if |level.tiles.value| % 3 != 0 then false
    else true
  }

  function Max0(n: int): nat
  {
    if n < 0 then 0 else n
  }

  function Min(a: int, b: int): int
  {
    if a < b then a else b
  }

  /** The seeded random generator: oracle(seed, n) is the raw value of the
      n-th draw made since the generator was seeded. */
  type Oracle = (int, nat) -> nat

  /** The n-th draw, reduced to the half-open range [lo, hi). */
  function Draw(oracle: Oracle, seed: int, n: nat, lo: int, hi: int): (v: int)
    requires lo < hi
    ensures lo <= v < hi
  {
    lo + oracle(seed, n) % (hi - lo)
  }

  /** The smallest multiple of three that is at least n. */
  function TotalTiles(n: int): (t: int)
    ensures t % 3 == 0 && n <= t < n + 3
  {
    n + (3 - n % 3) % 3
  }

  /** The round-up loop. Its test `totalTiles % 3 != 0` uses a truncating
      remainder, which is zero exactly when Dafny's Euclidean one is. */
  method RoundUpToTriple(n: int) returns (t: int)
    ensures t == TotalTiles(n)
  {
    t := n;
    while t % 3 != 0
      invariant n <= t <= TotalTiles(n)
      decreases TotalTiles(n) - t
    {
      t := t + 1;
    }
  }

  /** The pre-shuffle type list: group g fills positions 3g, 3g+1, 3g+2
      with type g mod typeCount. */
  function TripleTypes(groups: nat, typeCount: nat): (r: seq<ItemType>)
    requires typeCount > 0
    ensures |r| == 3 * groups
  {
    seq(3 * groups, p => (p / 3) % typeCount)
  }

  /** One more group appends one triple of its type. */
  lemma TripleTypesSnoc(g: nat, typeCount: nat)
    requires typeCount > 0
    ensures TripleTypes(g + 1, typeCount) == TripleTypes(g, typeCount) + [g % typeCount, g % typeCount, g % typeCount]
  {
    var a, b := TripleTypes(g + 1, typeCount), TripleTypes(g, typeCount) + [g % typeCount, g % typeCount, g % typeCount];
    forall p | 0 <= p < |a| ensures a[p] == b[p] {
      if p >= 3 * g {
        assert p / 3 == g;
      }
    }
  }

  /** How many of the first `groups` groups have type t. */
  function GroupsOfType(groups: nat, typeCount: nat, t: ItemType): nat
    requires typeCount > 0
  {
    if groups == 0 then 0
    else GroupsOfType(groups - 1, typeCount, t) + (if (groups - 1) % typeCount == t then 1 else 0)
  }

  /** Three more copies of k add three to k's count and nothing to the
      others. */
  lemma CountAfterTriple(before: seq<ItemType>, k: ItemType, t: ItemType)
    ensures multiset(before + [k, k, k])[t] == multiset(before)[t] + (if k == t then 3 else 0)
  {
    assert multiset(before + [k, k, k]) == multiset(before) + multiset{k, k, k};
  }

  /** One more group keeps the count of t at three per group of type t. */
  lemma TriplesStep(g: nat, typeCount: nat, t: ItemType)
    requires typeCount > 0
    requires multiset(TripleTypes(g, typeCount))[t] == 3 * GroupsOfType(g, typeCount, t)
    ensures multiset(TripleTypes(g + 1, typeCount))[t] == 3 * GroupsOfType(g + 1, typeCount, t)
  {
    TripleTypesSnoc(g, typeCount);
    CountAfterTriple(TripleTypes(g, typeCount), g % typeCount, t);
  }

  /** Every type occurs in the pre-shuffle list three times per group of
      that type, so a multiple of three times. */
  lemma {:induction false} TriplesComeInThrees(groups: nat, typeCount: nat, t: ItemType)
    requires typeCount > 0
    ensures multiset(TripleTypes(groups, typeCount))[t] == 3 * GroupsOfType(groups, typeCount, t)
  {
    if groups == 0 {
      assert TripleTypes(groups, typeCount) == [];
    } else {
      TriplesComeInThrees(groups - 1, typeCount, t);
      TriplesStep(groups - 1, typeCount, t);
    }
  }

  /** The triple-building loop: typesNeeded groups (none when negative). */
  method BuildItemTypes(typesNeeded: int, typeCount: nat) returns (types: seq<ItemType>)
    requires typeCount > 0
    ensures types == TripleTypes(Max0(typesNeeded), typeCount)
  {
    types := [];
    var i: nat := 0;
    while i < typesNeeded
      invariant i <= Max0(typesNeeded)
      invariant types == TripleTypes(i, typeCount)
    {
      var t := i % typeCount;
      TripleTypesSnoc(i, typeCount);
      types := types + [t, t, t];
      i := i + 1;
    }
  }

  function Swap(s: seq<ItemType>, i: nat, j: nat): (r: seq<ItemType>)
    requires i < |s| && j < |s|
    ensures |r| == |s|
  {
    s[i := s[j]][j := s[i]]
  }

  lemma SwapPermutes(s: seq<ItemType>, i: nat, j: nat)
    requires i < |s| && j < |s|
    ensures multiset(Swap(s, i, j)) == multiset(s)
  {
    var t := s[i := s[j]];
    assert multiset(t) == multiset(s) - multiset{s[i]} + multiset{s[j]};
  }

  /** Fisher–Yates from position i down to 1: position i is swapped with a
      position drawn from [0, i], one draw per step, starting at draw n. */
  function ShuffleFrom(s: seq<ItemType>, i: int, oracle: Oracle, seed: int, n: nat): (r: seq<ItemType>)
    requires i < |s|
    ensures |r| == |s|
    decreases i
  {
    if i <= 0 then s
    else ShuffleFrom(Swap(s, i, Draw(oracle, seed, n, 0, i + 1)), i - 1, oracle, seed, n + 1)
  }

  function Shuffled(s: seq<ItemType>, oracle: Oracle, seed: int, n: nat): (r: seq<ItemType>)
    ensures |r| == |s|
  {
    ShuffleFrom(s, |s| - 1, oracle, seed, n)
  }

  /** The shuffle only reorders: it is a permutation of its input. */
  lemma {:induction false} ShufflePermutes(s: seq<ItemType>, i: int, oracle: Oracle, seed: int, n: nat)
    requires i < |s|
    ensures multiset(ShuffleFrom(s, i, oracle, seed, n)) == multiset(s)
    decreases i
  {
    if i > 0 {
      var j := Draw(oracle, seed, n, 0, i + 1);
      SwapPermutes(s, i, j);
      ShufflePermutes(Swap(s, i, j), i - 1, oracle, seed, n + 1);
    }
  }

  /** The in-place shuffle loop; it makes one draw per position above 0. */
  method Shuffle(s: seq<ItemType>, oracle: Oracle, seed: int, n: nat) returns (r: seq<ItemType>, drawn: nat)
    ensures r == Shuffled(s, oracle, seed, n)
    ensures multiset(r) == multiset(s)
    ensures drawn == n + Max0(|s| - 1)
  {
    r, drawn := s, n;
    var i := |s| - 1;
    while i > 0
      invariant -1 <= i < |r| == |s| && (i == -1 ==> |s| == 0)
      invariant drawn == n + (|s| - 1 - i)
      invariant multiset(r) == multiset(s)
      invariant ShuffleFrom(r, i, oracle, seed, drawn) == Shuffled(s, oracle, seed, n)
    {
      var j := Draw(oracle, seed, drawn, 0, i + 1);
      drawn := drawn + 1;
      SwapPermutes(r, i, j);
      var temp := r[i];
      r := r[i := r[j]];
      r := r[j := temp];
      i := i - 1;
    }
  }

  /** Tile k of the stacked template: the first 15 fill the rows y = 0..2
      at x = -2..2 row by row, the next 6 fill y = 1..2 at x = -1..1, and
      each later tile draws x in [-1, 2) and then y in [2, 4); n0 is the
      first draw the layout makes. */
  function TemplateTile(k: nat, types: seq<ItemType>, oracle: Oracle, seed: int, n0: nat): (t: TileData)
    requires k < |types|
    ensures t.layer == 0 && t.itemType == types[k]
    ensures k < 15 ==> -2 <= t.x <= 2 && 0 <= t.y <= 2
    ensures 15 <= k < 21 ==> -1 <= t.x <= 1 && 1 <= t.y <= 2
    ensures 21 <= k ==> -1 <= t.x <= 1 && 2 <= t.y <= 3
  {
    if k < 15 then TileData(k % 5 - 2, k / 5, 0, types[k])
    else if k < 21 then TileData((k - 15) % 3 - 1, (k - 15) / 3 + 1, 0, types[k])
    else
      var d := n0 + 2 * (k - 21);
      TileData(Draw(oracle, seed, d, -1, 2), Draw(oracle, seed, d + 1, 2, 4), 0, types[k])
  }

  function StackedLayout(total: int, types: seq<ItemType>, oracle: Oracle, seed: int, n0: nat): (r: seq<TileData>)
    requires total <= |types|
    ensures |r| == Max0(total)
  {
    seq(Max0(total), k requires 0 <= k < Max0(total) => TemplateTile(k, types, oracle, seed, n0))
  }

  /** Within each of the two fixed bands, tiles are laid out row by row
      and left to right, so no two of them share a position. */
  lemma FixedBandsRowMajor(k1: nat, k2: nat, types: seq<ItemType>, oracle: Oracle, seed: int, n0: nat)
    requires k1 < k2 < |types|
    requires k2 < 15 || 15 <= k1 < k2 < 21
    ensures var a, b := TemplateTile(k1, types, oracle, seed, n0), TemplateTile(k2, types, oracle, seed, n0);
      a.y < b.y || (a.y == b.y && a.x < b.x)
  {
    if k2 < 15 {
      assert k1 == 5 * (k1 / 5) + k1 % 5 && k2 == 5 * (k2 / 5) + k2 % 5;
    } else {
      var m1, m2 := k1 - 15, k2 - 15;
      assert m1 == 3 * (m1 / 3) + m1 % 3 && m2 == 3 * (m2 / 3) + m2 % 3;
    }
  }

  /** tiles is the template's first |tiles| tiles. */
  ghost predicate LaidOut(tiles: seq<TileData>, types: seq<ItemType>, oracle: Oracle, seed: int, n0: nat)
  {
    |tiles| <= |types| &&
    forall k :: 0 <= k < |tiles| ==> tiles[k] == TemplateTile(k, types, oracle, seed, n0)
  }

  lemma LaidOutSnoc(tiles: seq<TileData>, t: TileData, types: seq<ItemType>, oracle: Oracle, seed: int, n0: nat)
    requires LaidOut(tiles, types, oracle, seed, n0) && |tiles| < |types|
    requires t == TemplateTile(|tiles|, types, oracle, seed, n0)
    ensures LaidOut(tiles + [t], types, oracle, seed, n0)
  {
  }

  lemma DivMod5(y: nat, c: nat)
    requires c < 5
    ensures (5 * y + c) / 5 == y && (5 * y + c) % 5 == c
  {
  }

  /** The base band: rows y = 0..2, x = -2..2, while tiles remain. */
  method LayBaseBand(totalTiles: int, itemTypes: seq<ItemType>, ghost oracle: Oracle, ghost seed: int, ghost n0: nat)
    returns (tiles: seq<TileData>, tileIndex: int)
    requires totalTiles <= |itemTypes|
    ensures tileIndex == |tiles| == Min(15, Max0(totalTiles))
    ensures LaidOut(tiles, itemTypes, oracle, seed, n0)
  {
    ghost var total := Max0(totalTiles);
    tiles, tileIndex := [], 0;
    var y := 0;
    while y < 3 && tileIndex < totalTiles
      invariant 0 <= y <= 3
      invariant tileIndex == |tiles| == Min(5 * y, total)
      invariant LaidOut(tiles, itemTypes, oracle, seed, n0)
    {
      var x := -2;
      while x <= 2 && tileIndex < totalTiles
        invariant -2 <= x <= 3
        invariant tileIndex == |tiles| == Min(5 * y + x + 2, total)
        invariant LaidOut(tiles, itemTypes, oracle, seed, n0)
      {
        DivMod5(y, x + 2);
        LaidOutSnoc(tiles, TileData(x, y, 0, itemTypes[tileIndex]), itemTypes, oracle, seed, n0);
        tiles := tiles + [TileData(x, y, 0, itemTypes[tileIndex])];
        tileIndex := tileIndex + 1;
        x := x + 1;
      }
      y := y + 1;
    }
  }

  /** The middle band: rows y = 1..2, x = -1..1, while tiles remain. */
  method LayMiddleBand(totalTiles: int, itemTypes: seq<ItemType>, tiles0: seq<TileData>, tileIndex0: int,
                       ghost oracle: Oracle, ghost seed: int, ghost n0: nat)
    returns (tiles: seq<TileData>, tileIndex: int)
    requires totalTiles <= |itemTypes|
    requires tileIndex0 == |tiles0| == Min(15, Max0(totalTiles))
    requires LaidOut(tiles0, itemTypes, oracle, seed, n0)
    ensures tileIndex == |tiles| == Min(21, Max0(totalTiles))
    ensures LaidOut(tiles, itemTypes, oracle, seed, n0)
  {
    ghost var total := Max0(totalTiles);
    tiles, tileIndex := tiles0, tileIndex0;
    var y := 1;
    while y < 3 && tileIndex < totalTiles
      invariant 1 <= y <= 3
      invariant tileIndex == |tiles| == Min(15 + 3 * (y - 1), total)
      invariant LaidOut(tiles, itemTypes, oracle, seed, n0)
    {
      var x := -1;
      while x <= 1 && tileIndex < totalTiles
        invariant -1 <= x <= 2
        invariant tileIndex == |tiles| == Min(15 + 3 * (y - 1) + x + 1, total)
        invariant LaidOut(tiles, itemTypes, oracle, seed, n0)
      {
        assert (tileIndex - 15) / 3 == y - 1 && (tileIndex - 15) % 3 == x + 1;
        LaidOutSnoc(tiles, TileData(x, y, 0, itemTypes[tileIndex]), itemTypes, oracle, seed, n0);
        tiles := tiles + [TileData(x, y, 0, itemTypes[tileIndex])];
        tileIndex := tileIndex + 1;
        x := x + 1;
      }
      y := y + 1;
    }
  }

  /** The top band: each remaining tile draws x in [-1, 2) and then y in
      [2, 4); returns the number of draws made so far. */
  method LayTopBand(totalTiles: int, itemTypes: seq<ItemType>, tiles0: seq<TileData>, tileIndex0: int,
                    oracle: Oracle, seed: int, n0: nat)
    returns (tiles: seq<TileData>, drawn: nat)
    requires totalTiles <= |itemTypes|
    requires tileIndex0 == |tiles0| == Min(21, Max0(totalTiles))
    requires LaidOut(tiles0, itemTypes, oracle, seed, n0)
    ensures |tiles| == Max0(totalTiles) && LaidOut(tiles, itemTypes, oracle, seed, n0)
    ensures drawn == n0 + 2 * Max0(totalTiles - 21)
  {
    ghost var total := Max0(totalTiles);
    tiles, drawn := tiles0, n0;
    var tileIndex := tileIndex0;
    var remainingTiles := totalTiles - tileIndex;
    var i := 0;
    while i < remainingTiles && tileIndex < totalTiles
      invariant 0 <= i
      invariant tileIndex == |tiles| == Min(21, total) + i <= total
      invariant drawn == n0 + 2 * i
      invariant LaidOut(tiles, itemTypes, oracle, seed, n0)
    {
      var px := Draw(oracle, seed, drawn, -1, 2);
      var py := Draw(oracle, seed, drawn + 1, 2, 4);
      drawn := drawn + 2;
      LaidOutSnoc(tiles, TileData(px, py, 0, itemTypes[tileIndex]), itemTypes, oracle, seed, n0);
      tiles := tiles + [TileData(px, py, 0, itemTypes[tileIndex])];
      tileIndex := tileIndex + 1;
      i := i + 1;
    }
  }

  /** The three placement loops, sharing a running tile index; returns the
      number of draws made so far. */
  method CreateStackedLayout(totalTiles: int, itemTypes: seq<ItemType>, oracle: Oracle, seed: int, n0: nat)
    returns (tiles: seq<TileData>, drawn: nat)
    requires totalTiles <= |itemTypes|
    ensures tiles == StackedLayout(totalTiles, itemTypes, oracle, seed, n0)
    ensures drawn == n0 + 2 * Max0(totalTiles - 21)
  {
    var tileIndex;
    tiles, tileIndex := LayBaseBand(totalTiles, itemTypes, oracle, seed, n0);
    tiles, tileIndex := LayMiddleBand(totalTiles, itemTypes, tiles, tileIndex, oracle, seed, n0);
    tiles, drawn := LayTopBand(totalTiles, itemTypes, tiles, tileIndex, oracle, seed, n0);
    assert forall k :: 0 <= k < |tiles| ==> tiles[k] == TemplateTile(k, itemTypes, oracle, seed, n0);
  }

  /** The level CreateRandomLevel builds, as a function of its arguments and
      of the generator seeded with levelNumber. */
  function GeneratedLevel(levelNumber: int, numLayers: int, tilesPerLayer: int, typeCount: nat, oracle: Oracle): (r: LevelData)
    requires typeCount > 0
    ensures r.levelNumber == levelNumber && r.maxLayers == numLayers
    ensures r.tiles.Some? && |r.tiles.value| % 3 == 0 && tilesPerLayer <= |r.tiles.value|
  {
    var total := TotalTiles(tilesPerLayer);
    var types := TripleTypes(Max0(total / 3), typeCount);
    var shuffled := Shuffled(types, oracle, levelNumber, 0);
    LevelData(levelNumber, "Level " + IntToString(levelNumber), numLayers,
      Some(StackedLayout(total, shuffled, oracle, levelNumber, Max0(|types| - 1))))
  }

  method CreateRandomLevel(levelNumber: int, numLayers: int, tilesPerLayer: int, typeCount: nat, oracle: Oracle)
    returns (level: LevelData)
    requires typeCount > 0
    ensures level == GeneratedLevel(levelNumber, numLayers, tilesPerLayer, typeCount, oracle)
  {
    var totalTiles := RoundUpToTriple(tilesPerLayer);
    var itemTypes := BuildItemTypes(totalTiles / 3, typeCount);
    var drawn;
    itemTypes, drawn := Shuffle(itemTypes, oracle, levelNumber, 0);
    var tiles;
    tiles, drawn := CreateStackedLayout(totalTiles, itemTypes, oracle, levelNumber, drawn);
    level := LevelData(levelNumber, "Level " + IntToString(levelNumber), numLayers, Some(tiles));
  }

  function TypesOf(tiles: seq<TileData>): (r: seq<ItemType>)
    ensures |r| == |tiles|
  {
    seq(|tiles|, k requires 0 <= k < |tiles| => tiles[k].itemType)
  }

  /** A generated level records its number, name and layer count, holds as
      many tiles as the rounded-up count (none when that is not positive),
      and is valid exactly when both counts are positive. */
  lemma GeneratedLevelShape(levelNumber: int, numLayers: int, tilesPerLayer: int, typeCount: nat, oracle: Oracle)
    requires typeCount > 0
    ensures var level := GeneratedLevel(levelNumber, numLayers, tilesPerLayer, typeCount, oracle);
      level.levelNumber == levelNumber && level.maxLayers == numLayers &&
      level.levelName == "Level " + IntToString(levelNumber) &&
      level.tiles.Some? && |level.tiles.value| == Max0(TotalTiles(tilesPerLayer)) &&
      |level.tiles.value| % 3 == 0 &&
      (IsValid(level) <==> numLayers > 0 && tilesPerLayer > 0)
  {
  }

  /** Laying out a full type list keeps the types, in order. */
  lemma LayoutKeepsTypes(types: seq<ItemType>, oracle: Oracle, seed: int, n0: nat)
    ensures TypesOf(StackedLayout(|types|, types, oracle, seed, n0)) == types
  {
    var tiles := StackedLayout(|types|, types, oracle, seed, n0);
    forall k | 0 <= k < |types| ensures TypesOf(tiles)[k] == types[k] {
      assert tiles[k] == TemplateTile(k, types, oracle, seed, n0);
    }
  }

  /** The tile types of a generated level are the shuffled triple list. */
  lemma GeneratedLevelTypes(levelNumber: int, numLayers: int, tilesPerLayer: int, typeCount: nat, oracle: Oracle)
    requires typeCount > 0
    ensures TypesOf(GeneratedLevel(levelNumber, numLayers, tilesPerLayer, typeCount, oracle).tiles.value) ==
      Shuffled(TripleTypes(Max0(TotalTiles(tilesPerLayer) / 3), typeCount), oracle, levelNumber, 0)
  {
    var total := TotalTiles(tilesPerLayer);
    var types := TripleTypes(Max0(total / 3), typeCount);
    var shuffled := Shuffled(types, oracle, levelNumber, 0);
    assert |shuffled| == Max0(total);
    LayoutKeepsTypes(shuffled, oracle, levelNumber, Max0(|types| - 1));
  }

  /** Triples are conserved from the type list to the board: every type
      appears on a generated level three times per group of that type. */
  lemma GeneratedTypesComeInThrees(levelNumber: int, numLayers: int, tilesPerLayer: int, typeCount: nat, oracle: Oracle, t: ItemType)
    requires typeCount > 0
    ensures multiset(TypesOf(GeneratedLevel(levelNumber, numLayers, tilesPerLayer, typeCount, oracle).tiles.value))[t] ==
      3 * GroupsOfType(Max0(TotalTiles(tilesPerLayer) / 3), typeCount, t)
    ensures multiset(TypesOf(GeneratedLevel(levelNumber, numLayers, tilesPerLayer, typeCount, oracle).tiles.value))[t] % 3 == 0
  {
    var groups := Max0(TotalTiles(tilesPerLayer) / 3);
    var types := TripleTypes(groups, typeCount);
    GeneratedLevelTypes(levelNumber, numLayers, tilesPerLayer, typeCount, oracle);
    ShufflePermutes(types, |types| - 1, oracle, levelNumber, 0);
    TriplesComeInThrees(groups, typeCount, t);
    TimesThree(GroupsOfType(groups, typeCount, t));
  }

  lemma TimesThree(n: nat)
    ensures (3 * n) % 3 == 0
  {
  }
}
