/** The bottom slots: a bounded, ordered tray of items that resolves one
    group of three of a kind after each placement. */
module Slots {
  import opened Collections
  import opened Items
  import opened Matching

  /** What the tray signals to its subscriber, in order of firing. */
  datatype SlotsEvent = SlotsFull | ItemsMatched(count: nat)

  /** keys and groups are the grouping of seen: the keys in the order
      the groups were opened, each group the items of its type in order. */
  ghost predicate Grouped(seen: seq<Item>, keys: seq<ItemType>, groups: map<ItemType, seq<Item>>)
  {
    keys == TypesInOrder(seen) &&
    (forall k :: k in keys ==> k in groups) &&
    (forall k :: k in groups ==> k in keys && groups[k] == OfType(seen, k))
  }

  /** Adding one item to a grouping keeps it up to date: its group grows
      at the end, or is opened as the last key. */
  lemma GroupedSnoc(seen: seq<Item>, item: Item, keys: seq<ItemType>, groups: map<ItemType, seq<Item>>,
                    keys': seq<ItemType>, groups': map<ItemType, seq<Item>>)
    requires Grouped(seen, keys, groups)
    requires item.kind !in groups ==> keys' == keys + [item.kind] && groups' == groups[item.kind := [item]]
    requires item.kind in groups ==> keys' == keys && groups' == groups[item.kind := groups[item.kind] + [item]]
    ensures Grouped(seen + [item], keys', groups')
  {
    var kind := item.kind;
    TypesInOrderSnoc(seen, item);
    assert kind in groups <==> kind in keys;
    if kind !in groups {
      CountAbsent(seen, kind);
    }
    forall k | k in groups' ensures k in keys' && groups'[k] == OfType(seen + [item], k) {
      OfTypeSnoc(seen, item, k);
    }
  }

  /** GroupedSnoc at position i of s. */
  lemma GroupedStep(s: seq<Item>, i: nat, keys: seq<ItemType>, groups: map<ItemType, seq<Item>>,
                    keys': seq<ItemType>, groups': map<ItemType, seq<Item>>)
    requires i < |s| && Grouped(s[..i], keys, groups)
    requires s[i].kind !in groups ==> keys' == keys + [s[i].kind] && groups' == groups[s[i].kind := [s[i]]]
    requires s[i].kind in groups ==> keys' == keys && groups' == groups[s[i].kind := groups[s[i].kind] + [s[i]]]
    ensures Grouped(s[..i + 1], keys', groups')
  {
    assert s[..i + 1] == s[..i] + [s[i]];
    GroupedSnoc(s[..i], s[i], keys, groups, keys', groups');
  }

  /** The grouping dictionary of CheckForMatches: walks the list once,
      opening a group at the first item of each type (keys lists the groups
      in the order they were opened) and appending every item to its group. */
  method GroupByType(s: seq<Item>) returns (keys: seq<ItemType>, groups: map<ItemType, seq<Item>>)
    ensures Grouped(s, keys, groups)
  {
    keys, groups := [], map[];
    for i := 0 to |s|
      invariant Grouped(s[..i], keys, groups)
    {
      var item := s[i];
      var keys', groups';
      if item.kind !in groups {
        keys', groups' := keys + [item.kind], groups[item.kind := [item]];
      } else {
        keys', groups' := keys, groups[item.kind := groups[item.kind] + [item]];
      }
      GroupedStep(s, i, keys, groups, keys', groups');
      keys, groups := keys', groups';
    }
    assert s[..|s|] == s;
  }

  /** The scan over the dictionary: the position of the first key whose
      group holds three or more items, or |keys| when there is none. */
  method FindTripleGroup(keys: seq<ItemType>, groups: map<ItemType, seq<Item>>) returns (j: nat)
    requires forall k :: k in keys ==> k in groups
    ensures j <= |keys|
    ensures forall m :: 0 <= m < j ==> |groups[keys[m]]| < 3
    ensures j < |keys| ==> |groups[keys[j]]| >= 3
  {
    j := 0;
    while j < |keys| && |groups[keys[j]]| < 3
      invariant 0 <= j <= |keys|
      invariant forall m :: 0 <= m < j ==> |groups[keys[m]]| < 3
    {
      j := j + 1;
    }
  }

  /** The scan stopped at key j: that key is the resolved type and its
      group's first three items go. */
  lemma ScanStopsAtMatch(s: seq<Item>, keys: seq<ItemType>, groups: map<ItemType, seq<Item>>, j: nat)
    requires |s| >= 3 && Grouped(s, keys, groups) && j < |keys|
    requires forall m :: 0 <= m < j ==> |groups[keys[m]]| < 3
    requires |groups[keys[j]]| >= 3
    ensures MatchType(s) == Some(keys[j])
    ensures AfterMatch(s) == RemoveEach(s, groups[keys[j]][..3])
  {
    assert forall m :: 0 <= m < j ==> Count(s, keys[m]) < 3 by {
      forall m | 0 <= m < j ensures Count(s, keys[m]) < 3 {
        assert keys[m] in keys;
      }
    }
    FirstWithTripleSkips(keys, s, j);
    assert keys[j] in keys;
    assert keys[j..][0] == keys[j];
  }

  /** The scan went through every group without finding three: no match. */
  lemma ScanFindsNothing(s: seq<Item>, keys: seq<ItemType>, groups: map<ItemType, seq<Item>>)
    requires |s| >= 3 && Grouped(s, keys, groups)
    requires forall m :: 0 <= m < |keys| ==> |groups[keys[m]]| < 3
    ensures MatchType(s) == None && AfterMatch(s) == s
  {
    forall k | k in keys ensures Count(s, k) < 3 {
      var m :| 0 <= m < |keys| && keys[m] == k;
    }
  }

  /** Counts the items of every type, one pass over the tray. */
  method CountByType(s: seq<Item>) returns (counts: map<ItemType, nat>)
    ensures forall k :: k in counts ==> counts[k] == Count(s, k)
    ensures forall k :: k !in counts ==> Count(s, k) == 0
  {
    counts := map[];
    ghost var seen: seq<Item> := [];
    for i := 0 to |s|
      invariant seen == s[..i]
      invariant forall k :: k in counts ==> counts[k] == Count(seen, k)
      invariant forall k :: k !in counts ==> Count(seen, k) == 0
    {
      var item := s[i];
      assert seen + [item] == s[..i + 1];
      forall k ensures Count(seen + [item], k) == Count(seen, k) + (if item.kind == k then 1 else 0) {
        CountSnoc(seen, item, k);
      }
      var c := if item.kind in counts then counts[item.kind] else 0;
      counts := counts[item.kind := c + 1];
      seen := seen + [item];
    }
    assert seen == s;
  }

  class BottomSlotsManager {
    /** The configured number of slots (5 unless set otherwise). */
    const maxSlots: int
    /** The held items, oldest first; an item's slot is its index. */
    var items: seq<Item>

    /** The number of slots that can actually hold an item. */
    function Capacity(): nat
    {
      if maxSlots < 0 then 0 else maxSlots
    }

    /** The tray never holds more items than it has slots. */
    ghost predicate Valid()
      reads this
    {
      |items| <= Capacity()
    }

    constructor (maxSlots: int)
      ensures Valid() && this.maxSlots == maxSlots && items == []
    {
      this.maxSlots := maxSlots;
      items := [];
    }

    /** With the capacity invariant, a full tray holds exactly as many
        items as it has slots. */
    function IsFull(): (r: bool)
      reads this
      ensures Valid() ==> (r <==> |items| == Capacity())
    {
      |items| >= maxSlots
    }

    function ItemCount(): (r: nat)
      reads this
      ensures Valid() ==> r <= Capacity()
      ensures r == 0 <==> items == []
    {
      |items|
    }

    /** First phase of a placement. A full tray refuses the item and fires
        the slots-full signal; otherwise the item takes the next slot, at
        index ItemCount() - 1. */
    method AddItem(item: Item) returns (placed: bool, events: seq<SlotsEvent>)
      requires Valid()
      modifies this
      ensures Valid()
      ensures placed <==> |old(items)| < maxSlots
      ensures placed ==> items == old(items) + [item] && events == []
      ensures !placed ==> items == old(items) && events == [SlotsFull]
    {
      if IsFull() {
        return false, [SlotsFull];
      }
      items := items + [item];
      placed, events := true, [];
    }

    /** Second phase of a placement, run when the item has landed: the tray
        samples whether it is full, resolves at most one match, and then, if
        it was full, fires the slots-full signal even when the match freed
        slots. Returning stands for invoking the caller's continuation, which
        therefore always comes last. */
    method CompletePlacement() returns (events: seq<SlotsEvent>)
      requires Valid()
      modifies this
      ensures Valid()
      ensures items == AfterMatch(old(items))
      ensures events ==
        (if MatchType(old(items)).Some? then [ItemsMatched(3)] else []) +
        (if |old(items)| >= maxSlots then [SlotsFull] else [])
    {
      var wasFullBeforeMatch := IsFull();
      var matched := CheckForMatches();
      events := if matched > 0 then [ItemsMatched(matched)] else [];
      if wasFullBeforeMatch {
        events := events + [SlotsFull];
      }
    }

    /** Groups the items by type into a dictionary (keys in first-occurrence
        order) and removes the first three items of the first group that has
        three or more; reports how many items were matched. */
    method CheckForMatches() returns (matched: nat)
      requires Valid()
      modifies this
      ensures Valid()
      ensures items == AfterMatch(old(items))
      ensures matched == if MatchType(old(items)).Some? then 3 else 0
    {
      if |items| < 3 {
        return 0;
      }
      var keys, groups := GroupByType(items);
      var j := FindTripleGroup(keys, groups);
      if j == |keys| {
        ScanFindsNothing(items, keys, groups);
        return 0;
      }
      ScanStopsAtMatch(items, keys, groups, j);
      matched := RemoveMatchedItems(groups[keys[j]][..3]);
    }

    /** Takes each given item out of the list with List.Remove and reports
        how many were matched. */
    method RemoveMatchedItems(toRemove: seq<Item>) returns (count: nat)
      requires Valid()
      modifies this
      ensures Valid()
      ensures items == RemoveEach(old(items), toRemove)
      ensures count == |toRemove|
    {
      var i := 0;
      while i < |toRemove|
        invariant 0 <= i <= |toRemove|
        invariant Valid()
        invariant RemoveEach(items, toRemove[i..]) == RemoveEach(old(items), toRemove)
      {
        assert toRemove[i..][1..] == toRemove[i + 1..];
        items := RemoveFirst(items, toRemove[i]);
        i := i + 1;
      }
      count := |toRemove|;
    }

    /** Empties the tray. */
    method Clear()
      modifies this
      ensures Valid() && items == []
    {
      items := [];
    }

    /** Whether a match is still possible: always with fewer than three
        items, otherwise exactly when some type is held three times or more. */
    method CanMatch() returns (r: bool)
      ensures r <==> |items| < 3 || exists i :: 0 <= i < |items| && Count(items, items[i].kind) >= 3
    {
      if |items| < 3 {
        return true;
      }
      var typeCounts := CountByType(items);
      r := exists k :: k in typeCounts && typeCounts[k] >= 3;
      if r {
        var k :| k in typeCounts && typeCounts[k] >= 3;
        CountedTypeIsKey(items, k);
        KeysArePresentTypes(items, k);
      }
    }
  }
}
