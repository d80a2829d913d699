/** The matching rule of the bottom slots, as functions of the ordered item
    list: grouping by type, the choice of the group to resolve, and what is
    left once its first three items are gone. */
module Matching {
  import opened Collections
  import opened Items

  /** The items of type t, in list order: one group of the grouping dictionary. */
  function OfType(s: seq<Item>, t: ItemType): (r: seq<Item>)
    ensures |r| <= |s|
    ensures forall i :: 0 <= i < |r| ==> r[i].kind == t
  {
    if s == [] then []
    else (if s[0].kind == t then [s[0]] else []) + OfType(s[1..], t)
  }

  /** How many items of type t the list holds. */
  function Count(s: seq<Item>, t: ItemType): nat
  {
    |OfType(s, t)|
  }

  /** No type is held three times or more. */
  ghost predicate NoTriple(s: seq<Item>)
  {
    forall t :: Count(s, t) < 3
  }

  /** The distinct types of s in the order of their first occurrence: the key
      order of a dictionary filled by walking s and adding unseen keys. */
  function TypesInOrder(s: seq<Item>): (ts: seq<ItemType>)
    ensures forall i :: 0 <= i < |s| ==> s[i].kind in ts
    ensures NoDup(ts)
  {
    if s == [] then []
    else
      var front := s[..|s| - 1];
      var ts := TypesInOrder(front);
      var k := s[|s| - 1].kind;
      assert forall i :: 0 <= i < |front| ==> s[i] == front[i];
      if k in ts then ts else ts + [k]
  }

  /** The first type of ts of which s holds at least three items. */
  function FirstWithTriple(ts: seq<ItemType>, s: seq<Item>): (r: Option<ItemType>)
    ensures r.Some? ==> r.value in ts && Count(s, r.value) >= 3
    ensures r.None? ==> forall k :: k in ts ==> Count(s, k) < 3
  {
    if ts == [] then None
    else if Count(s, ts[0]) >= 3 then Some(ts[0])
    else FirstWithTriple(ts[1..], s)
  }

  /** The type CheckForMatches resolves: none with fewer than three items,
      otherwise the first group, in dictionary order, of size three or more. */
  function MatchType(s: seq<Item>): (r: Option<ItemType>)
    ensures r.Some? ==> Count(s, r.value) >= 3
    ensures r.None? <==> |s| < 3 || forall i :: 0 <= i < |s| ==> Count(s, s[i].kind) < 3
  {
    if |s| < 3 then None
    else
      var ts := TypesInOrder(s);
      var found := FirstWithTriple(ts, s);
      assert found.None? ==> forall i :: 0 <= i < |s| ==> Count(s, s[i].kind) < 3 by {
        if found.None? {
          forall i | 0 <= i < |s|
            ensures Count(s, s[i].kind) < 3
          {
            assert s[i].kind in ts;
          }
        }
      }
      assert found.Some? ==> exists i :: 0 <= i < |s| && s[i].kind == found.value by {
        if found.Some? && forall i :: 0 <= i < |s| ==> s[i].kind != found.value {
          CountAbsent(s, found.value);
        }
      }
      found
  }

  /** The list after CheckForMatches: the first three items of the chosen
      group, taken out one List.Remove at a time. */
  function AfterMatch(s: seq<Item>): (r: seq<Item>)
    ensures |r| == if MatchType(s).Some? then |s| - 3 else |s|
  {
    match MatchType(s)
    case None => s
    case Some(t) =>
      var group := OfType(s, t);
      RemoveGroupPrefix(s, t, 3);
      DropLength(s, t, 3);
      RemoveEach(s, group[..3])
  }

  /** Reference definition: s without its first n items of type t; every
      other item stays, in its order. */
  function DropOfType(s: seq<Item>, t: ItemType, n: nat): seq<Item>
  {
    if s == [] then []
    else if s[0].kind == t && n > 0 then DropOfType(s[1..], t, n - 1)
    else [s[0]] + DropOfType(s[1..], t, n)
  }

  // ---------------------------------------------------------------------
  // Grouping

  lemma {:induction false} OfTypeConcat(a: seq<Item>, b: seq<Item>, t: ItemType)
    ensures OfType(a + b, t) == OfType(a, t) + OfType(b, t)
  {
    if a == [] {
      assert a + b == b;
    } else {
      assert (a + b)[0] == a[0];
      assert (a + b)[1..] == a[1..] + b;
      OfTypeConcat(a[1..], b, t);
    }
  }

  /** Appending an item grows the group of its own type, at the end, and
      no other group. */
  lemma OfTypeSnoc(p: seq<Item>, x: Item, t: ItemType)
    ensures OfType(p + [x], t) == OfType(p, t) + (if x.kind == t then [x] else [])
  {
    OfTypeConcat(p, [x], t);
    assert OfType([x], t) == (if x.kind == t then [x] else []) + OfType([], t);
  }

  /** Appending an item adds one to the count of its type and to no other. */
  lemma CountSnoc(s: seq<Item>, x: Item, t: ItemType)
    ensures Count(s + [x], t) == Count(s, t) + (if x.kind == t then 1 else 0)
  {
    OfTypeSnoc(s, x, t);
  }

  /** Appending an item adds its type as a new last key unless present. */
  lemma TypesInOrderSnoc(p: seq<Item>, x: Item)
    ensures TypesInOrder(p + [x]) ==
      if x.kind in TypesInOrder(p) then TypesInOrder(p) else TypesInOrder(p) + [x.kind]
  {
    assert (p + [x])[..|p|] == p;
  }

  /** A type that no item has is counted zero times. */
  lemma {:induction false} CountAbsent(s: seq<Item>, t: ItemType)
    requires forall i :: 0 <= i < |s| ==> s[i].kind != t
    ensures Count(s, t) == 0
  {
    if s != [] {
      assert s[0].kind != t;
      CountAbsent(s[1..], t);
    }
  }

  /** A type that occurs in s is one of its dictionary keys. */
  lemma CountedTypeIsKey(s: seq<Item>, t: ItemType)
    requires Count(s, t) > 0
    ensures t in TypesInOrder(s)
  {
    if t !in TypesInOrder(s) {
      CountAbsent(s, t);
    }
  }

  /** Every dictionary key is the type of some item. */
  lemma {:induction false} KeysArePresentTypes(s: seq<Item>, k: ItemType)
    requires k in TypesInOrder(s)
    ensures exists i :: 0 <= i < |s| && s[i].kind == k
  {
    var front := s[..|s| - 1];
    if k in TypesInOrder(front) {
      KeysArePresentTypes(front, k);
      var i :| 0 <= i < |front| && front[i].kind == k;
      assert s[i] == front[i];
    } else {
      assert s[|s| - 1].kind == k;
    }
  }

  lemma {:induction false} FirstWithTripleSnoc(ts: seq<ItemType>, k: ItemType, s: seq<Item>)
    ensures FirstWithTriple(ts + [k], s) ==
      if FirstWithTriple(ts, s).Some? then FirstWithTriple(ts, s)
      else if Count(s, k) >= 3 then Some(k) else None
  {
    if ts == [] {
      assert ts + [k] == [k];
      assert [k][1..] == [];
    } else {
      assert (ts + [k])[0] == ts[0];
      assert (ts + [k])[1..] == ts[1..] + [k];
      FirstWithTripleSnoc(ts[1..], k, s);
    }
  }

  /** Keys with fewer than three items are skipped by the scan. */
  lemma {:induction false} FirstWithTripleSkips(ts: seq<ItemType>, s: seq<Item>, j: nat)
    requires j <= |ts|
    requires forall m :: 0 <= m < j ==> Count(s, ts[m]) < 3
    ensures FirstWithTriple(ts, s) == FirstWithTriple(ts[j..], s)
  {
    if j == 0 {
      assert ts[0..] == ts;
    } else {
      FirstWithTripleSkips(ts, s, j - 1);
      var tail := ts[j - 1..];
      assert tail[0] == ts[j - 1] && tail[1..] == ts[j..];
      assert Count(s, tail[0]) < 3;
    }
  }

  /** One more item in the prefix: the scan keeps its earlier answer, and
      otherwise answers the new item's type if that type reaches three. */
  lemma ScanSnoc(front: seq<Item>, x: Item, whole: seq<Item>)
    ensures FirstWithTriple(TypesInOrder(front + [x]), whole) ==
      var r0 := FirstWithTriple(TypesInOrder(front), whole);
      if r0.Some? then r0 else if Count(whole, x.kind) >= 3 then Some(x.kind) else None
  {
    TypesInOrderSnoc(front, x);
    var ts := TypesInOrder(front);
    if x.kind !in ts {
      FirstWithTripleSnoc(ts, x.kind, whole);
    }
  }

  /** Scanning the keys of the grouping of a prefix p finds the type of the
      first position of p whose type reaches three in the whole list. */
  lemma {:induction false} ScanFindsEarliest(p: seq<Item>, whole: seq<Item>)
    ensures FirstWithTriple(TypesInOrder(p), whole).None? <==>
      forall i :: 0 <= i < |p| ==> Count(whole, p[i].kind) < 3
    ensures FirstWithTriple(TypesInOrder(p), whole).Some? ==>
      exists i :: 0 <= i < |p| && p[i].kind == FirstWithTriple(TypesInOrder(p), whole).value &&
        forall j :: 0 <= j < i ==> Count(whole, p[j].kind) < 3
    decreases |p|
  {
    if p == [] {
      return;
    }
    var front := p[..|p| - 1];
    var x := p[|p| - 1];
    assert p == front + [x];
    ScanFindsEarliest(front, whole);
    ScanSnoc(front, x, whole);
    var r0 := FirstWithTriple(TypesInOrder(front), whole);
    var r := FirstWithTriple(TypesInOrder(p), whole);
    assert forall j :: 0 <= j < |front| ==> p[j] == front[j];
    if r0.Some? {
      var i :| 0 <= i < |front| && front[i].kind == r0.value &&
        forall j :: 0 <= j < i ==> Count(whole, front[j].kind) < 3;
      assert p[i] == front[i];
    } else if r.Some? {
      assert p[|p| - 1].kind == r.value;
    }
  }

  /** The tie-break among several groups of three: the resolved type is the
      type of the earliest item whose type is held at least three times. */
  lemma MatchTypeIsEarliest(s: seq<Item>)
    ensures MatchType(s).None? <==>
      |s| < 3 || forall i :: 0 <= i < |s| ==> Count(s, s[i].kind) < 3
    ensures MatchType(s).Some? ==> Count(s, MatchType(s).value) >= 3
    ensures MatchType(s).Some? ==>
      exists i :: 0 <= i < |s| && s[i].kind == MatchType(s).value &&
        forall j :: 0 <= j < i ==> Count(s, s[j].kind) < 3
  {
    ScanFindsEarliest(s, s);
  }

  // ---------------------------------------------------------------------
  // Removal of the matched group

  lemma {:induction false} DropNothing(s: seq<Item>, t: ItemType)
    ensures DropOfType(s, t, 0) == s
  {
    if s != [] {
      DropNothing(s[1..], t);
    }
  }

  /** Dropping a items of type t and then b more is dropping a + b. */
  lemma {:induction false} DropDrop(s: seq<Item>, t: ItemType, a: nat, b: nat)
    ensures DropOfType(DropOfType(s, t, a), t, b) == DropOfType(s, t, a + b)
  {
    if s != [] {
      var rest := s[1..];
      if s[0].kind == t && a > 0 {
        DropDrop(rest, t, a - 1, b);
      } else if s[0].kind == t {
        var d := DropOfType(s, t, 0);
        assert d == [s[0]] + DropOfType(rest, t, 0);
        assert d[0] == s[0] && d[1..] == DropOfType(rest, t, 0);
        if b > 0 {
          DropDrop(rest, t, 0, b - 1);
        } else {
          DropDrop(rest, t, 0, 0);
        }
      } else {
        var d := DropOfType(s, t, a);
        assert d[0] == s[0] && d[1..] == DropOfType(rest, t, a);
        DropDrop(rest, t, a, b);
      }
    }
  }

  /** What dropping does to every group: the dropped type loses its first n
      items and every other group is untouched. */
  lemma {:induction false} OfTypeDrop(s: seq<Item>, t: ItemType, n: nat, u: ItemType)
    requires n <= Count(s, t)
    ensures OfType(DropOfType(s, t, n), u) == if u == t then OfType(s, t)[n..] else OfType(s, u)
    decreases |s|, 1
  {
    if n == 0 {
      DropNothing(s, t);
    } else if s[0].kind == t {
      OfTypeDropHead(s, t, n, u);
    } else {
      OfTypeDropKeep(s, t, n, u);
    }
  }

  /** OfTypeDrop when the head is one of the dropped items. */
  lemma {:induction false} OfTypeDropHead(s: seq<Item>, t: ItemType, n: nat, u: ItemType)
    requires 0 < n <= Count(s, t) && s[0].kind == t
    ensures OfType(DropOfType(s, t, n), u) == if u == t then OfType(s, t)[n..] else OfType(s, u)
    decreases |s|, 0
  {
    var rest := s[1..];
    assert DropOfType(s, t, n) == DropOfType(rest, t, n - 1);
    assert OfType(s, t) == [s[0]] + OfType(rest, t);
    OfTypeDrop(rest, t, n - 1, u);
    if u == t {
      assert OfType(s, t)[n..] == OfType(rest, t)[n - 1..];
    } else {
      assert OfType(s, u) == OfType(rest, u);
    }
  }

  /** OfTypeDrop when the head is kept. */
  lemma {:induction false} OfTypeDropKeep(s: seq<Item>, t: ItemType, n: nat, u: ItemType)
    requires 0 < n <= Count(s, t) && s[0].kind != t
    ensures OfType(DropOfType(s, t, n), u) == if u == t then OfType(s, t)[n..] else OfType(s, u)
    decreases |s|, 0
  {
    var x, rest := s[0], s[1..];
    var d := DropOfType(rest, t, n);
    assert OfType(s, t) == OfType(rest, t);
    assert DropOfType(s, t, n) == [x] + d;
    assert ([x] + d)[0] == x && ([x] + d)[1..] == d;
    assert OfType([x] + d, u) == (if x.kind == u then [x] else []) + OfType(d, u);
    OfTypeDrop(rest, t, n, u);
    assert OfType(s, u) == (if x.kind == u then [x] else []) + OfType(rest, u);
  }

  /** Dropping n items of a type held at least n times shortens the list by n. */
  lemma {:induction false} DropLength(s: seq<Item>, t: ItemType, n: nat)
    requires n <= Count(s, t)
    ensures |DropOfType(s, t, n)| == |s| - n
  {
    if n == 0 {
      DropNothing(s, t);
    } else {
      assert OfType(s, t) == (if s[0].kind == t then [s[0]] else []) + OfType(s[1..], t);
      DropLength(s[1..], t, if s[0].kind == t then n - 1 else n);
    }
  }

  /** List.Remove of the first item of type t drops exactly that item. */
  lemma {:induction false} RemoveFirstOfType(s: seq<Item>, t: ItemType)
    requires Count(s, t) > 0
    ensures RemoveFirst(s, OfType(s, t)[0]) == DropOfType(s, t, 1)
  {
    var rest := s[1..];
    if s[0].kind == t {
      assert OfType(s, t)[0] == s[0];
      DropNothing(rest, t);
    } else {
      assert OfType(s, t) == OfType(rest, t);
      assert OfType(s, t)[0] != s[0];
      RemoveFirstOfType(rest, t);
    }
  }

  /** Removing, one List.Remove at a time, the first n items of the group of
      type t is the same as dropping the first n items of that type. */
  lemma {:induction false} RemoveGroupPrefix(s: seq<Item>, t: ItemType, n: nat)
    requires n <= Count(s, t)
    ensures RemoveEach(s, OfType(s, t)[..n]) == DropOfType(s, t, n)
    decreases n
  {
    var rs := OfType(s, t)[..n];
    if n == 0 {
      DropNothing(s, t);
    } else {
      var g := OfType(s, t);
      var s' := DropOfType(s, t, 1);
      assert rs[0] == g[0];
      RemoveFirstOfType(s, t);
      assert RemoveEach(s, rs) == RemoveEach(s', rs[1..]);
      OfTypeDrop(s, t, 1, t);
      assert OfType(s', t) == g[1..];
      assert rs[1..] == g[1..][..n - 1];
      RemoveGroupPrefix(s', t, n - 1);
      DropDrop(s, t, 1, n - 1);
    }
  }

  /** One call of CheckForMatches on a list with a group of three removes
      exactly the first three items of the chosen type: every other item keeps
      its place in the order, the chosen group loses its first three items,
      every other group is unchanged, and the list shrinks by three. */
  lemma MatchRemovesFirstThree(s: seq<Item>)
    requires MatchType(s).Some?
    ensures AfterMatch(s) == DropOfType(s, MatchType(s).value, 3)
    ensures |AfterMatch(s)| == |s| - 3
    ensures OfType(AfterMatch(s), MatchType(s).value) == OfType(s, MatchType(s).value)[3..]
    ensures Count(AfterMatch(s), MatchType(s).value) == Count(s, MatchType(s).value) - 3
    ensures forall u :: u != MatchType(s).value ==> OfType(AfterMatch(s), u) == OfType(s, u)
  {
    var t := MatchType(s).value;
    RemoveGroupPrefix(s, t, 3);
    DropLength(s, t, 3);
    OfTypeDrop(s, t, 3, t);
    forall u | u != t
      ensures OfType(AfterMatch(s), u) == OfType(s, u)
    {
      OfTypeDrop(s, t, 3, u);
    }
  }

  /** With no triple in the tray, only the type of the item just added can
      reach three. */
  lemma OnlyAddedTypeCanMatch(s: seq<Item>, x: Item)
    requires NoTriple(s)
    ensures MatchType(s + [x]) == None || MatchType(s + [x]) == Some(x.kind)
  {
    if MatchType(s + [x]).Some? {
      CountSnoc(s, x, MatchType(s + [x]).value);
    }
  }

  /** A tray that never holds three of a kind keeps that property through an
      addition followed by the match check. */
  lemma AddThenMatchKeepsNoTriple(s: seq<Item>, x: Item)
    requires NoTriple(s)
    ensures NoTriple(AfterMatch(s + [x]))
  {
    var s' := s + [x];
    OnlyAddedTypeCanMatch(s, x);
    forall u ensures Count(s', u) == Count(s, u) + (if x.kind == u then 1 else 0) {
      CountSnoc(s, x, u);
    }
    if MatchType(s').Some? {
      MatchRemovesFirstThree(s');
    } else if |s'| >= 3 {
      forall u ensures Count(s', u) < 3 {
        if Count(s', u) > 0 {
          CountedTypeIsKey(s', u);
        }
      }
    }
  }
}
