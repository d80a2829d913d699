/** Generic helpers shared by the model: an optional value (a nullable
    reference in the game) and list removal as .NET's List.Remove does it. */
module Collections {

  /** A value or nothing; stands for a nullable reference. */
  datatype Option<+T> = None | Some(value: T)

  /** No element occurs twice. */
  ghost predicate NoDup<T>(s: seq<T>)
  {
    forall i, j :: 0 <= i < j < |s| ==> s[i] != s[j]
  }

  /** List.Remove: deletes the first occurrence of x, if there is one. */
  function RemoveFirst<T(==)>(s: seq<T>, x: T): (r: seq<T>)
    ensures |r| <= |s|
  {
    if s == [] then []
    else if s[0] == x then s[1..]
    else [s[0]] + RemoveFirst(s[1..], x)
  }

  /** Calling List.Remove once for each element of rs, in order. */
  function RemoveEach<T(==)>(s: seq<T>, rs: seq<T>): seq<T>
    decreases |rs|
  {
    if rs == [] then s else RemoveEach(RemoveFirst(s, rs[0]), rs[1..])
  }

  /** Remove cuts the list around the first occurrence of x, at i, and
      keeps the order of everything else. */
  lemma {:induction false} RemoveFirstAt<T>(s: seq<T>, x: T, i: nat)
    requires i < |s| && s[i] == x
    requires forall j :: 0 <= j < i ==> s[j] != x
    ensures RemoveFirst(s, x) == s[..i] + s[i + 1..]
  {
    if i == 0 {
      assert s[..0] + s[1..] == s[1..];
    } else {
      var rest := s[1..];
      forall j | 0 <= j < i - 1 ensures rest[j] != x {
        assert rest[j] == s[j + 1];
      }
      RemoveFirstAt(rest, x, i - 1);
      calc {
        RemoveFirst(s, x);
        [s[0]] + RemoveFirst(rest, x);
        [s[0]] + (rest[..i - 1] + rest[i..]);
        { assert s[..i] == [s[0]] + rest[..i - 1]; assert s[i + 1..] == rest[i..]; }
        s[..i] + s[i + 1..];
      }
    }
  }

  /** Remove leaves a list without x unchanged. */
  lemma {:induction false} RemoveFirstAbsent<T>(s: seq<T>, x: T)
    requires x !in s
    ensures RemoveFirst(s, x) == s
  {
    if s != [] {
      RemoveFirstAbsent(s[1..], x);
      assert s == [s[0]] + s[1..];
    }
  }

  /** Removing an element that is present takes exactly one copy of it out. */
  lemma {:induction false} RemoveFirstMultiset<T>(s: seq<T>, x: T)
    requires x in s
    ensures |RemoveFirst(s, x)| == |s| - 1
    ensures multiset(RemoveFirst(s, x)) == multiset(s) - multiset{x}
  {
    assert s == [s[0]] + s[1..];
    if s[0] != x {
      RemoveFirstMultiset(s[1..], x);
    }
  }

  /** Remove never adds anything. */
  lemma {:induction false} RemoveFirstSubset<T>(s: seq<T>, x: T)
    ensures multiset(RemoveFirst(s, x)) <= multiset(s)
  {
    if s != [] {
      assert s == [s[0]] + s[1..];
      RemoveFirstSubset(s[1..], x);
    }
  }

  /** In a list without duplicates, Remove deletes the element for good and
      keeps the list duplicate-free. */
  lemma {:induction false} RemoveFirstNoDup<T>(s: seq<T>, x: T)
    requires NoDup(s)
    ensures x !in RemoveFirst(s, x)
    ensures NoDup(RemoveFirst(s, x))
  {
    if s != [] {
      var rest := s[1..];
      assert forall i, j :: 0 <= i < j < |rest| ==> rest[i] == s[i + 1] && rest[j] == s[j + 1];
      assert s[0] !in rest;
      if s[0] != x {
        RemoveFirstNoDup(rest, x);
        RemoveFirstSubset(rest, x);
        var r := RemoveFirst(rest, x);
        assert s[0] !in multiset(r);
        var r' := [s[0]] + r;
        assert forall i :: 0 < i < |r'| ==> r'[i] == r[i - 1];
      }
    }
  }
}
