/** Iteration over `BTreeMap`s with integer keys: the keys of a map in ascending order. */
module OrderedMaps {

  lemma {:induction false} LeastExists(s: set<nat>)
    requires s != {}
    ensures exists k :: IsLeast(s, k)
    decreases |s|
  {
    var k :| k in s;
    var rest := s - {k};
    if rest == {} {
      assert s == {k};
      assert IsLeast(s, k);
    } else {
      assert |rest| < |s|;
      LeastExists(rest);
      var m :| IsLeast(rest, m);
      assert s == rest + {k};
      assert IsLeast(s, if k <= m then k else m);
    }
  }

  ghost predicate IsLeast(s: set<nat>, k: nat) {
    k in s && forall j :: j in s ==> k <= j
  }

  function Least(s: set<nat>): (k: nat)
    requires s != {}
    ensures k in s && forall j :: j in s ==> k <= j
  {
    LeastExists(s);
    assert exists k :: k in s && forall j :: j in s ==> k <= j by {
      var k :| IsLeast(s, k);
      assert k in s;
    }
    var k :| k in s && forall j :: j in s ==> k <= j;
    k
  }

  lemma LeastFirst(s: set<nat>, k: nat, rest: seq<nat>)
    requires k in s && (forall j :: j in s ==> k <= j)
    requires |rest| == |s - {k}| && (forall j :: j in rest <==> j in s - {k})
    requires forall i, j :: 0 <= i < j < |rest| ==> rest[i] < rest[j]
    ensures |[k] + rest| == |s| && (forall j :: j in [k] + rest <==> j in s)
    ensures forall i, j :: 0 <= i < j < |[k] + rest| ==> ([k] + rest)[i] < ([k] + rest)[j]
  {
    forall i | 0 <= i < |rest|
      ensures k < rest[i]
    {
      assert rest[i] in rest;
    }
  }

  function SortedKeys(s: set<nat>): (keys: seq<nat>)
    ensures |keys| == |s|
    ensures forall k :: k in keys <==> k in s
    ensures forall i, j :: 0 <= i < j < |keys| ==> keys[i] < keys[j]
    decreases |s|
  {
    if s == {} then []
    else
      var k := Least(s);
      var rest := SortedKeys(s - {k});
      LeastFirst(s, k, rest);
      [k] + rest
  }

  function Elements<T>(s: seq<T>): set<T>
  {
    set x | x in s
  }

  lemma ElementsOfSorted(s: set<nat>)
    ensures Elements(SortedKeys(s)) == s
  {
    hide SortedKeys;
  }

  ghost predicate Ascending(s: seq<nat>) {
    forall i, j :: 0 <= i < j < |s| ==> s[i] < s[j]
  }

  /** An ascending sequence is determined by its elements. */
  lemma {:induction false} AscendingUnique(a: seq<nat>, b: seq<nat>)
    requires Ascending(a) && Ascending(b) && forall x :: x in a <==> x in b
    ensures a == b
    decreases |a|
  {
    assert b == [] || b[0] in b;
    if a != [] {
      assert a[0] in a && a[0] in b;
      assert b[0] in b && b[0] in a;
      assert a[0] == b[0];
      forall x
        ensures x in a[1..] <==> x in b[1..]
      {
        assert x in a[1..] <==> x in a && x != a[0];
        assert x in b[1..] <==> x in b && x != b[0];
      }
      AscendingUnique(a[1..], b[1..]);
    }
  }

  /** The keys that are selected, in their order. */
  function Picked(keys: seq<nat>, sel: set<nat>): (r: seq<nat>)
    ensures forall k :: k in r <==> k in keys && k in sel
  {
    if keys == [] then []
    else
      var front := Picked(keys[..|keys| - 1], sel);
      assert keys == keys[..|keys| - 1] + [keys[|keys| - 1]];
      if keys[|keys| - 1] in sel then front + [keys[|keys| - 1]] else front
  }

  lemma PickedSnoc(keys: seq<nat>, i: nat, sel: set<nat>)
    requires i < |keys|
    ensures Picked(keys[..i + 1], sel)
         == if keys[i] in sel then Picked(keys[..i], sel) + [keys[i]] else Picked(keys[..i], sel)
  {
    assert keys[..i + 1][..i] == keys[..i];
  }

  lemma {:induction false} PickedAscends(keys: seq<nat>, sel: set<nat>)
    requires Ascending(keys)
    ensures Ascending(Picked(keys, sel))
  {
    if keys != [] {
      var front := keys[..|keys| - 1];
      var last := keys[|keys| - 1];
      PickedAscends(front, sel);
      var picked := Picked(front, sel);
      assert Picked(keys, sel) == if last in sel then picked + [last] else picked;
      forall i | 0 <= i < |picked|
        ensures picked[i] < last
      {
        assert picked[i] in front;
      }
    }
  }

  /** Going over all keys of a map in order meets a subset of them in order. */
  lemma PickedIsSorted(s: set<nat>, sel: set<nat>)
    requires sel <= s
    ensures Picked(SortedKeys(s), sel) == SortedKeys(sel)
  {
    hide SortedKeys;
    hide Picked;
    PickedAscends(SortedKeys(s), sel);
    AscendingUnique(Picked(SortedKeys(s), sel), SortedKeys(sel));
  }

  lemma FewerOrEqual(a: set<nat>, b: set<nat>)
    requires a <= b
    ensures |a| <= |b|
  {
    assert b == a + (b - a);
    assert |a + (b - a)| == |a| + |b - a|;
  }
}
