/** The library sorts: every comparator of the program orders by a number and then by an identifier. */
module Sorting {
  import opened Text

  datatype Key = Key(rank: int, name: string)

  predicate KeyLeq(a: Key, b: Key) {
    a.rank < b.rank || (a.rank == b.rank && Leq(a.name, b.name))
  }

  lemma KeyTotal(a: Key, b: Key)
    ensures KeyLeq(a, b) || KeyLeq(b, a)
    ensures KeyLeq(a, b) && KeyLeq(b, a) ==> a == b
  {
    LeqTotal(a.name, b.name);
    if KeyLeq(a, b) && KeyLeq(b, a) {
      LeqAntisymmetric(a.name, b.name);
    }
  }

  lemma KeyTransitive(a: Key, b: Key, c: Key)
    requires KeyLeq(a, b) && KeyLeq(b, c)
    ensures KeyLeq(a, c)
  {
    if a.rank == b.rank == c.rank {
      LeqTransitive(a.name, b.name, c.name);
    }
  }

  predicate IsLeast(m: Key, s: set<Key>) {
    m in s && forall x | x in s :: KeyLeq(m, x)
  }

  lemma {:induction false} LeastExists(s: set<Key>)
    requires s != {}
    ensures exists m :: IsLeast(m, s)
    decreases |s|
  {
    var a :| a in s;
    KeyTotal(a, a);
    if s == {a} {
      assert IsLeast(a, s);
    } else {
      var rest := s - {a};
      assert rest < s && rest != {};
      LeastExists(rest);
      var b :| IsLeast(b, rest);
      KeyTotal(a, b);
      var m := if KeyLeq(a, b) then a else b;
      forall x | x in s ensures KeyLeq(m, x) {
        if x == a {
        } else {
          assert KeyLeq(b, x);
          if m == a {
            KeyTransitive(a, b, x);
          }
        }
      }
      assert IsLeast(m, s);
    }
  }

  lemma LeastUnique(a: Key, b: Key, s: set<Key>)
    requires IsLeast(a, s) && IsLeast(b, s)
    ensures a == b
  {
    KeyTotal(a, b);
  }

  function Least(s: set<Key>): (m: Key)
    requires s != {}
    ensures IsLeast(m, s)
  {
    LeastExists(s);
    assert forall a, b | IsLeast(a, s) && IsLeast(b, s) :: a == b by {
      forall a, b | IsLeast(a, s) && IsLeast(b, s) ensures a == b {
        LeastUnique(a, b, s);
      }
    }
    var m :| IsLeast(m, s);
    m
  }

  predicate Ascending(xs: seq<Key>) {
    forall i, j | 0 <= i < j < |xs| :: KeyLeq(xs[i], xs[j]) && xs[i] != xs[j]
  }

  ghost predicate Lists(xs: seq<Key>, s: set<Key>) {
    Ascending(xs) && forall x :: x in xs <==> x in s
  }

  /** `sort.Slice` over distinct keys. */
  function Sorted(s: set<Key>): (xs: seq<Key>)
    ensures Lists(xs, s) && |xs| == |s|
  {
    if s == {} then []
    else
      var m := Least(s);
      [m] + Sorted(s - {m})
  }

  /** Sorting determines the list: no second ascending list has the same elements. */
  lemma {:induction false} SortedUnique(xs: seq<Key>, ys: seq<Key>, s: set<Key>)
    requires Lists(xs, s) && Lists(ys, s)
    ensures xs == ys
    decreases |xs|
  {
    assert ys == [] || ys[0] in ys;
    assert xs == [] || xs[0] in xs;
    if xs != [] {
      assert xs[0] in ys && ys[0] in xs;
      var i :| 0 <= i < |xs| && xs[i] == ys[0];
      var j :| 0 <= j < |ys| && ys[j] == xs[0];
      KeyTotal(xs[0], ys[0]);
      assert xs[0] == ys[0];
      TailLists(xs, s);
      TailLists(ys, s);
      SortedUnique(xs[1..], ys[1..], s - {xs[0]});
      assert xs == [xs[0]] + xs[1..] && ys == [ys[0]] + ys[1..];
    }
  }

  lemma TailLists(xs: seq<Key>, s: set<Key>)
    requires Lists(xs, s) && xs != []
    ensures Lists(xs[1..], s - {xs[0]})
  {
  }

  // ---------------------------------------------------------------- names in order

  function Names(keys: seq<Key>): (names: seq<string>)
    ensures |names| == |keys|
    ensures forall i | 0 <= i < |keys| :: names[i] == keys[i].name
  {
    if keys == [] then [] else [keys[0].name] + Names(keys[1..])
  }

  predicate NameIn(name: string, keys: set<Key>) {
    exists key | key in keys :: key.name == name
  }

  /** The names of a sorted key set: each of them, once. */
  lemma NamesList(keys: set<Key>)
    requires forall a, b | a in keys && b in keys && a.name == b.name :: a == b
    ensures forall name :: name in Names(Sorted(keys)) <==> NameIn(name, keys)
    ensures forall i, j | 0 <= i < j < |Names(Sorted(keys))| :: Names(Sorted(keys))[i] != Names(Sorted(keys))[j]
  {
    var sorted := Sorted(keys);
    forall name ensures name in Names(sorted) <==> NameIn(name, keys) {
      if NameIn(name, keys) {
        var key :| key in keys && key.name == name;
        assert key in sorted;
        var i :| 0 <= i < |sorted| && sorted[i] == key;
        assert Names(sorted)[i] == name;
      }
      if name in Names(sorted) {
        var i :| 0 <= i < |sorted| && Names(sorted)[i] == name;
        assert sorted[i] in sorted;
      }
    }
    forall i, j | 0 <= i < j < |sorted| ensures Names(sorted)[i] != Names(sorted)[j] {
      assert sorted[i] in sorted && sorted[j] in sorted;
    }
  }

  predicate Distinct(names: seq<string>) {
    forall i, j | 0 <= i < j < |names| :: names[i] != names[j]
  }

  /** `sort.Strings` over distinct names. */
  function SortNames(names: set<string>): seq<string> {
    Names(Sorted(set name | name in names :: Key(0, name)))
  }

  lemma SortNamesList(names: set<string>)
    ensures Distinct(SortNames(names))
    ensures forall name :: name in SortNames(names) <==> name in names
  {
    var keys := set name | name in names :: Key(0, name);
    NamesList(keys);
    forall name ensures name in SortNames(names) <==> name in names {
      assert name in names ==> Key(0, name) in keys;
    }
  }

  lemma SortNamesAscending(names: set<string>)
    ensures forall i, j | 0 <= i < j < |SortNames(names)| :: Leq(SortNames(names)[i], SortNames(names)[j])
  {
    var keys := Sorted(set name | name in names :: Key(0, name));
    forall i, j | 0 <= i < j < |keys| ensures Leq(keys[i].name, keys[j].name) {
      assert keys[i] in keys && keys[j] in keys;
      assert KeyLeq(keys[i], keys[j]);
    }
  }
}
