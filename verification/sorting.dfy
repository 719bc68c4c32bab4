/** The library sort the program calls, as a stable insertion sort, and the
    orders it is called with. */
module Sorting {
  import opened Store

  ghost predicate TotalPreorder<T(!new)>(le: (T, T) -> bool) {
    && (forall x, y :: le(x, y) || le(y, x))
    && (forall x, y, z :: le(x, y) && le(y, z) ==> le(x, z))
  }

  ghost predicate Sorted<T>(xs: seq<T>, le: (T, T) -> bool) {
    forall i, j :: 0 <= i < j < |xs| ==> le(xs[i], xs[j])
  }

  /** Only equal elements of xs are tied. */
  ghost predicate Untied<T>(xs: seq<T>, le: (T, T) -> bool) {
    forall i, j :: 0 <= i < j < |xs| && le(xs[i], xs[j]) && le(xs[j], xs[i]) ==> xs[i] == xs[j]
  }

  function Place<T>(xs: seq<T>, x: T, le: (T, T) -> bool): (r: seq<T>)
    ensures |r| == |xs| + 1
  {
    if xs == [] then [x]
    else if le(xs[|xs| - 1], x) then xs + [x]
    else Place(xs[..|xs| - 1], x, le) + [xs[|xs| - 1]]
  }

  function Sort<T>(xs: seq<T>, le: (T, T) -> bool): (r: seq<T>)
    ensures |r| == |xs|
  {
    if xs == [] then [] else Place(Sort(xs[..|xs| - 1], le), xs[|xs| - 1], le)
  }

  lemma {:induction false} PlaceKeeps<T(!new)>(xs: seq<T>, x: T, le: (T, T) -> bool)
    ensures multiset(Place(xs, x, le)) == multiset(xs) + multiset{x}
  {
    if xs != [] {
      var init, last := xs[..|xs| - 1], xs[|xs| - 1];
      assert xs == init + [last];
      PlaceKeeps(init, x, le);
    }
  }

  lemma {:induction false} PlaceSorts<T(!new)>(xs: seq<T>, x: T, le: (T, T) -> bool)
    requires TotalPreorder(le) && Sorted(xs, le)
    ensures Sorted(Place(xs, x, le), le)
  {
    if xs != [] {
      var init, last := xs[..|xs| - 1], xs[|xs| - 1];
      if le(last, x) {
        forall i | 0 <= i < |xs| ensures le(xs[i], x) {
          assert i == |xs| - 1 || le(xs[i], last);
        }
      } else {
        PlaceSorts(init, x, le);
        PlaceKeeps(init, x, le);
        var placed := Place(init, x, le);
        forall i | 0 <= i < |placed| ensures le(placed[i], last) {
          assert placed[i] in multiset(placed);
          assert placed[i] == x || placed[i] in init;
        }
      }
    }
  }

  /** The result of a sort is in order and holds exactly what went in. */
  lemma {:induction false} SortSorts<T(!new)>(xs: seq<T>, le: (T, T) -> bool)
    requires TotalPreorder(le)
    ensures Sorted(Sort(xs, le), le) && multiset(Sort(xs, le)) == multiset(xs)
  {
    if xs != [] {
      var init, last := xs[..|xs| - 1], xs[|xs| - 1];
      SortSorts(init, le);
      PlaceSorts(Sort(init, le), last, le);
      PlaceKeeps(Sort(init, le), last, le);
      assert xs == init + [last];
    }
  }

  lemma LastIsGreatest<T(!new)>(xs: seq<T>, y: T, le: (T, T) -> bool)
    requires Sorted(xs, le) && y in multiset(xs)
    ensures y == xs[|xs| - 1] || le(y, xs[|xs| - 1])
  {
    var i :| 0 <= i < |xs| && xs[i] == y;
    if i < |xs| - 1 {
      assert le(xs[i], xs[|xs| - 1]);
    }
  }

  lemma LastIsShared<T(!new)>(xs: seq<T>, ys: seq<T>, le: (T, T) -> bool)
    requires xs != [] && ys != [] && Sorted(xs, le) && Sorted(ys, le) && multiset(xs) == multiset(ys) && Untied(xs, le)
    ensures xs[|xs| - 1] == ys[|ys| - 1]
  {
    var x, y := xs[|xs| - 1], ys[|ys| - 1];
    assert y in ys && x in xs;
    assert y in multiset(ys) && x in multiset(xs);
    LastIsGreatest(xs, y, le);
    LastIsGreatest(ys, x, le);
    var i :| 0 <= i < |xs| && xs[i] == y;
  }

  lemma PrefixKeepsOrder<T(!new)>(xs: seq<T>, le: (T, T) -> bool)
    requires xs != [] && Sorted(xs, le)
    ensures Sorted(xs[..|xs| - 1], le)
    ensures Untied(xs, le) ==> Untied(xs[..|xs| - 1], le)
  {
  }

  lemma DropLast<T(!new)>(xs: seq<T>)
    requires xs != []
    ensures multiset(xs[..|xs| - 1]) == multiset(xs) - multiset{xs[|xs| - 1]}
  {
    assert xs == xs[..|xs| - 1] + [xs[|xs| - 1]];
  }

  /** When only equal elements are tied there is only one order. */
  lemma {:induction false} SortedIsUnique<T(!new)>(xs: seq<T>, ys: seq<T>, le: (T, T) -> bool)
    requires Sorted(xs, le) && Sorted(ys, le) && multiset(xs) == multiset(ys)
    requires Untied(xs, le)
    ensures xs == ys
    decreases |xs|
  {
    SameSize(xs, ys);
    if xs != [] {
      LastIsShared(xs, ys, le);
      PrefixKeepsOrder(xs, le);
      PrefixKeepsOrder(ys, le);
      DropLast(xs);
      DropLast(ys);
      SortedIsUnique(xs[..|xs| - 1], ys[..|ys| - 1], le);
      Rejoin(xs);
      Rejoin(ys);
    }
  }

  lemma Rejoin<T(!new)>(xs: seq<T>)
    requires xs != []
    ensures xs == xs[..|xs| - 1] + [xs[|xs| - 1]]
  {
  }

  lemma SameSize<T(!new)>(xs: seq<T>, ys: seq<T>)
    requires multiset(xs) == multiset(ys)
    ensures |xs| == |ys|
  {
    assert |multiset(xs)| == |xs| && |multiset(ys)| == |ys|;
  }

  lemma {:induction false} SortAppendsLater<T(!new)>(xs: seq<T>, ys: seq<T>, le: (T, T) -> bool)
    requires TotalPreorder(le)
    requires forall x <- xs, y <- ys :: le(x, y) && !le(y, x)
    ensures Sort(xs + ys, le) == Sort(xs, le) + Sort(ys, le)
  {
    if ys == [] {
      assert xs + ys == xs && Sort(xs, le) + [] == Sort(xs, le);
    } else {
      var init, last := ys[..|ys| - 1], ys[|ys| - 1];
      assert xs + ys == (xs + init) + [last];
      assert (xs + ys)[..|xs + ys| - 1] == xs + init;
      SortAppendsLater(xs, init, le);
      SortSorts(xs, le);
      PlacesAfter(Sort(xs, le), Sort(init, le), last, le) by {
        forall x | x in Sort(xs, le) ensures le(x, last) {
          assert x in multiset(Sort(xs, le));
          assert x in xs;
        }
      }
    }
  }

  lemma {:induction false} PlacesAfter<T(!new)>(xs: seq<T>, ys: seq<T>, y: T, le: (T, T) -> bool)
    requires forall x <- xs :: le(x, y)
    ensures Place(xs + ys, y, le) == xs + Place(ys, y, le)
  {
    if ys == [] {
      assert xs + ys == xs;
      if xs != [] {
        assert le(xs[|xs| - 1], y);
      }
      assert xs + Place(ys, y, le) == xs + [y];
    } else {
      var all := xs + ys;
      assert all[|all| - 1] == ys[|ys| - 1];
      assert all[..|all| - 1] == xs + ys[..|ys| - 1];
      if le(ys[|ys| - 1], y) {
        assert all + [y] == xs + (ys + [y]);
      } else {
        PlacesAfter(xs, ys[..|ys| - 1], y, le);
      }
    }
  }

  // ---- orders ----

  /** strings.Compare(a, b) <= 0. */
  predicate TextLe(a: string, b: string) {
    a == [] || (b != [] && (a[0] < b[0] || (a[0] == b[0] && TextLe(a[1..], b[1..]))))
  }

  lemma {:induction false} TextTotal(a: string, b: string)
    ensures TextLe(a, b) || TextLe(b, a)
    ensures TextLe(a, b) && TextLe(b, a) ==> a == b
  {
    if a != [] && b != [] && a[0] == b[0] {
      TextTotal(a[1..], b[1..]);
      assert a == [a[0]] + a[1..] && b == [b[0]] + b[1..];
    }
  }

  lemma {:induction false} TextTransitive(a: string, b: string, c: string)
    requires TextLe(a, b) && TextLe(b, c)
    ensures TextLe(a, c)
  {
    if a != [] && a[0] == b[0] && b[0] == c[0] {
      TextTransitive(a[1..], b[1..], c[1..]);
    }
  }

  /** Kind, then inbound id, then path: the order of documents and key lists. */
  predicate KeyLe(x: TargetKey, y: TargetKey) {
    if x.kind != y.kind then TextLe(x.kind, y.kind)
    else if x.inbound != y.inbound then x.inbound < y.inbound
    else TextLe(x.path, y.path)
  }

  lemma KeyOrder(x: TargetKey, y: TargetKey)
    ensures KeyLe(x, y) || KeyLe(y, x)
    ensures KeyLe(x, y) && KeyLe(y, x) ==> x == y
  {
    TextTotal(x.kind, y.kind);
    TextTotal(x.path, y.path);
  }

  lemma KeyTransitive(x: TargetKey, y: TargetKey, z: TargetKey)
    requires KeyLe(x, y) && KeyLe(y, z)
    ensures KeyLe(x, z)
  {
    TextTotal(x.kind, y.kind);
    TextTotal(y.kind, z.kind);
    if x.kind == y.kind == z.kind {
      if x.inbound == y.inbound == z.inbound {
        TextTransitive(x.path, y.path, z.path);
      }
    } else if x.kind != y.kind && y.kind != z.kind {
      TextTransitive(x.kind, y.kind, z.kind);
      TextTotal(x.kind, z.kind);
    }
  }
}
