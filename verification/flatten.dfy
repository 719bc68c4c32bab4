/** Collecting a list per element, and what the order of the elements changes. */
module Flatten {

  ghost predicate Distinct<T>(xs: seq<T>) {
    forall i, j :: 0 <= i < j < |xs| ==> xs[i] != xs[j]
  }

  lemma DistinctPrefix<T>(xs: seq<T>)
    requires Distinct(xs) && xs != []
    ensures Distinct(xs[..|xs| - 1]) && xs[|xs| - 1] !in xs[..|xs| - 1]
  {
  }

  lemma DistinctAppend<T>(xs: seq<T>, x: T)
    requires Distinct(xs) && x !in xs
    ensures Distinct(xs + [x])
  {
  }

  function Flat<T, U>(xs: seq<T>, f: T -> seq<U>): seq<U> {
    if xs == [] then [] else Flat(xs[..|xs| - 1], f) + f(xs[|xs| - 1])
  }

  lemma FlatAppend<T, U>(xs: seq<T>, x: T, f: T -> seq<U>)
    ensures Flat(xs + [x], f) == Flat(xs, f) + f(x)
  {
    assert (xs + [x])[..|xs|] == xs;
  }

  lemma {:induction false} FlatConcat<T, U>(xs: seq<T>, ys: seq<T>, f: T -> seq<U>)
    ensures Flat(xs + ys, f) == Flat(xs, f) + Flat(ys, f)
  {
    if ys == [] {
      assert xs + ys == xs;
    } else {
      var init, last := ys[..|ys| - 1], ys[|ys| - 1];
      assert xs + ys == (xs + init) + [last] && ys == init + [last];
      FlatConcat(xs, init, f);
      FlatAppend(xs + init, last, f);
      FlatAppend(init, last, f);
    }
  }

  lemma FlatAround<T, U>(front: seq<T>, x: T, back: seq<T>, f: T -> seq<U>)
    ensures Flat((front + [x]) + back, f) == (Flat(front, f) + f(x)) + Flat(back, f)
  {
    FlatConcat(front + [x], back, f);
    FlatAppend(front, x, f);
  }

  lemma TakeOutMiddle<U>(a: seq<U>, b: seq<U>, c: seq<U>)
    ensures multiset((a + b) + c) == multiset(a + c) + multiset(b)
  {
  }

  lemma FlatWithout<T, U>(xs: seq<T>, i: nat, f: T -> seq<U>)
    requires i < |xs|
    ensures multiset(Flat(xs, f)) == multiset(Flat(xs[..i] + xs[i + 1..], f)) + multiset(f(xs[i]))
  {
    var front, back := xs[..i], xs[i + 1..];
    assert xs == (front + [xs[i]]) + back;
    FlatAround(front, xs[i], back, f);
    FlatConcat(front, back, f);
    TakeOutMiddle(Flat(front, f), f(xs[i]), Flat(back, f));
  }

  lemma InWithout<T>(xs: seq<T>, i: nat, x: T)
    requires i < |xs| && Distinct(xs)
    ensures x in xs[..i] + xs[i + 1..] <==> x in xs && x != xs[i]
  {
    assert xs == xs[..i] + [xs[i]] + xs[i + 1..];
    var rest := xs[..i] + xs[i + 1..];
    if x in rest {
      var j :| 0 <= j < |rest| && rest[j] == x;
      assert rest[j] == if j < i then xs[j] else xs[j + 1];
    }
  }

  /** Two duplicate-free lists of the same elements collect the same things. */
  lemma {:induction false} FlatIgnoresOrder<T(!new), U>(xs: seq<T>, ys: seq<T>, f: T -> seq<U>)
    requires Distinct(xs) && Distinct(ys) && (forall x :: x in xs <==> x in ys)
    ensures multiset(Flat(xs, f)) == multiset(Flat(ys, f))
    decreases |xs|
  {
    assert ys == [] || ys[0] in xs;
    if xs != [] {
      var n := |xs| - 1;
      assert xs[n] in ys;
      var i :| 0 <= i < |ys| && ys[i] == xs[n];
      FlatWithout(xs, n, f);
      FlatWithout(ys, i, f);
      var xs', ys' := xs[..n] + xs[n + 1..], ys[..i] + ys[i + 1..];
      forall x ensures x in xs' <==> x in ys' {
        InWithout(xs, n, x);
        InWithout(ys, i, x);
      }
      FlatIgnoresOrder(xs', ys', f);
    }
  }

  lemma {:induction false} FlatMembers<T, U(!new)>(xs: seq<T>, f: T -> seq<U>)
    ensures forall u :: u in Flat(xs, f) <==> exists x <- xs :: u in f(x)
  {
    if xs != [] {
      var init, last := xs[..|xs| - 1], xs[|xs| - 1];
      FlatMembers(init, f);
      assert xs == init + [last];
      forall u
        ensures u in Flat(xs, f) <==> exists x <- xs :: u in f(x)
      {
        if u in f(last) {
          assert last in xs;
        }
      }
    }
  }

  lemma TwiceIsTwo<T>(ys: seq<T>, i: nat, j: nat)
    requires i < j < |ys| && ys[i] == ys[j]
    ensures multiset(ys)[ys[i]] >= 2
  {
    assert ys == ys[..j] + [ys[j]] + ys[j + 1..];
    assert ys[i] in ys[..j];
  }

  lemma {:induction false} AtMostOnce<T>(xs: seq<T>, x: T)
    requires Distinct(xs)
    ensures multiset(xs)[x] <= 1
  {
    if xs != [] {
      var init, last := xs[..|xs| - 1], xs[|xs| - 1];
      assert xs == init + [last];
      AtMostOnce(init, x);
      if last == x {
        assert x !in init;
        assert x !in multiset(init);
      }
    }
  }

  lemma DistinctIsPermuted<T>(xs: seq<T>, ys: seq<T>)
    requires Distinct(xs) && multiset(xs) == multiset(ys)
    ensures Distinct(ys)
  {
    forall i, j | 0 <= i < j < |ys|
      ensures ys[i] != ys[j]
    {
      if ys[i] == ys[j] {
        TwiceIsTwo(ys, i, j);
        AtMostOnce(xs, ys[i]);
      }
    }
  }
}
