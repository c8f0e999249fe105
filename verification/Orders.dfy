/** Total orders, sorting and the uniqueness of sorted arrangements. */
module Orders {

  ghost predicate TotalPreorder<T(!new)>(le: (T, T) -> bool) {
    && (forall a, b :: le(a, b) || le(b, a))
    && (forall a, b, c :: le(a, b) && le(b, c) ==> le(a, c))
  }

  ghost predicate TotalOrder<T(!new)>(le: (T, T) -> bool) {
    TotalPreorder(le) && forall a, b :: le(a, b) && le(b, a) ==> a == b
  }

  ghost predicate Separates<T>(le: (T, T) -> bool, xs: seq<T>) {
    forall a, b :: a in xs && b in xs && le(a, b) && le(b, a) ==> a == b
  }

  ghost predicate Sorted<T>(le: (T, T) -> bool, xs: seq<T>) {
    forall i, j :: 0 <= i < j < |xs| ==> le(xs[i], xs[j])
  }

  ghost predicate Distinct<T>(xs: seq<T>) {
    forall i, j :: 0 <= i < j < |xs| ==> xs[i] != xs[j]
  }

  function Insert<T>(le: (T, T) -> bool, x: T, xs: seq<T>): (r: seq<T>)
    ensures multiset(r) == multiset(xs) + multiset{x}
  {
    if xs == [] then [x]
    else if le(x, xs[0]) then assert xs == [xs[0]] + xs[1..]; [x] + xs
    else assert xs == [xs[0]] + xs[1..]; [xs[0]] + Insert(le, x, xs[1..])
  }

  function Sort<T>(le: (T, T) -> bool, xs: seq<T>): (r: seq<T>)
    ensures multiset(r) == multiset(xs)
  {
    if xs == [] then [] else assert xs == [xs[0]] + xs[1..]; Insert(le, xs[0], Sort(le, xs[1..]))
  }

  lemma {:induction false} InsertKeepsSorted<T(!new)>(le: (T, T) -> bool, x: T, xs: seq<T>)
    requires TotalPreorder(le) && Sorted(le, xs)
    ensures Sorted(le, Insert(le, x, xs))
  {
    if xs != [] && !le(x, xs[0]) {
      InsertKeepsSorted(le, x, xs[1..]);
      var r := Insert(le, x, xs[1..]);
      forall k | 0 <= k < |r| ensures le(xs[0], r[k]) {
        assert r[k] in multiset(r);
        if r[k] != x {
          assert r[k] in multiset(xs[1..]);
        }
      }
    }
  }

  lemma {:induction false} SortSorts<T(!new)>(le: (T, T) -> bool, xs: seq<T>)
    requires TotalPreorder(le)
    ensures Sorted(le, Sort(le, xs))
  {
    if xs != [] {
      SortSorts(le, xs[1..]);
      InsertKeepsSorted(le, xs[0], Sort(le, xs[1..]));
    }
  }

  lemma SameHead<T(!new)>(le: (T, T) -> bool, xs: seq<T>, ys: seq<T>)
    requires Separates(le, xs) && Sorted(le, xs) && Sorted(le, ys) && forall x :: le(x, x)
    requires multiset(xs) == multiset(ys) && xs != []
    ensures ys != [] && xs[0] == ys[0] && multiset(xs[1..]) == multiset(ys[1..])
  {
    hide *;
    SameSize(xs, ys);
    HeadsAreLeast(le, xs, ys);
    WithoutHead(xs);
    WithoutHead(ys);
  }

  lemma SameSize<T>(xs: seq<T>, ys: seq<T>)
    requires multiset(xs) == multiset(ys)
    ensures |xs| == |ys|
  {
    assert |xs| == |multiset(xs)| == |multiset(ys)| == |ys|;
  }

  /** The last element of a list, taken out of a permutation of it. */
  lemma TakeOut<T>(xs: seq<T>, ys: seq<T>) returns (i: nat)
    requires multiset(xs) == multiset(ys) && xs != []
    ensures i < |ys| && ys[i] == xs[|xs| - 1] && ys == ys[..i] + [ys[i]] + ys[i + 1..]
    ensures multiset(xs[..|xs| - 1]) == multiset(ys[..i] + ys[i + 1..])
  {
    var x := xs[|xs| - 1];
    assert x in multiset(xs);
    i :| 0 <= i < |ys| && ys[i] == x;
    WithoutLast(xs);
    WithoutAt(ys, i);
  }

  lemma WithoutLast<T>(xs: seq<T>)
    requires xs != []
    ensures multiset(xs[..|xs| - 1]) == multiset(xs) - multiset{xs[|xs| - 1]}
  {
    assert xs == xs[..|xs| - 1] + [xs[|xs| - 1]];
  }

  lemma WithoutAt<T>(ys: seq<T>, i: nat)
    requires i < |ys|
    ensures ys == ys[..i] + [ys[i]] + ys[i + 1..]
    ensures multiset(ys[..i] + ys[i + 1..]) == multiset(ys) - multiset{ys[i]}
  {
    WithoutOne(ys[..i], ys[i], ys[i + 1..]);
    assert ys == ys[..i] + [ys[i]] + ys[i + 1..];
  }

  lemma WithoutOne<T>(front: seq<T>, x: T, back: seq<T>)
    ensures multiset(front + back) == multiset(front + [x] + back) - multiset{x}
  {
    assert multiset(front + [x] + back) == multiset(front) + multiset{x} + multiset(back);
    assert multiset(front + back) == multiset(front) + multiset(back);
  }

  lemma WithoutHead<T>(xs: seq<T>)
    requires xs != []
    ensures multiset(xs[1..]) == multiset(xs) - multiset{xs[0]}
  {
    assert xs == [xs[0]] + xs[1..];
  }

  lemma HeadsAreLeast<T(!new)>(le: (T, T) -> bool, xs: seq<T>, ys: seq<T>)
    requires Separates(le, xs) && Sorted(le, xs) && Sorted(le, ys) && forall x :: le(x, x)
    requires multiset(xs) == multiset(ys) && xs != [] && ys != []
    ensures xs[0] == ys[0]
  {
    assert xs[0] in multiset(ys) && ys[0] in multiset(xs);
    HeadIsLeast(le, xs, ys[0]);
    HeadIsLeast(le, ys, xs[0]);
    hide Sorted;
  }

  lemma HeadIsLeast<T(!new)>(le: (T, T) -> bool, xs: seq<T>, x: T)
    requires Sorted(le, xs) && x in xs && forall y :: le(y, y)
    ensures le(xs[0], x)
  {
    var i :| 0 <= i < |xs| && xs[i] == x;
  }

  lemma {:induction false} SortedPermutationsAreEqual<T(!new)>(le: (T, T) -> bool, xs: seq<T>, ys: seq<T>)
    requires Separates(le, xs) && Sorted(le, xs) && Sorted(le, ys)
    requires forall x :: le(x, x)
    requires multiset(xs) == multiset(ys)
    ensures xs == ys
  {
    if xs == [] {
      assert |ys| == |multiset(ys)| == |multiset(xs)|;
    } else {
      SameHead(le, xs, ys);
      assert Separates(le, xs[1..]) && Sorted(le, xs[1..]) && Sorted(le, ys[1..]);
      hide *;
      SortedPermutationsAreEqual(le, xs[1..], ys[1..]);
      assert xs == [xs[0]] + xs[1..] && ys == [ys[0]] + ys[1..];
    }
  }

  lemma {:induction false} SortOfSorted<T(!new)>(le: (T, T) -> bool, xs: seq<T>, ys: seq<T>)
    requires TotalPreorder(le) && Separates(le, xs) && Sorted(le, xs) && multiset(xs) == multiset(ys)
    ensures Sort(le, ys) == xs
  {
    SortSorts(le, ys);
    SortedPermutationsAreEqual(le, xs, Sort(le, ys));
  }

  /** The elements of a set in ascending order. */
  ghost function SortSet<T(!new)>(le: (T, T) -> bool, s: set<T>): (r: seq<T>)
    ensures multiset(r) == multiset(s)
  {
    if s == {} then [] else
      var x :| x in s;
      Insert(le, x, SortSet(le, s - {x}))
  }

  lemma {:induction false} SortSetSorts<T(!new)>(le: (T, T) -> bool, s: set<T>)
    requires TotalOrder(le)
    ensures Sorted(le, SortSet(le, s)) && Distinct(SortSet(le, s))
    ensures forall x :: x in SortSet(le, s) <==> x in s
    ensures |SortSet(le, s)| == |s|
  {
    SortedSet(le, s);
    var r := SortSet(le, s);
    forall x ensures x in r <==> x in s {
      assert x in multiset(r) <==> x in multiset(s);
    }
    assert |multiset(r)| == |r|;
    forall i, j | 0 <= i < j < |r| ensures r[i] != r[j] {
      TwiceCounts(r, i, j);
      assert multiset(s)[r[j]] <= 1;
    }
  }

  lemma TwiceCounts<T>(r: seq<T>, i: nat, j: nat)
    requires i < j < |r|
    ensures r[i] == r[j] ==> multiset(r)[r[j]] >= 2
  {
    assert r == r[..j] + [r[j]] + r[j+1..];
    assert r[i] in r[..j];
  }

  lemma {:induction false} SortedSet<T(!new)>(le: (T, T) -> bool, s: set<T>)
    requires TotalOrder(le)
    ensures Sorted(le, SortSet(le, s))
    decreases s
  {
    forall x | x in s ensures Sorted(le, Insert(le, x, SortSet(le, s - {x}))) {
      SortedSet(le, s - {x});
      InsertKeepsSorted(le, x, SortSet(le, s - {x}));
    }
  }

  /** Sorts a set by repeatedly inserting one more element, as `sorted` over dictionary keys does. */
  method SortElements<T(!new,==)>(le: (T, T) -> bool, s: set<T>) returns (r: seq<T>)
    requires TotalOrder(le)
    ensures r == SortSet(le, s)
  {
    r := [];
    var rest := s;
    while rest != {}
      invariant rest <= s && Sorted(le, r)
      invariant multiset(r) + multiset(rest) == multiset(s)
    {
      var x :| x in rest;
      InsertKeepsSorted(le, x, r);
      r := Insert(le, x, r);
      rest := rest - {x};
    }
    SortedSet(le, s);
    SortedPermutationsAreEqual(le, r, SortSet(le, s));
  }
}
