/** The standard library's stable sort by a key, and lists drawn from other lists. */
module Sorting {
  import opened Wrappers

  ghost predicate SortedBy<T>(xs: seq<T>, key: T -> nat) {
    forall i, j :: 0 <= i < j < |xs| ==> key(xs[i]) <= key(xs[j])
  }

  /** `x` goes in front of the elements it does not exceed, so equal keys keep their order. */
  function Insert<T>(x: T, xs: seq<T>, key: T -> nat): seq<T> {
    if xs == [] || key(x) <= key(xs[0]) then [x] + xs
    else [xs[0]] + Insert(x, xs[1..], key)
  }

  function StableSort<T>(xs: seq<T>, key: T -> nat): seq<T> {
    if xs == [] then [] else Insert(xs[0], StableSort(xs[1..], key), key)
  }

  lemma {:induction false} InsertPermutes<T>(x: T, xs: seq<T>, key: T -> nat)
    ensures multiset(Insert(x, xs, key)) == multiset{x} + multiset(xs)
    decreases |xs|
  {
    if xs != [] && key(xs[0]) < key(x) {
      InsertPermutes(x, xs[1..], key);
      assert xs == [xs[0]] + xs[1..];
    }
  }

  lemma HeadThenSorted<T>(x: T, xs: seq<T>, key: T -> nat)
    requires SortedBy(xs, key) && forall y :: y in xs ==> key(x) <= key(y)
    ensures SortedBy([x] + xs, key)
  {
  }

  lemma HeadIsLeast<T>(xs: seq<T>, x: T, key: T -> nat)
    requires SortedBy(xs, key) && x in xs
    ensures key(xs[0]) <= key(x)
  {
  }

  lemma {:induction false} InsertSorts<T>(x: T, xs: seq<T>, key: T -> nat)
    requires SortedBy(xs, key)
    ensures SortedBy(Insert(x, xs, key), key)
    decreases |xs|
  {
    if xs == [] || key(x) <= key(xs[0]) {
      HeadThenSorted(x, xs, key);
    } else {
      InsertSorts(x, xs[1..], key);
      InsertPermutes(x, xs[1..], key);
      var rest := Insert(x, xs[1..], key);
      forall y | y in rest ensures key(xs[0]) <= key(y) {
        assert y in multiset(rest);
        assert y == x || y in xs[1..];
      }
      HeadThenSorted(xs[0], rest, key);
    }
  }

  lemma {:induction false} StableSortSorts<T>(xs: seq<T>, key: T -> nat)
    ensures SortedBy(StableSort(xs, key), key)
    ensures multiset(StableSort(xs, key)) == multiset(xs)
    ensures |StableSort(xs, key)| == |xs|
    ensures forall x :: x in StableSort(xs, key) <==> x in xs
    decreases |xs|
  {
    if xs != [] {
      StableSortSorts(xs[1..], key);
      InsertSorts(xs[0], StableSort(xs[1..], key), key);
      InsertPermutes(xs[0], StableSort(xs[1..], key), key);
      assert xs == [xs[0]] + xs[1..];
    }
    var sorted := StableSort(xs, key);
    assert |multiset(sorted)| == |sorted| && |multiset(xs)| == |xs|;
    assert forall x :: x in sorted <==> x in multiset(sorted);
  }

  /** Elements of `xs` with the same key are the same. */
  ghost predicate Identifies<T>(xs: seq<T>, key: T -> nat) {
    forall i, j :: 0 <= i < j < |xs| && key(xs[i]) == key(xs[j]) ==> xs[i] == xs[j]
  }

  lemma TailOf<T>(xs: seq<T>)
    requires xs != []
    ensures xs == [xs[0]] + xs[1..]
    ensures multiset(xs[1..]) == multiset(xs) - multiset{xs[0]}
  {
    assert xs == [xs[0]] + xs[1..];
  }

  lemma SameHead<T>(xs: seq<T>, ys: seq<T>, key: T -> nat)
    requires SortedBy(xs, key) && SortedBy(ys, key) && multiset(xs) == multiset(ys)
    requires Identifies(xs, key) && xs != [] && ys != []
    ensures xs[0] == ys[0]
  {
    assert xs[0] in multiset(xs) && ys[0] in multiset(ys);
    HeadIsLeast(xs, ys[0], key);
    HeadIsLeast(ys, xs[0], key);
    var i :| 0 <= i < |xs| && xs[i] == ys[0];
  }

  /** Where keys identify elements, the sorted order depends only on which elements there are. */
  lemma {:induction false} SortedUnique<T>(xs: seq<T>, ys: seq<T>, key: T -> nat)
    requires SortedBy(xs, key) && SortedBy(ys, key) && multiset(xs) == multiset(ys)
    requires Identifies(xs, key)
    ensures xs == ys
    decreases |xs|
  {
    assert |xs| == |multiset(xs)| && |ys| == |multiset(ys)|;
    if xs != [] {
      SameHead(xs, ys, key);
      TailOf(xs);
      TailOf(ys);
      SortedUnique(xs[1..], ys[1..], key);
    }
  }

  // ---------- stability ----------

  /** The elements with key `c`, in order. */
  function Class<T>(xs: seq<T>, key: T -> nat, c: nat): seq<T> {
    if xs == [] then [] else (if key(xs[0]) == c then [xs[0]] else []) + Class(xs[1..], key, c)
  }

  lemma {:induction false} ClassConcat<T>(xs: seq<T>, ys: seq<T>, key: T -> nat, c: nat)
    ensures Class(xs + ys, key, c) == Class(xs, key, c) + Class(ys, key, c)
    decreases |xs|
  {
    if xs == [] {
      assert xs + ys == ys;
    } else {
      var head := if key(xs[0]) == c then [xs[0]] else [];
      var rest, other := Class(xs[1..], key, c), Class(ys, key, c);
      assert (xs + ys)[0] == xs[0] && (xs + ys)[1..] == xs[1..] + ys;
      ClassConcat(xs[1..], ys, key, c);
      assert head + (rest + other) == (head + rest) + other;
    }
  }

  lemma {:induction false} InsertStable<T>(x: T, xs: seq<T>, key: T -> nat, c: nat)
    requires SortedBy(xs, key)
    ensures Class(Insert(x, xs, key), key, c) == Class([x] + xs, key, c)
    decreases |xs|
  {
    assert ([x] + xs)[1..] == xs;
    if xs != [] && key(xs[0]) < key(x) {
      var rest := Insert(x, xs[1..], key);
      InsertStable(x, xs[1..], key, c);
      assert ([x] + xs[1..])[1..] == xs[1..];
      assert ([xs[0]] + rest)[1..] == rest;
    }
  }

  /** Elements with equal keys keep their relative order. */
  lemma {:induction false} StableSortStable<T>(xs: seq<T>, key: T -> nat, c: nat)
    ensures Class(StableSort(xs, key), key, c) == Class(xs, key, c)
    decreases |xs|
  {
    if xs != [] {
      StableSortStable(xs[1..], key, c);
      StableSortSorts(xs[1..], key);
      InsertStable(xs[0], StableSort(xs[1..], key), key, c);
      var sorted := StableSort(xs[1..], key);
      assert ([xs[0]] + sorted)[1..] == sorted;
    }
  }

  lemma IdentifiesSorted<T>(xs: seq<T>, key: T -> nat)
    requires Identifies(xs, key)
    ensures Identifies(StableSort(xs, key), key)
  {
    StableSortSorts(xs, key);
    var sorted := StableSort(xs, key);
    forall i, j | 0 <= i < j < |sorted| && key(sorted[i]) == key(sorted[j]) ensures sorted[i] == sorted[j] {
      var x, y := sorted[i], sorted[j];
      assert x in multiset(sorted) && y in multiset(sorted);
      assert x in multiset(xs) && y in multiset(xs);
      var k :| 0 <= k < |xs| && xs[k] == x;
      var l :| 0 <= l < |xs| && xs[l] == y;
    }
  }

  /** Exchanging two different elements of one class shows in the sorted order. */
  lemma SwapShows<T>(xs: seq<T>, key: T -> nat, i: nat, j: nat)
    requires i < j < |xs| && key(xs[i]) == key(xs[j]) && xs[i] != xs[j]
    ensures StableSort(xs[i := xs[j]][j := xs[i]], key) != StableSort(xs, key)
  {
    var ys, c := xs[i := xs[j]][j := xs[i]], key(xs[i]);
    StableSortStable(xs, key, c);
    StableSortStable(ys, key, c);
    ClassSplit(xs, key, i);
    ClassSplit(ys, key, i);
    assert ys[..i] == xs[..i];
    var n := |Class(xs[..i], key, c)|;
    assert Class(xs, key, c)[n] == xs[i];
    assert Class(ys, key, c)[n] == xs[j];
  }

  lemma ClassSplit<T>(xs: seq<T>, key: T -> nat, i: nat)
    requires i < |xs|
    ensures var c := key(xs[i]);
            Class(xs, key, c) == Class(xs[..i], key, c) + [xs[i]] + Class(xs[i + 1..], key, c)
  {
    var c := key(xs[i]);
    assert xs == xs[..i] + xs[i..];
    ClassConcat(xs[..i], xs[i..], key, c);
    ClassCons(xs[i..], key);
    assert xs[i..][1..] == xs[i + 1..];
    var before, after := Class(xs[..i], key, c), Class(xs[i + 1..], key, c);
    assert before + ([xs[i]] + after) == before + [xs[i]] + after;
  }

  lemma ClassCons<T>(xs: seq<T>, key: T -> nat)
    requires xs != []
    ensures Class(xs, key, key(xs[0])) == [xs[0]] + Class(xs[1..], key, key(xs[0]))
  {
  }

  // ---------- sorting an image ----------

  function Mapped<T, U>(xs: seq<T>, f: T -> U): (ys: seq<U>)
    ensures |ys| == |xs|
    ensures forall i :: 0 <= i < |xs| ==> ys[i] == f(xs[i])
  {
    seq(|xs|, i requires 0 <= i < |xs| => f(xs[i]))
  }

  lemma MappedSnoc<T, U>(xs: seq<T>, f: T -> U, i: nat)
    requires i < |xs|
    ensures Mapped(xs[..i + 1], f) == Mapped(xs[..i], f) + [f(xs[i])]
  {
  }

  lemma SortedImage<T, U>(xs: seq<T>, f: T -> U, key: U -> nat)
    ensures SortedBy(StableSort(Mapped(xs, f), key), key)
    ensures |StableSort(Mapped(xs, f), key)| == |xs|
    ensures forall y :: y in StableSort(Mapped(xs, f), key) <==> exists i :: 0 <= i < |xs| && y == f(xs[i])
  {
    StableSortSorts(Mapped(xs, f), key);
  }

  // ---------- dropping repeats ----------

  /** Each element once, where it first occurs. */
  function Once<T(==)>(xs: seq<T>): seq<T> {
    if xs == [] then []
    else
      var before, last := Once(xs[..|xs| - 1]), xs[|xs| - 1];
      if last in before then before else before + [last]
  }

  lemma OnceSnoc<T>(xs: seq<T>, x: T)
    ensures Once(xs + [x]) == if x in Once(xs) then Once(xs) else Once(xs) + [x]
  {
    assert (xs + [x])[..|xs|] == xs;
  }

  lemma {:induction false} OnceKeeps<T>(xs: seq<T>)
    ensures |Once(xs)| <= |xs|
    ensures forall i, j :: 0 <= i < j < |Once(xs)| ==> Once(xs)[i] != Once(xs)[j]
    ensures forall x :: x in Once(xs) <==> x in xs
    decreases |xs|
  {
    if xs != [] {
      var n := |xs| - 1;
      OnceKeeps(xs[..n]);
      assert xs == xs[..n] + [xs[n]];
    }
  }

  ghost predicate NoRepeats<T>(xs: seq<T>) {
    forall i, j :: 0 <= i < j < |xs| ==> xs[i] != xs[j]
  }

  lemma {:induction false} DistinctCount<T>(xs: seq<T>)
    requires NoRepeats(xs)
    ensures forall x :: multiset(xs)[x] <= 1
    decreases |xs|
  {
    if xs != [] {
      TailOf(xs);
      DistinctCount(xs[1..]);
      assert xs[0] !in xs[1..];
    }
  }

  lemma DistinctFromCount<T>(xs: seq<T>)
    requires forall x :: multiset(xs)[x] <= 1
    ensures NoRepeats(xs)
  {
    forall i, j | 0 <= i < j < |xs| ensures xs[i] != xs[j] {
      var front, back := xs[..j], xs[j..];
      assert xs == front + back;
      assert front[i] == xs[i] && back[0] == xs[j];
      assert multiset(front)[front[i]] >= 1 && multiset(back)[back[0]] >= 1;
      assert multiset(xs)[xs[i]] == multiset(front)[xs[i]] + multiset(back)[xs[i]];
    }
  }

  /** `f` of just those elements it has a value for, in order. */
  function FilterMap<T, U>(xs: seq<T>, f: T -> Option<U>): seq<U> {
    if xs == [] then []
    else
      var n := |xs| - 1;
      FilterMap(xs[..n], f) + match f(xs[n]) { case None => [] case Some(y) => [y] }
  }

  lemma {:induction false} FilterMapHas<T, U>(xs: seq<T>, f: T -> Option<U>, y: U)
    ensures y in FilterMap(xs, f) <==> exists x :: x in xs && f(x) == Some(y)
    decreases |xs|
  {
    if xs != [] {
      var n := |xs| - 1;
      FilterMapHas(xs[..n], f, y);
      assert xs == xs[..n] + [xs[n]];
      if x :| x in xs && f(x) == Some(y) { assert x in xs[..n] || x == xs[n]; }
    }
  }
}
