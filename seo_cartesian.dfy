/**
 * The cartesian product engine of the programmatic SEO page generator
 * (`cartesianProduct` in programmatic-seo/generate-pages.js): a left fold that,
 * starting from one empty tuple, extends every tuple built so far by every value
 * of the next list, so that the last list varies fastest.
 */
module SeoCartesian {

  /** The tuples `a + [c]` for each value `c` of `curr`, in list order. */
  function Row<T>(a: seq<T>, curr: seq<T>): (r: seq<seq<T>>)
    ensures |r| == |curr|
    ensures forall j :: 0 <= j < |curr| ==> r[j] == a + [curr[j]]
  {
    seq(|curr|, j requires 0 <= j < |curr| => a + [curr[j]])
  }

  /** One step of the fold: the rows of every tuple of `acc`, in the order of `acc`. */
  function Extend<T>(acc: seq<seq<T>>, curr: seq<T>): (r: seq<seq<T>>)
  {
    if acc == [] then [] else Extend(acc[..|acc| - 1], curr) + Row(acc[|acc| - 1], curr)
  }

  /** The product of `arrays`: the fold of `Extend` from `[[]]`. */
  function Product<T>(arrays: seq<seq<T>>): seq<seq<T>>
  {
    if arrays == [] then [[]]
    else Extend(Product(arrays[..|arrays| - 1]), arrays[|arrays| - 1])
  }

  /** The product of the list lengths (1 for no lists). */
  function LengthProduct<T>(arrays: seq<seq<T>>): nat
  {
    if arrays == [] then 1 else LengthProduct(arrays[..|arrays| - 1]) * |arrays[|arrays| - 1]|
  }

  /** Every index of an extension names one tuple of `acc` and one value of `curr`, acc-major. */
  lemma {:induction false} ExtendAt<T>(acc: seq<seq<T>>, curr: seq<T>, i: nat, j: nat)
    requires i < |acc| && j < |curr|
    ensures |Extend(acc, curr)| == |acc| * |curr|
    ensures i * |curr| + j < |acc| * |curr|
    ensures Extend(acc, curr)[i * |curr| + j] == acc[i] + [curr[j]]
    decreases |acc|
  {
    var m := |acc| - 1;
    var front := acc[..m];
    ExtendLength(front, curr);
    assert |Extend(acc, curr)| == m * |curr| + |curr| == |acc| * |curr|;
    if i < m {
      ExtendAt(front, curr, i, j);
      assert i * |curr| + j < m * |curr|;
    } else {
      assert i * |curr| == m * |curr|;
    }
  }

  /** An extension has one tuple per pair. */
  lemma {:induction false} ExtendLength<T>(acc: seq<seq<T>>, curr: seq<T>)
    ensures |Extend(acc, curr)| == |acc| * |curr|
    decreases |acc|
  {
    if acc != [] {
      ExtendLength(acc[..|acc| - 1], curr);
      assert (|acc| - 1) * |curr| + |curr| == |acc| * |curr|;
    }
  }

  /** The product has exactly the product of the lengths many tuples; no lists give one empty tuple. */
  lemma {:induction false} ProductSize<T>(arrays: seq<seq<T>>)
    ensures |Product(arrays)| == LengthProduct(arrays)
    ensures arrays == [] ==> Product(arrays) == [[]]
    decreases |arrays|
  {
    if arrays != [] {
      ProductSize(arrays[..|arrays| - 1]);
      ExtendLength(Product(arrays[..|arrays| - 1]), arrays[|arrays| - 1]);
    }
  }

  /**
   * Nested-loop order: tuple `i * |last| + j` of the product is tuple `i` of the
   * product of the other lists followed by value `j` of the last list.
   */
  lemma LastVariesFastest<T>(arrays: seq<seq<T>>, i: nat, j: nat)
    requires arrays != []
    requires i < |Product(arrays[..|arrays| - 1])| && j < |arrays[|arrays| - 1]|
    ensures var last := arrays[|arrays| - 1];
            i * |last| + j < |Product(arrays)| &&
            Product(arrays)[i * |last| + j] == Product(arrays[..|arrays| - 1])[i] + [last[j]]
  {
    ExtendAt(Product(arrays[..|arrays| - 1]), arrays[|arrays| - 1], i, j);
  }

  /** Every index of an extension names a tuple of `acc` and a value of `curr`. */
  lemma {:induction false} ExtendIndex<T>(acc: seq<seq<T>>, curr: seq<T>, k: nat) returns (i: nat, j: nat)
    requires k < |Extend(acc, curr)|
    ensures i < |acc| && j < |curr| && k == i * |curr| + j
    ensures Extend(acc, curr)[k] == acc[i] + [curr[j]]
    decreases |acc|
  {
    var m := |acc| - 1;
    var front := acc[..m];
    ExtendLength(front, curr);
    if k < |Extend(front, curr)| {
      i, j := ExtendIndex(front, curr, k);
    } else {
      i, j := m, k - m * |curr|;
    }
  }

  /** Each tuple of the product has one value per list, value `k` drawn from list `k`. */
  lemma {:induction false} ProductTupleShape<T>(arrays: seq<seq<T>>, t: seq<T>)
    requires t in Product(arrays)
    ensures |t| == |arrays|
    ensures forall k :: 0 <= k < |t| ==> t[k] in arrays[k]
    decreases |arrays|
  {
    if arrays != [] {
      var front := arrays[..|arrays| - 1];
      var last := arrays[|arrays| - 1];
      var n :| 0 <= n < |Product(arrays)| && Product(arrays)[n] == t;
      var i, j := ExtendIndex(Product(front), last, n);
      ProductTupleShape(front, Product(front)[i]);
    }
  }

  /** Every tuple of the product has one value per array. */
  lemma ProductTupleLengths<T>(arrays: seq<seq<T>>)
    ensures forall k :: 0 <= k < |Product(arrays)| ==> |Product(arrays)[k]| == |arrays|
  {
    forall k | 0 <= k < |Product(arrays)|
      ensures |Product(arrays)[k]| == |arrays|
    {
      ProductTupleShape(arrays, Product(arrays)[k]);
    }
  }

  /** Conversely, every such tuple occurs in the product, at the position `n` returned. */
  lemma {:induction false} ProductComplete<T>(arrays: seq<seq<T>>, t: seq<T>) returns (n: nat)
    requires |t| == |arrays|
    requires forall k :: 0 <= k < |t| ==> t[k] in arrays[k]
    ensures n < |Product(arrays)| && Product(arrays)[n] == t
    decreases |arrays|
  {
    if arrays == [] {
      n := 0;
    } else {
      var m := |arrays| - 1;
      var front, last := arrays[..m], arrays[m];
      var i := ProductComplete(front, t[..m]);
      var j :| 0 <= j < |last| && last[j] == t[m];
      ExtendAt(Product(front), last, i, j);
      n := i * |last| + j;
      assert t == t[..m] + [t[m]];
    }
  }

  /** A sequence without repeated elements. */
  predicate Distinct<T(==)>(s: seq<T>)
  {
    forall p, q :: 0 <= p < q < |s| ==> s[p] != s[q]
  }

  /** Appending one element is injective. */
  lemma AppendInjective<T>(a: seq<T>, x: T, b: seq<T>, y: T)
    requires a + [x] == b + [y]
    ensures a == b && x == y
  {
    assert |a| == |b|;
    assert (a + [x])[..|a|] == a && (b + [y])[..|b|] == b;
    assert (a + [x])[|a|] == x;
  }

  /** Extending distinct tuples by distinct values gives distinct tuples. */
  lemma ExtendDistinct<T>(acc: seq<seq<T>>, curr: seq<T>)
    requires Distinct(acc) && Distinct(curr)
    ensures Distinct(Extend(acc, curr))
  {
    var e := Extend(acc, curr);
    forall p, q | 0 <= p < q < |e|
      ensures e[p] != e[q]
    {
      var i, j := ExtendIndex(acc, curr, p);
      var i', j' := ExtendIndex(acc, curr, q);
      if e[p] == e[q] {
        AppendInjective(acc[i], curr[j], acc[i'], curr[j']);
      }
    }
  }

  /** Lists without repeated values give a product without repeated tuples. */
  lemma {:induction false} ProductDistinct<T>(arrays: seq<seq<T>>)
    requires forall k :: 0 <= k < |arrays| ==> Distinct(arrays[k])
    ensures Distinct(Product(arrays))
    decreases |arrays|
  {
    if arrays != [] {
      ProductDistinct(arrays[..|arrays| - 1]);
      ExtendDistinct(Product(arrays[..|arrays| - 1]), arrays[|arrays| - 1]);
    }
  }

  /**
   * `cartesianProduct(arrays)`: the source's nested loops, pushing `[...a, c]`
   * for every tuple `a` built so far and every value `c` of the current list.
   */
  method CartesianProduct<T>(arrays: seq<seq<T>>) returns (result: seq<seq<T>>)
    ensures result == Product(arrays)
  {
    if |arrays| == 0 {
      return [[]];
    }
    var acc: seq<seq<T>> := [[]];
    var n := 0;
    while n < |arrays|
      invariant 0 <= n <= |arrays|
      invariant acc == Product(arrays[..n])
    {
      var curr := arrays[n];
      var step: seq<seq<T>> := [];
      var i := 0;
      while i < |acc|
        invariant 0 <= i <= |acc|
        invariant step == Extend(acc[..i], curr)
      {
        var a := acc[i];
        var j := 0;
        while j < |curr|
          invariant 0 <= j <= |curr|
          invariant step == Extend(acc[..i], curr) + Row(a, curr[..j])
        {
          assert Row(a, curr[..j + 1]) == Row(a, curr[..j]) + [a + [curr[j]]];
          step := step + [a + [curr[j]]];
          j := j + 1;
        }
        assert curr[..j] == curr;
        assert acc[..i + 1][..i] == acc[..i];
        i := i + 1;
      }
      assert acc[..i] == acc;
      assert arrays[..n + 1][..n] == arrays[..n];
      acc := step;
      n := n + 1;
    }
    assert arrays[..n] == arrays;
    result := acc;
  }
}
