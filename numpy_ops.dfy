/** The NumPy building blocks the weak trainers rely on: sums and running sums over
    `real` gradients, first-occurrence argmax/argmin, column extraction and an
    argsort. Each is stated by what it computes, independently of how NumPy does it. */
module NumpyOps {

  /** Sum of a sequence, accumulated from the left. */
  function Sum(s: seq<real>): real
  {
    if |s| == 0 then 0.0 else Sum(s[..|s| - 1]) + s[|s| - 1]
  }

  lemma {:induction false} SumConcat(a: seq<real>, b: seq<real>)
    ensures Sum(a + b) == Sum(a) + Sum(b)
  {
    if |b| == 0 {
      assert a + b == a;
    } else {
      assert (a + b)[..|a + b| - 1] == a + b[..|b| - 1];
      SumConcat(a, b[..|b| - 1]);
    }
  }

  /** A sum of zeros is zero. */
  lemma {:induction false} SumOfZeros(s: seq<real>)
    requires forall i :: 0 <= i < |s| ==> s[i] == 0.0
    ensures Sum(s) == 0.0
  {
    if |s| > 0 {
      SumOfZeros(s[..|s| - 1]);
    }
  }

  /** A sum of non-negative entries is non-negative. */
  lemma {:induction false} SumNonNegative(s: seq<real>)
    requires forall i :: 0 <= i < |s| ==> s[i] >= 0.0
    ensures Sum(s) >= 0.0
  {
    if |s| > 0 {
      SumNonNegative(s[..|s| - 1]);
    }
  }

  /** Sums are monotone in every entry. */
  lemma {:induction false} SumMonotone(a: seq<real>, b: seq<real>)
    requires |a| == |b|
    requires forall i :: 0 <= i < |a| ==> a[i] <= b[i]
    ensures Sum(a) <= Sum(b)
  {
    if |a| > 0 {
      SumMonotone(a[..|a| - 1], b[..|b| - 1]);
    }
  }

  /** Replacing one entry changes the sum by the difference. */
  lemma {:induction false} SumUpdate(s: seq<real>, i: nat, y: real)
    requires i < |s|
    ensures Sum(s[i := y]) == Sum(s) - s[i] + y
  {
    if i < |s| - 1 {
      assert s[i := y][..|s| - 1] == s[..|s| - 1][i := y];
      SumUpdate(s[..|s| - 1], i, y);
    } else {
      assert s[i := y][..|s| - 1] == s[..|s| - 1];
    }
  }

  /** s with entry i taken out. */
  function Remove(s: seq<real>, i: nat): (r: seq<real>)
    requires i < |s|
    ensures |r| == |s| - 1
  {
    s[..i] + s[i + 1..]
  }

  /** Taking entry i out lowers the sum by exactly that entry. */
  lemma {:induction false} SumRemove(s: seq<real>, i: nat)
    requires i < |s|
    ensures Sum(s) == Sum(Remove(s, i)) + s[i]
  {
    var left, right := s[..i], s[i + 1..];
    var single := [s[i]];
    assert Sum(single) == s[i] by {
      assert single[..0] == [];
    }
    assert s == (left + single) + right;
    SumConcat(left + single, right);
    SumConcat(left, single);
    SumConcat(left, right);
  }

  /** s rearranged by `order`: entry k is s[order[k]] (fancy indexing s[order]). */
  function Permuted(s: seq<real>, order: seq<nat>): (r: seq<real>)
    requires forall k :: 0 <= k < |order| ==> order[k] < |s|
    ensures |r| == |order|
  {
    seq(|order|, k requires 0 <= k < |order| => s[order[k]])
  }

  /** Rearranging a vector by an order that lists each of its indices once keeps its
      sum. */
  lemma {:induction false} SumPermuted(s: seq<real>, order: seq<nat>)
    requires |order| == |s| && Distinct(order)
    requires forall k :: 0 <= k < |order| ==> order[k] < |s|
    ensures Sum(Permuted(s, order)) == Sum(s)
    decreases |s|
  {
    var n := |s|;
    if n > 0 {
      var j := order[n - 1];
      var rest := Remove(s, j);
      var shifted := seq(n - 1, k requires 0 <= k < n - 1 => if order[k] < j then order[k] else order[k] - 1);
      forall k | 0 <= k < n - 1
        ensures shifted[k] < n - 1 && rest[shifted[k]] == s[order[k]]
      {
        assert order[k] != j;
      }
      forall k, l | 0 <= k < l < n - 1
        ensures shifted[k] != shifted[l]
      {
        assert order[k] != order[l] && order[k] != j && order[l] != j;
      }
      SumPermuted(rest, shifted);
      assert Permuted(s, order)[..n - 1] == Permuted(rest, shifted);
      SumRemove(s, j);
    }
  }

  /** Negating every entry negates the sum. */
  lemma {:induction false} SumNegated(s: seq<real>)
    ensures Sum(seq(|s|, i requires 0 <= i < |s| => -s[i])) == -Sum(s)
  {
    if |s| > 0 {
      var init := s[..|s| - 1];
      SumNegated(init);
      assert seq(|s|, i requires 0 <= i < |s| => -s[i])[..|s| - 1]
          == seq(|init|, i requires 0 <= i < |init| => -init[i]);
    }
  }

  /** numpy.cumsum on a vector: each element adds the next entry to the previous one. */
  function CumSum(s: seq<real>): (r: seq<real>)
    ensures |r| == |s|
  {
    if |s| == 0 then []
    else
      var prefix := CumSum(s[..|s| - 1]);
      var last := if |prefix| == 0 then s[|s| - 1] else prefix[|prefix| - 1] + s[|s| - 1];
      prefix + [last]
  }

  /** Element i of the running sum is the total of s[0..i]. */
  lemma {:induction false} CumSumIsPrefixSums(s: seq<real>)
    ensures forall i :: 0 <= i < |s| ==> CumSum(s)[i] == Sum(s[..i + 1])
  {
    if |s| > 0 {
      var init := s[..|s| - 1];
      CumSumIsPrefixSums(init);
      forall i | 0 <= i < |s|
        ensures CumSum(s)[i] == Sum(s[..i + 1])
      {
        if i < |s| - 1 {
          assert init[..i + 1] == s[..i + 1];
        } else {
          assert s[..i + 1] == s;
          assert s[..i] == init;
          if i > 0 {
            assert init[..i] == init;
          }
        }
      }
    }
  }

  function Abs(x: real): real
  {
    if x < 0.0 then -x else x
  }

  /** numpy.absolute applied element-wise. */
  function AbsAll(s: seq<real>): seq<real>
  {
    seq(|s|, i requires 0 <= i < |s| => Abs(s[i]))
  }

  /** numpy.argmax: the first index at which the maximum occurs. */
  function FirstArgMax(s: seq<real>): (k: nat)
    requires |s| > 0
    ensures k < |s|
    ensures forall i :: 0 <= i < |s| ==> s[i] <= s[k]
    ensures forall i :: 0 <= i < k ==> s[i] < s[k]
  {
    if |s| == 1 then 0
    else
      var k := FirstArgMax(s[..|s| - 1]);
      if s[|s| - 1] > s[k] then |s| - 1 else k
  }

  /** numpy.argmin: the first index at which the minimum occurs. */
  function FirstArgMin(s: seq<real>): (k: nat)
    requires |s| > 0
    ensures k < |s|
    ensures forall i :: 0 <= i < |s| ==> s[k] <= s[i]
    ensures forall i :: 0 <= i < k ==> s[k] < s[i]
  {
    if |s| == 1 then 0
    else
      var k := FirstArgMin(s[..|s| - 1]);
      if s[|s| - 1] < s[k] then |s| - 1 else k
  }

  /** Every row of `m` has `width` entries (a 2-D NumPy array). */
  predicate IsMatrix<T>(m: seq<seq<T>>, width: nat)
  {
    forall n :: 0 <= n < |m| ==> |m[n]| == width
  }

  /** The second dimension of a matrix given as its rows (0 when it has no rows). */
  function Width<T>(m: seq<seq<T>>): nat
  {
    if |m| == 0 then 0 else |m[0]|
  }

  /** m[:, j] */
  function Column<T>(m: seq<seq<T>>, j: nat): seq<T>
    requires forall n :: 0 <= n < |m| ==> j < |m[n]|
  {
    seq(|m|, n requires 0 <= n < |m| => m[n][j])
  }

  ghost predicate Distinct(s: seq<nat>)
  {
    forall k, l :: 0 <= k < l < |s| ==> s[k] != s[l]
  }

  /** `order` lists every index of `key` exactly once, by non-decreasing key: the
      contract of numpy.argsort, whatever order it gives to equal keys. */
  ghost predicate IsSortingOrder(key: seq<real>, order: seq<nat>)
  {
    && |order| == |key|
    && (forall k :: 0 <= k < |order| ==> order[k] < |key|)
    && Distinct(order)
    && (forall k, l :: 0 <= k < l < |order| ==> key[order[k]] <= key[order[l]])
  }

  /** The first index of a list sorted by key has the least key. */
  lemma HeadIsLeast(key: seq<real>, s: seq<nat>, x: nat)
    requires forall k :: 0 <= k < |s| ==> s[k] < |key|
    requires forall k, l :: 0 <= k < l < |s| ==> key[s[k]] <= key[s[l]]
    requires |s| > 0 && x in s[1..]
    ensures key[s[0]] <= key[x]
  {
    var m :| 1 <= m < |s| && s[m] == x;
  }

  /** Inserts index i into `s`, kept sorted by key, after the indices of equal key. */
  function InsertByKey(key: seq<real>, i: nat, s: seq<nat>): (r: seq<nat>)
    requires i < |key|
    requires forall k :: 0 <= k < |s| ==> s[k] < |key|
    requires forall k, l :: 0 <= k < l < |s| ==> key[s[k]] <= key[s[l]]
    ensures |r| == |s| + 1
    ensures forall x :: x in r <==> x == i || x in s
    ensures forall k :: 0 <= k < |r| ==> r[k] < |key|
    ensures forall k, l :: 0 <= k < l < |r| ==> key[r[k]] <= key[r[l]]
  {
    if |s| == 0 || key[i] < key[s[0]] then [i] + s
    else
      var rest := InsertByKey(key, i, s[1..]);
      forall l | 0 <= l < |rest|
        ensures key[s[0]] <= key[rest[l]]
      {
        assert rest[l] in rest;
        if rest[l] != i {
          HeadIsLeast(key, s, rest[l]);
        }
      }
      [s[0]] + rest
  }

  lemma {:induction false} InsertKeepsDistinct(key: seq<real>, i: nat, s: seq<nat>)
    requires i < |key|
    requires forall k :: 0 <= k < |s| ==> s[k] < |key|
    requires forall k, l :: 0 <= k < l < |s| ==> key[s[k]] <= key[s[l]]
    requires i !in s && Distinct(s)
    ensures Distinct(InsertByKey(key, i, s))
  {
    if |s| > 0 && key[s[0]] <= key[i] {
      var rest := InsertByKey(key, i, s[1..]);
      InsertKeepsDistinct(key, i, s[1..]);
      assert s[0] !in s[1..];
      assert s[0] !in rest;
      assert InsertByKey(key, i, s) == [s[0]] + rest;
    }
  }

  /** Insertion sort of the indices 0 .. n-1 by key. */
  function ArgSortPrefix(key: seq<real>, n: nat): (r: seq<nat>)
    requires n <= |key|
    ensures |r| == n
    ensures forall x: nat :: x in r <==> x < n
    ensures forall k :: 0 <= k < |r| ==> r[k] < |key|
    ensures Distinct(r)
    ensures forall k, l :: 0 <= k < l < |r| ==> key[r[k]] <= key[r[l]]
  {
    if n == 0 then []
    else
      var sorted := ArgSortPrefix(key, n - 1);
      InsertKeepsDistinct(key, n - 1, sorted);
      InsertByKey(key, n - 1, sorted)
  }

  /** numpy.argsort */
  function ArgSort(key: seq<real>): (order: seq<nat>)
    ensures IsSortingOrder(key, order)
  {
    ArgSortPrefix(key, |key|)
  }
}
