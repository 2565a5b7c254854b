/**
 * Python's `list.sort(key=...)`: a stable sort.  It is specified by the index
 * order it produces: `order` lists every input position once, and positions are
 * ascending by key, equal keys keeping their input order.
 */
module Sorting {

  /** Position `i` goes before position `j` in a stable ascending sort on `keys`. */
  predicate Before(keys: seq<real>, i: int, j: int)
    requires 0 <= i < |keys| && 0 <= j < |keys|
  {
    keys[i] < keys[j] || (keys[i] == keys[j] && i < j)
  }

  ghost predicate Distinct(s: seq<int>) {
    forall a, b :: 0 <= a < b < |s| ==> s[a] != s[b]
  }

  /** `order` lists each of the positions 0 .. n-1 exactly once. */
  ghost predicate IsPermutation(order: seq<int>, n: nat) {
    && |order| == n
    && (forall a :: 0 <= a < n ==> 0 <= order[a] < n)
    && Distinct(order)
    && (forall c :: 0 <= c < n ==> c in order)
  }

  /** Every pair of entries of `order` is in stable ascending key order. */
  ghost predicate LexSorted(keys: seq<real>, order: seq<int>) {
    forall a, b :: 0 <= a < b < |order| ==>
      0 <= order[a] < |keys| && 0 <= order[b] < |keys| && Before(keys, order[a], order[b])
  }

  function Keys<T>(s: seq<T>, key: T -> real): (ks: seq<real>)
    ensures |ks| == |s|
    ensures forall i :: 0 <= i < |s| ==> ks[i] == key(s[i])
  {
    seq(|s|, i requires 0 <= i < |s| => key(s[i]))
  }

  function Permute<T>(s: seq<T>, order: seq<int>): (r: seq<T>)
    requires forall a :: 0 <= a < |order| ==> 0 <= order[a] < |s|
    ensures |r| == |order|
    ensures forall a :: 0 <= a < |order| ==> r[a] == s[order[a]]
  {
    seq(|order|, a requires 0 <= a < |order| => s[order[a]])
  }

  /** `out` is what a stable ascending sort of `input` by `key` returns. */
  ghost predicate IsStableSort<T>(out: seq<T>, input: seq<T>, key: T -> real) {
    exists order :: IsPermutation(order, |input|) && LexSorted(Keys(input, key), order)
                    && out == Permute(input, order)
  }

  /** How many leading entries of `o` have a key at most `keys[j]`: where a stable insertion puts `j`. */
  function InsertionPoint(keys: seq<real>, o: seq<int>, j: int): (p: nat)
    requires 0 <= j < |keys|
    requires forall a :: 0 <= a < |o| ==> 0 <= o[a] < |keys|
    ensures p <= |o|
    ensures forall a :: 0 <= a < p ==> keys[o[a]] <= keys[j]
    ensures p < |o| ==> keys[j] < keys[o[p]]
  {
    if o == [] || keys[j] < keys[o[0]] then 0
    else
      var p := 1 + InsertionPoint(keys, o[1..], j);
      assert forall a :: 1 <= a < p ==> o[a] == o[1..][a - 1];
      p
  }

  /** Places position `j` after every leading position of `o` whose key is at most `keys[j]`. */
  function Insert(keys: seq<real>, o: seq<int>, j: int): (r: seq<int>)
    requires 0 <= j < |keys|
    requires forall a :: 0 <= a < |o| ==> 0 <= o[a] < |keys|
    ensures |r| == |o| + 1
  {
    var p := InsertionPoint(keys, o, j);
    o[..p] + [j] + o[p..]
  }

  /** Where each entry of the insertion comes from. */
  lemma InsertIndex(keys: seq<real>, o: seq<int>, j: int, a: int)
    requires 0 <= j < |keys|
    requires forall a :: 0 <= a < |o| ==> 0 <= o[a] < |keys|
    requires 0 <= a <= |o|
    ensures a < InsertionPoint(keys, o, j) ==> Insert(keys, o, j)[a] == o[a]
    ensures a == InsertionPoint(keys, o, j) ==> Insert(keys, o, j)[a] == j
    ensures a > InsertionPoint(keys, o, j) ==> Insert(keys, o, j)[a] == o[a - 1]
  {
  }

  /** Inserting a position above every position of a sorted ordering keeps it sorted. */
  lemma InsertKeepsSorted(keys: seq<real>, o: seq<int>, j: int)
    requires 0 <= j < |keys|
    requires forall a :: 0 <= a < |o| ==> 0 <= o[a] < j
    requires LexSorted(keys, o)
    ensures LexSorted(keys, Insert(keys, o, j))
  {
    var r := Insert(keys, o, j);
    var p := InsertionPoint(keys, o, j);
    forall a, b | 0 <= a < b < |r|
      ensures 0 <= r[a] < |keys| && 0 <= r[b] < |keys| && Before(keys, r[a], r[b])
    {
      InsertIndex(keys, o, j, a);
      InsertIndex(keys, o, j, b);
      if b == p {
        assert r[a] == o[a] && r[b] == j;
      } else if a == p {
        assert r[b] == o[b - 1];
        if p < b - 1 {
          assert Before(keys, o[p], o[b - 1]);
        }
      } else if b < p {
        assert Before(keys, o[a], o[b]);
      } else if a < p {
        assert Before(keys, o[a], o[b - 1]);
      } else {
        assert Before(keys, o[a - 1], o[b - 1]);
      }
    }
  }

  /** Inserting `j` into an ordering of 0 .. j-1 gives positions up to `j`. */
  lemma InsertInRange(keys: seq<real>, o: seq<int>, j: int)
    requires 0 <= j < |keys|
    requires IsPermutation(o, j)
    ensures forall a :: 0 <= a <= j ==> 0 <= Insert(keys, o, j)[a] <= j
  {
    forall a | 0 <= a <= j
      ensures 0 <= Insert(keys, o, j)[a] <= j
    {
      InsertIndex(keys, o, j, a);
    }
  }

  /** Inserting `j` into an ordering of 0 .. j-1 lists no position twice. */
  lemma InsertDistinct(keys: seq<real>, o: seq<int>, j: int)
    requires 0 <= j < |keys|
    requires IsPermutation(o, j)
    ensures Distinct(Insert(keys, o, j))
  {
    var r := Insert(keys, o, j);
    var p := InsertionPoint(keys, o, j);
    forall a, b | 0 <= a < b <= j
      ensures r[a] != r[b]
    {
      InsertIndex(keys, o, j, a);
      InsertIndex(keys, o, j, b);
      if a < p && b < p {
        assert r[a] == o[a] && r[b] == o[b];
      } else if a < p && p < b {
        assert r[a] == o[a] && r[b] == o[b - 1];
      } else if p < a {
        assert r[a] == o[a - 1] && r[b] == o[b - 1];
      }
    }
  }

  /** Inserting `j` into an ordering of 0 .. j-1 lists every position up to `j`. */
  lemma InsertCovers(keys: seq<real>, o: seq<int>, j: int)
    requires 0 <= j < |keys|
    requires IsPermutation(o, j)
    ensures forall c :: 0 <= c <= j ==> c in Insert(keys, o, j)
  {
    var r := Insert(keys, o, j);
    var p := InsertionPoint(keys, o, j);
    forall c | 0 <= c <= j
      ensures c in r
    {
      if c == j {
        InsertIndex(keys, o, j, p);
      } else {
        assert c in o;
        var k :| 0 <= k < |o| && o[k] == c;
        if k < p {
          InsertIndex(keys, o, j, k);
        } else {
          InsertIndex(keys, o, j, k + 1);
        }
      }
    }
  }

  /** Inserting the next position into an ordering of 0 .. n-2 gives an ordering of 0 .. n-1. */
  lemma InsertExtendsPermutation(keys: seq<real>, o: seq<int>, n: nat)
    requires 0 < n <= |keys|
    requires IsPermutation(o, n - 1)
    ensures IsPermutation(Insert(keys, o, n - 1), n)
  {
    InsertInRange(keys, o, n - 1);
    InsertDistinct(keys, o, n - 1);
    InsertCovers(keys, o, n - 1);
  }

  /** One step of the insertion sort keeps a sorted ordering of the positions seen so far. */
  lemma InsertStep(keys: seq<real>, o: seq<int>, n: nat)
    requires 0 < n <= |keys|
    requires IsPermutation(o, n - 1) && LexSorted(keys, o)
    ensures IsPermutation(Insert(keys, o, n - 1), n)
    ensures LexSorted(keys, Insert(keys, o, n - 1))
  {
    InsertKeepsSorted(keys, o, n - 1);
    InsertExtendsPermutation(keys, o, n);
  }

  /** Insertion sort of the positions 0 .. n-1 by key, one position at a time. */
  function SortPrefix(keys: seq<real>, n: nat): (order: seq<int>)
    requires n <= |keys|
    ensures IsPermutation(order, n)
    ensures LexSorted(keys, order)
  {
    if n == 0 then []
    else
      var o := SortPrefix(keys, n - 1);
      InsertStep(keys, o, n);
      Insert(keys, o, n - 1)
  }

  function SortOrder(keys: seq<real>): (order: seq<int>)
    ensures IsPermutation(order, |keys|)
    ensures LexSorted(keys, order)
  {
    SortPrefix(keys, |keys|)
  }

  /** `sorted(s, key=key)`: the input reordered stably by ascending key. */
  function StableSortBy<T>(s: seq<T>, key: T -> real): (r: seq<T>)
    ensures IsStableSort(r, s, key)
    ensures |r| == |s|
    ensures forall a, b :: 0 <= a < b < |r| ==> key(r[a]) <= key(r[b])
  {
    var order := SortOrder(Keys(s, key));
    var r := Permute(s, order);
    assert forall a, b :: 0 <= a < b < |r| ==> key(r[a]) <= key(r[b]) by {
      forall a, b | 0 <= a < b < |r| ensures key(r[a]) <= key(r[b]) {
        assert Before(Keys(s, key), order[a], order[b]);
      }
    }
    r
  }

  /** Every element of a stable sort comes from the input, and every input element appears in it. */
  lemma {:induction false} StableSortSameElements<T>(out: seq<T>, input: seq<T>, key: T -> real)
    requires IsStableSort(out, input, key)
    ensures |out| == |input|
    ensures forall x :: x in out <==> x in input
  {
    var order :| IsPermutation(order, |input|) && LexSorted(Keys(input, key), order)
                 && out == Permute(input, order);
    forall x | x in input ensures x in out {
      var c :| 0 <= c < |input| && input[c] == x;
      assert c in order;
      var a :| 0 <= a < |order| && order[a] == c;
      assert out[a] == x;
    }
  }

  /**
   * Cutting a sequence sorted by `key` to its first `n` entries keeps the
   * smallest keys: any entry left out has a key no smaller than every
   * entry kept.
   */
  lemma PrefixKeepsSmallest<T>(sorted: seq<T>, key: T -> real, n: nat, x: T)
    requires n <= |sorted|
    requires forall a, b :: 0 <= a < b < |sorted| ==> key(sorted[a]) <= key(sorted[b])
    requires x in sorted && x !in sorted[..n]
    ensures forall e :: e in sorted[..n] ==> key(e) <= key(x)
  {
    var a :| 0 <= a < |sorted| && sorted[a] == x;
    assert forall t :: 0 <= t < n ==> sorted[..n][t] == sorted[t];
    assert n <= a;
    forall e | e in sorted[..n]
      ensures key(e) <= key(x)
    {
      var t :| 0 <= t < n && sorted[..n][t] == e;
      assert sorted[t] == e;
    }
  }
}
