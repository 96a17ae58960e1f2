/** Sorting rows in place with a `sortBy` comparator, standing in for the host's
    `Array.prototype.sort`, and what the resulting order means for the keys. */
module Sorting {
  import opened JsValues
  import opened Comparator

  /** Every row sorts no later than its successor under the comparator. */
  predicate Ordered(s: seq<Row>, field: string, reverse: int, primer: Option<Value -> Value>) {
    forall i :: 0 < i < |s| ==> Compare(field, reverse, primer, s[i - 1], s[i]) <= 0
  }

  /** All keys are numbers, or all keys are compared as strings. */
  predicate KeysOfOneKind(s: seq<Row>, field: string, primer: Option<Value -> Value>) {
    (forall i :: 0 <= i < |s| ==> Key(field, primer, s[i]).Num?) ||
    (forall i :: 0 <= i < |s| ==> StringLike(Key(field, primer, s[i])))
  }

  /** Ascending order means keys never decrease; descending order means they never
      increase. */
  lemma OrderedMeansMonotoneKeys(s: seq<Row>, field: string, reverse: int, primer: Option<Value -> Value>)
    requires reverse == 1 || reverse == -1
    ensures reverse == 1 ==>
      (Ordered(s, field, reverse, primer) <==>
       forall i :: 0 < i < |s| ==> !Greater(Key(field, primer, s[i - 1]), Key(field, primer, s[i])))
    ensures reverse == -1 ==>
      (Ordered(s, field, reverse, primer) <==>
       forall i :: 0 < i < |s| ==> !Greater(Key(field, primer, s[i]), Key(field, primer, s[i - 1])))
  {
    forall i | 0 < i < |s| {
      CompareSign(field, reverse, primer, s[i - 1], s[i]);
    }
  }

  /** On keys of one kind, "not after" is transitive. */
  lemma CompareNotAfterTransitive(field: string, reverse: int, primer: Option<Value -> Value>, a: Row, b: Row, c: Row)
    requires reverse == 1 || reverse == -1
    requires var ka, kb, kc := Key(field, primer, a), Key(field, primer, b), Key(field, primer, c);
      (ka.Num? && kb.Num? && kc.Num?) || (StringLike(ka) && StringLike(kb) && StringLike(kc))
    requires Compare(field, reverse, primer, a, b) <= 0 && Compare(field, reverse, primer, b, c) <= 0
    ensures Compare(field, reverse, primer, a, c) <= 0
  {
    var ka, kb, kc := Key(field, primer, a), Key(field, primer, b), Key(field, primer, c);
    CompareSign(field, reverse, primer, a, b);
    CompareSign(field, reverse, primer, b, c);
    CompareSign(field, reverse, primer, a, c);
    if reverse == 1 {
      NotGreaterTransitive(ka, kb, kc);
    } else {
      NotGreaterTransitive(kc, kb, ka);
    }
  }

  lemma {:induction false} OrderedUpTo(s: seq<Row>, field: string, reverse: int, primer: Option<Value -> Value>, i: nat, j: nat)
    requires reverse == 1 || reverse == -1
    requires KeysOfOneKind(s, field, primer)
    requires Ordered(s, field, reverse, primer)
    requires i < j < |s|
    ensures Compare(field, reverse, primer, s[i], s[j]) <= 0
    decreases j - i
  {
    if i + 1 < j {
      OrderedUpTo(s, field, reverse, primer, i, j - 1);
      CompareNotAfterTransitive(field, reverse, primer, s[i], s[j - 1], s[j]);
    }
  }

  /** When the keys are of one kind (so that `>` is a total order on them), order of the
      neighbours gives order of every pair. */
  lemma OrderedPairwise(s: seq<Row>, field: string, reverse: int, primer: Option<Value -> Value>)
    requires reverse == 1 || reverse == -1
    requires KeysOfOneKind(s, field, primer)
    requires Ordered(s, field, reverse, primer)
    ensures forall i, j :: 0 <= i < j < |s| ==> Compare(field, reverse, primer, s[i], s[j]) <= 0
  {
    forall i, j | 0 <= i < j < |s| {
      OrderedUpTo(s, field, reverse, primer, i, j);
    }
  }

  /** A comparator whose answer flips sign when its arguments are swapped, as every
      comparator built by `sortBy` does. */
  ghost predicate Antisymmetric<T(!new)>(cmp: (T, T) -> int) {
    forall x, y :: cmp(x, y) == -cmp(y, x)
  }

  /** Every element sorts no later than its successor under `cmp`. */
  ghost predicate OrderedBy<T>(s: seq<T>, cmp: (T, T) -> int) {
    forall i :: 0 < i < |s| ==> cmp(s[i - 1], s[i]) <= 0
  }

  /** The comparator `sortBy(field, reverse, primer)`, as a value handed to a sort. */
  function SortBy(field: string, reverse: int, primer: Option<Value -> Value>): (Row, Row) -> int {
    (x: Row, y: Row) => Compare(field, reverse, primer, x, y)
  }

  lemma SortByAntisymmetric(field: string, reverse: int, primer: Option<Value -> Value>)
    ensures Antisymmetric(SortBy(field, reverse, primer))
  {
    forall x, y {
      CompareAntisymmetric(field, reverse, primer, x, y);
    }
  }

  lemma OrderedBySortBy(s: seq<Row>, field: string, reverse: int, primer: Option<Value -> Value>)
    ensures OrderedBy(s, SortBy(field, reverse, primer)) <==> Ordered(s, field, reverse, primer)
  {
  }

  method Swap<T>(a: array<T>, i: int, j: int)
    requires 0 <= i < a.Length && 0 <= j < a.Length
    modifies a
    ensures a[i] == old(a[j]) && a[j] == old(a[i])
    ensures forall k :: 0 <= k < a.Length && k != i && k != j ==> a[k] == old(a[k])
    ensures multiset(a[..]) == old(multiset(a[..]))
  {
    a[i], a[j] := a[j], a[i];
  }

  /** One step of insertion sort: moves `a[i]` down into the ordered prefix `a[..i]`. */
  method Insert<T(!new)>(a: array<T>, i: int, cmp: (T, T) -> int)
    requires Antisymmetric(cmp)
    requires 0 < i < a.Length
    requires forall k :: 0 < k < i ==> cmp(a[k - 1], a[k]) <= 0
    modifies a
    ensures multiset(a[..]) == old(multiset(a[..]))
    ensures forall k :: 0 < k <= i ==> cmp(a[k - 1], a[k]) <= 0
  {
    var j := i;
    while j > 0 && cmp(a[j - 1], a[j]) > 0
      invariant 0 <= j <= i
      invariant multiset(a[..]) == old(multiset(a[..]))
      invariant forall k :: 0 < k <= i && k != j ==> cmp(a[k - 1], a[k]) <= 0
      invariant 0 < j < i ==> cmp(a[j - 1], a[j + 1]) <= 0
      invariant j < i ==> cmp(a[j], a[j + 1]) < 0
    {
      assert cmp(a[j], a[j - 1]) < 0;
      Swap(a, j - 1, j);
      j := j - 1;
    }
  }

  /** `a.sort(cmp)` with an antisymmetric comparator: an insertion sort (the host's
      algorithm is not specified). The array ends as a permutation of what it held, each
      element sorting no later than the next. */
  method Sort<T(!new)>(a: array<T>, cmp: (T, T) -> int)
    requires Antisymmetric(cmp)
    modifies a
    ensures multiset(a[..]) == old(multiset(a[..]))
    ensures OrderedBy(a[..], cmp)
  {
    var i := 1;
    while i < a.Length
      invariant 1 <= i && (i == 1 || i <= a.Length)
      invariant multiset(a[..]) == old(multiset(a[..]))
      invariant forall k :: 0 < k < i && k < a.Length ==> cmp(a[k - 1], a[k]) <= 0
    {
      Insert(a, i, cmp);
      i := i + 1;
    }
  }
}
