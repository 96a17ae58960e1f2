/** The comparator built by `sortBy(field, reverse, primer)`: a key function reads `field`
    (through the primer when one is given) and the comparator returns
    `reverse * ((ka > kb) - (kb > ka))`. */
module Comparator {
  import opened JsValues

  /** The key function: `primer(x[field])` when a primer is given, otherwise `x[field]`. */
  function Key(field: string, primer: Option<Value -> Value>, x: Row): Value {
    match primer
    case Some(p) => p(Get(x, field))
    case None => Get(x, field)
  }

  /** A boolean in an arithmetic context: `true` is 1, `false` is 0. */
  function BoolToNum(b: bool): int {
    if b then 1 else 0
  }

  /** `sortBy(field, reverse, primer)(a, b)`. The result is 0 or carries the sign of
      `reverse` one way or the other; in particular it lies in {-1, 0, 1} for a direction
      multiplier of 1 or -1. */
  function Compare(field: string, reverse: int, primer: Option<Value -> Value>, a: Row, b: Row): (r: int)
    ensures r == 0 || r == reverse || r == -reverse
    ensures reverse == 1 || reverse == -1 ==> -1 <= r <= 1
  {
    var ka, kb := Key(field, primer, a), Key(field, primer, b);
    reverse * (BoolToNum(Greater(ka, kb)) - BoolToNum(Greater(kb, ka)))
  }

  /** With a non-zero multiplier the comparator answers 0 exactly when neither key is
      greater than the other. */
  lemma CompareZeroIff(field: string, reverse: int, primer: Option<Value -> Value>, a: Row, b: Row)
    requires reverse != 0
    ensures Compare(field, reverse, primer, a, b) == 0
        <==> (!Greater(Key(field, primer, a), Key(field, primer, b)) &&
              !Greater(Key(field, primer, b), Key(field, primer, a)))
  {
    GreaterAsymmetric(Key(field, primer, a), Key(field, primer, b));
  }

  /** Direction 1 orders by key: negative when a's key is the smaller, positive when it is
      the greater. Direction -1 swaps the two. */
  lemma CompareSign(field: string, reverse: int, primer: Option<Value -> Value>, a: Row, b: Row)
    requires reverse == 1 || reverse == -1
    ensures var ka, kb := Key(field, primer, a), Key(field, primer, b);
      && (Compare(field, reverse, primer, a, b) < 0 <==> (if reverse == 1 then Greater(kb, ka) else Greater(ka, kb)))
      && (Compare(field, reverse, primer, a, b) > 0 <==> (if reverse == 1 then Greater(ka, kb) else Greater(kb, ka)))
  {
    GreaterAsymmetric(Key(field, primer, a), Key(field, primer, b));
  }

  /** A row compared with itself gives 0, in either direction and with any primer. */
  lemma CompareSelf(field: string, reverse: int, primer: Option<Value -> Value>, a: Row)
    ensures Compare(field, reverse, primer, a, a) == 0
  {
    GreaterIrreflexive(Key(field, primer, a));
  }

  /** Rows whose keys are equal compare as 0. */
  lemma CompareEqualKeys(field: string, reverse: int, primer: Option<Value -> Value>, a: Row, b: Row)
    requires Key(field, primer, a) == Key(field, primer, b)
    ensures Compare(field, reverse, primer, a, b) == 0
  {
    var k := Key(field, primer, a);
    GreaterIrreflexive(k);
    assert BoolToNum(Greater(k, Key(field, primer, b))) - BoolToNum(Greater(Key(field, primer, b), k)) == 0;
  }

  /** The comparator is antisymmetric. */
  lemma CompareAntisymmetric(field: string, reverse: int, primer: Option<Value -> Value>, a: Row, b: Row)
    ensures Compare(field, reverse, primer, a, b) == -Compare(field, reverse, primer, b, a)
  {
  }

  /** Negating the direction multiplier negates every result. */
  lemma CompareReverse(field: string, reverse: int, primer: Option<Value -> Value>, a: Row, b: Row)
    ensures Compare(field, -reverse, primer, a, b) == -Compare(field, reverse, primer, a, b)
  {
  }

  /** With a primer, rows are ordered by `primer(x[field])`: comparing them is the same as
      comparing, without a primer, rows whose `field` already holds the primed value. */
  lemma ComparePrimer(field: string, reverse: int, p: Value -> Value, a: Row, b: Row)
    ensures Compare(field, reverse, Some(p), a, b)
         == Compare(field, reverse, None, a[field := p(Get(a, field))], b[field := p(Get(b, field))])
  {
  }

  /** Only the key decides: a row can be replaced by any row with the same key. */
  lemma CompareOnlyKey(field: string, reverse: int, primer: Option<Value -> Value>, a: Row, a': Row, b: Row)
    requires Get(a, field) == Get(a', field)
    ensures Compare(field, reverse, primer, a, b) == Compare(field, reverse, primer, a', b)
    ensures Compare(field, reverse, primer, b, a) == Compare(field, reverse, primer, b, a')
  {
  }
}
