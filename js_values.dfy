/** JavaScript values as they occur in the rows of the account table, property access on
    them, string conversion for `"/" + x`, and the relational operator `>`. */
module JsValues {

  /** The JavaScript values a row can hold: a missing property reads as `Undefined`,
      numbers are integers here, and a nested record (such as `Owner`) is an object. */
  datatype Value = Undefined | Num(n: int) | Str(s: string) | Obj(fields: map<string, Value>)

  /** A record: a plain object viewed as a dictionary of its own properties. */
  type Row = map<string, Value>

  datatype Option<T> = None | Some(value: T)

  /** The only exception the modelled code can raise. */
  datatype JsError = TypeError

  /** The outcome of an expression that may throw. */
  datatype Result<T> = Ok(value: T) | Thrown(error: JsError)

  /** `x[field]`. */
  function Get(x: Row, field: string): Value {
    if field in x then x[field] else Undefined
  }

  /** `v.name`: reading a property of `undefined` throws; a primitive has no own property
      of the names used here, so it reads as `undefined`. */
  function Member(v: Value, name: string): (r: Result<Value>)
    ensures r.Thrown? <==> v == Undefined
    ensures v.Obj? ==> r == Ok(Get(v.fields, name))
  {
    match v
    case Undefined => Thrown(TypeError)
    case Obj(m) => Ok(Get(m, name))
    case _ => Ok(Undefined)
  }

  function DigitChar(d: int): char
    requires 0 <= d < 10
  {
    "0123456789"[d]
  }

  /** Decimal notation of a natural number. */
  function NatToString(n: nat): string
    decreases n
  {
    if n < 10 then [DigitChar(n)] else NatToString(n / 10) + [DigitChar(n % 10)]
  }

  /** String conversion, as used by `"/" + v`. */
  function ToJsString(v: Value): string {
    match v
    case Undefined => "undefined"
    case Num(n) => if n < 0 then "-" + NatToString(-n) else NatToString(n)
    case Str(s) => s
    case Obj(_) => "[object Object]"
  }

  /** `a < b` on two strings: character by character (characters are Unicode scalar values),
      a proper prefix is smaller. */
  predicate StrLess(a: string, b: string) {
    if |b| == 0 then false
    else if |a| == 0 then true
    else if a[0] != b[0] then a[0] < b[0]
    else StrLess(a[1..], b[1..])
  }

  /** Objects reach `>` as the string "[object Object]"; other values as themselves. */
  function ToPrimitive(v: Value): Value {
    if v.Obj? then Str("[object Object]") else v
  }

  /** `a > b`: compares two strings character by character and two numbers numerically; any
      comparison with `undefined` is false. */
  predicate Greater(a: Value, b: Value) {
    match (ToPrimitive(a), ToPrimitive(b))
    case (Str(x), Str(y)) => StrLess(y, x)
    case (Num(x), Num(y)) => x > y
    case _ => false
  }

  /** A value that `>` compares as a string. */
  predicate StringLike(v: Value) {
    ToPrimitive(v).Str?
  }

  lemma {:induction false} StrLessIrreflexive(a: string)
    ensures !StrLess(a, a)
  {
    if |a| > 0 {
      StrLessIrreflexive(a[1..]);
    }
  }

  lemma {:induction false} StrLessAsymmetric(a: string, b: string)
    ensures !(StrLess(a, b) && StrLess(b, a))
  {
    if |a| > 0 && |b| > 0 && a[0] == b[0] {
      StrLessAsymmetric(a[1..], b[1..]);
    }
  }

  lemma {:induction false} StrLessTransitive(a: string, b: string, c: string)
    requires StrLess(a, b) && StrLess(b, c)
    ensures StrLess(a, c)
  {
    if |a| > 0 && a[0] == b[0] && b[0] == c[0] {
      StrLessTransitive(a[1..], b[1..], c[1..]);
    }
  }

  lemma {:induction false} StrLessTotal(a: string, b: string)
    ensures a == b || StrLess(a, b) || StrLess(b, a)
  {
    if |a| > 0 && |b| > 0 && a[0] == b[0] {
      StrLessTotal(a[1..], b[1..]);
      if a[1..] == b[1..] {
        assert a == [a[0]] + a[1..] && b == [b[0]] + b[1..];
      }
    }
  }

  /** No value is greater than itself, `undefined` included. */
  lemma GreaterIrreflexive(v: Value)
    ensures !Greater(v, v)
  {
    if StringLike(v) {
      StrLessIrreflexive(ToPrimitive(v).s);
    }
  }

  /** `a > b` and `b > a` never both hold. */
  lemma GreaterAsymmetric(a: Value, b: Value)
    ensures !(Greater(a, b) && Greater(b, a))
  {
    if StringLike(a) && StringLike(b) {
      StrLessAsymmetric(ToPrimitive(a).s, ToPrimitive(b).s);
    }
  }

  /** Among numbers, or among string-like values, "not greater" is transitive: `>` is a
      total order there. */
  lemma NotGreaterTransitive(a: Value, b: Value, c: Value)
    requires (a.Num? && b.Num? && c.Num?) || (StringLike(a) && StringLike(b) && StringLike(c))
    requires !Greater(a, b) && !Greater(b, c)
    ensures !Greater(a, c)
  {
    if StringLike(a) {
      var x, y, z := ToPrimitive(a).s, ToPrimitive(b).s, ToPrimitive(c).s;
      StrLessTotal(x, y);
      StrLessTotal(y, z);
      if StrLess(z, x) {
        if x == y {
          assert StrLess(z, y);
        } else if y == z {
          assert StrLess(y, x);
        } else {
          StrLessTransitive(x, y, z);
          StrLessAsymmetric(x, z);
        }
      }
    }
  }

  /** Among numbers, or among string-like values, neither being greater means they are
      equal once converted to primitives. */
  lemma NeitherGreaterMeansEqual(a: Value, b: Value)
    requires (a.Num? && b.Num?) || (StringLike(a) && StringLike(b))
    requires !Greater(a, b) && !Greater(b, a)
    ensures ToPrimitive(a) == ToPrimitive(b)
  {
    if StringLike(a) {
      StrLessTotal(ToPrimitive(a).s, ToPrimitive(b).s);
    }
  }
}
