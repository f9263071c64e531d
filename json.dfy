/** JavaScript values, as far as the message board inspects them: the fields
    of a JSON request body, React state cells and what `!v` and `v.length`
    make of them. */
module Json {

  datatype Option<+T> = None | Some(value: T)

  /** A JavaScript value. Numbers are integers here (NaN and fractions are
      not modelled); `Obj` stands for a non-array object without a `length`
      key. Arrays and objects with a `length` key are not modelled. */
  datatype Value = Undefined | Null | Bool(b: bool) | Num(n: int) | Str(s: string) | Obj

  /** JavaScript truthiness: `!v` is true exactly when this is false. */
  predicate Truthy(v: Value)
  {
    match v
    case Undefined => false
    case Null => false
    case Bool(b) => b
    case Num(n) => n != 0
    case Str(s) => s != ""
    case Obj => true
  }

  /** `v.length` on a truthy value: the length of a string, `undefined`
      (None) for a number, a boolean or an `Obj`. */
  function Length(v: Value): (len: Option<nat>)
    ensures len.Some? <==> v.Str?
    ensures v.Str? ==> len.value == |v.s|
  {
    if v.Str? then Some(|v.s|) else None
  }

  /** The number a string of decimal digits denotes, most significant first. */
  function DigitsValue(s: string): nat
    requires forall i | 0 <= i < |s| :: '0' <= s[i] <= '9'
    decreases |s|
  {
    if s == [] then 0
    else DigitsValue(s[..|s| - 1]) * 10 + (s[|s| - 1] - '0') as nat
  }

  /** The decimal digits of `n`, as a template literal `${n}` prints it: no
      leading zero, and denoting `n`. */
  function DecimalString(n: nat): (s: string)
    ensures |s| >= 1
    ensures forall i | 0 <= i < |s| :: '0' <= s[i] <= '9'
    ensures s[0] == '0' ==> n == 0
    ensures DigitsValue(s) == n
  {
    var digit := ['0' + (n % 10) as char];
    if n < 10 then digit
    else
      var prefix := DecimalString(n / 10);
      assert (prefix + digit)[..|prefix|] == prefix;
      prefix + digit
  }
}
