/**
 * The run-time values shared by the scanner's literals, the syntax tree, the
 * bytecode VM and the tree-walking interpreter: what a Java `Object` held there
 * can be.
 */
module Values {
  import opened JavaInt
  import opened JavaDouble
  import opened Wrappers

  /**
   * `Nil` is Java `null`; `Int` is an `Integer` (always in 32-bit range);
   * `Float` is a `Double`, kept as the decimal text it was read from;
   * `OptionalBool` is the `Optional<Boolean>` that boolean literals produce;
   * `Callable` is a user function, identified by a handle (Java compares
   * function objects by identity).
   */
  datatype Value =
    | Nil
    | Bool(b: bool)
    | Int(i: int)
    | Float(text: string)
    | Str(s: string)
    | OptionalBool(ob: bool)
    | Callable(handle: nat)
  {
    predicate IsNumber() { Int? || Float? }
  }

  /** Only `null` and `false` are falsy; everything else, `Optional` included, is truthy. */
  function IsTruthy(v: Value): (r: bool)
    ensures !r <==> v == Nil || v == Bool(false)
  {
    match v
    case Nil => false
    case Bool(b) => b
    case _ => true
  }

  /**
   * Whether `isEqual` on these two values is decided by the model. Two doubles
   * written differently may still be the same number (`1.0` and `1.00`, or two
   * texts that round to the same `double`), and `Double.equals` compares the
   * numbers, which the model does not compute; the same text always gives the
   * same number.
   */
  predicate EqualityDecided(a: Value, b: Value)
  {
    !(a.Float? && b.Float? && a.text != b.text)
  }

  /**
   * `isEqual`: null equals only null; otherwise Java's `equals`, which compares
   * boxed numbers, strings and optionals by content (an `Integer` never equals
   * a `Double`) and functions by identity. `None` where the verdict depends on
   * the numeric value of two differently written doubles.
   */
  function IsEqual(a: Value, b: Value): (r: Option<bool>)
    ensures r.Some? <==> EqualityDecided(a, b)
  {
    if !EqualityDecided(a, b) then None
    else if a == Nil && b == Nil then Some(true)
    else if a == Nil then Some(false)
    else Some(JavaEquals(a, b))
  }

  /** Java's `a.equals(b)` for a non-null `a`, where the model decides it. */
  function JavaEquals(a: Value, b: Value): bool
    requires a != Nil && EqualityDecided(a, b)
  {
    match a
    case Bool(x) => b.Bool? && b.b == x
    case Int(x) => b.Int? && b.i == x
    case Float(t) => b.Float?
    case Str(x) => b.Str? && b.s == x
    case OptionalBool(x) => b.OptionalBool? && b.ob == x
    case Callable(h) => b.Callable? && b.handle == h
  }

  /**
   * Where the model decides it, equality as the language sees it is exactly
   * equality of the modelled values; it is undecided only for two doubles
   * written differently.
   */
  lemma IsEqualIsValueEquality(a: Value, b: Value)
    ensures IsEqual(a, b).Some? <==> !(a.Float? && b.Float? && a.text != b.text)
    ensures IsEqual(a, b).Some? ==> (IsEqual(a, b).value <==> a == b)
  {
  }

  /** Equality as the language sees it is reflexive and symmetric. */
  lemma IsEqualSymmetric(a: Value, b: Value)
    ensures IsEqual(a, a) == Some(true)
    ensures IsEqual(a, b) == IsEqual(b, a)
  {
    IsEqualIsValueEquality(a, b);
    IsEqualIsValueEquality(b, a);
    IsEqualIsValueEquality(a, a);
  }

  function BoolText(b: bool): string
  {
    if b then "true" else "false"
  }

  /**
   * Java's `toString` of a value, `null` included; `None` for a function
   * object, whose default `toString` is a hash code, and for a `Double`, whose
   * shortest-decimal text is not modelled.
   */
  function JavaToString(v: Value): Option<string>
  {
    match v
    case Nil => Some("null")
    case Bool(b) => Some(BoolText(b))
    case Int(i) => Some(IntToString(i))
    case Float(_) => None
    case Str(s) => Some(s)
    case OptionalBool(b) => Some("Optional[" + BoolText(b) + "]")
    case Callable(_) => None
  }

  /**
   * `stringify`, the same in the VM and in the interpreter on every value
   * modelled here: `nulo`, `verdadeiro`, `falso`, or Java's `toString`, which
   * for the `Optional` a boolean literal carries is `Optional[true]` or
   * `Optional[false]`; `None` where that is not modelled (doubles, functions).
   */
  function Stringify(v: Value): (r: Option<string>)
    ensures v == Nil ==> r == Some("nulo")
    ensures v == Bool(true) ==> r == Some("verdadeiro")
    ensures v == Bool(false) ==> r == Some("falso")
    ensures v.Int? ==> r == Some(IntToString(v.i))
    ensures v.Str? ==> r == Some(v.s)
    ensures v.OptionalBool? ==> r == Some("Optional[" + BoolText(v.ob) + "]")
    ensures r.None? <==> v.Float? || v.Callable?
  {
    match v
    case Nil => Some("nulo")
    case Bool(b) => Some(if b then "verdadeiro" else "falso")
    case Float(_) => None
    case _ => JavaToString(v)
  }

  /**
   * The value read from an input line: `Integer.parseInt`, else
   * `Double.parseDouble` (whose value is not modelled: `None`), else the
   * text itself.
   */
  function InputValue(line: string): (r: Option<Value>)
    ensures ParseInt(line).Some? ==> r == Some(Int(ParseInt(line).value))
    ensures ParseInt(line).None? && !ParsesAsDouble(line) ==> r == Some(Str(line))
    ensures r.None? <==> ParseInt(line).None? && ParsesAsDouble(line)
  {
    match ParseInt(line)
    case Some(i) => Some(Int(i))
    case None => if ParsesAsDouble(line) then None else Some(Str(line))
  }
}
