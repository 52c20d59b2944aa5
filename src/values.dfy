/** The run-time values of Scripts/ProgramExec/PythonInterpreter.cs and the
    pure helpers on them: truthiness, equality, ordering, and the `Convert`
    and `ToString` conversions the interpreter applies. A C# `object` becomes
    a `Value`. A `List<object>` is shared by reference, so a list value is the
    index of its cell in a heap of lists. Doubles are exact reals here. */
module Values {
  import opened Wrappers
  import Text

  /** null, a boxed double, a boxed int (only `len` makes one), a string,
      a bool, or a reference to a list. */
  datatype Value = Null | Num(n: real) | Int(i: int) | Str(s: string) | Bool(b: bool) | ListRef(id: nat)

  /** A `List<object>`: its elements and its modification count, which a
      `foreach` over the list checks before every step. */
  datatype ListObj = ListObj(items: seq<Value>, version: nat)

  /** `v` does not point past the end of a heap of `n` lists. */
  predicate Refers(v: Value, n: nat) {
    v.ListRef? ==> v.id < n
  }

  predicate AllRefer(vs: seq<Value>, n: nat) {
    forall i :: 0 <= i < |vs| ==> Refers(vs[i], n)
  }

  // ---------------------------------------------------------------------
  // Truthiness, equality, ordering
  // ---------------------------------------------------------------------

  /** `IsTrue` (PythonInterpreter.cs:837-845). A boxed int matches none of
      the tests before the last one, so it is always true. */
  function IsTrue(v: Value, heap: seq<ListObj>): bool
    requires Refers(v, |heap|)
  {
    match v
    case Null => false
    case Bool(b) => b
    case Num(d) => d != 0.0
    case Str(s) => |s| > 0
    case ListRef(id) => |heap[id].items| > 0
    case Int(_) => true
  }

  /** The false values, listed: None, False, 0.0, the empty string and an
      empty list. */
  predicate Falsy(v: Value, heap: seq<ListObj>)
    requires Refers(v, |heap|)
  {
    v == Null || v == Bool(false) || v == Num(0.0) || v == Str("") ||
    (v.ListRef? && heap[v.id].items == [])
  }

  lemma {:induction false} TruthIsNotFalsy(v: Value, heap: seq<ListObj>)
    requires Refers(v, |heap|)
    ensures IsTrue(v, heap) <==> !Falsy(v, heap)
  {
  }

  /** In particular `len` of an empty list or string, an int 0, is true. */
  lemma {:induction false} IntIsTrue(i: int, heap: seq<ListObj>)
    ensures IsTrue(Int(i), heap)
  {
  }

  /** `object.Equals(a, b)`: two nulls are equal; otherwise both must be
      boxed values of the same type with the same contents, or the same list. */
  function ValueEquals(a: Value, b: Value): bool {
    match a
    case Null => b.Null?
    case Num(x) => b.Num? && b.n == x
    case Int(x) => b.Int? && b.i == x
    case Str(x) => b.Str? && b.s == x
    case Bool(x) => b.Bool? && b.b == x
    case ListRef(x) => b.ListRef? && b.id == x
  }

  /** Equality is identity of values: an int never equals a double, and two
      lists are equal only when they are the same list. */
  lemma {:induction false} EqualsIsIdentity(a: Value, b: Value)
    ensures ValueEquals(a, b) <==> a == b
  {
  }

  /** `string.Compare`, taken as ordinal: the sign of the first difference,
      or of the length difference when one string is a prefix of the other. */
  function CompareText(a: string, b: string): (c: int)
    ensures -1 <= c <= 1
    ensures c == 0 <==> a == b
  {
    if a == [] && b == [] then 0
    else if a == [] then -1
    else if b == [] then 1
    else if a[0] < b[0] then -1
    else if a[0] > b[0] then 1
    else CompareText(a[1..], b[1..])
  }

  lemma {:induction false} CompareTextAntisymmetric(a: string, b: string)
    ensures CompareText(b, a) == -CompareText(a, b)
  {
    if a != [] && b != [] && a[0] == b[0] {
      CompareTextAntisymmetric(a[1..], b[1..]);
    }
  }

  lemma {:induction false} CompareTextTransitive(a: string, b: string, c: string)
    requires CompareText(a, b) < 0 && CompareText(b, c) < 0
    ensures CompareText(a, c) < 0
  {
    if a != [] && b != [] && c != [] && a[0] == b[0] && b[0] == c[0] {
      CompareTextTransitive(a[1..], b[1..], c[1..]);
    }
  }

  /** `CompareValues` (PythonInterpreter.cs:848-859): two doubles or two
      strings; any other pair, an int included, cannot be compared. */
  function CompareValues(a: Value, b: Value): (r: Result<int>)
    ensures r.Ok? <==> (a.Num? && b.Num?) || (a.Str? && b.Str?)
    ensures r.Ok? ==> -1 <= r.value <= 1 && (r.value == 0 <==> a == b)
    ensures r.Ok? && a.Num? ==> (r.value < 0 <==> a.n < b.n)
  {
    if a.Num? && b.Num? then Ok(if a.n < b.n then -1 else if a.n > b.n then 1 else 0)
    else if a.Str? && b.Str? then Ok(CompareText(a.s, b.s))
    else Err("Cannot compare values of types " + FullTypeName(a) + " and " + FullTypeName(b))
  }

  /** Swapping the operands negates the comparison. */
  lemma {:induction false} CompareValuesAntisymmetric(a: Value, b: Value)
    requires CompareValues(a, b).Ok?
    ensures CompareValues(b, a) == Ok(-CompareValues(a, b).value)
  {
    if a.Str? {
      CompareTextAntisymmetric(a.s, b.s);
    }
  }

  lemma {:induction false} CompareValuesTransitive(a: Value, b: Value, c: Value)
    requires CompareValues(a, b).Ok? && CompareValues(a, b).value < 0
    requires CompareValues(b, c).Ok? && CompareValues(b, c).value < 0
    ensures CompareValues(a, c).Ok? && CompareValues(a, c).value < 0
  {
    if a.Str? {
      CompareTextTransitive(a.s, b.s, c.s);
    }
  }

  // ---------------------------------------------------------------------
  // Type names and text
  // ---------------------------------------------------------------------

  const ListTypeText: string := "System.Collections.Generic.List`1[System.Object]"
  const NullReference: string := "Object reference not set to an instance of an object."

  /** `GetType().Name`, empty for null. */
  function TypeName(v: Value): string {
    match v
    case Null => ""
    case Num(_) => "Double"
    case Int(_) => "Int32"
    case Str(_) => "String"
    case Bool(_) => "Boolean"
    case ListRef(_) => "List`1"
  }

  /** `GetType()` as interpolated into a message, empty for null. */
  function FullTypeName(v: Value): string {
    match v
    case ListRef(_) => ListTypeText
    case Null => ""
    case _ => "System." + TypeName(v)
  }

  /** A double as `ToString()` writes it: a whole number without a point,
      otherwise the integer part, '.', and up to fifteen fraction digits. */
  function NumberText(d: real): string {
    if d == d.Floor as real then Text.IntToString(d.Floor)
    else
      var a := if d < 0.0 then -d else d;
      var w := a.Floor;
      (if d < 0.0 then "-" else "") + Text.NatToString(w) + "." + FractionDigits(a - w as real, 15)
  }

  function FractionDigits(f: real, k: nat): string
    requires 0.0 <= f < 1.0
    decreases k
  {
    if k == 0 || f == 0.0 then ""
    else
      var t := f * 10.0;
      var d := t.Floor;
      var tail := FractionDigits(t - d as real, k - 1);
      if tail == "" && d == 0 then "" else [Text.DigitChar(d)] + tail
  }

  /** `ToString()` of a non-null object; null throws. */
  function ToText(v: Value): (r: Result<string>)
    ensures r.Err? <==> v.Null?
    ensures v.Str? ==> r == Ok(v.s)
  {
    match v
    case Null => Err(NullReference)
    case Num(d) => Ok(NumberText(d))
    case Int(i) => Ok(Text.IntToString(i))
    case Str(s) => Ok(s)
    case Bool(b) => Ok(if b then "True" else "False")
    case ListRef(_) => Ok(ListTypeText)
  }

  /** How `print` shows one argument: "None" for null. */
  function Display(v: Value): (s: string)
    ensures v.Null? ==> s == "None"
    ensures !v.Null? ==> ToText(v) == Ok(s)
  {
    if v.Null? then "None" else ToText(v).value
  }

  /** A whole number is shown as its digits, with no point. */
  lemma {:induction false} WholeNumberText(k: int)
    ensures ToText(Num(k as real)) == ToText(Int(k))
  {
    assert (k as real).Floor == k;
  }

  // ---------------------------------------------------------------------
  // Convert.ToDouble and Convert.ToInt32
  // ---------------------------------------------------------------------

  const FormatError: string := "Input string was not in a correct format."
  const Int32Overflow: string := "Value was either too large or too small for an Int32."
  const CastError: string := "Unable to cast object of type 'System.Collections.Generic.List`1[System.Object]' to type 'System.IConvertible'."

  const Int32Min: int := -0x8000_0000
  const Int32Max: int := 0x7FFF_FFFF

  /** `Convert.ToDouble(object)`: null is 0, a bool 1 or 0, a string is
      parsed once the white space around it is removed, a list cannot be
      converted. */
  function ToDouble(v: Value): (r: Result<real>)
    ensures r.Err? <==> v.ListRef? || (v.Str? && Text.ParseNumberText(v.s).None?)
    ensures v.Num? ==> r == Ok(v.n)
    ensures v.Int? ==> r == Ok(v.i as real)
  {
    match v
    case Null => Ok(0.0)
    case Num(d) => Ok(d)
    case Int(i) => Ok(i as real)
    case Bool(b) => Ok(if b then 1.0 else 0.0)
    case Str(s) =>
      (match Text.ParseNumberText(s)
       case Some(d) => Ok(d)
       case None => Err(FormatError))
    case ListRef(_) => Err(CastError)
  }

  /** Rounding to the nearest integer, a tie going to the even neighbour:
      what `Convert.ToInt32(double)` does. */
  function RoundHalfEven(x: real): (r: int)
    ensures x - 0.5 <= r as real <= x + 0.5
    ensures (r as real == x - 0.5 || r as real == x + 0.5) ==> r % 2 == 0
  {
    var f := x.Floor;
    var frac := x - f as real;
    if frac < 0.5 then f
    else if frac > 0.5 then f + 1
    else if f % 2 == 0 then f else f + 1
  }

  predicate InInt32(i: int) {
    Int32Min <= i <= Int32Max
  }

  /** `Convert.ToInt32(object)`: null is 0, a double is rounded half to
      even, a bool is 1 or 0, a string is parsed as an integer once the
      white space around it is removed; anything outside the 32-bit range
      overflows. */
  function ToInt32(v: Value): (r: Result<int>)
    ensures r.Ok? ==> InInt32(r.value)
    ensures v.Num? ==> (r.Ok? <==> InInt32(RoundHalfEven(v.n)))
    ensures v.Int? && InInt32(v.i) ==> r == Ok(v.i)
    ensures v.ListRef? ==> r.Err?
  {
    match v
    case Null => Ok(0)
    case Num(d) =>
      var k := RoundHalfEven(d);
      if InInt32(k) then Ok(k) else Err(Int32Overflow)
    case Int(i) => if InInt32(i) then Ok(i) else Err(Int32Overflow)
    case Bool(b) => Ok(if b then 1 else 0)
    case Str(s) =>
      (match Text.ParseIntegerText(s)
       case Some(k) => if InInt32(k) then Ok(k) else Err(Int32Overflow)
       case None => Err(FormatError))
    case ListRef(_) => Err(CastError)
  }

  /** The text of an Int32, with any white space around it, converts to
      that integer: `xs[" 1"]` indexes like `xs[1]`. */
  lemma {:induction false} ToInt32PaddedText(k: int, pre: string, post: string)
    requires InInt32(k)
    requires Text.AllNumberSpace(pre) && Text.AllNumberSpace(post)
    ensures ToInt32(Str(pre + Text.IntToString(k) + post)) == Ok(k)
  {
    Text.IntToStringUnpadded(k);
    Text.StripPadded(pre, Text.IntToString(k), post);
    Text.ParseIntegerRoundTrip(k);
  }

  /** The text of an integer, with any white space around it, converts to
      that number: `1 - " 2"` is -1. */
  lemma {:induction false} ToDoublePaddedText(k: int, pre: string, post: string)
    requires Text.AllNumberSpace(pre) && Text.AllNumberSpace(post)
    ensures ToDouble(Str(pre + Text.IntToString(k) + post)) == Ok(k as real)
  {
    Text.IntToStringUnpadded(k);
    Text.StripPadded(pre, Text.IntToString(k), post);
    Text.ParseDecimalIntString(k);
  }

  /** A whole double in range converts to itself. */
  lemma {:induction false} ToInt32Whole(k: int)
    requires InInt32(k)
    ensures ToInt32(Num(k as real)) == Ok(k)
  {
    assert (k as real).Floor == k;
  }
}
