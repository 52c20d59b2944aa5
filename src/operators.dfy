/** What the interpreter does to values once they are evaluated
    (Scripts/ProgramExec/PythonInterpreter.cs): the binary and unary
    operators, list positions for indexing, `pop` and slicing, `List.Remove`,
    and the built-ins `len`, `range`, `sleep` and `print`. */
module Operators {
  import opened Wrappers
  import opened Values
  import opened Tokens
  import Text

  // ---------------------------------------------------------------------
  // Operators
  // ---------------------------------------------------------------------

  /** Division or remainder by zero gives an infinity or NaN in the source,
      which an exact real cannot hold: the model stops there. */
  const NonFinite: string := "double division by zero (infinite or NaN result)"

  /** Truncation toward zero, as the C# remainder uses it. */
  function Truncate(q: real): (t: int)
    ensures q >= 0.0 ==> 0.0 <= t as real <= q
    ensures q < 0.0 ==> q <= t as real <= 0.0
    ensures -1.0 < q - t as real < 1.0
  {
    if q >= 0.0 then q.Floor else -((-q).Floor)
  }

  /** The double arithmetic of `- * / %`; `%` keeps the sign of the dividend. */
  function Arith(op: TokenKind, a: real, b: real): (r: Result<real>)
    requires op.Minus? || op.Star? || op.Slash? || op.Percent?
    ensures r.Err? <==> (op.Slash? || op.Percent?) && b == 0.0
  {
    if op.Minus? then Ok(a - b)
    else if op.Star? then Ok(a * b)
    else if b == 0.0 then Err(NonFinite)
    else if op.Slash? then Ok(a / b)
    else Ok(a - b * Truncate(a / b) as real)
  }

  /** The `switch (be.Op)` of a binary expression (PythonInterpreter.cs:298-352),
      applied to the two operand values, both already evaluated. */
  function EvalBinary(op: TokenKind, l: Value, r: Value, heap: seq<ListObj>, line: int): (res: Result<Value>)
    requires Refers(l, |heap|) && Refers(r, |heap|)
    ensures res.Ok? ==> !res.value.ListRef? && !res.value.Int?
    ensures res.Ok? && (IsComparison(op) || op.And? || op.Or?) ==> res.value.Bool?
  {
    if op.Plus? then
      if l.Str? || r.Str? then
        var a :- ToText(l);
        var b :- ToText(r);
        Ok(Str(a + b))
      else
        var a :- ToDouble(l);
        var b :- ToDouble(r);
        Ok(Num(a + b))
    else if op.Minus? || op.Star? || op.Slash? || op.Percent? then
      var a :- ToDouble(l);
      var b :- ToDouble(r);
      var x :- Arith(op, a, b);
      Ok(Num(x))
    else if op.Eq? then Ok(Bool(ValueEquals(l, r)))
    else if op.Neq? then Ok(Bool(!ValueEquals(l, r)))
    else if op.Lt? || op.Gt? || op.Lte? || op.Gte? then
      var c :- CompareValues(l, r);
      Ok(Bool(if op.Lt? then c < 0 else if op.Gt? then c > 0 else if op.Lte? then c <= 0 else c >= 0))
    else if op.And? then Ok(Bool(IsTrue(l, heap) && IsTrue(r, heap)))
    else if op.Or? then Ok(Bool(IsTrue(l, heap) || IsTrue(r, heap)))
    else Err("Unsupported binary operator " + KindName(op) + " at line " + Text.IntToString(line))
  }

  /** `+` concatenates the texts as soon as one side is a string, and fails
      on a null there, while a null next to a number counts as 0. */
  lemma {:induction false} PlusCases(l: Value, r: Value, heap: seq<ListObj>, line: int)
    requires Refers(l, |heap|) && Refers(r, |heap|)
    ensures (l.Str? || r.Str?) && !l.Null? && !r.Null? ==>
      EvalBinary(Plus, l, r, heap, line) == Ok(Str(ToText(l).value + ToText(r).value))
    ensures (l.Str? || r.Str?) && (l.Null? || r.Null?) ==> EvalBinary(Plus, l, r, heap, line).Err?
    ensures l.Num? && r.Null? ==> EvalBinary(Plus, l, r, heap, line) == Ok(l)
    ensures l.Num? && r.Num? ==> EvalBinary(Plus, l, r, heap, line) == EvalBinary(Plus, r, l, heap, line)
  {
  }

  /** `==` is identity of values and `!=` its negation. */
  lemma {:induction false} EqualityOperators(l: Value, r: Value, heap: seq<ListObj>, line: int)
    requires Refers(l, |heap|) && Refers(r, |heap|)
    ensures EvalBinary(Eq, l, r, heap, line) == Ok(Bool(l == r))
    ensures EvalBinary(Neq, l, r, heap, line) == Ok(Bool(l != r))
  {
    EqualsIsIdentity(l, r);
  }

  /** The ordering operators accept exactly two doubles or two strings, and
      `a < b` holds exactly when `b > a` does. */
  lemma {:induction false} OrderingOperators(l: Value, r: Value, heap: seq<ListObj>, line: int)
    requires Refers(l, |heap|) && Refers(r, |heap|)
    ensures EvalBinary(Lt, l, r, heap, line).Ok? <==> (l.Num? && r.Num?) || (l.Str? && r.Str?)
    ensures EvalBinary(Lt, l, r, heap, line).Ok? ==>
      EvalBinary(Lt, l, r, heap, line) == EvalBinary(Gt, r, l, heap, line) &&
      EvalBinary(Lte, l, r, heap, line) == EvalBinary(Gte, r, l, heap, line)
  {
    if CompareValues(l, r).Ok? {
      CompareValuesAntisymmetric(l, r);
    }
  }

  /** `and` and `or` look at the truth of both operands (there is no short
      cut), and `not` turns one into the other as De Morgan's laws say. */
  lemma {:induction false} LogicalOperators(l: Value, r: Value, heap: seq<ListObj>, line: int)
    requires Refers(l, |heap|) && Refers(r, |heap|)
    ensures EvalBinary(And, l, r, heap, line) == Ok(Bool(IsTrue(l, heap) && IsTrue(r, heap)))
    ensures var nl := EvalUnary(Not, l, heap, line).value;
            var nr := EvalUnary(Not, r, heap, line).value;
            EvalUnary(Not, EvalBinary(And, l, r, heap, line).value, heap, line) == EvalBinary(Or, nl, nr, heap, line)
  {
  }

  /** The unary operators (PythonInterpreter.cs:354-376). */
  function EvalUnary(op: TokenKind, v: Value, heap: seq<ListObj>, line: int): (res: Result<Value>)
    requires Refers(v, |heap|)
    ensures res.Ok? ==> (op.Minus? && res.value.Num?) || (op.Not? && res.value.Bool?)
    ensures op.Not? ==> res.Ok?
  {
    if op.Minus? then
      var d :- ToDouble(v);
      Ok(Num(-d))
    else if op.Not? then Ok(Bool(!IsTrue(v, heap)))
    else Err("Unsupported unary operator " + KindName(op) + " at line " + Text.IntToString(line))
  }

  /** `not not x` is the truth of `x`, and `- - d` gives `d` back. */
  lemma {:induction false} UnaryTwice(v: Value, heap: seq<ListObj>, line: int)
    requires Refers(v, |heap|)
    ensures EvalUnary(Not, EvalUnary(Not, v, heap, line).value, heap, line) == Ok(Bool(IsTrue(v, heap)))
    ensures v.Num? ==> EvalUnary(Minus, EvalUnary(Minus, v, heap, line).value, heap, line) == Ok(v)
  {
  }

  // ---------------------------------------------------------------------
  // List positions
  // ---------------------------------------------------------------------

  /** The position that `lst[i]` and `lst.pop(i)` use: a negative index is
      counted once from the end, and must then fall inside the list. */
  function ListIndex(count: nat, index: int): (r: Option<nat>)
    ensures r.Some? <==> -(count as int) <= index < count
    ensures r.Some? ==> r.value < count && r.value == index % count
  {
    var k := if index < 0 then count + index else index;
    if k < 0 || k >= count then None else Some(k)
  }

  /** A slice bound (PythonInterpreter.cs:529-532, 542-545): a negative bound
      counts from the end, then the result is clamped into [0, count]. */
  function SliceBound(count: nat, index: int): (r: nat)
    ensures r <= count
    ensures 0 <= index <= count ==> r == index
    ensures -(count as int) <= index < 0 ==> r == count + index
    ensures index < -(count as int) ==> r == 0
    ensures index > count ==> r == count
  {
    var k := if index < 0 then count + index else index;
    if k < 0 then 0 else if k > count then count else k
  }

  /** `List<T>`'s indexer outside the list. */
  const IndexOutOfRange: string := "Index was out of range. Must be non-negative and less than the size of the collection."

  /** The copying loop of a slice (PythonInterpreter.cs:547-551): elements
      `start` up to `end`, none when the bounds cross. The default end is the
      count taken before the start bound was evaluated, so when evaluating
      the start shortened the list the loop runs off its end and throws. */
  method CopySlice(items: seq<Value>, start: nat, end: nat) returns (r: Result<seq<Value>>)
    ensures r.Err? <==> start < end && end > |items|
    ensures r.Ok? ==> r.value == (if start < end then items[start..end] else [])
  {
    var copied := [];
    var i := start;
    while i < end
      invariant start <= i && (i <= end || i == start)
      invariant start < i ==> i <= |items|
      invariant copied == if start < i then items[start..i] else []
    {
      if i >= |items| {
        return Err(IndexOutOfRange);
      }
      copied := copied + [items[i]];
      i := i + 1;
    }
    r := Ok(copied);
  }

  /** The first position holding `v`, -1 when there is none: the search of
      `List.Remove`, which compares with `object.Equals`. */
  function IndexOf(items: seq<Value>, v: Value): (k: int)
    ensures -1 <= k < |items|
    ensures k >= 0 ==> items[k] == v && v !in items[..k]
    ensures k == -1 <==> v !in items
  {
    if items == [] then -1
    else if ValueEquals(items[0], v) then 0
    else
      var k := IndexOf(items[1..], v);
      assert items[1..][..k + 1] == items[1..k + 2] by { }
      if k == -1 then -1 else k + 1
  }

  /** `List.Remove`: the first element equal to `v` is taken out, and false
      is reported when there is none. */
  function RemoveFirst(items: seq<Value>, v: Value): (r: Option<seq<Value>>)
    ensures r.None? <==> v !in items
    ensures r.Some? ==> |r.value| == |items| - 1 && multiset(r.value) + multiset{v} == multiset(items)
    ensures r.Some? ==>
      (var k := IndexOf(items, v);
       r.value == items[..k] + items[k + 1..])
  {
    var k := IndexOf(items, v);
    if k < 0 then None
    else
      assert items == items[..k] + [items[k]] + items[k + 1..];
      Some(items[..k] + items[k + 1..])
  }

  /** `pop` once its index is known (PythonInterpreter.cs:460-465): the
      element at the wrapped position and the list without it, or nothing
      when the position falls outside the list. */
  function PopAt(items: seq<Value>, index: int): (r: Option<(Value, seq<Value>)>)
    ensures r.Some? <==> ListIndex(|items|, index).Some?
    ensures r.Some? ==>
      (var k := ListIndex(|items|, index).value;
       r.value.0 == items[k] && r.value.1 == items[..k] + items[k + 1..] &&
       multiset(r.value.1) + multiset{r.value.0} == multiset(items))
  {
    match ListIndex(|items|, index)
    case None => None
    case Some(k) =>
      assert items == items[..k] + [items[k]] + items[k + 1..];
      Some((items[k], items[..k] + items[k + 1..]))
  }

  /** `pop()` undoes `append`: it hands back the appended value and leaves
      the list as it was. */
  lemma {:induction false} AppendThenPop(items: seq<Value>, v: Value)
    ensures PopAt(items + [v], |items + [v]| - 1) == Some((v, items))
  {
    var all := items + [v];
    assert ListIndex(|all|, |all| - 1) == Some(|items|);
    assert all[..|items|] == items && all[|items| + 1..] == [];
    assert all[..|items|] + all[|items| + 1..] == items;
  }

  /** `pop(0)` takes the head, and a negative index counts from the end. */
  lemma {:induction false} PopEnds(items: seq<Value>)
    requires items != []
    ensures PopAt(items, 0) == Some((items[0], items[1..]))
    ensures PopAt(items, -1) == PopAt(items, |items| - 1)
  {
    assert ListIndex(|items|, 0) == Some(0);
    assert items[..0] + items[1..] == items[1..];
    assert ListIndex(|items|, -1) == ListIndex(|items|, |items| - 1);
  }

  // ---------------------------------------------------------------------
  // Built-in functions
  // ---------------------------------------------------------------------

  /** `len`: the count of a list or of a string, as a C# int. */
  function Len(args: seq<Value>, heap: seq<ListObj>): (r: Result<Value>)
    requires AllRefer(args, |heap|)
    ensures r.Ok? <==> |args| == 1 && (args[0].ListRef? || args[0].Str?)
    ensures r.Ok? && args[0].ListRef? ==> r.value == Int(|heap[args[0].id].items|)
    ensures r.Ok? && args[0].Str? ==> r.value == Int(|args[0].s|)
  {
    if |args| != 1 then Err("len() takes exactly one argument (" + Text.IntToString(|args|) + " given)")
    else match args[0]
      case ListRef(id) => Ok(Int(|heap[id].items|))
      case Str(s) => Ok(Int(|s|))
      case _ => Err("object of type '" + TypeName(args[0]) + "' has no len()")
  }

  /** The numbers `range` lists from `i` on: `i`, `i + step`, ... while
      they stay before `stop` in the direction of `step`. */
  function RangeFrom(i: int, stop: int, step: int): seq<Value>
    requires step != 0
    decreases if step > 0 then stop - i else i - stop
  {
    if (step > 0 && i < stop) || (step < 0 && i > stop) then [Num(i as real)] + RangeFrom(i + step, stop, step)
    else []
  }

  /** Element `k` of a range is `start + k * step`. */
  lemma {:induction false} RangeElements(i: int, stop: int, step: int, k: nat)
    requires step != 0 && k < |RangeFrom(i, stop, step)|
    ensures RangeFrom(i, stop, step)[k] == Num((i + k * step) as real)
    decreases k
  {
    if k > 0 {
      RangeElements(i + step, stop, step, k - 1);
      assert i + step + (k - 1) * step == i + k * step;
    }
  }

  /** Ranges are half-open: `start` is in when the range is not empty,
      every element lies between `start` and `stop` (never `stop` itself),
      and the next step would leave the interval. */
  lemma {:induction false} RangeHalfOpen(i: int, stop: int, step: int)
    requires step != 0
    ensures var r := RangeFrom(i, stop, step);
      (r != [] <==> (step > 0 && i < stop) || (step < 0 && i > stop)) &&
      (step > 0 ==> i + |r| * step >= stop) &&
      (step < 0 ==> i + |r| * step <= stop) &&
      (forall k :: 0 <= k < |r| ==>
         r[k].Num? &&
         (step > 0 ==> i as real <= r[k].n < stop as real) &&
         (step < 0 ==> stop as real < r[k].n <= i as real))
    decreases if step > 0 then stop - i else i - stop
  {
    var r := RangeFrom(i, stop, step);
    if r != [] {
      var r' := RangeFrom(i + step, stop, step);
      RangeHalfOpen(i + step, stop, step);
      assert r == [Num(i as real)] + r';
      assert i + |r| * step == i + step + |r'| * step;
      forall k | 0 <= k < |r|
        ensures r[k].Num? && (step > 0 ==> i as real <= r[k].n < stop as real) &&
          (step < 0 ==> stop as real < r[k].n <= i as real)
      {
        if k > 0 {
          assert r[k] == r'[k - 1];
        }
      }
    }
  }

  /** `range` (PythonInterpreter.cs:643-689): one, two or three arguments,
      each converted with `Convert.ToInt32`, and a step that is not 0. */
  function RangeArguments(args: seq<Value>): (r: Result<(int, int, int)>)
    ensures r.Ok? <==>
      1 <= |args| <= 3 && (forall i :: 0 <= i < |args| ==> ToInt32(args[i]).Ok?) &&
      (|args| == 3 ==> ToInt32(args[2]).value != 0)
    ensures r.Ok? ==> r.value.2 != 0
    ensures r.Ok? && |args| == 1 ==> r.value == (0, ToInt32(args[0]).value, 1)
    ensures r.Ok? && |args| == 2 ==> r.value == (ToInt32(args[0]).value, ToInt32(args[1]).value, 1)
    ensures r.Ok? && |args| == 3 ==>
      r.value == (ToInt32(args[0]).value, ToInt32(args[1]).value, ToInt32(args[2]).value)
    ensures |args| == 0 || |args| > 3 ==>
      r == Err("range expected at most 3 arguments, got " + Text.IntToString(|args|))
    ensures |args| == 3 && ToInt32(args[2]) == Ok(0) && ToInt32(args[0]).Ok? && ToInt32(args[1]).Ok? ==>
      r == Err("range() arg 3 must not be zero")
  {
    if |args| == 1 then
      var stop :- ToInt32(args[0]);
      Ok((0, stop, 1))
    else if |args| == 2 then
      var start :- ToInt32(args[0]);
      var stop :- ToInt32(args[1]);
      Ok((start, stop, 1))
    else if |args| == 3 then
      var start :- ToInt32(args[0]);
      var stop :- ToInt32(args[1]);
      var step :- ToInt32(args[2]);
      if step == 0 then Err("range() arg 3 must not be zero") else Ok((start, stop, step))
    else Err("range expected at most 3 arguments, got " + Text.IntToString(|args|))
  }

  /** The `for` loops of `range` that fill the new list. */
  method BuildRange(start: int, stop: int, step: int) returns (r: seq<Value>)
    requires step != 0
    ensures r == RangeFrom(start, stop, step)
  {
    r := [];
    var i := start;
    if step > 0 {
      while i < stop
        invariant r + RangeFrom(i, stop, step) == RangeFrom(start, stop, step)
        decreases stop - i
      {
        r := r + [Num(i as real)];
        i := i + step;
      }
    } else {
      while i > stop
        invariant r + RangeFrom(i, stop, step) == RangeFrom(start, stop, step)
        decreases i - stop
      {
        r := r + [Num(i as real)];
        i := i + step;
      }
    }
  }

  /** `sleep`: the first argument as a double, 0 without one. */
  function SleepSeconds(args: seq<Value>): (r: Result<real>)
    ensures args == [] ==> r == Ok(0.0)
    ensures args != [] ==> r == ToDouble(args[0])
  {
    if |args| > 0 then ToDouble(args[0]) else Ok(0.0)
  }

  /** The line `print` logs: the arguments shown one by one, with a single
      space between neighbours. */
  function JoinDisplay(args: seq<Value>): string {
    if |args| == 0 then ""
    else if |args| == 1 then Display(args[0])
    else JoinDisplay(args[..|args| - 1]) + " " + Display(args[|args| - 1])
  }

  /** Printing two runs of arguments prints each run, joined by one space. */
  lemma {:induction false} JoinDisplayAppend(a: seq<Value>, b: seq<Value>)
    requires a != [] && b != []
    ensures JoinDisplay(a + b) == JoinDisplay(a) + " " + JoinDisplay(b)
    decreases |b|
  {
    if |b| == 1 {
      assert (a + b)[..|a + b| - 1] == a;
    } else {
      var b' := b[..|b| - 1];
      JoinDisplayAppend(a, b');
      assert (a + b)[..|a + b| - 1] == a + b';
    }
  }

  /** The loop of `print` that builds its output line. */
  method PrintLine(args: seq<Value>) returns (output: string)
    ensures output == JoinDisplay(args)
  {
    output := "";
    var i := 0;
    while i < |args|
      invariant i <= |args|
      invariant output == JoinDisplay(args[..i])
    {
      if i > 0 {
        output := output + " ";
      }
      output := output + Display(args[i]);
      assert args[..i + 1][..i] == args[..i];
      i := i + 1;
    }
    assert args[..|args|] == args;
  }
}
