/** The tree-walking interpreter (Scripts/ProgramExec/PythonInterpreter.cs).
    Its state is a class with the source's fields: the globals, the function
    table, the stacks of per-call locals and per-call `global` declarations,
    and the heap of lists that values share by reference.

    Every C# `IEnumerator` method becomes a method that runs to its end and
    returns what the enumerator would have yielded, as `Routine` items, and
    how it ended, as a `Completion`. A call `f(...)` does not run `f` itself:
    it yields the routine of `HandleBuiltinFunction`, which the driver runs
    before it resumes the caller; here that routine is computed at the call
    and yielded as a `Nested` item. If it throws, the driver reports the
    error and the caller goes on with the value it had, null.

    `while` may not terminate, so every method takes `fuel`: each iteration
    of a `while` loop and each call of a user function uses one unit, and a
    run that needs more stops with `Halted`, a routine ending `OutOfFuel`. */
module Interpreter {
  import opened Wrappers
  import opened Values
  import opened Operators
  import opened Tokens
  import opened Ast
  import opened Routines
  import Host
  import Text

  /** A function as `def` stores it in the function table. */
  datatype Function = Function(name: string, parameters: seq<string>, body: seq<Stmt>, line: int)

  /** How running some code ended: normally, by a `return` in flight (the
      `ReturnException`), by any other exception, or by running out of fuel. */
  datatype Completion = Normal | Returning(value: Value) | Thrown(message: string) | Halted

  /** The callee a name call reaches (PythonInterpreter.cs:617-720). */
  datatype Callee = PrintFn | LenFn | RangeFn | SleepFn | HostFn | UserFn | NoFn

  /** The message of a `ReturnException` that escapes every function. */
  const ReturnOutside: string := "Exception of type 'GptDeepResearch.ReturnException' was thrown."
  /** What a `List<T>` enumerator throws once the list changed under it. */
  const CollectionModified: string := "Collection was modified; enumeration operation may not execute."

  /** The names handled before the host bridge and the user's functions. */
  const Intrinsics: set<string> := {"print", "len", "range", "sleep"}

  function Top<T>(s: seq<T>): T
    requires |s| > 0
  {
    s[|s| - 1]
  }

  /** A stack without its top. */
  function Below<T>(s: seq<T>): seq<T> {
    if s == [] then [] else s[..|s| - 1]
  }

  ghost predicate MapRefers(m: map<string, Value>, n: nat) {
    forall k :: k in m ==> Refers(m[k], n)
  }

  ghost predicate FramesRefer(frames: seq<map<string, Value>>, n: nat) {
    forall i, k :: 0 <= i < |frames| && k in frames[i] ==> Refers(frames[i][k], n)
  }

  /** No list holds a reference past the end of the heap. */
  ghost predicate HeapClosed(heap: seq<ListObj>) {
    forall id :: 0 <= id < |heap| ==> AllRefer(heap[id].items, |heap|)
  }

  ghost predicate CompletionRefers(c: Completion, n: nat) {
    c.Returning? ==> Refers(c.value, n)
  }

  function LineText(line: int): string {
    " at line " + Text.IntToString(line)
  }

  /** An expression that only reads: literals and variables under unary and
      binary operators, with no call, list display or subscript. */
  predicate IsPlain(e: Expr) {
    match e
    case NumberExpr(_, _) => true
    case StringExpr(_, _) => true
    case BooleanExpr(_, _) => true
    case NameExpr(_, _) => true
    case BinaryExpr(left, _, right, _) => IsPlain(left) && IsPlain(right)
    case UnaryExpr(_, operand, _) => IsPlain(operand)
    case IndexExpr(target, index, _) => IsPlain(target) && IsPlain(index)
    case _ => false
  }

  predicate AllPlain(es: seq<Expr>) {
    forall i :: 0 <= i < |es| ==> IsPlain(es[i])
  }

  /** The variables a plain expression reads. */
  function NamesOf(e: Expr): set<string>
    requires IsPlain(e)
  {
    match e
    case NameExpr(name, _) => {name}
    case BinaryExpr(left, _, right, _) => NamesOf(left) + NamesOf(right)
    case UnaryExpr(_, operand, _) => NamesOf(operand)
    case IndexExpr(target, index, _) => NamesOf(target) + NamesOf(index)
    case _ => {}
  }

  /** `target[index]` once both are evaluated (PythonInterpreter.cs:494-506):
      only a list can be indexed, by an int that lands inside it. */
  function Subscript(target: Value, index: Value, heap: seq<ListObj>, line: int): (r: Result<Value>)
    requires Refers(target, |heap|) && HeapClosed(heap)
    ensures r.Ok? ==> Refers(r.value, |heap|)
    ensures r.Ok? <==>
      target.ListRef? && ToInt32(index).Ok? &&
      ListIndex(|heap[target.id].items|, ToInt32(index).value).Some?
    ensures r.Ok? ==>
      r.value == heap[target.id].items[ListIndex(|heap[target.id].items|, ToInt32(index).value).value]
  {
    if !target.ListRef? then Err("Type " + FullTypeName(target) + " is not subscriptable" + LineText(line))
    else
      var list := heap[target.id].items;
      match ToInt32(index)
      case Err(m) => Err(m)
      case Ok(i) =>
        match ListIndex(|list|, i)
        case Some(k) => Ok(list[k])
        case None => Err("list index out of range" + LineText(line))
  }

  /** What `print`, `len`, `range` and `sleep` do with their arguments
      (PythonInterpreter.cs:619-697): the routine they yield, the value they
      hand to `setValue`, and the lists afterwards, where only `range` adds
      one. */
  function Intrinsic(name: string, args: seq<Value>, heap: seq<ListObj>): (Routine, Option<Value>, seq<ListObj>)
    requires name in Intrinsics && AllRefer(args, |heap|)
  {
    if name == "print" then (Routine([Log(JoinDisplay(args))], Exhausted), Some(Null), heap)
    else if name == "len" then
      match Len(args, heap)
      case Ok(n) => (Finished(), Some(n), heap)
      case Err(m) => (Failed(m), None, heap)
    else if name == "range" then
      match RangeArguments(args)
      case Ok((start, stop, step)) =>
        (Finished(), Some(ListRef(|heap|)), heap + [ListObj(RangeFrom(start, stop, step), 0)])
      case Err(m) => (Failed(m), None, heap)
    else
      match SleepSeconds(args)
      case Ok(d) => (Routine([Wait(d)], Exhausted), Some(Null), heap)
      case Err(m) => (Failed(m), None, heap)
  }

  class Interpreter {
    var globals: map<string, Value>
    var functions: map<string, Function>
    /** `LocalsStack`, its top last. */
    var localsStack: seq<map<string, Value>>
    /** `GlobalDeclsStack`, its top last. */
    var globalDeclsStack: seq<set<string>>
    /** Every list ever made; a `ListRef` is an index into it. */
    var heap: seq<ListObj>
    /** The `GameBuiltins` bridge to the scene. */
    const builtins: Host.Builtins

    /** The two stacks are pushed and popped together, and every reference
        held anywhere points into the heap. */
    ghost predicate Valid()
      reads this
    {
      |localsStack| == |globalDeclsStack| &&
      MapRefers(globals, |heap|) && FramesRefer(localsStack, |heap|) && HeapClosed(heap)
    }

    /** What evaluating an expression may change: variables, functions, the
        contents of lists and the set of lists, but not the call stacks,
        which every call it makes restores. */
    twostate predicate ExprKeeps()
      reads this
    {
      Valid() && old(|heap|) <= |heap| &&
      localsStack == old(localsStack) && globalDeclsStack == old(globalDeclsStack)
    }

    /** What running a statement may change: besides what an expression
        may, the variables and the `global` declarations of the current
        frame, and those only by adding to them; the callers' frames stay. */
    twostate predicate StmtKeeps()
      reads this
    {
      Valid() && old(|heap|) <= |heap| &&
      |localsStack| == old(|localsStack|) && Below(localsStack) == old(Below(localsStack)) &&
      |globalDeclsStack| == old(|globalDeclsStack|) && Below(globalDeclsStack) == old(Below(globalDeclsStack)) &&
      (|globalDeclsStack| > 0 ==> old(Top(globalDeclsStack)) <= Top(globalDeclsStack))
    }

    constructor (builtins: Host.Builtins)
      ensures Valid()
      ensures globals == map[] && functions == map[] && heap == []
      ensures localsStack == [] && globalDeclsStack == []
      ensures this.builtins == builtins
    {
      globals := map[];
      functions := map[];
      localsStack := [];
      globalDeclsStack := [];
      heap := [];
      this.builtins := builtins;
    }

    // -------------------------------------------------------------------
    // Variables
    // -------------------------------------------------------------------

    /** `GetVariable` (PythonInterpreter.cs:793-811): the current frame
        first, then the globals; the frames of callers are never seen. */
    function Lookup(name: string): (r: Option<Value>)
      reads this
      ensures r.Some? <==> (|localsStack| > 0 && name in Top(localsStack)) || name in globals
      ensures |localsStack| > 0 && name in Top(localsStack) ==> r == Some(Top(localsStack)[name])
      ensures (|localsStack| == 0 || name !in Top(localsStack)) && name in globals ==> r == Some(globals[name])
    {
      if |localsStack| > 0 && name in Top(localsStack) then Some(Top(localsStack)[name])
      else if name in globals then Some(globals[name])
      else None
    }

    /** The value of a plain expression in the current state: the left
        operand first, and the first error wins. */
    function Evaluate(e: Expr): (r: Result<Value>)
      requires Valid() && IsPlain(e)
      reads this
      ensures r.Ok? ==> Refers(r.value, |heap|)
    {
      match e
      case NumberExpr(n, _) => Ok(Num(n))
      case StringExpr(text, _) => Ok(Str(text))
      case BooleanExpr(b, _) => Ok(Bool(b))
      case NameExpr(name, line) =>
        if Lookup(name).Some? then Ok(Lookup(name).value)
        else Err("Name '" + name + "' is not defined" + LineText(line))
      case BinaryExpr(left, op, right, line) =>
        var l :- Evaluate(left);
        var r :- Evaluate(right);
        EvalBinary(op, l, r, heap, line)
      case UnaryExpr(op, operand, line) =>
        var x :- Evaluate(operand);
        EvalUnary(op, x, heap, line)
      case IndexExpr(target, index, line) =>
        var t :- Evaluate(target);
        var i :- Evaluate(index);
        Subscript(t, i, heap, line)
    }

    /** The values of plain expressions, left to right; the first error wins. */
    function EvaluateAll(es: seq<Expr>): (r: Result<seq<Value>>)
      requires Valid() && AllPlain(es)
      reads this
      ensures r.Ok? ==> |r.value| == |es| && AllRefer(r.value, |heap|)
      ensures r.Ok? ==> forall i :: 0 <= i < |es| ==> Evaluate(es[i]) == Ok(r.value[i])
      decreases |es|
    {
      if es == [] then Ok([])
      else
        var x :- Evaluate(es[0]);
        var rest :- EvaluateAll(es[1..]);
        assert forall i :: 1 <= i < |es| ==> es[i] == es[1..][i - 1];
        Ok([x] + rest)
    }

    /** A write goes to the globals at top level or when the current
        function declared the name `global`. */
    predicate WritesGlobal(name: string)
      reads this
    {
      |localsStack| == 0 || (|globalDeclsStack| > 0 && name in Top(globalDeclsStack))
    }

    /** A name declared `global` that is also a local of the current frame,
        such as a parameter: writes go to the global, reads see the local. */
    predicate Shadowed(name: string)
      reads this
    {
      |localsStack| > 0 && |globalDeclsStack| > 0 && name in Top(globalDeclsStack) && name in Top(localsStack)
    }

    /** `SetVariable` (PythonInterpreter.cs:814-834). A read after the write
        sees the new value, unless the name is shadowed. */
    method SetVariable(name: string, v: Value)
      requires Valid() && Refers(v, |heap|)
      modifies this
      ensures Valid()
      ensures heap == old(heap) && functions == old(functions) && globalDeclsStack == old(globalDeclsStack)
      ensures old(WritesGlobal(name)) ==> globals == old(globals)[name := v] && localsStack == old(localsStack)
      ensures !old(WritesGlobal(name)) ==>
        globals == old(globals) && localsStack == old(Below(localsStack)) + [old(Top(localsStack))[name := v]]
      ensures !old(Shadowed(name)) ==> Lookup(name) == Some(v)
      ensures old(Shadowed(name)) ==> Lookup(name) == old(Lookup(name))
    {
      if |localsStack| > 0 {
        if |globalDeclsStack| > 0 && name in Top(globalDeclsStack) {
          globals := globals[name := v];
        } else {
          var top := |localsStack| - 1;
          localsStack := localsStack[top := localsStack[top][name := v]];
        }
      } else {
        globals := globals[name := v];
      }
    }

    /** The `global` statement (PythonInterpreter.cs:81-88): the names join
        the current frame's declarations; at top level it does nothing. */
    method DeclareGlobals(names: seq<string>)
      requires Valid()
      modifies this
      ensures Valid()
      ensures globals == old(globals) && functions == old(functions) && heap == old(heap)
      ensures localsStack == old(localsStack) && |globalDeclsStack| == old(|globalDeclsStack|)
      ensures Below(globalDeclsStack) == old(Below(globalDeclsStack))
      ensures |globalDeclsStack| > 0 ==>
        Top(globalDeclsStack) == old(Top(globalDeclsStack)) + set n | n in names
    {
      if |globalDeclsStack| > 0 {
        var top := |globalDeclsStack| - 1;
        var declared := globalDeclsStack[top];
        var i := 0;
        while i < |names|
          invariant i <= |names|
          invariant declared == globalDeclsStack[top] + set n | n in names[..i]
        {
          declared := declared + {names[i]};
          assert names[..i + 1] == names[..i] + [names[i]];
          i := i + 1;
        }
        assert names[..|names|] == names;
        globalDeclsStack := globalDeclsStack[top := declared];
      }
    }

    // -------------------------------------------------------------------
    // Lists
    // -------------------------------------------------------------------

    /** `new List<object>` filled with `items`: a fresh list no one else holds. */
    method Alloc(items: seq<Value>) returns (v: Value)
      requires Valid() && AllRefer(items, |heap|)
      modifies this
      ensures Valid()
      ensures v == ListRef(old(|heap|)) && heap == old(heap) + [ListObj(items, 0)]
      ensures globals == old(globals) && functions == old(functions)
      ensures localsStack == old(localsStack) && globalDeclsStack == old(globalDeclsStack)
    {
      v := ListRef(|heap|);
      heap := heap + [ListObj(items, 0)];
    }

    /** An in-place change of a list (`Add`, `Remove`, `RemoveAt`): every
        holder of the reference sees the new contents, and the version that
        enumerators check moves on. */
    method Store(id: nat, items: seq<Value>)
      requires Valid() && id < |heap| && AllRefer(items, |heap|)
      modifies this
      ensures Valid()
      ensures heap == old(heap)[id := ListObj(items, old(heap[id].version) + 1)]
      ensures globals == old(globals) && functions == old(functions)
      ensures localsStack == old(localsStack) && globalDeclsStack == old(globalDeclsStack)
    {
      heap := heap[id := ListObj(items, heap[id].version + 1)];
    }

    // -------------------------------------------------------------------
    // Name calls
    // -------------------------------------------------------------------

    /** The dispatch of `HandleBuiltinFunction` (PythonInterpreter.cs:617-720):
        the four intrinsics first, then the host bridge, then the user's
        functions. A user function named like a host command is never run. */
    function Resolve(name: string): (k: Callee)
      reads this, builtins, builtins.sceneController
      ensures name == "print" <==> k.PrintFn?
      ensures name == "len" <==> k.LenFn?
      ensures name == "range" <==> k.RangeFn?
      ensures name == "sleep" <==> k.SleepFn?
      ensures k.HostFn? <==> name !in Intrinsics && builtins.IsBuiltinFunction(name)
      ensures k.UserFn? ==> name in functions
      ensures k.NoFn? <==> name !in Intrinsics && !builtins.IsBuiltinFunction(name) && name !in functions
    {
      if name == "print" then PrintFn
      else if name == "len" then LenFn
      else if name == "range" then RangeFn
      else if name == "sleep" then SleepFn
      else if builtins.IsBuiltinFunction(name) then HostFn
      else if name in functions then UserFn
      else NoFn
    }

    /** `HandleBuiltinFunction` (PythonInterpreter.cs:569-723): the routine
        a name call yields, and the value it hands to `setValue`, if any. A
        value is handed on only by a routine that ends normally. */
    method HandleBuiltinFunction(name: string, args: seq<Value>, fuel: nat) returns (h: Routine, value: Option<Value>)
      requires Valid() && AllRefer(args, |heap|)
      modifies this, builtins.sceneController
      ensures ExprKeeps()
      ensures value.Some? ==> Refers(value.value, |heap|) && h.ending == Exhausted
      ensures old(Resolve(name)).NoFn? ==>
        h == Failed("Unknown function '" + name + "'") && value.None? && heap == old(heap)
      ensures name in Intrinsics ==> (h, value, heap) == Intrinsic(name, args, old(heap))
      ensures old(Resolve(name)).HostFn? ==>
        heap == old(heap) && (value.Some? ==> value.value.Null? || value.value.Bool?)
      ensures old(Resolve(name)).UserFn? ==>
        (value.Some? <==> h.ending == Exhausted) &&
        (fuel == 0 ==> h == Routine([], OutOfFuel) && heap == old(heap))
      decreases fuel, 1, 0
    {
      match Resolve(name)
      case PrintFn =>
        h, value := CallIntrinsic(name, args);
      case LenFn =>
        h, value := CallIntrinsic(name, args);
      case RangeFn =>
        h, value := CallIntrinsic(name, args);
      case SleepFn =>
        h, value := CallIntrinsic(name, args);
      case HostFn =>
        h, value := builtins.ExecuteBuiltinFunction(name, args);
      case UserFn =>
        h, value := CallUserFunction(functions[name], args, fuel);
      case NoFn =>
        h, value := Failed("Unknown function '" + name + "'"), None;
    }

    /** The four functions the interpreter implements itself
        (PythonInterpreter.cs:619-697): `print` logs its line, `len` counts,
        `range` makes a fresh list of doubles, `sleep` yields a real-time wait. */
    method CallIntrinsic(name: string, args: seq<Value>) returns (h: Routine, value: Option<Value>)
      requires Valid() && AllRefer(args, |heap|) && name in Intrinsics
      modifies this
      ensures ExprKeeps()
      ensures value.Some? ==> Refers(value.value, |heap|) && h.ending == Exhausted
      ensures name == "print" ==>
        h == Routine([Log(JoinDisplay(args))], Exhausted) && value == Some(Null)
      ensures name == "len" ==>
        match Len(args, old(heap))
        case Ok(n) => h == Finished() && value == Some(n)
        case Err(m) => h == Failed(m) && value.None?
      ensures name == "range" ==>
        match RangeArguments(args)
        case Ok((start, stop, step)) =>
          h == Finished() && value == Some(ListRef(old(|heap|))) &&
          heap == old(heap) + [ListObj(RangeFrom(start, stop, step), 0)]
        case Err(m) => h == Failed(m) && value.None? && heap == old(heap)
      ensures name == "sleep" ==>
        match SleepSeconds(args)
        case Ok(d) => h == Routine([Wait(d)], Exhausted) && value == Some(Null)
        case Err(m) => h == Failed(m) && value.None?
      ensures name != "range" ==> heap == old(heap)
      ensures (h, value, heap) == Intrinsic(name, args, old(heap))
    {
      if name == "print" {
        var output := PrintLine(args);
        h, value := Routine([Log(output)], Exhausted), Some(Null);
      } else if name == "len" {
        match Len(args, heap) {
          case Ok(n) =>
            h, value := Finished(), Some(n);
          case Err(m) =>
            h, value := Failed(m), None;
        }
      } else if name == "range" {
        match RangeArguments(args) {
          case Ok((start, stop, step)) =>
            var numbers := BuildRange(start, stop, step);
            RangeNumbers(start, stop, step);
            var list := Alloc(numbers);
            h, value := Finished(), Some(list);
          case Err(m) =>
            h, value := Failed(m), None;
        }
      } else {
        match SleepSeconds(args) {
          case Ok(d) =>
            h, value := Routine([Wait(d)], Exhausted), Some(Null);
          case Err(m) =>
            h, value := Failed(m), None;
        }
      }
    }

    /** The user-function branch of `HandleBuiltinFunction`
        (PythonInterpreter.cs:707-715): the function's value is handed on
        once it returns; when it throws, the routine throws and nothing is
        handed on. A call uses one unit of fuel. */
    method CallUserFunction(f: Function, args: seq<Value>, fuel: nat) returns (h: Routine, value: Option<Value>)
      requires Valid() && AllRefer(args, |heap|)
      modifies this, builtins.sceneController
      ensures ExprKeeps()
      ensures value.Some? <==> h.ending == Exhausted
      ensures value.Some? ==> Refers(value.value, |heap|)
      ensures fuel == 0 ==> h == Routine([], OutOfFuel) && heap == old(heap)
      decreases fuel, 0, 0
    {
      if fuel == 0 {
        return Routine([], OutOfFuel), None;
      }
      var items, c := ExecFunction(f, args, fuel - 1);
      match c
      case Returning(v) =>
        h, value := Routine(items, Exhausted), Some(v);
      case Thrown(m) =>
        h, value := Routine(items, Threw(m)), None;
      case _ =>
        h, value := Routine(items, OutOfFuel), None;
    }

    /** `ExecFunction` (PythonInterpreter.cs:729-779): the arity check, a
        new frame with the parameters bound and no `global` declarations, the
        body with a step after each statement, and the frame popped again on
        every way out. A `return` ends the body at once with its value;
        falling off the end gives null. */
    method ExecFunction(f: Function, args: seq<Value>, fuel: nat) returns (items: seq<Item>, c: Completion)
      requires Valid() && AllRefer(args, |heap|)
      modifies this, builtins.sceneController
      ensures ExprKeeps()
      ensures c.Returning? || c.Thrown? || c.Halted?
      ensures CompletionRefers(c, |heap|)
      ensures |args| != |f.parameters| ==>
        items == [] && heap == old(heap) && globals == old(globals) && functions == old(functions) &&
        c == Thrown("Function '" + f.name + "' expects " + Text.IntToString(|f.parameters|) +
                    " arguments, got " + Text.IntToString(|args|) + LineText(f.line))
      decreases fuel, SizeSs(f.body) + 1, 0
    {
      if |args| != |f.parameters| {
        return [], Thrown("Function '" + f.name + "' expects " + Text.IntToString(|f.parameters|) +
                          " arguments, got " + Text.IntToString(|args|) + LineText(f.line));
      }
      var frame: map<string, Value> := map[];
      var i := 0;
      while i < |args|
        invariant i <= |args|
        invariant MapRefers(frame, |heap|)
      {
        frame := frame[f.parameters[i] := args[i]];
        i := i + 1;
      }
      ghost var callerLocals := localsStack;
      ghost var callerDecls := globalDeclsStack;
      localsStack := localsStack + [frame];
      globalDeclsStack := globalDeclsStack + [{}];

      items := [];
      c := Returning(Null);
      var k := 0;
      while k < |f.body|
        invariant k <= |f.body|
        invariant Valid() && old(|heap|) <= |heap|
        invariant |localsStack| == |callerLocals| + 1 && Below(localsStack) == callerLocals
        invariant |globalDeclsStack| == |callerDecls| + 1 && Below(globalDeclsStack) == callerDecls
      {
        SizeSsElement(f.body, k);
        var stepItems, sc := ExecStmt(f.body[k], fuel);
        items := items + stepItems;
        if sc.Returning? {
          c := sc;
          break;
        } else if !sc.Normal? {
          c := sc;
          break;
        }
        items := items + [Step];
        k := k + 1;
      }
      localsStack := Below(localsStack);
      globalDeclsStack := Below(globalDeclsStack);
    }

    // -------------------------------------------------------------------
    // Expressions
    // -------------------------------------------------------------------

    /** `ExecExpr` (PythonInterpreter.cs:242-563): what the expression yields,
        its value, and how it ended; an expression never ends in `return`. */
    method ExecExpr(e: Expr, fuel: nat) returns (items: seq<Item>, v: Value, c: Completion)
      requires Valid()
      modifies this, builtins.sceneController
      ensures ExprKeeps()
      ensures c.Normal? || c.Thrown? || c.Halted?
      ensures Refers(v, |heap|)
      ensures IsPlain(e) ==>
        items == [] && unchanged(this) && (c.Normal? || c.Thrown?) &&
        Evaluate(e) == if c.Normal? then Ok(v) else Err(c.message)
      decreases fuel, SizeE(e), 1
    {
      match e
      case NumberExpr(n, _) =>
        return [], Num(n), Normal;
      case StringExpr(s, _) =>
        return [], Str(s), Normal;
      case BooleanExpr(b, _) =>
        return [], Bool(b), Normal;
      case NameExpr(name, line) =>
        match Lookup(name) {
          case Some(found) =>
            return [], found, Normal;
          case None =>
            return [], Null, Thrown("Name '" + name + "' is not defined" + LineText(line));
        }
      case ListExpr(_, _) =>
        items, v, c := EvalList(e, fuel);
      case BinaryExpr(left, op, right, line) =>
        items, v, c := EvalBinaryExpr(e, fuel);
      case UnaryExpr(_, _, _) =>
        items, v, c := EvalUnaryExpr(e, fuel);
      case CallExpr(callee, arguments, line) =>
        if callee.NameExpr? {
          items, v, c := EvalNameCall(e, fuel);
        } else if callee.AttributeExpr? {
          items, v, c := EvalMethodCall(e, fuel);
        } else {
          return [], Null, Thrown("Invalid function call target" + LineText(line));
        }
      case AttributeExpr(_, _, line) =>
        return [], Null, Thrown("Unknown expression type" + LineText(line));
      case IndexExpr(_, _, _) =>
        items, v, c := EvalIndex(e, fuel);
      case SliceExpr(_, _, _, _) =>
        items, v, c := EvalSlice(e, fuel);
    }

    /** The argument loop of a call, and the element loop of a list
        display: left to right, stopping at the first that does not finish. */
    method EvalArgs(es: seq<Expr>, fuel: nat) returns (items: seq<Item>, vs: seq<Value>, c: Completion)
      requires Valid()
      modifies this, builtins.sceneController
      ensures ExprKeeps()
      ensures c.Normal? || c.Thrown? || c.Halted?
      ensures AllRefer(vs, |heap|)
      ensures c.Normal? ==> |vs| == |es|
      ensures AllPlain(es) ==>
        items == [] && unchanged(this) && (c.Normal? || c.Thrown?) &&
        EvaluateAll(es) == if c.Normal? then Ok(vs) else Err(c.message)
      decreases fuel, SizeEs(es), 3
    {
      items, vs, c := [], [], Normal;
      var i := 0;
      if AllPlain(es) {
        PrependOnto([], EvaluateAll(es));
        assert es[0..] == es;
      }
      while i < |es|
        invariant i <= |es| && |vs| == i
        invariant ExprKeeps() && AllRefer(vs, |heap|)
        invariant AllPlain(es) ==>
          items == [] && unchanged(this) && c.Normal? &&
          EvaluateAll(es) == Prepend(vs, EvaluateAll(es[i..]))
      {
        SizeEsElement(es, i);
        var more, x, xc := ExecExpr(es[i], fuel);
        items := items + more;
        if AllPlain(es) {
          EvaluateAllAt(es, i);
        }
        if !xc.Normal? {
          return items, vs, xc;
        }
        if AllPlain(es) {
          PrependTwice(vs, [x], EvaluateAll(es[i + 1..]));
        }
        vs := vs + [x];
        i := i + 1;
      }
      if AllPlain(es) {
        assert es[i..] == [];
        assert vs + [] == vs;
      }
    }

    /** Evaluating plain expressions from position `i` on: the one at `i`, then the rest. */
    lemma {:induction false} EvaluateAllAt(es: seq<Expr>, i: nat)
      requires Valid() && AllPlain(es) && i < |es|
      ensures EvaluateAll(es[i..]) ==
        (match Evaluate(es[i])
         case Ok(x) => Prepend([x], EvaluateAll(es[i + 1..]))
         case Err(m) => Err(m))
    {
      assert es[i..][0] == es[i] && es[i..][1..] == es[i + 1..];
    }

    /** A binary expression: both operands, left first, then the operator;
        `and` and `or` evaluate both sides too. */
    method EvalBinaryExpr(e: Expr, fuel: nat) returns (items: seq<Item>, v: Value, c: Completion)
      requires Valid() && e.BinaryExpr?
      modifies this, builtins.sceneController
      ensures ExprKeeps()
      ensures c.Normal? || c.Thrown? || c.Halted?
      ensures Refers(v, |heap|)
      ensures IsPlain(e) ==>
        items == [] && unchanged(this) && (c.Normal? || c.Thrown?) &&
        Evaluate(e) == if c.Normal? then Ok(v) else Err(c.message)
      decreases fuel, SizeE(e), 0
    {
      var l, r, more;
      items, l, c := ExecExpr(e.left, fuel);
      if !c.Normal? {
        return items, Null, c;
      }
      more, r, c := ExecExpr(e.right, fuel);
      items := items + more;
      if !c.Normal? {
        return items, Null, c;
      }
      match EvalBinary(e.op, l, r, heap, e.line)
      case Ok(x) =>
        v := x;
      case Err(m) =>
        v, c := Null, Thrown(m);
    }

    /** A list display: its elements, left to right, then a new list. */
    method EvalList(e: Expr, fuel: nat) returns (items: seq<Item>, v: Value, c: Completion)
      requires Valid() && e.ListExpr?
      modifies this, builtins.sceneController
      ensures ExprKeeps()
      ensures c.Normal? || c.Thrown? || c.Halted?
      ensures Refers(v, |heap|)
      ensures c.Normal? ==> v.ListRef? && v.id == |heap| - 1 && |heap[v.id].items| == |e.elements|
      ensures AllPlain(e.elements) ==>
        items == [] && globals == old(globals) &&
        match old(EvaluateAll(e.elements))
        case Ok(vs) => c.Normal? && v == ListRef(old(|heap|)) && heap == old(heap) + [ListObj(vs, 0)]
        case Err(m) => c == Thrown(m) && heap == old(heap)
      decreases fuel, SizeE(e), 0
    {
      var vs;
      items, vs, c := EvalArgs(e.elements, fuel);
      v := Null;
      if c.Normal? {
        v := Alloc(vs);
      }
    }

    /** A unary expression: the operand, then the operator. */
    method EvalUnaryExpr(e: Expr, fuel: nat) returns (items: seq<Item>, v: Value, c: Completion)
      requires Valid() && e.UnaryExpr?
      modifies this, builtins.sceneController
      ensures ExprKeeps()
      ensures c.Normal? || c.Thrown? || c.Halted?
      ensures Refers(v, |heap|)
      ensures IsPlain(e) ==>
        items == [] && unchanged(this) && (c.Normal? || c.Thrown?) &&
        Evaluate(e) == if c.Normal? then Ok(v) else Err(c.message)
      decreases fuel, SizeE(e), 0
    {
      var operand;
      items, operand, c := ExecExpr(e.operand, fuel);
      v := Null;
      if c.Normal? {
        match EvalUnary(e.op, operand, heap, e.line)
        case Ok(r) =>
          v := r;
        case Err(m) =>
          c := Thrown(m);
      }
    }

    /** A call of a name (PythonInterpreter.cs:380-396): the arguments, then
        the nested routine of the callee. */
    method EvalNameCall(e: Expr, fuel: nat) returns (items: seq<Item>, v: Value, c: Completion)
      requires Valid() && e.CallExpr? && e.callee.NameExpr?
      modifies this, builtins.sceneController
      ensures ExprKeeps()
      ensures c.Normal? || c.Halted?  || c.Thrown?
      ensures Refers(v, |heap|)
      ensures c.Normal? ==>
        |items| > 0 && items[|items| - 1].Nested? && !items[|items| - 1].routine.ending.OutOfFuel?
      ensures v != Null ==> c.Normal? && items[|items| - 1].routine.ending.Exhausted?
      ensures AllPlain(e.arguments) ==>
        match old(EvaluateAll(e.arguments))
        case Err(m) => items == [] && c == Thrown(m) && v == Null && unchanged(this)
        case Ok(args) =>
          |items| == 1 && items[0].Nested? && !c.Thrown? &&
          (e.callee.name in Intrinsics ==>
            var (h, value, after) := Intrinsic(e.callee.name, args, old(heap));
            items[0] == Nested(h) && v == value.GetOr(Null) && heap == after)
      decreases fuel, SizeE(e), 0
    {
      ghost var plain := AllPlain(e.arguments);
      ghost var expected := if plain then EvaluateAll(e.arguments) else Ok([]);
      var args;
      items, args, c := EvalArgs(e.arguments, fuel);
      assert plain ==> items == [] && expected == if c.Normal? then Ok(args) else Err(c.message);
      if !c.Normal? {
        return items, Null, c;
      }
      var h, value := HandleBuiltinFunction(e.callee.name, args, fuel);
      items := items + [Nested(h)];
      assert items[|items| - 1] == Nested(h);
      v := value.GetOr(Null);
      c := if h.ending.OutOfFuel? then Halted else Normal;
    }

    /** A call of a list method (PythonInterpreter.cs:398-476): the target
        first, then `append`, `remove` or `pop` on it in place. Arguments are
        evaluated only once the method and its arity are known good. */
    method EvalMethodCall(e: Expr, fuel: nat) returns (items: seq<Item>, v: Value, c: Completion)
      requires Valid() && e.CallExpr? && e.callee.AttributeExpr?
      modifies this, builtins.sceneController
      ensures ExprKeeps()
      ensures c.Normal? || c.Thrown? || c.Halted?
      ensures Refers(v, |heap|)
      decreases fuel, SizeE(e), 0
    {
      assert SizeE(e.callee) == 1 + SizeE(e.callee.target);
      var target;
      items, target, c := ExecExpr(e.callee.target, fuel);
      v := Null;
      if !c.Normal? {
        return;
      }
      var member := e.callee.name;
      var args := e.arguments;
      var at := LineText(e.line);
      if !target.ListRef? {
        return items, Null, Thrown("Object has no attribute '" + member + "'" + at);
      }
      var more;
      if member == "append" || member == "remove" {
        if |args| != 1 {
          return items, Null, Thrown(member + "() takes 1 argument" + at);
        }
        SizeEsElement(args, 0);
        more, c := EvalAppendOrRemove(target.id, member == "append", args[0], at, fuel);
        items := items + more;
      } else if member == "pop" {
        if |args| > 1 {
          return items, Null, Thrown("pop() takes at most 1 argument" + at);
        }
        more, v, c := EvalPop(target.id, args, at, fuel);
        items := items + more;
      } else {
        c := Thrown("Unknown list method '" + member + "'" + at);
      }
    }

    /** `append(x)` adds `x` at the end of the list; `remove(x)` takes out the
        first element equal to `x`, or throws when there is none. */
    method EvalAppendOrRemove(id: nat, append: bool, arg: Expr, at: string, fuel: nat) returns (items: seq<Item>, c: Completion)
      requires Valid() && id < |heap|
      modifies this, builtins.sceneController
      ensures ExprKeeps()
      ensures c.Normal? || c.Thrown? || c.Halted?
      decreases fuel, SizeE(arg), 2
    {
      var x;
      items, x, c := ExecExpr(arg, fuel);
      if c.Normal? {
        c := ApplyAppendOrRemove(id, append, x, at);
      }
    }

    /** The change `append(x)` or `remove(x)` makes once `x` is known
        (PythonInterpreter.cs:420, 432-436): the list is changed in place,
        which every holder of it sees, or `remove` throws and nothing
        changes. */
    method ApplyAppendOrRemove(id: nat, append: bool, x: Value, at: string) returns (c: Completion)
      requires Valid() && id < |heap| && Refers(x, |heap|)
      modifies this
      ensures Valid()
      ensures globals == old(globals) && functions == old(functions)
      ensures localsStack == old(localsStack) && globalDeclsStack == old(globalDeclsStack)
      ensures append ==>
        c.Normal? && heap == old(heap)[id := ListObj(old(heap[id].items) + [x], old(heap[id].version) + 1)]
      ensures !append ==>
        match RemoveFirst(old(heap[id].items), x)
        case Some(rest) =>
          c.Normal? && heap == old(heap)[id := ListObj(rest, old(heap[id].version) + 1)]
        case None =>
          c == Thrown("Value not found in list" + at) && heap == old(heap)
    {
      c := Normal;
      if append {
        Store(id, heap[id].items + [x]);
      } else {
        match RemoveFirst(heap[id].items, x)
        case Some(rest) =>
          Store(id, rest);
        case None =>
          c := Thrown("Value not found in list" + at);
      }
    }

    /** `pop()` takes the last element and `pop(i)` the one at `i`, a
        negative `i` counting from the end; the position is found against
        the count after the argument was evaluated. */
    method EvalPop(id: nat, args: seq<Expr>, at: string, fuel: nat) returns (items: seq<Item>, v: Value, c: Completion)
      requires Valid() && id < |heap| && |args| <= 1
      modifies this, builtins.sceneController
      ensures ExprKeeps()
      ensures c.Normal? || c.Thrown? || c.Halted?
      ensures Refers(v, |heap|)
      ensures args == [] ==>
        items == [] && globals == old(globals) &&
        match PopAt(old(heap[id].items), |old(heap[id].items)| - 1)
        case Some((popped, rest)) =>
          c.Normal? && v == popped && heap == old(heap)[id := ListObj(rest, old(heap[id].version) + 1)]
        case None => c == Thrown("pop index out of range" + at) && heap == old(heap)
      ensures |args| == 1 && IsPlain(args[0]) ==>
        items == [] && globals == old(globals) &&
        match old(Evaluate(args[0]))
        case Err(m) => c == Thrown(m) && heap == old(heap)
        case Ok(x) =>
          match ToInt32(x)
          case Err(m) => c == Thrown(m) && heap == old(heap)
          case Ok(index) =>
            match PopAt(old(heap[id].items), index)
            case Some((popped, rest)) =>
              c.Normal? && v == popped && heap == old(heap)[id := ListObj(rest, old(heap[id].version) + 1)]
            case None => c == Thrown("pop index out of range" + at) && heap == old(heap)
      decreases fuel, SizeEs(args), 2
    {
      items, v, c := [], Null, Normal;
      var index := |heap[id].items| - 1;
      if |args| == 1 {
        SizeEsElement(args, 0);
        var x;
        items, x, c := ExecExpr(args[0], fuel);
        if !c.Normal? {
          return;
        }
        match ToInt32(x) {
          case Ok(k) =>
            index := k;
          case Err(m) =>
            return items, Null, Thrown(m);
        }
      }
      match PopAt(heap[id].items, index)
      case Some((popped, rest)) =>
        Store(id, rest);
        v := popped;
      case None =>
        c := Thrown("pop index out of range" + at);
    }

    /** `target[index]` (PythonInterpreter.cs:482-508). */
    method EvalIndex(e: Expr, fuel: nat) returns (items: seq<Item>, v: Value, c: Completion)
      requires Valid() && e.IndexExpr?
      modifies this, builtins.sceneController
      ensures ExprKeeps()
      ensures c.Normal? || c.Thrown? || c.Halted?
      ensures Refers(v, |heap|)
      ensures IsPlain(e) ==>
        items == [] && unchanged(this) && (c.Normal? || c.Thrown?) &&
        Evaluate(e) == if c.Normal? then Ok(v) else Err(c.message)
      decreases fuel, SizeE(e), 0
    {
      var target, index, more;
      items, target, c := ExecExpr(e.target, fuel);
      v := Null;
      if !c.Normal? {
        return;
      }
      more, index, c := ExecExpr(e.index, fuel);
      items := items + more;
      if !c.Normal? {
        return;
      }
      match Subscript(target, index, heap, e.line)
      case Ok(x) =>
        v := x;
      case Err(m) =>
        c := Thrown(m);
    }

    /** `target[start:end]` (PythonInterpreter.cs:509-557): the end defaults
        to the count before either bound is evaluated, each bound is clamped
        against the count at the moment it is computed, and the elements are
        copied into a fresh list. */
    method EvalSlice(e: Expr, fuel: nat) returns (items: seq<Item>, v: Value, c: Completion)
      requires Valid() && e.SliceExpr?
      modifies this, builtins.sceneController
      ensures ExprKeeps()
      ensures c.Normal? || c.Thrown? || c.Halted?
      ensures Refers(v, |heap|)
      decreases fuel, SizeE(e), 0
    {
      var target;
      items, target, c := ExecExpr(e.target, fuel);
      v := Null;
      if !c.Normal? {
        return;
      }
      if !target.ListRef? {
        return items, Null, Thrown("Type " + FullTypeName(target) + " does not support slicing" + LineText(e.line));
      }
      var id := target.id;
      var start, end, more;
      end := |heap[id].items|;
      more, start, c := EvalSliceBound(e.start, id, 0, fuel);
      items := items + more;
      if !c.Normal? {
        return;
      }
      more, end, c := EvalSliceBound(e.end, id, end, fuel);
      items := items + more;
      if !c.Normal? {
        return;
      }
      v, c := SliceCopy(id, start, end);
    }

    /** One bound of a slice: the default when it is absent, otherwise its
        value as an int, clamped into the list as it is now. */
    method EvalSliceBound(bound: Option<Expr>, id: nat, default: nat, fuel: nat) returns (items: seq<Item>, k: nat, c: Completion)
      requires Valid() && id < |heap|
      modifies this, builtins.sceneController
      ensures ExprKeeps()
      ensures c.Normal? || c.Thrown? || c.Halted?
      ensures bound.None? ==> items == [] && k == default && c.Normal? && heap == old(heap)
      ensures bound.Some? && c.Normal? ==> k <= |heap[id].items|
      ensures bound.Some? && c.Normal? ==> exists i :: InInt32(i) && k == SliceBound(|heap[id].items|, i)
      ensures bound.Some? && IsPlain(bound.value) ==>
        items == [] && unchanged(this) &&
        match old(Evaluate(bound.value))
        case Err(m) => c == Thrown(m)
        case Ok(x) =>
          match ToInt32(x)
          case Err(m) => c == Thrown(m)
          case Ok(i) => c.Normal? && k == SliceBound(|heap[id].items|, i)
      decreases fuel, SizeOpt(bound), 2
    {
      items, k, c := [], default, Normal;
      if bound.Some? {
        var x;
        items, x, c := ExecExpr(bound.value, fuel);
        if c.Normal? {
          match ToInt32(x)
          case Ok(i) =>
            k := SliceBound(|heap[id].items|, i);
          case Err(m) =>
            c := Thrown(m);
        }
      }
    }

    /** The copy of a slice into a fresh list. */
    method SliceCopy(id: nat, start: nat, end: nat) returns (v: Value, c: Completion)
      requires Valid() && id < |heap|
      modifies this
      ensures ExprKeeps()
      ensures c.Normal? || c.Thrown?
      ensures Refers(v, |heap|)
      ensures c.Thrown? <==> start < end && end > |old(heap[id].items)|
      ensures c.Normal? ==>
        v == ListRef(old(|heap|)) &&
        heap == old(heap) + [ListObj(if start < end then old(heap[id].items)[start..end] else [], 0)]
    {
      var items := heap[id].items;
      var copied := CopySlice(items, start, end);
      match copied
      case Ok(elements) =>
        if start < end {
          SliceRefers(items, start, end, |heap|);
        }
        v := Alloc(elements);
        c := Normal;
      case Err(m) =>
        v, c := Null, Thrown(m);
    }

    // -------------------------------------------------------------------
    // Statements
    // -------------------------------------------------------------------

    /** `ExecStmt` (PythonInterpreter.cs:48-240): every statement first
        reports its line, then does its work. */
    method ExecStmt(s: Stmt, fuel: nat) returns (items: seq<Item>, c: Completion)
      requires Valid()
      modifies this, builtins.sceneController
      ensures StmtKeeps()
      ensures CompletionRefers(c, |heap|)
      ensures |items| > 0 && items[0] == Line(s.line)
      decreases fuel, SizeS(s), 1
    {
      var more, v;
      match s
      case ExpressionStmt(e, line) =>
        more, v, c := ExecExpr(e, fuel);
        items := [Line(line)] + more;
      case AssignStmt(_, _, _) =>
        items, c := ExecAssign(s, fuel);
      case GlobalStmt(names, line) =>
        DeclareGlobals(names);
        items, c := [Line(line)], Normal;
      case IfStmt(_, _, _, _) =>
        items, c := ExecIf(s, fuel);
      case WhileStmt(_, _, _) =>
        items, c := ExecWhile(s, fuel);
      case ForStmt(_, _, _, _) =>
        items, c := ExecFor(s, fuel);
      case FunctionDefStmt(name, parameters, body, line) =>
        functions := functions[name := Function(name, parameters, body, line)];
        items, c := [Line(line)], Normal;
      case ReturnStmt(returnValue, line) =>
        items, c := [Line(line)], Returning(Null);
        if returnValue.Some? {
          more, v, c := ExecExpr(returnValue.value, fuel);
          items := items + more;
          if c.Normal? {
            c := Returning(v);
          }
        }
      case PassStmt(line) =>
        items, c := [Line(line)], Normal;
    }

    /** An assignment (PythonInterpreter.cs:63-74): the value, then the
        write. A plain value that evaluates leaves the variable holding it
        (unless a local shadows it); one that fails changes nothing. */
    method ExecAssign(s: Stmt, fuel: nat) returns (items: seq<Item>, c: Completion)
      requires Valid() && s.AssignStmt?
      modifies this, builtins.sceneController
      ensures StmtKeeps()
      ensures c.Normal? || c.Thrown? || c.Halted?
      ensures |items| > 0 && items[0] == Line(s.line)
      ensures IsPlain(s.value) && old(Evaluate(s.value)).Ok? ==>
        items == [Line(s.line)] && c.Normal? && heap == old(heap) &&
        (!old(Shadowed(s.target)) ==> Lookup(s.target) == Some(old(Evaluate(s.value)).value))
      ensures IsPlain(s.value) && old(Evaluate(s.value)).Err? ==>
        items == [Line(s.line)] && c == Thrown(old(Evaluate(s.value)).message) && unchanged(this)
      decreases fuel, SizeS(s), 0
    {
      var more, v;
      more, v, c := ExecExpr(s.value, fuel);
      items := [Line(s.line)] + more;
      if c.Normal? {
        SetVariable(s.target, v);
      }
    }

    /** An `if` (PythonInterpreter.cs:91-124): the condition, then the branch
        its truth picks. */
    method ExecIf(s: Stmt, fuel: nat) returns (items: seq<Item>, c: Completion)
      requires Valid() && s.IfStmt?
      modifies this, builtins.sceneController
      ensures StmtKeeps()
      ensures CompletionRefers(c, |heap|)
      ensures |items| > 0 && items[0] == Line(s.line)
      ensures IsPlain(s.condition) ==>
        match old(Evaluate(s.condition))
        case Err(m) => items == [Line(s.line)] && c == Thrown(m)
        case Ok(v) =>
          var branch :=
            if IsTrue(v, old(heap)) then s.thenBranch
            else if s.elseBranch.ElseBlock? then s.elseBranch.statements else [];
          (branch == [] ==> items == [Line(s.line)] && c.Normal?) &&
          (branch != [] ==> |items| > 1 && items[1] == Line(branch[0].line))
      decreases fuel, SizeS(s), 0
    {
      var more, v;
      more, v, c := ExecExpr(s.condition, fuel);
      items := [Line(s.line)] + more;
      if c.Normal? {
        if IsTrue(v, heap) {
          more, c := ExecBlock(s.thenBranch, fuel);
          items := items + more;
        } else if s.elseBranch.ElseBlock? {
          assert SizeElse(s.elseBranch) == SizeSs(s.elseBranch.statements);
          more, c := ExecBlock(s.elseBranch.statements, fuel);
          items := items + more;
        }
      }
    }

    /** The statements of a block, one after another, up to the first that
        does not finish normally; a block yields no steps of its own. */
    method ExecBlock(ss: seq<Stmt>, fuel: nat) returns (items: seq<Item>, c: Completion)
      requires Valid()
      modifies this, builtins.sceneController
      ensures StmtKeeps()
      ensures CompletionRefers(c, |heap|)
      ensures ss == [] ==> items == [] && c.Normal? && unchanged(this)
      ensures ss != [] ==> |items| > 0 && items[0] == Line(ss[0].line)
      decreases fuel, SizeSs(ss), 2
    {
      items, c := [], Normal;
      var i := 0;
      while i < |ss|
        invariant i <= |ss| && c.Normal?
        invariant StmtKeeps()
        invariant i == 0 ==> items == [] && unchanged(this)
        invariant i > 0 ==> |items| > 0 && items[0] == Line(ss[0].line)
      {
        SizeSsElement(ss, i);
        var more;
        more, c := ExecStmt(ss[i], fuel);
        assert (items + more)[0] == if i == 0 then more[0] else items[0];
        items := items + more;
        if !c.Normal? {
          return;
        }
        i := i + 1;
      }
    }

    /** `while` (PythonInterpreter.cs:128-147): the condition before every
        iteration, a step after every iteration; each iteration uses fuel. */
    method ExecWhile(s: Stmt, fuel: nat) returns (items: seq<Item>, c: Completion)
      requires Valid() && s.WhileStmt?
      modifies this, builtins.sceneController
      ensures StmtKeeps()
      ensures CompletionRefers(c, |heap|)
      ensures |items| > 0 && items[0] == Line(s.line)
      ensures fuel == 0 ==> items == [Line(s.line)] && c.Halted?
      ensures IsPlain(s.condition) && fuel > 0 ==>
        match old(Evaluate(s.condition))
        case Err(m) => items == [Line(s.line)] && c == Thrown(m)
        case Ok(v) =>
          (!IsTrue(v, old(heap)) ==> items == [Line(s.line)] && c.Normal?) &&
          (IsTrue(v, old(heap)) && s.body != [] ==> |items| > 1 && items[1] == Line(s.body[0].line))
      decreases fuel, SizeS(s), 0
    {
      items := [Line(s.line)];
      var f: nat := fuel;
      ghost var first := true;
      while true
        invariant f <= fuel
        invariant StmtKeeps()
        invariant |items| > 0 && items[0] == Line(s.line)
        invariant first ==> f == fuel && items == [Line(s.line)] && unchanged(this)
        invariant !first ==> f < fuel
        invariant !first && IsPlain(s.condition) ==>
          old(Evaluate(s.condition)).Ok? && IsTrue(old(Evaluate(s.condition)).value, old(heap)) &&
          (s.body != [] ==> |items| > 1 && items[1] == Line(s.body[0].line))
        decreases f
      {
        if f == 0 {
          return items, Halted;
        }
        f := f - 1;
        var more, v;
        more, v, c := ExecExpr(s.condition, f);
        items := items + more;
        if !c.Normal? {
          return;
        }
        if !IsTrue(v, heap) {
          return;
        }
        more, c := ExecBlock(s.body, f);
        items := items + more;
        if !c.Normal? {
          return;
        }
        items := items + [Step];
        first := false;
      }
    }

    /** `for` (PythonInterpreter.cs:149-202): a list or a string is walked;
        anything else throws. */
    method ExecFor(s: Stmt, fuel: nat) returns (items: seq<Item>, c: Completion)
      requires Valid() && s.ForStmt?
      modifies this, builtins.sceneController
      ensures StmtKeeps()
      ensures CompletionRefers(c, |heap|)
      ensures |items| > 0 && items[0] == Line(s.line)
      decreases fuel, SizeS(s), 0
    {
      var more, iterable;
      more, iterable, c := ExecExpr(s.iterable, fuel);
      items := [Line(s.line)] + more;
      if !c.Normal? {
        return;
      }
      match iterable
      case ListRef(id) =>
        more, c := ForList(s.variable, id, s.body, fuel);
        items := items + more;
      case Str(text) =>
        more, c := ForString(s.variable, text, s.body, fuel);
        items := items + more;
      case _ =>
        c := Thrown("Object of type '" + TypeName(iterable) + "' is not iterable" + LineText(s.line));
    }

    /** `foreach` over a list: the elements themselves are bound, so the body
        shares them, and a step follows every iteration. The enumerator
        checks before every step, the last one included, that the list was
        not changed since the loop began, and throws if it was. */
    method ForList(variable: string, id: nat, body: seq<Stmt>, fuel: nat) returns (items: seq<Item>, c: Completion)
      requires Valid() && id < |heap|
      modifies this, builtins.sceneController
      ensures StmtKeeps()
      ensures CompletionRefers(c, |heap|)
      ensures c.Normal? ==> heap[id].version == old(heap[id].version)
      decreases fuel, SizeSs(body), 3
    {
      var snapshot := heap[id].items;
      var version := heap[id].version;
      items, c := [], Normal;
      var i := 0;
      while true
        invariant i <= |snapshot| && id < |heap| && c.Normal?
        invariant AllRefer(snapshot, |heap|)
        invariant StmtKeeps()
        decreases |snapshot| - i
      {
        if heap[id].version != version {
          return items, Thrown(CollectionModified);
        }
        if i == |snapshot| {
          return;
        }
        SetVariable(variable, snapshot[i]);
        var more;
        more, c := ExecBlock(body, fuel);
        items := items + more;
        if !c.Normal? {
          return;
        }
        items := items + [Step];
        i := i + 1;
      }
    }

    /** `foreach` over a string: each character as a one-character string,
        a step after every iteration. */
    method ForString(variable: string, text: string, body: seq<Stmt>, fuel: nat) returns (items: seq<Item>, c: Completion)
      requires Valid()
      modifies this, builtins.sceneController
      ensures StmtKeeps()
      ensures CompletionRefers(c, |heap|)
      ensures text == [] ==> items == [] && c == Normal
      ensures c.Normal? && text != [] ==> items != [] && items[|items| - 1] == Step
      decreases fuel, SizeSs(body), 3
    {
      items, c := [], Normal;
      var i := 0;
      while i < |text|
        invariant i <= |text| && c.Normal?
        invariant StmtKeeps()
        invariant i == 0 ==> items == []
        invariant i > 0 ==> items != [] && items[|items| - 1] == Step
      {
        SetVariable(variable, Str([text[i]]));
        var more;
        more, c := ExecBlock(body, fuel);
        items := items + more;
        if !c.Normal? {
          return;
        }
        items := items + [Step];
        i := i + 1;
      }
    }

    /** `Execute` (PythonInterpreter.cs:33-45): the program's statements in
        order, a step after each. A `return` outside every function escapes
        as an exception. */
    method Execute(program: seq<Stmt>, fuel: nat) returns (r: Routine)
      requires Valid()
      modifies this, builtins.sceneController
      ensures StmtKeeps()
      ensures program == [] ==> r == Finished()
      ensures program != [] ==> r.items != [] && r.items[0] == Line(program[0].line)
      ensures r.ending.Exhausted? && program != [] ==> r.items[|r.items| - 1] == Step
    {
      var items := [];
      var i := 0;
      while i < |program|
        invariant i <= |program|
        invariant StmtKeeps()
        invariant i == 0 ==> items == []
        invariant i > 0 ==> items != [] && items[0] == Line(program[0].line) && items[|items| - 1] == Step
      {
        var more, c := ExecStmt(program[i], fuel);
        ghost var before := items;
        items := items + more;
        assert items[0] == if i == 0 then more[0] else before[0];
        match c {
          case Normal =>
            items := items + [Step];
          case Returning(_) =>
            return Routine(items, Threw(ReturnOutside));
          case Thrown(m) =>
            return Routine(items, Threw(m));
          case Halted =>
            return Routine(items, OutOfFuel);
        }
        i := i + 1;
      }
      r := Routine(items, Exhausted);
    }
  }

  /** A slice of a list holds only what the list holds. */
  lemma {:induction false} SliceRefers(items: seq<Value>, start: nat, end: nat, n: nat)
    requires AllRefer(items, n) && start <= end <= |items|
    ensures AllRefer(items[start..end], n)
  {
    forall i | 0 <= i < end - start
      ensures Refers(items[start..end][i], n)
    {
      assert items[start..end][i] == items[start + i];
    }
  }

  /** The list `range` builds refers to no list. */
  lemma {:induction false} RangeNumbers(start: int, stop: int, step: int)
    requires step != 0
    ensures forall n :: 0 <= n < |RangeFrom(start, stop, step)| ==> !RangeFrom(start, stop, step)[n].ListRef?
  {
    forall n | 0 <= n < |RangeFrom(start, stop, step)|
      ensures !RangeFrom(start, stop, step)[n].ListRef?
    {
      RangeElements(start, stop, step, n);
    }
  }

  /** A plain expression's value depends on the lists and on the variables
      it names, and on nothing else of the state. */
  lemma {:induction false} EvaluateReadsItsNames(a: Interpreter, b: Interpreter, e: Expr)
    requires a.Valid() && b.Valid() && IsPlain(e) && a.heap == b.heap
    requires forall n :: n in NamesOf(e) ==> a.Lookup(n) == b.Lookup(n)
    ensures a.Evaluate(e) == b.Evaluate(e)
  {
    match e
    case BinaryExpr(left, _, right, _) =>
      EvaluateReadsItsNames(a, b, left);
      EvaluateReadsItsNames(a, b, right);
    case UnaryExpr(_, operand, _) =>
      EvaluateReadsItsNames(a, b, operand);
    case IndexExpr(target, index, _) =>
      EvaluateReadsItsNames(a, b, target);
      EvaluateReadsItsNames(a, b, index);
    case NameExpr(name, _) =>
      assert name in NamesOf(e);
    case _ =>
  }
}
