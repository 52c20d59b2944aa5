/** The driver `CoroutineRunner.SafeExecute`
    (Scripts/ProgramExec/CoroutineRunner.cs:10-48), which Unity runs as a
    coroutine around the interpreter's routine. It advances the routine,
    runs every routine yielded to it by a recursive `SafeExecute` with the
    same callbacks, turns a bare step into a frame or a real-time step delay,
    and reports an exception through `onError`.

    What the driver does is written as the sequence of `Effect`s it has on
    the game: the side effects of the routines it advances, what it hands to
    Unity, and its callbacks. */
module Driver {
  import opened Values
  import opened Routines

  datatype Effect =
    /** A line report the interpreter made while advancing. */
    | Noted(line: int)
    /** A `print` line the interpreter logged while advancing. */
    | Logged(text: string)
    /** `yield return null` handed to Unity: one frame. */
    | Frame
    /** `yield return new WaitForSecondsRealtime(stepDelay)` handed to Unity. */
    | Realtime(seconds: real)
    /** A `sleep` wait: a `WaitForSecondsRealtime` is itself an enumerator, so
        the driver drives it by a nested `SafeExecute` until it elapses. */
    | Slept(seconds: real)
    /** A scene command's routine, driven by a nested `SafeExecute`. */
    | HostRan(name: string, handler: nat, args: seq<Value>)
    /** The scene's reset routine, driven by a nested `SafeExecute`. */
    | SceneWasReset
    /** `onError(message)`. */
    | ErrorReported(message: string)
    /** `onComplete()`. */
    | Completed
    /** The model stopped following the run: some routine ran out of fuel. */
    | Truncated

  /** What driving a routine did, and whether the model stopped following
      the run part way (`cut`), which stops every enclosing driver too. */
  datatype Trace = Trace(effects: seq<Effect>, cut: bool)

  /** A Unity step delay is used when it is above a hundredth of a second. */
  predicate UsesDelay(stepDelay: real) {
    stepDelay > 1.0 / 100.0
  }

  /** The effects of one yielded item that is not a toolchain routine. */
  function ItemEffects(item: Item, stepDelay: real): seq<Effect>
    requires !item.Nested?
  {
    match item
    case Line(n) => [Noted(n)]
    case Log(text) => [Logged(text)]
    case Step => if UsesDelay(stepDelay) then [Realtime(stepDelay)] else [Frame]
    case Wait(seconds) => [Slept(seconds)]
    case Command(name, handler, args) => [HostRan(name, handler, args)]
    case SceneReset => [SceneWasReset]
  }

  /** `e` in front of what `t` did. */
  function Then(e: seq<Effect>, t: Trace): Trace {
    Trace(e + t.effects, t.cut)
  }

  /** How a driver ends once its routine ends: nothing when the routine is
      exhausted (the loop just breaks, and `onComplete` is not called), one
      `onError` when it throws. */
  function EndTrace(ending: Ending): Trace {
    match ending
    case Exhausted => Trace([], false)
    case Threw(message) => Trace([ErrorReported(message)], false)
    case OutOfFuel => Trace([Truncated], true)
  }

  /** What `SafeExecute(r, stepDelay, ...)` does. */
  function Flatten(r: Routine, stepDelay: real): Trace
    decreases r, |r.items| + 1
  {
    FlattenFrom(r, 0, stepDelay)
  }

  /** What the driver of `r` does from the `i`-th item on. */
  function FlattenFrom(r: Routine, i: nat, stepDelay: real): Trace
    requires i <= |r.items|
    decreases r, |r.items| - i
  {
    if i == |r.items| then EndTrace(r.ending)
    else
      var first := ItemTrace(r, i, stepDelay);
      if first.cut then first
      else Then(first.effects, FlattenFrom(r, i + 1, stepDelay))
  }

  /** What the driver of `r` does with its `i`-th item. */
  function ItemTrace(r: Routine, i: nat, stepDelay: real): Trace
    requires i < |r.items|
    decreases r, 0
  {
    var item := r.items[i];
    if item.Nested? then
      assert item.routine < item;
      Flatten(item.routine, stepDelay)
    else Trace(ItemEffects(item, stepDelay), false)
  }

  /** `SafeExecute` (CoroutineRunner.cs:10-48). */
  method SafeExecute(r: Routine, stepDelay: real) returns (effects: seq<Effect>, cut: bool)
    ensures Trace(effects, cut) == Flatten(r, stepDelay)
    decreases r
  {
    effects := [];
    var i := 0;
    while i < |r.items|
      invariant i <= |r.items|
      invariant Then(effects, FlattenFrom(r, i, stepDelay)) == Flatten(r, stepDelay)
    {
      var current := r.items[i];
      var more: seq<Effect>;
      if current.Nested? {
        assert current.routine < current;
        var nestedCut;
        more, nestedCut := SafeExecute(current.routine, stepDelay);
        if nestedCut {
          return effects + more, true;
        }
      } else if current.Step? {
        more := if UsesDelay(stepDelay) then [Realtime(stepDelay)] else [Frame];
      } else {
        more := ItemEffects(current, stepDelay);
      }
      assert effects + more + FlattenFrom(r, i + 1, stepDelay).effects
          == effects + (more + FlattenFrom(r, i + 1, stepDelay).effects);
      effects := effects + more;
      i := i + 1;
    }
    var last := EndTrace(r.ending);
    effects, cut := effects + last.effects, last.cut;
  }

  // ---------------------------------------------------------------------
  // Properties of the driver as written
  // ---------------------------------------------------------------------

  /** Wrapping a routine in another that only yields it changes nothing. */
  lemma {:induction false} NestingIsTransparent(r: Routine, stepDelay: real)
    ensures Flatten(Routine([Nested(r)], Exhausted), stepDelay) == Flatten(r, stepDelay)
  {
    var outer := Routine([Nested(r)], Exhausted);
    assert ItemTrace(outer, 0, stepDelay) == Flatten(r, stepDelay);
    assert FlattenFrom(outer, 1, stepDelay) == Trace([], false);
    assert Flatten(r, stepDelay).effects + [] == Flatten(r, stepDelay).effects;
  }

  /** The driver treats a routine item by item: running the items `a` and
      then `b` does what `a` does, then what `b` does, unless `a` was cut. */
  lemma {:induction false} FlattenAppend(a: seq<Item>, b: seq<Item>, ending: Ending, stepDelay: real)
    requires !Flatten(Routine(a, Exhausted), stepDelay).cut
    ensures Flatten(Routine(a + b, ending), stepDelay) ==
      Then(Flatten(Routine(a, Exhausted), stepDelay).effects, Flatten(Routine(b, ending), stepDelay))
  {
    FlattenFromAppend(a, b, ending, 0, stepDelay);
  }

  lemma {:induction false} FlattenFromAppend(a: seq<Item>, b: seq<Item>, ending: Ending, i: nat, stepDelay: real)
    requires i <= |a|
    requires !FlattenFrom(Routine(a, Exhausted), i, stepDelay).cut
    ensures FlattenFrom(Routine(a + b, ending), i, stepDelay) ==
      Then(FlattenFrom(Routine(a, Exhausted), i, stepDelay).effects, Flatten(Routine(b, ending), stepDelay))
    decreases |a| - i
  {
    var ra, rab, rb := Routine(a, Exhausted), Routine(a + b, ending), Routine(b, ending);
    if i == |a| {
      FlattenFromShift(a, b, ending, 0, stepDelay);
      assert FlattenFrom(ra, i, stepDelay) == Trace([], false);
      assert [] + Flatten(rb, stepDelay).effects == Flatten(rb, stepDelay).effects;
    } else {
      assert rab.items[i] == ra.items[i];
      assert ItemTrace(rab, i, stepDelay) == ItemTrace(ra, i, stepDelay);
      var first := ItemTrace(ra, i, stepDelay);
      assert !first.cut;
      FlattenFromAppend(a, b, ending, i + 1, stepDelay);
      var restA := FlattenFrom(ra, i + 1, stepDelay).effects;
      assert first.effects + (restA + Flatten(rb, stepDelay).effects)
          == (first.effects + restA) + Flatten(rb, stepDelay).effects;
    }
  }

  /** The items of `b` placed after `a` are driven as `b` alone drives them. */
  lemma {:induction false} FlattenFromShift(a: seq<Item>, b: seq<Item>, ending: Ending, j: nat, stepDelay: real)
    requires j <= |b|
    ensures FlattenFrom(Routine(a + b, ending), |a| + j, stepDelay) == FlattenFrom(Routine(b, ending), j, stepDelay)
    decreases |b| - j
  {
    if j < |b| {
      assert (a + b)[|a| + j] == b[j];
      assert ItemTrace(Routine(a + b, ending), |a| + j, stepDelay) == ItemTrace(Routine(b, ending), j, stepDelay);
      FlattenFromShift(a, b, ending, j + 1, stepDelay);
    }
  }

  /** An error inside a yielded routine stops only that routine's driver:
      it is reported, and the outer routine goes on with its next item. */
  lemma {:induction false} NestedErrorIsContained(inner: seq<Item>, message: string, rest: seq<Item>, ending: Ending, stepDelay: real)
    requires !Flatten(Routine(inner, Exhausted), stepDelay).cut
    ensures Flatten(Routine([Nested(Routine(inner, Threw(message)))] + rest, ending), stepDelay) ==
      Then(Flatten(Routine(inner, Exhausted), stepDelay).effects + [ErrorReported(message)],
           Flatten(Routine(rest, ending), stepDelay))
  {
    var failing := Routine(inner, Threw(message));
    FlattenAppend(inner, [], Threw(message), stepDelay);
    assert inner + [] == inner;
    assert Flatten(Routine([], Threw(message)), stepDelay) == Trace([ErrorReported(message)], false);
    NestingIsTransparent(failing, stepDelay);
    FlattenAppend([Nested(failing)], rest, ending, stepDelay);
  }

  /** `onComplete` is never called, however the run goes. */
  lemma {:induction false} NeverCompletes(r: Routine, stepDelay: real)
    ensures Completed !in Flatten(r, stepDelay).effects
    decreases r, |r.items| + 1
  {
    NeverCompletesFrom(r, 0, stepDelay);
  }

  lemma {:induction false} NeverCompletesFrom(r: Routine, i: nat, stepDelay: real)
    requires i <= |r.items|
    ensures Completed !in FlattenFrom(r, i, stepDelay).effects
    decreases r, |r.items| - i
  {
    if i < |r.items| {
      var item := r.items[i];
      if item.Nested? {
        assert item.routine < item;
        NeverCompletes(item.routine, stepDelay);
      }
      NeverCompletesFrom(r, i + 1, stepDelay);
    }
  }

  /** A run whose called function throws goes on after the error is
      reported: the line after the call is still logged. */
  lemma {:induction false} ErrorThenMore(stepDelay: real)
    ensures var r := Routine([Nested(Routine([], Threw("x"))), Log("after")], Exhausted);
      Flatten(r, stepDelay) == Trace([ErrorReported("x"), Logged("after")], false)
  {
    var r := Routine([Nested(Routine([], Threw("x"))), Log("after")], Exhausted);
    assert FlattenFrom(r, 2, stepDelay) == Trace([], false);
    assert FlattenFrom(r, 1, stepDelay) == Trace([Logged("after")], false);
    assert ItemTrace(r, 0, stepDelay) == Trace([ErrorReported("x")], false);
  }

  // ---------------------------------------------------------------------
  // The driver as evidently intended
  // ---------------------------------------------------------------------

  /** The last effect of a run: `onComplete`, `onError`, or the cut. */
  predicate Terminal(e: Effect) {
    e.ErrorReported? || e.Completed? || e.Truncated?
  }

  /** The effects of a driver in which an error anywhere ends the whole run,
      with how the run ended. */
  datatype Outcome = Outcome(effects: seq<Effect>, ending: Ending)

  function Abort(r: Routine, stepDelay: real): (o: Outcome)
    decreases r, |r.items| + 1
  {
    AbortFrom(r, 0, stepDelay)
  }

  function AbortFrom(r: Routine, i: nat, stepDelay: real): (o: Outcome)
    requires i <= |r.items|
    decreases r, |r.items| - i
  {
    if i == |r.items| then Outcome([], r.ending)
    else
      var item := r.items[i];
      var first :=
        if item.Nested? then
          assert item.routine < item;
          Abort(item.routine, stepDelay)
        else Outcome(ItemEffects(item, stepDelay), Exhausted);
      if !first.ending.Exhausted? then first
      else
        var rest := AbortFrom(r, i + 1, stepDelay);
        Outcome(first.effects + rest.effects, rest.ending)
  }

  /** The whole run: the effects, then exactly one of `onComplete`,
      `onError` or the cut. */
  function RunFixed(r: Routine, stepDelay: real): seq<Effect> {
    var o := Abort(r, stepDelay);
    o.effects + [match o.ending
                 case Exhausted => Completed
                 case Threw(message) => ErrorReported(message)
                 case OutOfFuel => Truncated]
  }

  /** Before its end, a run makes no callback. */
  lemma {:induction false} AbortQuiet(r: Routine, stepDelay: real)
    ensures forall e :: e in Abort(r, stepDelay).effects ==> !Terminal(e)
    decreases r, |r.items| + 1
  {
    AbortQuietFrom(r, 0, stepDelay);
  }

  lemma {:induction false} AbortQuietFrom(r: Routine, i: nat, stepDelay: real)
    requires i <= |r.items|
    ensures forall e :: e in AbortFrom(r, i, stepDelay).effects ==> !Terminal(e)
    decreases r, |r.items| - i
  {
    if i < |r.items| {
      var item := r.items[i];
      if item.Nested? {
        assert item.routine < item;
        AbortQuiet(item.routine, stepDelay);
      }
      AbortQuietFrom(r, i + 1, stepDelay);
    }
  }

  /** Exactly one callback ends every run, and it comes last: `onComplete`
      when nothing failed, `onError` with the first failure otherwise. */
  lemma {:induction false} OneTerminal(r: Routine, stepDelay: real)
    ensures var run := RunFixed(r, stepDelay);
      |run| > 0 && Terminal(run[|run| - 1]) &&
      (forall k :: 0 <= k < |run| - 1 ==> !Terminal(run[k])) &&
      (Abort(r, stepDelay).ending.Exhausted? <==> run[|run| - 1] == Completed)
  {
    AbortQuiet(r, stepDelay);
    var o := Abort(r, stepDelay);
    var run := RunFixed(r, stepDelay);
    forall k | 0 <= k < |run| - 1
      ensures !Terminal(run[k])
    {
      assert run[k] == o.effects[k];
      assert o.effects[k] in o.effects;
    }
  }

  /** With the fix, the failing call of `ErrorThenMore` ends the run. */
  lemma {:induction false} FixedStopsAtError(stepDelay: real)
    ensures var r := Routine([Nested(Routine([], Threw("x"))), Log("after")], Exhausted);
      RunFixed(r, stepDelay) == [ErrorReported("x")]
  {
    var r := Routine([Nested(Routine([], Threw("x"))), Log("after")], Exhausted);
    assert Abort(Routine([], Threw("x")), stepDelay) == Outcome([], Threw("x"));
    assert AbortFrom(r, 0, stepDelay) == Outcome([], Threw("x"));
  }

  /** Where nothing fails, the fixed driver does what the written one does,
      and then calls `onComplete`. */
  lemma {:induction false} FixedAgreesWithoutErrors(r: Routine, stepDelay: real)
    requires Abort(r, stepDelay).ending.Exhausted?
    ensures Flatten(r, stepDelay) == Trace(Abort(r, stepDelay).effects, false)
    ensures RunFixed(r, stepDelay) == Flatten(r, stepDelay).effects + [Completed]
    decreases r, |r.items| + 1
  {
    AgreeFrom(r, 0, stepDelay);
  }

  lemma {:induction false} AgreeFrom(r: Routine, i: nat, stepDelay: real)
    requires i <= |r.items| && AbortFrom(r, i, stepDelay).ending.Exhausted?
    ensures FlattenFrom(r, i, stepDelay) == Trace(AbortFrom(r, i, stepDelay).effects, false)
    decreases r, |r.items| - i
  {
    if i < |r.items| {
      var item := r.items[i];
      if item.Nested? {
        assert item.routine < item;
        FixedAgreesWithoutErrors(item.routine, stepDelay);
      }
      AgreeFrom(r, i + 1, stepDelay);
    }
  }

  /** The driver with the fix: an error in any routine ends the run, and
      `onComplete` is called once the outermost routine is exhausted. */
  method SafeExecuteFixed(r: Routine, stepDelay: real) returns (effects: seq<Effect>)
    ensures effects == RunFixed(r, stepDelay)
  {
    var ending;
    effects, ending := Drive(r, stepDelay);
    match ending
    case Exhausted =>
      effects := effects + [Completed];
    case Threw(message) =>
      effects := effects + [ErrorReported(message)];
    case OutOfFuel =>
      effects := effects + [Truncated];
  }

  /** The loop of the fixed driver: no callback is made below the top. */
  method Drive(r: Routine, stepDelay: real) returns (effects: seq<Effect>, ending: Ending)
    ensures Outcome(effects, ending) == Abort(r, stepDelay)
    decreases r
  {
    effects := [];
    var i := 0;
    while i < |r.items|
      invariant i <= |r.items|
      invariant AbortFrom(r, i, stepDelay).ending == Abort(r, stepDelay).ending
      invariant effects + AbortFrom(r, i, stepDelay).effects == Abort(r, stepDelay).effects
    {
      var current := r.items[i];
      var more: seq<Effect>;
      if current.Nested? {
        assert current.routine < current;
        var nestedEnding;
        more, nestedEnding := Drive(current.routine, stepDelay);
        if !nestedEnding.Exhausted? {
          return effects + more, nestedEnding;
        }
      } else {
        more := ItemEffects(current, stepDelay);
      }
      assert effects + more + AbortFrom(r, i + 1, stepDelay).effects
          == effects + (more + AbortFrom(r, i + 1, stepDelay).effects);
      effects := effects + more;
      i := i + 1;
    }
    ending := r.ending;
    assert effects + [] == effects;
  }
}
