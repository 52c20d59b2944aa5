/** The coroutines of the toolchain, as values. An `IEnumerator` that the
    interpreter, the built-in bridge or a scene controller hands to Unity is
    represented by what it does when driven to its end: the items it yields,
    in order, interleaved with the side effects it performs between yields,
    and how it ends. A routine that yields another routine (`yield return
    SomeEnumerator()`) holds that routine as a `Nested` item: the driver runs
    it to its end before the outer one moves on, so the nested routine's
    behaviour is fixed by the time the outer one resumes. */
module Routines {
  import opened Values

  datatype Item =
    /** `ExecutionTracker.NotifyLineExecution(n)`: a side effect, not a yield. */
    | Line(line: int)
    /** `Debug.Log(text)` from `print`: a side effect, not a yield. */
    | Log(text: string)
    /** `yield return null`. */
    | Step
    /** `yield return new WaitForSecondsRealtime(seconds)` from `sleep`. */
    | Wait(seconds: real)
    /** `yield return command(args)`: the scene's own routine for a command,
        whose contents are outside the model. */
    | Command(name: string, handler: nat, args: seq<Value>)
    /** `yield return sceneController.SceneReset()`, the scene's own routine. */
    | SceneReset
    /** `yield return r` for a routine `r` of the toolchain itself. */
    | Nested(routine: Routine)

  /** How a routine stops: `MoveNext` returns false, or throws, or the model
      stops following it because its fuel ran out. */
  datatype Ending = Exhausted | Threw(message: string) | OutOfFuel

  datatype Routine = Routine(items: seq<Item>, ending: Ending)

  /** A routine that yields nothing and ends at once, normally or by throwing. */
  function Finished(): Routine {
    Routine([], Exhausted)
  }

  function Failed(message: string): Routine {
    Routine([], Threw(message))
  }
}
