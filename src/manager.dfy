/** `GlobalScriptManager` (Scripts/GlobalScriptManager.cs): the registry of
    the scene's script runners and the one runner that is running, together
    with the parts of `ScriptRunner` (Scripts/ProgramExec/ScriptRunner.cs)
    that talk to it. The static class becomes one `ScriptManager` object; a
    runner is represented by the two fields the manager's events read and
    change, its state and whether it is executing. */
module Manager {

  datatype ScriptState = Reset | Running

  /** A `ScriptRunner`: `currentState`, which `SetState` records (the buttons
      and the highlighting it also updates are presentation), and
      `isExecuting`. */
  class Runner {
    var state: ScriptState
    var executing: bool

    /** The field initialisers (ScriptRunner.cs:50, 53); `Start` sets the
        state to Reset once more. */
    constructor()
      ensures state == Reset && !executing
    {
      state := Reset;
      executing := false;
    }

    /** `Start`: registers with the manager, subscribes `StopExecution` to
        `OnStopAllRunners`, and shows Reset. */
    method Start(m: ScriptManager)
      modifies this, m
      ensures m.registered == old(m.registered) + {this} && m.listeners == old(m.listeners) + {this}
      ensures m.current == old(m.current) && m.stopBroadcasts == old(m.stopBroadcasts)
      ensures state == Reset && executing == old(executing)
      ensures old(m.Exclusive()) ==> m.Exclusive()
    {
      m.RegisterRunner(this);
      m.AddStopListener(this);
      state := Reset;
    }

    /** `OnDestroy`: unregisters and unsubscribes. */
    method OnDestroy(m: ScriptManager)
      modifies m
      ensures m.registered == old(m.registered) - {this} && m.listeners == old(m.listeners) - {this}
      ensures m.current == if old(m.current) == this then null else old(m.current)
      ensures m.stopBroadcasts == old(m.stopBroadcasts)
      ensures old(m.Exclusive()) ==> m.Exclusive()
    {
      m.UnregisterRunner(this);
      m.RemoveStopListener(this);
    }

    /** `ReportError`, without the log line: execution is over, and the
        manager is told, which resets this runner if it is the current one. */
    method ReportError(m: ScriptManager)
      modifies this, m
      ensures !executing
      ensures m.registered == old(m.registered) && m.listeners == old(m.listeners)
      ensures m.stopBroadcasts == old(m.stopBroadcasts)
      ensures old(m.current) == this ==> m.current == null && state == Reset
      ensures old(m.current) != this ==> m.current == old(m.current) && state == old(state)
      ensures old(m.Exclusive()) ==> m.Exclusive()
    {
      executing := false;
      m.OnScriptError(this);
    }

    /** `OnExecutionComplete`: the success counterpart of `ReportError`. */
    method OnExecutionComplete(m: ScriptManager)
      modifies this, m
      ensures !executing
      ensures m.registered == old(m.registered) && m.listeners == old(m.listeners)
      ensures m.stopBroadcasts == old(m.stopBroadcasts)
      ensures old(m.current) == this ==> m.current == null && state == Reset
      ensures old(m.current) != this ==> m.current == old(m.current) && state == old(state)
      ensures old(m.Exclusive()) ==> m.Exclusive()
    {
      executing := false;
      m.OnScriptComplete(this);
    }

    /** `StopExecution`, the handler of `OnStopAllRunners`: only an executing
        runner reacts, and it reports "Execution stopped by user", so the
        manager clears it when it is the current runner. */
    method StopExecution(m: ScriptManager)
      modifies this, m
      ensures !executing
      ensures m.registered == old(m.registered) && m.listeners == old(m.listeners)
      ensures m.stopBroadcasts == old(m.stopBroadcasts)
      ensures m.current == if old(executing) && old(m.current) == this then null else old(m.current)
      ensures state == if old(executing) && old(m.current) == this then Reset else old(state)
      ensures old(m.Exclusive()) ==> m.Exclusive()
    {
      if executing {
        executing := false;
        ReportError(m);
      }
    }

    /** `RunScript`, with whether the script lexes and parses as a
        parameter: a runner that is executing already ignores the call; a
        script that parses starts executing; one that does not is reported,
        and the manager is told once more, which then changes nothing. */
    method RunScript(m: ScriptManager, parses: bool)
      modifies this, m
      ensures m.registered == old(m.registered) && m.listeners == old(m.listeners)
      ensures m.stopBroadcasts == old(m.stopBroadcasts)
      ensures old(executing) || parses ==> m.current == old(m.current) && state == old(state)
      ensures executing == (old(executing) || parses)
      ensures !old(executing) && !parses && old(m.current) == this ==> m.current == null && state == Reset
      ensures !old(executing) && !parses && old(m.current) != this ==>
        m.current == old(m.current) && state == old(state)
      ensures old(m.Exclusive()) ==> m.Exclusive()
    {
      if executing {
        return;
      }
      if parses {
        executing := true;
      } else {
        ReportError(m);
        executing := false;
        m.OnScriptError(this);
      }
    }

    /** `OnRunButtonPressed`: the manager stops every runner and makes this
        one current and Running, then the script starts. A subscribed runner
        always starts afresh: it ends executing, current and Running when
        the script parses, and Reset with nothing running when it does not. */
    method OnRunButtonPressed(m: ScriptManager, parses: bool)
      requires this in m.registered && this in m.listeners
      modifies this, m, m.registered, m.listeners
      ensures m.registered == old(m.registered) && m.listeners == old(m.listeners)
      ensures m.stopBroadcasts == old(m.stopBroadcasts) + 1
      ensures executing == parses
      ensures parses ==> m.current == this && state == Running
      ensures !parses ==> m.current == null && state == Reset
      ensures forall r :: r in m.registered && r != this ==> r.state == Reset
      ensures forall r :: r in m.listeners && r != this ==> !r.executing
      ensures m.Exclusive()
    {
      m.StartRunner(this);
      RunScript(m, parses);
    }

    /** `OnResetButtonPressed` and `ResetWithScene`, without the scene
        reset and the log line: stop this runner if it is executing, then
        reset every runner. */
    method OnResetButtonPressed(m: ScriptManager)
      requires this in m.registered
      modifies this, m, m.registered, m.listeners
      ensures m.registered == old(m.registered) && m.listeners == old(m.listeners)
      ensures m.current == null && !executing
      ensures forall r :: r in m.registered ==> r.state == Reset
      ensures forall r :: r in m.listeners ==> !r.executing
      ensures m.Exclusive()
    {
      StopExecution(m);
      m.ResetAllRunners();
    }
  }

  class ScriptManager {
    /** `registeredRunners`. */
    var registered: set<Runner>
    /** The runners whose `StopExecution` is subscribed to `OnStopAllRunners`. */
    var listeners: set<Runner>
    /** `currentRunningScript`. */
    var current: Runner?
    /** How many times `OnStopAllRunners` was raised. */
    var stopBroadcasts: nat

    /** At most one registered runner is running, and it is the current one. */
    ghost predicate Exclusive()
      reads this, registered
    {
      forall r :: r in registered && r.state.Running? ==> r == current
    }

    constructor()
      ensures registered == {} && listeners == {} && current == null && stopBroadcasts == 0
      ensures Exclusive()
    {
      registered := {};
      listeners := {};
      current := null;
      stopBroadcasts := 0;
    }

    /** `IsAnyScriptRunning`. */
    predicate IsAnyScriptRunning()
      reads this
    {
      current != null
    }

    /** `OnStopAllRunners += runner.StopExecution`. */
    method AddStopListener(runner: Runner)
      modifies this
      ensures listeners == old(listeners) + {runner}
      ensures registered == old(registered) && current == old(current) && stopBroadcasts == old(stopBroadcasts)
    {
      listeners := listeners + {runner};
    }

    /** `OnStopAllRunners -= runner.StopExecution`. */
    method RemoveStopListener(runner: Runner)
      modifies this
      ensures listeners == old(listeners) - {runner}
      ensures registered == old(registered) && current == old(current) && stopBroadcasts == old(stopBroadcasts)
    {
      listeners := listeners - {runner};
    }

    /** `RegisterRunner`: a set, so registering twice changes nothing. */
    method RegisterRunner(runner: Runner)
      modifies this
      ensures registered == old(registered) + {runner} && listeners == old(listeners)
      ensures current == old(current) && stopBroadcasts == old(stopBroadcasts)
      ensures old(Exclusive()) && (runner.state.Reset? || runner == current) ==> Exclusive()
    {
      registered := registered + {runner};
    }

    /** `UnregisterRunner`: the current runner is cleared only when it is
        the one removed. */
    method UnregisterRunner(runner: Runner)
      modifies this
      ensures registered == old(registered) - {runner} && listeners == old(listeners)
      ensures current == if old(current) == runner then null else old(current)
      ensures stopBroadcasts == old(stopBroadcasts)
      ensures old(Exclusive()) ==> Exclusive()
    {
      registered := registered - {runner};
      if current == runner {
        current := null;
      }
    }

    /** `StopAllRunners`: raises `OnStopAllRunners`, so every subscribed
        runner runs `StopExecution`. Every subscriber stops executing; the
        current runner, if it was executing and subscribed, reports the stop
        and is cleared and reset; no other state changes. The handlers touch
        disjoint runners, so their order does not matter. */
    method StopAllRunners()
      modifies this, listeners
      ensures registered == old(registered) && listeners == old(listeners)
      ensures stopBroadcasts == old(stopBroadcasts) + 1
      ensures current == if StopsCurrent(old(current), listeners, old(current != null && current.executing))
        then null else old(current)
      ensures forall r :: r in listeners ==>
        !r.executing && r.state == if old(r.executing) && r == old(current) then Reset else old(r.state)
      ensures old(Exclusive()) ==> Exclusive()
    {
      stopBroadcasts := stopBroadcasts + 1;
      ghost var c0 := current;
      ghost var wasExecuting := current != null && current.executing;
      var left := listeners;
      while left != {}
        invariant left <= listeners == old(listeners) && registered == old(registered)
        invariant stopBroadcasts == old(stopBroadcasts) + 1
        invariant current == if StopsCurrent(c0, listeners - left, wasExecuting) then null else c0
        invariant forall r :: r in listeners && r !in left ==>
          !r.executing && r.state == if old(r.executing) && r == c0 then Reset else old(r.state)
        invariant forall r :: r in left ==> r.executing == old(r.executing) && r.state == old(r.state)
        invariant old(Exclusive()) ==> Exclusive()
        decreases left
      {
        var r :| r in left;
        r.StopExecution(this);
        left := left - {r};
      }
    }

    /** Whether raising `OnStopAllRunners` to `listeners` clears `current`. */
    static predicate StopsCurrent(current: Runner?, listeners: set<Runner>, executing: bool) {
      current != null && current in listeners && executing
    }

    /** `StartRunner`: stops everything, makes `runner` current, sets it
        Running if it is registered, and sets every other registered runner
        to Reset. */
    method StartRunner(runner: Runner)
      modifies this, registered, listeners
      ensures registered == old(registered) && listeners == old(listeners) && current == runner
      ensures stopBroadcasts == old(stopBroadcasts) + 1
      ensures forall r :: r in registered ==> r.state == if r == runner then Running else Reset
      ensures forall r :: r in listeners ==> !r.executing
      ensures forall r :: r in registered && r !in listeners ==> r.executing == old(r.executing)
      ensures runner !in registered ==>
        runner.state == if runner in listeners && old(runner.executing) && old(current) == runner
          then Reset else old(runner.state)
      ensures Exclusive()
    {
      StopAllRunners();
      current := runner;
      ghost var stopped := runner.state;
      var left := registered;
      while left != {}
        invariant left <= registered == old(registered) && listeners == old(listeners)
        invariant current == runner && stopBroadcasts == old(stopBroadcasts) + 1
        invariant forall r :: r in registered && r !in left ==> r.state == if r == runner then Running else Reset
        invariant forall r :: r in listeners ==> !r.executing
        invariant forall r :: r in registered && r !in listeners ==> r.executing == old(r.executing)
        invariant runner !in registered ==> runner.state == stopped
        decreases left
      {
        var r :| r in left;
        if r == runner {
          r.state := Running;
        } else {
          r.state := Reset;
        }
        left := left - {r};
      }
    }

    /** `ResetAllRunners`: stops everything, clears the current runner and
        sets every registered runner to Reset. */
    method ResetAllRunners()
      modifies this, registered, listeners
      ensures registered == old(registered) && listeners == old(listeners) && current == null
      ensures stopBroadcasts == old(stopBroadcasts) + 1
      ensures forall r :: r in registered ==> r.state == Reset
      ensures forall r :: r in listeners ==> !r.executing
      ensures forall r :: r in registered && r !in listeners ==> r.executing == old(r.executing)
      ensures Exclusive()
    {
      StopAllRunners();
      current := null;
      var left := registered;
      while left != {}
        invariant left <= registered == old(registered) && listeners == old(listeners)
        invariant current == null && stopBroadcasts == old(stopBroadcasts) + 1
        invariant forall r :: r in registered && r !in left ==> r.state == Reset
        invariant forall r :: r in listeners ==> !r.executing
        invariant forall r :: r in registered && r !in listeners ==> r.executing == old(r.executing)
        decreases left
      {
        var r :| r in left;
        r.state := Reset;
        left := left - {r};
      }
    }

    /** `OnScriptError` and `OnScriptComplete`, which are the same: when the
        runner is the current one, it is cleared and set to Reset; otherwise
        nothing changes. */
    method OnScriptFinished(runner: Runner)
      modifies this, runner
      ensures registered == old(registered) && listeners == old(listeners)
      ensures stopBroadcasts == old(stopBroadcasts) && runner.executing == old(runner.executing)
      ensures old(current) == runner ==> current == null && runner.state == Reset
      ensures old(current) != runner ==> current == old(current) && runner.state == old(runner.state)
      ensures old(Exclusive()) ==> Exclusive()
    {
      if current == runner {
        current := null;
        runner.state := Reset;
      }
    }

    method OnScriptError(runner: Runner)
      modifies this, runner
      ensures registered == old(registered) && listeners == old(listeners)
      ensures stopBroadcasts == old(stopBroadcasts) && runner.executing == old(runner.executing)
      ensures old(current) == runner ==> current == null && runner.state == Reset
      ensures old(current) != runner ==> current == old(current) && runner.state == old(runner.state)
      ensures old(Exclusive()) ==> Exclusive()
    {
      OnScriptFinished(runner);
    }

    method OnScriptComplete(runner: Runner)
      modifies this, runner
      ensures registered == old(registered) && listeners == old(listeners)
      ensures stopBroadcasts == old(stopBroadcasts) && runner.executing == old(runner.executing)
      ensures old(current) == runner ==> current == null && runner.state == Reset
      ensures old(current) != runner ==> current == old(current) && runner.state == old(runner.state)
      ensures old(Exclusive()) ==> Exclusive()
    {
      OnScriptFinished(runner);
    }

    /** `Cleanup`: forgets every runner, whatever its state. The event
        subscriptions stay, so a later stop still reaches those runners. */
    method Cleanup()
      modifies this
      ensures registered == {} && current == null
      ensures listeners == old(listeners) && stopBroadcasts == old(stopBroadcasts)
      ensures Exclusive()
    {
      registered := {};
      current := null;
    }
  }

  /** While no script is running, every registered runner shows Reset. */
  lemma {:induction false} IdleMeansAllReset(m: ScriptManager, r: Runner)
    requires m.Exclusive() && !m.IsAnyScriptRunning() && r in m.registered
    ensures r.state == Reset
  {
  }
}
