/** The host-command registry: the command tables of a scene's
    `GameControllerBase` (Scripts/GameControllerBase.cs) and the static
    bridge `GameBuiltinMethods` (Scripts/ProgramExec/GameBuiltinMethods.cs)
    through which the interpreter reaches them. The delegates a scene
    registers are opaque: a `handler` number stands for each, and running
    one shows up as a `Command` item of the routine. */
module Host {
  import opened Wrappers
  import opened Values
  import opened Routines
  import Text

  /** A `Dictionary<string, Func<object[], IEnumerator>>` of commands: the
      handler for each name, and the names in the order they were first
      added, which is the order `Keys` lists for a dictionary that never
      lost an entry. */
  datatype Table = Table(keys: seq<string>, handlers: map<string, nat>) {
    ghost predicate Valid() {
      (forall i, j :: 0 <= i < j < |keys| ==> keys[i] != keys[j]) &&
      (forall k :: k in handlers <==> k in keys)
    }

    predicate Has(name: string) {
      name in handlers
    }

    /** `table[name] = handler`: a new name goes to the end of the key
        order, a known one keeps its place and gets the new handler. */
    function Put(name: string, handler: nat): (t: Table)
      requires Valid()
      ensures t.Valid()
      ensures t.handlers == handlers[name := handler]
      ensures t.keys == (if Has(name) then keys else keys + [name])
    {
      if name in handlers then Table(keys, handlers[name := handler])
      else Table(keys + [name], handlers[name := handler])
    }
  }

  const EmptyTable: Table := Table([], map[])

  /** How many entries of a table have this name: 1 or 0. */
  function Count(t: Table, name: string): nat {
    if t.Has(name) then 1 else 0
  }

  /** Each name of a table is listed once. */
  lemma {:induction false} KeyCount(keys: seq<string>, name: string)
    requires forall i, j :: 0 <= i < j < |keys| ==> keys[i] != keys[j]
    ensures multiset(keys)[name] == (if name in keys then 1 else 0)
  {
    if keys != [] {
      var last := |keys| - 1;
      assert keys == keys[..last] + [keys[last]];
      KeyCount(keys[..last], name);
      assert keys[last] !in keys[..last];
    }
  }

  /** Registering a command changes the entry of that name and no other. */
  lemma {:induction false} PutKeepsOthers(t: Table, name: string, handler: nat, other: string)
    requires t.Valid() && other != name
    ensures t.Put(name, handler).Has(other) == t.Has(other)
    ensures t.Has(other) ==> t.Put(name, handler).handlers[other] == t.handlers[other]
    ensures t.Put(name, handler).Has(name) && t.Put(name, handler).handlers[name] == handler
  {
  }

  /** A scene's `GameControllerBase`: its two command tables and the
      results its predicates store. */
  class Controller {
    var actionCommands: Table
    var predicateCommands: Table
    var predicateResults: map<string, bool>
    /** What the scene's predicate commands report through
        `SetPredicateResult` as they run: one entry per run, in order, `None`
        for a run that reports nothing. The scene's code is not part of this
        model; this sequence stands in for it. */
    var reports: seq<Option<bool>>

    ghost predicate Valid()
      reads this
    {
      actionCommands.Valid() && predicateCommands.Valid()
    }

    constructor (reports: seq<Option<bool>>)
      ensures Valid()
      ensures actionCommands == EmptyTable && predicateCommands == EmptyTable
      ensures predicateResults == map[] && this.reports == reports
    {
      actionCommands := EmptyTable;
      predicateCommands := EmptyTable;
      predicateResults := map[];
      this.reports := reports;
    }

    /** `HasCommand` (GameControllerBase.cs:111-114). */
    predicate HasCommand(name: string)
      reads this
    {
      actionCommands.Has(name) || predicateCommands.Has(name)
    }

    /** A name is a command exactly when `GetAllCommandNames` lists it. */
    lemma {:induction false} HasCommandIffListed(name: string)
      requires Valid()
      ensures HasCommand(name) <==> name in GetAllCommandNames()
      ensures HasCommand(name) <==> name in actionCommands.keys || name in predicateCommands.keys
    {
      var names := GetAllCommandNames();
      assert names == actionCommands.keys + predicateCommands.keys;
    }

    /** `GetAllCommandNames` (GameControllerBase.cs:58-64): the action names,
        then the predicate names, each in registration order; a name in both
        tables is listed twice. */
    function GetAllCommandNames(): (names: seq<string>)
      requires Valid()
      reads this
      ensures |names| == |actionCommands.keys| + |predicateCommands.keys|
      ensures names[..|actionCommands.keys|] == actionCommands.keys
      ensures names[|actionCommands.keys|..] == predicateCommands.keys
      ensures forall name :: name in names <==> HasCommand(name)
      ensures forall name :: multiset(names)[name] == Count(actionCommands, name) + Count(predicateCommands, name)
    {
      var names := actionCommands.keys + predicateCommands.keys;
      forall name
        ensures multiset(names)[name] == Count(actionCommands, name) + Count(predicateCommands, name)
      {
        KeyCount(actionCommands.keys, name);
        KeyCount(predicateCommands.keys, name);
      }
      names
    }

    /** `RegisterAction` (GameControllerBase.cs:119-122). */
    method RegisterAction(name: string, handler: nat)
      requires Valid()
      modifies this
      ensures Valid()
      ensures actionCommands == old(actionCommands).Put(name, handler)
      ensures predicateCommands == old(predicateCommands)
      ensures predicateResults == old(predicateResults) && reports == old(reports)
    {
      actionCommands := actionCommands.Put(name, handler);
    }

    /** `RegisterPredicate` (GameControllerBase.cs:127-130). */
    method RegisterPredicate(name: string, handler: nat)
      requires Valid()
      modifies this
      ensures Valid()
      ensures predicateCommands == old(predicateCommands).Put(name, handler)
      ensures actionCommands == old(actionCommands)
      ensures predicateResults == old(predicateResults) && reports == old(reports)
    {
      predicateCommands := predicateCommands.Put(name, handler);
    }

    /** `SetPredicateResult` (GameControllerBase.cs:135-138). */
    method SetPredicateResult(name: string, result: bool)
      modifies this
      ensures predicateResults == old(predicateResults)[name := result]
      ensures actionCommands == old(actionCommands) && predicateCommands == old(predicateCommands)
      ensures reports == old(reports)
    {
      predicateResults := predicateResults[name := result];
    }

    /** `ExecuteActionCommand` (GameControllerBase.cs:69-79): the routine
        that runs the registered action, or throws for an unknown name. */
    function ActionRoutine(name: string, args: seq<Value>): (r: Routine)
      reads this
      ensures r.ending.Threw? <==> !actionCommands.Has(name)
      ensures r.ending.Threw? ==> r == Failed("Unknown action command: " + name)
      ensures actionCommands.Has(name) ==>
        r.ending == Exhausted && r.items == [Command(name, actionCommands.handlers[name], args)]
    {
      if actionCommands.Has(name) then Routine([Command(name, actionCommands.handlers[name], args)], Exhausted)
      else Failed("Unknown action command: " + name)
    }

    /** `ExecutePredicateCommand` (GameControllerBase.cs:84-106). The stored
        result is reset to false, the command runs and may report a result,
        and the stored result is handed on; an unknown name throws before
        any of this and the result callback is never called. */
    method ExecutePredicateCommand(name: string, args: seq<Value>) returns (r: Routine, result: Option<bool>)
      modifies this
      ensures actionCommands == old(actionCommands) && predicateCommands == old(predicateCommands)
      ensures !predicateCommands.Has(name) ==>
        r == Failed("Unknown predicate command: " + name) && result.None? &&
        predicateResults == old(predicateResults) && reports == old(reports)
      ensures predicateCommands.Has(name) ==>
        r == Routine([Command(name, predicateCommands.handlers[name], args)], Exhausted) &&
        result == Some(Reported(old(reports))) &&
        predicateResults == old(predicateResults)[name := Reported(old(reports))] &&
        reports == if old(reports) == [] then [] else old(reports)[1..]
    {
      if !predicateCommands.Has(name) {
        return Failed("Unknown predicate command: " + name), None;
      }
      predicateResults := predicateResults[name := false];
      var handler := predicateCommands.handlers[name];
      if |reports| > 0 {
        var report := reports[0];
        reports := reports[1..];
        if report.Some? {
          SetPredicateResult(name, report.value);
        }
      }
      var stored := if name in predicateResults then predicateResults[name] else false;
      r := Routine([Command(name, handler, args)], Exhausted);
      result := Some(stored);
    }
  }

  /** The result a predicate run hands on: what it reported, or false when
      it reported nothing. */
  function Reported(reports: seq<Option<bool>>): bool {
    reports != [] && reports[0] == Some(true)
  }

  /** The five names the bridge accepts in any letter case. */
  const LegacyNames: seq<string> := ["move", "collect", "plant", "can_move", "inventory_count"]

  /** Where `ExecuteBuiltinFunction` sends a name. */
  datatype Route = ToScene | NoController | Unknown

  /** Where `HandleSceneCommand` sends a name. */
  datatype SceneRoute = Action | Predicate | Missing

  /** The static class `GameBuiltinMethods`, holding the one registered scene
      controller. */
  class Builtins {
    var sceneController: Controller?

    constructor ()
      ensures sceneController == null
    {
      sceneController := null;
    }

    /** `RegisterGameController` (GameBuiltinMethods.cs:24-27). */
    method RegisterGameController(controller: Controller)
      modifies this
      ensures sceneController == controller
    {
      sceneController := controller;
    }

    /** `UnregisterGameController` (GameBuiltinMethods.cs:30-33). */
    method UnregisterGameController()
      modifies this
      ensures sceneController == null
    {
      sceneController := null;
    }

    /** `IsBuiltinFunction` (GameBuiltinMethods.cs:120-136). */
    predicate IsBuiltinFunction(name: string)
      reads this, sceneController
    {
      Text.ToLower(name) in LegacyNames || (sceneController != null && sceneController.HasCommand(name))
    }

    /** A name is built in exactly when its lower-case form is a legacy
        name or the scene lists it among its commands, in its own spelling. */
    lemma {:induction false} BuiltinIffNamed(name: string)
      requires sceneController != null ==> sceneController.Valid()
      ensures IsBuiltinFunction(name) <==>
        Text.ToLower(name) in LegacyNames ||
        (sceneController != null && name in sceneController.GetAllCommandNames())
    {
      if sceneController != null {
        sceneController.HasCommandIffListed(name);
      }
    }

    /** The switch of `ExecuteBuiltinFunction` (GameBuiltinMethods.cs:44-75). */
    function Dispatch(name: string): (k: Route)
      reads this, sceneController
      ensures k.Unknown? <==> !IsBuiltinFunction(name)
      ensures k.NoController? <==> sceneController == null && Text.ToLower(name) in LegacyNames
      ensures k.ToScene? ==> sceneController != null
    {
      if Text.ToLower(name) in LegacyNames then
        (if sceneController != null then ToScene else NoController)
      else if sceneController != null && sceneController.HasCommand(name) then ToScene
      else Unknown
    }

    /** The tests of `HandleSceneCommand` (GameBuiltinMethods.cs:87-117),
        which look the name up exactly as written. */
    function SceneDispatch(name: string): (k: SceneRoute)
      requires sceneController != null
      reads this, sceneController
      ensures k.Missing? <==> !sceneController.HasCommand(name)
      ensures k.Predicate? ==> sceneController.predicateCommands.Has(name)
      ensures k.Action? <==> sceneController.actionCommands.Has(name)
    {
      if sceneController.actionCommands.Has(name) then Action
      else if sceneController.predicateCommands.Has(name) then Predicate
      else Missing
    }

    /** A name reaches the scene but is not found there exactly when it is a
        legacy name the scene did not register in that spelling, such as
        `Move` next to a registered `move`. */
    lemma {:induction false} LegacyNameMissing(name: string)
      requires sceneController != null
      ensures Dispatch(name).ToScene? && SceneDispatch(name).Missing? <==>
        Text.ToLower(name) in LegacyNames && !sceneController.HasCommand(name)
    {
    }

    /** `HandleSceneCommand` (GameBuiltinMethods.cs:79-118): an action runs
        and gives null; a predicate runs and gives its bool; any other name
        throws. `value` is what reaches `setValue`, if anything does. */
    method HandleSceneCommand(name: string, args: seq<Value>) returns (r: Routine, value: Option<Value>)
      modifies sceneController
      ensures sceneController == old(sceneController)
      ensures value.Some? ==> value.value.Null? || value.value.Bool?
      ensures old(sceneController) == null ==>
        r == Failed("No scene controller registered for function '" + name + "'") && value.None?
      ensures old(sceneController) != null && old(SceneDispatch(name)).Missing? ==>
        r == Failed("Function '" + name + "' not found in scene controller") && value.None?
      ensures old(sceneController) != null && old(SceneDispatch(name)).Action? ==>
        r == Routine([Nested(old(sceneController.ActionRoutine(name, args)))], Exhausted) && value == Some(Null)
      ensures old(sceneController) != null && old(SceneDispatch(name)).Predicate? ==>
        r == Routine([Nested(Routine([Command(name, old(sceneController.predicateCommands.handlers[name]), args)], Exhausted))], Exhausted) &&
        value == Some(Bool(Reported(old(sceneController.reports))))
      ensures old(sceneController) != null ==>
        sceneController.actionCommands == old(sceneController.actionCommands) &&
        sceneController.predicateCommands == old(sceneController.predicateCommands)
    {
      if sceneController == null {
        return Failed("No scene controller registered for function '" + name + "'"), None;
      }
      match SceneDispatch(name)
      case Action =>
        var action := sceneController.ActionRoutine(name, args);
        r := Routine([Nested(action)], Exhausted);
        value := Some(Null);
      case Predicate =>
        var run, result := sceneController.ExecutePredicateCommand(name, args);
        r := Routine([Nested(run)], Exhausted);
        value := Some(Bool(result.value));
      case Missing =>
        r := Failed("Function '" + name + "' not found in scene controller");
        value := None;
    }

    /** `ExecuteBuiltinFunction` (GameBuiltinMethods.cs:41-76): a name the
        bridge knows is handed to the scene, a legacy name without a scene
        and any name the bridge does not know throw. */
    method ExecuteBuiltinFunction(name: string, args: seq<Value>) returns (r: Routine, value: Option<Value>)
      modifies sceneController
      ensures sceneController == old(sceneController)
      ensures value.Some? ==> value.value.Null? || value.value.Bool?
      ensures !old(IsBuiltinFunction(name)) ==>
        r == Failed("Unknown built-in function '" + name + "'") && value.None?
      ensures old(Dispatch(name)).NoController? ==>
        r == Failed("No scene controller registered for function '" + name + "'") && value.None?
      ensures old(Dispatch(name)).ToScene? ==>
        r.ending == Exhausted && |r.items| == 1 && r.items[0].Nested?
      ensures old(Dispatch(name)).ToScene? && old(SceneDispatch(name)).Predicate? ==>
        r == Routine([Nested(Routine([Nested(Routine([Command(name, old(sceneController.predicateCommands.handlers[name]), args)], Exhausted))], Exhausted))], Exhausted)
      ensures old(Dispatch(name)).ToScene? && old(SceneDispatch(name)).Action? ==>
        value == Some(Null) &&
        r == Routine([Nested(Routine([Nested(old(sceneController.ActionRoutine(name, args)))], Exhausted))], Exhausted)
      ensures old(Dispatch(name)).ToScene? && old(SceneDispatch(name)).Predicate? ==>
        value == Some(Bool(Reported(old(sceneController.reports))))
      ensures old(Dispatch(name)).ToScene? && old(SceneDispatch(name)).Missing? ==>
        value.None? && r == Routine([Nested(Failed("Function '" + name + "' not found in scene controller"))], Exhausted)
      ensures old(sceneController) != null ==>
        sceneController.actionCommands == old(sceneController.actionCommands) &&
        sceneController.predicateCommands == old(sceneController.predicateCommands)
    {
      match Dispatch(name)
      case ToScene =>
        var scene;
        scene, value := HandleSceneCommand(name, args);
        r := Routine([Nested(scene)], Exhausted);
      case NoController =>
        r := Failed("No scene controller registered for function '" + name + "'");
        value := None;
      case Unknown =>
        r := Failed("Unknown built-in function '" + name + "'");
        value := None;
    }

    /** `GetAllAvailableCommands` (GameBuiltinMethods.cs:139-153): the five
        legacy names, then the scene's names, with no duplicates removed. */
    function GetAllAvailableCommands(): (commands: seq<string>)
      requires sceneController != null ==> sceneController.Valid()
      reads this, sceneController
      ensures |commands| >= |LegacyNames| && commands[..|LegacyNames|] == LegacyNames
      ensures sceneController == null ==> commands == LegacyNames
      ensures sceneController != null ==> commands[|LegacyNames|..] == sceneController.GetAllCommandNames()
    {
      LegacyNames + (if sceneController == null then [] else sceneController.GetAllCommandNames())
    }

    /** The names offered for highlighting are exactly the names the bridge
        accepts, up to the letter case of the legacy names. */
    lemma {:induction false} AvailableAreBuiltins(name: string)
      requires sceneController != null ==> sceneController.Valid()
      ensures name in GetAllAvailableCommands() ==> IsBuiltinFunction(name)
      ensures IsBuiltinFunction(name) ==>
        name in GetAllAvailableCommands() || Text.ToLower(name) in GetAllAvailableCommands()
    {
      var commands := GetAllAvailableCommands();
      if name in commands {
        if name in LegacyNames {
          LegacyNamesAreLower(name);
        } else {
          var k :| 0 <= k < |commands| && commands[k] == name;
          assert k >= |LegacyNames|;
          assert name in commands[|LegacyNames|..];
        }
      }
      if IsBuiltinFunction(name) && Text.ToLower(name) !in LegacyNames {
        assert name in sceneController.GetAllCommandNames();
        assert commands == LegacyNames + sceneController.GetAllCommandNames();
      }
    }

    /** `ResetScene` (GameBuiltinMethods.cs:156-162): the scene's own reset,
        or nothing at all when no scene is registered. */
    function ResetScene(): (r: Routine)
      reads this
      ensures r.ending == Exhausted
      ensures r.items == [] <==> sceneController == null
      ensures r.items != [] ==> r.items == [SceneReset]
    {
      if sceneController == null then Finished() else Routine([SceneReset], Exhausted)
    }
  }

  lemma {:induction false} LegacyNamesAreLower(name: string)
    requires name in LegacyNames
    ensures Text.ToLower(name) == name
  {
    assert forall i :: 0 <= i < |name| ==> 'a' <= name[i] <= 'z' || name[i] == '_';
    Text.LowerWithoutCapitals(name);
  }
}
