/**
 * The action engine of src/actionManagement/contextActionsImpl.ts: a registry
 * of context-dependent actions, the three-sweep calculation that turns the
 * actions of one target into executable actions, the `onClick` of an
 * executable action, and the categorised label.
 *
 * The callbacks an action carries (its state calculator and the calculator's
 * hooks, its visibility filter, its UI display and converter, its `onClick`)
 * are code the engine cannot see. They are gathered in an `Env`: what each of
 * them returns, or whether it throws, may depend on everything that has
 * happened so far, which is the trace of calls the engine has made. The
 * engine's calls are recorded, in order, as `Event`s.
 */
module ContextActions {
  import opened Wrappers

  /** A context state: JavaScript `null`, or some other value the engine only passes along. */
  datatype Value = Null | Opaque(token: nat)

  /** A state calculator, by identity, and which of the two optional hooks it has. */
  datatype Calculator = Calculator(id: nat, hasStarted: bool, hasFinished: bool)

  /** The two optional hooks of a state calculator. */
  datatype Hook = Started | Finished

  /** What the `displayUI` field of a descriptor holds. Only a function makes a UI action. */
  datatype DisplayField = NoDisplay | DisplayFunction | DisplayObject

  /**
   * A registered action descriptor (IContextDependedAction, and the
   * IContextDependedUIAction extension).
   */
  datatype Action = Action(
    name: string,
    target: string,
    category: Option<seq<string>>,
    itemLabel: Option<string>,
    calculator: Option<Calculator>,
    hasShouldDisplay: bool,
    displayUI: DisplayField,
    hasConvertor: bool)

  /** An ExecutableAction: the fields copied from the descriptor, the state it was calculated with, and the descriptor. */
  datatype Executable = Executable(
    name: string,
    category: Option<seq<string>>,
    itemLabel: Option<string>,
    target: string,
    state: Value,
    original: Action)

  /**
   * What a callback throws, as the handlers see it. Every handler logs the
   * thrown value's `message`: that works for an ordinary value, but for `null`
   * or `undefined` reading `message` throws a TypeError inside the handler.
   */
  datatype Thrown = Ordinary | Nullish

  /** What a callback does: it returns a value, or it throws. */
  datatype Reply<+T> = Gave(value: T) | Raised(thrown: Thrown)

  /** Where an exception was caught and logged; `Outermost` is the `try` around all three sweeps. */
  datatype Sweep = InHook(hook: Hook) | InCalculation | Outermost

  /** The calls the engine makes, in the order it makes them. */
  datatype Event =
    | HookCalled(hook: Hook, calculatorId: nat)
    | CalculateCalled(calculatorId: nat)
    | ShouldDisplayCalled(action: string, state: Value)
    | ErrorLogged(sweep: Sweep)
    | ConvertorCalled(action: string, state: Value)
    | DisplayUICalled(action: string, initial: Value)
    | OnClickCalled(action: string, state: Value, uiState: Option<Value>)

  /** The foreign code an action carries, as functions of the calls made so far. */
  datatype Env = Env(
    // what a hook throws, if it throws
    hookThrows: (Hook, nat, seq<Event>) -> Option<Thrown>,
    calculate: (nat, seq<Event>) -> Reply<Value>,
    shouldDisplay: (string, Value, seq<Event>) -> Reply<bool>,
    convert: (string, Value) -> Value,
    // the UI states with which `displayUI` invokes its completion callback, in order
    displayUI: (string, Value) -> seq<Value>)

  /**
   * The calls of a hook sweep so far, and whether a `null` or `undefined` was
   * thrown, whose TypeError has left the sweep.
   */
  datatype Calls = Calls(trace: seq<Event>, aborted: bool)

  /**
   * The result so far of a calculation: executable actions produced, calls
   * made, and whether a TypeError has left the sweep.
   */
  datatype Progress = Progress(result: seq<Executable>, trace: seq<Event>, aborted: bool)

  // ---------------------------------------------------------------------------
  // Registry
  // ---------------------------------------------------------------------------

  /** The descriptor addSimpleAction builds: no state calculator, no label, no UI. */
  function SimpleAction(name: string, category: seq<string>, target: string, hasShouldDisplay: bool): (a: Action)
    ensures a.calculator.None? && a.itemLabel.None? && a.displayUI == NoDisplay && !a.hasConvertor
  {
    Action(name, target, Some(category), None, None, hasShouldDisplay, NoDisplay, false)
  }

  /** The module-level list of registered actions. */
  class ActionRegistry {
    var actions: seq<Action>

    /** No two registered actions share a name. */
    ghost predicate Valid()
      reads this
    {
      forall i, j :: 0 <= i < j < |actions| ==> actions[i].name != actions[j].name
    }

    predicate HasName(name: string)
      reads this
    {
      exists i :: 0 <= i < |actions| && actions[i].name == name
    }

    constructor()
      ensures actions == [] && Valid()
    {
      actions := [];
    }

    /** addAction: the first registration of a name wins; a new name goes to the end. */
    method AddAction(action: Action)
      modifies this
      ensures old(HasName(action.name)) ==> actions == old(actions)
      ensures !old(HasName(action.name)) ==> actions == old(actions) + [action]
      ensures HasName(action.name)
      ensures old(Valid()) ==> Valid()
    {
      if HasName(action.name) {
        return;
      }
      actions := actions + [action];
      assert actions[|actions| - 1].name == action.name;
    }

    /** addSimpleAction: registers a descriptor without state calculator under the same rule. */
    method AddSimpleAction(name: string, category: seq<string>, target: string, hasShouldDisplay: bool)
      modifies this
      ensures old(HasName(name)) ==> actions == old(actions)
      ensures !old(HasName(name)) ==> actions == old(actions) + [SimpleAction(name, category, target, hasShouldDisplay)]
      ensures old(Valid()) ==> Valid()
    {
      AddAction(SimpleAction(name, category, target, hasShouldDisplay));
    }

    /**
     * calculateCurrentActions: the start hooks of the actions of `target`, then
     * the calculation and filtering of each of them, then their finish hooks.
     * Nothing escapes: an exception is logged by the handler of its sweep, and
     * the TypeError a `null` or `undefined` raises there is logged by the outer
     * handler, which ends the run with the actions calculated so far.
     */
    method CalculateCurrentActions(target: string, env: Env) returns (result: seq<Executable>, trace: seq<Event>)
      ensures result == Pipeline(actions, target, env).result
      ensures trace == Pipeline(actions, target, env).trace
    {
      var filtered := Filtered(actions, target);
      var started, aborted := RunHooks(Started, filtered, env, []);
      result := [];
      trace := started;
      if aborted {
        trace := trace + [ErrorLogged(Outermost)];
        return;
      }
      var calls;
      result, calls, aborted := RunCalculations(filtered, env, trace);
      trace := trace + calls;
      if aborted {
        trace := trace + [ErrorLogged(Outermost)];
        return;
      }
      var finished;
      finished, aborted := RunHooks(Finished, filtered, env, trace);
      trace := trace + finished;
      if aborted {
        trace := trace + [ErrorLogged(Outermost)];
      }
    }
  }

  /**
   * One hook sweep: each action's calculator hook, if it has one. An ordinary
   * exception is logged and the sweep goes on; a `null` or `undefined` leaves it.
   */
  method RunHooks(h: Hook, filtered: seq<Action>, env: Env, before: seq<Event>) returns (calls: seq<Event>, aborted: bool)
    ensures Calls(calls, aborted) == HookSweep(h, filtered, env, before)
  {
    calls := [];
    aborted := false;
    var i := 0;
    while i < |filtered| && !aborted
      invariant 0 <= i <= |filtered|
      invariant Calls(calls, aborted) == HookSweep(h, filtered[..i], env, before)
    {
      var action := filtered[i];
      ghost var prev := calls;
      ghost var step := HookStep(h, action, env, before + prev);
      HookSweepNext(h, filtered, i, env, before, Calls(calls, aborted));
      if action.calculator.Some? && HasHook(action.calculator.value, h) {
        var id := action.calculator.value.id;
        var thrown := env.hookThrows(h, id, before + calls);
        calls := calls + [HookCalled(h, id)];
        if thrown == Some(Ordinary) {
          calls := calls + [ErrorLogged(InHook(h))];
          assert step.trace == [HookCalled(h, id), ErrorLogged(InHook(h))];
        } else if thrown == Some(Nullish) {
          aborted := true;
        }
      }
      assert calls == prev + step.trace && aborted == step.aborted;
      i := i + 1;
    }
    HookSweepSplits(h, filtered[..i], filtered[i..], env, before);
    assert filtered[..i] + filtered[i..] == filtered;
  }

  /** The hook sweep over the first i + 1 actions, from the one over the first i. */
  lemma HookSweepNext(h: Hook, fs: seq<Action>, i: nat, env: Env, t: seq<Event>, c: Calls)
    requires i < |fs| && c == HookSweep(h, fs[..i], env, t) && !c.aborted
    ensures var step := HookStep(h, fs[i], env, t + c.trace);
      HookSweep(h, fs[..i + 1], env, t) == Calls(c.trace + step.trace, step.aborted)
  {
    assert fs[..i + 1] == fs[..i] + [fs[i]];
    HookSweepLast(h, fs[..i], fs[i], env, t);
  }

  /**
   * The calculation sweep: each action in turn, whatever ordinary exception
   * the ones before it threw, until a `null` or `undefined` is thrown.
   */
  method RunCalculations(filtered: seq<Action>, env: Env, before: seq<Event>)
    returns (result: seq<Executable>, calls: seq<Event>, aborted: bool)
    ensures Progress(result, calls, aborted) == CalcSweep(filtered, env, before)
  {
    result := [];
    calls := [];
    aborted := false;
    var i := 0;
    while i < |filtered| && !aborted
      invariant 0 <= i <= |filtered|
      invariant Progress(result, calls, aborted) == CalcSweep(filtered[..i], env, before)
    {
      var kept, made;
      kept, made, aborted := CalculateOne(filtered[i], env, before + calls);
      assert filtered[..i + 1] == filtered[..i] + [filtered[i]];
      CalcSweepLast(filtered[..i], filtered[i], env, before);
      result := result + kept;
      calls := calls + made;
      i := i + 1;
    }
    CalcSweepSplits(filtered[..i], filtered[i..], env, before);
    assert filtered[..i] + filtered[i..] == filtered;
  }

  /**
   * The body of the calculation sweep for one action: its state, `null`
   * without a calculator, then its visibility filter. An ordinary exception
   * from either is logged and drops the action alone; a `null` or `undefined`
   * leaves the sweep.
   */
  method CalculateOne(action: Action, env: Env, before: seq<Event>)
    returns (kept: seq<Executable>, calls: seq<Event>, aborted: bool)
    ensures Progress(kept, calls, aborted) == CalcStep(action, env, before)
  {
    kept := [];
    calls := [];
    aborted := false;
    var state: Reply<Value> := Gave(Null);
    if action.calculator.Some? {
      state := env.calculate(action.calculator.value.id, before);
      calls := [CalculateCalled(action.calculator.value.id)];
    }
    if state.Raised? {
      if state.thrown == Ordinary {
        calls := calls + [ErrorLogged(InCalculation)];
      } else {
        aborted := true;
      }
    } else if !action.hasShouldDisplay {
      kept := [NewExecutable(action, state.value)];
    } else {
      var show := env.shouldDisplay(action.name, state.value, before + calls);
      calls := calls + [ShouldDisplayCalled(action.name, state.value)];
      if show.Raised? {
        if show.thrown == Ordinary {
          calls := calls + [ErrorLogged(InCalculation)];
        } else {
          aborted := true;
        }
      } else if show.value {
        kept := [NewExecutable(action, state.value)];
      }
    }
  }

  /** instanceofUIAction: only a `displayUI` that is a function makes a UI action. */
  predicate IsUIAction(a: Action) {
    a.displayUI == DisplayFunction
  }

  // ---------------------------------------------------------------------------
  // The calculation, as functions of the registered actions
  // ---------------------------------------------------------------------------

  /** The actions registered for `target`, in registration order. */
  function Filtered(actions: seq<Action>, target: string): (r: seq<Action>)
    ensures |r| <= |actions|
  {
    if actions == [] then []
    else Filtered(actions[..|actions| - 1], target)
         + (if actions[|actions| - 1].target == target then [actions[|actions| - 1]] else [])
  }

  predicate HasHook(c: Calculator, h: Hook) {
    if h == Started then c.hasStarted else c.hasFinished
  }

  /** The calls one action's hook makes in a sweep, given the calls made before it. */
  function HookStep(h: Hook, a: Action, env: Env, t: seq<Event>): Calls {
    if a.calculator.Some? && HasHook(a.calculator.value, h) then
      var id := a.calculator.value.id;
      match env.hookThrows(h, id, t)
      case None => Calls([HookCalled(h, id)], false)
      case Some(Ordinary) => Calls([HookCalled(h, id), ErrorLogged(InHook(h))], false)
      case Some(Nullish) => Calls([HookCalled(h, id)], true)
    else Calls([], false)
  }

  /** The calls a hook sweep over `fs` makes after the calls `t`; it stops where it is left. */
  function HookSweep(h: Hook, fs: seq<Action>, env: Env, t: seq<Event>): Calls {
    if fs == [] then Calls([], false)
    else
      var before := HookSweep(h, fs[..|fs| - 1], env, t);
      if before.aborted then before
      else
        var step := HookStep(h, fs[|fs| - 1], env, t + before.trace);
        Calls(before.trace + step.trace, step.aborted)
  }

  /** `new ExecutableAction(action, state)` */
  function NewExecutable(a: Action, state: Value): Executable {
    Executable(a.name, a.category, a.itemLabel, a.target, state, a)
  }

  /** What the handler of the calculation sweep does with an exception thrown after the calls `calls`. */
  function Caught(thrown: Thrown, calls: seq<Event>): Progress {
    if thrown == Ordinary then Progress([], calls + [ErrorLogged(InCalculation)], false)
    else Progress([], calls, true)
  }

  /** What the calculation sweep produces for one action, given the calls made before it. */
  function CalcStep(a: Action, env: Env, t: seq<Event>): Progress {
    var state := if a.calculator.Some? then env.calculate(a.calculator.value.id, t) else Gave(Null);
    var asked := if a.calculator.Some? then [CalculateCalled(a.calculator.value.id)] else [];
    if state.Raised? then Caught(state.thrown, asked)
    else if !a.hasShouldDisplay then Progress([NewExecutable(a, state.value)], asked, false)
    else
      var filtered := asked + [ShouldDisplayCalled(a.name, state.value)];
      match env.shouldDisplay(a.name, state.value, t + asked)
      case Raised(thrown) => Caught(thrown, filtered)
      case Gave(show) => Progress(if show then [NewExecutable(a, state.value)] else [], filtered, false)
  }

  /** What the calculation sweep over `fs` produces after the calls `t`; it stops where it is left. */
  function CalcSweep(fs: seq<Action>, env: Env, t: seq<Event>): Progress {
    if fs == [] then Progress([], [], false)
    else
      var before := CalcSweep(fs[..|fs| - 1], env, t);
      if before.aborted then before
      else
        var step := CalcStep(fs[|fs| - 1], env, t + before.trace);
        Progress(before.result + step.result, before.trace + step.trace, step.aborted)
  }

  /**
   * calculateCurrentActions, as a function of the registry. A sweep that is
   * left ends the run: the outer handler logs the TypeError, no later sweep
   * runs, and the actions calculated so far are returned. `aborted` tells
   * whether the outer handler ran.
   */
  function Pipeline(actions: seq<Action>, target: string, env: Env): Progress {
    var fs := Filtered(actions, target);
    var started := HookSweep(Started, fs, env, []);
    if started.aborted then Progress([], started.trace + [ErrorLogged(Outermost)], true)
    else
      var calculation := CalcSweep(fs, env, started.trace);
      var calculated := started.trace + calculation.trace;
      if calculation.aborted then Progress(calculation.result, calculated + [ErrorLogged(Outermost)], true)
      else
        var finished := HookSweep(Finished, fs, env, calculated);
        Progress(calculation.result,
                 calculated + finished.trace + (if finished.aborted then [ErrorLogged(Outermost)] else []),
                 finished.aborted)
  }

  // ---------------------------------------------------------------------------
  // Order: targets and registration order
  // ---------------------------------------------------------------------------

  /** xs is ys with some elements left out, the rest in their order. */
  predicate IsSubsequence<T(==)>(xs: seq<T>, ys: seq<T>)
    decreases |ys|
  {
    xs == [] ||
    (ys != [] &&
     ((xs[|xs| - 1] == ys[|ys| - 1] && IsSubsequence(xs[..|xs| - 1], ys[..|ys| - 1]))
      || IsSubsequence(xs, ys[..|ys| - 1])))
  }

  lemma {:induction false} SubsequenceMembers<T>(xs: seq<T>, ys: seq<T>)
    requires IsSubsequence(xs, ys)
    ensures forall x :: x in xs ==> x in ys
    decreases |ys|
  {
    if xs != [] {
      if xs[|xs| - 1] == ys[|ys| - 1] && IsSubsequence(xs[..|xs| - 1], ys[..|ys| - 1]) {
        SubsequenceMembers(xs[..|xs| - 1], ys[..|ys| - 1]);
        forall x | x in xs ensures x in ys {
          if x != xs[|xs| - 1] {
            assert xs == xs[..|xs| - 1] + [xs[|xs| - 1]];
            assert x in xs[..|xs| - 1];
            assert ys == ys[..|ys| - 1] + [ys[|ys| - 1]];
          }
        }
      } else {
        SubsequenceMembers(xs, ys[..|ys| - 1]);
        assert ys == ys[..|ys| - 1] + [ys[|ys| - 1]];
      }
    }
  }

  /** Appending to both sides, or to the longer side alone, keeps a subsequence. */
  lemma SubsequenceExtend<T>(xs: seq<T>, ys: seq<T>, y: T, keep: bool)
    requires IsSubsequence(xs, ys)
    ensures IsSubsequence(xs + (if keep then [y] else []), ys + [y])
  {
    var xs' := xs + (if keep then [y] else []);
    var ys' := ys + [y];
    assert ys'[..|ys'| - 1] == ys;
    if keep {
      assert xs'[..|xs'| - 1] == xs;
      assert xs'[|xs'| - 1] == ys'[|ys'| - 1];
    } else {
      assert xs' == xs;
      if xs != [] {
        assert IsSubsequence(xs, ys'[..|ys'| - 1]);
      }
    }
  }

  /** Filtered keeps exactly the actions of the target, in registration order. */
  lemma {:induction false} FilteredSelects(actions: seq<Action>, target: string)
    ensures forall a :: a in Filtered(actions, target) <==> a in actions && a.target == target
    ensures IsSubsequence(Filtered(actions, target), actions)
  {
    if actions != [] {
      var init := actions[..|actions| - 1];
      var last := actions[|actions| - 1];
      FilteredSelects(init, target);
      assert actions == init + [last];
      SubsequenceExtend(Filtered(init, target), init, last, last.target == target);
    }
  }

  /** The originals of a sequence of executable actions. */
  function Originals(rs: seq<Executable>): (os: seq<Action>)
    ensures |os| == |rs|
  {
    if rs == [] then [] else Originals(rs[..|rs| - 1]) + [rs[|rs| - 1].original]
  }

  lemma {:induction false} OriginalsAppend(rs: seq<Executable>, ss: seq<Executable>)
    ensures Originals(rs + ss) == Originals(rs) + Originals(ss)
    decreases |ss|
  {
    if ss != [] {
      var init := ss[..|ss| - 1];
      assert (rs + ss)[..|rs + ss| - 1] == rs + init;
      assert (rs + ss)[|rs + ss| - 1] == ss[|ss| - 1];
      OriginalsAppend(rs, init);
      assert Originals(ss) == Originals(init) + [ss[|ss| - 1].original];
    } else {
      assert rs + ss == rs;
    }
  }

  /** A kept executable copies its descriptor and carries `null` when the descriptor has no calculator. */
  predicate Faithful(r: Executable) {
    r == NewExecutable(r.original, r.state) && (r.original.calculator.None? ==> r.state == Null)
  }

  lemma CalcStepKeepsAtMostItself(a: Action, env: Env, t: seq<Event>)
    ensures var s := CalcStep(a, env, t);
      s.result == [] || (|s.result| == 1 && s.result[0].original == a && Faithful(s.result[0]))
  {
  }

  /** The calculation sweep keeps some of its actions, in their order, each with a faithful copy. */
  lemma {:induction false} CalcSweepOrder(fs: seq<Action>, env: Env, t: seq<Event>)
    ensures var p := CalcSweep(fs, env, t);
      IsSubsequence(Originals(p.result), fs) && forall r :: r in p.result ==> Faithful(r)
  {
    if fs != [] {
      var init := fs[..|fs| - 1];
      var a := fs[|fs| - 1];
      SplitLast([], fs);
      CalcSweepOrder(init, env, t);
      CalcSweepLast(init, a, env, t);
      var before := CalcSweep(init, env, t);
      if before.aborted {
        SubsequenceExtend(Originals(before.result), init, a, false);
      } else {
        var step := CalcStep(a, env, t + before.trace);
        CalcStepKeepsAtMostItself(a, env, t + before.trace);
        KeptInOrder(before.result, step.result, init, a);
      }
    }
  }

  /** Adding what one step keeps to what the steps before it kept. */
  lemma KeptInOrder(kept: seq<Executable>, more: seq<Executable>, init: seq<Action>, a: Action)
    requires IsSubsequence(Originals(kept), init) && forall r :: r in kept ==> Faithful(r)
    requires |more| <= 1 && forall r :: r in more ==> r.original == a && Faithful(r)
    ensures IsSubsequence(Originals(kept + more), init + [a]) && forall r :: r in kept + more ==> Faithful(r)
  {
    OriginalsAppend(kept, more);
    if more == [] {
      assert kept + more == kept;
    } else {
      assert more[..0] == [];
      assert Originals(more) == [a];
    }
    SubsequenceExtend(Originals(kept), init, a, more != []);
  }

  /**
   * calculateCurrentActions returns only actions of the queried target, in
   * registration order, each a copy of its descriptor with the state it was
   * calculated with, and `null` for a descriptor without state calculator;
   * this holds of the partial result the outer handler returns too.
   */
  lemma PipelineTargetsAndOrder(actions: seq<Action>, target: string, env: Env)
    ensures var r := Pipeline(actions, target, env).result;
      IsSubsequence(Originals(r), Filtered(actions, target))
      && forall e :: e in r ==> e.target == target && e.original in actions && Faithful(e)
  {
    var fs := Filtered(actions, target);
    var started := HookSweep(Started, fs, env, []);
    var r := Pipeline(actions, target, env).result;
    if started.aborted {
      assert r == [];
    } else {
      assert r == CalcSweep(fs, env, started.trace).result;
      CalcSweepOrder(fs, env, started.trace);
      SubsequenceMembers(Originals(r), fs);
      FilteredSelects(actions, target);
      forall e | e in r ensures e.target == target && e.original in actions {
        var k :| 0 <= k < |r| && r[k] == e;
        OriginalsAt(r, k);
      }
    }
  }

  lemma {:induction false} OriginalsAt(rs: seq<Executable>, k: nat)
    requires k < |rs|
    ensures Originals(rs)[k] == rs[k].original
  {
    if k < |rs| - 1 {
      OriginalsAt(rs[..|rs| - 1], k);
    }
  }

  // ---------------------------------------------------------------------------
  // Order: the three sweeps and the outer handler
  // ---------------------------------------------------------------------------

  /**
   * 0 for the start sweep, 1 for the calculation sweep, 2 for the finish
   * sweep, 3 for the outer handler, 4 for triggering.
   */
  function Phase(e: Event): nat {
    match e
    case HookCalled(h, _) => if h == Started then 0 else 2
    case CalculateCalled(_) => 1
    case ShouldDisplayCalled(_, _) => 1
    case ErrorLogged(s) =>
      if s == InHook(Started) then 0 else if s == InCalculation then 1 else if s == Outermost then 3 else 2
    case _ => 4
  }

  predicate AllInPhase(es: seq<Event>, k: nat) {
    forall i :: 0 <= i < |es| ==> Phase(es[i]) == k
  }

  /** No call of a later sweep comes before a call of an earlier one. */
  predicate PhaseOrdered(es: seq<Event>) {
    forall i, j :: 0 <= i < j < |es| ==> Phase(es[i]) <= Phase(es[j])
  }

  lemma AllInPhaseAppend(xs: seq<Event>, ys: seq<Event>, k: nat)
    requires AllInPhase(xs, k) && AllInPhase(ys, k)
    ensures AllInPhase(xs + ys, k)
  {
    forall i | 0 <= i < |xs + ys| ensures Phase((xs + ys)[i]) == k {
      if i < |xs| {
        assert (xs + ys)[i] == xs[i];
      } else {
        assert (xs + ys)[i] == ys[i - |xs|];
      }
    }
  }

  lemma {:induction false} HookSweepPhase(h: Hook, fs: seq<Action>, env: Env, t: seq<Event>)
    ensures AllInPhase(HookSweep(h, fs, env, t).trace, if h == Started then 0 else 2)
  {
    if fs != [] {
      var k := if h == Started then 0 else 2;
      var init := fs[..|fs| - 1];
      var a := fs[|fs| - 1];
      SplitLast([], fs);
      HookSweepPhase(h, init, env, t);
      HookSweepLast(h, init, a, env, t);
      var before := HookSweep(h, init, env, t);
      if !before.aborted {
        var step := HookStep(h, a, env, t + before.trace).trace;
        assert AllInPhase(step, k);
        AllInPhaseAppend(before.trace, step, k);
      }
    }
  }

  lemma CalcStepPhase(a: Action, env: Env, t: seq<Event>)
    ensures AllInPhase(CalcStep(a, env, t).trace, 1)
  {
    var s := CalcStep(a, env, t);
    assert forall e :: e in s.trace ==> e.CalculateCalled? || e.ShouldDisplayCalled? || e == ErrorLogged(InCalculation);
  }

  lemma {:induction false} CalcSweepPhase(fs: seq<Action>, env: Env, t: seq<Event>)
    ensures AllInPhase(CalcSweep(fs, env, t).trace, 1)
  {
    if fs != [] {
      var init := fs[..|fs| - 1];
      var a := fs[|fs| - 1];
      SplitLast([], fs);
      CalcSweepPhase(init, env, t);
      CalcSweepLast(init, a, env, t);
      var before := CalcSweep(init, env, t);
      if !before.aborted {
        var step := CalcStep(a, env, t + before.trace).trace;
        CalcStepPhase(a, env, t + before.trace);
        AllInPhaseAppend(before.trace, step, 1);
      }
    }
  }

  /** The calls of a run, sweep by sweep, then the outer handler's log if it ran. */
  lemma PipelineSegments(actions: seq<Action>, target: string, env: Env)
    returns (e0: seq<Event>, e1: seq<Event>, e2: seq<Event>, e3: seq<Event>)
    ensures Pipeline(actions, target, env).trace == e0 + e1 + e2 + e3
    ensures AllInPhase(e0, 0) && AllInPhase(e1, 1) && AllInPhase(e2, 2)
    ensures e3 == if Pipeline(actions, target, env).aborted then [ErrorLogged(Outermost)] else []
  {
    var fs := Filtered(actions, target);
    var started := HookSweep(Started, fs, env, []);
    var calculation := CalcSweep(fs, env, started.trace);
    var finished := HookSweep(Finished, fs, env, started.trace + calculation.trace);
    HookSweepPhase(Started, fs, env, []);
    CalcSweepPhase(fs, env, started.trace);
    HookSweepPhase(Finished, fs, env, started.trace + calculation.trace);
    e0 := started.trace;
    e1 := if started.aborted then [] else calculation.trace;
    e2 := if started.aborted || calculation.aborted then [] else finished.trace;
    e3 := if Pipeline(actions, target, env).aborted then [ErrorLogged(Outermost)] else [];
    if started.aborted {
      assert e0 + e1 + e2 + e3 == started.trace + [ErrorLogged(Outermost)];
    } else if calculation.aborted {
      assert e0 + e1 + e2 + e3 == started.trace + calculation.trace + [ErrorLogged(Outermost)];
    }
  }

  lemma PhasesInOrder(e0: seq<Event>, e1: seq<Event>, e2: seq<Event>, e3: seq<Event>)
    requires AllInPhase(e0, 0) && AllInPhase(e1, 1) && AllInPhase(e2, 2) && AllInPhase(e3, 3)
    ensures PhaseOrdered(e0 + e1 + e2 + e3)
  {
    var es := e0 + e1 + e2 + e3;
    forall i | 0 <= i < |es|
      ensures Phase(es[i]) == if i < |e0| then 0 else if i < |e0| + |e1| then 1 else if i < |e0| + |e1| + |e2| then 2 else 3
    {
      if i >= |e0| + |e1| + |e2| {
        assert es[i] == e3[i - |e0| - |e1| - |e2|];
      } else if i >= |e0| + |e1| {
        assert es[i] == e2[i - |e0| - |e1|];
      } else if i >= |e0| {
        assert es[i] == e1[i - |e0|];
      } else {
        assert es[i] == e0[i];
      }
    }
  }

  /**
   * Every start hook is called before the first `calculate`, and every finish
   * hook after the last one; a logged error sits in the sweep that caught it,
   * and the outer handler's comes after all of them.
   */
  lemma PipelinePhases(actions: seq<Action>, target: string, env: Env)
    ensures PhaseOrdered(Pipeline(actions, target, env).trace)
  {
    var e0, e1, e2, e3 := PipelineSegments(actions, target, env);
    PhasesInOrder(e0, e1, e2, e3);
  }

  /**
   * The outer handler runs exactly when a `null` or `undefined` was thrown; it
   * logs one error, as the last thing the run does.
   */
  lemma PipelineOuterCatch(actions: seq<Action>, target: string, env: Env)
    ensures var p := Pipeline(actions, target, env);
      (p.aborted <==> ErrorLogged(Outermost) in p.trace)
      && (p.aborted ==> p.trace[|p.trace| - 1] == ErrorLogged(Outermost)
                        && ErrorLogged(Outermost) !in p.trace[..|p.trace| - 1])
  {
    var p := Pipeline(actions, target, env);
    var e0, e1, e2, e3 := PipelineSegments(actions, target, env);
    var sweeps := e0 + e1 + e2;
    forall i | 0 <= i < |sweeps| ensures Phase(sweeps[i]) <= 2 {
      if i >= |e0| + |e1| {
        assert sweeps[i] == e2[i - |e0| - |e1|];
      } else if i >= |e0| {
        assert sweeps[i] == e1[i - |e0|];
      } else {
        assert sweeps[i] == e0[i];
      }
    }
    assert ErrorLogged(Outermost) !in sweeps;
    if p.aborted {
      assert p.trace[..|p.trace| - 1] == sweeps;
    } else {
      assert p.trace == sweeps;
    }
  }

  // ---------------------------------------------------------------------------
  // Counts: one call per action, not per calculator
  // ---------------------------------------------------------------------------

  /** The calls a trace makes to one kind of calculator entry point. */
  datatype Entry = HookEntry(hook: Hook) | CalculateEntry

  function CallOf(e: Event, k: Entry): Option<nat> {
    match e
    case HookCalled(h, id) => if k == HookEntry(h) then Some(id) else None
    case CalculateCalled(id) => if k == CalculateEntry then Some(id) else None
    case _ => None
  }

  /** The calculator ids of the calls to entry `k` in `es`, in order. */
  function CalledIds(es: seq<Event>, k: Entry): (r: seq<nat>)
    ensures |r| <= |es|
  {
    if es == [] then []
    else
      var last := CallOf(es[|es| - 1], k);
      CalledIds(es[..|es| - 1], k) + (if last.Some? then [last.value] else [])
  }

  /** Whether action `a` has entry `k`. */
  predicate Holds(a: Action, k: Entry) {
    a.calculator.Some? && (k.HookEntry? ==> HasHook(a.calculator.value, k.hook))
  }

  /** The calculator ids of the actions in `fs` that have entry `k`, in order, repeats included. */
  function HolderIds(fs: seq<Action>, k: Entry): (r: seq<nat>)
    ensures |r| <= |fs|
  {
    if fs == [] then []
    else
      var a := fs[|fs| - 1];
      HolderIds(fs[..|fs| - 1], k) + (if Holds(a, k) then [a.calculator.value.id] else [])
  }

  lemma {:induction false} CalledIdsAppend(es: seq<Event>, fs: seq<Event>, k: Entry)
    ensures CalledIds(es + fs, k) == CalledIds(es, k) + CalledIds(fs, k)
    decreases |fs|
  {
    if fs != [] {
      assert (es + fs)[..|es + fs| - 1] == es + fs[..|fs| - 1];
      CalledIdsAppend(es, fs[..|fs| - 1], k);
      assert (es + fs)[|es + fs| - 1] == fs[|fs| - 1];
    } else {
      assert es + fs == es;
    }
  }

  /** A prefix of a prefix is a prefix. */
  lemma PrefixOfPrefix(xs: seq<nat>, ys: seq<nat>, zs: seq<nat>)
    requires xs <= ys && ys <= zs
    ensures xs <= zs
  {
    assert xs == ys[..|xs|];
    assert ys == zs[..|ys|];
    assert zs[..|ys|][..|xs|] == zs[..|xs|];
  }

  lemma HookStepCalls(h: Hook, a: Action, env: Env, t: seq<Event>, k: Entry)
    ensures CalledIds(HookStep(h, a, env, t).trace, k)
      == if k == HookEntry(h) && Holds(a, k) then [a.calculator.value.id] else []
  {
    var tr := HookStep(h, a, env, t).trace;
    if tr != [] {
      assert tr[..1] == [tr[0]];
      if |tr| == 2 {
        assert tr[..|tr| - 1] == tr[..1];
      }
      assert tr[..1][..0] == [];
    }
  }

  /**
   * A hook sweep calls its hook once per action that has it, in order, and
   * nothing else; a sweep that is left has made a prefix of those calls.
   */
  lemma {:induction false} HookSweepCalls(h: Hook, fs: seq<Action>, env: Env, t: seq<Event>, k: Entry)
    ensures var c := HookSweep(h, fs, env, t);
      var all := if k == HookEntry(h) then HolderIds(fs, k) else [];
      CalledIds(c.trace, k) <= all && (!c.aborted ==> CalledIds(c.trace, k) == all)
  {
    if fs != [] {
      var init := fs[..|fs| - 1];
      var a := fs[|fs| - 1];
      var before := HookSweep(h, init, env, t);
      HookSweepCalls(h, init, env, t, k);
      var allInit := if k == HookEntry(h) then HolderIds(init, k) else [];
      var all := if k == HookEntry(h) then HolderIds(fs, k) else [];
      var added := if k == HookEntry(h) && Holds(a, k) then [a.calculator.value.id] else [];
      assert all == allInit + added;
      if before.aborted {
        PrefixOfPrefix(CalledIds(before.trace, k), allInit, all);
      } else {
        var step := HookStep(h, a, env, t + before.trace);
        CalledIdsAppend(before.trace, step.trace, k);
        HookStepCalls(h, a, env, t + before.trace, k);
      }
    }
  }

  /** The calculation sweep calls `calculate` once per action with a calculator, in order; a sweep that is left, a prefix of those. */
  lemma {:induction false} CalcSweepCalls(fs: seq<Action>, env: Env, t: seq<Event>, k: Entry)
    ensures var p := CalcSweep(fs, env, t);
      var all := if k == CalculateEntry then HolderIds(fs, k) else [];
      CalledIds(p.trace, k) <= all && (!p.aborted ==> CalledIds(p.trace, k) == all)
  {
    if fs != [] {
      var init := fs[..|fs| - 1];
      var a := fs[|fs| - 1];
      var before := CalcSweep(init, env, t);
      CalcSweepCalls(init, env, t, k);
      var allInit := if k == CalculateEntry then HolderIds(init, k) else [];
      var all := if k == CalculateEntry then HolderIds(fs, k) else [];
      var added := if k == CalculateEntry && Holds(a, k) then [a.calculator.value.id] else [];
      assert all == allInit + added;
      if before.aborted {
        PrefixOfPrefix(CalledIds(before.trace, k), allInit, all);
      } else {
        var step := CalcStep(a, env, t + before.trace);
        CalledIdsAppend(before.trace, step.trace, k);
        CalcStepCalls(a, env, t + before.trace, k);
      }
    }
  }

  lemma CalcStepCalls(a: Action, env: Env, t: seq<Event>, k: Entry)
    ensures CalledIds(CalcStep(a, env, t).trace, k)
      == if k == CalculateEntry && a.calculator.Some? then [a.calculator.value.id] else []
  {
    var asked: seq<Event> := if a.calculator.Some? then [CalculateCalled(a.calculator.value.id)] else [];
    var rest := CalcStepTrace(a, env, t);
    CalledIdsAppend(asked, rest, k);
    NoCalls(rest, k);
    if asked != [] {
      assert asked[..0] == [];
    }
  }

  /** The calls of one action's calculation: `calculate` first, if any, then only the filter and logged errors. */
  lemma CalcStepTrace(a: Action, env: Env, t: seq<Event>) returns (rest: seq<Event>)
    ensures CalcStep(a, env, t).trace
      == (if a.calculator.Some? then [CalculateCalled(a.calculator.value.id)] else []) + rest
    ensures forall i :: 0 <= i < |rest| ==> rest[i].ShouldDisplayCalled? || rest[i].ErrorLogged?
  {
    var state := if a.calculator.Some? then env.calculate(a.calculator.value.id, t) else Gave(Null);
    var asked: seq<Event> := if a.calculator.Some? then [CalculateCalled(a.calculator.value.id)] else [];
    if state.Raised? {
      rest := if state.thrown == Ordinary then [ErrorLogged(InCalculation)] else [];
    } else if !a.hasShouldDisplay {
      rest := [];
    } else {
      var show := env.shouldDisplay(a.name, state.value, t + asked);
      if show.Raised? {
        rest := [ShouldDisplayCalled(a.name, state.value)] + if show.thrown == Ordinary then [ErrorLogged(InCalculation)] else [];
      } else {
        rest := [ShouldDisplayCalled(a.name, state.value)];
      }
    }
  }

  lemma {:induction false} NoCalls(es: seq<Event>, k: Entry)
    requires forall i :: 0 <= i < |es| ==> es[i].ShouldDisplayCalled? || es[i].ErrorLogged?
    ensures CalledIds(es, k) == []
  {
    if es != [] {
      NoCalls(es[..|es| - 1], k);
    }
  }

  /**
   * Each filtered action with a start hook gets exactly one start call, each
   * with a calculator one `calculate` call, each with a finish hook one finish
   * call, in registration order; two actions sharing a calculator get two.
   * When the outer handler ran, each kind of call is a prefix of those; the
   * start calls are all made once the start sweep has finished.
   */
  lemma {:induction false} PipelineCalls(actions: seq<Action>, target: string, env: Env, k: Entry)
    ensures var p := Pipeline(actions, target, env);
      var all := HolderIds(Filtered(actions, target), k);
      CalledIds(p.trace, k) <= all
      && (!p.aborted ==> CalledIds(p.trace, k) == all)
      && (k == HookEntry(Started) && !HookSweep(Started, Filtered(actions, target), env, []).aborted
          ==> CalledIds(p.trace, k) == all)
  {
    var fs := Filtered(actions, target);
    var started := HookSweep(Started, fs, env, []);
    var calculation := CalcSweep(fs, env, started.trace);
    var finished := HookSweep(Finished, fs, env, started.trace + calculation.trace);
    PipelineTrace(actions, target, env);
    HookSweepCalls(Started, fs, env, [], k);
    CalcSweepCalls(fs, env, started.trace, k);
    HookSweepCalls(Finished, fs, env, started.trace + calculation.trace, k);
    RunCalls(fs, k, started, calculation, finished, Pipeline(actions, target, env));
  }

  /** The calls of a run, from the calls of its sweeps, on values. */
  lemma RunCalls(fs: seq<Action>, k: Entry, started: Calls, calculation: Progress, finished: Calls, p: Progress)
    requires p.aborted == (started.aborted || calculation.aborted || finished.aborted)
    requires p.trace == started.trace
      + (if started.aborted then [] else calculation.trace)
      + (if started.aborted || calculation.aborted then [] else finished.trace)
      + (if p.aborted then [ErrorLogged(Outermost)] else [])
    requires var all := if k == HookEntry(Started) then HolderIds(fs, k) else [];
      CalledIds(started.trace, k) <= all && (!started.aborted ==> CalledIds(started.trace, k) == all)
    requires var all := if k == CalculateEntry then HolderIds(fs, k) else [];
      CalledIds(calculation.trace, k) <= all && (!calculation.aborted ==> CalledIds(calculation.trace, k) == all)
    requires var all := if k == HookEntry(Finished) then HolderIds(fs, k) else [];
      CalledIds(finished.trace, k) <= all && (!finished.aborted ==> CalledIds(finished.trace, k) == all)
    ensures CalledIds(p.trace, k) <= HolderIds(fs, k)
    ensures !p.aborted ==> CalledIds(p.trace, k) == HolderIds(fs, k)
    ensures k == HookEntry(Started) && !started.aborted ==> CalledIds(p.trace, k) == HolderIds(fs, k)
  {
    var e1 := if started.aborted then [] else calculation.trace;
    var e2 := if started.aborted || calculation.aborted then [] else finished.trace;
    var e3 := if p.aborted then [ErrorLogged(Outermost)] else [];
    CallsOfSegments(started.trace, e1, e2, e3, k);
    var ab1 := started.aborted || calculation.aborted;
    CombineCalls(k, HolderIds(fs, k), CalledIds(started.trace, k), CalledIds(e1, k), CalledIds(e2, k),
                 started.aborted, ab1, ab1 || finished.aborted);
  }

  /** The run, sweep by sweep: each sweep runs only when the ones before it were not left. */
  lemma PipelineTrace(actions: seq<Action>, target: string, env: Env)
    ensures var fs := Filtered(actions, target);
      var started := HookSweep(Started, fs, env, []);
      var calculation := CalcSweep(fs, env, started.trace);
      var finished := HookSweep(Finished, fs, env, started.trace + calculation.trace);
      var p := Pipeline(actions, target, env);
      p.aborted == (started.aborted || calculation.aborted || finished.aborted)
      && p.result == (if started.aborted then [] else calculation.result)
      && p.trace == started.trace
         + (if started.aborted then [] else calculation.trace)
         + (if started.aborted || calculation.aborted then [] else finished.trace)
         + (if p.aborted then [ErrorLogged(Outermost)] else [])
  {
    var fs := Filtered(actions, target);
    var started := HookSweep(Started, fs, env, []);
    var calculation := CalcSweep(fs, env, started.trace);
    if started.aborted {
      assert started.trace + [] + [] == started.trace;
    } else if calculation.aborted {
      assert started.trace + calculation.trace + [] == started.trace + calculation.trace;
    }
  }

  lemma CallsOfSegments(e0: seq<Event>, e1: seq<Event>, e2: seq<Event>, e3: seq<Event>, k: Entry)
    requires e3 == [] || e3 == [ErrorLogged(Outermost)]
    ensures CalledIds(e0 + e1 + e2 + e3, k) == CalledIds(e0, k) + CalledIds(e1, k) + CalledIds(e2, k)
  {
    CalledIdsAppend(e0, e1, k);
    CalledIdsAppend(e0 + e1, e2, k);
    CalledIdsAppend(e0 + e1 + e2, e3, k);
    assert CalledIds(e3, k) == [] by {
      if e3 != [] {
        assert e3[..0] == [];
      }
    }
    assert CalledIds(e0 + e1 + e2, k) + [] == CalledIds(e0 + e1 + e2, k);
  }

  /** How the calls of the three sweeps add up, given what each sweep calls. */
  lemma CombineCalls(k: Entry, all: seq<nat>, c0: seq<nat>, c1: seq<nat>, c2: seq<nat>, ab0: bool, ab1: bool, ab2: bool)
    requires c0 <= (if k == HookEntry(Started) then all else []) && (!ab0 ==> c0 == if k == HookEntry(Started) then all else [])
    requires c1 <= (if k == CalculateEntry then all else []) && (!ab1 ==> c1 == if k == CalculateEntry then all else [])
    requires c2 <= (if k == HookEntry(Finished) then all else []) && (!ab2 ==> c2 == if k == HookEntry(Finished) then all else [])
    ensures c0 + c1 + c2 <= all
    ensures !ab0 && !ab1 && !ab2 ==> c0 + c1 + c2 == all
    ensures k == HookEntry(Started) && !ab0 ==> c0 + c1 + c2 == all
  {
    match k
    case HookEntry(h) =>
      assert c1 == [];
      if h == Started {
        assert c2 == [];
        assert c0 + c1 + c2 == c0;
      } else {
        assert c0 == [];
        assert c0 + c1 + c2 == c2;
      }
    case CalculateEntry =>
      assert c0 == [] && c2 == [];
      assert c0 + c1 + c2 == c1;
  }

  /** Hooks are not deduplicated per calculator: a calculator shared by two actions is started twice. */
  lemma SharedCalculatorStartedTwice(a: Action, b: Action, target: string, env: Env)
    requires a.target == target && b.target == target
    requires a.calculator.Some? && a.calculator == b.calculator && a.calculator.value.hasStarted
    requires forall t :: env.hookThrows(Started, a.calculator.value.id, t) != Some(Nullish)
    ensures var c := a.calculator.value.id;
      CalledIds(Pipeline([a, b], target, env).trace, HookEntry(Started)) == [c, c]
  {
    assert [a, b][..1] == [a];
    assert [a][..0] == [];
    assert Filtered([a, b], target) == [a, b];
    assert !HookSweep(Started, [a], env, []).aborted;
    assert !HookSweep(Started, [a, b], env, []).aborted;
    PipelineCalls([a, b], target, env, HookEntry(Started));
  }

  // ---------------------------------------------------------------------------
  // One action at a time
  // ---------------------------------------------------------------------------

  /**
   * An action is kept exactly when its calculation returned and its filter,
   * if it has one, returned true; it is then kept with the calculated state.
   * An ordinary exception in either adds one logged error; a `null` or
   * `undefined` leaves the sweep instead.
   */
  lemma CalcStepDecision(a: Action, env: Env, t: seq<Event>)
    ensures var s := CalcStep(a, env, t);
      var state := if a.calculator.Some? then env.calculate(a.calculator.value.id, t) else Gave(Null);
      var asked := if a.calculator.Some? then [CalculateCalled(a.calculator.value.id)] else [];
      var show := if state.Raised? || !a.hasShouldDisplay then Gave(true)
                  else env.shouldDisplay(a.name, state.value, t + asked);
      (s.result != [] <==> state.Gave? && show == Gave(true))
      && (s.result != [] ==> s.result == [NewExecutable(a, state.value)])
      && (ErrorLogged(InCalculation) in s.trace <==> state == Raised(Ordinary) || show == Raised(Ordinary))
      && (s.aborted <==> state == Raised(Nullish) || show == Raised(Nullish))
  {
  }

  /**
   * A hook sweep over `fs + gs` is the sweep over `fs`, then, unless that one
   * was left, the sweep over `gs` after the calls `fs` made.
   */
  lemma {:induction false} HookSweepSplits(h: Hook, fs: seq<Action>, gs: seq<Action>, env: Env, t: seq<Event>)
    ensures var p := HookSweep(h, fs, env, t);
      var q := HookSweep(h, gs, env, t + p.trace);
      HookSweep(h, fs + gs, env, t) == if p.aborted then p else Calls(p.trace + q.trace, q.aborted)
    decreases |gs|
  {
    HookSweepStops(h, fs, gs, env, t);
    HookSweepGoesOn(h, fs, gs, env, t);
  }

  lemma {:induction false} HookSweepStops(h: Hook, fs: seq<Action>, gs: seq<Action>, env: Env, t: seq<Event>)
    ensures HookSweep(h, fs, env, t).aborted ==> HookSweep(h, fs + gs, env, t) == HookSweep(h, fs, env, t)
    decreases |gs|
  {
    if gs != [] {
      SplitLast(fs, gs);
      HookSweepStops(h, fs, gs[..|gs| - 1], env, t);
      HookSweepLast(h, fs + gs[..|gs| - 1], gs[|gs| - 1], env, t);
    } else {
      assert fs + gs == fs;
    }
  }

  lemma {:induction false} HookSweepGoesOn(h: Hook, fs: seq<Action>, gs: seq<Action>, env: Env, t: seq<Event>)
    ensures var p := HookSweep(h, fs, env, t);
      var q := HookSweep(h, gs, env, t + p.trace);
      !p.aborted ==> HookSweep(h, fs + gs, env, t) == Calls(p.trace + q.trace, q.aborted)
    decreases |gs|
  {
    var p := HookSweep(h, fs, env, t);
    if p.aborted {
    } else if gs != [] {
      var init := gs[..|gs| - 1];
      var last := gs[|gs| - 1];
      SplitLast(fs, gs);
      HookSweepGoesOn(h, fs, init, env, t);
      HookSweepLast(h, fs + init, last, env, t);
      HookSweepLast(h, init, last, env, t + p.trace);
      var q0 := HookSweep(h, init, env, t + p.trace);
      Associative(t, p.trace, q0.trace);
      Associative(p.trace, q0.trace, HookStep(h, last, env, t + p.trace + q0.trace).trace);
    } else {
      assert fs + gs == fs;
      assert p.trace + [] == p.trace;
    }
  }

  /** One more action: the hook sweep so far if it was left, else the sweep so far followed by the action's hook. */
  lemma HookSweepLast(h: Hook, xs: seq<Action>, a: Action, env: Env, t: seq<Event>)
    ensures var b := HookSweep(h, xs, env, t);
      var step := HookStep(h, a, env, t + b.trace);
      HookSweep(h, xs + [a], env, t) == if b.aborted then b else Calls(b.trace + step.trace, step.aborted)
  {
    assert (xs + [a])[..|xs|] == xs;
    assert (xs + [a])[|xs|] == a;
  }

  /**
   * The calculation of later actions goes on whatever ordinary exception
   * earlier ones threw: the sweep over `fs + gs` is the sweep over `fs`, then
   * the sweep over `gs` after the calls `fs` made. Once a `null` or
   * `undefined` has been thrown, nothing after it is calculated.
   */
  lemma {:induction false} CalcSweepSplits(fs: seq<Action>, gs: seq<Action>, env: Env, t: seq<Event>)
    ensures var p := CalcSweep(fs, env, t);
      var q := CalcSweep(gs, env, t + p.trace);
      CalcSweep(fs + gs, env, t) == if p.aborted then p else Progress(p.result + q.result, p.trace + q.trace, q.aborted)
    decreases |gs|
  {
    CalcSweepStops(fs, gs, env, t);
    CalcSweepGoesOn(fs, gs, env, t);
  }

  lemma {:induction false} CalcSweepStops(fs: seq<Action>, gs: seq<Action>, env: Env, t: seq<Event>)
    ensures CalcSweep(fs, env, t).aborted ==> CalcSweep(fs + gs, env, t) == CalcSweep(fs, env, t)
    decreases |gs|
  {
    if gs != [] {
      SplitLast(fs, gs);
      CalcSweepStops(fs, gs[..|gs| - 1], env, t);
      CalcSweepLast(fs + gs[..|gs| - 1], gs[|gs| - 1], env, t);
    } else {
      assert fs + gs == fs;
    }
  }

  lemma {:induction false} CalcSweepGoesOn(fs: seq<Action>, gs: seq<Action>, env: Env, t: seq<Event>)
    ensures var p := CalcSweep(fs, env, t);
      var q := CalcSweep(gs, env, t + p.trace);
      !p.aborted ==> CalcSweep(fs + gs, env, t) == Progress(p.result + q.result, p.trace + q.trace, q.aborted)
    decreases |gs|
  {
    var p := CalcSweep(fs, env, t);
    if p.aborted {
    } else if gs != [] {
      var init := gs[..|gs| - 1];
      var last := gs[|gs| - 1];
      SplitLast(fs, gs);
      CalcSweepGoesOn(fs, init, env, t);
      CalcSweepLast(fs + init, last, env, t);
      CalcSweepLast(init, last, env, t + p.trace);
      var q0 := CalcSweep(init, env, t + p.trace);
      Associative(t, p.trace, q0.trace);
      JoinAfterSplit(p, q0, CalcSweep(fs + init, env, t),
        CalcStep(last, env, t + CalcSweep(fs + init, env, t).trace), CalcStep(last, env, t + p.trace + q0.trace),
        CalcSweep(fs + gs, env, t), CalcSweep(gs, env, t + p.trace));
    } else {
      assert fs + gs == fs;
      assert p.result + [] == p.result && p.trace + [] == p.trace;
    }
  }

  lemma SplitLast<T>(fs: seq<T>, gs: seq<T>)
    requires gs != []
    ensures gs == gs[..|gs| - 1] + [gs[|gs| - 1]]
    ensures fs + gs == (fs + gs[..|gs| - 1]) + [gs[|gs| - 1]]
  {
  }

  lemma Associative<T>(a: seq<T>, b: seq<T>, c: seq<T>)
    ensures a + (b + c) == a + b + c
  {
  }

  /** The bookkeeping of one more step after a split, on values. */
  lemma JoinAfterSplit(p: Progress, q0: Progress, before: Progress, s1: Progress, s2: Progress, whole: Progress, q: Progress)
    requires before == Progress(p.result + q0.result, p.trace + q0.trace, q0.aborted)
    requires whole == if before.aborted then before else Progress(before.result + s1.result, before.trace + s1.trace, s1.aborted)
    requires q == if q0.aborted then q0 else Progress(q0.result + s2.result, q0.trace + s2.trace, s2.aborted)
    requires s1 == s2
    ensures whole == Progress(p.result + q.result, p.trace + q.trace, q.aborted)
  {
    if !q0.aborted {
      assert (p.result + q0.result) + s1.result == p.result + (q0.result + s1.result);
      assert (p.trace + q0.trace) + s1.trace == p.trace + (q0.trace + s1.trace);
    }
  }

  /** One more action: the sweep so far if it was left, else the sweep so far followed by the action's step. */
  lemma CalcSweepLast(xs: seq<Action>, a: Action, env: Env, t: seq<Event>)
    ensures var b := CalcSweep(xs, env, t);
      var step := CalcStep(a, env, t + b.trace);
      CalcSweep(xs + [a], env, t)
        == if b.aborted then b else Progress(b.result + step.result, b.trace + step.trace, step.aborted)
  {
    assert (xs + [a])[..|xs|] == xs;
    assert (xs + [a])[|xs|] == a;
  }

  /**
   * An action of the target with neither state calculator nor visibility
   * filter is returned, with state `null`, whatever ordinary exceptions the
   * other actions' callbacks throw, unless the outer handler ended the run.
   */
  lemma PlainActionAlwaysReturned(actions: seq<Action>, target: string, env: Env, a: Action)
    requires a in actions && a.target == target && a.calculator.None? && !a.hasShouldDisplay
    ensures var p := Pipeline(actions, target, env);
      !p.aborted ==> NewExecutable(a, Null) in p.result
  {
    var fs := Filtered(actions, target);
    FilteredSelects(actions, target);
    var k :| 0 <= k < |fs| && fs[k] == a;
    var started := HookSweep(Started, fs, env, []);
    PipelineTrace(actions, target, env);
    if !started.aborted {
      PlainKept(fs, k, env, started.trace);
    }
  }

  /** A calculation sweep that was not left keeps every action with neither calculator nor filter. */
  lemma PlainKept(fs: seq<Action>, k: nat, env: Env, t: seq<Event>)
    requires k < |fs| && fs[k].calculator.None? && !fs[k].hasShouldDisplay
    ensures !CalcSweep(fs, env, t).aborted ==> NewExecutable(fs[k], Null) in CalcSweep(fs, env, t).result
  {
    var a := fs[k];
    assert fs == fs[..k] + [a] + fs[k + 1..];
    CalcSweepSplits(fs[..k] + [a], fs[k + 1..], env, t);
    CalcSweepSplits(fs[..k], [a], env, t);
    var p := CalcSweep(fs[..k], env, t);
    assert CalcSweep([a], env, t + p.trace) == Progress([NewExecutable(a, Null)], [], false) by {
      assert [a][..0] == [];
    }
  }

  /**
   * The case the outer handler is there for: when `a`'s `calculate` throws
   * `undefined`, `b` after it is never calculated, no finish hook runs, and
   * the run returns no action.
   */
  lemma NullishCalculationEndsTheRun(a: Action, b: Action, target: string, env: Env)
    requires a.target == target && b.target == target
    requires a.calculator.Some? && !a.calculator.value.hasStarted
    requires b.calculator.Some? && !b.calculator.value.hasStarted
    requires forall t :: env.calculate(a.calculator.value.id, t) == Raised(Nullish)
    ensures var p := Pipeline([a, b], target, env);
      p.result == [] && p.trace == [CalculateCalled(a.calculator.value.id), ErrorLogged(Outermost)]
  {
    assert Filtered([a, b], target) == [a, b];
    NoStartHooks(a, b, env);
    NullishFirstCalculation(a, b, env);
    PipelineTrace([a, b], target, env);
  }

  lemma NoStartHooks(a: Action, b: Action, env: Env)
    requires a.calculator.Some? && !a.calculator.value.hasStarted
    requires b.calculator.Some? && !b.calculator.value.hasStarted
    ensures HookSweep(Started, [a, b], env, []) == Calls([], false)
  {
    assert [a, b] == [a] + [b] && [a] == [] + [a];
    HookSweepLast(Started, [], a, env, []);
    HookSweepLast(Started, [a], b, env, []);
  }

  lemma NullishFirstCalculation(a: Action, b: Action, env: Env)
    requires a.calculator.Some?
    requires forall t :: env.calculate(a.calculator.value.id, t) == Raised(Nullish)
    ensures CalcSweep([a, b], env, []) == Progress([], [CalculateCalled(a.calculator.value.id)], true)
  {
    assert [a, b] == [a] + [b] && [a] == [] + [a];
    CalcSweepLast([], a, env, []);
    CalcSweepLast([a], b, env, []);
    assert CalcStep(a, env, []) == Progress([], [CalculateCalled(a.calculator.value.id)], true);
  }

  // ---------------------------------------------------------------------------
  // Triggering an executable action
  // ---------------------------------------------------------------------------

  /** The calls an executable action's `onClick` makes. */
  function Trigger(ex: Executable, env: Env): seq<Event> {
    var a := ex.original;
    if IsUIAction(a) then
      var converted := if a.hasConvertor then [ConvertorCalled(a.name, ex.state)] else [];
      var initial := if a.hasConvertor then env.convert(a.name, ex.state) else ex.state;
      var finals := env.displayUI(a.name, initial);
      converted + [DisplayUICalled(a.name, initial)] + Clicks(a.name, ex.state, finals)
    else [OnClickCalled(a.name, ex.state, None)]
  }

  /** `onClick(state, uiState)` once for each completion of the UI, in order. */
  function Clicks(name: string, state: Value, finals: seq<Value>): (r: seq<Event>)
    ensures |r| == |finals|
    ensures forall i :: 0 <= i < |r| ==> r[i] == OnClickCalled(name, state, Some(finals[i]))
  {
    if finals == [] then []
    else Clicks(name, state, finals[..|finals| - 1]) + [OnClickCalled(name, state, Some(finals[|finals| - 1]))]
  }

  function OnClicks(es: seq<Event>): (r: seq<Event>)
    ensures |r| <= |es|
    ensures forall e :: e in r ==> e.OnClickCalled?
  {
    if es == [] then []
    else OnClicks(es[..|es| - 1]) + (if es[|es| - 1].OnClickCalled? then [es[|es| - 1]] else [])
  }

  /** A plain action, including one whose `displayUI` is not a function, calls `onClick(state)` once and nothing else. */
  lemma TriggerPlain(ex: Executable, env: Env)
    requires !IsUIAction(ex.original)
    ensures Trigger(ex, env) == [OnClickCalled(ex.original.name, ex.state, None)]
    ensures OnClicks(Trigger(ex, env)) == Trigger(ex, env)
  {
    assert Trigger(ex, env)[..0] == [];
  }

  /**
   * A UI action shows its UI once, with the converted state when it has a
   * converter, and calls `onClick(state, uiState)` once for every time the UI
   * completes, with the calculated state, never before the UI is shown.
   */
  lemma {:induction false} TriggerUI(ex: Executable, env: Env)
    requires IsUIAction(ex.original)
    ensures var a := ex.original;
      var initial := if a.hasConvertor then env.convert(a.name, ex.state) else ex.state;
      var es := Trigger(ex, env);
      var shown := if a.hasConvertor then 1 else 0;
      shown < |es| && es[shown] == DisplayUICalled(a.name, initial)
      && (forall i :: 0 <= i < |es| && es[i].DisplayUICalled? ==> i == shown)
      && (forall i :: 0 <= i < |es| && es[i].OnClickCalled? ==> shown < i)
      && OnClicks(es) == Clicks(a.name, ex.state, env.displayUI(a.name, initial))
  {
    var a := ex.original;
    var initial := if a.hasConvertor then env.convert(a.name, ex.state) else ex.state;
    var converted: seq<Event> := if a.hasConvertor then [ConvertorCalled(a.name, ex.state)] else [];
    var tail := Clicks(a.name, ex.state, env.displayUI(a.name, initial));
    UICallsInOrder(converted, DisplayUICalled(a.name, initial), tail);
  }

  /** The calls of a UI action: the converter call if any, the UI, then the completions. */
  lemma {:induction false} UICallsInOrder(converted: seq<Event>, shown: Event, tail: seq<Event>)
    requires |converted| <= 1 && forall i :: 0 <= i < |converted| ==> converted[i].ConvertorCalled?
    requires shown.DisplayUICalled?
    requires forall i :: 0 <= i < |tail| ==> tail[i].OnClickCalled?
    ensures var es := converted + [shown] + tail;
      es[|converted|] == shown
      && (forall i :: 0 <= i < |es| && es[i].DisplayUICalled? ==> i == |converted|)
      && (forall i :: 0 <= i < |es| && es[i].OnClickCalled? ==> |converted| < i)
      && OnClicks(es) == tail
  {
    var head := converted + [shown];
    var es := head + tail;
    OnClicksOfClicks(tail);
    OnClicksAppend(head, tail);
    assert OnClicks(head) == [] by {
      assert head[..|head| - 1] == converted;
      NoClicks(converted);
    }
  }

  lemma NoClicks(es: seq<Event>)
    requires |es| <= 1 && forall i :: 0 <= i < |es| ==> !es[i].OnClickCalled?
    ensures OnClicks(es) == []
  {
    if es != [] {
      assert es[..0] == [];
    }
  }

  lemma {:induction false} OnClicksAppend(es: seq<Event>, fs: seq<Event>)
    ensures OnClicks(es + fs) == OnClicks(es) + OnClicks(fs)
    decreases |fs|
  {
    if fs != [] {
      assert (es + fs)[..|es + fs| - 1] == es + fs[..|fs| - 1];
      OnClicksAppend(es, fs[..|fs| - 1]);
      assert (es + fs)[|es + fs| - 1] == fs[|fs| - 1];
    } else {
      assert es + fs == es;
    }
  }

  lemma {:induction false} OnClicksOfClicks(es: seq<Event>)
    requires forall i :: 0 <= i < |es| ==> es[i].OnClickCalled?
    ensures OnClicks(es) == es
  {
    if es != [] {
      OnClicksOfClicks(es[..|es| - 1]);
      assert es[..|es| - 1] + [es[|es| - 1]] == es;
    }
  }

  // ---------------------------------------------------------------------------
  // Labels
  // ---------------------------------------------------------------------------

  /** "cat: " for every category, in order. */
  function CategoryPrefix(cats: seq<string>): string {
    if cats == [] then "" else CategoryPrefix(cats[..|cats| - 1]) + cats[|cats| - 1] + ": "
  }

  /** The label getCategorizedActionLabel builds for an executable action. */
  function CategorizedLabel(ex: Executable): string {
    if ex.itemLabel.Some? && ex.itemLabel.value != "" then ex.itemLabel.value
    else "api-workbench:" + (if ex.category.Some? then CategoryPrefix(ex.category.value) else "") + ex.name
  }

  /** getCategorizedActionLabel: a non-empty label, or "api-workbench:", the categories and the name. */
  method GetCategorizedActionLabel(ex: Executable) returns (result: string)
    ensures result == CategorizedLabel(ex)
  {
    if ex.itemLabel.Some? && ex.itemLabel.value != "" {
      return ex.itemLabel.value;
    }
    result := "api-workbench:";
    if ex.category.Some? {
      var cats := ex.category.value;
      var i := 0;
      while i < |cats|
        invariant 0 <= i <= |cats|
        invariant result == "api-workbench:" + CategoryPrefix(cats[..i])
      {
        assert cats[..i + 1][..i] == cats[..i];
        result := result + cats[i] + ": ";
        i := i + 1;
      }
      assert cats[..|cats|] == cats;
    }
    result := result + ex.name;
  }

  /** The category prefix of a path is the prefixes of its parts, one after the other. */
  lemma {:induction false} CategoryPrefixAppend(cats: seq<string>, more: seq<string>)
    ensures CategoryPrefix(cats + more) == CategoryPrefix(cats) + CategoryPrefix(more)
    decreases |more|
  {
    if more != [] {
      var init := more[..|more| - 1];
      assert (cats + more)[..|cats + more| - 1] == cats + init;
      assert (cats + more)[|cats + more| - 1] == more[|more| - 1];
      CategoryPrefixAppend(cats, init);
      assert CategoryPrefix(more) == CategoryPrefix(init) + more[|more| - 1] + ": ";
    } else {
      assert cats + more == cats;
    }
  }

  /** Without a usable label, the label starts with "api-workbench:" and ends with the name. */
  lemma UnlabelledLabel(ex: Executable)
    requires ex.itemLabel.None? || ex.itemLabel.value == ""
    ensures var l := CategorizedLabel(ex);
      "api-workbench:" <= l && l[|l| - |ex.name|..] == ex.name
  {
    var l := CategorizedLabel(ex);
    var mid := if ex.category.Some? then CategoryPrefix(ex.category.value) else "";
    assert l == "api-workbench:" + mid + ex.name;
    assert l[..14] == "api-workbench:";
  }
}
