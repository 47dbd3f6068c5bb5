/**
 * The peephole pass manager of the minifier and its fixed-point loop, and the
 * two-rule dead-code-elimination pass.
 *
 * The rewrite rules themselves are not modelled: the program tree is a type
 * parameter `T`, and what one rule's hook does to the tree is the parameter
 * `step`, which returns the new tree and whether the rule changed anything.
 * The traversal engine is the parameter `walk`: the sequence of hook events one
 * depth-first traversal of a tree fires. What the model keeps is the pass
 * manager's own logic: which rules each hook reaches and in what order, the
 * rules' `changed` flags, how they are reset and combined, and the bounded loop.
 */
module AstPasses {
  import opened Wrappers

  /** The rewrite rules the pass managers own. */
  datatype RuleKind =
    | StatementFusion
    | MinimizeExitPoints
    | ExploitAssigns
    | CollapseVariableDeclarations
    | PeepholeRemoveDeadCode
    | PeepholeMinimizeConditions
    | PeepholeSubstituteAlternateSyntax
    | PeepholeReplaceKnownMethods
    | PeepholeFoldConstants
    | ConvertToDottedProperties

  /** The traversal hooks the pass managers implement. */
  datatype Hook =
    | ExitProgram
    | ExitFunctionBody
    | ExitStatements
    | ExitStatement
    | ExitBlockStatement
    | ExitReturnStatement
    | ExitVariableDeclaration
    | ExitExpression
    | EnterCallExpression
    | ExitCallExpression
    | ExitPropertyKey
    | ExitMemberExpression
    | ExitCatchClause

  /**
   * One rule instance: which rule it is, the `in_fixed_loop` argument its
   * constructor took (`None` for rules whose `new` takes none), and its
   * `changed` flag.
   */
  datatype RuleState = RuleState(kind: RuleKind, inFixedLoop: Option<bool>, changed: bool)

  /** What one rule's hook does to the tree: the new tree and whether it changed anything. */
  type Step<!T> = (RuleState, Hook, T) -> (T, bool)

  /** One call of one rule's hook: the rule's position in its pass manager, and the hook. */
  datatype Call = Call(slot: nat, hook: Hook)

  /** The calls of the pass manager's own methods that the loop makes. */
  datatype ManagerCall = ResetCall | BuildCall

  /** The rules after some hook calls, the tree they left, and the calls made, in order. */
  datatype Pass<T> = Pass(rules: seq<RuleState>, tree: T, calls: seq<Call>)

  /** The outcome of the fixed-point loop: final rules, final tree, number of builds, rule hook calls made. */
  datatype LoopResult<T> = LoopResult(rules: seq<RuleState>, tree: T, builds: nat, calls: seq<Call>)

  /** Every slot names one of the first `n` rules. */
  ghost predicate SlotsWithin(slots: seq<nat>, n: nat) {
    forall i :: 0 <= i < |slots| ==> slots[i] < n
  }

  /** The slots come in declaration order, none twice. */
  ghost predicate StrictlyIncreasing(slots: seq<nat>) {
    forall i, j :: 0 <= i < j < |slots| ==> slots[i] < slots[j]
  }

  /** Every hook dispatches only to the first `n` rules. */
  ghost predicate DispatchWithin(dispatch: Hook -> seq<nat>, n: nat) {
    forall h :: SlotsWithin(dispatch(h), n)
  }

  /** The rules keep their identity and configuration; only `changed` may differ, and only from false to true. */
  ghost predicate SameRules(before: seq<RuleState>, after: seq<RuleState>) {
    && |after| == |before|
    && forall j :: 0 <= j < |before| ==>
         && after[j].kind == before[j].kind
         && after[j].inFixedLoop == before[j].inFixedLoop
         && (before[j].changed ==> after[j].changed)
  }

  /** Some visited event dispatches to the rule at `slot`. */
  ghost predicate Reached(dispatch: Hook -> seq<nat>, events: seq<Hook>, slot: nat) {
    exists i :: 0 <= i < |events| && slot in dispatch(events[i])
  }

  // ---------------------------------------------------------------------------
  // Dispatch tables

  /** The rule fields of `PeepholeOptimizations`, x0 to x9, in declaration order. */
  const PeepholeKinds: seq<RuleKind> := [
    StatementFusion, MinimizeExitPoints, ExploitAssigns, CollapseVariableDeclarations,
    PeepholeRemoveDeadCode, PeepholeMinimizeConditions, PeepholeSubstituteAlternateSyntax,
    PeepholeReplaceKnownMethods, PeepholeFoldConstants, ConvertToDottedProperties
  ]

  /**
   * The rules (by their xN number) each hook of `PeepholeOptimizations` calls,
   * in call order. Every hook calls rules in their declaration order.
   */
  function PeepholeDispatch(hook: Hook): (slots: seq<nat>)
    ensures SlotsWithin(slots, 10) && StrictlyIncreasing(slots)
  {
    match hook
    case ExitProgram => [0, 4]
    case ExitFunctionBody => [0]
    case ExitStatements => [1, 2, 3, 4, 5]
    case ExitStatement => [4, 5]
    case ExitBlockStatement => [0]
    case ExitReturnStatement => [6]
    case ExitVariableDeclaration => [6]
    case ExitExpression => [4, 5, 6, 7, 8]
    case EnterCallExpression => [6]
    case ExitCallExpression => [6]
    case ExitPropertyKey => [9]
    case ExitMemberExpression => [9]
    case ExitCatchClause => [6]
  }

  /** The rule fields of `DeadCodeElimination`: x1 (slot 0) and x2 (slot 1). */
  const DeadCodeKinds: seq<RuleKind> := [PeepholeFoldConstants, PeepholeRemoveDeadCode]

  /** The rules each hook of `DeadCodeElimination` calls, in call order; unlisted hooks call none. */
  function DeadCodeDispatch(hook: Hook): (slots: seq<nat>)
    ensures SlotsWithin(slots, 2) && StrictlyIncreasing(slots)
  {
    match hook
    case ExitStatement => [1]
    case ExitProgram => [1]
    case ExitStatements => [1]
    case ExitExpression => [0, 1]
    case _ => []
  }

  /** The rules `PeepholeOptimizations::new` builds: only x5, x6 and x9 take `in_fixed_loop`. */
  function NewPeepholeRules(inFixedLoop: bool): (rules: seq<RuleState>)
    ensures |rules| == 10
    ensures forall k :: 0 <= k < 10 ==> rules[k].kind == PeepholeKinds[k] && !rules[k].changed
    ensures forall k :: 0 <= k < 10 ==>
              (rules[k].inFixedLoop.Some? <==> k == 5 || k == 6 || k == 9)
    ensures forall k :: 0 <= k < 10 && rules[k].inFixedLoop.Some? ==> rules[k].inFixedLoop.value == inFixedLoop
  {
    seq(10, k requires 0 <= k < 10 =>
      RuleState(PeepholeKinds[k], if k == 5 || k == 6 || k == 9 then Some(inFixedLoop) else None, false))
  }

  /** What a rule keeps for its whole life: which rule it is and its constructor argument. */
  ghost function Setup(rules: seq<RuleState>): seq<(RuleKind, Option<bool>)> {
    seq(|rules|, k requires 0 <= k < |rules| => (rules[k].kind, rules[k].inFixedLoop))
  }

  /** Changing only flags keeps the setup. */
  lemma SetupKept(before: seq<RuleState>, after: seq<RuleState>)
    requires |after| == |before|
    requires forall k :: 0 <= k < |before| ==>
               after[k].kind == before[k].kind && after[k].inFixedLoop == before[k].inFixedLoop
    ensures Setup(after) == Setup(before)
  {
    assert forall k :: 0 <= k < |before| ==> Setup(after)[k] == Setup(before)[k];
  }

  // ---------------------------------------------------------------------------
  // Specification of one traversal

  /** One hook call of the rule at `slot`: the rule's flag is set when it reports a change, and never cleared. */
  function Apply<T>(rules: seq<RuleState>, slot: nat, hook: Hook, step: Step<T>, tree: T): (p: (seq<RuleState>, T))
    requires slot < |rules|
    ensures SameRules(rules, p.0)
    ensures forall j :: 0 <= j < |rules| && j != slot ==> p.0[j] == rules[j]
    ensures p.0[slot].changed == (rules[slot].changed || step(rules[slot], hook, tree).1)
    ensures p.1 == step(rules[slot], hook, tree).0
  {
    var (t, did) := step(rules[slot], hook, tree);
    (rules[slot := rules[slot].(changed := rules[slot].changed || did)], t)
  }

  /** The rules at `slots` see one node, in order, each seeing what the previous ones left. */
  function Dispatch<T>(rules: seq<RuleState>, slots: seq<nat>, hook: Hook, step: Step<T>, tree: T): (p: Pass<T>)
    requires SlotsWithin(slots, |rules|)
    ensures |p.rules| == |rules|
    decreases |slots|
  {
    if slots == [] then Pass(rules, tree, [])
    else
      var before := Dispatch(rules, slots[..|slots| - 1], hook, step, tree);
      var (rules', tree') := Apply(before.rules, slots[|slots| - 1], hook, step, before.tree);
      Pass(rules', tree', before.calls + [Call(slots[|slots| - 1], hook)])
  }

  /** The calls of one hook: one per dispatched rule, in dispatch order. */
  function HookCalls(slots: seq<nat>, hook: Hook): seq<Call>
  {
    seq(|slots|, i requires 0 <= i < |slots| => Call(slots[i], hook))
  }

  /** A hook calls exactly the rules it dispatches to, in order, and nothing else. */
  lemma {:induction false} DispatchCalls<T>(rules: seq<RuleState>, slots: seq<nat>, hook: Hook, step: Step<T>, tree: T)
    requires SlotsWithin(slots, |rules|)
    ensures Dispatch(rules, slots, hook, step, tree).calls == HookCalls(slots, hook)
    decreases |slots|
  {
    if slots != [] {
      DispatchCalls(rules, slots[..|slots| - 1], hook, step, tree);
    }
  }

  /** A hook leaves the rules it does not dispatch to exactly as they were, and clears no flag. */
  lemma {:induction false} DispatchFrame<T>(rules: seq<RuleState>, slots: seq<nat>, hook: Hook, step: Step<T>, tree: T)
    requires SlotsWithin(slots, |rules|)
    ensures SameRules(rules, Dispatch(rules, slots, hook, step, tree).rules)
    ensures forall j :: 0 <= j < |rules| && j !in slots ==> Dispatch(rules, slots, hook, step, tree).rules[j] == rules[j]
    decreases |slots|
  {
    if slots != [] {
      var init := slots[..|slots| - 1];
      DispatchFrame(rules, init, hook, step, tree);
    }
  }

  /** The calls one traversal makes: each event's dispatch list, event after event. */
  function ExpectedCalls(dispatch: Hook -> seq<nat>, events: seq<Hook>): seq<Call>
  {
    if events == [] then []
    else
      var last := events[|events| - 1];
      ExpectedCalls(dispatch, events[..|events| - 1]) + HookCalls(dispatch(last), last)
  }

  /**
   * One traversal (`build`): the events fire in order, and each sends the node
   * to the rules its hook dispatches to, in order.
   */
  function Traverse<T>(rules: seq<RuleState>, dispatch: Hook -> seq<nat>, events: seq<Hook>, step: Step<T>, tree: T): (p: Pass<T>)
    requires DispatchWithin(dispatch, |rules|)
    ensures |p.rules| == |rules|
    decreases |events|
  {
    if events == [] then Pass(rules, tree, [])
    else
      var last := events[|events| - 1];
      var before := Traverse(rules, dispatch, events[..|events| - 1], step, tree);
      assert SlotsWithin(dispatch(last), |before.rules|);
      var p := Dispatch(before.rules, dispatch(last), last, step, before.tree);
      Pass(p.rules, p.tree, before.calls + p.calls)
  }

  /** A traversal calls exactly the dispatched rules of each event, event after event, and nothing else. */
  lemma {:induction false} TraverseCalls<T>(rules: seq<RuleState>, dispatch: Hook -> seq<nat>, events: seq<Hook>, step: Step<T>, tree: T)
    requires DispatchWithin(dispatch, |rules|)
    ensures Traverse(rules, dispatch, events, step, tree).calls == ExpectedCalls(dispatch, events)
    decreases |events|
  {
    if events != [] {
      var last := events[|events| - 1];
      var before := Traverse(rules, dispatch, events[..|events| - 1], step, tree);
      TraverseCalls(rules, dispatch, events[..|events| - 1], step, tree);
      assert SlotsWithin(dispatch(last), |before.rules|);
      DispatchCalls(before.rules, dispatch(last), last, step, before.tree);
    }
  }

  /**
   * A traversal keeps every rule's identity and configuration, clears no flag,
   * and leaves the rules no event dispatches to exactly as they were.
   */
  lemma {:induction false} TraverseFrame<T>(rules: seq<RuleState>, dispatch: Hook -> seq<nat>, events: seq<Hook>, step: Step<T>, tree: T)
    requires DispatchWithin(dispatch, |rules|)
    ensures SameRules(rules, Traverse(rules, dispatch, events, step, tree).rules)
    ensures forall j :: 0 <= j < |rules| && !Reached(dispatch, events, j) ==> Traverse(rules, dispatch, events, step, tree).rules[j] == rules[j]
    decreases |events|
  {
    if events != [] {
      var init := events[..|events| - 1];
      var last := events[|events| - 1];
      var before := Traverse(rules, dispatch, init, step, tree);
      TraverseFrame(rules, dispatch, init, step, tree);
      assert SlotsWithin(dispatch(last), |before.rules|);
      DispatchFrame(before.rules, dispatch(last), last, step, before.tree);
    }
  }

  // ---------------------------------------------------------------------------
  // The change flags of PeepholeOptimizations

  /** `reset_changed`: flags x0 to x8 are cleared; x9 and everything else is kept. */
  function ResetFlags(rules: seq<RuleState>): (r: seq<RuleState>)
    ensures |r| == |rules|
    ensures forall k :: 0 <= k < |rules| ==> r[k].kind == rules[k].kind && r[k].inFixedLoop == rules[k].inFixedLoop
    ensures forall k :: 0 <= k < |rules| && k < 9 ==> !r[k].changed
    ensures forall k :: 9 <= k < |rules| ==> r[k] == rules[k]
  {
    seq(|rules|, k requires 0 <= k < |rules| => if k < 9 then rules[k].(changed := false) else rules[k])
  }

  /** `changed`: some rule among x0 to x8 has its flag set. */
  predicate AnyChanged(rules: seq<RuleState>) {
    exists k :: 0 <= k < 9 && k < |rules| && rules[k].changed
  }

  /** The flag of x9 never affects `changed`. */
  lemma X9NotConsulted(rules: seq<RuleState>, x9: RuleState)
    requires |rules| == 10
    ensures AnyChanged(rules[9 := x9]) == AnyChanged(rules)
  {
    if AnyChanged(rules) {
      var k :| 0 <= k < 9 && rules[k].changed;
      assert rules[9 := x9][k] == rules[k];
    }
  }

  /** Right after `reset_changed`, `changed` is false, whatever x9's flag is. */
  lemma ResetClearsChanged(rules: seq<RuleState>)
    ensures !AnyChanged(ResetFlags(rules))
    ensures |rules| == 10 ==> ResetFlags(rules)[9].changed == rules[9].changed
  {
  }

  // ---------------------------------------------------------------------------
  // Specification of the fixed-point loop

  /** The calls to `reset_changed` and `build` that `n` loop iterations make. */
  function ResetBuildPairs(n: nat): (log: seq<ManagerCall>)
    ensures |log| == 2 * n
    ensures forall j :: 0 <= j < n ==> log[2 * j] == ResetCall && log[2 * j + 1] == BuildCall
  {
    if n == 0 then [] else ResetBuildPairs(n - 1) + [ResetCall, BuildCall]
  }

  /** Concatenation is associative. */
  lemma AppendAssoc<X>(a: seq<X>, b: seq<X>, c: seq<X>)
    ensures (a + b) + c == a + (b + c)
  {
  }

  /** Appending two elements one at a time is appending the pair. */
  lemma AppendPair<X>(a: seq<X>, b: seq<X>, x: X, y: X)
    ensures (a + b) + [x] + [y] == a + (b + [x, y])
  {
  }

  /**
   * `run_in_loop` from the iteration whose counter is `i`: reset, one
   * traversal, stop when nothing changed or when `i > 10`, else go on with
   * `i + 1`. From `i = 0` this makes between 1 and 12 builds, and if it stops
   * before the 12th build the last traversal changed nothing: a fixed point.
   */
  function RunLoop<T>(rules: seq<RuleState>, tree: T, step: Step<T>, walk: T -> seq<Hook>, i: nat): (r: LoopResult<T>)
    requires |rules| == 10 && i <= 11
    ensures |r.rules| == 10
    ensures 1 <= r.builds <= 12 - i
    ensures r.builds < 12 - i ==> !AnyChanged(r.rules)
    decreases 11 - i
  {
    var p := Traverse(ResetFlags(rules), PeepholeDispatch, walk(tree), step, tree);
    if !AnyChanged(p.rules) || i > 10 then LoopResult(p.rules, p.tree, 1, p.calls)
    else
      var r := RunLoop(p.rules, p.tree, step, walk, i + 1);
      LoopResult(r.rules, r.tree, r.builds + 1, p.calls + r.calls)
  }

  /** One iteration of `RunLoop`, spelled out for the loop that implements it. */
  lemma RunLoopUnfold<T>(rules: seq<RuleState>, tree: T, step: Step<T>, walk: T -> seq<Hook>, i: nat)
    requires |rules| == 10 && i <= 11
    ensures var p := Traverse(ResetFlags(rules), PeepholeDispatch, walk(tree), step, tree);
            var r := RunLoop(rules, tree, step, walk, i);
            if !AnyChanged(p.rules) || i > 10 then r == LoopResult(p.rules, p.tree, 1, p.calls)
            else var n := RunLoop(p.rules, p.tree, step, walk, i + 1);
                 r == LoopResult(n.rules, n.tree, n.builds + 1, p.calls + n.calls)
  {
  }

  /** A tree on which no rule's hook rewrites anything or reports a change. */
  ghost predicate Stable<T>(step: Step<T>, tree: T) {
    forall rule, hook :: step(rule, hook, tree) == (tree, false)
  }

  /** On a stable tree a hook changes neither the tree nor any flag. */
  lemma {:induction false} DispatchOnStable<T>(rules: seq<RuleState>, slots: seq<nat>, hook: Hook, step: Step<T>, tree: T)
    requires SlotsWithin(slots, |rules|) && Stable(step, tree)
    ensures Dispatch(rules, slots, hook, step, tree).rules == rules
    ensures Dispatch(rules, slots, hook, step, tree).tree == tree
    decreases |slots|
  {
    if slots != [] {
      var k := slots[|slots| - 1];
      DispatchOnStable(rules, slots[..|slots| - 1], hook, step, tree);
      assert step(rules[k], hook, tree) == (tree, false);
      assert rules[k := rules[k].(changed := rules[k].changed || false)] == rules;
    }
  }

  /** On a stable tree a traversal changes neither the tree nor any flag. */
  lemma {:induction false} TraverseOnStable<T>(rules: seq<RuleState>, dispatch: Hook -> seq<nat>, events: seq<Hook>, step: Step<T>, tree: T)
    requires DispatchWithin(dispatch, |rules|) && Stable(step, tree)
    ensures Traverse(rules, dispatch, events, step, tree).rules == rules
    ensures Traverse(rules, dispatch, events, step, tree).tree == tree
    decreases |events|
  {
    if events != [] {
      var last := events[|events| - 1];
      TraverseOnStable(rules, dispatch, events[..|events| - 1], step, tree);
      assert SlotsWithin(dispatch(last), |rules|);
      DispatchOnStable(rules, dispatch(last), last, step, tree);
    }
  }

  /**
   * Running the loop on a tree that is already a fixed point: one build, the
   * tree comes back unchanged, and the flags are those `reset_changed` left.
   */
  lemma RunLoopOnStable<T>(rules: seq<RuleState>, tree: T, step: Step<T>, walk: T -> seq<Hook>)
    requires |rules| == 10 && Stable(step, tree)
    ensures RunLoop(rules, tree, step, walk, 0).builds == 1
    ensures RunLoop(rules, tree, step, walk, 0).tree == tree
    ensures RunLoop(rules, tree, step, walk, 0).rules == ResetFlags(rules)
  {
    TraverseOnStable(ResetFlags(rules), PeepholeDispatch, walk(tree), step, tree);
    ResetClearsChanged(rules);
  }

  /** When the hook always reports a change, its last dispatched rule ends with its flag set. */
  lemma DispatchSetsFlag<T>(rules: seq<RuleState>, slots: seq<nat>, hook: Hook, step: Step<T>, tree: T)
    requires SlotsWithin(slots, |rules|) && slots != []
    requires forall rule, t :: step(rule, hook, t).1
    ensures Dispatch(rules, slots, hook, step, tree).rules[slots[|slots| - 1]].changed
  {
    var before := Dispatch(rules, slots[..|slots| - 1], hook, step, tree);
    var k := slots[|slots| - 1];
    assert step(before.rules[k], hook, before.tree).1;
  }

  /** Every rule's `exit_program` hook reports a change, on any tree. */
  ghost predicate ProgramExitChanges<T(!new)>(step: Step<T>) {
    forall rule, t :: step(rule, ExitProgram, t).1
  }

  /**
   * Every traversal ends at the root: the depth-first walk leaves the
   * program last, so its last event is the program exit.
   */
  ghost predicate EndsWithProgram<T(!new)>(walk: T -> seq<Hook>) {
    forall t :: walk(t) != [] && walk(t)[|walk(t)| - 1] == ExitProgram
  }

  /**
   * When the program exit always reports a change, a traversal that ends
   * with it leaves `changed` true: x4, the last rule `exit_program` calls,
   * is flagged.
   */
  lemma TraverseSetsFlag<T(!new)>(rules: seq<RuleState>, events: seq<Hook>, step: Step<T>, tree: T)
    requires |rules| == 10 && events != [] && events[|events| - 1] == ExitProgram
    requires ProgramExitChanges(step)
    ensures AnyChanged(Traverse(rules, PeepholeDispatch, events, step, tree).rules)
  {
    var before := Traverse(rules, PeepholeDispatch, events[..|events| - 1], step, tree);
    DispatchSetsFlag(before.rules, PeepholeDispatch(ExitProgram), ExitProgram, step, before.tree);
    assert Traverse(rules, PeepholeDispatch, events, step, tree).rules[4].changed;
  }

  /**
   * The cap is 12 builds, not 10: when the rules never stop reporting changes
   * (here: the program exit, which ends every traversal, always reports a
   * change), the loop makes exactly 12 - i builds from counter i.
   */
  lemma {:induction false} NonConvergingRunsTwelveBuilds<T(!new)>(rules: seq<RuleState>, tree: T, step: Step<T>, walk: T -> seq<Hook>, i: nat)
    requires |rules| == 10 && i <= 11
    requires EndsWithProgram(walk) && ProgramExitChanges(step)
    ensures RunLoop(rules, tree, step, walk, i).builds == 12 - i
    decreases 11 - i
  {
    var p := Traverse(ResetFlags(rules), PeepholeDispatch, walk(tree), step, tree);
    TraverseSetsFlag(ResetFlags(rules), walk(tree), step, tree);
    if i <= 10 {
      NonConvergingRunsTwelveBuilds(p.rules, p.tree, step, walk, i + 1);
    }
  }

  /** `DeadCodeElimination` folds constants before removing dead code; the full pass manager does the opposite. */
  lemma FoldOrderDiffers()
    ensures DeadCodeKinds[DeadCodeDispatch(ExitExpression)[0]] == PeepholeFoldConstants
    ensures DeadCodeKinds[DeadCodeDispatch(ExitExpression)[1]] == PeepholeRemoveDeadCode
    ensures PeepholeKinds[PeepholeDispatch(ExitExpression)[0]] == PeepholeRemoveDeadCode
    ensures PeepholeKinds[PeepholeDispatch(ExitExpression)[4]] == PeepholeFoldConstants
  {
  }

  // ---------------------------------------------------------------------------
  // The pass managers

  /** `PeepholeOptimizations`: the ten rules x0 to x9, and the loop that drives them to a fixed point. */
  class PeepholeOptimizations {
    /** The rule fields x0 to x9, by number. */
    var rules: seq<RuleState>
    /** The calls of `reset_changed` and `build` made so far. */
    ghost var log: seq<ManagerCall>
    /** The rule hook calls made so far. */
    ghost var invoked: seq<Call>
    /** The argument the pass manager was built with. */
    ghost var inFixedLoop: bool

    /** The ten rules are the ones `new` built, whatever their flags. */
    ghost predicate Valid()
      reads this
    {
      |rules| == 10 && Setup(rules) == Setup(NewPeepholeRules(inFixedLoop))
    }

    /** The state is what the rules at `slots` leave after seeing the node `start.tree`. */
    ghost predicate Dispatched<T>(start: Pass<T>, slots: seq<nat>, hook: Hook, step: Step<T>, tree: T)
      reads this
      requires SlotsWithin(slots, |start.rules|)
    {
      var p := Dispatch(start.rules, slots, hook, step, start.tree);
      rules == p.rules && tree == p.tree && invoked == start.calls + p.calls
    }

    /** `new`: only x5, x6 and x9 receive `in_fixed_loop`. The compression options are not modelled. */
    constructor (inFixedLoop: bool)
      ensures Valid()
      ensures rules == NewPeepholeRules(inFixedLoop) && this.inFixedLoop == inFixedLoop
      ensures log == [] && invoked == []
    {
      rules := NewPeepholeRules(inFixedLoop);
      log, invoked := [], [];
      this.inFixedLoop := inFixedLoop;
    }

    /** `reset_changed`: clears the flags of x0 to x8, one field at a time; x9 is not reset. */
    method ResetChanged()
      requires Valid()
      modifies this
      ensures Valid()
      ensures rules == ResetFlags(old(rules))
      ensures log == old(log) + [ResetCall] && invoked == old(invoked)
    {
      rules := rules[0 := rules[0].(changed := false)];
      rules := rules[1 := rules[1].(changed := false)];
      rules := rules[2 := rules[2].(changed := false)];
      rules := rules[3 := rules[3].(changed := false)];
      rules := rules[4 := rules[4].(changed := false)];
      rules := rules[5 := rules[5].(changed := false)];
      rules := rules[6 := rules[6].(changed := false)];
      rules := rules[7 := rules[7].(changed := false)];
      rules := rules[8 := rules[8].(changed := false)];
      assert rules == ResetFlags(old(rules));
      SetupKept(old(rules), rules);
      log := log + [ResetCall];
    }

    /** `changed`: the OR of the flags of x0 to x8. */
    function Changed(): (b: bool)
      reads this
      requires Valid()
      ensures b <==> AnyChanged(rules)
    {
      rules[0].changed || rules[1].changed || rules[2].changed || rules[3].changed
      || rules[4].changed || rules[5].changed || rules[6].changed || rules[7].changed
      || rules[8].changed
    }

    /** Rule `slot`, the n-th rule of the hook, sees the node the rules before it left; a reported change sets its flag. */
    method Invoke<T>(slot: nat, hook: Hook, step: Step<T>, node: T, ghost start: Pass<T>, ghost n: nat) returns (out: T)
      requires Valid() && |start.rules| == 10
      requires n < |PeepholeDispatch(hook)| && PeepholeDispatch(hook)[n] == slot
      requires Dispatched(start, PeepholeDispatch(hook)[..n], hook, step, node)
      modifies this
      ensures Valid() && log == old(log)
      ensures Dispatched(start, PeepholeDispatch(hook)[..n + 1], hook, step, out)
    {
      ghost var slots := PeepholeDispatch(hook);
      assert slots[..n + 1][..n] == slots[..n];
      ghost var d := Dispatch(start.rules, slots[..n], hook, step, start.tree);
      var (t, did) := step(rules[slot], hook, node);
      if did {
        rules := rules[slot := rules[slot].(changed := true)];
      } else {
        assert rules[slot := rules[slot].(changed := rules[slot].changed || did)] == rules;
      }
      out := t;
      invoked := invoked + [Call(slot, hook)];
      AppendAssoc(start.calls, d.calls, [Call(slot, hook)]);
    }

    /** One hook call: the state and the tree are what `Dispatch` gives for the hook's rules. */
    twostate predicate Hooked<T>(hook: Hook, step: Step<T>, node: T, new out: T)
      reads this
    {
      && old(|rules|) == 10
      && var p := Dispatch(old(rules), PeepholeDispatch(hook), hook, step, node);
         rules == p.rules && out == p.tree && invoked == old(invoked) + p.calls
    }

    /** `exit_program`: rules x0, x4, in that order. */
    method OnExitProgram<T>(step: Step<T>, node: T) returns (out: T)
      requires Valid()
      modifies this
      ensures Valid() && Hooked(Hook.ExitProgram, step, node, out) && log == old(log)
    {
      ghost var start := Pass(rules, node, invoked);
      assert PeepholeDispatch(Hook.ExitProgram)[..0] == [];
      out := Invoke(0, Hook.ExitProgram, step, node, start, 0);
      out := Invoke(4, Hook.ExitProgram, step, out, start, 1);
      assert PeepholeDispatch(Hook.ExitProgram)[..2] == PeepholeDispatch(Hook.ExitProgram);
    }

    /** `exit_function_body`: rules x0, in that order. */
    method OnExitFunctionBody<T>(step: Step<T>, node: T) returns (out: T)
      requires Valid()
      modifies this
      ensures Valid() && Hooked(Hook.ExitFunctionBody, step, node, out) && log == old(log)
    {
      ghost var start := Pass(rules, node, invoked);
      assert PeepholeDispatch(Hook.ExitFunctionBody)[..0] == [];
      out := Invoke(0, Hook.ExitFunctionBody, step, node, start, 0);
      assert PeepholeDispatch(Hook.ExitFunctionBody)[..1] == PeepholeDispatch(Hook.ExitFunctionBody);
    }

    /** `exit_statements`: rules x1, x2, x3, x4, x5, in that order. */
    method OnExitStatements<T>(step: Step<T>, node: T) returns (out: T)
      requires Valid()
      modifies this
      ensures Valid() && Hooked(Hook.ExitStatements, step, node, out) && log == old(log)
    {
      ghost var start := Pass(rules, node, invoked);
      assert PeepholeDispatch(Hook.ExitStatements)[..0] == [];
      out := Invoke(1, Hook.ExitStatements, step, node, start, 0);
      out := Invoke(2, Hook.ExitStatements, step, out, start, 1);
      out := Invoke(3, Hook.ExitStatements, step, out, start, 2);
      out := Invoke(4, Hook.ExitStatements, step, out, start, 3);
      out := Invoke(5, Hook.ExitStatements, step, out, start, 4);
      assert PeepholeDispatch(Hook.ExitStatements)[..5] == PeepholeDispatch(Hook.ExitStatements);
    }

    /** `exit_statement`: rules x4, x5, in that order. */
    method OnExitStatement<T>(step: Step<T>, node: T) returns (out: T)
      requires Valid()
      modifies this
      ensures Valid() && Hooked(Hook.ExitStatement, step, node, out) && log == old(log)
    {
      ghost var start := Pass(rules, node, invoked);
      assert PeepholeDispatch(Hook.ExitStatement)[..0] == [];
      out := Invoke(4, Hook.ExitStatement, step, node, start, 0);
      out := Invoke(5, Hook.ExitStatement, step, out, start, 1);
      assert PeepholeDispatch(Hook.ExitStatement)[..2] == PeepholeDispatch(Hook.ExitStatement);
    }

    /** `exit_block_statement`: rules x0, in that order. */
    method OnExitBlockStatement<T>(step: Step<T>, node: T) returns (out: T)
      requires Valid()
      modifies this
      ensures Valid() && Hooked(Hook.ExitBlockStatement, step, node, out) && log == old(log)
    {
      ghost var start := Pass(rules, node, invoked);
      assert PeepholeDispatch(Hook.ExitBlockStatement)[..0] == [];
      out := Invoke(0, Hook.ExitBlockStatement, step, node, start, 0);
      assert PeepholeDispatch(Hook.ExitBlockStatement)[..1] == PeepholeDispatch(Hook.ExitBlockStatement);
    }

    /** `exit_return_statement`: rules x6, in that order. */
    method OnExitReturnStatement<T>(step: Step<T>, node: T) returns (out: T)
      requires Valid()
      modifies this
      ensures Valid() && Hooked(Hook.ExitReturnStatement, step, node, out) && log == old(log)
    {
      ghost var start := Pass(rules, node, invoked);
      assert PeepholeDispatch(Hook.ExitReturnStatement)[..0] == [];
      out := Invoke(6, Hook.ExitReturnStatement, step, node, start, 0);
      assert PeepholeDispatch(Hook.ExitReturnStatement)[..1] == PeepholeDispatch(Hook.ExitReturnStatement);
    }

    /** `exit_variable_declaration`: rules x6, in that order. */
    method OnExitVariableDeclaration<T>(step: Step<T>, node: T) returns (out: T)
      requires Valid()
      modifies this
      ensures Valid() && Hooked(Hook.ExitVariableDeclaration, step, node, out) && log == old(log)
    {
      ghost var start := Pass(rules, node, invoked);
      assert PeepholeDispatch(Hook.ExitVariableDeclaration)[..0] == [];
      out := Invoke(6, Hook.ExitVariableDeclaration, step, node, start, 0);
      assert PeepholeDispatch(Hook.ExitVariableDeclaration)[..1] == PeepholeDispatch(Hook.ExitVariableDeclaration);
    }

    /** `exit_expression`: rules x4, x5, x6, x7, x8, in that order. */
    method OnExitExpression<T>(step: Step<T>, node: T) returns (out: T)
      requires Valid()
      modifies this
      ensures Valid() && Hooked(Hook.ExitExpression, step, node, out) && log == old(log)
    {
      ghost var start := Pass(rules, node, invoked);
      assert PeepholeDispatch(Hook.ExitExpression)[..0] == [];
      out := Invoke(4, Hook.ExitExpression, step, node, start, 0);
      out := Invoke(5, Hook.ExitExpression, step, out, start, 1);
      out := Invoke(6, Hook.ExitExpression, step, out, start, 2);
      out := Invoke(7, Hook.ExitExpression, step, out, start, 3);
      out := Invoke(8, Hook.ExitExpression, step, out, start, 4);
      assert PeepholeDispatch(Hook.ExitExpression)[..5] == PeepholeDispatch(Hook.ExitExpression);
    }

    /** `enter_call_expression`: rules x6, in that order. */
    method OnEnterCallExpression<T>(step: Step<T>, node: T) returns (out: T)
      requires Valid()
      modifies this
      ensures Valid() && Hooked(Hook.EnterCallExpression, step, node, out) && log == old(log)
    {
      ghost var start := Pass(rules, node, invoked);
      assert PeepholeDispatch(Hook.EnterCallExpression)[..0] == [];
      out := Invoke(6, Hook.EnterCallExpression, step, node, start, 0);
      assert PeepholeDispatch(Hook.EnterCallExpression)[..1] == PeepholeDispatch(Hook.EnterCallExpression);
    }

    /** `exit_call_expression`: rules x6, in that order. */
    method OnExitCallExpression<T>(step: Step<T>, node: T) returns (out: T)
      requires Valid()
      modifies this
      ensures Valid() && Hooked(Hook.ExitCallExpression, step, node, out) && log == old(log)
    {
      ghost var start := Pass(rules, node, invoked);
      assert PeepholeDispatch(Hook.ExitCallExpression)[..0] == [];
      out := Invoke(6, Hook.ExitCallExpression, step, node, start, 0);
      assert PeepholeDispatch(Hook.ExitCallExpression)[..1] == PeepholeDispatch(Hook.ExitCallExpression);
    }

    /** `exit_property_key`: rules x9, in that order. */
    method OnExitPropertyKey<T>(step: Step<T>, node: T) returns (out: T)
      requires Valid()
      modifies this
      ensures Valid() && Hooked(Hook.ExitPropertyKey, step, node, out) && log == old(log)
    {
      ghost var start := Pass(rules, node, invoked);
      assert PeepholeDispatch(Hook.ExitPropertyKey)[..0] == [];
      out := Invoke(9, Hook.ExitPropertyKey, step, node, start, 0);
      assert PeepholeDispatch(Hook.ExitPropertyKey)[..1] == PeepholeDispatch(Hook.ExitPropertyKey);
    }

    /** `exit_member_expression`: rules x9, in that order. */
    method OnExitMemberExpression<T>(step: Step<T>, node: T) returns (out: T)
      requires Valid()
      modifies this
      ensures Valid() && Hooked(Hook.ExitMemberExpression, step, node, out) && log == old(log)
    {
      ghost var start := Pass(rules, node, invoked);
      assert PeepholeDispatch(Hook.ExitMemberExpression)[..0] == [];
      out := Invoke(9, Hook.ExitMemberExpression, step, node, start, 0);
      assert PeepholeDispatch(Hook.ExitMemberExpression)[..1] == PeepholeDispatch(Hook.ExitMemberExpression);
    }

    /** `exit_catch_clause`: rules x6, in that order. */
    method OnExitCatchClause<T>(step: Step<T>, node: T) returns (out: T)
      requires Valid()
      modifies this
      ensures Valid() && Hooked(Hook.ExitCatchClause, step, node, out) && log == old(log)
    {
      ghost var start := Pass(rules, node, invoked);
      assert PeepholeDispatch(Hook.ExitCatchClause)[..0] == [];
      out := Invoke(6, Hook.ExitCatchClause, step, node, start, 0);
      assert PeepholeDispatch(Hook.ExitCatchClause)[..1] == PeepholeDispatch(Hook.ExitCatchClause);
    }

    /** The `Traverse` implementation: an event runs the hook method of its kind. */
    method OnHook<T>(hook: Hook, step: Step<T>, node: T) returns (out: T)
      requires Valid()
      modifies this
      ensures Valid() && Hooked(hook, step, node, out) && log == old(log)
    {
      match hook
      case ExitProgram => out := OnExitProgram(step, node);
      case ExitFunctionBody => out := OnExitFunctionBody(step, node);
      case ExitStatements => out := OnExitStatements(step, node);
      case ExitStatement => out := OnExitStatement(step, node);
      case ExitBlockStatement => out := OnExitBlockStatement(step, node);
      case ExitReturnStatement => out := OnExitReturnStatement(step, node);
      case ExitVariableDeclaration => out := OnExitVariableDeclaration(step, node);
      case ExitExpression => out := OnExitExpression(step, node);
      case EnterCallExpression => out := OnEnterCallExpression(step, node);
      case ExitCallExpression => out := OnExitCallExpression(step, node);
      case ExitPropertyKey => out := OnExitPropertyKey(step, node);
      case ExitMemberExpression => out := OnExitMemberExpression(step, node);
      case ExitCatchClause => out := OnExitCatchClause(step, node);
    }

    /** `build`: exactly one traversal, over the events `walk` gives for the tree. */
    method Build<T>(program: T, step: Step<T>, walk: T -> seq<Hook>) returns (out: T)
      requires Valid()
      modifies this
      ensures Valid()
      ensures var p := Traverse(old(rules), PeepholeDispatch, walk(program), step, program);
              rules == p.rules && out == p.tree && invoked == old(invoked) + p.calls
      ensures log == old(log) + [BuildCall]
    {
      var events := walk(program);
      out := program;
      var i := 0;
      while i < |events|
        invariant Valid() && 0 <= i <= |events|
        invariant var p := Traverse(old(rules), PeepholeDispatch, events[..i], step, program);
                  rules == p.rules && out == p.tree && invoked == old(invoked) + p.calls
        invariant log == old(log)
      {
        assert events[..i + 1][..i] == events[..i];
        ghost var done := Traverse(old(rules), PeepholeDispatch, events[..i], step, program);
        ghost var next := Dispatch(rules, PeepholeDispatch(events[i]), events[i], step, out);
        out := OnHook(events[i], step, out);
        AppendAssoc(old(invoked), done.calls, next.calls);
        i := i + 1;
      }
      assert events[..i] == events;
      log := log + [BuildCall];
    }

    /**
     * `run_in_loop`: reset, build, stop when nothing changed; otherwise stop
     * once the counter exceeds 10, else count and repeat. Each build is
     * preceded by a reset, and the result is the one `RunLoop` describes.
     */
    method RunInLoop<T>(program: T, step: Step<T>, walk: T -> seq<Hook>) returns (out: T)
      requires Valid()
      modifies this
      ensures Valid()
      ensures var r := RunLoop(old(rules), program, step, walk, 0);
              rules == r.rules && out == r.tree && log == old(log) + ResetBuildPairs(r.builds) &&
              invoked == old(invoked) + r.calls
    {
      ghost var total := RunLoop(rules, program, step, walk, 0);
      var i := 0;
      out := program;
      while true
        invariant Valid() && 0 <= i <= 11
        invariant var r := RunLoop(rules, out, step, walk, i);
                  total.rules == r.rules && total.tree == r.tree && total.builds == i + r.builds
        invariant old(invoked) + total.calls == invoked + RunLoop(rules, out, step, walk, i).calls
        invariant log == old(log) + ResetBuildPairs(i)
        decreases 11 - i
      {
        ghost var rulesBefore, treeBefore, logBefore, invokedBefore := rules, out, log, invoked;
        ResetChanged();
        out := Build(out, step, walk);
        assert log == logBefore + [ResetCall] + [BuildCall];
        ghost var built := Traverse(ResetFlags(rulesBefore), PeepholeDispatch, walk(treeBefore), step, treeBefore).calls;
        RunLoopUnfold(rulesBefore, treeBefore, step, walk, i);
        assert log == old(log) + ResetBuildPairs(i + 1) by {
          assert ResetBuildPairs(i + 1) == ResetBuildPairs(i) + [ResetCall, BuildCall];
          AppendPair(old(log), ResetBuildPairs(i), ResetCall, BuildCall);
        }
        if !Changed() {
          break;
        }
        if i > 10 {
          break;
        }
        AppendAssoc(invokedBefore, built, RunLoop(rules, out, step, walk, i + 1).calls);
        i := i + 1;
      }
    }
  }

  /** `DeadCodeElimination`: fold constants (x1, slot 0) then remove dead code (x2, slot 1), one traversal, no loop. */
  class DeadCodeElimination {
    /** The rule fields x1 and x2, as slots 0 and 1. */
    var rules: seq<RuleState>
    /** The calls of `build` made so far. */
    ghost var log: seq<ManagerCall>
    /** The rule hook calls made so far. */
    ghost var invoked: seq<Call>

    /** The two rules are the ones `new` built, whatever their flags. */
    ghost predicate Valid()
      reads this
    {
      |rules| == 2 && (forall k :: 0 <= k < 2 ==> rules[k].kind == DeadCodeKinds[k] && rules[k].inFixedLoop == None)
    }

    /** The state is what the rules at `slots` leave after seeing the node `start.tree`. */
    ghost predicate Dispatched<T>(start: Pass<T>, slots: seq<nat>, hook: Hook, step: Step<T>, tree: T)
      reads this
      requires SlotsWithin(slots, |start.rules|)
    {
      var p := Dispatch(start.rules, slots, hook, step, start.tree);
      rules == p.rules && tree == p.tree && invoked == start.calls + p.calls
    }

    /** `new`: both rules are built without arguments. */
    constructor ()
      ensures Valid()
      ensures rules == [RuleState(PeepholeFoldConstants, None, false), RuleState(PeepholeRemoveDeadCode, None, false)]
      ensures log == [] && invoked == []
    {
      rules := [RuleState(PeepholeFoldConstants, None, false), RuleState(PeepholeRemoveDeadCode, None, false)];
      log, invoked := [], [];
    }

    /** Rule `slot`, the n-th rule of the hook, sees the node the rules before it left; a reported change sets its flag. */
    method Invoke<T>(slot: nat, hook: Hook, step: Step<T>, node: T, ghost start: Pass<T>, ghost n: nat) returns (out: T)
      requires Valid() && |start.rules| == 2
      requires n < |DeadCodeDispatch(hook)| && DeadCodeDispatch(hook)[n] == slot
      requires Dispatched(start, DeadCodeDispatch(hook)[..n], hook, step, node)
      modifies this
      ensures Valid() && log == old(log)
      ensures Dispatched(start, DeadCodeDispatch(hook)[..n + 1], hook, step, out)
    {
      ghost var slots := DeadCodeDispatch(hook);
      assert slots[..n + 1][..n] == slots[..n];
      ghost var d := Dispatch(start.rules, slots[..n], hook, step, start.tree);
      var (t, did) := step(rules[slot], hook, node);
      if did {
        rules := rules[slot := rules[slot].(changed := true)];
      } else {
        assert rules[slot := rules[slot].(changed := rules[slot].changed || did)] == rules;
      }
      out := t;
      invoked := invoked + [Call(slot, hook)];
      AppendAssoc(start.calls, d.calls, [Call(slot, hook)]);
    }

    /** The `Traverse` implementation: the expression exit folds before it removes. */
    method OnHook<T>(hook: Hook, step: Step<T>, node: T) returns (out: T)
      requires Valid()
      modifies this
      ensures Valid()
      ensures var p := Dispatch(old(rules), DeadCodeDispatch(hook), hook, step, node);
              rules == p.rules && out == p.tree && invoked == old(invoked) + p.calls
      ensures log == old(log)
    {
      ghost var start := Pass(rules, node, invoked);
      assert DeadCodeDispatch(hook)[..0] == [];
      assert DeadCodeDispatch(hook)[..|DeadCodeDispatch(hook)|] == DeadCodeDispatch(hook);
      match hook
      case ExitStatement =>
        out := Invoke(1, hook, step, node, start, 0);
      case ExitProgram =>
        out := Invoke(1, hook, step, node, start, 0);
      case ExitStatements =>
        out := Invoke(1, hook, step, node, start, 0);
      case ExitExpression =>
        out := Invoke(0, hook, step, node, start, 0);
        out := Invoke(1, hook, step, out, start, 1);
      case _ =>
        out := node;
    }

    /** `build`: exactly one traversal; the flags are neither reset nor consulted. */
    method Build<T>(program: T, step: Step<T>, walk: T -> seq<Hook>) returns (out: T)
      requires Valid()
      modifies this
      ensures Valid()
      ensures var p := Traverse(old(rules), DeadCodeDispatch, walk(program), step, program);
              rules == p.rules && out == p.tree && invoked == old(invoked) + p.calls
      ensures log == old(log) + [BuildCall]
    {
      var events := walk(program);
      out := program;
      var i := 0;
      while i < |events|
        invariant Valid() && 0 <= i <= |events|
        invariant var p := Traverse(old(rules), DeadCodeDispatch, events[..i], step, program);
                  rules == p.rules && out == p.tree && invoked == old(invoked) + p.calls
        invariant log == old(log)
      {
        assert events[..i + 1][..i] == events[..i];
        ghost var done := Traverse(old(rules), DeadCodeDispatch, events[..i], step, program);
        ghost var next := Dispatch(rules, DeadCodeDispatch(events[i]), events[i], step, out);
        out := OnHook(events[i], step, out);
        AppendAssoc(old(invoked), done.calls, next.calls);
        i := i + 1;
      }
      assert events[..i] == events;
      log := log + [BuildCall];
    }
  }
}
