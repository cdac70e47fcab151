/**
 Turning an order into kitchen tasks. A built task is known by its position in the
 list; creating the order later gives every position a fresh identifier.
 */
module TaskBuilder {
  import opened Common
  import opened Fulfillment

  datatype RecipeStep = RecipeStep(stationType: string, operation: string, duration: int, stepOrder: int)
  datatype OrderItem = OrderItem(menuItem: string, quantity: int)
  type Recipes = map<string, seq<RecipeStep>>
  datatype Edge = Edge(task: nat, dependsOn: nat)

  // ----- sorting the steps of a recipe -----

  ghost predicate StepsSorted(steps: seq<RecipeStep>) {
    forall i, j | 0 <= i < j < |steps| :: steps[i].stepOrder <= steps[j].stepOrder
  }

  function InsertStep(steps: seq<RecipeStep>, step: RecipeStep): seq<RecipeStep> {
    if steps == [] || steps[|steps| - 1].stepOrder <= step.stepOrder then steps + [step]
    else InsertStep(steps[..|steps| - 1], step) + [steps[|steps| - 1]]
  }

  /** Stable: a later step goes after the earlier steps of equal order. */
  function SortSteps(steps: seq<RecipeStep>): seq<RecipeStep> {
    if steps == [] then [] else InsertStep(SortSteps(steps[..|steps| - 1]), steps[|steps| - 1])
  }

  lemma {:induction false} InsertStepSorted(steps: seq<RecipeStep>, step: RecipeStep)
    requires StepsSorted(steps)
    ensures var r := InsertStep(steps, step);
            && StepsSorted(r) && |r| == |steps| + 1
            && r[|r| - 1].stepOrder == if steps == [] then step.stepOrder
               else Max(steps[|steps| - 1].stepOrder, step.stepOrder)
  {
    if steps != [] && steps[|steps| - 1].stepOrder > step.stepOrder {
      InsertStepSorted(steps[..|steps| - 1], step);
    }
  }

  lemma {:induction false} InsertStepPermutes(steps: seq<RecipeStep>, step: RecipeStep)
    ensures multiset(InsertStep(steps, step)) == multiset(steps) + multiset{step}
  {
    var n := |steps| - 1;
    if steps != [] && steps[n].stepOrder > step.stepOrder {
      assert steps == steps[..n] + [steps[n]];
      InsertStepPermutes(steps[..n], step);
    }
  }

  /** Sorting arranges the same steps, the same number of times each, in order. */
  lemma {:induction false} SortStepsSorted(steps: seq<RecipeStep>)
    ensures StepsSorted(SortSteps(steps)) && |SortSteps(steps)| == |steps|
    ensures multiset(SortSteps(steps)) == multiset(steps)
  {
    if steps != [] {
      var n := |steps| - 1;
      assert steps == steps[..n] + [steps[n]];
      SortStepsSorted(steps[..n]);
      InsertStepSorted(SortSteps(steps[..n]), steps[n]);
      InsertStepPermutes(SortSteps(steps[..n]), steps[n]);
    }
  }

  /** The steps of one order number. */
  function OfOrder(steps: seq<RecipeStep>, x: int): seq<RecipeStep> {
    if steps == [] then []
    else OfOrder(steps[..|steps| - 1], x) + (if steps[|steps| - 1].stepOrder == x then [steps[|steps| - 1]] else [])
  }

  lemma {:induction false} InsertStepStable(steps: seq<RecipeStep>, step: RecipeStep, x: int)
    ensures OfOrder(InsertStep(steps, step), x) == OfOrder(steps, x) + (if step.stepOrder == x then [step] else [])
  {
    if steps != [] && steps[|steps| - 1].stepOrder > step.stepOrder {
      InsertStepStable(steps[..|steps| - 1], step, x);
    }
  }

  /** Steps of equal order stay in the order of the recipe. */
  lemma {:induction false} SortStepsStable(steps: seq<RecipeStep>, x: int)
    ensures OfOrder(SortSteps(steps), x) == OfOrder(steps, x)
  {
    if steps != [] {
      SortStepsStable(steps[..|steps| - 1], x);
      InsertStepStable(SortSteps(steps[..|steps| - 1]), steps[|steps| - 1], x);
    }
  }

  lemma SortStepsOrdered(steps: seq<RecipeStep>)
    ensures StepsSorted(SortSteps(steps)) && |SortSteps(steps)| == |steps|
  {
    SortStepsSorted(steps);
  }

  lemma SortStepsSubset(steps: seq<RecipeStep>)
    ensures forall s | s in SortSteps(steps) :: s in steps
  {
    SortStepsSorted(steps);
    forall s | s in SortSteps(steps) ensures s in steps {
      assert s in multiset(SortSteps(steps));
      assert s in multiset(steps);
    }
  }

  // ----- what is built -----

  function NewTask(order: OrderId, item: nat, unit: nat, step: RecipeStep): Task {
    Task(order, item, unit, step.stepOrder, step.stationType, step.operation, step.duration, Created,
         None, None, None, None, None, None, None, None, 0, None, None, None)
  }

  /** Nothing has happened to the task yet. */
  predicate Untouched(t: Task) {
    && t.status == Created && t.attempts == 0 && t.station.None? && t.kdsTask.None?
    && t.displayedAt.None? && t.startedAt.None? && t.slaDeadlineAt.None? && t.completedAt.None?
    && t.actualDuration.None? && t.delay.None? && t.queuedAt.None? && t.stream.None? && t.messageId.None?
  }

  /** The task carries what the recipe step says. */
  predicate IsStepOf(t: Task, step: RecipeStep) {
    && t.stationType == step.stationType && t.operation == step.operation
    && t.estimated == step.duration && t.stepOrder == step.stepOrder
  }

  /** The task is a new one of that unit of the order, for that step. */
  predicate IsNew(t: Task, order: OrderId, item: nat, unit: nat, step: RecipeStep) {
    t.order == order && t.item == item && t.unit == unit && IsStepOf(t, step) && Untouched(t)
  }

  /** What is built so far, and then the first k steps of one unit. */
  function WithSteps(built: seq<Task>, order: OrderId, item: nat, unit: nat, steps: seq<RecipeStep>, k: nat): seq<Task>
    requires k <= |steps|
  {
    if k == 0 then built
    else WithSteps(built, order, item, unit, steps, k - 1) + [NewTask(order, item, unit, steps[k - 1])]
  }

  /** What is built so far, and then a number of units of one order item. */
  function WithUnits(built: seq<Task>, order: OrderId, item: nat, units: nat, steps: seq<RecipeStep>): seq<Task> {
    if units == 0 then built
    else WithSteps(WithUnits(built, order, item, units - 1, steps), order, item, units, steps, |steps|)
  }

  ghost predicate HasRecipes(items: seq<OrderItem>, recipes: Recipes) {
    forall i | 0 <= i < |items| :: items[i].menuItem in recipes
  }

  /** The tasks of the first n order items. */
  function TasksUpTo(order: OrderId, items: seq<OrderItem>, recipes: Recipes, n: nat): seq<Task>
    requires HasRecipes(items, recipes) && n <= |items|
  {
    if n == 0 then []
    else WithUnits(TasksUpTo(order, items, recipes, n - 1), order, n - 1, Units(items[n - 1]),
                   SortSteps(recipes[items[n - 1].menuItem]))
  }

  function Units(item: OrderItem): nat { Max(0, item.quantity) }

  function OrderTasks(order: OrderId, items: seq<OrderItem>, recipes: Recipes): seq<Task>
    requires HasRecipes(items, recipes)
  {
    TasksUpTo(order, items, recipes, |items|)
  }

  predicate SameUnit(a: Task, b: Task) { a.item == b.item && a.unit == b.unit }

  /** The edges the shape of a task list calls for, among its first n tasks: every task
      waits for the one just before it when both belong to the same unit, and for nothing else. */
  function EdgesUpTo(tasks: seq<Task>, n: nat): seq<Edge>
    requires n <= |tasks|
  {
    if n <= 1 then []
    else EdgesUpTo(tasks, n - 1) + (if SameUnit(tasks[n - 2], tasks[n - 1]) then [Edge(n - 1, n - 2)] else [])
  }

  function ChainEdges(tasks: seq<Task>): seq<Edge> { EdgesUpTo(tasks, |tasks|) }

  lemma {:induction false} EdgesExact(tasks: seq<Task>, n: nat, e: Edge)
    requires n <= |tasks|
    ensures e in EdgesUpTo(tasks, n) <==>
            0 < e.task < n && e.dependsOn == e.task - 1 && SameUnit(tasks[e.dependsOn], tasks[e.task])
  {
    if n > 1 { EdgesExact(tasks, n - 1, e); }
  }

  lemma {:induction false} EdgesOfPrefix(tasks: seq<Task>, more: seq<Task>, n: nat)
    requires n <= |tasks|
    ensures EdgesUpTo(tasks + more, n) == EdgesUpTo(tasks, n)
  {
    if n > 1 { EdgesOfPrefix(tasks, more, n - 1); }
  }

  lemma ChainEdgesAppend(tasks: seq<Task>, task: Task)
    ensures ChainEdges(tasks + [task]) == ChainEdges(tasks)
              + (if tasks != [] && SameUnit(tasks[|tasks| - 1], task) then [Edge(|tasks|, |tasks| - 1)] else [])
  {
    EdgesOfPrefix(tasks, [task], |tasks|);
  }

  /** The list so far ends in an earlier unit than this one. */
  ghost predicate EndsBefore(tasks: seq<Task>, item: nat, unit: nat) {
    tasks != [] ==>
      var last := tasks[|tasks| - 1];
      last.item < item || (last.item == item && last.unit < unit)
  }

  ghost predicate EndsIn(tasks: seq<Task>, item: nat, unit: nat) {
    tasks != [] && tasks[|tasks| - 1].item == item && tasks[|tasks| - 1].unit == unit
  }

  /** The innermost loop of the builder: the chain of one unit, each task after the one made before it. */
  method BuildUnit(order: OrderId, item: nat, unit: nat, steps: seq<RecipeStep>,
                   built: seq<Task>, edges: seq<Edge>)
    returns (tasks: seq<Task>, dependencies: seq<Edge>)
    requires edges == ChainEdges(built) && EndsBefore(built, item, unit)
    ensures tasks == WithSteps(built, order, item, unit, steps, |steps|)
    ensures |tasks| == |built| + |steps| && tasks[..|built|] == built
    ensures forall k | 0 <= k < |steps| :: IsNew(tasks[|built| + k], order, item, unit, steps[k])
    ensures dependencies == ChainEdges(tasks) && EndsBefore(tasks, item, unit + 1)
  {
    tasks, dependencies := built, edges;
    var previous: Option<nat> := None;
    for k := 0 to |steps|
      invariant tasks == WithSteps(built, order, item, unit, steps, k)
      invariant previous == if k == 0 then None else Some(|tasks| - 1)
      invariant if k == 0 then tasks == built else EndsIn(tasks, item, unit)
      invariant |tasks| == |built| + k && tasks[..|built|] == built
      invariant forall j | 0 <= j < k :: IsNew(tasks[|built| + j], order, item, unit, steps[j])
      invariant dependencies == ChainEdges(tasks)
    {
      var task := NewTask(order, item, unit, steps[k]);
      ChainEdgesAppend(tasks, task);
      if previous.Some? {
        dependencies := dependencies + [Edge(|tasks|, previous.value)];
      }
      previous := Some(|tasks|);
      tasks := tasks + [task];
    }
  }

  /** The builder: items, units and steps in turn. */
  method Build(order: OrderId, items: seq<OrderItem>, recipes: Recipes)
    returns (tasks: seq<Task>, dependencies: seq<Edge>)
    requires HasRecipes(items, recipes)
    ensures tasks == OrderTasks(order, items, recipes) && |tasks| == TotalTasks(items, recipes, |items|)
    ensures forall i: nat, u: nat, j: nat | IsUnitStep(items, recipes, i, u, j) ::
              HasTaskAt(tasks, order, items, recipes, i, u, j)
    ensures dependencies == ChainEdges(tasks)
  {
    hide HasTaskAt, IsNew, SortSteps, TotalTasks, WithSteps;
    tasks, dependencies := [], [];
    for i := 0 to |items|
      invariant tasks == TasksUpTo(order, items, recipes, i)
      invariant dependencies == ChainEdges(tasks)
      invariant EndsBefore(tasks, i, 1)
    {
      var steps := SortSteps(recipes[items[i].menuItem]);
      ghost var before := tasks;
      var unit := 1;
      while unit <= items[i].quantity
        invariant 1 <= unit <= Units(items[i]) + 1
        invariant tasks == WithUnits(before, order, i, unit - 1, steps)
        invariant dependencies == ChainEdges(tasks)
        invariant EndsBefore(tasks, i, unit)
      {
        tasks, dependencies := BuildUnit(order, i, unit, steps, tasks, dependencies);
        unit := unit + 1;
      }
    }
    TasksCounts(order, items, recipes, |items|);
    forall i: nat, u: nat, j: nat | IsUnitStep(items, recipes, i, u, j)
      ensures HasTaskAt(tasks, order, items, recipes, i, u, j)
    {
      TaskAtPosition(order, items, recipes, |items|, i, u, j);
    }
  }

  // ----- the shape of what is built -----

  /** Order item first, then unit, then recipe step. */
  predicate Before(a: Task, b: Task) {
    a.item < b.item || (a.item == b.item && (a.unit < b.unit || (a.unit == b.unit && a.stepOrder <= b.stepOrder)))
  }

  ghost predicate InBuildOrder(tasks: seq<Task>) {
    forall i, j | 0 <= i < j < |tasks| :: Before(tasks[i], tasks[j])
  }

  ghost predicate MadeFrom(t: Task, steps: seq<RecipeStep>) {
    exists s | s in steps :: IsStepOf(t, s)
  }

  /** Every task comes from the recipe of its order item, for one of the units ordered. */
  ghost predicate FromRecipes(tasks: seq<Task>, order: OrderId, items: seq<OrderItem>, recipes: Recipes)
    requires HasRecipes(items, recipes)
  {
    forall i | 0 <= i < |tasks| :: FromRecipe(tasks[i], order, items, recipes)
  }

  ghost predicate FromRecipe(t: Task, order: OrderId, items: seq<OrderItem>, recipes: Recipes)
    requires HasRecipes(items, recipes)
  {
    && t.order == order && Untouched(t)
    && t.item < |items| && 1 <= t.unit <= items[t.item].quantity && MadeFrom(t, recipes[items[t.item].menuItem])
  }

  /** There is such a step of such a unit among what was ordered. */
  predicate IsUnitStep(items: seq<OrderItem>, recipes: Recipes, i: nat, u: nat, j: nat)
    requires HasRecipes(items, recipes)
  {
    i < |items| && 1 <= u <= items[i].quantity && j < |recipes[items[i].menuItem]|
  }

  /** Where a step of a unit stands in the list: after all earlier items, units and steps. */
  function Position(items: seq<OrderItem>, recipes: Recipes, i: nat, u: nat, j: nat): int
    requires HasRecipes(items, recipes) && IsUnitStep(items, recipes, i, u, j)
  {
    TotalTasks(items, recipes, i) + (u - 1) * |recipes[items[i].menuItem]| + j
  }

  ghost predicate HasTaskAt(tasks: seq<Task>, order: OrderId, items: seq<OrderItem>, recipes: Recipes,
                            i: nat, u: nat, j: nat)
    requires HasRecipes(items, recipes) && IsUnitStep(items, recipes, i, u, j)
  {
    var steps := SortSteps(recipes[items[i].menuItem]);
    var p := Position(items, recipes, i, u, j);
    0 <= p < |tasks| && j < |steps| && IsNew(tasks[p], order, i, u, steps[j])
  }

  lemma {:induction false} WithStepsShape(built: seq<Task>, order: OrderId, item: nat, unit: nat,
                                         steps: seq<RecipeStep>, k: nat)
    requires k <= |steps| && EndsBefore(built, item, unit)
    ensures var r := WithSteps(built, order, item, unit, steps, k);
            && |r| == |built| + k && |ChainEdges(r)| == |ChainEdges(built)| + Max(0, k - 1)
            && (if k == 0 then r == built else EndsIn(r, item, unit))
  {
    if k > 0 {
      WithStepsShape(built, order, item, unit, steps, k - 1);
      ChainEdgesAppend(WithSteps(built, order, item, unit, steps, k - 1), NewTask(order, item, unit, steps[k - 1]));
    }
  }

  lemma {:induction false} WithStepsOrder(built: seq<Task>, order: OrderId, items: seq<OrderItem>, recipes: Recipes,
                                         item: nat, unit: nat, steps: seq<RecipeStep>, k: nat)
    requires HasRecipes(items, recipes) && item < |items| && 1 <= unit <= Units(items[item])
    requires k <= |steps| && EndsBefore(built, item, unit) && StepsSorted(steps)
    requires forall s | s in steps :: s in recipes[items[item].menuItem]
    requires InBuildOrder(built) && FromRecipes(built, order, items, recipes)
    ensures var r := WithSteps(built, order, item, unit, steps, k);
            && InBuildOrder(r) && FromRecipes(r, order, items, recipes)
            && (if k == 0 then r == built else r != [] && IsNew(r[|r| - 1], order, item, unit, steps[k - 1]))
  {
    if k > 0 {
      WithStepsOrder(built, order, items, recipes, item, unit, steps, k - 1);
      AppendInOrder(WithSteps(built, order, item, unit, steps, k - 1), NewTask(order, item, unit, steps[k - 1]));
      assert IsStepOf(NewTask(order, item, unit, steps[k - 1]), steps[k - 1]);
      assert FromRecipe(NewTask(order, item, unit, steps[k - 1]), order, items, recipes);
    }
  }

  lemma AppendInOrder(tasks: seq<Task>, task: Task)
    requires InBuildOrder(tasks) && (tasks != [] ==> Before(tasks[|tasks| - 1], task))
    ensures InBuildOrder(tasks + [task])
  {
  }

  lemma {:induction false} WithUnitsShape(built: seq<Task>, order: OrderId, item: nat, units: nat,
                                          steps: seq<RecipeStep>)
    requires EndsBefore(built, item, 1)
    ensures var r := WithUnits(built, order, item, units, steps);
            && |r| == |built| + units * |steps|
            && |ChainEdges(r)| == |ChainEdges(built)| + units * Max(0, |steps| - 1)
            && EndsBefore(r, item, units + 1)
  {
    if units > 0 {
      WithUnitsShape(built, order, item, units - 1, steps);
      WithStepsShape(WithUnits(built, order, item, units - 1, steps), order, item, units, steps, |steps|);
      OneMore(units, |steps|);
      OneMore(units, Max(0, |steps| - 1));
    }
  }

  lemma OneMore(units: nat, n: nat)
    requires units > 0
    ensures units * n == (units - 1) * n + n
  {
  }

  lemma {:induction false} WithUnitsOrder(built: seq<Task>, order: OrderId, items: seq<OrderItem>, recipes: Recipes,
                                         item: nat, units: nat, steps: seq<RecipeStep>)
    requires HasRecipes(items, recipes) && item < |items| && units <= Units(items[item])
    requires EndsBefore(built, item, 1) && StepsSorted(steps)
    requires forall s | s in steps :: s in recipes[items[item].menuItem]
    requires InBuildOrder(built) && FromRecipes(built, order, items, recipes)
    ensures var r := WithUnits(built, order, item, units, steps);
            InBuildOrder(r) && FromRecipes(r, order, items, recipes)
  {
    if units > 0 {
      WithUnitsOrder(built, order, items, recipes, item, units - 1, steps);
      WithUnitsShape(built, order, item, units - 1, steps);
      WithStepsOrder(WithUnits(built, order, item, units - 1, steps), order, items, recipes, item, units, steps,
        |steps|);
    }
  }

  function TotalTasks(items: seq<OrderItem>, recipes: Recipes, n: nat): nat
    requires HasRecipes(items, recipes) && n <= |items|
  {
    if n == 0 then 0
    else TotalTasks(items, recipes, n - 1) + Units(items[n - 1]) * |recipes[items[n - 1].menuItem]|
  }

  function TotalEdges(items: seq<OrderItem>, recipes: Recipes, n: nat): int
    requires HasRecipes(items, recipes) && n <= |items|
  {
    if n == 0 then 0
    else TotalEdges(items, recipes, n - 1) + Units(items[n - 1]) * Max(0, |recipes[items[n - 1].menuItem]| - 1)
  }

  /** As many tasks as units times steps, and one edge fewer than steps in every unit. */
  lemma {:induction false} TasksCounts(order: OrderId, items: seq<OrderItem>, recipes: Recipes, n: nat)
    requires HasRecipes(items, recipes) && n <= |items|
    ensures var r := TasksUpTo(order, items, recipes, n);
            && |r| == TotalTasks(items, recipes, n)
            && |ChainEdges(r)| == TotalEdges(items, recipes, n)
            && EndsBefore(r, n, 1)
  {
    if n > 0 {
      var steps := SortSteps(recipes[items[n - 1].menuItem]);
      TasksCounts(order, items, recipes, n - 1);
      SortStepsOrdered(recipes[items[n - 1].menuItem]);
      WithUnitsShape(TasksUpTo(order, items, recipes, n - 1), order, n - 1, Units(items[n - 1]), steps);
    }
  }

  /** The list runs through items, then units, then recipe steps in their sorted order, so
      the tasks of a unit are one contiguous block in recipe order. */
  lemma {:induction false} TasksInOrder(order: OrderId, items: seq<OrderItem>, recipes: Recipes, n: nat)
    requires HasRecipes(items, recipes) && n <= |items|
    ensures var r := TasksUpTo(order, items, recipes, n);
            InBuildOrder(r) && FromRecipes(r, order, items, recipes)
  {
    if n > 0 {
      var recipe := recipes[items[n - 1].menuItem];
      TasksInOrder(order, items, recipes, n - 1);
      TasksCounts(order, items, recipes, n - 1);
      SortStepsOrdered(recipe);
      SortStepsSubset(recipe);
      WithUnitsOrder(TasksUpTo(order, items, recipes, n - 1), order, items, recipes, n - 1,
                     Units(items[n - 1]), SortSteps(recipe));
    }
  }

  // ----- which task stands where -----

  lemma {:induction false} WithStepsAt(built: seq<Task>, order: OrderId, item: nat, unit: nat,
                                      steps: seq<RecipeStep>, k: nat)
    requires k <= |steps|
    ensures var r := WithSteps(built, order, item, unit, steps, k);
            && |r| == |built| + k && r[..|built|] == built
            && (forall j | 0 <= j < k :: IsNew(r[|built| + j], order, item, unit, steps[j]))
  {
    if k > 0 { WithStepsAt(built, order, item, unit, steps, k - 1); }
  }

  lemma {:induction false} WithUnitsAt(built: seq<Task>, order: OrderId, item: nat, units: nat,
                                      steps: seq<RecipeStep>, u: nat, j: nat)
    ensures var r := WithUnits(built, order, item, units, steps);
            && |r| == |built| + units * |steps| && r[..|built|] == built
            && (1 <= u <= units && j < |steps| ==>
                  var p := |built| + (u - 1) * |steps| + j;
                  p < |r| && IsNew(r[p], order, item, u, steps[j]))
  {
    hide WithSteps, IsNew;
    if units > 0 {
      var before := WithUnits(built, order, item, units - 1, steps);
      var r := WithUnits(built, order, item, units, steps);
      WithUnitsAt(built, order, item, units - 1, steps, u, j);
      WithStepsAt(before, order, item, units, steps, |steps|);
      OneMore(units, |steps|);
      assert r[..|before|] == before;
      assert r[..|built|] == before[..|built|];
      if 1 <= u < units && j < |steps| {
        var p := |built| + (u - 1) * |steps| + j;
        assert p < |before| && r[p] == before[p];
      } else if u == units && j < |steps| {
        assert r[|before| + j] == r[|built| + (u - 1) * |steps| + j];
      }
    }
  }

  /** Every task the order calls for stands at its position, and is made from the step at that place of
      the sorted recipe. */
  lemma {:induction false} TaskAtPosition(order: OrderId, items: seq<OrderItem>, recipes: Recipes, n: nat,
                                         i: nat, u: nat, j: nat)
    requires HasRecipes(items, recipes) && n <= |items| && IsUnitStep(items, recipes, i, u, j) && i < n
    ensures HasTaskAt(TasksUpTo(order, items, recipes, n), order, items, recipes, i, u, j)
  {
    hide WithUnits, IsNew, SortSteps, TotalTasks, TotalEdges;
    var recipe := recipes[items[n - 1].menuItem];
    var before := TasksUpTo(order, items, recipes, n - 1);
    SortStepsOrdered(recipe);
    TasksCounts(order, items, recipes, n - 1);
    WithUnitsAt(before, order, n - 1, Units(items[n - 1]), SortSteps(recipe), u, j);
    if i < n - 1 {
      TaskAtPosition(order, items, recipes, n - 1, i, u, j);
      StaysAt(before, TasksUpTo(order, items, recipes, n), order, items, recipes, i, u, j);
    }
  }

  lemma StaysAt(before: seq<Task>, tasks: seq<Task>, order: OrderId, items: seq<OrderItem>, recipes: Recipes,
                i: nat, u: nat, j: nat)
    requires HasRecipes(items, recipes) && IsUnitStep(items, recipes, i, u, j)
    requires |before| <= |tasks| && tasks[..|before|] == before
    requires HasTaskAt(before, order, items, recipes, i, u, j)
    ensures HasTaskAt(tasks, order, items, recipes, i, u, j)
  {
    hide Position, IsNew, SortSteps, HasRecipes, IsUnitStep;
    var p := Position(items, recipes, i, u, j);
    assert tasks[p] == before[p];
  }

  lemma Scaled(a: nat, b: nat, size: nat)
    requires a >= b
    ensures a * size >= b * size
  {
  }

  lemma Divided(q: nat, units: nat, size: nat)
    requires q < units * size
    ensures size > 0 && q / size < units && q == (q / size) * size + q % size
  {
    if q / size >= units {
      Scaled(q / size, units, size);
      assert false;
    }
  }

  /** Every position belongs to some step of some unit. */
  lemma {:induction false} EveryPosition(items: seq<OrderItem>, recipes: Recipes, n: nat, p: nat)
    returns (i: nat, u: nat, j: nat)
    requires HasRecipes(items, recipes) && n <= |items| && p < TotalTasks(items, recipes, n)
    ensures IsUnitStep(items, recipes, i, u, j) && i < n && Position(items, recipes, i, u, j) == p
  {
    var before := TotalTasks(items, recipes, n - 1);
    if before <= p {
      var size := |recipes[items[n - 1].menuItem]|;
      assert p - before < Units(items[n - 1]) * size;
      Divided(p - before, Units(items[n - 1]), size);
      i, u, j := n - 1, (p - before) / size + 1, (p - before) % size;
    } else {
      i, u, j := EveryPosition(items, recipes, n - 1, p);
    }
  }
}
