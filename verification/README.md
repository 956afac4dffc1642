# The planner, the learner and the recogniser compiler, modelled

A Dafny model of the logic of this repository and proofs about it. It follows the program:

- **Planning.** `Networks`, `Progression`, `Exchange`, `Completeness`, `Preconditions`, `Descent` and
  `Orders` say what a partially ordered task network is, what its runs are, what a solution is and what
  a method's precondition promises of all that comes of it. `Rollout`,
  `SearchTree`, `TreeSearch`, `TaskTrees` and `CommitLoop` are the search of
  `lib/cpphop/cppMCTShop.h`, in place, against that meaning; `Reports` shows where its last report is
  wrong. `TaskGraphs` and `Grounding` are the
  copy-on-write networks of `lib/typedefs.h`.
- **Facts and queries.** `KnowledgeBase` is the copy-on-write fact store. `Queries` gives expressions
  their closed-world meaning, `Enumeration` and `Coverage` say what a backtracking search finds of it,
  `Evaluator` is that search over one mutable binding array, and `Answers` what it replies. `Pinning` says
  what those replies are of the query alone, and `Safety` which expressions are never given up on.
  `Snapshots` joins store and evaluator, `Definitions` gives a domain's effects and methods, and `Domains`
  what they come to.
- **Learning.** `Folding` and `Variants` (`eval/lift_loops.py`), `Lifting` (`eval/lift.py`).
- **Compiling recognisers.** `Recogniser` and `ProblemText` (`rtl_designs/problem_compiler.py`).
- **The rest.** `PlanGraph` (`lib/cpphop/grapher.h`), `PassAtK` (`eval/passk.py`), `Executor` and
  `Conversations` (`executor/executor.h`).

## How the model reads the code

- States are of any type: an action is a set of bindings and of successor states, so everything proved
  of the search holds for any semantics of actions. The evaluator is proved separately against
  satisfaction.
- Shuffles and random picks are arbitrary. A time limit is an arbitrary number of iterations. Scores are
  exact reals, and the value by which selection ranks children is any function of a node and its parent.
- Exceptions are outcomes (`Thrown`, `Raised`, `Refused`, `Failed`). What was being changed in place is
  not restored after one, as the code unwinds without restoring it.
- Objects that change in place are classes or are rebuilt by methods with loops: the plan vector, the
  search's nodes, shared buffers and tasks, the binding array, a context's memory. Continuations, closures
  in `lib/evaluator.h`, are a datatype saying what is left to do.
- A plan is a sequence of ground actions, not of their printed form.

What is assumed, because the code relies on it:

- `StableBindings`: no action changes what a method's bindings depend on, the facts about types
  (`lib/cpphop/cppMCTShop.h:457-461`). For soundness of refutation under a restricted choice of tasks.
  `Definitions.DefinedStable` derives it from how a domain is written.
- `LoaderShapes`: a method's check is ordered before its other subtasks, and method orderings are acyclic
  (`lib/cpphop/loader.h:863-886`). For look-ahead and for preconditions.
- At least one rollout per evaluation; with none, a mean would divide by zero.
- Every quantified variable has a type (`lib/cpphop/loader.h:405-420`), parameter names are distinct.
- For exactness of answers, that pinned values, facts and constants give parameters values of their
  types. The code never looks: `Answers.ResultsExact` gives the exact condition and
  `Answers.PinnedOutsideItsType` an input outside it.
- `PlainAtoms` for ground evaluation: an atom without arguments is of a predicate without parameters;
  `Snapshots.EmptyAtom` shows what happens otherwise.
- In `PlanGraph`, that the ordering graph is acyclic and its nodes are the visible ones and the checks. In
  `Executor`, that a prompt has a token, that chunk sizes are positive, and so, in a unified cache, is the
  limit, by which the source divides; in `Conversations`, that every conversation is encoded as at least
  one token. In `ProblemText`, tokens without white space, parentheses or semicolons.

What turned out not to hold, with an input where it fails and the condition under which it does:

- The report that no decomposition applies (`lib/cpphop/cppMCTShop.h:792-819`) is made too when the budget
  runs out with a child of the root unexplored. `TreeSearch.NoneLeftExactly` says when it is right,
  `Reports.ReportedInError` is a case where it is not, and `CommitLoop.SeekPlan` says which of the two a
  run of the planner ends in.
- A fact without a token, a line of objects without a name and an object named `-` do not survive `emit` and
  `read`: `ProblemText.LostOnTheWay` and the condition in `ProblemText.RoundTrip`. Nothing that was read has
  any of them (`ProblemText.ReadAgain`).
- A pinned parameter outside its type is answered (`Answers.PinnedOutsideItsType`, `Answers.ResultsExact`).
- An atom without arguments may be read differently by `eval_ground` and by the search (`Snapshots.EmptyAtom`,
  `Snapshots.EmptyAtomReadTwice`).

## Model

| member | source | states |
|---|---|---|
| Networks.GroundEdge | lib/typedefs.h:765-868 | which orderings a grounded network has: the old ones not touching the replaced task, its subtasks before each of its successors where no method ordering leaves them, and the method's own |
| Networks.GroundValid | lib/typedefs.h:765-868 | grounding keeps a network valid: orderings join tasks present, all ids are below the next one, every check named exists |
| Networks.BoundFirst | lib/typedefs.h:360-367 | a name has the value of the first pair of the binding with that name |
| Networks.GroundedTask | lib/typedefs.h:804-851 | a subtask that a decomposition adds: its head; each argument recorded as a constant as it is, each name in the binding as its value, any other name as it is; it carries the checks of the task decomposed and the method's own, and it establishes one only if it is the precondition task |
| Networks.GroundedCheck | lib/typedefs.h:785-803 | the check a decomposition records: the precondition's action, with the arguments the binding gives, constants not set apart, neither established nor consumed |
| Networks.RemoveValid | lib/typedefs.h:276-298 | so does taking a task out |
| Progression.NextValid | lib/cpphop/cppMCTShop.h:239-445 | every move, an action or a decomposition, keeps the network valid |
| Progression.SolvableByMove | lib/cpphop/cppMCTShop.h:239-445 | a point with tasks left can be completed exactly when some single move from it leads to one that can |
| Exchange.RenamesGround | lib/typedefs.h:765-868 | grounding the same method in two networks equal up to numbering gives two networks equal up to numbering |
| Exchange.RenamesMove | lib/cpphop/cppMCTShop.h:239-445 | networks equal up to the numbering of tasks and checks allow the same moves and stay equal up to numbering |
| Exchange.RenamesRun | lib/cpphop/cppMCTShop.h:239-445 | so each has a completing run exactly as long as the other's |
| Exchange.GroundTask | lib/typedefs.h:804-851 | every task of a grounded network that is not new is one of the old, unchanged, and the new ones have the ids from the next one on |
| Completeness.CommuteAct | lib/cpphop/cppMCTShop.h:453-496 | carrying out one free task and decomposing another can be done in either order, with the same network: tasks, orderings, checks and tags |
| Completeness.StaysFree | lib/cpphop/cppMCTShop.h:453-496 | decomposing one free task leaves every other free task free and unchanged |
| Completeness.GroundLinks | lib/cpphop/cppMCTShop.h:112-136 | a decomposition opens no causal link that an action could break |
| Completeness.SwapGround | lib/cpphop/cppMCTShop.h:453-496 | two decompositions can be done in either order, up to the numbering of what they add |
| Completeness.DecomposeFirst | lib/cpphop/cppMCTShop.h:453-461 | any completing run can be turned into one, as long, that begins with a decomposition of any given free compound task |
| Completeness.SystematicLosesNothing | lib/cpphop/cppMCTShop.h:470-496 | Algorithm 3 loses no solution, even when the compound task is picked by an adversary at every point, and needs no longer a run |
| Completeness.SystematicIsSound | lib/cpphop/cppMCTShop.h:470-496 | and finds only solutions |
| Completeness.SystematicIsExact | lib/cpphop/cppMCTShop.h:453-496 | a point can be completed if and only if Algorithm 3 completes it, whoever picks the compound task |
| Completeness.OnePickDecides | lib/cpphop/cppMCTShop.h:254-311 | with any one free compound task picked, a point can be completed if and only if one of that task's decompositions leads to one that can |
| Completeness.LastExists | lib/cpphop/loader.h:863-886 | acyclic method orderings leave some subtask last, after any other |
| Completeness.CheckIsOnlyFree | lib/cpphop/cppMCTShop.h:183-195 | with exactly one task free, decomposing it leaves its precondition check the only free task |
| Completeness.PrunedIsDead | lib/cpphop/cppMCTShop.h:183-195 | so a binding dropped by look-ahead then has no completion |
| Preconditions.GroundMatches | lib/typedefs.h:785-841 | every establishing task names its own check's action and arguments, and grounding keeps that |
| Preconditions.MoveKeepsSound | lib/cpphop/cppMCTShop.h:88-150 | every move keeps the bookkeeping of pending checks sound |
| Preconditions.SkipIsJustified | lib/cpphop/cppMCTShop.h:93-101 | skipping a check that passed at this very step never changes the verdict: the test with the cache is the plain test that every unconsumed check holds now |
| Preconditions.MoveKeepsLinks | lib/cpphop/cppMCTShop.h:112-136 | in Protected mode every move keeps every open link's precondition true |
| Preconditions.CheckPersists | lib/typedefs.h:111-121 | along a run a check keeps its definition, and stays consumed once consumed |
| Preconditions.MoveConsumes | lib/cpphop/cppMCTShop.h:138-150 | only a real action that carries a check consumes it |
| Preconditions.ConsumedHasCarrier | lib/cpphop/cppMCTShop.h:138-150 | so a consumed check has had such an action earlier in the run |
| Preconditions.AtStartHolds | lib/cpphop/cppMCTShop.h:88-110 | in every run, outside Compiled mode, the first real action carrying a method's check executes in a state where that precondition holds |
| Preconditions.ProtectedHolds | lib/cpphop/cppMCTShop.h:112-136 | in every Protected run the precondition holds in every state from an early check of it to the first real action that carries it |
| Preconditions.AheadAlong | lib/cpphop/loader.h:863-886 | at every point of a run a check not established yet has its early check still to come, ordered before everything else that carries it |
| Preconditions.ProtectedThroughout | lib/cpphop/cppMCTShop.h:112-136 | so in every Protected run the first real action carrying a check comes after an early check of it, and the precondition holds in every state between |
| Descent.BelowCarries | lib/typedefs.h:828-841 | at every point of a run the tasks that carry a decomposition's check are exactly those that have come of it: its subtasks, those of their decompositions, and so on down |
| Descent.CheckIsMethod | lib/typedefs.h:785-803 | at every later point that check holds exactly when the method's precondition holds under its binding |
| Descent.LooksGoodMeans | lib/cpphop/cppMCTShop.h:167-181 | look-ahead asks exactly whether the method's precondition holds under the binding |
| Descent.AtStartBelow | lib/cpphop/cppMCTShop.h:88-110 | so outside Compiled mode a method's precondition holds in the state where the first real action of all that comes of it is carried out, however deep below it |
| Descent.ProtectedBelow | lib/cpphop/cppMCTShop.h:112-136 | and in Protected mode it holds in every state from a step that carries out the method's precondition task up to that action |
| Descent.CheckedFirst | lib/cpphop/loader.h:863-886 | in every mode, Compiled included: of all that comes of a method with a precondition the first task moved is the precondition task, carried out in a state where the precondition holds under the binding |
| Descent.CompiledBelow | lib/cpphop/loader.h:863-886 | so every real action that comes of it follows such a step |
| Rollout.Shuffle | lib/cpphop/cppMCTShop.h:318-322 | any order of the same elements |
| Rollout.FreeTasks | lib/cpphop/cppMCTShop.h:264-288 | the free tasks, primitive and compound, or that one of them is neither |
| Rollout.FirstActionHolds | lib/cpphop/cppMCTShop.h:88-110 | `first_action_ok`, by its loop, answers what its specification says |
| Rollout.LinksHold | lib/cpphop/cppMCTShop.h:112-136 | `links_intact` the same |
| Rollout.Simulator.Candidates | lib/cpphop/cppMCTShop.h:264-316 | the candidates: every free task; or every free action with one free compound task, the first or any; or that one without the actions; a free task that fits neither is reported only if there is one; and they are decisive: all free tasks, or some free compound task among them |
| Rollout.Simulator.TryAction | lib/cpphop/cppMCTShop.h:339-383 | refuted means that no way of carrying out the task can be completed; solved means a witness; the plan vector is as it was |
| Rollout.Simulator.TryBinding | lib/cpphop/cppMCTShop.h:426-440 | the same of one binding of a method |
| Rollout.Simulator.TryPass | lib/cpphop/cppMCTShop.h:415-440 | the same of a pass over the bindings: every one is refuted, or left for the second pass; look-ahead drops only where dropping is a proof |
| Rollout.Simulator.TryMethod | lib/cpphop/cppMCTShop.h:385-440 | the same of one method, over both passes; with look-ahead the binding taken has its precondition hold now, or every one whose precondition holds is dead, and failing is no proof |
| Rollout.Simulator.TryTask | lib/cpphop/cppMCTShop.h:324-440 | the same of one candidate task |
| Rollout.AllExhausted | lib/cpphop/cppMCTShop.h:443-445 | refuting every candidate of a decisive set refutes the point |
| Rollout.NoFreeTask | lib/cpphop/cppMCTShop.h:312-317 | tasks left but none free: no completion |
| Rollout.Simulator.Simulate | lib/cpphop/cppMCTShop.h:239-445 | Refuted means that no progression at all from this state and network empties it; Solved means that one does within the depth budget, scored at its final state and whole plan; Cutoff means that a run as long as the budget leaves tasks; an exception means that a run reaches a free task that is invalid; the run of each of these keeps to the restriction at every step; the plan vector is restored on every return |
| SearchTree.NoLiveKid | lib/cpphop/cppMCTShop.h:497-500 | a node all of whose children are generated and refuted has no completion |
| SearchTree.DeadEndFound | lib/cpphop/cppMCTShop.h:51-56 | marking such a node keeps the whole tree sound and leaves fewer unmarked nodes, so starting the descent again ends |
| SearchTree.AttachGood | lib/cpphop/cppMCTShop.h:582-588 | a leaf given its children in any order is a sound node, provided they include a completable one whenever it is completable |
| SearchTree.BackedVisited | lib/cpphop/cppMCTShop.h:67-79 | after backing up from the selected node every selectable node has simulations, so no mean divides by zero |
| TreeSearch.ActionKids | lib/cpphop/cppMCTShop.h:502-543 | the children an action gives are moves from the node, one for every successor state of every way to carry it out that the checks allow |
| TreeSearch.MethodKids | lib/cpphop/cppMCTShop.h:545-579 | the children are the bindings' decompositions, one each and in order, less exactly those that look-ahead drops; what is dropped is dead |
| TreeSearch.ChildrenOf | lib/cpphop/cppMCTShop.h:470-581 | the children are one move from the node, by exactly the tasks that the algorithm branches over: every free action and the first free compound task, or that one alone; one of them can be completed whenever the node can, under Algorithm 2 and 3 alike; an exception means that a free task is invalid |
| TreeSearch.KidsDecide | lib/cpphop/cppMCTShop.h:453-496 | children of a decisive set of tasks suffice |
| TreeSearch.Search.Select | lib/cpphop/cppMCTShop.h:18-65 | the descent ends, on a way from the root on which every node has the greatest value among its siblings not refuted; it takes the last unexplored child there, or the leaf; it changes nothing but marks and that child; it returns a dead node only if that is the root |
| TreeSearch.Search.Pop | lib/cpphop/cppMCTShop.h:57-62 | an unexplored child is taken from the back, becomes a child and is what is returned; the rest of the tree is unchanged and sound |
| TreeSearch.Search.BestKids | lib/cpphop/cppMCTShop.h:34-50 | the refuted children are left out, and those kept have the greatest value; none is kept only if all are refuted |
| TreeSearch.Search.Backprop | lib/cpphop/cppMCTShop.h:67-79 | the score and count are added at the node and all its ancestors, and nowhere else |
| TreeSearch.Search.Expand | lib/cpphop/cppMCTShop.h:447-591 | a leaf gets exactly the children of the tasks the algorithm branches over, in some order, and the last is taken; without any it is marked and returned; the tree stays sound either way; an exception means that a free task is invalid |
| TreeSearch.Search.Bury | lib/cpphop/cppMCTShop.h:589-590 | a node without moves is marked, and was without completion |
| TreeSearch.Search.Roll | lib/cpphop/cppMCTShop.h:678-706 | the sum of the scores of as many solutions within the depth bound; or a proof that there is none; or a run that was cut short or hit an invalid task |
| TreeSearch.Search.Evaluate | lib/cpphop/cppMCTShop.h:678-750 | the node is credited with the sum of the scores of as many solutions as there were rollouts, or with -1 once, up to the root; it is marked exactly when a rollout refuted it, and then has no completion; a cut-off rollout marks nothing |
| TreeSearch.Search.Iterate | lib/cpphop/cppMCTShop.h:663-772 | an iteration descends by the greatest values, gives a node visited before its children, runs the rollouts, and credits or marks as they say, step by step as stated; it keeps the tree sound and adds to the root's simulations, unless it stops the search, with the root refuted; an exception means that a run from the node meets an invalid task |
| TreeSearch.Search.Work | lib/cpphop/cppMCTShop.h:672-750 | the part after the descent: a node visited before is expanded, one not visited is not, and the node or the child taken is evaluated |
| TreeSearch.Search.OneLeft | lib/cpphop/cppMCTShop.h:753-771 | the early-commit test passes exactly when the root's children are all generated and all but one refuted |
| TreeSearch.Search.Decide | lib/cpphop/cppMCTShop.h:661-790 | a decision uses all its iterations, unless the root is refuted, or, committing early, all but one of its children are; the child committed to is not refuted and has the best mean of those, and none is returned only when every child is; at every point every marked node has no completion; an exception means that a run from the root meets an invalid task |
| TreeSearch.EarlyCommitIsFinal | lib/cpphop/cppMCTShop.h:753-771 | once that test fires, whatever the search does later it commits to that same child or to none |
| TreeSearch.NoneLeftExactly | lib/cpphop/cppMCTShop.h:792-819 | with every explored child of the root refuted there is a solution from the root if and only if the root is not marked and some child not explored yet has one |
| TreeSearch.NoneLeftIsProof | lib/cpphop/cppMCTShop.h:792-819 | so with the root marked, or every child explored, there is no solution |
| Reports.ReportedInError | lib/cpphop/cppMCTShop.h:792-819 | a domain, and the tree two iterations may leave, where every explored child is refuted, one is unexplored, and there is a plan: outside that guard the report can be wrong |
| TaskTrees.UndoInverts | lib/cpphop/cppMCTShop.h:820-887 | taking a commit back gives exactly the task tree before it |
| TaskTrees.CommitFits | lib/cpphop/cppMCTShop.h:867-880 | a child of the committed node can always be recorded: its new tasks are new to the tree and their parent is a leaf of it |
| TaskTrees.ReplayedFits | lib/cpphop/cppMCTShop.h:867-880 | the same after any path of commits |
| TaskTrees.UndoShortens | lib/cpphop/cppMCTShop.h:820-846 | backtracking from the end of a path gives the tree of the shorter path |
| TaskTrees.TreeRecords | lib/cpphop/cppMCTShop.h:867-880 | what the tree of a path says: every decomposition on the path, with the method used and the subtasks it gave in order, each with its head, its arguments and the orderings it began with; tasks not decomposed as they were; and nothing else |
| TaskTrees.PathRun | lib/cpphop/cppMCTShop.h:593-896 | the committed path is a progression run, and the plan at its end is the real actions of that run, in order |
| CommitLoop.CommitTask | lib/cpphop/cppMCTShop.h:867-880 | recording a decision by appending its subtasks one at a time is the commit that the undo inverts |
| CommitLoop.TakenBackAt | lib/cpphop/cppMCTShop.h:820-846 | a backtrack drops exactly the last commit: the nodes, the task tree and the undo stack are again those of the shorter path |
| CommitLoop.Commit | lib/cpphop/cppMCTShop.h:860-887 | a commit adds exactly one |
| CommitLoop.Choose | lib/cpphop/cppMCTShop.h:640-819 | what is committed to is one move from the current node, the child not refuted of best mean in a sound search tree whose budget is used up as `Decide` says; when none is, and the root is marked or all its children explored, no solution exists from that node |
| CommitLoop.PathCommitted | lib/cpphop/cppMCTShop.h:860-887 | the tree and undo records of a longer path are those of the shorter and one commit |
| CommitLoop.SeekPlan | lib/cpphop/cppMCTShop.h:593-896 | the loop ends, and each ending means what it says. A plan: the real actions, in order, of a run from the first network to the empty one that ends in the state returned. Nothing applies: back at the root, something was tried, its children are all refuted, and it is proved exactly when the root is marked or all of them are explored, and then there is no solution at all. Budget exhausted: back at the root, with its iterations used up, no child and no mark. Stuck: after ten backtracks with no commit between. Too many decisions: after as many commits as allowed, with tasks left. An exception: a run from the first network meets an invalid task. After any mix of commits and backtracks tree and undo stack are those of the commits on the current path |
| Orders.OrderKept | lib/typedefs.h:765-868 | decomposing a free task leaves the order, direct or through others, among all the other tasks as it was |
| Orders.NewStayFirst | lib/typedefs.h:842-851 | no task already there comes before a new one |
| Orders.GroundAcyclic | lib/typedefs.h:765-868 | an acyclic network stays acyclic |
| Orders.SubtasksBeforeSuccessors | lib/typedefs.h:842-866 | every new subtask comes before every successor of the task it replaced |
| Orders.RemoveOrderKept | lib/typedefs.h:276-298 | carrying a free task out leaves the order of the others as it was |
| TaskGraphs.Store.Copy | lib/typedefs.h:138-175 | a copied network has the same value; no other changes |
| TaskGraphs.Store.Detach | lib/typedefs.h:243-254 | detaching a task changes no network's value and leaves the task to one network alone |
| TaskGraphs.Store.Write | lib/typedefs.h:243-254 | a write through it changes that task of that network only, whatever copies share it |
| TaskGraphs.Store.AddNode | lib/typedefs.h:256-269 | the new task has the next id, at the end; no other network changes |
| TaskGraphs.Store.SetTags | lib/typedefs.h:210-215 | tags of one task of one network |
| TaskGraphs.Store.AddEdge | lib/typedefs.h:271-274 | an edge written at both its ends, in one network only |
| TaskGraphs.Store.RemoveNode | lib/typedefs.h:276-298 | a task removed with its edges at their other ends and its tags, in one network only |
| TaskGraphs.AppendedMeans | lib/typedefs.h:256-269 | an added task keeps the network well formed, ids ascending and edges mirrored, and is the task set's addition |
| TaskGraphs.EdgeAddedMeans | lib/typedefs.h:271-274 | so does an added edge, and it adds that pair to the ordering relation |
| TaskGraphs.RemovedMeans | lib/typedefs.h:276-298 | so does a removal, which removes the task and all its pairs |
| TaskGraphs.DetachSame | lib/typedefs.h:243-254 | pointing a slot at a fresh copy changes no value |
| TaskGraphs.WriteOne | lib/typedefs.h:243-254 | a cell that one slot points to can be written without any other network seeing it |
| TaskGraphs.Replaced | lib/typedefs.h:138-175 | changing one network's slots changes no other network |
| TaskGraphs.RemoveAllAscending | lib/typedefs.h:276-298 | erasing keeps ids ascending |
| Grounding.FindLabel | lib/typedefs.h:774-781 | the scan for a subtask's label finds it if it is there |
| Grounding.Start | lib/typedefs.h:786-803 | the copy without the replaced task and with the method's own check, other networks untouched |
| Grounding.AddSub | lib/typedefs.h:804-851 | one subtask added with its tags and its edges to the successors |
| Grounding.AddSubs | lib/typedefs.h:804-851 | all of them, ids in order |
| Grounding.Order | lib/typedefs.h:852-866 | the method's own orderings, in whatever order they are listed; fails exactly when one names an unknown subtask |
| Grounding.Decompose | lib/typedefs.h:913-921 | grounding in place on shared storage gives a fresh network, well formed, whose value is the specified one, and changes no network already there; it fails exactly when an ordering names an unknown subtask |
| Grounding.StageDone | lib/typedefs.h:765-868 | the stages of the in-place construction end in the specified network |
| Grounding.TaggedMeans | lib/typedefs.h:828-841 | writing tags sets what that task carries, and nothing else of the network |
| KnowledgeBase.TupleShape | lib/kb.h:482-498 | the `i`-th tuple of a flat buffer |
| KnowledgeBase.Inserted | lib/kb.h:563-594 | appending a new tuple adds exactly that fact and keeps the buffer whole and without duplicates |
| KnowledgeBase.Erased | lib/kb.h:563-594 | erasing a tuple where it lies removes exactly that fact |
| KnowledgeBase.FindTuple | lib/kb.h:482-498 | the linear scan finds a tuple exactly when it is a fact, at a tuple boundary; arity 0 included |
| KnowledgeBase.NamedFact | lib/kb.h:763-778 | a fact by names is a fact by ids |
| KnowledgeBase.NamedChange | lib/kb.h:526-561 | one tuple changed is one named fact changed |
| KnowledgeBase.DetachSame | lib/kb.h:231-240 | detaching a relation changes no state and leaves it to one state alone |
| KnowledgeBase.WriteOne | lib/kb.h:231-240 | a write then changes that relation of that state only |
| KnowledgeBase.Change | lib/kb.h:563-594 | adding what is there and removing what is not change nothing; otherwise exactly one fact changes |
| KnowledgeBase.Store.Copy | lib/kb.h:205-226 | the copy believes what the original does; all others as before |
| KnowledgeBase.Store.RelationMut | lib/kb.h:231-240 | a relation to write to: unshared, and no state's belief changed |
| KnowledgeBase.Store.SetTuple | lib/kb.h:563-594 | one state's belief changes by one fact, every other state's not at all, for any history of copies and writes |
| KnowledgeBase.Store.SetFact | lib/kb.h:526-561 | the same by name, refusing unknown predicates, wrong numbers of arguments and unknown objects without any change |
| KnowledgeBase.Store.Holds | lib/kb.h:763-778 | true exactly of the facts believed |
| KnowledgeBase.Store.CountFacts | lib/kb.h:783-791 | the number of facts of a predicate, arity 0 included |
| KnowledgeBase.Store.FactsOf | lib/kb.h:795-815 | exactly those facts, each once |
| Queries.Coincidence | lib/expr.h:21-114 | truth depends on an expression's free variables only |
| Enumeration.GroundMeans | lib/evaluator.h:138-165 | `ground` is true exactly when every free variable is bound |
| Enumeration.BoundButMeans | lib/evaluator.h:303-316 | `ground_except` exactly when all but the quantifier's own are |
| Enumeration.TakeMeans | lib/evaluator.h:167-231 | a binding taken from a fact's tuple: its arguments read as that tuple and no other slot changes |
| Enumeration.AtomSound | lib/evaluator.h:167-231 | every binding an atom gives makes it a fact, however what is left is filled |
| Enumeration.AtomComplete | lib/evaluator.h:167-231 | every assignment that makes it a fact extends one of them |
| Coverage.CoversCompare | lib/evaluator.h:233-268 | the bindings of an equality cover its satisfying assignments exactly, unless it gives up |
| Coverage.CoversNot | lib/evaluator.h:270-284 | of a negation |
| Coverage.CoversAnd | lib/evaluator.h:404-425 | of a conjunction, taken in two passes, binders first |
| Coverage.CoversOr | lib/evaluator.h:446-456 | of a disjunction |
| Coverage.CoversExists | lib/evaluator.h:318-402 | of an existential, whose type atoms are tried when the body leaves a variable open |
| Coverage.CoversForall | lib/evaluator.h:318-402 | of a universal, decided by looking for an instance that fails |
| Coverage.LeavesCover | lib/evaluator.h:167-463 | for every expression: each binding enumerated satisfies it whatever the rest, and, unless the search gives up, each satisfying assignment extends one |
| Evaluator.FeedAnd | lib/evaluator.h:404-425 | solving conjuncts one inside another's continuation is feeding the conjunction's bindings to the continuation, stops included |
| Evaluator.FeedOr | lib/evaluator.h:446-456 | a disjunction feeds its disjuncts' bindings in order until stopped |
| Evaluator.FeedRefute | lib/evaluator.h:373-402 | the inner search of a quantifier stops at the first instance that decides it |
| Evaluator.Search.SolveAtom | lib/evaluator.h:167-231 | an atom: the continuation is called with exactly the specified bindings, in order, until it halts or the search gives up, and the binding array is left as found on every exit |
| Evaluator.Search.SolveCompare | lib/evaluator.h:233-268 | an equality: the continuation is called with exactly the specified bindings, in order, until it halts or the search gives up, and the binding array is left as found on every exit |
| Evaluator.Search.SolveNot | lib/evaluator.h:270-284 | a negation, by a search of its own that it halts at the first answer: the continuation is called with exactly the specified bindings, in order, until it halts or the search gives up, and the binding array is left as found on every exit |
| Evaluator.Search.SolveAnd | lib/evaluator.h:404-425 | a conjunction from any position on: the continuation is called with exactly the specified bindings, in order, until it halts or the search gives up, and the binding array is left as found on every exit |
| Evaluator.Search.SolveOr | lib/evaluator.h:446-456 | a disjunction: the continuation is called with exactly the specified bindings, in order, until it halts or the search gives up, and the binding array is left as found on every exit |
| Evaluator.Search.SolveForall | lib/evaluator.h:373-402 | a universal: the continuation is called with exactly the specified bindings, in order, until it halts or the search gives up, and the binding array is left as found on every exit |
| Evaluator.Search.SolveExists | lib/evaluator.h:318-372 | an existential: the continuation is called with exactly the specified bindings, in order, until it halts or the search gives up, and the binding array is left as found on every exit |
| Evaluator.Search.Solve | lib/evaluator.h:427-463 | the same for every expression |
| Evaluator.Search.Widen | lib/evaluator.h:669-689 | open parameters are widened over their types' objects, each result recorded once, and the array restored |
| Evaluator.Search.CheckInstance | lib/evaluator.h:373-383 | an instance of a universal's body is refuted in a nested search that restores the outer halt flag |
| Evaluator.Search.Agrees | lib/evaluator.h:167-231 | the test of a stored tuple against wanted values and repeated variables is whether it fits the atom |
| Answers.PossibleMeans | lib/evaluator.h:669-689 | a binding can be widened exactly when each open parameter's type has an object |
| Answers.ResultsDistinct | lib/evaluator.h:662-708 | no result is recorded twice, and the results are the widenings of the bindings found |
| Answers.ResultsComplete | lib/evaluator.h:662-708 | every well-typed satisfying assignment agreeing with what is pinned is a result, unless the search gave up |
| Answers.ResultsSound | lib/evaluator.h:662-708 | every result satisfies the expression and agrees with what is pinned, with the parameters left open of their types |
| Answers.ResultsExact | lib/evaluator.h:662-685 | the results are exactly the answers if and only if no completable binding has settled a parameter on a value outside its type: the code checks the types of the open ones only |
| Answers.PinnedOutsideItsType | lib/evaluator.h:662-685 | an input where that fails: one object, a type it is not of, a query that pins it |
| Answers.ResultsAnswerWhenTyped | lib/evaluator.h:662-685 | with well-typed pins, facts and constants every result is an answer, even of a search that gives up later |
| Answers.ResultsExactWhenTyped | lib/evaluator.h:662-685 | and of one that does not, the results are exactly the answers |
| Answers.AnyAgrees | lib/evaluator.h:715-753 | stopping at the first result tells whether there is any, and gives up only where the whole search does and no result came before |
| Answers.Prepare | lib/evaluator.h:566-601 | the binding array at the start, and whether a pinned name is refused |
| Answers.QueryMeans | lib/evaluator.h:491-521 | a query by names is a search by slots: parameters get distinct slots within the array |
| Answers.ResultsProper | lib/evaluator.h:621-708 | every result can be named: no parameter of it is left unbound |
| Answers.Ask | lib/evaluator.h:621-708 | `ask` declines an unsupported or given-up query, answers nothing to a refused one, and otherwise names the results |
| Answers.AskAny | lib/evaluator.h:715-753 | `ask_any` declines an unsupported query, says no to a refused one, and otherwise says yes exactly when there is a result, even where a longer search would have given up |
| Pinning.PinnedMeans | lib/evaluator.h:566-601 | where a search starts: each name pinned is at the object or text of its value, the last that says anything if it is pinned twice; a name that stands for itself, and is no object, is not pinned; all others are open |
| Pinning.SatisfiesMeans | lib/evaluator.h:566-601 | what satisfies a query, said without the search, is what the search has as an answer, and nothing satisfies a query refused for a constant pinned to something else |
| Pinning.AnswersExact | lib/evaluator.h:621-708 | what `ask` answers, without duplicates: every assignment that satisfies the expression and has the pinned names at their values, and nothing else when the query is well typed; a refused query has none |
| Pinning.RowsPinned | lib/evaluator.h:621-708 | well typed or not, every row of `ask` has each pinned parameter at its value |
| Pinning.AnyExact | lib/evaluator.h:715-753 | what `ask_any` answers: no only if nothing satisfies the query, and yes, of a well typed query, only if something does, a search that would have given up later included |
| Safety.SafeAnswers | lib/evaluator.h:404-463 | an expression in which, binders first, every equality finds a side bound, every disequality, negation and quantifier all its free variables, and every quantifier its own variables unused, is never given up on, whatever the facts are, and each binding found binds what it should |
| Pinning.SafeQueries | lib/evaluator.h:39-68 | so `ask` and `ask_any` always answer a query whose expression is of that kind given what is pinned |
| Snapshots.SnapshotOk | lib/kb.h:734-741 | the stored relations are a fact base as the evaluator reads it |
| Snapshots.SnapshotFact | lib/kb.h:734-741 | what the evaluator takes for a fact is what the state believes |
| Snapshots.GroundAgrees | lib/expr.h:382-440 | `eval_ground`, where it answers, answers the expression's truth under every assignment |
| Snapshots.EmptyAtom | lib/expr.h:382-440 | an atom written without arguments is read alike by `eval_ground` and by the search if and only if its predicate has none or holds of nothing |
| Definitions.LeavesAgree | lib/evaluator.h:167-463 | what a search finds depends on the facts of the predicates the expression mentions only |
| Definitions.AnsweredIsReplied | lib/evaluator.h:621-708 | the answers a domain is built of are the rows `ask` returns, wherever it returns any |
| Definitions.AnyAnsweredIsReplied | lib/evaluator.h:715-753 | and whether a synthesised check holds is what `ask_any` returns, wherever it does |
| Definitions.AnsweredAgree | lib/evaluator.h:621-708 | fact bases that agree on what a query reads answer it alike |
| Definitions.EffectedBeyond | lib/typedefs.h:400-539 | an action, its conditional and quantified effects evaluated as queries on the state so far, changes facts of its effects' predicates only |
| Definitions.ToldMeans | lib/typedefs.h:400-539 | a fact told then holds, and one taken back does not; every other fact is as it was |
| Definitions.EffectsMean | lib/typedefs.h:400-539 | of effects without conditions, the last that speaks of a fact decides whether it holds, and a fact none speaks of is as it was |
| Definitions.AppliedOverMeans | lib/typedefs.h:400-539 | an effect over quantified variables tells its fact for each of their values and changes no other |
| Definitions.UnshadowedMeans | lib/typedefs.h:400-539 | what a quantified variable shadows of the binding is taken out, and nothing else |
| Definitions.FactSubstituted | lib/typedefs.h:400-539 | an effect's arguments are its constants and the binding's values of its variables |
| Definitions.DefinedStable | lib/typedefs.h:877-908 | in a domain none of whose effects is on a predicate that a method's query reads, no action changes any method's bindings |
| Domains.MethodBindings | lib/typedefs.h:877-908 | where the evaluator answers by itself, a method's bindings are the assignments that satisfy its query with the task's arguments: all of them, and only those when the query is well typed |
| Domains.OtherConstant | lib/typedefs.h:877-908 | a method whose task has a constant where the argument is another has no bindings |
| Domains.BindingsKeepArguments | lib/typedefs.h:877-908 | and every binding gives each variable of the task the task's own argument |
| Domains.ActionMeans | lib/typedefs.h:400-539 | a precondition holds exactly where it is satisfied with the action's arguments, which is exactly where the action has a successor; the successors are what the effects make of the state for each satisfying row |
| Domains.ConditionalEffect | lib/typedefs.h:400-539 | an effect with a condition is made exactly where the condition is satisfied with the binding's values of the parameters, and changes its own fact only |
| Domains.RangedEffect | lib/typedefs.h:400-539 | a quantified effect with a condition, row by row: the fact is told exactly where the condition is satisfied in the state so far, the row's values shadowing parameters of the same names |
| Domains.RangeMeans | lib/typedefs.h:400-539 | the values an effect's quantified variables take are the rows of objects of all their types, each once |
| Snapshots.EmptyAtomReadTwice | lib/expr.h:382-440 | a fact base where it is read differently: one object and one fact of it |
| Recogniser.LongestSnoc | rtl_designs/problem_compiler.py:109-137 | matching one more bit needs only the longest match so far |
| Recogniser.RunIsLongest | rtl_designs/problem_compiler.py:140-231 | the state is always the longest suffix, among the prefixes, of everything read but the held bits |
| Recogniser.NoHoldBelow | rtl_designs/problem_compiler.py:180-195 | once every sequence ends exactly one prefix, no proper suffix of a prefix is held, so a failure chain never meets a hold |
| Recogniser.NextLink | rtl_designs/problem_compiler.py:126-128 | a failure link computed from shorter ones is the longest proper suffix among the prefixes, holds or not |
| Recogniser.Links | rtl_designs/problem_compiler.py:126-128 | so all of them are, shortest first |
| Recogniser.StepIsLongest | rtl_designs/problem_compiler.py:120-125 | a step that is not held goes to the longest suffix of the prefix and the bit |
| Recogniser.StepIsDelta | rtl_designs/problem_compiler.py:120-125 | by following links the step is the machine's transition, held ones included |
| Recogniser.OutputReached | rtl_designs/problem_compiler.py:196-227 | an output's state is reached exactly when the start prefix and what was read and not held end in its sequence |
| Recogniser.OutputReachedPlain | rtl_designs/problem_compiler.py:196-227 | without holds: exactly when the start prefix and the input do |
| Recogniser.ReachablePrefixes | rtl_designs/problem_compiler.py:109-137 | the worklist ends, and finds exactly the prefixes some input leads to |
| Recogniser.Prefixes | rtl_designs/problem_compiler.py:164-165 | the prefixes of all sequences, sorted by length and then bits, each once |
| Recogniser.EndsOnce | rtl_designs/problem_compiler.py:183-186 | the check passes exactly when each sequence ends one prefix only |
| Recogniser.HoldingEnds | rtl_designs/problem_compiler.py:180-195 | and that makes the hold transitions harmless |
| Recogniser.ListStates | rtl_designs/problem_compiler.py:214-215 | the start first, then every other reachable prefix once, in order |
| Recogniser.Reach | rtl_designs/problem_compiler.py:213-227 | it is refused exactly when some sequence can never be reached |
| Recogniser.StateNames | rtl_designs/problem_compiler.py:81-106 | the states of sequences are named for their outputs, all others by length and place in their group, each prefix once |
| Recogniser.NamesDiffer | rtl_designs/problem_compiler.py:81-106 | no two states share a name exactly when no two sequences' outputs spell the same |
| Recogniser.Expand | rtl_designs/problem_compiler.py:140-231 | a machine is produced only of what it can express: it holds exactly on the stated bits of outputs with their sequences, starts empty or with the stated bit, and has exactly the reachable states, all named apart; refused is only what it cannot express |
| PlanGraph.BypassKeeps | lib/cpphop/grapher.h:255-276 | going around a check changes nothing about what leads where, but for what leads to that check |
| PlanGraph.BypassDrops | lib/cpphop/grapher.h:255-276 | and there is less to contract afterwards |
| PlanGraph.ContractNode | lib/cpphop/grapher.h:255-276 | one node's sweep, over a list taken before it: order kept, and progress if anything changed |
| PlanGraph.Contract | lib/cpphop/grapher.h:255-276 | repeating until nothing changes ends, with no edge to a check and the order among other nodes as it was |
| PlanGraph.RestrictedKeeps | lib/cpphop/grapher.h:277-284 | dropping the checks as sources loses nothing visible |
| PlanGraph.ReachableWithout | lib/cpphop/grapher.h:286-301 | the worklist search answers whether another way leads from an edge's start to its end |
| PlanGraph.Reduce | lib/cpphop/grapher.h:302-307 | exactly the edges without another way are kept |
| PlanGraph.ReducedLeads | lib/cpphop/grapher.h:302-307 | though all were tested against the unreduced graph and dropped at once, what is left leads wherever it did |
| PlanGraph.NothingToDrop | lib/cpphop/grapher.h:302-307 | no edge left is implied by the others |
| PlanGraph.Orderings | lib/cpphop/grapher.h:255-307 | the whole: reachability between visible nodes is the network's, and every edge drawn is needed |
| PassAtK.SubsetsCount | eval/passk.py:12-25 | a set of `n` has n-choose-k subsets of size `k` |
| PassAtK.HitsCount | eval/passk.py:12-25 | how many of them hold a passing sample |
| PassAtK.Trinomial | eval/passk.py:12-25 | choosing the passing samples and then the draws, or the draws first, counts the same |
| PassAtK.Estimate | eval/passk.py:12-25 | the product loop computes 1 - C(n-k,c)/C(n,c) for every whole number k, which is 1 - C(n-c,k)/C(n,k) where k counts draws, and raises exactly outside 0 <= c <= n, k <= n |
| PassAtK.FractionOfSubsets | eval/passk.py:12-25 | that is the fraction of the k-subsets of the samples that hold a passing one |
| PassAtK.MonotoneInC | eval/passk.py:12-25 | it never decreases with more passing samples |
| PassAtK.MonotoneInK | eval/passk.py:12-25 | nor with more draws |
| PassAtK.MissedFalls | eval/passk.py:12-25 | nor with k any larger whole number, below zero too |
| PassAtK.MakeLadder | eval/passk.py:28-32 | the mean estimate for each `k`, not a number without problems, and a failure exactly when some estimate fails |
| PassAtK.LadderRises | eval/passk.py:28-32 | the ladder never falls |
| PassAtK.SplitSums | eval/passk.py:35-54 | the two terms of the split sum exactly to the difference, a rate one arm lacks is replaced by the other's, and exchanging the arms negates both |
| Folding.ChainPosition | eval/lift_loops.py:373-381 | a step's argument on the chain: at the position its name has already if it has one, and otherwise the first |
| Folding.GrowthStep | eval/lift_loops.py:384-402 | one more step keeps a run's groups apart and its elements along the chain |
| Folding.Grow | eval/lift_loops.py:384-402 | the run grown is consecutive steps, in groups of distinct elements along the chain's order, each step naming its group's element at the recorded position, and it cannot be continued |
| Folding.Choose | eval/lift_loops.py:410-416 | the best run over all chains by the source's preference, or none that is long enough or forced |
| Folding.LoopOk | eval/lift_loops.py:421-427 | folding a loop's groups further keeps what the loop promises |
| Folding.FoldGroups | eval/lift_loops.py:421-427 | one group of items to each of the run's, folded over the other chains, with the chains forced that loops of the groups by themselves are over; they flatten to the steps of the run |
| Folding.Fold | eval/lift_loops.py:405-428 | flattening what is folded gives the steps back, for any steps, chains and forced set; a step stands alone exactly where no chain makes enough groups, and everywhere else the best run becomes a loop, its groups folded over the other chains with the loops that any group forms by itself forced on all; in every loop at every depth elements are distinct and each step names its group's; nesting ends as the chains run out |
| Variants.LiteralsExact | eval/lift_loops.py:628-647 | the literals collected for a row are exactly those true before it, with `_` read as an existential |
| Variants.LiteralSpeaks | eval/lift_loops.py:628-647 | and speak only of the row's parameters and constants |
| Variants.CandidateMeans | eval/lift_loops.py:676-677 | every candidate holds before each of the variant's rows, and its being collected for another row means the same there |
| Variants.Tell | eval/lift_loops.py:621-712 | the conjunction returned is true before every row of the variant and false before every other row; it raises exactly when some other row is excluded by no candidate, so the order of greed never costs a separation |
| Lifting.Match | eval/lift.py:179-198 | a pattern against one fact, with the values it gives new variables |
| Lifting.Picks | eval/lift.py:179-198 | the scan answers whether the pattern fits exactly one fact, the one with the example's values |
| Lifting.PickedOut | eval/lift.py:179-198 | then any assignment with the old variables right satisfies the pattern only with the new ones right too |
| Lifting.TiesMean | eval/lift.py:128-166 | a list of such patterns is satisfied exactly by the example's values |
| Lifting.NameColumns | eval/lift.py:104-119 | one variable for each distinct column of arguments; those tentative are constant over the examples |
| Lifting.FindTypes | eval/lift.py:121-126 | types found exactly when every example agrees on one |
| Lifting.Best | eval/lift.py:128-166 | a pattern that ties new variables in every example, and none only if none does |
| Lifting.Kinds | eval/lift.py:168-172 | the module's own facts common to all examples, exactly |
| Lifting.TiedGrows | eval/lift.py:179-198 | a pattern that ties its variables does so with more variables tied before it |
| Lifting.ClosedTiesAll | eval/lift.py:128-166 | when no pattern ties anything more, everything is tied that any order of patterns could ever tie |
| Lifting.TieAll | eval/lift.py:128-166 | so the greedy choice, whatever it prefers, ties exactly the variables that some chain of facts ties to the module |
| Lifting.SubtasksBack | eval/lift.py:149-176 | the learned subtasks with an example's values are its steps, tentative variables turned back to constants included |
| Lifting.LiftCase | eval/lift.py:98-176 | for every example behind a lifted case the learned conditions, with the module given, have exactly one satisfying assignment over its facts, and that turns the subtasks into its step list; it lifts if and only if every column has one type and every variable that is not a constant throughout can be tied by some chain of facts; the variables kept are those that can, and the module's common facts are among the conditions |
| ProblemText.TokensOfText | rtl_designs/problem_compiler.py:242-246 | text laid out of tokens and gaps is tokenized back to those tokens |
| ProblemText.ReadOne | rtl_designs/problem_compiler.py:247-264 | the recursive cursor reads what the parser's specification does, unbalanced input included |
| ProblemText.ParsePrint | rtl_designs/problem_compiler.py:242-264 | printing and parsing any expression of plain tokens gives it back, whatever surrounds it, and ends where it ends |
| ProblemText.ScanObjects | rtl_designs/problem_compiler.py:275-288 | the typed list, scanned by a loop: names pend until a dash and a type |
| ProblemText.LayoutLaidOut | rtl_designs/problem_compiler.py:309-316 | what is emitted is such a layout for every problem of legal tokens |
| ProblemText.PrintTree | rtl_designs/problem_compiler.py:309-316 | its tokens are those of one expression |
| ProblemText.InterpretTree | rtl_designs/problem_compiler.py:267-306 | looking up that expression's sections gives the problem, when no object is named by the dash |
| ProblemText.Read | rtl_designs/problem_compiler.py:267-306 | `read` is comment stripping, tokens, the parser and the section lookup; unreadable exactly as they say |
| ProblemText.RoundTrip | rtl_designs/problem_compiler.py:242-316 | reading what was emitted gives the problem's name, module, objects and facts if and only if no object is named by a dash, every line of objects has a name and every fact a token; without dashes, exactly the empty lines and facts are lost |
| ProblemText.NothingLost | rtl_designs/problem_compiler.py:309-316 | nothing is lost if and only if there are no such lines and facts |
| ProblemText.LostOnTheWay | rtl_designs/problem_compiler.py:267-316 | three problems that do not read back: a fact without a token, a line of objects without a name, an object named by the dash |
| ProblemText.ReadAgain | rtl_designs/problem_compiler.py:242-316 | for every text that reads, with a name and types that are tokens, what was read, emitted and read again, is the same |
| Executor.WithinCells | executor/executor.h:346-358 | as many sequences as fit need no more cells than there are, unified or not |
| Executor.CapExact | executor/executor.h:346-358 | a number of sequences is permitted exactly when it is no more than wanted and its cells are no more than there are, unified or not |
| Executor.BatchesMean | executor/executor.h:360-362 | the samples take as few batches as will do |
| Executor.UsedAdds | executor/executor.h:338-372 | each sequence uses a cell a token, or in a unified cache one for each beyond the shared prompt |
| Executor.UsedWithin | executor/executor.h:338-372 | sequences of a prompt and at most so many tokens use no more cells than were sized for them |
| Executor.Context.Decode | executor/executor.h:423-425 | a decode appends its entries to their sequences' memory and replaces the logits, and fails only where one fails |
| Executor.Context.CopySequence | executor/executor.h:428-431 | one sequence's memory given to another |
| Executor.DecodePrompt | executor/executor.h:415-427 | the prompt in chunks within capacity: sequence 0 holds it, and the index kept has the logits after all of it |
| Executor.SampleAll | executor/executor.h:441-466 | every unfinished sequence's own sampler draws once, from the logits after exactly its own memory, and no other sampler does |
| Executor.DecodeAll | executor/executor.h:470-482 | each unfinished sequence gets its token at its own position, and its index is where its logits are |
| Executor.GenerateBatch | executor/executor.h:362-495 | each sample of a batch has its own seed; its tokens are the draws of the sampler of that seed, in turn, each after the prompt and the tokens before it, up to the first that ends the text or its limit; memory is the prompt and its own tokens; it fails only where a decode does |
| Executor.GenerateSamples | executor/executor.h:323-498 | every index from 0 to n is produced once with the seed of that index, its tokens the draws of that seed's sampler, each after the prompt and the tokens before it, with at least one token looked at even at a limit of none; of each of the batches the cells used are recorded, and none needs more than allowed; it fails only where a decode does or the prompt leaves room for none, and then always |
| Executor.SeedsApart | executor/executor.h:407-407 | seeds of different samples differ within a 32-bit range |
| Executor.SeedMeans | executor/executor.h:407-407 | the first sample has the base seed, and each other the seed after the one before it, around the 32-bit range |
| Executor.SameReply | executor/executor.h:313-321 | a finished reply is settled by its prompt, its seed and its limit: how many are generated beside it, and in what batches, makes no difference, as long as decoding does not depend on it |
| Conversations.PendingElsewhere | executor/executor.h:693-716 | a sequence without pending entries can be changed in memory without touching what is pending |
| Conversations.CommonPrefix | executor/executor.h:694-701 | the longest common prefix with the cache, stepped back by one if nothing would be left to decode |
| Conversations.Flush | executor/executor.h:680-692 | what was pending is in memory, and each sequence waiting drew once, by its own sampler, from the logits after its own last token before the next decode replaced them; no other sampler drew |
| Conversations.FillOne | executor/executor.h:693-716 | after a cut to the prefix and the rest queued, with flushes as the batch fills, every cache is what is in memory or pending, within capacity |
| Conversations.FirstTurn | executor/executor.h:651-673 | the first prompt decoded once and shared: all caches are it, and all draws are after it |
| Conversations.NextTurn | executor/executor.h:674-718 | a later turn ends with every cache its conversation's prompt, in memory, and every draw after it |
| Conversations.LookAll | executor/executor.h:729-758 | each unfinished sequence's token ends it or is queued at the end of its own cache, within capacity |
| Conversations.DrawAll | executor/executor.h:759-766 | each draw is by its sequence's sampler, once, from the logits after all its cache |
| Conversations.Generate | executor/executor.h:721-767 | generation ends with the caches in memory and every reply finished within its limit, its tokens the draws of its sequence's sampler in turn, each after the sequence's prompt and the tokens before it; it fails only where a decode does |
| Conversations.OneTurn | executor/executor.h:646-777 | a turn's prompt is the system message, every earlier turn and every earlier reply as generated, and each token of its reply is drawn after exactly that prompt and the tokens before it; at its end each cache is what is in memory |
| Conversations.ConverseBatch | executor/executor.h:581-777 | so of all turns of a batch, over the same context |
| Conversations.Converse | executor/executor.h:539-784 | each of n samples is one conversation with its own seed and a reply to every turn within that turn's limit, each token drawn after the conversation so far by the one sampler of its seed; it is refused only without turns, without room, or where a decode fails, and in the first two cases always |
| Conversations.HistoryMeans | executor/executor.h:640-778 | the conversation a turn's prompt encodes: the system's message, then each turn so far as the user's, and after each but the last what was said to it |
| Conversations.SameConversation | executor/executor.h:528-538 | a conversation is settled by its script, its seed and the limits, whatever others share its batch |
| Conversations.RoomEnough | executor/executor.h:558-575 | the room it is given holds, at every turn, its prompt, the longest reply to it and all still to come, as long as a turn's prompt has no more than the one before, the reply as sampled, the turn's text and the template allowed for |

## Left out

- Z3, the SMT text of expressions and states, and the build that compares both evaluators: an answer the native evaluator declines is not modelled further.
- HDDL parsing, the loader, case folding, files, drawing, JSON and narration of plans, command lines.
- The random generators, wall-clock limits and the order in which results come, as far as it serves reproducibility.
- Floating point: scores, means and pass@k are exact reals.
- The re-parenting of type trees; a type's objects are given.
- `expr::number_variables` and `parse_ground`: expressions come with their slots.
- The parsing of sequence bits, the printed form of state names, the facts `expand_sequences` emits and the other steps of `complete`: text over the machine that is modelled.
- In `lift_loops.py`, `lift_block`, `tie`, `lift_loop`, `chains` and normalising: search and rendering around `fold` and `tell`. In `lift.py`, `tell_apart`, which does not always tell apart, and the text of a method.
- Variants.Tell: any order of the candidates is covered; the ranking key and the text of the conditions are not modelled.
- Conversations.Converse: the cells used are bounded only where `Conversations.RoomEnough` applies, since the reserve for replies that tokenize longer is slack; what a sampler draws is any function of its seed, its draws so far and the tokens before.
- Executor.GenerateSamples: what a sampler draws is any function of its seed, its draws so far and the tokens before; decoding that differs with the batch is not modelled; text pieces and times are not modelled.
- CommitLoop.SeekPlan: plan text, cut-off counts in messages and the returned graph are not modelled.
- TaskGraphs: ids paired with pointers are a list of ids and a map, tags a map, and a task's checks a set, so the order of checks on a task is not modelled.
- TreeSearch.ChildrenOf: children are generated into a list and then attached, where the code attaches them as it goes.
- The bootstrap and McNemar statistics, the other evaluation scripts, the RTL domain, Verilog templates, and the inside of libllama and its tokenizers.
