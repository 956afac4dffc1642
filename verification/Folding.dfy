/** Loops found in a list of steps (eval/lift_loops.py, `grow`, `fold`, `flatten`): a run of steps that
    can be grouped by the elements of a chain becomes a loop, and a group may hold loops of its own. */
module Folding {
  import B = Basics

  datatype Step = Step(name: string, args: seq<string>, index: nat)

  /** Objects in order, as the facts of predicate `next` chain them. */
  datatype Chain = Chain(next: string, order: seq<string>)

  /** Each step name's argument that names the element of its group. */
  type Positions = map<string, nat>

  datatype Item = One(step: Step) | Loop(chain: Chain, position: Positions, groups: seq<Group>)
  datatype Group = Group(elem: string, items: seq<Item>)

  /** A group before its steps are folded. */
  datatype Run = Run(elem: string, steps: seq<Step>)

  // ----- Lists and what they come from -----

  function Flatten(items: seq<Item>): seq<Step> {
    if items == [] then [] else FlattenItem(items[0]) + Flatten(items[1..])
  }

  function FlattenItem(x: Item): seq<Step> {
    match x
    case One(step) => [step]
    case Loop(_, _, groups) => FlattenGroups(groups)
  }

  function FlattenGroups(groups: seq<Group>): seq<Step> {
    if groups == [] then [] else Flatten(groups[0].items) + FlattenGroups(groups[1..])
  }

  function Joined(runs: seq<Run>): seq<Step> {
    if runs == [] then [] else runs[0].steps + Joined(runs[1..])
  }

  lemma {:induction false} FlattenSnoc(items: seq<Item>, x: Item)
    ensures Flatten(items + [x]) == Flatten(items) + FlattenItem(x)
  {
    if items == [] {
      assert Flatten([x][1..]) == [];
    } else {
      assert (items + [x])[1..] == items[1..] + [x];
      FlattenSnoc(items[1..], x);
    }
  }

  lemma {:induction false} JoinedSnoc(runs: seq<Run>, r: Run)
    ensures Joined(runs + [r]) == Joined(runs) + r.steps
  {
    if runs == [] {
      assert Joined([r][1..]) == [];
    } else {
      assert (runs + [r])[1..] == runs[1..] + [r];
      JoinedSnoc(runs[1..], r);
    }
  }

  // ----- What a loop promises -----

  /** The step names this element at the argument recorded for its name. */
  predicate Names(s: Step, position: Positions, elem: string) {
    s.name in position && position[s.name] < |s.args| && s.args[position[s.name]] == elem
  }

  /** Runs over distinct elements of the chain, each step naming its own. */
  ghost predicate RunsOk(runs: seq<Run>, chain: Chain, position: Positions) {
    && (forall i, j :: 0 <= i < j < |runs| ==> runs[i].elem != runs[j].elem)
    && forall i :: 0 <= i < |runs| ==> RunOk(runs[i], chain, position)
  }

  ghost predicate RunOk(r: Run, chain: Chain, position: Positions) {
    r.elem in chain.order && r.steps != [] && forall s <- r.steps :: Names(s, position, r.elem)
  }

  ghost predicate ItemsOk(items: seq<Item>) {
    forall i :: 0 <= i < |items| ==> ItemOk(items[i])
  }

  /** A loop's groups have distinct elements of its chain, every step of a group names the group's
      element, and so do the loops inside of theirs. */
  ghost predicate ItemOk(x: Item) {
    match x
    case One(_) => true
    case Loop(chain, position, groups) =>
      && groups != [] && (forall i, j :: 0 <= i < j < |groups| ==> groups[i].elem != groups[j].elem)
      && forall i :: 0 <= i < |groups| ==>
        && groups[i].elem in chain.order && (forall s <- Flatten(groups[i].items) :: Names(s, position, groups[i].elem))
        && (forall j :: 0 <= j < |groups[i].items| ==> ItemOk(groups[i].items[j]))
  }

  // ----- Growing a run -----

  function FirstIn(args: seq<string>, order: seq<string>, from: nat): (p: B.Option<nat>)
    requires from <= |args|
    ensures p.Some? ==> from <= p.value < |args| && args[p.value] in order
    ensures forall j :: from <= j < (if p.Some? then p.value else |args|) ==> args[j] !in order
    decreases |args| - from
  {
    if from == |args| then B.None
    else if args[from] in order then B.Some(from)
    else FirstIn(args, order, from + 1)
  }

  /** The argument at which a step names an element: the one recorded for its name, or the first. */
  function ChainPosition(s: Step, chain: Chain, position: Positions): (p: B.Option<nat>)
    ensures p.Some? ==>
      p.value < |s.args| && s.args[p.value] in chain.order && (s.name in position ==> p.value == position[s.name])
  {
    if s.name in position then
      var p := position[s.name];
      if p < |s.args| && s.args[p] in chain.order then B.Some(p) else B.None
    else FirstIn(s.args, chain.order, 0)
  }

  /** A step that cannot join: it names no element, or one whose group is already closed. */
  ghost predicate Stuck(s: Step, chain: Chain, position: Positions, runs: seq<Run>) {
    var p := ChainPosition(s, chain, position);
    p.None? || (runs != [] && s.args[p.value] != runs[|runs| - 1].elem && exists i ::
        0 <= i < |runs| && runs[i].elem == s.args[p.value])
  }

  function WithPosition(position: Positions, name: string, p: nat): Positions {
    if name in position then position else position[name := p]
  }

  /** A run growing over the steps from `k` on. */
  datatype Growth = Growth(k: nat, position: Positions, runs: seq<Run>)

  /** The run with the next step in it, if that can join. */
  function Turn(steps: seq<Step>, chain: Chain, g: Growth): (r: B.Option<Growth>)
    requires g.k < |steps|
    ensures r.Some? ==> r.value.k == g.k + 1
  {
    var s := steps[g.k];
    var p := ChainPosition(s, chain, g.position);
    if p.None? then B.None
    else
      var elem, next := s.args[p.value], WithPosition(g.position, s.name, p.value);
      if g.runs != [] && elem == g.runs[|g.runs| - 1].elem then B.Some(Growth(g.k + 1, next, Lengthened(g.runs, s)))
      else if exists r <- g.runs :: r.elem == elem then B.None
      else B.Some(Growth(g.k + 1, next, g.runs + [Run(elem, [s])]))
  }

  function GrowOn(steps: seq<Step>, chain: Chain, g: Growth): Growth
    requires g.k <= |steps|
    decreases |steps| - g.k
  {
    if g.k == |steps| || Turn(steps, chain, g).None? then g else GrowOn(steps, chain, Turn(steps, chain, g).value)
  }

  /** The run from step `i`. */
  function Grown(steps: seq<Step>, i: nat, chain: Chain): Growth
    requires i <= |steps|
  {
    GrowOn(steps, chain, Growth(i, map[], []))
  }

  /** The steps so far, in runs over distinct elements, each step naming its run's. */
  ghost predicate GrowthOk(steps: seq<Step>, i: nat, chain: Chain, g: Growth) {
    i <= g.k <= |steps| && steps[i..g.k] ==
        Joined(g.runs) && RunsOk(g.runs, chain, g.position) && (g.runs != [] <==> g.k > i)
  }

  /** The longest run from step `i` that groups by elements of the chain. */
  method Grow(steps: seq<Step>, i: nat, chain: Chain) returns (g: Growth)
    requires i <= |steps|
    ensures g == Grown(steps, i, chain) && GrowthOk(steps, i, chain, g)
    ensures g.k == |steps| || Stuck(steps[g.k], chain, g.position, g.runs)
  {
    hide RunsOk, Joined, Stuck, GrowthOk, Lengthened;
    var position: Positions, runs: seq<Run>, k := map[], [], i;
    GrowthStart(steps, i, chain);
    while k < |steps|
      invariant i <= k <= |steps| && GrowthOk(steps, i, chain, Growth(k, position, runs))
      invariant GrowOn(steps, chain, Growth(k, position, runs)) == Grown(steps, i, chain)
    {
      GrowthStep(steps, i, chain, Growth(k, position, runs));
      var p := ChainPosition(steps[k], chain, position);
      if p.None? {
        return Growth(k, position, runs);
      }
      var elem := steps[k].args[p.value];
      if runs != [] && elem == runs[|runs| - 1].elem {
        runs := Lengthened(runs, steps[k]);
      } else if exists r <- runs :: r.elem == elem {
        return Growth(k, position, runs);
      } else {
        runs := runs + [Run(elem, [steps[k]])];
      }
      position := WithPosition(position, steps[k].name, p.value);
      k := k + 1;
    }
    return Growth(k, position, runs);
  }

  /** The last run with one more step. */
  function Lengthened(runs: seq<Run>, s: Step): seq<Run>
    requires runs != []
  {
    runs[|runs| - 1 := Run(runs[|runs| - 1].elem, runs[|runs| - 1].steps + [s])]
  }

  lemma GrowthStart(steps: seq<Step>, i: nat, chain: Chain)
    requires i <= |steps|
    ensures GrowthOk(steps, i, chain, Growth(i, map[], []))
  {
  }

  /** A turn keeps what a run promises. */
  lemma GrowthStep(steps: seq<Step>, i: nat, chain: Chain, g: Growth)
    requires GrowthOk(steps, i, chain, g) && g.k < |steps|
    ensures Turn(steps, chain, g).Some? ==> GrowthOk(steps, i, chain, Turn(steps, chain, g).value)
    ensures Turn(steps, chain, g).None? ==> Stuck(steps[g.k], chain, g.position, g.runs)
  {
    hide RunsOk, Joined, Lengthened;
    var s := steps[g.k];
    var p := ChainPosition(s, chain, g.position);
    if p.Some? {
      var elem, next := s.args[p.value], WithPosition(g.position, s.name, p.value);
      assert steps[i..g.k + 1] == steps[i..g.k] + [s];
      RunsKept(g.runs, chain, g.position, next);
      if g.runs != [] && elem == g.runs[|g.runs| - 1].elem {
        Extended(g.runs, chain, next, s);
        LengthenedLength(g.runs, s);
      } else if forall r <- g.runs :: r.elem != elem {
        OneMore(g.runs, chain, next, s, elem);
      }
    }
  }

  lemma LengthenedLength(runs: seq<Run>, s: Step)
    requires runs != []
    ensures Lengthened(runs, s) != []
  {
  }

  lemma OneMore(runs: seq<Run>, chain: Chain, position: Positions, s: Step, elem: string)
    requires RunsOk(runs, chain, position) && Names(s, position, elem) && elem in chain.order
    requires forall r <- runs :: r.elem != elem
    ensures RunsOk(runs + [Run(elem, [s])], chain, position) && Joined(runs + [Run(elem, [s])]) == Joined(runs) + [s]
  {
    JoinedSnoc(runs, Run(elem, [s]));
    var more := runs + [Run(elem, [s])];
    forall i | 0 <= i < |more|
      ensures RunOk(more[i], chain, position)
    {
      assert i < |runs| ==> RunOk(runs[i], chain, position);
    }
  }

  lemma RunsKept(runs: seq<Run>, chain: Chain, position: Positions, next: Positions)
    requires RunsOk(runs, chain, position) && forall n <- position :: n in next && next[n] == position[n]
    ensures RunsOk(runs, chain, next)
  {
    forall i | 0 <= i < |runs|
      ensures RunOk(runs[i], chain, next)
    {
      assert RunOk(runs[i], chain, position);
    }
  }

  lemma Extended(runs: seq<Run>, chain: Chain, position: Positions, s: Step)
    requires runs != [] && RunsOk(runs, chain, position) && Names(s, position, runs[|runs| - 1].elem)
    ensures RunsOk(Lengthened(runs, s), chain, position) && Joined(Lengthened(runs, s)) == Joined(runs) + [s]
  {
    hide RunOk, Joined, Names;
    var more := Lengthened(runs, s);
    LengthenedJoined(runs, s);
    forall i | 0 <= i < |more|
      ensures RunOk(more[i], chain, position)
    {
      assert RunOk(runs[i], chain, position);
      if i == |runs| - 1 {
        RunExtended(runs[i], chain, position, s);
      }
    }
  }

  lemma RunExtended(r: Run, chain: Chain, position: Positions, s: Step)
    requires RunOk(r, chain, position) && Names(s, position, r.elem)
    ensures RunOk(Run(r.elem, r.steps + [s]), chain, position)
  {
  }

  lemma LengthenedJoined(runs: seq<Run>, s: Step)
    requires runs != []
    ensures Joined(Lengthened(runs, s)) == Joined(runs) + [s]
  {
    var init, last := runs[..|runs| - 1], runs[|runs| - 1];
    assert runs == init + [last];
    assert Lengthened(runs, s) == init + [Run(last.elem, last.steps + [s])];
    JoinedSnoc(init, last);
    JoinedSnoc(init, Run(last.elem, last.steps + [s]));
  }

  // ----- Folding -----

  const MIN_GROUPS := 2

  /** The best run at a step: the longest that makes enough groups, the first such chain's. */
  datatype Best = NoRun | Best(chain: Chain, growth: Growth)

  /** Does the chain's run at step `i` make enough groups to be a loop? */
  predicate Enough(steps: seq<Step>, i: nat, chain: Chain, forced: set<string>)
    requires i <= |steps|
  {
    |Grown(steps, i, chain).runs| >= if chain.next in forced then 1 else MIN_GROUPS
  }

  /** `b` is what the first `n` chains come to. */
  ghost predicate IsBest(steps: seq<Step>, i: nat, chains: seq<Chain>, forced: set<string>, n: nat, b: Best)
    requires i <= |steps| && n <= |chains|
  {
    match b
    case NoRun => forall d :: 0 <= d < n ==> !Enough(steps, i, chains[d], forced)
    case Best(chain, g) => g == Grown(steps, i, chain) && exists c: nat ::
        c < n && FirstLongest(steps, i, chains, forced, n, c, chain)
  }

  /** Chain `c` makes enough groups; those before it that do are shorter, and those after no longer. */
  ghost predicate FirstLongest(steps: seq<Step>, i: nat, chains: seq<Chain>, forced: set<string>, n: nat, c: nat,
        chain: Chain)
    requires i <= |steps| && c < n <= |chains|
  {
    && chains[c] == chain && Enough(steps, i, chain, forced)
    && (forall d :: 0 <= d < c && Enough(steps, i, chains[d], forced) ==>
        Grown(steps, i, chains[d]).k < Grown(steps, i, chain).k)
    && (forall d :: c <= d < n && Enough(steps, i, chains[d], forced) ==>
        Grown(steps, i, chains[d]).k <= Grown(steps, i, chain).k)
  }

  lemma BestNext(steps: seq<Step>, i: nat, chains: seq<Chain>, forced: set<string>, n: nat, b: Best)
    requires i <= |steps| && n < |chains| && IsBest(steps, i, chains, forced, n, b)
    ensures var g := Grown(steps, i, chains[n]);
      IsBest(steps, i, chains, forced, n +
          1, if Enough(steps, i, chains[n], forced) && (b.NoRun? || g.k > b.growth.k) then Best(chains[n], g) else b)
  {
    hide Grown, Enough;
    var g := Grown(steps, i, chains[n]);
    if Enough(steps, i, chains[n], forced) && (b.NoRun? || g.k > b.growth.k) {
      if b.Best? {
        var c: nat :| c < n && FirstLongest(steps, i, chains, forced, n, c, b.chain);
      }
      assert FirstLongest(steps, i, chains, forced, n + 1, n, chains[n]);
    } else if b.Best? {
      var c: nat :| c < n && FirstLongest(steps, i, chains, forced, n, c, b.chain);
      assert FirstLongest(steps, i, chains, forced, n + 1, c, b.chain);
    }
  }

  method Choose(steps: seq<Step>, i: nat, chains: seq<Chain>, forced: set<string>) returns (b: Best)
    requires i < |steps|
    ensures IsBest(steps, i, chains, forced, |chains|, b)
    ensures b.Best? ==> b.chain in chains && b.growth.runs != [] && GrowthOk(steps, i, b.chain, b.growth)
  {
    hide Grown, GrowthOk, IsBest, Stuck;
    b := NoRun;
    NoneBest(steps, i, chains, forced);
    for c := 0 to |chains|
      invariant IsBest(steps, i, chains, forced, c, b)
      invariant b.Best? ==> b.chain in chains && b.growth.runs != [] && GrowthOk(steps, i, b.chain, b.growth)
    {
      BestNext(steps, i, chains, forced, c, b);
      var g := Grow(steps, i, chains[c]);
      var need := if chains[c].next in forced then 1 else MIN_GROUPS;
      if |g.runs| >= need && (b.NoRun? || g.k > b.growth.k) {
        b := Best(chains[c], g);
      }
    }
  }

  lemma NoneBest(steps: seq<Step>, i: nat, chains: seq<Chain>, forced: set<string>)
    requires i <= |steps|
    ensures IsBest(steps, i, chains, forced, 0, NoRun)
  {
  }

  function Others(chains: seq<Chain>, next: string): (r: seq<Chain>)
    ensures |r| <= |chains| && ((exists c :: c in chains && c.next == next) ==> |r| < |chains|)
    ensures forall c :: c in r <==> c in chains && c.next != next
  {
    if chains == [] then [] else (if chains[0].next == next then [] else [chains[0]]) + Others(chains[1..], next)
  }

  /** The chains of the loops directly in a list. */
  function Inside(items: seq<Item>): set<string> {
    set i | 0 <= i < |items| && items[i].Loop? :: items[i].chain.next
  }

  function Insides(lists: seq<seq<Item>>): set<string> {
    if lists == [] then {} else Insides(lists[..|lists| - 1]) + Inside(lists[|lists| - 1])
  }

  /** The items stand one after the other for the steps, each where the best choice puts it. */
  ghost predicate Tiled(items: seq<Item>, steps: seq<Step>, chains: seq<Chain>, forced: set<string>)
    decreases |chains|, 2
  {
    exists starts: seq<nat> :: TiledAt(items, steps, chains, forced, starts) && starts[|items|] == |steps|
  }

  /** Item `j` stands for the steps from `starts[j]` to the next item's. */
  ghost predicate TiledAt(items: seq<Item>, steps: seq<Step>, chains: seq<Chain>, forced: set<string>,
                          starts: seq<nat>)
    decreases |chains|, 1
  {
    && |starts| == |items| + 1 && starts[0] == 0
    && (forall j :: 0 <= j < |items| ==> starts[j] < |steps|)
    && forall j :: 0 <= j < |items| ==> Placed(items[j], steps, starts[j], starts[j + 1], chains, forced)
  }

  /** A step stands alone exactly where no chain makes enough groups; a loop is the best run there,
      one group of items to each of the run's. */
  ghost predicate Placed(x: Item, steps: seq<Step>, i: nat, next: nat, chains: seq<Chain>, forced: set<string>)
    requires i < |steps|
    decreases |chains|, 0
  {
    match x
    case One(step) => step == steps[i] && next == i + 1 && IsBest(steps, i, chains, forced, |chains|, NoRun)
    case Loop(chain, position, groups) =>
      var g := Grown(steps, i, chain);
      && chain in chains && IsBest(steps, i, chains, forced, |chains|, Best(chain, g))
      && position == g.position && next == g.k && Grouped(groups, g.runs, Others(chains, chain.next))
  }

  /** Each group is its run folded over the other chains, every loop that some group forms by itself
      being forced on all. */
  ghost predicate Grouped(groups: seq<Group>, runs: seq<Run>, rest: seq<Chain>)
    decreases |rest|, 3
  {
    exists alone: seq<seq<Item>> :: |alone| == |groups| == |runs| &&
      forall j :: 0 <= j < |runs| ==>
        && Tiled(alone[j], runs[j].steps, rest, {}) && groups[j].elem == runs[j].elem
        && Tiled(groups[j].items, runs[j].steps, rest, Insides(alone))
  }

  /** One more item. */
  lemma TiledSnoc(items: seq<Item>, steps: seq<Step>, chains: seq<Chain>, forced: set<string>, starts: seq<nat>,
                  x: Item, next: nat)
    requires TiledAt(items, steps, chains, forced, starts) && starts[|items|] < |steps|
    requires Placed(x, steps, starts[|items|], next, chains, forced)
    ensures TiledAt(items + [x], steps, chains, forced, starts + [next])
  {
    hide Placed;
  }

  lemma GroupedBy(groups: seq<Group>, runs: seq<Run>, rest: seq<Chain>, alone: seq<seq<Item>>)
    requires |alone| == |groups| == |runs|
    requires forall j :: 0 <= j < |runs| ==> Tiled(alone[j], runs[j].steps, rest, {})
    requires forall j :: 0 <= j < |runs| ==>
      groups[j].elem == runs[j].elem && Tiled(groups[j].items, runs[j].steps, rest, Insides(alone))
    ensures Grouped(groups, runs, rest)
  {
    hide Tiled, Insides;
  }

  /** The steps as a list of steps and loops. A loop over a chain in `forced` is taken even with one
      group. The chains are fewer at each level of nesting, so folding ends. */
  method Fold(steps: seq<Step>, chains: seq<Chain>, forced: set<string>) returns (items: seq<Item>)
    ensures Flatten(items) == steps && ItemsOk(items)
    ensures Tiled(items, steps, chains, forced)
    decreases |chains|, 1
  {
    hide Grown, IsBest, GrowthOk, TiledAt, Placed, RunsOk, ItemOk, Joined, Flatten, FlattenItem, FlattenGroups;
    items := [];
    var i := 0;
    ghost var starts: seq<nat> := [0];
    NothingTiled(steps, chains, forced);
    while i < |steps|
      invariant i <= |steps| && Flatten(items) == steps[..i] && ItemsOk(items)
      invariant |starts| == |items| + 1 && starts[|items|] == i && TiledAt(items, steps, chains, forced, starts)
    {
      var b := Choose(steps, i, chains, forced);
      if b.NoRun? {
        FlattenSnoc(items, One(steps[i]));
        assert steps[..i + 1] == steps[..i] + [steps[i]];
        OnePlaced(steps, i, chains, forced);
        TiledSnoc(items, steps, chains, forced, starts, One(steps[i]), i + 1);
        items := items + [One(steps[i])];
        i := i + 1;
      } else {
        var g := b.growth;
        GrowthMeans(steps, i, b.chain, g);
        var groups := FoldGroups(g.runs, b.chain, g.position, chains);
        FlattenSnoc(items, Loop(b.chain, g.position, groups));
        assert steps[..g.k] == steps[..i] + steps[i..g.k];
        LoopPlaced(steps, i, chains, forced, b, groups);
        TiledSnoc(items, steps, chains, forced, starts, Loop(b.chain, g.position, groups), g.k);
        items := items + [Loop(b.chain, g.position, groups)];
        i := g.k;
      }
      starts := starts + [i];
    }
    assert steps[..i] == steps;
  }

  /** A loop's groups folded over the other chains, and again with the loops any of them has forced
      on all of them. */
  method FoldGroups(runs: seq<Run>, chain: Chain, position: Positions, chains: seq<Chain>) returns (groups: seq<Group>)
    requires chain in chains && runs != [] && RunsOk(runs, chain, position)
    ensures FlattenGroups(groups) == Joined(runs) && ItemOk(Loop(chain, position, groups))
    ensures Grouped(groups, runs, Others(chains, chain.next))
    decreases |chains|, 0
  {
    hide Grouped, Tiled, RunsOk, ItemOk, Insides;
    var rest := Others(chains, chain.next);
    var inside, alone := FoldAlone(runs, rest);
    groups := FoldAgain(runs, rest, inside);
    LoopOk(runs, chain, position, groups);
    GroupedBy(groups, runs, rest, alone);
  }

  /** Each group folded by itself, and the chains of the loops that come of it. */
  method FoldAlone(runs: seq<Run>, rest: seq<Chain>) returns (inside: set<string>, ghost alone: seq<seq<Item>>)
    ensures |alone| == |runs| && inside == Insides(alone)
    ensures forall j :: 0 <= j < |runs| ==> Tiled(alone[j], runs[j].steps, rest, {})
    decreases |rest|, 2
  {
    hide Tiled, ItemOk, Flatten;
    inside, alone := {}, [];
    for g := 0 to |runs|
      invariant |alone| == g && inside == Insides(alone)
      invariant forall j :: 0 <= j < g ==> Tiled(alone[j], runs[j].steps, rest, {})
    {
      var first := Fold(runs[g].steps, rest, {});
      assert (alone + [first])[..g] == alone;
      alone := alone + [first];
      inside := inside + Inside(first);
    }
  }

  method FoldAgain(runs: seq<Run>, rest: seq<Chain>, inside: set<string>) returns (groups: seq<Group>)
    ensures |groups| == |runs| && FlattenGroups(groups) == Joined(runs)
    ensures forall j :: 0 <= j < |runs| ==>
      groups[j].elem == runs[j].elem && Flatten(groups[j].items) == runs[j].steps && ItemsOk(groups[j].items)
    ensures forall j :: 0 <= j < |runs| ==> Tiled(groups[j].items, runs[j].steps, rest, inside)
    decreases |rest|, 2
  {
    hide Tiled, ItemOk, ItemsOk, Flatten;
    groups := [];
    for g := 0 to |runs|
      invariant |groups| == g && FlattenGroups(groups) == Joined(runs[..g])
      invariant forall j :: 0 <= j < g ==>
        groups[j].elem == runs[j].elem && Flatten(groups[j].items) == runs[j].steps && ItemsOk(groups[j].items)
      invariant forall j :: 0 <= j < g ==> Tiled(groups[j].items, runs[j].steps, rest, inside)
    {
      var items := Fold(runs[g].steps, rest, inside);
      GroupsSnoc(groups, Group(runs[g].elem, items));
      JoinedSnoc(runs[..g], runs[g]);
      assert runs[..g + 1] == runs[..g] + [runs[g]];
      groups := groups + [Group(runs[g].elem, items)];
    }
    assert runs[..|runs|] == runs;
  }

  lemma {:induction false} GroupsSnoc(groups: seq<Group>, g: Group)
    ensures FlattenGroups(groups + [g]) == FlattenGroups(groups) + Flatten(g.items)
  {
    if groups == [] {
      assert FlattenGroups([g][1..]) == [];
    } else {
      assert (groups + [g])[1..] == groups[1..] + [g];
      GroupsSnoc(groups[1..], g);
    }
  }

  lemma GrowthMeans(steps: seq<Step>, i: nat, chain: Chain, g: Growth)
    requires GrowthOk(steps, i, chain, g) && g.runs != []
    ensures i < g.k <= |steps| && RunsOk(g.runs, chain, g.position) && Joined(g.runs) == steps[i..g.k]
  {
  }

  lemma NothingTiled(steps: seq<Step>, chains: seq<Chain>, forced: set<string>)
    ensures TiledAt([], steps, chains, forced, [0]) && Flatten([]) == []
  {
  }

  lemma OnePlaced(steps: seq<Step>, i: nat, chains: seq<Chain>, forced: set<string>)
    requires i < |steps| && IsBest(steps, i, chains, forced, |chains|, NoRun)
    ensures Placed(One(steps[i]), steps, i, i + 1, chains, forced) && ItemOk(One(steps[i]))
    ensures FlattenItem(One(steps[i])) == [steps[i]]
  {
  }

  lemma LoopPlaced(steps: seq<Step>, i: nat, chains: seq<Chain>, forced: set<string>, b: Best, groups: seq<Group>)
    requires i < |steps| && b.Best? && b.chain in chains && IsBest(steps, i, chains, forced, |chains|, b)
    requires Grouped(groups, b.growth.runs, Others(chains, b.chain.next))
    ensures Placed(Loop(b.chain, b.growth.position, groups), steps, i, b.growth.k, chains, forced)
    ensures FlattenItem(Loop(b.chain, b.growth.position, groups)) == FlattenGroups(groups)
  {
    hide Grown, Grouped, FirstLongest;
  }

  lemma LoopOk(runs: seq<Run>, chain: Chain, position: Positions, groups: seq<Group>)
    requires runs != [] && RunsOk(runs, chain, position) && |groups| == |runs|
    requires forall j :: 0 <= j < |runs| ==>
      groups[j].elem == runs[j].elem && Flatten(groups[j].items) == runs[j].steps && ItemsOk(groups[j].items)
    ensures ItemOk(Loop(chain, position, groups))
  {
    forall i | 0 <= i < |groups|
      ensures groups[i].elem in chain.order
      ensures forall s <- Flatten(groups[i].items) :: Names(s, position, groups[i].elem)
    {
      assert RunOk(runs[i], chain, position);
    }
  }
}
