/** Methods lifted from checked step lists (eval/lift.py, `lift_case`, `picks_out`): argument places
    that agree in every example become a variable, and facts of the problem tie each variable to the
    module. The conditions then have one solution over each example's facts, and it gives the
    example's own list back. */
module Lifting {
  import V = Variants

  type Fact = V.Fact

  datatype Term = Var(v: nat) | Const(name: string)

  datatype Condition = Condition(pred: string, args: seq<Term>)

  type Step = (string, seq<string>)
  type Column = seq<string>

  /** A checked list, with the facts and types of its problem. */
  datatype Example = Example(steps: seq<Step>, facts: set<Fact>, types: map<string, string>, about: string)

  /** The examples of one case: the same steps by name, with as many arguments. */
  ghost predicate OneCase(es: seq<Example>) {
    es != [] && forall k :: 0 <= k < |es| ==> SameSteps(es[0].steps, es[k].steps)
  }

  ghost predicate SameSteps(x: seq<Step>, y: seq<Step>) {
    |x| == |y| && forall i :: 0 <= i < |x| ==> x[i].0 == y[i].0 && |x[i].1| == |y[i].1|
  }

  /** What every example has at one argument place. */
  ghost function At(es: seq<Example>, i: nat, j: nat): Column
    requires OneCase(es) && i < |es[0].steps| && j < |es[0].steps[i].1|
  {
    seq(|es|, k requires 0 <= k < |es| => es[k].steps[i].1[j])
  }

  function About(es: seq<Example>): Column {
    seq(|es|, k requires 0 <= k < |es| => es[k].about)
  }

  // ----- The lifted method -----

  /** Variables by number, the module's first; the conditions, and the subtasks over variables and
      constants. */
  datatype Lifted =
    CannotLift | Lifted(types: map<nat, string>, conditions: seq<Condition>, subtasks: seq<(string, seq<Term>)>)

  type Assignment = map<nat, string>

  predicate TermOk(t: Term, vars: set<nat>) {
    t.Var? ==> t.v in vars
  }

  function Apply(t: Term, a: Assignment): string
    requires TermOk(t, a.Keys)
  {
    if t.Var? then a[t.v] else t.name
  }

  function ApplyAll(ts: seq<Term>, a: Assignment): seq<string>
    requires forall i :: 0 <= i < |ts| ==> TermOk(ts[i], a.Keys)
  {
    seq(|ts|, i requires 0 <= i < |ts| => Apply(ts[i], a))
  }

  ghost predicate CondOk(c: Condition, vars: set<nat>) {
    forall i :: 0 <= i < |c.args| ==> TermOk(c.args[i], vars)
  }

  ghost predicate CondHolds(c: Condition, e: Example, a: Assignment)
    requires CondOk(c, a.Keys)
  {
    V.Fact(c.pred, ApplyAll(c.args, a)) in e.facts
  }

  /** An assignment of the variables, the module's fixed, under which the conditions are facts. */
  ghost predicate Solves(a: Assignment, vars: set<nat>, conds: seq<Condition>, e: Example) {
    && a.Keys == vars && (0 in vars ==> a[0] == e.about)
    && forall i :: 0 <= i < |conds| ==> CondOk(conds[i], vars) && CondHolds(conds[i], e, a)
  }

  /** The values the variables stand for in example `k`. */
  function Own(cols: seq<Column>, vars: set<nat>, k: nat): Assignment
    requires forall v <- vars :: v < |cols| && k < |cols[v]|
  {
    map v | v in vars :: cols[v][k]
  }

  // ----- Picking out -----

  ghost predicate ColsOk(cols: seq<Column>, n: nat) {
    forall v :: 0 <= v < |cols| ==> |cols[v]| == n
  }

  /** The fact fits the pattern, the bound variables filled in: a new variable takes what it meets
      first, and the same again. */
  predicate Fits(f: Fact, c: Condition, cols: seq<Column>, bound: set<nat>, k: nat)
    requires forall v <- bound :: v < |cols| && k < |cols[v]|
  {
    f.pred == c.pred && |f.args| == |c.args| && forall i :: 0 <= i < |c.args| ==>
      match c.args[i]
      case Const(name) => f.args[i] == name
      case Var(v) => if v in bound then f.args[i] == cols[v][k]
          else forall j :: 0 <= j < i && c.args[j] == c.args[i] ==> f.args[j] == f.args[i]
  }

  /** Exactly one fact fits, and it is the one with the values the examples hold. */
  ghost predicate PicksOut(e: Example, c: Condition, cols: seq<Column>, bound: set<nat>, k: nat)
    requires (forall v <- bound :: v < |cols| && k < |cols[v]|)
    requires forall i :: 0 <= i < |c.args| && c.args[i].Var? ==> c.args[i].v < |cols| && k < |cols[c.args[i].v]|
  {
    exists f :: f in e.facts && Fits(f, c, cols, bound, k) &&
        (forall g <- e.facts :: Fits(g, c, cols, bound, k) ==> g == f)
      && forall i :: 0 <= i < |c.args| && c.args[i].Var? ==> f.args[i] == cols[c.args[i].v][k]
  }

  /** The pattern held against one fact, with what the new variables have met so far. */
  method Match(f: Fact, c: Condition, cols: seq<Column>, bound: set<nat>, k: nat)
      returns (ok: bool, seen: map<nat, string>)
    requires forall v <- bound :: v < |cols| && k < |cols[v]|
    ensures ok <==> Fits(f, c, cols, bound, k)
    ensures ok ==> forall i :: 0 <= i < |c.args| && c.args[i].Var? && c.args[i].v !in bound ==>
      c.args[i].v in seen && seen[c.args[i].v] == f.args[i]
    ensures ok ==>
      forall v <- seen :: exists i :: 0 <= i < |c.args| && c.args[i] == Var(v) && v !in bound && f.args[i] == seen[v]
  {
    seen := map[];
    if f.pred != c.pred || |f.args| != |c.args| {
      return false, seen;
    }
    for i := 0 to |c.args|
      invariant forall j :: 0 <= j < i && c.args[j].Const? ==> f.args[j] == c.args[j].name
      invariant forall j :: 0 <= j < i && c.args[j].Var? && c.args[j].v in bound ==> f.args[j] == cols[c.args[j].v][k]
      invariant forall j :: 0 <= j < i && c.args[j].Var? && c.args[j].v !in bound ==>
        c.args[j].v in seen && seen[c.args[j].v] == f.args[j]
      invariant forall v <- seen :: exists j :: 0 <= j < i && c.args[j] == Var(v) && v !in bound && f.args[j] == seen[v]
    {
      var a := f.args[i];
      match c.args[i]
      case Const(name) =>
        if a != name {
          return false, seen;
        }
      case Var(v) =>
        if v in bound {
          if a != cols[v][k] {
            return false, seen;
          }
        } else if v in seen {
          if seen[v] != a {
            return false, seen;
          }
        } else {
          seen := seen[v := a];
        }
    }
    return true, seen;
  }

  /** `picks_out`: a scan of the facts. */
  method Picks(e: Example, c: Condition, cols: seq<Column>, bound: set<nat>, k: nat) returns (yes: bool)
    requires (forall v <- bound :: v < |cols| && k < |cols[v]|)
    requires forall i :: 0 <= i < |c.args| && c.args[i].Var? ==> c.args[i].v < |cols| && k < |cols[c.args[i].v]|
    ensures yes <==> PicksOut(e, c, cols, bound, k)
  {
    hide Fits;
    var todo, matches := e.facts, 0;
    var found: map<nat, string> := map[];
    ghost var fits: set<Fact> := {};
    ghost var the: Fact := V.Fact("", []);
    while todo != {}
      invariant todo <= e.facts && matches == |fits|
      invariant forall f :: f in fits <==> f in e.facts - todo && Fits(f, c, cols, bound, k)
      invariant matches == 1 ==> the in fits && Met(the, c, bound, found)
      decreases todo
    {
      var f :| f in todo;
      todo := todo - {f};
      var ok, seen := Match(f, c, cols, bound, k);
      if ok {
        FitsBound(f, c, cols, bound, k);
        fits := fits + {f};
        matches := matches + 1;
        found := seen;
        the := f;
      }
    }
    if matches == 1 {
      OneFits(fits, the);
      yes := forall v <- found :: cols[v][k] == found[v];
      FitsBound(the, c, cols, bound, k);
    } else {
      yes := false;
      NotOne(e, c, cols, bound, k, fits);
    }
  }

  /** What the new variables of a pattern meet in a fact. */
  ghost predicate Met(f: Fact, c: Condition, bound: set<nat>, seen: map<nat, string>) {
    && |f.args| == |c.args|
    && (forall i :: 0 <= i < |c.args| && c.args[i].Var? && c.args[i].v !in bound ==>
        c.args[i].v in seen && seen[c.args[i].v] == f.args[i])
    && (forall v <- seen :: exists i :: 0 <= i < |c.args| && c.args[i] == Var(v) && v !in bound && f.args[i] == seen[v])
  }

  lemma OneFits(fits: set<Fact>, the: Fact)
    requires |fits| == 1 && the in fits
    ensures fits == {the}
  {
    assert |fits - {the}| == 0;
  }

  lemma FitsBound(f: Fact, c: Condition, cols: seq<Column>, bound: set<nat>, k: nat)
    requires (forall v <- bound :: v < |cols| && k < |cols[v]|) && Fits(f, c, cols, bound, k)
    ensures |f.args| == |c.args|
    ensures forall i :: 0 <= i < |c.args| && c.args[i].Var? && c.args[i].v in bound ==>
      f.args[i] == cols[c.args[i].v][k]
  {
  }

  lemma NotOne(e: Example, c: Condition, cols: seq<Column>, bound: set<nat>, k: nat, fits: set<Fact>)
    requires (forall v <- bound :: v < |cols| && k < |cols[v]|)
    requires forall i :: 0 <= i < |c.args| && c.args[i].Var? ==> c.args[i].v < |cols| && k < |cols[c.args[i].v]|
    requires |fits| != 1 && forall f :: f in fits <==> f in e.facts && Fits(f, c, cols, bound, k)
    ensures !PicksOut(e, c, cols, bound, k)
  {
    hide Fits;
    forall f | f in e.facts && Fits(f, c, cols, bound, k)
      ensures exists g :: g in e.facts && Fits(g, c, cols, bound, k) && g != f
    {
      assert f in fits && |{f}| == 1;
      assert fits != {f};
      var g :| g in fits && g != f;
    }
  }

  // ----- What the conditions say -----

  function VarsOf(c: Condition): set<nat> {
    set i | 0 <= i < |c.args| && c.args[i].Var? :: c.args[i].v
  }

  /** Conditions that tie variables, one after another, starting from those in `from`. */
  ghost predicate Ties(es: seq<Example>, conds: seq<Condition>, cols: seq<Column>, from: set<nat>, bound: set<nat>)
    requires ColsOk(cols, |es|)
    decreases |conds|
  {
    if conds == [] then from == bound
    else
      var c := conds[|conds| - 1];
      exists before: set<nat> ::
          Ties(es, conds[..|conds| - 1], cols, from, before) && Tied(es, c, cols, before) && bound == before + VarsOf(c)
  }

  ghost predicate Tied(es: seq<Example>, c: Condition, cols: seq<Column>, before: set<nat>)
    requires ColsOk(cols, |es|)
  {
    && (forall v <- before + VarsOf(c) :: v < |cols|)
    && forall k :: 0 <= k < |es| ==> PicksIn(es, c, cols, before, k)
  }

  ghost predicate PicksIn(es: seq<Example>, c: Condition, cols: seq<Column>, before: set<nat>, k: nat)
    requires ColsOk(cols, |es|) && (forall v <- before + VarsOf(c) :: v < |cols|) && k < |es|
  {
    VarsIn(c);
    PicksOut(es[k], c, cols, before, k)
  }

  lemma VarsIn(c: Condition)
    ensures forall i :: 0 <= i < |c.args| && c.args[i].Var? ==> c.args[i].v in VarsOf(c)
  {
  }

  /** A solution that has the bound variables right has the rest of the pattern's right. */
  lemma PickedOut(e: Example, c: Condition, cols: seq<Column>, bound: set<nat>, k: nat, a: Assignment)
    requires (forall v <- bound :: v < |cols| && k < |cols[v]|)
    requires forall i :: 0 <= i < |c.args| && c.args[i].Var? ==> c.args[i].v < |cols| && k < |cols[c.args[i].v]|
    requires PicksOut(e, c, cols, bound, k) && CondOk(c, a.Keys) && forall v <- bound :: v in a ==> a[v] == cols[v][k]
    ensures CondHolds(c, e, a) <==> forall i :: 0 <= i < |c.args| && c.args[i].Var? ==>
      a[c.args[i].v] == cols[c.args[i].v][k]
  {
    var f :| f in e.facts && Fits(f, c, cols, bound, k) &&
        (forall g <- e.facts :: Fits(g, c, cols, bound, k) ==> g == f)
      && forall i :: 0 <= i < |c.args| && c.args[i].Var? ==> f.args[i] == cols[c.args[i].v][k];
    var g := V.Fact(c.pred, ApplyAll(c.args, a));
    if CondHolds(c, e, a) {
      assert Fits(g, c, cols, bound, k);
      assert forall i :: 0 <= i < |c.args| ==> g.args[i] == Apply(c.args[i], a);
    }
    if forall i :: 0 <= i < |c.args| && c.args[i].Var? ==> a[c.args[i].v] == cols[c.args[i].v][k] {
      forall i | 0 <= i < |c.args|
        ensures f.args[i] == Apply(c.args[i], a)
      {
      }
      assert f.args == ApplyAll(c.args, a);
      assert f == g;
    }
  }

  /** Where the conditions tie `bound`, they hold of an assignment exactly when it has the variables
      of `bound` as the example has them. */
  lemma {:induction false} TiesMean(es: seq<Example>, conds: seq<Condition>, cols: seq<Column>, from: set<nat>,
        bound: set<nat>, k: nat, a: Assignment)
    requires ColsOk(cols, |es|) && Ties(es, conds, cols, from, bound) && k < |es| && bound <= a.Keys && from <= a.Keys
    requires forall v <- from :: v < |cols| && a[v] == cols[v][k]
    ensures from <= bound && (forall v <- bound :: v < |cols|)
    ensures forall i :: 0 <= i < |conds| ==> CondOk(conds[i], a.Keys)
    ensures (forall i :: 0 <= i < |conds| ==> CondHolds(conds[i], es[k], a)) <==>
        forall v <- bound :: a[v] == cols[v][k]
    decreases |conds|
  {
    if conds != [] {
      var init, c := conds[..|conds| - 1], conds[|conds| - 1];
      var before: set<nat> :| Ties(es, init, cols, from, before) && Tied(es, c, cols, before) && bound ==
          before + VarsOf(c);
      TiesMean(es, init, cols, from, before, k, a);
      VarsIn(c);
      assert PicksIn(es, c, cols, before, k);
      assert conds == init + [c];
      assert CondOk(c, a.Keys);
      if forall v <- before :: a[v] == cols[v][k] {
        PickedOut(es[k], c, cols, before, k, a);
        assert forall v <- VarsOf(c) :: exists i :: 0 <= i < |c.args| && c.args[i] == Var(v);
      }
    }
  }

  // ----- Variables -----

  type Place = (nat, nat)

  /** The variable of each place, so far. */
  type Places = map<Place, nat>

  ghost predicate IsPlace(es: seq<Example>, p: Place)
    requires es != []
  {
    p.0 < |es[0].steps| && p.1 < |es[0].steps[p.0].1|
  }

  /** Each column once, the module's first, and each place's variable stands for its column. */
  ghost predicate Named(es: seq<Example>, cols: seq<Column>, varOf: Places)
    requires OneCase(es)
  {
    && ColsOk(cols, |es|) && cols != [] && cols[0] == About(es)
    && (forall u, v :: 0 <= u < v < |cols| ==> cols[u] != cols[v])
    && forall p <- varOf :: IsPlace(es, p) && varOf[p] < |cols| && cols[varOf[p]] == At(es, p.0, p.1)
  }

  function IndexOf(cols: seq<Column>, c: Column): (v: nat)
    ensures v <= |cols| && (v < |cols| ==> cols[v] == c)
    ensures v == |cols| ==> c !in cols
  {
    if cols == [] || cols[0] == c then 0 else 1 + IndexOf(cols[1..], c)
  }

  method ColumnAt(es: seq<Example>, i: nat, j: nat) returns (c: Column)
    requires OneCase(es) && IsPlace(es, (i, j))
    ensures c == At(es, i, j) && |c| == |es|
  {
    c := [];
    for k := 0 to |es|
      invariant c == At(es, i, j)[..k]
    {
      assert SameSteps(es[0].steps, es[k].steps);
      c := c + [es[k].steps[i].1[j]];
    }
  }

  predicate Same(c: Column) {
    forall k :: 0 <= k < |c| ==> c[k] == c[0]
  }

  /** A constant that never varies: a variable only if a fact ties it. */
  predicate Tentative(cols: seq<Column>, constants: set<string>, v: nat) {
    0 < v < |cols| && cols[v] != [] && Same(cols[v]) && cols[v][0] in constants
  }

  /** A variable for each distinct column; a constant that never varies is only tentatively one. */
  method NameColumns(es: seq<Example>, constants: set<string>)
      returns (cols: seq<Column>, varOf: Places, tentative: set<nat>)
    requires OneCase(es)
    ensures Named(es, cols, varOf) && forall p: Place :: p in varOf <==> IsPlace(es, p)
    ensures forall v: nat :: v in tentative <==> Tentative(cols, constants, v)
  {
    cols, varOf, tentative := [About(es)], map[], {};
    for i := 0 to |es[0].steps|
      invariant Named(es, cols, varOf)
      invariant forall p: Place :: p in varOf <==> IsPlace(es, p) && p.0 < i
      invariant forall v: nat :: v in tentative <==> Tentative(cols, constants, v)
    {
      for j := 0 to |es[0].steps[i].1|
        invariant Named(es, cols, varOf)
        invariant forall p: Place :: p in varOf <==> IsPlace(es, p) && (p.0 < i || (p.0 == i && p.1 < j))
        invariant forall v: nat :: v in tentative <==> Tentative(cols, constants, v)
      {
        cols, varOf, tentative := NamePlace(es, constants, i, j, cols, varOf, tentative);
      }
    }
  }

  lemma NewColumn(es: seq<Example>, cols: seq<Column>, varOf: Places, c: Column)
    requires OneCase(es) && Named(es, cols, varOf) && c !in cols && |c| == |es|
    ensures Named(es, cols + [c], varOf)
  {
    hide At;
    var more := cols + [c];
    assert forall u :: 0 <= u < |cols| ==> more[u] == cols[u] && cols[u] in cols;
  }

  lemma OnePlace(es: seq<Example>, i: nat, j: nat, cols: seq<Column>, varOf: Places, v: nat)
    requires OneCase(es) && IsPlace(es, (i, j)) && Named(es, cols, varOf) && v < |cols| && cols[v] == At(es, i, j)
    ensures Named(es, cols, WithPlace(varOf, (i, j), v))
  {
    hide At;
  }

  function WithPlace(varOf: Places, p: Place, v: nat): Places {
    varOf[p := v]
  }

  method NamePlace(es: seq<Example>, constants: set<string>, i: nat, j: nat, cols: seq<Column>, varOf: Places,
        tentative: set<nat>)
      returns (cols': seq<Column>, varOf': Places, tentative': set<nat>)
    requires OneCase(es) && IsPlace(es, (i, j)) && Named(es, cols, varOf)
    requires forall v: nat :: v in tentative <==> Tentative(cols, constants, v)
    ensures Named(es, cols', varOf') && varOf'.Keys == varOf.Keys + {(i, j)}
    ensures forall v: nat :: v in tentative' <==> Tentative(cols', constants, v)
  {
    hide Named, Same, At;
    NamedCols(es, cols, varOf);
    var c := ColumnAt(es, i, j);
    var v := IndexOf(cols, c);
    cols', tentative' := cols, tentative;
    if v == |cols| {
      NewColumn(es, cols, varOf, c);
      cols' := cols + [c];
      assert forall u: nat :: u < |cols| ==> cols'[u] == cols[u];
      if Same(c) && c[0] in constants {
        tentative' := tentative + {v};
      }
    }
    OnePlace(es, i, j, cols', varOf, v);
    varOf' := WithPlace(varOf, (i, j), v);
  }

  // ----- Tying -----

  /** Ways to read one argument: the variables that stand for it in the first example, and itself if
      it is a constant. */
  function Choices(cols: seq<Column>, vars: set<nat>, constants: set<string>, a: string): set<Term>
    requires forall v <- vars :: v < |cols| && cols[v] != []
  {
    (set v | v in vars && cols[v][0] == a :: Var(v)) + (if a in constants then {Const(a)} else {})
  }

  function Readings(cols: seq<Column>, vars: set<nat>, constants: set<string>, args: seq<string>): set<seq<Term>>
    requires forall v <- vars :: v < |cols| && cols[v] != []
  {
    if args == [] then {[]}
    else set t, ts | t in Choices(cols, vars, constants, args[0]) && ts in Readings(cols, vars, constants,
        args[1..]) :: [t] + ts
  }

  lemma {:induction false} ReadingVars(cols: seq<Column>, vars: set<nat>, constants: set<string>, args: seq<string>,
        r: seq<Term>)
    requires (forall v <- vars :: v < |cols| && cols[v] != []) && r in Readings(cols, vars, constants, args)
    ensures forall i :: 0 <= i < |r| && r[i].Var? ==> r[i].v in vars
  {
    if args != [] {
      var t, ts :| t in Choices(cols, vars, constants, args[0]) && ts in Readings(cols, vars, constants, args[1..]) &&
          r == [t] + ts;
      ReadingVars(cols, vars, constants, args[1..], ts);
    }
  }

  function Patterns(e: Example, cols: seq<Column>, vars: set<nat>, constants: set<string>): set<Condition>
    requires forall v <- vars :: v < |cols| && cols[v] != []
  {
    set f, r | f in e.facts && r in Readings(cols, vars, constants, f.args) :: Condition(f.pred, r)
  }

  datatype Choice = Nothing | Chosen(c: Condition)

  /** A pattern that ties new variables in every example, the one preferred; nothing if none does. */
  method Best(es: seq<Example>, cols: seq<Column>, vars: set<nat>, constants: set<string>, bound: set<nat>,
        prefer: (Condition, Condition) -> bool)
      returns (b: Choice)
    requires OneCase(es) && ColsOk(cols, |es|) && (forall v <- vars :: v < |cols|) && bound <= vars
    ensures b.Chosen? ==> VarsOf(b.c) <= vars && VarsOf(b.c) - bound != {} && Tied(es, b.c, cols, bound)
    ensures b.Chosen? ==> b.c in Patterns(es[0], cols, vars, constants)
    ensures b.Nothing? ==> forall c <- Patterns(es[0], cols, vars, constants) :: VarsOf(c) - bound != {} ==>
      !Tied(es, c, cols, bound)
  {
    hide PicksOut, Readings;
    b := Nothing;
    var todo := Patterns(es[0], cols, vars, constants);
    while todo != {}
      invariant todo <= Patterns(es[0], cols, vars, constants)
      invariant b.Chosen? ==> VarsOf(b.c) <= vars && VarsOf(b.c) - bound != {} && Tied(es, b.c, cols, bound)
      invariant b.Chosen? ==> b.c in Patterns(es[0], cols, vars, constants)
      invariant b.Nothing? ==> forall c <- Patterns(es[0], cols, vars, constants) ::
          c !in todo && VarsOf(c) - bound != {} ==> !Tied(es, c, cols, bound)
      decreases todo
    {
      var c :| c in todo;
      todo := todo - {c};
      PatternVars(es[0], cols, vars, constants, c);
      if VarsOf(c) - bound != {} {
        var tied := TiedInAll(es, c, cols, bound);
        if tied && (b.Nothing? || prefer(c, b.c)) {
          b := Chosen(c);
        }
      }
    }
  }

  lemma PatternVars(e: Example, cols: seq<Column>, vars: set<nat>, constants: set<string>, c: Condition)
    requires (forall v <- vars :: v < |cols| && cols[v] != []) && c in Patterns(e, cols, vars, constants)
    ensures VarsOf(c) <= vars
  {
    var f, r :| f in e.facts && r in Readings(cols, vars, constants, f.args) && c == Condition(f.pred, r);
    ReadingVars(cols, vars, constants, f.args, r);
  }

  method TiedInAll(es: seq<Example>, c: Condition, cols: seq<Column>, bound: set<nat>) returns (yes: bool)
    requires ColsOk(cols, |es|) && forall v <- bound + VarsOf(c) :: v < |cols|
    ensures yes <==> Tied(es, c, cols, bound)
  {
    hide PicksOut;
    VarsIn(c);
    for k := 0 to |es|
      invariant forall l :: 0 <= l < k ==> PicksIn(es, c, cols, bound, l)
    {
      var picked := Picks(es[k], c, cols, bound, k);
      if !picked {
        assert !PicksIn(es, c, cols, bound, k);
        return false;
      }
      assert PicksIn(es, c, cols, bound, k);
    }
    return true;
  }

  // ----- Which variables can be tied -----

  function Below(n: nat): (s: set<nat>)
    ensures forall v: nat :: v in s <==> v < n
  {
    if n == 0 then {} else Below(n - 1) + {n - 1}
  }

  /** Every reading of the first example's facts. */
  ghost function Facing(es: seq<Example>, cols: seq<Column>, constants: set<string>): set<Condition>
    requires OneCase(es) && ColsOk(cols, |es|)
  {
    Patterns(es[0], cols, Below(|cols|), constants)
  }

  /** Some chain of the first example's facts, in whatever order, ties the variable to the module. */
  ghost predicate Tieable(es: seq<Example>, cols: seq<Column>, constants: set<string>, v: nat)
    requires OneCase(es) && ColsOk(cols, |es|)
  {
    exists conds, b :: Ties(es, conds, cols, {0}, b) && v in b && forall c <- conds :: c in Facing(es, cols, constants)
  }

  /** No pattern ties anything more. */
  ghost predicate Closed(es: seq<Example>, cols: seq<Column>, constants: set<string>, bound: set<nat>)
    requires OneCase(es) && ColsOk(cols, |es|)
  {
    forall c <- Facing(es, cols, constants) :: VarsOf(c) - bound != {} ==> !Tied(es, c, cols, bound)
  }

  lemma PicksGrows(e: Example, c: Condition, cols: seq<Column>, b: set<nat>, b': set<nat>, k: nat)
    requires (forall v <- b' :: v < |cols| && k < |cols[v]|)
    requires forall i :: 0 <= i < |c.args| && c.args[i].Var? ==> c.args[i].v < |cols| && k < |cols[c.args[i].v]|
    requires b <= b' && PicksOut(e, c, cols, b, k)
    ensures PicksOut(e, c, cols, b', k)
  {
    var f :| f in e.facts && Fits(f, c, cols, b, k) && (forall g <- e.facts :: Fits(g, c, cols, b, k) ==> g == f)
      && forall i :: 0 <= i < |c.args| && c.args[i].Var? ==> f.args[i] == cols[c.args[i].v][k];
    assert Fits(f, c, cols, b', k);
    forall g | g in e.facts && Fits(g, c, cols, b', k)
      ensures g == f
    {
      assert Fits(g, c, cols, b, k);
    }
  }

  /** With more variables tied, a pattern ties what it did. */
  lemma TiedGrows(es: seq<Example>, c: Condition, cols: seq<Column>, b: set<nat>, b': set<nat>)
    requires ColsOk(cols, |es|) && Tied(es, c, cols, b) && b <= b' && forall v <- b' :: v < |cols|
    ensures Tied(es, c, cols, b')
  {
    hide PicksOut;
    VarsIn(c);
    assert forall v :: v in b' + VarsOf(c) ==> v in b' || v in b + VarsOf(c);
    assert forall v <- b' + VarsOf(c) :: v < |cols|;
    forall k | 0 <= k < |es|
      ensures PicksIn(es, c, cols, b', k)
    {
      assert PicksIn(es, c, cols, b, k);
      PicksGrows(es[k], c, cols, b, b', k);
    }
  }

  /** So the order in which patterns are taken does not matter: when no more can be tied, everything
      has been that ever could. */
  lemma {:induction false} ClosedTiesAll(es: seq<Example>, conds: seq<Condition>, cols: seq<Column>,
        constants: set<string>, b: set<nat>, bound: set<nat>)
    requires OneCase(es) && ColsOk(cols, |es|) && Ties(es, conds, cols, {0}, b)
    requires forall c <- conds :: c in Facing(es, cols, constants)
    requires Closed(es, cols, constants, bound) && 0 in bound && forall v <- bound :: v < |cols|
    ensures b <= bound
    decreases |conds|
  {
    hide Tied, Facing;
    if conds != [] {
      var init, c := conds[..|conds| - 1], conds[|conds| - 1];
      var before: set<nat> :| Ties(es, init, cols, {0}, before) && Tied(es, c, cols, before) && b == before + VarsOf(c);
      assert c in conds && forall x <- init :: x in conds;
      ClosedTiesAll(es, init, cols, constants, before, bound);
      TiedGrows(es, c, cols, before, bound);
      assert VarsOf(c) - bound == {};
      assert forall v <- VarsOf(c) :: v in bound || v in VarsOf(c) - bound;
    }
  }

  // ----- The whole case -----

  /** Every example has what the column holds in it of type `t`. */
  ghost predicate TypeAgreed(es: seq<Example>, col: Column, t: string)
    requires |col| == |es|
  {
    forall k :: 0 <= k < |es| ==> col[k] in es[k].types && es[k].types[col[k]] == t
  }

  ghost predicate HasType(es: seq<Example>, col: Column)
    requires |col| == |es|
  {
    exists t :: TypeAgreed(es, col, t)
  }

  /** The types of the variables, where every example agrees on one. */
  method FindTypes(es: seq<Example>, cols: seq<Column>) returns (ok: bool, types: map<nat, string>)
    requires OneCase(es) && ColsOk(cols, |es|)
    ensures ok <==> forall v: nat :: v < |cols| ==> HasType(es, cols[v])
    ensures ok ==> types.Keys == Below(|cols|) && forall v <- types :: TypeAgreed(es, cols[v], types[v])
  {
    types := map[];
    for v := 0 to |cols|
      invariant types.Keys == Below(v)
      invariant forall u <- types :: TypeAgreed(es, cols[u], types[u])
    {
      if cols[v][0] !in es[0].types {
        return false, types;
      }
      var t := es[0].types[cols[v][0]];
      for k := 0 to |es|
        invariant forall l :: 0 <= l < k ==> cols[v][l] in es[l].types && es[l].types[cols[v][l]] == t
      {
        if cols[v][k] !in es[k].types || es[k].types[cols[v][k]] != t {
          assert forall u :: TypeAgreed(es, cols[v], u) ==> u == t;
          return false, types;
        }
      }
      assert TypeAgreed(es, cols[v], t);
      types := types[v := t];
    }
    forall v: nat | v < |cols|
      ensures HasType(es, cols[v])
    {
      assert v in Below(|cols|) && TypeAgreed(es, cols[v], types[v]);
    }
    return true, types;
  }

  ghost predicate IsKind(es: seq<Example>, pred: string) {
    forall k :: 0 <= k < |es| ==> V.Fact(pred, [es[k].about]) in es[k].facts
  }

  /** The facts about the module alone that every example has. */
  method Kinds(es: seq<Example>) returns (kinds: seq<Condition>)
    requires OneCase(es)
    ensures forall c <- kinds :: c.args == [Var(0)] && forall k :: 0 <= k < |es| ==>
      V.Fact(c.pred, [es[k].about]) in es[k].facts
    ensures forall pred :: IsKind(es, pred) ==> Condition(pred, [Var(0)]) in kinds
  {
    kinds := [];
    var todo := es[0].facts;
    while todo != {}
      invariant todo <= es[0].facts
      invariant forall c <- kinds :: c.args == [Var(0)] && forall k :: 0 <= k < |es| ==>
        V.Fact(c.pred, [es[k].about]) in es[k].facts
      invariant forall f <- es[0].facts - todo :: f.args == [es[0].about] && IsKind(es, f.pred) ==>
        Condition(f.pred, [Var(0)]) in kinds
      decreases todo
    {
      var f :| f in todo;
      todo := todo - {f};
      if f.args == [es[0].about] && forall k | 0 <= k < |es| :: V.Fact(f.pred, [es[k].about]) in es[k].facts {
        kinds := [Condition(f.pred, [Var(0)])] + kinds;
      }
    }
    forall pred | IsKind(es, pred)
      ensures Condition(pred, [Var(0)]) in kinds
    {
      assert V.Fact(pred, [es[0].about]) in es[0].facts;
    }
  }

  function TermAt(es: seq<Example>, varOf: Places, vars: set<nat>, i: nat, j: nat): Term
    requires es != [] && i < |es[0].steps| && j < |es[0].steps[i].1|
  {
    if (i, j) in varOf && varOf[(i, j)] in vars then Var(varOf[(i, j)]) else Const(es[0].steps[i].1[j])
  }

  /** The first list with its places replaced by their variables, as far as those are kept. */
  function Subtasks(es: seq<Example>, varOf: Places, vars: set<nat>): seq<(string, seq<Term>)>
    requires es != []
  {
    seq(|es[0].steps|, i requires 0 <= i < |es[0].steps| =>
      (es[0].steps[i].0,
          seq(|es[0].steps[i].1|, j requires 0 <= j < |es[0].steps[i].1| => TermAt(es, varOf, vars, i, j))))
  }

  ghost predicate SubtasksOk(subtasks: seq<(string, seq<Term>)>, vars: set<nat>) {
    forall i :: 0 <= i < |subtasks| ==> forall j :: 0 <= j < |subtasks[i].1| ==> TermOk(subtasks[i].1[j], vars)
  }

  ghost function Instance(subtasks: seq<(string, seq<Term>)>, a: Assignment): seq<Step>
    requires SubtasksOk(subtasks, a.Keys)
  {
    seq(|subtasks|, i requires 0 <= i < |subtasks| => (subtasks[i].0, ApplyAll(subtasks[i].1, a)))
  }

  /** Over the example's facts the conditions have exactly one solution, and it turns the subtasks
      back into the example's list. */
  ghost predicate Reinstantiates(r: Lifted, e: Example)
    requires r.Lifted?
  {
    && SubtasksOk(r.subtasks, r.types.Keys)
    && exists a: Assignment :: Solves(a, r.types.Keys, r.conditions, e) &&
        (forall b: Assignment :: Solves(b, r.types.Keys, r.conditions, e) ==> b == a)
         && Instance(r.subtasks, a) == e.steps
  }

  /** The conditions chosen one after another: whatever is preferred, they tie all that can be. */
  method TieAll(es: seq<Example>, cols: seq<Column>, constants: set<string>, prefer: (Condition, Condition) -> bool)
      returns (bound: set<nat>, conds: seq<Condition>)
    requires OneCase(es) && ColsOk(cols, |es|) && cols != []
    ensures Ties(es, conds, cols, {0}, bound) && 0 in bound && bound <= Below(|cols|)
    ensures forall v: nat :: v < |cols| ==> (v in bound <==> Tieable(es, cols, constants, v))
  {
    hide Tied, Ties, PicksOut;
    var vars := Below(|cols|);
    bound, conds := {0}, [];
    TiesStart(es, cols);
    while bound != vars
      invariant 0 in bound && bound <= vars && Ties(es, conds, cols, {0}, bound)
      invariant forall c <- conds :: c in Facing(es, cols, constants)
      decreases vars - bound
    {
      var b := Best(es, cols, vars, constants, bound, prefer);
      if b.Nothing? {
        break;
      }
      TiesMore(es, conds, cols, bound, b.c);
      conds := conds + [b.c];
      bound := bound + VarsOf(b.c);
    }
    TiedAll(es, cols, constants, conds, bound);
  }

  /** `lift_case`. Whatever it prefers, it lifts exactly the cases whose columns are of one type each
      and whose variables can all be tied, but for constants; the variables kept are those that can. */
  method LiftCase(es: seq<Example>, constants: set<string>, prefer: (Condition, Condition) -> bool)
      returns (r: Lifted, ghost cols: seq<Column>)
    requires OneCase(es)
    ensures ColsOk(cols, |es|)
    ensures exists varOf :: Named(es, cols, varOf) && forall p: Place :: p in varOf <==> IsPlace(es, p)
    ensures r.Lifted? ==> forall e <- es :: Reinstantiates(r, e)
    ensures r.Lifted? ==> forall v: nat :: v in r.types <==> v < |cols| && Tieable(es, cols, constants, v)
    ensures r.Lifted? ==> forall v <- r.types :: v < |cols| && TypeAgreed(es, cols[v], r.types[v])
    ensures r.Lifted? ==> forall pred :: IsKind(es, pred) ==> Condition(pred, [Var(0)]) in r.conditions
    ensures r.Lifted? <==>
            (forall v: nat :: v < |cols| ==> HasType(es, cols[v])) &&
            (forall v: nat :: v < |cols| ==> Tentative(cols, constants, v) || Tieable(es, cols, constants, v))
  {
    hide Named, PicksOut, Tied, Ties, Tieable, Tentative, HasType, IsKind, TypeAgreed, Reinstantiates;
    var cs, varOf, tentative := NameColumns(es, constants);
    cols := cs;
    NamedCols(es, cs, varOf);
    var typed, types := FindTypes(es, cs);
    if !typed {
      return CannotLift, cols;
    }
    var bound, conds := TieAll(es, cs, constants, prefer);
    if !(types.Keys - bound <= tentative) {
      var v :| v in types.Keys - bound && v !in tentative;
      assert v in Below(|cs|) && v < |cols| && !(Tentative(cols, constants, v) || Tieable(es, cols, constants, v));
      return CannotLift, cols;
    }
    var kinds := Kinds(es);
    var kept := map v | v in types && v in bound :: types[v];
    assert kept.Keys == bound;
    r := Lifted(kept, kinds + conds, Subtasks(es, varOf, bound));
    forall v: nat | v < |cs|
      ensures Tentative(cs, constants, v) || Tieable(es, cs, constants, v)
    {
      assert v in bound || v in types.Keys - bound;
    }
    forall e | e in es
      ensures Reinstantiates(r, e)
    {
      var k :| 0 <= k < |es| && es[k] == e;
      Reinstantiated(es, k, cs, varOf, tentative, constants, bound, kinds, conds, r);
    }
  }

  lemma TiedAll(es: seq<Example>, cols: seq<Column>, constants: set<string>, conds: seq<Condition>, bound: set<nat>)
    requires OneCase(es) && ColsOk(cols, |es|) && Ties(es, conds, cols, {0}, bound)
    requires forall c <- conds :: c in Facing(es, cols, constants)
    requires 0 in bound && (forall v <- bound :: v < |cols|)
    requires (bound == Below(|cols|) || Closed(es, cols, constants, bound))
    ensures forall v: nat :: v < |cols| ==> (v in bound <==> Tieable(es, cols, constants, v))
  {
    hide Ties, Closed, Facing;
    forall v: nat | v < |cols| && Tieable(es, cols, constants, v)
      ensures v in bound
    {
      if bound != Below(|cols|) {
        var more, b :| Ties(es, more, cols, {0}, b) && v in b && forall c <- more :: c in Facing(es, cols, constants);
        ClosedTiesAll(es, more, cols, constants, b, bound);
      }
    }
  }

  lemma NamedCols(es: seq<Example>, cols: seq<Column>, varOf: Places)
    requires OneCase(es) && Named(es, cols, varOf)
    ensures ColsOk(cols, |es|) && cols != [] && cols[0] == About(es)
  {
  }

  lemma TiesStart(es: seq<Example>, cols: seq<Column>)
    requires ColsOk(cols, |es|)
    ensures Ties(es, [], cols, {0}, {0})
  {
  }

  lemma TiesMore(es: seq<Example>, conds: seq<Condition>, cols: seq<Column>, bound: set<nat>, c: Condition)
    requires ColsOk(cols, |es|) && Ties(es, conds, cols, {0}, bound) && Tied(es, c, cols, bound)
    ensures Ties(es, conds + [c], cols, {0}, bound + VarsOf(c))
  {
    var all := conds + [c];
    assert all[..|all| - 1] == conds && all[|all| - 1] == c;
    assert Ties(es, all[..|all| - 1], cols, {0}, bound);
  }

  lemma Reinstantiated(es: seq<Example>, k: nat, cols: seq<Column>, varOf: Places, tentative: set<nat>,
        constants: set<string>,
                       bound: set<nat>, kinds: seq<Condition>, conds: seq<Condition>, r: Lifted)
    requires OneCase(es) && k < |es| && Named(es, cols, varOf) && ColsOk(cols, |es|) && cols != []
    requires cols[0] == About(es)
    requires forall p: Place :: p in varOf <==> IsPlace(es, p)
    requires (forall v: nat :: v in tentative <==> Tentative(cols, constants, v)) && 0 in bound
    requires forall v: nat :: v < |cols| && v !in bound ==> v in tentative
    requires Ties(es, conds, cols, {0}, bound)
    requires forall c <- kinds :: c.args == [Var(0)] && V.Fact(c.pred, [es[k].about]) in es[k].facts
    requires r.Lifted? && r.types.Keys == bound && r.conditions == kinds + conds
    requires r.subtasks == Subtasks(es, varOf, bound)
    ensures Reinstantiates(r, es[k])
  {
    hide Ties;
    TiesBound(es, conds, cols, bound);
    var own := Own(cols, bound, k);
    OwnSolves(es, k, cols, bound, kinds, conds, own);
    forall b: Assignment | Solves(b, bound, kinds + conds, es[k])
      ensures b == own
    {
      OnlyOwn(es, k, cols, bound, kinds, conds, b);
    }
    SubtasksBack(es, k, cols, varOf, tentative, bound);
  }

  lemma {:induction false} TiesBound(es: seq<Example>, conds: seq<Condition>, cols: seq<Column>, bound: set<nat>)
    requires ColsOk(cols, |es|) && cols != [] && Ties(es, conds, cols, {0}, bound)
    ensures forall v <- bound :: v < |cols|
    decreases |conds|
  {
    if conds != [] {
      var c := conds[|conds| - 1];
      var before: set<nat> :| Ties(es, conds[..|conds| - 1], cols, {0}, before) && Tied(es, c, cols, before) && bound ==
          before + VarsOf(c);
    }
  }

  lemma OwnSolves(es: seq<Example>, k: nat, cols: seq<Column>, bound: set<nat>, kinds: seq<Condition>,
        conds: seq<Condition>, own: Assignment)
    requires ColsOk(cols, |es|) && cols != [] && cols[0] == About(es) && k < |es| && 0 in bound
    requires Ties(es, conds, cols, {0}, bound)
    requires (forall v <- bound :: v < |cols|) && own == Own(cols, bound, k)
    requires forall c <- kinds :: c.args == [Var(0)] && V.Fact(c.pred, [es[k].about]) in es[k].facts
    ensures Solves(own, bound, kinds + conds, es[k])
  {
    hide Ties;
    TiesMean(es, conds, cols, {0}, bound, k, own);
    var all := kinds + conds;
    forall i | 0 <= i < |all|
      ensures CondOk(all[i], bound) && CondHolds(all[i], es[k], own)
    {
      if i < |kinds| {
        assert all[i] == kinds[i] && kinds[i] in kinds;
        assert ApplyAll([Var(0)], own) == [es[k].about];
      } else {
        assert all[i] == conds[i - |kinds|];
      }
    }
  }

  lemma OnlyOwn(es: seq<Example>, k: nat, cols: seq<Column>, bound: set<nat>, kinds: seq<Condition>,
        conds: seq<Condition>, b: Assignment)
    requires ColsOk(cols, |es|) && cols != [] && cols[0] == About(es) && k < |es| && 0 in bound
    requires Ties(es, conds, cols, {0}, bound)
    requires (forall v <- bound :: v < |cols|) && Solves(b, bound, kinds + conds, es[k])
    ensures b == Own(cols, bound, k)
  {
    hide Ties;
    var all := kinds + conds;
    forall i | 0 <= i < |conds|
      ensures CondOk(conds[i], bound) && CondHolds(conds[i], es[k], b)
    {
      assert all[|kinds| + i] == conds[i];
    }
    TiesMean(es, conds, cols, {0}, bound, k, b);
  }

  lemma SubtasksBack(es: seq<Example>, k: nat, cols: seq<Column>, varOf: Places, tentative: set<nat>, bound: set<nat>)
    requires OneCase(es) && k < |es| && Named(es, cols, varOf) && ColsOk(cols, |es|)
    requires forall p: Place :: p in varOf <==> IsPlace(es, p)
    requires (forall v <- tentative :: 0 < v < |cols| && Same(cols[v]))
    requires forall v: nat :: v < |cols| && v !in bound ==> v in tentative
    requires forall v <- bound :: v < |cols|
    ensures SubtasksOk(Subtasks(es, varOf, bound), bound)
    ensures Instance(Subtasks(es, varOf, bound), Own(cols, bound, k)) == es[k].steps
  {
    var subtasks, own := Subtasks(es, varOf, bound), Own(cols, bound, k);
    assert SubtasksOk(subtasks, bound);
    assert SameSteps(es[0].steps, es[k].steps);
    forall i | 0 <= i < |subtasks|
      ensures ApplyAll(subtasks[i].1, own) == es[k].steps[i].1
    {
      forall j | 0 <= j < |subtasks[i].1|
        ensures Apply(subtasks[i].1[j], own) == es[k].steps[i].1[j]
      {
        PlaceBack(es, k, cols, varOf, tentative, bound, i, j);
      }
    }
  }

  lemma PlaceBack(es: seq<Example>, k: nat, cols: seq<Column>, varOf: Places, tentative: set<nat>, bound: set<nat>,
        i: nat, j: nat)
    requires OneCase(es) && k < |es| && Named(es, cols, varOf) && ColsOk(cols, |es|) && IsPlace(es, (i, j))
    requires (i, j) in varOf
    requires (forall v <- tentative :: 0 < v < |cols| && Same(cols[v]))
    requires forall v: nat :: v < |cols| && v !in bound ==> v in tentative
    requires forall v <- bound :: v < |cols|
    ensures |es[k].steps| == |es[0].steps| && |es[k].steps[i].1| == |es[0].steps[i].1|
    ensures TermOk(TermAt(es, varOf, bound, i, j), bound)
    ensures Apply(TermAt(es, varOf, bound, i, j), Own(cols, bound, k)) == es[k].steps[i].1[j]
  {
    assert SameSteps(es[0].steps, es[k].steps);
    var v := varOf[(i, j)];
    var c := At(es, i, j);
    assert cols[v] == c && c[k] == es[k].steps[i].1[j] && c[0] == es[0].steps[i].1[j];
    if v !in bound {
      assert v in tentative;
    }
  }
}
