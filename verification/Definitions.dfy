/** Domains as a file defines them (lib/typedefs.h, `ActionDef::apply`, `ActionDef::apply_binding` and
    `MethodDef::bindings`): actions change the predicates of their effects, and a method's bindings
    are answers to a query. Where no effect is on a predicate that a method's query reads, no action
    changes what bindings a method has. */
module Definitions {
  import opened Queries
  import opened Enumeration
  import opened Evaluator
  import opened Answers
  import opened Progression
  import opened Completeness
  import B = Basics
  import N = Networks

  // ----- What a query reads -----

  /** The predicates an expression mentions, the types of its quantified variables among them. */
  function Reads(e: Expr): set<string> {
    match e
    case Absent => {}
    case Atom(p, _) => {p}
    case Compare(_, _, _) => {}
    case Not(c) => Reads(c)
    case And(cs) => set i, p | 0 <= i < |cs| && p in Reads(cs[i]) :: p
    case Or(cs) => set i, p | 0 <= i < |cs| && p in Reads(cs[i]) :: p
    case Imply(x, y) => Reads(x) + Reads(y)
    case Quant(_, bound, body) => Reads(body) + TypeNames(TypeAtoms(bound))
  }

  function TypeNames(ts: seq<(string, nat)>): set<string> {
    set i | 0 <= i < |ts| :: ts[i].0
  }

  /** The same objects, and the same facts of these predicates, in the same order. */
  ghost predicate Agree(kb: Kb, kb': Kb, ps: set<string>) {
    && kb.ids == kb'.ids && kb.names == kb'.names
    && forall p <- ps :: (p in kb.rels <==> p in kb'.rels) && (p in kb.rels ==> kb.rels[p] == kb'.rels[p])
  }

  lemma FitsAgree(kb: Kb, kb': Kb, args: seq<Term>, val: Vals, t: seq<nat>)
    requires kb.ids == kb'.ids && ArgsOk(args, |val|)
    ensures Fits(kb, args, val, t) <==> Fits(kb', args, val, t)
  {
    if |t| == |args| {
      forall i | 0 <= i < |args|
        ensures FitsAt(kb, args, val, t, i) <==> FitsAt(kb', args, val, t, i)
      {
      }
    }
  }

  lemma {:induction false} MatchAgree(kb: Kb, kb': Kb, args: seq<Term>, val: Vals, ts: seq<seq<nat>>)
    requires kb.ids == kb'.ids && ArgsOk(args, |val|)
    ensures MatchLeaves(kb, args, val, ts) == MatchLeaves(kb', args, val, ts)
  {
    if ts != [] {
      FitsAgree(kb, kb', args, val, ts[0]);
      MatchAgree(kb, kb', args, val, ts[1..]);
    }
  }

  lemma AtomAgree(kb: Kb, kb': Kb, p: string, args: seq<Term>, val: Vals)
    requires Agree(kb, kb', {p}) && ArgsOk(args, |val|)
    ensures AtomLeaves(kb, p, args, val) == AtomLeaves(kb', p, args, val)
  {
    assert p in {p};
    if p in kb.rels {
      MatchAgree(kb, kb', args, val, kb.rels[p].tuples);
    }
  }

  lemma {:induction false} TypesAgree(kb: Kb, kb': Kb, ts: seq<(string, nat)>, i: nat, val: Vals)
    requires Agree(kb, kb', TypeNames(ts)) && i <= |ts| && TypeSlots(ts, |val|)
    ensures TypeLeaves(kb, ts, i, val) == TypeLeaves(kb', ts, i, val)
    decreases |ts| - i, 1, 0
  {
    hide AtomLeaves, Agree;
    if i < |ts| {
      assert ts[i].0 in TypeNames(ts);
      AgreeLess(kb, kb', TypeNames(ts), {ts[i].0});
      AtomAgree(kb, kb', ts[i].0, [Var(ts[i].1)], val);
      TypesOfAgree(kb, kb', ts, i + 1, |val|, AtomLeaves(kb, ts[i].0, [Var(ts[i].1)], val));
    }
  }

  lemma {:induction false} TypesOfAgree(kb: Kb, kb': Kb, ts: seq<(string, nat)>, i: nat, n: nat, vals: seq<Vals>)
    requires Agree(kb, kb', TypeNames(ts)) && i <= |ts| && TypeSlots(ts, n) && forall v <- vals :: |v| == n
    ensures TypeLeavesOf(kb, ts, i, n, vals) == TypeLeavesOf(kb', ts, i, n, vals)
    decreases |ts| - i, 2, |vals|
  {
    if vals != [] {
      TypesAgree(kb, kb', ts, i, vals[0]);
      TypesOfAgree(kb, kb', ts, i, n, vals[1..]);
    }
  }

  lemma AgreeLess(kb: Kb, kb': Kb, ps: set<string>, qs: set<string>)
    requires Agree(kb, kb', ps) && qs <= ps
    ensures Agree(kb, kb', qs)
  {
  }

  lemma ChildAgrees(kb: Kb, kb': Kb, e: Expr, i: nat)
    requires (e.And? || e.Or?) && i < |e.children| && Agree(kb, kb', Reads(e))
    ensures Agree(kb, kb', Reads(e.children[i]))
  {
    hide Agree;
    assert Reads(e.children[i]) <= Reads(e);
    AgreeLess(kb, kb', Reads(e), Reads(e.children[i]));
  }

  /** What is enumerated depends on the predicates read only. */
  lemma {:induction false} LeavesAgree(kb: Kb, kb': Kb, e: Expr, val: Vals)
    requires SlotsOk(e, |val|) && Agree(kb, kb', Reads(e))
    ensures Leaves(kb, e, val) == Leaves(kb', e, val)
    decreases e, 2, 0, 0
  {
    match e
    case Atom(p, args) => AtomAgree(kb, kb', p, args, val);
    case Not(c) => LeavesAgree(kb, kb', c, val);
    case And(_) => AndAgree(kb, kb', e, 0, val);
    case Or(_) => OrAgree(kb, kb', e, 0, val);
    case Quant(_, _, _) => QuantAgree(kb, kb', e, val);
    case _ =>
  }

  lemma {:induction false} QuantAgree(kb: Kb, kb': Kb, e: Expr, val: Vals)
    requires e.Quant? && SlotsOk(e, |val|) && Agree(kb, kb', Reads(e))
    ensures Leaves(kb, e, val) == Leaves(kb', e, val)
    decreases e, 1, 0, 0
  {
    hide Agree, TypeLeaves, TypeLeavesOf, Check;
    AgreeLess(kb, kb', Reads(e), Reads(e.body));
    AgreeLess(kb, kb', Reads(e), TypeNames(TypeAtoms(e.bound)));
    if Scoped(e, val) {
      BoundTypeSlots(e.bound, |val|);
      TypesAgree(kb, kb', TypeAtoms(e.bound), 0, val);
      if e.all {
        CheckAgree(kb, kb', e.body, |val|, TypeLeaves(kb, TypeAtoms(e.bound), 0, val));
      } else {
        LeavesAgree(kb, kb', e.body, val);
        TypesOfAgree(kb, kb', TypeAtoms(e.bound), 0, |val|, Leaves(kb, e.body, val).leaves);
      }
    }
  }

  lemma {:induction false} CheckAgree(kb: Kb, kb': Kb, body: Expr, n: nat, vals: seq<Vals>)
    requires SlotsOk(body, n) && Agree(kb, kb', Reads(body)) && forall v <- vals :: |v| == n
    ensures Check(kb, body, n, vals) == Check(kb', body, n, vals)
    decreases body, 3, 0, |vals|
  {
    if vals != [] {
      LeavesAgree(kb, kb', body, vals[0]);
      CheckAgree(kb, kb', body, n, vals[1..]);
    }
  }

  lemma {:induction false} AndAgree(kb: Kb, kb': Kb, e: Expr, pos: nat, val: Vals)
    requires e.And? && SlotsOk(e, |val|) && pos <= 2 * |e.children| && Agree(kb, kb', Reads(e))
    ensures AndLeaves(kb, e, pos, val) == AndLeaves(kb', e, pos, val)
    decreases e, 1, 2 * |e.children| - pos, 0
  {
    hide Agree, Reads, Leaves, AndLeavesOf;
    if pos < 2 * |e.children| {
      if Skipped(e.children, pos) {
        AndAgree(kb, kb', e, pos + 1, val);
      } else {
        ChildAgrees(kb, kb', e, if pos < |e.children| then pos else pos - |e.children|);
        LeavesAgree(kb, kb', ChildAt(e.children, pos), val);
        AndOfAgree(kb, kb', e, pos + 1, |val|, Leaves(kb, ChildAt(e.children, pos), val));
      }
    }
  }

  lemma {:induction false} AndOfAgree(kb: Kb, kb': Kb, e: Expr, pos: nat, n: nat, o: Out)
    requires e.And? && SlotsOk(e, n) && pos <= 2 * |e.children| && (forall l <- o.leaves :: |l| == n)
    requires Agree(kb, kb', Reads(e))
    ensures AndLeavesOf(kb, e, pos, n, o) == AndLeavesOf(kb', e, pos, n, o)
    decreases e, 1, 2 * |e.children| - pos, 1 + |o.leaves|
  {
    if o.leaves != [] {
      AndAgree(kb, kb', e, pos, o.leaves[0]);
      AndOfAgree(kb, kb', e, pos, n, Out(o.leaves[1..], o.abort));
    }
  }

  lemma {:induction false} OrAgree(kb: Kb, kb': Kb, e: Expr, pos: nat, val: Vals)
    requires e.Or? && SlotsOk(e, |val|) && pos <= |e.children| && Agree(kb, kb', Reads(e))
    ensures OrLeaves(kb, e, pos, val) == OrLeaves(kb', e, pos, val)
    decreases e, 1, |e.children| - pos, 0
  {
    hide Agree, Reads, Leaves;
    if pos < |e.children| {
      ChildAgrees(kb, kb', e, pos);
      LeavesAgree(kb, kb', e.children[pos], val);
      OrAgree(kb, kb', e, pos + 1, val);
    }
  }

  // ----- What a query answers -----

  function ParamTypes(params: seq<(string, string)>): set<string> {
    set i | 0 <= i < |params| :: params[i].1
  }

  lemma {:induction false} WidenedAgree(kb: Kb, kb': Kb, q: Params, i: nat, val: Vals)
    requires ParamsOk(q, |val|) && i <= |q.slots|
    requires forall j :: 0 <= j < |q.types| ==> Extension(kb, q.types[j]) == Extension(kb', q.types[j])
    ensures Widened(kb, q, i, val) == Widened(kb', q, i, val)
    decreases |q.slots| - i, 1, 0
  {
    if i < |q.slots| {
      if val[q.slots[i]] != Unbound {
        WidenedAgree(kb, kb', q, i + 1, val);
      } else {
        WidenedOverAgree(kb, kb', q, i, val, Extension(kb, q.types[i]));
      }
    }
  }

  lemma {:induction false} WidenedOverAgree(kb: Kb, kb': Kb, q: Params, i: nat, val: Vals, ext: seq<nat>)
    requires ParamsOk(q, |val|) && i < |q.slots|
    requires forall j :: 0 <= j < |q.types| ==> Extension(kb, q.types[j]) == Extension(kb', q.types[j])
    ensures WidenedOver(kb, q, i, val, ext) == WidenedOver(kb', q, i, val, ext)
    decreases |q.slots| - i, 0, |ext|
  {
    if ext != [] {
      WidenedAgree(kb, kb', q, i + 1, val[q.slots[i] := Obj(ext[0])]);
      WidenedOverAgree(kb, kb', q, i, val, ext[1..]);
    }
  }

  lemma {:induction false} AllWidenedAgree(kb: Kb, kb': Kb, q: Params, n: nat, ls: seq<Vals>)
    requires ParamsOk(q, n) && (forall l <- ls :: |l| == n)
    requires forall j :: 0 <= j < |q.types| ==> Extension(kb, q.types[j]) == Extension(kb', q.types[j])
    ensures AllWidened(kb, q, n, ls) == AllWidened(kb', q, n, ls)
  {
    if ls != [] {
      WidenedAgree(kb, kb', q, 0, ls[0]);
      AllWidenedAgree(kb, kb', q, n, ls[1..]);
    }
  }

  lemma {:induction false} PinnedAgree(kb: Kb, kb': Kb, ns: seq<string>, fixed: seq<(string, string)>, val: Vals)
    requires kb.ids == kb'.ids && |val| == |ns|
    ensures Pinned(kb, ns, fixed, val) == Pinned(kb', ns, fixed, val)
    decreases |fixed|
  {
    if fixed != [] {
      var slot := SlotOf(ns, fixed[0].0);
      PinnedAgree(kb, kb', ns, fixed[1..], if slot.Some? &&
          Pins(kb, fixed[0].0, fixed[0].1) then val[slot.value := Resolve(kb, fixed[0].1)] else val);
    }
  }

  /** The predicates a query reads. */
  function QueryReads(y: Query): set<string> {
    Reads(y.e) + ParamTypes(y.params)
  }

  lemma ResultsAgree(kb: Kb, kb': Kb, y: Query)
    requires QueryOk(y) && Agree(kb, kb', QueryReads(y))
    requires ParamsOk(Asked(y), |Begin(kb, y)|) && SlotsOk(y.e, |Begin(kb, y)|)
    ensures Begin(kb, y) == Begin(kb', y) && Leaves(kb, y.e, Begin(kb, y)) == Leaves(kb', y.e, Begin(kb, y))
    ensures Results(kb, Asked(y), y.e, Begin(kb, y)) == Results(kb', Asked(y), y.e, Begin(kb, y))
  {
    hide Leaves, SlotsOk, Widened, AllWidened, Pinned;
    var q, val := Asked(y), Begin(kb, y);
    PinnedAgree(kb, kb', SlotNames(y.names, y.params), y.fixed, Nothing(|SlotNames(y.names, y.params)|));
    AgreeLess(kb, kb', QueryReads(y), Reads(y.e));
    LeavesAgree(kb, kb', y.e, val);
    forall j | 0 <= j < |q.types|
      ensures Extension(kb, q.types[j]) == Extension(kb', q.types[j])
    {
      assert q.types[j] == y.params[j].1 && y.params[j].1 in ParamTypes(y.params);
    }
    AllWidenedAgree(kb, kb', q, |val|, Leaves(kb, y.e, val).leaves);
  }

  /** The solver asked where the evaluator declines. */
  type Solver = (Kb, Query) -> seq<seq<string>>

  /** What `ask` answers, as a value. Where it declines, another solver is asked, and answers from the
      same facts. */
  ghost function Answered(kb: Kb, y: Query, other: Solver): seq<seq<string>> {
    if !KbOk(kb) || !QueryOk(y) then []
    else
      QueryMeans(kb, y);
      ResultsProper(kb, y);
      var rows := Results(kb, Asked(y), y.e, Begin(kb, y));
      if Supported(y.e) && Refused(kb, SlotNames(y.names, y.params), y.fixed) then []
      else if !Supported(y.e) || Leaves(kb, y.e, Begin(kb, y)).abort then other(Narrowed(kb, QueryReads(y)), y)
      else NamedAll(kb, rows)
  }

  function NamedAll(kb: Kb, rows: seq<Vals>): seq<seq<string>>
    requires forall row <- rows :: ProperRow(kb, row)
  {
    seq(|rows|, i requires 0 <= i < |rows| => Named(kb, rows[i]))
  }

  lemma NamedAllAgree(kb: Kb, kb': Kb, rows: seq<Vals>)
    requires kb.ids == kb'.ids && kb.names == kb'.names && forall row <- rows :: ProperRow(kb, row)
    ensures (forall row <- rows :: ProperRow(kb', row)) && NamedAll(kb, rows) == NamedAll(kb', rows)
  {
    forall row | row in rows
      ensures ProperRow(kb', row) && Named(kb', row) == Named(kb, row)
    {
    }
  }

  function Narrowed(kb: Kb, ps: set<string>): Kb {
    kb.(rels := map p | p in kb.rels && p in ps :: kb.rels[p])
  }

  /** Whether `ask_any` says yes, or where it declines the other solver has an answer. */
  ghost predicate AnyAnswered(kb: Kb, y: Query, other: Solver) {
    KbOk(kb) && QueryOk(y) &&
    (QueryMeans(kb, y);
     if Supported(y.e) && Refused(kb, SlotNames(y.names, y.params), y.fixed) then false
     else if Supported(y.e) && Results(kb, Asked(y), y.e, Begin(kb, y)) != [] then true
     else if !Supported(y.e) || Leaves(kb, y.e, Begin(kb, y)).abort then other(Narrowed(kb, QueryReads(y)), y) != []
     else false)
  }

  lemma AnyAnsweredIsReplied(kb: Kb, y: Query, other: Solver, r: B.Option<bool>)
    requires KbOk(kb) && QueryOk(y) && RepliedAny(kb, y, r) && r.Some?
    ensures AnyAnswered(kb, y, other) == r.value
  {
    hide Leaves, SlotsOk, Results, Asked, Begin, KbOk, Typed;
  }

  lemma AnsweredIsReplied(kb: Kb, y: Query, other: Solver, r: Reply)
    requires KbOk(kb) && QueryOk(y) && Replied(kb, y, r) && r.Rows?
    ensures Answered(kb, y, other) == r.rows
  {
    hide Leaves, SlotsOk, Results, Asked, Begin, KbOk, Typed;
  }

  /** Fact bases that agree on what a query reads answer it alike. */
  lemma AnsweredAgree(kb: Kb, kb': Kb, y: Query, other: Solver)
    requires KbOk(kb) && KbOk(kb') && Agree(kb, kb', QueryReads(y))
    ensures Answered(kb, y, other) == Answered(kb', y, other)
  {
    hide Leaves, SlotsOk, Results, Asked, Begin, KbOk, Typed, NamedAll, ProperRow, Narrowed, ParamsOk, DistinctSlots,
         Agree, QueryReads;
    if QueryOk(y) {
      QueryMeans(kb, y);
      ResultsProper(kb, y);
      AgreeIds(kb, kb', QueryReads(y));
      ResultsAgree(kb, kb', y);
      NamedAllAgree(kb, kb', Results(kb, Asked(y), y.e, Begin(kb, y)));
      NarrowedAgree(kb, kb', QueryReads(y));
    }
  }

  lemma AgreeIds(kb: Kb, kb': Kb, ps: set<string>)
    requires Agree(kb, kb', ps)
    ensures kb.ids == kb'.ids && kb.names == kb'.names
  {
  }

  lemma NarrowedAgree(kb: Kb, kb': Kb, ps: set<string>)
    requires Agree(kb, kb', ps)
    ensures Narrowed(kb, ps) == Narrowed(kb', ps)
  {
    assert Narrowed(kb, ps).rels == Narrowed(kb', ps).rels;
  }

  // ----- Definitions -----

  type Binding = N.Binding

  /** An expression with its variables' names by slot. */
  datatype Sentence = Sentence(e: Expr, names: seq<string>)

  /** An effect: an atom of parameters and constants, told or taken back, if the condition holds, and
      for every value of the quantified variables if there are any. */
  datatype Effect = Effect(head: string, args: seq<(string, bool)>, remove: bool, range: seq<(string, seq<string>)>,
                           condition: B.Option<Sentence>)

  datatype ActionDef = ActionDef(params: seq<(string, string)>, artificial: bool, pre: Sentence, effects: seq<Effect>)

  /** A method: the parameters of its task, each with whether it is a constant there, and its query. */
  datatype MethodDef = MethodDef(name: string, task: seq<(string, bool)>, e: Expr, names: seq<string>,
                                 params: seq<(string, string)>, body: N.Body)

  function IdsOf(kb: Kb, args: seq<string>): seq<nat>
    requires forall a <- args :: a in kb.ids
  {
    seq(|args|, i requires 0 <= i < |args| => assert args[i] in args; kb.ids[args[i]])
  }

  /** A fact told or taken back; nothing changes when a name is unknown or there are too many. */
  function Told(kb: Kb, head: string, args: seq<string>, remove: bool): Kb {
    if head !in kb.rels || kb.rels[head].arity != |args| || exists a <- args :: a !in kb.ids then kb
    else
      var t := IdsOf(kb, args);
      kb.(rels := kb.rels[head := Rel(|args|, Changed(kb.rels[head].tuples, t, remove))])
  }

  function Changed(ts: seq<seq<nat>>, t: seq<nat>, remove: bool): seq<seq<nat>> {
    if ts == [] then (if remove then [] else [t])
    else if ts[0] == t then (if remove then ts[1..] else ts)
    else [ts[0]] + Changed(ts[1..], t, remove)
  }

  /** An effect atom's arguments: each variable's value from the first binding that has it, and a
      constant, or a name without a value, as itself. */
  function FactOf(args: seq<(string, bool)>, first: Binding, second: Binding): seq<string> {
    seq(|args|, i requires 0 <= i < |args| => ArgOf(args[i], first, second))
  }

  function ArgOf(arg: (string, bool), first: Binding, second: Binding): string {
    var v, w := N.BoundValue(arg.0, first), N.BoundValue(arg.0, second);
    if arg.1 then arg.0 else if v.Some? then v.value else if w.Some? then w.value else arg.0
  }

  /** Does a condition hold, the parameters given these values? */
  ghost predicate Passes(kb: Kb, condition: B.Option<Sentence>, params: seq<(string, string)>, fixed: Binding,
      other: Solver) {
    condition.Some? ==> Answered(kb, Query(condition.value.e, condition.value.names, params, fixed), other) != []
  }

  const OBJECT := "__Object__"

  function RangeParams(range: seq<(string, seq<string>)>): seq<(string, string)> {
    seq(|range|, i requires 0 <= i < |range| => (range[i].0, OBJECT))
  }

  function RangeNames(range: seq<(string, seq<string>)>): seq<string> {
    seq(|range|, i requires 0 <= i < |range| => range[i].0)
  }

  function AtomsOf(types: seq<string>, slot: nat): seq<Expr> {
    seq(|types|, i requires 0 <= i < |types| => Atom(types[i], [Var(slot)]))
  }

  function RangeAtoms(range: seq<(string, seq<string>)>, i: nat): seq<Expr>
    requires i <= |range|
    decreases |range| - i
  {
    if i == |range| then [] else AtomsOf(range[i].1, i) + RangeAtoms(range, i + 1)
  }

  /** The values of the quantified variables: objects of their types. */
  ghost function RangeOf(kb: Kb, range: seq<(string, seq<string>)>, other: Solver): seq<seq<string>> {
    Answered(kb, RangeQuery(range), other)
  }

  function RangeQuery(range: seq<(string, seq<string>)>): Query {
    var atoms := RangeAtoms(range, 0);
    Query(if atoms == [] then Absent else And(atoms), RangeNames(range), RangeParams(range), [])
  }

  /** What a quantified variable shadows taken out. */
  function Unshadowed(b: seq<(string, string)>, names: seq<string>): seq<(string, string)> {
    if b == [] then [] else (if b[0].0 in names then [] else [b[0]]) + Unshadowed(b[1..], names)
  }

  lemma {:induction false} UnshadowedMeans(b: seq<(string, string)>, names: seq<string>, x: (string, string))
    ensures x in Unshadowed(b, names) <==> x in b && x.0 !in names
  {
    if b != [] {
      UnshadowedMeans(b[1..], names, x);
      assert b == [b[0]] + b[1..];
    }
  }

  /** `ActionDef::apply_binding`, one effect. */
  ghost function Applied(kb: Kb, x: Effect, params: seq<(string, string)>, b: Binding, other: Solver): Kb {
    if x.range != [] then AppliedOver(kb, x, params, b, RangeOf(kb, x.range, other), other)
    else if Passes(kb, x.condition, params, Renamed(params, b), other) then Told(kb, x.head, FactOf(x.args, b, []),
        x.remove)
    else kb
  }

  /** One fact for each value of the quantified variables, the condition asked of the state so far. */
  ghost function AppliedOver(kb: Kb, x: Effect, params: seq<(string, string)>, b: Binding, rows: seq<seq<string>>,
      other: Solver): Kb
    decreases |rows|
  {
    if rows == [] then kb
    else
      var names := RangeNames(x.range);
      var own := Zipped(RangeParams(x.range), rows[0]);
      var all := Unshadowed(b, names) + own;
      var passes := Passes(kb, x.condition, Unshadowed(params, names) + RangeParams(x.range), all, other);
      var second := if x.condition.Some? then all else b;
      AppliedOver(if passes then Told(kb, x.head, FactOf(x.args, own, second), x.remove)
          else kb, x, params, b, rows[1..], other)
  }

  /** The binding's values under the parameters' names, in their order. */
  function Renamed(params: seq<(string, string)>, b: Binding): Binding {
    seq(|b|, i requires 0 <= i < |b| => (if i < |params| then params[i].0 else b[i].0, b[i].1))
  }

  /** The effects in order, each seeing what the earlier ones did. */
  ghost function Effected(kb: Kb, effects: seq<Effect>, params: seq<(string, string)>, b: Binding, other: Solver): Kb
    decreases |effects|
  {
    if effects == [] then kb else Effected(Applied(kb, effects[0], params, b, other), effects[1..], params, b, other)
  }

  function HeadsOf(effects: seq<Effect>): set<string> {
    set i | 0 <= i < |effects| :: effects[i].head
  }

  /** Only facts of these predicates changed. */
  ghost predicate Beyond(kb: Kb, kb': Kb, heads: set<string>) {
    && kb.ids == kb'.ids && kb.names == kb'.names && kb.rels.Keys == kb'.rels.Keys
    && (forall p <- kb.rels :: p !in heads ==> kb.rels[p] == kb'.rels[p])
    && (KbOk(kb) ==> KbOk(kb'))
  }

  lemma {:induction false} ChangedOk(kb: Kb, ts: seq<seq<nat>>, t: seq<nat>, remove: bool, arity: nat)
    requires TupleOk(kb, arity, t) && forall x <- ts :: TupleOk(kb, arity, x)
    ensures forall x <- Changed(ts, t, remove) :: TupleOk(kb, arity, x)
  {
    if ts != [] {
      ChangedOk(kb, ts[1..], t, remove, arity);
    }
  }

  lemma ToldBeyond(kb: Kb, head: string, args: seq<string>, remove: bool)
    ensures Beyond(kb, Told(kb, head, args, remove), {head})
  {
    if head in kb.rels && kb.rels[head].arity == |args| && (forall a <- args :: a in kb.ids) && KbOk(kb) {
      var t := IdsOf(kb, args);
      ChangedOk(kb, kb.rels[head].tuples, t, remove, |args|);
    }
  }

  lemma BeyondTrans(a: Kb, b: Kb, c: Kb, heads: set<string>, more: set<string>)
    requires Beyond(a, b, heads) && Beyond(b, c, more)
    ensures Beyond(a, c, heads + more)
  {
    hide KbOk;
  }

  lemma BeyondSelf(kb: Kb, heads: set<string>)
    ensures Beyond(kb, kb, heads)
  {
  }

  lemma {:induction false} AppliedOverBeyond(kb: Kb, x: Effect, params: seq<(string, string)>, b: Binding,
      rows: seq<seq<string>>, other: Solver)
    ensures Beyond(kb, AppliedOver(kb, x, params, b, rows, other), {x.head})
    decreases |rows|
  {
    hide Told, KbOk, Answered, Passes, FactOf, Beyond;
    BeyondSelf(kb, {x.head});
    if rows != [] {
      var names := RangeNames(x.range);
      var own := Zipped(RangeParams(x.range), rows[0]);
      var all := Unshadowed(b, names) + own;
      var second := if x.condition.Some? then all else b;
      var passes := Passes(kb, x.condition, Unshadowed(params, names) + RangeParams(x.range), all, other);
      var fact := FactOf(x.args, own, second);
      var next := if passes then Told(kb, x.head, fact, x.remove) else kb;
      ToldBeyond(kb, x.head, fact, x.remove);
      AppliedOverBeyond(next, x, params, b, rows[1..], other);
      BeyondTrans(kb, next, AppliedOver(next, x, params, b, rows[1..], other), {x.head}, {x.head});
      assert {x.head} + {x.head} == {x.head};
    }
  }

  lemma AppliedBeyond(kb: Kb, x: Effect, params: seq<(string, string)>, b: Binding, other: Solver)
    ensures Beyond(kb, Applied(kb, x, params, b, other), {x.head})
  {
    hide Told, KbOk, Answered, Passes, FactOf, Beyond, AppliedOver;
    BeyondSelf(kb, {x.head});
    AppliedOverBeyond(kb, x, params, b, RangeOf(kb, x.range, other), other);
    ToldBeyond(kb, x.head, FactOf(x.args, b, []), x.remove);
  }

  /** An action changes facts of its effects' predicates only. */
  lemma {:induction false} EffectedBeyond(kb: Kb, effects: seq<Effect>, params: seq<(string, string)>, b: Binding,
      other: Solver)
    ensures Beyond(kb, Effected(kb, effects, params, b, other), HeadsOf(effects))
    decreases |effects|
  {
    hide Applied, KbOk, Beyond;
    BeyondSelf(kb, HeadsOf(effects));
    if effects != [] {
      var next := Applied(kb, effects[0], params, b, other);
      AppliedBeyond(kb, effects[0], params, b, other);
      EffectedBeyond(next, effects[1..], params, b, other);
      BeyondTrans(kb, next, Effected(next, effects[1..], params, b, other), {effects[0].head}, HeadsOf(effects[1..]));
      assert {effects[0].head} + HeadsOf(effects[1..]) == HeadsOf(effects);
    }
  }

  // ----- What effects do to facts -----

  lemma {:induction false} ChangedMeans(ts: seq<seq<nat>>, t: seq<nat>, remove: bool)
    requires B.Distinct(ts)
    ensures forall x :: x in Changed(ts, t, remove) <==> if x == t then !remove else x in ts
    ensures B.Distinct(Changed(ts, t, remove))
    decreases |ts|
  {
    if ts != [] {
      assert ts == [ts[0]] + ts[1..] && ts[0] !in ts[1..];
      if ts[0] != t {
        ChangedMeans(ts[1..], t, remove);
        var r := Changed(ts[1..], t, remove);
        assert ts[0] !in r;
      }
    }
  }

  /** The objects of these names. */
  ghost function ObjectsOf(kb: Kb, args: seq<string>): Vals
    requires forall i :: 0 <= i < |args| ==> args[i] in kb.ids
  {
    seq(|args|, i requires 0 <= i < |args| => Obj(kb.ids[args[i]]))
  }

  /** A fact of known names, of a predicate with that many arguments. */
  ghost predicate Tellable(kb: Kb, head: string, args: seq<string>) {
    && head in kb.rels && kb.rels[head].arity == |args| && B.Distinct(kb.rels[head].tuples)
    && forall i :: 0 <= i < |args| ==> args[i] in kb.ids
  }

  /** A fact told holds, and one taken back does not; all others are as they were. */
  lemma ToldMeans(kb: Kb, head: string, args: seq<string>, remove: bool, p: string, vs: Vals)
    requires KbOk(kb) && Tellable(kb, head, args) && p in kb.rels && |vs| == kb.rels[p].arity
    ensures Fact(Told(kb, head, args, remove), p, vs) <==>
            if p == head && vs == ObjectsOf(kb, args) then !remove else Fact(kb, p, vs)
    ensures Told(kb, head, args, remove).ids == kb.ids && Told(kb, head, args, remove).rels.Keys == kb.rels.Keys
    ensures forall g <- kb.rels :: Told(kb, head, args, remove).rels[g].arity == kb.rels[g].arity
    ensures forall g <- kb.rels ::
      B.Distinct(kb.rels[g].tuples) ==> B.Distinct(Told(kb, head, args, remove).rels[g].tuples)
  {
    assert forall a <- args :: a in kb.ids;
    var t := IdsOf(kb, args);
    var ts := kb.rels[head].tuples;
    ChangedMeans(ts, t, remove);
    if p == head {
      forall x | x in ts || x == t
        ensures |x| == |vs| && (Names(vs, x) ==> (vs == ObjectsOf(kb, args) <==> x == t))
      {
        assert x in ts ==> TupleOk(kb, kb.rels[head].arity, x);
      }
      assert vs == ObjectsOf(kb, args) ==> Names(vs, t);
      if vs == [] {
        assert forall x <- ts :: x == t;
        assert ts != [] ==> ts[0] in ts;
        var us := Changed(ts, t, remove);
        assert us != [] ==> us[0] in us;
      }
    }
  }

  /** An effect without condition or quantified variables, of a fact that can be told. */
  ghost predicate PlainEffect(kb: Kb, x: Effect, b: Binding) {
    x.range == [] && x.condition.None? && Tellable(kb, x.head, FactOf(x.args, b, []))
  }

  ghost predicate Says(kb: Kb, x: Effect, b: Binding, p: string, vs: Vals)
    requires PlainEffect(kb, x, b)
  {
    p == x.head && vs == ObjectsOf(kb, FactOf(x.args, b, []))
  }

  /** The effects after this one say nothing of the fact. */
  ghost predicate LastToSay(kb: Kb, effects: seq<Effect>, i: nat, b: Binding, p: string, vs: Vals)
    requires i < |effects| && forall j :: 0 <= j < |effects| ==> PlainEffect(kb, effects[j], b)
  {
    Says(kb, effects[i], b, p, vs) && forall j :: i < j < |effects| ==> !Says(kb, effects[j], b, p, vs)
  }

  /** Effects without conditions: what the last one to speak of a fact says is how it ends, and a fact none
      speaks of stays as it was. */
  lemma {:induction false} EffectsMean(kb: Kb, effects: seq<Effect>, params: seq<(string, string)>, b: Binding,
        other: Solver,
                                       p: string, vs: Vals)
    requires KbOk(kb) && p in kb.rels && |vs| == kb.rels[p].arity
    requires forall i :: 0 <= i < |effects| ==> PlainEffect(kb, effects[i], b)
    ensures forall i :: 0 <= i < |effects| && LastToSay(kb, effects, i, b, p, vs) ==>
      (Fact(Effected(kb, effects, params, b, other), p, vs) <==> !effects[i].remove)
    ensures (forall i :: 0 <= i < |effects| ==> !Says(kb, effects[i], b, p, vs)) ==>
      (Fact(Effected(kb, effects, params, b, other), p, vs) <==> Fact(kb, p, vs))
    decreases |effects|
  {
    hide Told, Fact, FactOf, Answered;
    if effects != [] {
      var x, rest := effects[0], effects[1..];
      var next := Told(kb, x.head, FactOf(x.args, b, []), x.remove);
      assert Applied(kb, x, params, b, other) == next;
      ToldMeans(kb, x.head, FactOf(x.args, b, []), x.remove, p, vs);
      ToldBeyond(kb, x.head, FactOf(x.args, b, []), x.remove);
      forall i | 0 <= i < |rest|
        ensures PlainEffect(next, rest[i], b) && rest[i] == effects[i + 1]
        ensures Says(next, rest[i], b, p, vs) <==> Says(kb, effects[i + 1], b, p, vs)
      {
        assert PlainEffect(kb, effects[i + 1], b);
      }
      EffectsMean(next, rest, params, b, other, p, vs);
      forall i | 0 <= i < |effects| && LastToSay(kb, effects, i, b, p, vs)
        ensures i > 0 ==> LastToSay(next, rest, i - 1, b, p, vs)
        ensures i == 0 ==> forall j :: 0 <= j < |rest| ==> !Says(next, rest[j], b, p, vs)
      {
        if i == 0 {
          forall j | 0 <= j < |rest| ensures !Says(next, rest[j], b, p, vs) {
            assert !Says(kb, effects[j + 1], b, p, vs);
          }
        } else {
          assert Says(next, rest[i - 1], b, p, vs);
          forall j | i - 1 < j < |rest| ensures !Says(next, rest[j], b, p, vs) {
            assert !Says(kb, effects[j + 1], b, p, vs);
          }
        }
      }
    }
  }

  /** The fact an effect over quantified variables tells for one of their values. */
  function FactFor(x: Effect, b: Binding, row: seq<string>): seq<string> {
    FactOf(x.args, Zipped(RangeParams(x.range), row), b)
  }

  ghost predicate SaysFor(kb: Kb, x: Effect, b: Binding, row: seq<string>, p: string, vs: Vals)
    requires Tellable(kb, x.head, FactFor(x, b, row))
  {
    p == x.head && vs == ObjectsOf(kb, FactFor(x, b, row))
  }

  /** An effect over quantified variables tells its fact for each of their values, and changes no other. */
  lemma {:induction false} AppliedOverMeans(kb: Kb, x: Effect, params: seq<(string, string)>, b: Binding,
      rows: seq<seq<string>>, other: Solver, p: string, vs: Vals)
    requires KbOk(kb) && p in kb.rels && |vs| == kb.rels[p].arity && x.condition.None?
    requires forall row <- rows :: Tellable(kb, x.head, FactFor(x, b, row))
    ensures Fact(AppliedOver(kb, x, params, b, rows, other), p, vs) <==>
            if exists row :: row in rows && SaysFor(kb, x, b, row, p, vs) then !x.remove else Fact(kb, p, vs)
    decreases |rows|
  {
    hide Told, Fact, FactOf, Answered;
    if rows != [] {
      var fact, rest := FactFor(x, b, rows[0]), rows[1..];
      var next := Told(kb, x.head, fact, x.remove);
      assert rows[0] in rows && forall row <- rest :: row in rows;
      assert forall row <- rows :: row == rows[0] || row in rest;
      ToldMeans(kb, x.head, fact, x.remove, p, vs);
      ToldBeyond(kb, x.head, fact, x.remove);
      forall row | row in rest
        ensures Tellable(next, x.head, FactFor(x, b, row))
        ensures SaysFor(next, x, b, row, p, vs) <==> SaysFor(kb, x, b, row, p, vs)
      {
        assert Tellable(kb, x.head, FactFor(x, b, row));
      }
      assert AppliedOver(kb, x, params, b, rows, other) == AppliedOver(next, x, params, b, rest, other);
      AppliedOverMeans(next, x, params, b, rest, other, p, vs);
    }
  }

  /** An effect's arguments: a constant is itself, and a variable what the binding gives it. */
  lemma FactSubstituted(args: seq<(string, bool)>, b: Binding, i: nat)
    requires i < |args|
    ensures |FactOf(args, b, [])| == |args|
    ensures if args[i].1 then FactOf(args, b, [])[i] == args[i].0
        else N.Substituted(args[i].0, b, FactOf(args, b, [])[i])
  {
    N.ValueSubstituted(args[i].0, b);
    assert N.BoundValue(args[i].0, []) == B.None;
  }

  // ----- The domain defined -----

  /** A constant of the task is a condition on the argument. */
  predicate Applies(m: MethodDef, args: N.Args) {
    |args| <= |m.task| && forall k :: 0 <= k < |args| && m.task[k].1 ==> args[k] == m.task[k].0
  }

  /** The task's arguments as what the caller pins. */
  function Fixed(task: seq<(string, bool)>, args: N.Args): seq<(string, string)>
    requires |args| <= |task|
  {
    if args == [] then []
    else (if task[0].1 then [] else [(task[0].0, args[0])]) + Fixed(task[1..], args[1..])
  }

  function Zipped(params: seq<(string, string)>, row: seq<string>): Binding {
    seq(|params|, i requires 0 <= i < |params| => (params[i].0, if i < |row| then row[i] else ""))
  }

  /** `MethodDef::bindings`. */
  ghost function BindingsOf(m: MethodDef, other: Solver, kb: Kb, args: N.Args): seq<Binding> {
    if !Applies(m, args) then []
    else
      var rows := Answered(kb, Query(m.e, m.names, m.params, Fixed(m.task, args)), other);
      seq(|rows|, i requires 0 <= i < |rows| => Zipped(m.params, rows[i]))
  }

  /** `ActionDef::apply`: one successor a binding. */
  ghost function Successors(a: ActionDef, kb: Kb, args: N.Args, other: Solver): seq<Kb> {
    if !KbOk(kb) then []
    else
      var rows := Answered(kb, CalledWith(a, args), other);
      seq(|rows|, i requires 0 <= i < |rows| => Effected(kb, a.effects, a.params, Zipped(a.params, rows[i]), other))
  }

  /** The precondition's query, the arguments pinned in their order. */
  function CalledWith(a: ActionDef, args: N.Args): Query {
    Query(a.pre.e, a.pre.names, a.params, PinnedArgs(a.params, args))
  }

  function PinnedArgs(params: seq<(string, string)>, args: N.Args): seq<(string, string)> {
    if params == [] || args == [] then [] else [(params[0].0, args[0])] + PinnedArgs(params[1..], args[1..])
  }

  /** `ActionDef::holds`: whether the precondition has any answer. */
  ghost predicate HoldsOf(a: ActionDef, kb: Kb, args: N.Args, other: Solver) {
    AnyAnswered(kb, CalledWith(a, args), other)
  }

  ghost function ActionOf(a: ActionDef, other: Solver): Action<Kb> {
    Action(|a.params|, a.artificial, (kb: Kb, args: N.Args) => HoldsOf(a, kb, args, other),
           (kb: Kb, args: N.Args) => Successors(a, kb, args, other))
  }

  ghost function MethodOf(m: MethodDef, other: Solver): Method<Kb> {
    Method(m.name, |m.task|, m.body, (kb: Kb, args: N.Args) => BindingsOf(m, other, kb, args))
  }

  ghost function MethodsOf(ms: seq<MethodDef>, other: Solver): seq<Method<Kb>> {
    seq(|ms|, i requires 0 <= i < |ms| => MethodOf(ms[i], other))
  }

  ghost function DomainOf(actions: map<string, ActionDef>, methods: map<string, seq<MethodDef>>, mode: N.Mode,
                          score: (Kb, seq<Step>) -> real, other: Solver): Domain<Kb> {
    Domain(map h | h in actions :: ActionOf(actions[h], other), map h | h in methods ::
        MethodsOf(methods[h], other), mode, score)
  }

  function MethodReads(m: MethodDef): set<string> {
    Reads(m.e) + ParamTypes(m.params)
  }

  /** No action has an effect on a predicate that a method's query reads: with preconditions taken out
      of methods, those are the type predicates. */
  ghost predicate Separate(actions: map<string, ActionDef>, methods: map<string, seq<MethodDef>>) {
    forall g <- actions, h <- methods, m: MethodDef :: m in methods[h] ==> HeadsOf(actions[g].effects) !! MethodReads(m)
  }

  lemma SuccessorAgrees(a: ActionDef, kb: Kb, args: N.Args, to: Kb, ps: set<string>, other: Solver)
    requires to in Successors(a, kb, args, other) && HeadsOf(a.effects) !! ps
    ensures KbOk(kb) && KbOk(to) && Agree(kb, to, ps)
  {
    hide KbOk, Effected, Answered;
    var rows := Answered(kb, CalledWith(a, args), other);
    var i :| 0 <= i < |rows| && to == Effected(kb, a.effects, a.params, Zipped(a.params, rows[i]), other);
    EffectedBeyond(kb, a.effects, a.params, Zipped(a.params, rows[i]), other);
  }

  /** So no action changes any method's bindings: what the search relies on, by how the domain is
      written. */
  lemma DefinedStable(actions: map<string, ActionDef>, methods: map<string, seq<MethodDef>>, mode: N.Mode,
                      score: (Kb, seq<Step>) -> real, other: Solver)
    requires Separate(actions, methods)
    ensures StableBindings(DomainOf(actions, methods, mode, score, other))
  {
    hide BindingsOf, Successors, Answered, Agree, KbOk;
    var d := DomainOf(actions, methods, mode, score, other);
    forall p: Point<Kb>, t, to | CanAct(d, p, t, to)
      ensures SameBindings(d, p.state, to)
    {
      var task := p.net.tasks[t];
      assert to == p.state || to in Successors(actions[task.head], p.state, task.args, other);
      StepKeeps(actions, methods, mode, score, other, task.head, p.state, task.args, to);
    }
  }

  lemma StepKeeps(actions: map<string, ActionDef>, methods: map<string, seq<MethodDef>>, mode: N.Mode,
                  score: (Kb, seq<Step>) -> real, other: Solver, g: string, kb: Kb, args: N.Args, to: Kb)
    requires Separate(actions, methods) && g in actions
    requires to == kb || to in Successors(actions[g], kb, args, other)
    ensures SameBindings(DomainOf(actions, methods, mode, score, other), kb, to)
  {
    hide BindingsOf, Successors, Answered, Agree, KbOk;
    if to != kb {
      MethodsAgree(actions, methods, g, kb, args, to, other);
    }
    var d := DomainOf(actions, methods, mode, score, other);
    forall h, mi: nat, xs | h in d.methods && mi < |d.methods[h]|
      ensures d.methods[h][mi].bindings(kb, xs) == d.methods[h][mi].bindings(to, xs)
    {
      assert d.methods[h][mi] == MethodOf(methods[h][mi], other);
    }
  }

  lemma MethodsAgree(actions: map<string, ActionDef>, methods: map<string, seq<MethodDef>>, g: string, kb: Kb,
                     args: N.Args, to: Kb, other: Solver)
    requires Separate(actions, methods) && g in actions && to in Successors(actions[g], kb, args, other)
    ensures forall h <- methods, mi: nat, xs :: mi < |methods[h]| ==>
      BindingsOf(methods[h][mi], other, kb, xs) == BindingsOf(methods[h][mi], other, to, xs)
  {
    hide Answered, Successors;
    forall h, mi: nat, xs | h in methods && mi < |methods[h]|
      ensures BindingsOf(methods[h][mi], other, kb, xs) == BindingsOf(methods[h][mi], other, to, xs)
    {
      var m := methods[h][mi];
      SuccessorAgrees(actions[g], kb, args, to, MethodReads(m), other);
      if Applies(m, xs) {
        AnsweredAgree(kb, to, Query(m.e, m.names, m.params, Fixed(m.task, xs)), other);
      }
    }
  }
}
