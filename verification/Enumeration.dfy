/** What the direct evaluator enumerates (lib/evaluator.h), as a value: the bindings a search reaches,
    in order, and whether it then gives up. Taken together the bindings cover exactly the assignments
    that satisfy the expression. */
module Enumeration {
  import opened Queries

  /** The bindings reached, each extending the one the search started from; `abort` when the search
      gave up after the last of them. */
  datatype Out = Out(leaves: seq<Vals>, abort: bool)

  // ----- Partial and total assignments -----

  /** `a` gives every slot a value, and agrees with `l` where `l` has one. */
  ghost predicate Ext(a: Vals, l: Vals) {
    |a| == |l| && forall s :: 0 <= s < |a| ==> a[s] != Unbound && (l[s] != Unbound ==> a[s] == l[s])
  }

  ghost predicate Grows(l: Vals, val: Vals) {
    |l| == |val| && forall s :: 0 <= s < |l| && val[s] != Unbound ==> l[s] == val[s]
  }

  lemma ExtGrows(a: Vals, l: Vals, val: Vals)
    requires Ext(a, l) && Grows(l, val)
    ensures Ext(a, val)
  {
  }

  /** Some total assignment. */
  function Fill(l: Vals): (a: Vals)
    ensures Ext(a, l)
  {
    seq(|l|, s requires 0 <= s < |l| => if l[s] == Unbound then Text("") else l[s])
  }

  // ----- Is everything bound? -----

  predicate TermBound(t: Term, val: Vals) {
    t.Var? ==> t.slot < |val| && val[t.slot] != Unbound
  }

  predicate BoundBut(e: Expr, val: Vals, own: set<nat>) {
    match e
    case Absent => true
    case Atom(_, args) => forall i :: 0 <= i < |args| ==>
        TermBound(args[i], val) || (args[i].Var? && args[i].slot in own)
    case Compare(_, l, r) => (TermBound(l, val) || (l.Var? && l.slot in own)) &&
        (TermBound(r, val) || (r.Var? && r.slot in own))
    case Not(c) => BoundBut(c, val, own)
    case And(cs) => forall i :: 0 <= i < |cs| ==> BoundBut(cs[i], val, own)
    case Or(cs) => forall i :: 0 <= i < |cs| ==> BoundBut(cs[i], val, own)
    case Imply(x, y) => BoundBut(x, val, own) && BoundBut(y, val, own)
    case Quant(_, _, body) => BoundBut(body, val, own)
  }

  /** A quantifier's own variables do not count. */
  predicate Ground(e: Expr, val: Vals) {
    match e
    case Absent => true
    case Atom(_, args) => forall i :: 0 <= i < |args| ==> TermBound(args[i], val)
    case Compare(_, l, r) => TermBound(l, val) && TermBound(r, val)
    case Not(c) => Ground(c, val)
    case And(cs) => forall i :: 0 <= i < |cs| ==> Ground(cs[i], val)
    case Or(cs) => forall i :: 0 <= i < |cs| ==> Ground(cs[i], val)
    case Imply(x, y) => Ground(x, val) && Ground(y, val)
    case Quant(_, bound, body) => BoundBut(body, val, Own(bound))
  }

  ghost predicate AllBound(vars: set<nat>, val: Vals) {
    forall s <- vars :: s < |val| && val[s] != Unbound
  }

  lemma AllBoundChildren(cs: seq<Expr>, val: Vals, own: set<nat>)
    ensures AllVars(And(cs)) == AllVars(Or(cs))
    ensures AllBound(AllVars(And(cs)) - own, val) <==> forall i :: 0 <= i < |cs| ==> AllBound(AllVars(cs[i]) - own, val)
  {
    var vars := set i, s | 0 <= i < |cs| && s in AllVars(cs[i]) :: s;
    assert forall s :: s in AllVars(And(cs)) <==> s in vars;
    assert forall s :: s in AllVars(Or(cs)) <==> s in vars;
    assert AllVars(And(cs)) == vars && AllVars(Or(cs)) == vars;
    assert forall i :: 0 <= i < |cs| ==> AllVars(cs[i]) <= vars;
    if AllBound(vars - own, val) {
      forall i | 0 <= i < |cs|
        ensures AllBound(AllVars(cs[i]) - own, val)
      {
        AllBoundLess(vars - own, AllVars(cs[i]) - own, val);
      }
    }
    if forall i :: 0 <= i < |cs| ==> AllBound(AllVars(cs[i]) - own, val) {
      forall s | s in vars - own
        ensures s < |val| && val[s] != Unbound
      {
        var i :| 0 <= i < |cs| && s in AllVars(cs[i]);
        assert AllBound(AllVars(cs[i]) - own, val) && s in AllVars(cs[i]) - own;
      }
    }
  }

  lemma AllBoundLess(vars: set<nat>, fewer: set<nat>, val: Vals)
    requires AllBound(vars, val) && fewer <= vars
    ensures AllBound(fewer, val)
  {
  }

  lemma {:induction false} BoundButMeans(e: Expr, val: Vals, own: set<nat>)
    ensures BoundBut(e, val, own) <==> AllBound(AllVars(e) - own, val)
  {
    match e
    case Absent =>
    case Atom(_, args) =>
      assert forall i :: 0 <= i < |args| && args[i].Var? && args[i].slot !in own ==> args[i].slot in AllVars(e) - own;
    case Compare(_, l, r) =>
      assert l.Var? && l.slot !in own ==> l.slot in AllVars(e) - own;
      assert r.Var? && r.slot !in own ==> r.slot in AllVars(e) - own;
    case Not(c) => BoundButMeans(c, val, own);
    case And(cs) =>
      AllBoundChildren(cs, val, own);
      forall i | 0 <= i < |cs|
        ensures BoundBut(cs[i], val, own) <==> AllBound(AllVars(cs[i]) - own, val)
      {
        BoundButMeans(cs[i], val, own);
      }
    case Or(cs) =>
      AllBoundChildren(cs, val, own);
      forall i | 0 <= i < |cs|
        ensures BoundBut(cs[i], val, own) <==> AllBound(AllVars(cs[i]) - own, val)
      {
        BoundButMeans(cs[i], val, own);
      }
    case Imply(x, y) =>
      BoundButMeans(x, val, own);
      BoundButMeans(y, val, own);
      assert AllVars(e) - own == (AllVars(x) - own) + (AllVars(y) - own);
    case Quant(_, _, body) => BoundButMeans(body, val, own);
  }

  lemma {:induction false} GroundMeans(e: Expr, val: Vals)
    ensures Ground(e, val) <==> AllBound(Free(e), val)
  {
    match e
    case Absent =>
    case Atom(_, args) =>
      assert forall i :: 0 <= i < |args| && args[i].Var? ==> args[i].slot in Free(e);
    case Compare(_, l, r) =>
    case Not(c) => GroundMeans(c, val);
    case And(cs) =>
      forall i | 0 <= i < |cs|
        ensures Ground(cs[i], val) <==> AllBound(Free(cs[i]), val)
        ensures Free(cs[i]) <= Free(e)
      {
        GroundMeans(cs[i], val);
      }
    case Or(cs) =>
      forall i | 0 <= i < |cs|
        ensures Ground(cs[i], val) <==> AllBound(Free(cs[i]), val)
        ensures Free(cs[i]) <= Free(e)
      {
        GroundMeans(cs[i], val);
      }
    case Imply(x, y) =>
      GroundMeans(x, val);
      GroundMeans(y, val);
    case Quant(_, bound, body) => BoundButMeans(body, val, Own(bound));
  }

  // ----- Atoms -----

  ghost predicate ArgsOk(args: seq<Term>, n: nat) {
    forall i :: 0 <= i < |args| && args[i].Var? ==> args[i].slot < n
  }

  predicate HasText(kb: Kb, args: seq<Term>, val: Vals)
    requires ArgsOk(args, |val|)
  {
    exists i :: 0 <= i < |args| && Value(kb, args[i], val).Text?
  }

  /** Does position `i` of a tuple agree with what is bound, or with the same variable's earlier
      positions? */
  predicate FitsAt(kb: Kb, args: seq<Term>, val: Vals, t: seq<nat>, i: nat)
    requires ArgsOk(args, |val|) && |t| == |args| && i < |args|
  {
    match Value(kb, args[i], val)
    case Obj(id) => t[i] == id
    case Text(_) => false
    case Unbound => forall j :: 0 <= j < i && args[j] == args[i] ==> t[j] == t[i]
  }

  predicate Fits(kb: Kb, args: seq<Term>, val: Vals, t: seq<nat>)
    requires ArgsOk(args, |val|)
  {
    |t| == |args| && forall i :: 0 <= i < |args| ==> FitsAt(kb, args, val, t, i)
  }

  /** The binding with the first `n` arguments' unbound variables set from a tuple. */
  function Take(args: seq<Term>, val: Vals, t: seq<nat>, n: nat): (l: Vals)
    requires ArgsOk(args, |val|) && |t| == |args| && n <= |args|
    ensures |l| == |val|
  {
    if n == 0 then val
    else
      var l := Take(args, val, t, n - 1);
      if args[n - 1].Var? && val[args[n - 1].slot] == Unbound then l[args[n - 1].slot := Obj(t[n - 1])] else l
  }

  function MatchLeaves(kb: Kb, args: seq<Term>, val: Vals, ts: seq<seq<nat>>): (ls: seq<Vals>)
    requires ArgsOk(args, |val|)
    ensures forall l <- ls :: |l| == |val|
  {
    if ts == [] then []
    else (if Fits(kb, args, val, ts[0]) then [Take(args, val, ts[0], |args|)]
        else []) + MatchLeaves(kb, args, val, ts[1..])
  }

  function AtomLeaves(kb: Kb, p: string, args: seq<Term>, val: Vals): (ls: seq<Vals>)
    requires ArgsOk(args, |val|)
    ensures forall l <- ls :: |l| == |val|
  {
    if p !in kb.rels then []
    else if args == [] then (if kb.rels[p].tuples != [] then [val] else [])
    else if kb.rels[p].arity != |args| || HasText(kb, args, val) then []
    else MatchLeaves(kb, args, val, kb.rels[p].tuples)
  }

  lemma {:induction false} TakeAt(kb: Kb, args: seq<Term>, val: Vals, t: seq<nat>, n: nat, s: nat)
    requires ArgsOk(args, |val|) && Fits(kb, args, val, t) && n <= |args| && s < |val|
    ensures val[s] != Unbound || (forall i :: 0 <= i < n ==> args[i] != Var(s)) ==> Take(args, val, t, n)[s] == val[s]
    ensures val[s] == Unbound ==> forall i :: 0 <= i < n && args[i] == Var(s) ==> Take(args, val, t, n)[s] == Obj(t[i])
  {
    if n > 0 {
      TakeAt(kb, args, val, t, n - 1, s);
      if args[n - 1] == Var(s) && val[s] == Unbound {
        assert FitsAt(kb, args, val, t, n - 1);
      }
    }
  }

  /** A binding taken from a tuple: the total assignments extending it are those extending the old
      binding whose argument values are that tuple. */
  lemma TakeMeans(kb: Kb, args: seq<Term>, val: Vals, t: seq<nat>)
    requires ArgsOk(args, |val|) && Fits(kb, args, val, t)
    ensures Grows(Take(args, val, t, |args|), val)
    ensures forall s :: 0 <= s < |val| && s !in ArgSlots(args) ==> Take(args, val, t, |args|)[s] == val[s]
    ensures forall i :: 0 <= i < |args| ==> Value(kb, args[i], Take(args, val, t, |args|)) == Obj(t[i])
  {
    forall s | 0 <= s < |val|
      ensures val[s] != Unbound || s !in ArgSlots(args) ==> Take(args, val, t, |args|)[s] == val[s]
    {
      TakeAt(kb, args, val, t, |args|, s);
    }
    forall i | 0 <= i < |args|
      ensures Value(kb, args[i], Take(args, val, t, |args|)) == Obj(t[i])
    {
      assert FitsAt(kb, args, val, t, i);
      if args[i].Var? {
        TakeAt(kb, args, val, t, |args|, args[i].slot);
      }
    }
  }

  lemma TakeSound(kb: Kb, args: seq<Term>, val: Vals, t: seq<nat>, a: Vals)
    requires ArgsOk(args, |val|) && Fits(kb, args, val, t) && Ext(a, Take(args, val, t, |args|))
    ensures Names(Values(kb, args, a), t)
  {
    TakeMeans(kb, args, val, t);
  }

  lemma TakeComplete(kb: Kb, args: seq<Term>, val: Vals, t: seq<nat>, a: Vals)
    requires ArgsOk(args, |val|) && Ext(a, val) && Names(Values(kb, args, a), t)
    ensures Fits(kb, args, val, t) && Ext(a, Take(args, val, t, |args|))
  {
    var vs := Values(kb, args, a);
    assert forall i :: 0 <= i < |args| ==> vs[i] == Value(kb, args[i], a);
    assert Fits(kb, args, val, t);
    forall s: nat | s < |val|
      ensures Take(args, val, t, |args|)[s] == Unbound || Take(args, val, t, |args|)[s] == a[s]
    {
      TakeAt(kb, args, val, t, |args|, s);
      if s in ArgSlots(args) {
        var i :| 0 <= i < |args| && args[i].Var? && args[i].slot == s;
        assert args[i] == Var(s);
      }
    }
  }

  lemma {:induction false} MatchSound(kb: Kb, args: seq<Term>, val: Vals, ts: seq<seq<nat>>, l: Vals)
    requires ArgsOk(args, |val|) && l in MatchLeaves(kb, args, val, ts)
    ensures exists t :: t in ts && Fits(kb, args, val, t) && l == Take(args, val, t, |args|)
  {
    if Fits(kb, args, val, ts[0]) && l == Take(args, val, ts[0], |args|) {
      assert ts[0] in ts;
    } else {
      MatchSound(kb, args, val, ts[1..], l);
    }
  }

  lemma {:induction false} MatchComplete(kb: Kb, args: seq<Term>, val: Vals, ts: seq<seq<nat>>, t: seq<nat>)
    requires ArgsOk(args, |val|) && t in ts && Fits(kb, args, val, t)
    ensures Take(args, val, t, |args|) in MatchLeaves(kb, args, val, ts)
  {
    if t != ts[0] {
      MatchComplete(kb, args, val, ts[1..], t);
    }
  }

  lemma AtomSound(kb: Kb, p: string, args: seq<Term>, val: Vals, l: Vals)
    requires ArgsOk(args, |val|) && l in AtomLeaves(kb, p, args, val)
    ensures Grows(l, val) && (forall s :: 0 <= s < |val| && s !in ArgSlots(args) ==> l[s] == val[s])
    ensures forall a: Vals :: Ext(a, l) ==> Fact(kb, p, Values(kb, args, a))
    ensures forall i :: 0 <= i < |args| ==> Value(kb, args[i], l).Obj?
  {
    if args != [] {
      MatchSound(kb, args, val, kb.rels[p].tuples, l);
      var t :| t in kb.rels[p].tuples && Fits(kb, args, val, t) && l == Take(args, val, t, |args|);
      TakeMeans(kb, args, val, t);
      forall a: Vals | Ext(a, l)
        ensures Fact(kb, p, Values(kb, args, a))
      {
        TakeSound(kb, args, val, t, a);
      }
    }
  }

  lemma FitsNoText(kb: Kb, args: seq<Term>, val: Vals, t: seq<nat>)
    requires ArgsOk(args, |val|) && Fits(kb, args, val, t)
    ensures !HasText(kb, args, val)
  {
    forall i | 0 <= i < |args|
      ensures !Value(kb, args[i], val).Text?
    {
      assert FitsAt(kb, args, val, t, i);
    }
  }

  lemma AtomComplete(kb: Kb, p: string, args: seq<Term>, val: Vals, a: Vals)
    requires ArgsOk(args, |val|) && Ext(a, val) && Fact(kb, p, Values(kb, args, a))
    ensures exists l :: l in AtomLeaves(kb, p, args, val) && Ext(a, l)
  {
    hide Fits, HasText, MatchLeaves, Take;
    if args == [] {
      assert val in AtomLeaves(kb, p, args, val);
    } else {
      var t :| t in kb.rels[p].tuples && Names(Values(kb, args, a), t);
      TakeComplete(kb, args, val, t, a);
      MatchComplete(kb, args, val, kb.rels[p].tuples, t);
      assert !HasText(kb, args, val) by {
        FitsNoText(kb, args, val, t);
      }
    }
  }

  // ----- Equality -----

  function CompareLeaves(kb: Kb, equals: bool, l: Term, r: Term, val: Vals): (o: Out)
    requires ArgsOk([l, r], |val|)
    requires l.Var? ==> l.slot < |val|
    requires r.Var? ==> r.slot < |val|
    ensures forall x <- o.leaves :: |x| == |val|
  {
    var x, y := Value(kb, l, val), Value(kb, r, val);
    if x != Unbound && y != Unbound then Out(if (x == y) == equals then [val] else [], false)
    else if equals && x != Unbound then Out([val[r.slot := x]], false)
    else if equals && y != Unbound then Out([val[l.slot := y]], false)
    else Out([], true)
  }

  // ----- The types of a quantifier's variables -----

  function TypeAtoms(bound: seq<Bound>): seq<(string, nat)> {
    if bound == [] then []
    else seq(|bound[0].types|, i requires 0 <= i < |bound[0].types| => (bound[0].types[i],
        bound[0].slot)) + TypeAtoms(bound[1..])
  }

  ghost predicate TypeSlots(ts: seq<(string, nat)>, n: nat) {
    forall i :: 0 <= i < |ts| ==> ts[i].1 < n
  }

  /** The bindings that satisfy the type atoms from `i` on. */
  function TypeLeaves(kb: Kb, ts: seq<(string, nat)>, i: nat, val: Vals): (ls: seq<Vals>)
    requires i <= |ts| && TypeSlots(ts, |val|)
    ensures forall l <- ls :: |l| == |val|
    decreases |ts| - i, 1, 0
  {
    if i == |ts| then [val]
    else TypeLeavesOf(kb, ts, i + 1, |val|, AtomLeaves(kb, ts[i].0, [Var(ts[i].1)], val))
  }

  function TypeLeavesOf(kb: Kb, ts: seq<(string, nat)>, i: nat, n: nat, vals: seq<Vals>): (ls: seq<Vals>)
    requires i <= |ts| && TypeSlots(ts, n) && forall v <- vals :: |v| == n
    ensures forall l <- ls :: |l| == n
    decreases |ts| - i, 2, |vals|
  {
    if vals == [] then [] else TypeLeaves(kb, ts, i, vals[0]) + TypeLeavesOf(kb, ts, i, n, vals[1..])
  }

  // ----- Expressions -----

  predicate Binds(c: Expr) {
    c.Atom? || (c.Compare? && c.equals)
  }

  /** Children are taken in two passes: first those that bind, then the rest. */
  function ChildAt(cs: seq<Expr>, pos: nat): Expr
    requires pos < 2 * |cs|
  {
    if pos < |cs| then cs[pos] else cs[pos - |cs|]
  }

  predicate Skipped(cs: seq<Expr>, pos: nat)
    requires pos < 2 * |cs|
  {
    Binds(ChildAt(cs, pos)) != (pos < |cs|)
  }

  datatype Verdict = AllHold | OneFails | GaveUp

  function Leaves(kb: Kb, e: Expr, val: Vals): (o: Out)
    requires SlotsOk(e, |val|)
    ensures forall l <- o.leaves :: |l| == |val|
    decreases e, 2, 0, 0
  {
    match e
    case Absent => Out([val], false)
    case Atom(p, args) => Out(AtomLeaves(kb, p, args, val), false)
    case Compare(equals, l, r) => CompareLeaves(kb, equals, l, r, val)
    case Not(c) =>
      if c.Absent? || !Ground(c, val) then Out([], true)
      else
        var o := Leaves(kb, c, val);
        if o.leaves != [] then Out([], false) else if o.abort then Out([], true) else Out([val], false)
    case And(_) => AndLeaves(kb, e, 0, val)
    case Or(_) => OrLeaves(kb, e, 0, val)
    case Imply(_, _) => Out([], true)
    case Quant(all, bound, body) =>
      if !Scoped(e, val) then Out([], true)
      else if all then
        if TypeAtoms(bound) == [] then Out([], true)
        else
          BoundTypeSlots(bound, |val|);
          match Check(kb, body, |val|, TypeLeaves(kb, TypeAtoms(bound), 0, val))
          case AllHold => Out([val], false)
          case OneFails => Out([], false)
          case GaveUp => Out([], true)
      else
        var o := Leaves(kb, body, val);
        BoundTypeSlots(bound, |val|);
        if TypeLeavesOf(kb, TypeAtoms(bound), 0, |val|, o.leaves) != [] then Out([val], false)
        else if o.abort then Out([], true)
        else Out([], false)
  }

  /** The quantifier's variables are used in its body and nowhere yet, and the rest is bound. */
  predicate Scoped(e: Expr, val: Vals)
    requires e.Quant?
  {
    && (forall i :: 0 <= i < |e.bound| ==>
        e.bound[i].slot in AllVars(e.body) && e.bound[i].slot < |val| && val[e.bound[i].slot] == Unbound)
    && BoundBut(e.body, val, Own(e.bound))
  }

  /** Does every one of these bindings satisfy the body? The first that does not settles it. */
  function Check(kb: Kb, body: Expr, n: nat, vals: seq<Vals>): Verdict
    requires SlotsOk(body, n) && forall v <- vals :: |v| == n
    decreases body, 3, 0, |vals|
  {
    if vals == [] then AllHold
    else
      var o := Leaves(kb, body, vals[0]);
      if o.leaves != [] then Check(kb, body, n, vals[1..])
      else if o.abort then GaveUp
      else OneFails
  }

  function AndLeaves(kb: Kb, e: Expr, pos: nat, val: Vals): (o: Out)
    requires e.And? && SlotsOk(e, |val|) && pos <= 2 * |e.children|
    ensures forall l <- o.leaves :: |l| == |val|
    decreases e, 1, 2 * |e.children| - pos, 0
  {
    if pos == 2 * |e.children| then Out([val], false)
    else if Skipped(e.children, pos) then AndLeaves(kb, e, pos + 1, val)
    else
      var o := Leaves(kb, ChildAt(e.children, pos), val);
      AndLeavesOf(kb, e, pos + 1, |val|, o)
  }

  /** Each binding in turn extended by the conjuncts from `pos` on. */
  function AndLeavesOf(kb: Kb, e: Expr, pos: nat, n: nat, o: Out): (r: Out)
    requires e.And? && SlotsOk(e, n) && pos <= 2 * |e.children| && forall l <- o.leaves :: |l| == n
    ensures forall l <- r.leaves :: |l| == n
    decreases e, 1, 2 * |e.children| - pos, 1 + |o.leaves|
  {
    if o.leaves == [] then o
    else
      var first := AndLeaves(kb, e, pos, o.leaves[0]);
      if first.abort then first
      else
        var rest := AndLeavesOf(kb, e, pos, n, Out(o.leaves[1..], o.abort));
        Out(first.leaves + rest.leaves, rest.abort)
  }

  function OrLeaves(kb: Kb, e: Expr, pos: nat, val: Vals): (o: Out)
    requires e.Or? && SlotsOk(e, |val|) && pos <= |e.children|
    ensures forall l <- o.leaves :: |l| == |val|
    decreases e, 1, |e.children| - pos, 0
  {
    if pos == |e.children| then Out([], false)
    else
      var first := Leaves(kb, e.children[pos], val);
      if first.abort then first
      else
        var rest := OrLeaves(kb, e, pos + 1, val);
        Out(first.leaves + rest.leaves, rest.abort)
  }

  lemma {:induction false} BoundTypeSlots(bound: seq<Bound>, n: nat)
    requires forall i :: 0 <= i < |bound| ==> bound[i].slot < n
    ensures TypeSlots(TypeAtoms(bound), n)
  {
    if bound != [] {
      BoundTypeSlots(bound[1..], n);
    }
  }
}
