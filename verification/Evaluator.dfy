/** The direct evaluator as it runs (lib/evaluator.h): a depth-first search over one binding array,
    each solution handed to a continuation, with `halt` and `abort` flags that unwind it. The
    closures a search nests are given here as the values of `Cont`. */
module Evaluator {
  import opened Queries
  import opened Enumeration

  /** What to do with each binding found. */
  datatype Cont =
    | Witness                                            // an existence check is answered
    | Types(atoms: seq<(string, nat)>, i: nat, then_: Cont) // the type atoms from `i` on, then `then_`
    | Refute(body: Expr)                                 // a universal's instance: stop if it fails
    | Rest(e: Expr, pos: nat, then_: Cont)               // the conjuncts from `pos` on, then `then_`
    | Collect                                            // `ask`: record every result
    | Any                                                // `ask_any`: stop at the first result

  /** The parameters a query asks about: each one's slot and its type. */
  datatype Params = Params(slots: seq<nat>, types: seq<string>)

  /** What a search has found, and its flags. */
  datatype State = State(found: seq<Vals>, any: bool, halt: bool, abort: bool)

  predicate Stopped(s: State) {
    s.halt || s.abort
  }

  // ----- Results -----

  ghost predicate ParamsOk(q: Params, n: nat) {
    |q.slots| == |q.types| && forall i :: 0 <= i < |q.slots| ==> q.slots[i] < n
  }

  function Heads(ts: seq<seq<nat>>): seq<nat> {
    if ts == [] then [] else (if ts[0] == [] then [] else [ts[0][0]]) + Heads(ts[1..])
  }

  /** A type's objects, as its relation lists them. */
  function Extension(kb: Kb, t: string): seq<nat> {
    if t in kb.rels && kb.rels[t].arity == 1 then Heads(kb.rels[t].tuples) else []
  }

  function Row(q: Params, val: Vals): Vals
    requires ParamsOk(q, |val|)
  {
    seq(|q.slots|, i requires 0 <= i < |q.slots| => val[q.slots[i]])
  }

  /** Every way of giving the parameters from `i` on that are unbound an object of their type. */
  function Widened(kb: Kb, q: Params, i: nat, val: Vals): seq<Vals>
    requires ParamsOk(q, |val|) && i <= |q.slots|
    decreases |q.slots| - i, 1, 0
  {
    if i == |q.slots| then [Row(q, val)]
    else if val[q.slots[i]] != Unbound then Widened(kb, q, i + 1, val)
    else WidenedOver(kb, q, i, val, Extension(kb, q.types[i]))
  }

  function WidenedOver(kb: Kb, q: Params, i: nat, val: Vals, ext: seq<nat>): seq<Vals>
    requires ParamsOk(q, |val|) && i < |q.slots|
    decreases |q.slots| - i, 0, |ext|
  {
    if ext == [] then []
        else Widened(kb, q, i + 1, val[q.slots[i] := Obj(ext[0])]) + WidenedOver(kb, q, i, val, ext[1..])
  }

  /** The first occurrence of each result is kept. */
  function AddAll(found: seq<Vals>, rows: seq<Vals>): seq<Vals>
    decreases |rows|
  {
    if rows == [] then found
    else AddAll(if rows[0] in found then found else found + [rows[0]], rows[1..])
  }

  /** Every parameter still unbound has an object of its type. */
  predicate Possible(kb: Kb, q: Params, val: Vals)
    requires ParamsOk(q, |val|)
  {
    forall i :: 0 <= i < |q.slots| ==> val[q.slots[i]] != Unbound || Extension(kb, q.types[i]) != []
  }

  // ----- What a continuation does -----

  ghost predicate ContOk(k: Cont, n: nat) {
    match k
    case Types(ts, i, k') => i <= |ts| && TypeSlots(ts, n) && ContOk(k', n)
    case Refute(body) => SlotsOk(body, n)
    case Rest(e, pos, k') => e.And? && SlotsOk(e, n) && pos <= 2 * |e.children| && ContOk(k', n)
    case _ => true
  }

  ghost function Done(kb: Kb, q: Params, k: Cont, val: Vals, s: State): State
    requires ParamsOk(q, |val|) && ContOk(k, |val|)
    decreases k, 0
  {
    match k
    case Witness => s.(halt := true)
    case Types(ts, i, k') => Feed(kb, q, Out(TypeLeaves(kb, ts, i, val), false), |val|, k', s)
    case Refute(body) =>
      var o := Leaves(kb, body, val);
      if o.leaves != [] then s else if o.abort then s.(abort := true) else s.(halt := true)
    case Rest(e, pos, k') => Feed(kb, q, AndLeaves(kb, e, pos, val), |val|, k', s)
    case Collect => s.(found := AddAll(s.found, Widened(kb, q, 0, val)))
    case Any => if Possible(kb, q, val) then s.(any := true, halt := true) else s
  }

  /** The bindings of `o` given to the continuation in turn, until it stops. */
  ghost function Feed(kb: Kb, q: Params, o: Out, n: nat, k: Cont, s: State): State
    requires ParamsOk(q, n) && ContOk(k, n) && forall l <- o.leaves :: |l| == n
    decreases k, 1, |o.leaves|
  {
    if o.leaves == [] then (if o.abort then s.(abort := true) else s)
    else
      var s' := Done(kb, q, k, o.leaves[0], s);
      if Stopped(s') then s' else Feed(kb, q, Out(o.leaves[1..], o.abort), n, k, s')
  }

  lemma {:induction false} FeedConcat(kb: Kb, q: Params, x: seq<Vals>, o: Out, n: nat, k: Cont, s: State)
    requires ParamsOk(q, n) && ContOk(k, n) && (forall l <- x :: |l| == n) && forall l <- o.leaves :: |l| == n
    ensures forall l <- x + o.leaves :: |l| == n
    ensures var m := Feed(kb, q, Out(x, false), n, k, s);
      Feed(kb, q, Out(x + o.leaves, o.abort), n, k, s) == if x != [] && Stopped(m) then m else Feed(kb, q, o, n, k, m)
    decreases |x|
  {
    hide Done;
    if x == [] {
      assert x + o.leaves == o.leaves;
    } else {
      var s' := Done(kb, q, k, x[0], s);
      assert (x + o.leaves)[1..] == x[1..] + o.leaves;
      if !Stopped(s') {
        FeedConcat(kb, q, x[1..], o, n, k, s');
        if x[1..] == [] {
          assert Feed(kb, q, Out(x[1..], false), n, k, s') == s';
        }
      }
    }
  }

  /** Conjuncts one after another: the same as the rest of the conjunction as a continuation. */
  lemma {:induction false} FeedAnd(kb: Kb, q: Params, e: Expr, pos: nat, n: nat, o: Out, k: Cont, s: State)
    requires ParamsOk(q, n) && ContOk(Rest(e, pos, k), n) && (forall l <- o.leaves :: |l| == n) && !Stopped(s)
    ensures Feed(kb, q, AndLeavesOf(kb, e, pos, n, o), n, k, s) == Feed(kb, q, o, n, Rest(e, pos, k), s)
    decreases |o.leaves|
  {
    hide AndLeaves, Stopped;
    if o.leaves != [] {
      var first := AndLeaves(kb, e, pos, o.leaves[0]);
      var s' := Feed(kb, q, first, n, k, s);
      assert Done(kb, q, Rest(e, pos, k), o.leaves[0], s) == s';
      if first.abort {
        AbortStops(kb, q, first, n, k, s);
      } else {
        var o' := Out(o.leaves[1..], o.abort);
        var rest := AndLeavesOf(kb, e, pos, n, o');
        FeedConcat(kb, q, first.leaves, rest, n, k, s);
        assert first == Out(first.leaves, false);
        if !Stopped(s') {
          FeedAnd(kb, q, e, pos, n, o', k, s');
        }
      }
    }
  }

  lemma {:induction false} AbortStops(kb: Kb, q: Params, o: Out, n: nat, k: Cont, s: State)
    requires ParamsOk(q, n) && ContOk(k, n) && (forall l <- o.leaves :: |l| == n) && o.abort
    ensures Stopped(Feed(kb, q, o, n, k, s))
    decreases |o.leaves|
  {
    hide Done;
    if o.leaves != [] && !Stopped(Done(kb, q, k, o.leaves[0], s)) {
      AbortStops(kb, q, Out(o.leaves[1..], true), n, k, Done(kb, q, k, o.leaves[0], s));
    }
  }

  lemma {:induction false} FeedTypes(kb: Kb, q: Params, ts: seq<(string, nat)>, i: nat, n: nat, o: Out, k: Cont,
        s: State)
    requires ParamsOk(q, n) && ContOk(Types(ts, i, k), n) && (forall l <- o.leaves :: |l| == n) && !Stopped(s)
    ensures Feed(kb, q, Out(TypeLeavesOf(kb, ts, i, n, o.leaves), o.abort), n, k, s) ==
        Feed(kb, q, o, n, Types(ts, i, k), s)
    decreases |o.leaves|
  {
    hide TypeLeaves, Stopped;
    if o.leaves != [] {
      var first := TypeLeaves(kb, ts, i, o.leaves[0]);
      var s' := Feed(kb, q, Out(first, false), n, k, s);
      assert Done(kb, q, Types(ts, i, k), o.leaves[0], s) == s';
      var rest := TypeLeavesOf(kb, ts, i, n, o.leaves[1..]);
      FeedConcat(kb, q, first, Out(rest, o.abort), n, k, s);
      if !Stopped(s') {
        FeedTypes(kb, q, ts, i, n, Out(o.leaves[1..], o.abort), k, s');
      }
    }
  }

  lemma FeedWitness(kb: Kb, q: Params, o: Out, n: nat, s: State)
    requires ParamsOk(q, n) && forall l <- o.leaves :: |l| == n
    ensures Feed(kb, q, o, n, Witness, s) == if o.leaves != [] then s.(halt := true)
        else if o.abort then s.(abort := true) else s
  {
  }

  lemma {:induction false} FeedRefute(kb: Kb, q: Params, body: Expr, n: nat, vals: seq<Vals>, s: State)
    requires ParamsOk(q, n) && SlotsOk(body, n) && (forall v <- vals :: |v| == n) && !Stopped(s)
    ensures Feed(kb, q, Out(vals, false), n, Refute(body), s) ==
            match Check(kb, body, n,
                vals) { case AllHold => s case OneFails => s.(halt := true) case GaveUp => s.(abort := true) }
    decreases |vals|
  {
    hide Leaves;
    if vals != [] && Leaves(kb, body, vals[0]).leaves != [] {
      FeedRefute(kb, q, body, n, vals[1..], s);
    }
  }

  /** A disjunction from `pos` on: the first disjunct, and then the rest unless it stopped. */
  lemma FeedOr(kb: Kb, q: Params, e: Expr, pos: nat, val: Vals, k: Cont, s: State)
    requires e.Or? && SlotsOk(e, |val|) && pos < |e.children| && ParamsOk(q, |val|) && ContOk(k, |val|) && !Stopped(s)
    ensures var s' := Feed(kb, q, Leaves(kb, e.children[pos], val), |val|, k, s);
      Feed(kb, q, OrLeaves(kb, e, pos, val), |val|, k, s) == if Stopped(s') then s'
          else Feed(kb, q, OrLeaves(kb, e, pos + 1, val), |val|, k, s')
  {
    hide Leaves, Done;
    var first, rest := Leaves(kb, e.children[pos], val), OrLeaves(kb, e, pos + 1, val);
    if first.abort {
      AbortStops(kb, q, first, |val|, k, s);
    } else {
      FeedConcat(kb, q, first.leaves, rest, |val|, k, s);
      assert first == Out(first.leaves, false);
    }
  }

  lemma AndEnd(kb: Kb, q: Params, e: Expr, val: Vals, k: Cont, s: State)
    requires e.And? && SlotsOk(e, |val|) && ParamsOk(q, |val|) && ContOk(k, |val|)
    ensures Feed(kb, q, AndLeaves(kb, e, 2 * |e.children|, val), |val|, k, s) == Done(kb, q, k, val, s)
    ensures AndSize(e, 2 * |e.children|) == 1
  {
    hide Done;
    FeedOne(kb, q, val, k, s);
  }

  lemma FeedOne(kb: Kb, q: Params, val: Vals, k: Cont, s: State)
    requires ParamsOk(q, |val|) && ContOk(k, |val|)
    ensures Feed(kb, q, Out([val], false), |val|, k, s) == Done(kb, q, k, val, s)
  {
    hide Done;
  }

  lemma AndStep(kb: Kb, q: Params, e: Expr, p: nat, val: Vals, k: Cont, s: State)
    requires e.And? && SlotsOk(e, |val|) && ParamsOk(q, |val|) && ContOk(k, |val|) && p < 2 * |e.children|
    requires !Skipped(e.children, p) && !Stopped(s)
    ensures AndSize(e, p) == Size(ChildAt(e.children, p)) + 2 + AndSize(e, p + 1)
    ensures SlotsOk(ChildAt(e.children, p), |val|)
    ensures Feed(kb, q, AndLeaves(kb, e, p, val), |val|, k, s) ==
        Feed(kb, q, Leaves(kb, ChildAt(e.children, p), val), |val|, Rest(e, p + 1, k), s)
  {
    hide Done, Leaves, Feed;
    FeedAnd(kb, q, e, p + 1, |val|, Leaves(kb, ChildAt(e.children, p), val), k, s);
  }

  lemma ForallSize(e: Expr)
    requires e.Quant?
    ensures Size(e) == 6 + Size(e.body) + 2 * |TypeAtoms(e.bound)|
  {
  }

  /** A universal as a search for an instance that fails. */
  lemma ForallFeed(kb: Kb, q: Params, e: Expr, val: Vals, k: Cont, s: State)
    requires e.Quant? && e.all && SlotsOk(e, |val|) && Scoped(e, val) && TypeSlots(TypeAtoms(e.bound), |val|)
    requires ParamsOk(q, |val|) && ContOk(k, |val|) && !Stopped(s)
    ensures TypeAtoms(e.bound) == [] ==> Feed(kb, q, Leaves(kb, e, val), |val|, k, s) == s.(abort := true)
    ensures var m := Feed(kb, q, Out(TypeLeaves(kb, TypeAtoms(e.bound), 0, val), false), |val|, Refute(e.body), s);
      m.(halt := false) == s.(abort := m.abort) &&
      (TypeAtoms(e.bound) != [] ==>
         Feed(kb, q, Leaves(kb, e, val), |val|, k, s) == if m.abort then s.(abort := true) else if m.halt then s
             else Done(kb, q, k, val, s))
  {
    hide Done, Scoped, TypeAtoms, TypeLeaves;
    FeedRefute(kb, q, e.body, |val|, TypeLeaves(kb, TypeAtoms(e.bound), 0, val), s);
    FeedOne(kb, q, val, k, s);
  }

  /** An existential as a search of the body for a witness of the right types. */
  lemma ExistsFeed(kb: Kb, q: Params, e: Expr, val: Vals, k: Cont, s: State)
    requires e.Quant? && !e.all && SlotsOk(e, |val|) && Scoped(e, val) && TypeSlots(TypeAtoms(e.bound), |val|)
    requires ParamsOk(q, |val|) && ContOk(k, |val|) && !Stopped(s)
    ensures var m := Feed(kb, q, Leaves(kb, e.body, val), |val|, Types(TypeAtoms(e.bound), 0, Witness), s);
      m.(halt := false) == s.(abort := m.abort) &&
      Feed(kb, q, Leaves(kb, e, val), |val|, k, s) == if m.abort then s.(abort := true)
          else if m.halt then Done(kb, q, k, val, s) else s
  {
    hide Done, Scoped, TypeAtoms, TypeLeavesOf;
    var ts, o := TypeAtoms(e.bound), Leaves(kb, e.body, val);
    FeedTypes(kb, q, ts, 0, |val|, o, Witness, s);
    FeedWitness(kb, q, Out(TypeLeavesOf(kb, ts, 0, |val|, o.leaves), o.abort), |val|, s);
    FeedOne(kb, q, val, k, s);
  }

  /** The tuples from `j` on: the next one's binding, if it fits, and then the rest. */
  lemma TupleStep(kb: Kb, q: Params, args: seq<Term>, val: Vals, ts: seq<seq<nat>>, j: nat, k: Cont, s: State)
    requires ArgsOk(args, |val|) && j < |ts| && |ts[j]| == |args| && ParamsOk(q, |val|) && ContOk(k, |val|)
    ensures Feed(kb, q, Out(MatchLeaves(kb, args, val, ts[j..]), false), |val|, k, s) ==
            if Fits(kb, args, val, ts[j]) then
              var s' := Done(kb, q, k, Take(args, val, ts[j], |args|), s);
              if Stopped(s') then s' else Feed(kb, q, Out(MatchLeaves(kb, args, val, ts[j + 1..]), false), |val|, k, s')
            else Feed(kb, q, Out(MatchLeaves(kb, args, val, ts[j + 1..]), false), |val|, k, s)
  {
    hide Done, Fits, Take;
    assert ts[j..][0] == ts[j] && ts[j..][1..] == ts[j + 1..];
    var rest := MatchLeaves(kb, args, val, ts[j + 1..]);
    if Fits(kb, args, val, ts[j]) {
      var l := Take(args, val, ts[j], |args|);
      assert MatchLeaves(kb, args, val, ts[j..]) == [l] + rest;
      assert ([l] + rest)[1..] == rest;
    } else {
      assert MatchLeaves(kb, args, val, ts[j..]) == [] + rest == rest;
    }
  }

  lemma NoTuples(kb: Kb, q: Params, args: seq<Term>, val: Vals, k: Cont, s: State)
    requires ArgsOk(args, |val|) && ParamsOk(q, |val|) && ContOk(k, |val|)
    ensures Feed(kb, q, Out(MatchLeaves(kb, args, val, []), false), |val|, k, s) == s
  {
  }

  lemma WidenStep(kb: Kb, q: Params, i: nat, val: Vals, ext: seq<nat>, j: nat, found: seq<Vals>)
    requires ParamsOk(q, |val|) && i < |q.slots| && j < |ext|
    ensures AddAll(found, WidenedOver(kb, q, i, val, ext[j..])) ==
            AddAll(AddAll(found, Widened(kb, q, i + 1, val[q.slots[i] := Obj(ext[j])])),
                WidenedOver(kb, q, i, val, ext[j + 1..]))
  {
    assert ext[j..][1..] == ext[j + 1..];
    AddAllConcat(found, Widened(kb, q, i + 1, val[q.slots[i] := Obj(ext[j])]),
            WidenedOver(kb, q, i, val, ext[j + 1..]));
  }

  lemma WidenEnd(kb: Kb, q: Params, i: nat, val: Vals, found: seq<Vals>)
    requires ParamsOk(q, |val|) && i < |q.slots|
    ensures AddAll(found, WidenedOver(kb, q, i, val, [])) == found
  {
  }

  // ----- The search -----

  /** Work left, which every call makes smaller. */
  function Size(e: Expr): nat
    decreases e, 2, 0
  {
    match e
    case Not(c) => 3 + Size(c)
    case And(_) => 2 + AndSize(e, 0)
    case Or(_) => 2 + OrSize(e, 0)
    case Quant(_, bound, body) => 6 + Size(body) + 2 * |TypeAtoms(bound)|
    case _ => 3
  }

  function AndSize(e: Expr, pos: nat): nat
    requires e.And? && pos <= 2 * |e.children|
    decreases e, 1, 2 * |e.children| - pos
  {
    if pos == 2 * |e.children| then 1
    else if Skipped(e.children, pos) then AndSize(e, pos + 1)
    else Size(ChildAt(e.children, pos)) + 2 + AndSize(e, pos + 1)
  }

  function OrSize(e: Expr, pos: nat): nat
    requires e.Or? && pos <= |e.children|
    decreases e, 1, |e.children| - pos
  {
    if pos == |e.children| then 0 else Size(e.children[pos]) + OrSize(e, pos + 1)
  }

  function Weight(k: Cont): nat {
    match k
    case Types(ts, i, k') => (if i <= |ts| then 2 * (|ts| - i) else 0) + 1 + Weight(k')
    case Refute(body) => 3 + Size(body)
    case Rest(e, pos, k') => (if e.And? && pos <= 2 * |e.children| then AndSize(e, pos) else 0) + 1 + Weight(k')
    case _ => 1
  }

  class Search {
    const kb: Kb
    const q: Params
    var val: Vals
    var found: seq<Vals>
    var any: bool
    var halt: bool
    var abort: bool

    constructor (kb: Kb, q: Params, val: Vals)
      ensures this.kb == kb && this.q == q && this.val == val
      ensures Now() == State([], false, false, false)
    {
      this.kb, this.q, this.val := kb, q, val;
      found, any, halt, abort := [], false, false, false;
    }

    ghost function Now(): State
      reads this
    {
      State(found, any, halt, abort)
    }

    ghost predicate Ready(k: Cont)
      reads this
    {
      KbOk(kb) && ParamsOk(q, |val|) && ContOk(k, |val|) && !halt && !abort
    }

    method Run(k: Cont)
      requires Ready(k)
      modifies this
      ensures val == old(val) && Now() == Done(kb, q, k, val, old(Now()))
      decreases Weight(k), 0
    {
      match k
      case Witness => halt := true;
      case Types(ts, i, k') => SolveTypes(ts, i, k');
      case Refute(body) => CheckInstance(body);
      case Rest(e, pos, k') => SolveAnd(e, pos, k');
      case Collect => Widen(0);
      case Any =>
        var possible := true;
        for i := 0 to |q.slots|
          invariant possible <==> forall j :: 0 <= j < i ==>
            val[q.slots[j]] != Unbound || Extension(kb, q.types[j]) != []
        {
          if val[q.slots[i]] == Unbound && Extension(kb, q.types[i]) == [] {
            possible := false;
          }
        }
        if possible {
          any := true;
          halt := true;
        }
    }

    /** Records the results that widening the binding gives, restoring it. */
    method Widen(i: nat)
      requires ParamsOk(q, |val|) && i <= |q.slots|
      modifies this
      ensures val == old(val) && Now() == old(Now()).(found := AddAll(old(found), Widened(kb, q, i, val)))
      decreases |q.slots| - i, 1
    {
      if i == |q.slots| {
        var row := Row(q, val);
        if row !in found {
          found := found + [row];
        }
        return;
      }
      var slot := q.slots[i];
      if val[slot] != Unbound {
        Widen(i + 1);
        return;
      }
      WidenOver(i, Extension(kb, q.types[i]));
    }

    method WidenOver(i: nat, ext: seq<nat>)
      requires ParamsOk(q, |val|) && i < |q.slots| && val[q.slots[i]] == Unbound
      modifies this
      ensures val == old(val) && Now() == old(Now()).(found := AddAll(old(found), WidenedOver(kb, q, i, val, ext)))
      decreases |q.slots| - i, 0
    {
      hide AddAll, Widened, WidenedOver;
      var slot := q.slots[i];
      ghost var was := val;
      assert ext[0..] == ext;
      for j := 0 to |ext|
        invariant |val| == |was| && val == was[slot := val[slot]]
        invariant Now() == old(Now()).(found := found)
        invariant AddAll(found, WidenedOver(kb, q, i, was, ext[j..])) ==
            AddAll(old(found), WidenedOver(kb, q, i, was, ext))
      {
        WidenStep(kb, q, i, was, ext, j, found);
        val := val[slot := Obj(ext[j])];
        assert val == was[slot := Obj(ext[j])];
        Widen(i + 1);
      }
      assert ext[|ext|..] == [];
      WidenEnd(kb, q, i, was, found);
      val := val[slot := Unbound];
      assert val == was;
    }

    method CheckInstance(body: Expr)
      requires Ready(Refute(body))
      modifies this
      ensures val == old(val) && Now() == Done(kb, q, Refute(body), val, old(Now()))
      decreases 2 + Size(body), 0
    {
      FeedWitness(kb, q, Leaves(kb, body, val), |val|, Now());
      Solve(body, Witness);
      var holds := halt;
      halt := false;
      if !abort && !holds {
        halt := true;
      }
    }

    method Solve(e: Expr, k: Cont)
      requires Ready(k) && SlotsOk(e, |val|)
      modifies this
      ensures val == old(val) && Now() == Feed(kb, q, Leaves(kb, e, val), |val|, k, old(Now()))
      decreases Size(e) + Weight(k), 2
    {
      match e
      case Absent => Run(k);
      case Atom(p, args) => SolveAtom(p, args, k);
      case Compare(_, _, _) => SolveCompare(e, k);
      case Not(_) => SolveNot(e, k);
      case And(_) => SolveAnd(e, 0, k);
      case Or(_) => SolveOr(e, k);
      case Quant(_, _, _) => SolveQuantified(e, k);
      case Imply(_, _) => abort := true;
    }

    method SolveCompare(e: Expr, k: Cont)
      requires Ready(k) && SlotsOk(e, |val|) && e.Compare?
      modifies this
      ensures val == old(val) && Now() == Feed(kb, q, Leaves(kb, e, val), |val|, k, old(Now()))
      decreases Weight(k), 1
    {
      var l, r := Value(kb, e.left, val), Value(kb, e.right, val);
      if l != Unbound && r != Unbound {
        if (l == r) == e.equals {
          Run(k);
        }
      } else if e.equals && (l != Unbound || r != Unbound) {
        var slot := if l != Unbound then e.right.slot else e.left.slot;
        val := val[slot := if l != Unbound then l else r];
        Run(k);
        val := val[slot := Unbound];
        assert val == old(val);
      } else {
        abort := true;
      }
    }

    method SolveNot(e: Expr, k: Cont)
      requires Ready(k) && SlotsOk(e, |val|) && e.Not?
      modifies this
      ensures val == old(val) && Now() == Feed(kb, q, Leaves(kb, e, val), |val|, k, old(Now()))
      decreases Size(e) + Weight(k), 0
    {
      if e.child.Absent? || !Ground(e.child, val) {
        abort := true;
        return;
      }
      FeedWitness(kb, q, Leaves(kb, e.child, val), |val|, Now());
      Solve(e.child, Witness);
      var isFound := halt;
      halt := false;
      if !abort && !isFound {
        Run(k);
      }
    }

    method SolveAnd(e: Expr, pos: nat, k: Cont)
      requires Ready(Rest(e, pos, k))
      modifies this
      ensures val == old(val) && Now() == Feed(kb, q, AndLeaves(kb, e, pos, val), |val|, k, old(Now()))
      decreases AndSize(e, pos) + Weight(k), 0
    {
      hide AndLeaves, Feed, Skipped, ChildAt, AndSize, Done;
      var p := NextConjunct(e, pos, k);
      if p == 2 * |e.children| {
        AndEnd(kb, q, e, val, k, Now());
        Run(k);
      } else {
        AndStep(kb, q, e, p, val, k, Now());
        Solve(ChildAt(e.children, p), Rest(e, p + 1, k));
      }
    }

    /** The next conjunct to take in this pass or the next. */
    method NextConjunct(e: Expr, pos: nat, ghost k: Cont) returns (p: nat)
      requires Ready(Rest(e, pos, k))
      ensures pos <= p <= 2 * |e.children| && (p < 2 * |e.children| ==> !Skipped(e.children, p))
      ensures AndSize(e, p) == AndSize(e, pos) && AndLeaves(kb, e, p, val) == AndLeaves(kb, e, pos, val)
    {
      p := pos;
      while p < 2 * |e.children| && Skipped(e.children, p)
        invariant pos <= p <= 2 * |e.children| && AndSize(e, p) == AndSize(e, pos)
        invariant AndLeaves(kb, e, p, val) == AndLeaves(kb, e, pos, val)
      {
        p := p + 1;
      }
    }

    method SolveOr(e: Expr, k: Cont)
      requires Ready(k) && SlotsOk(e, |val|) && e.Or?
      modifies this
      ensures val == old(val) && Now() == Feed(kb, q, Leaves(kb, e, val), |val|, k, old(Now()))
      decreases OrSize(e, 0) + 1 + Weight(k), 0
    {
      for i := 0 to |e.children|
        invariant val == old(val) && !halt && !abort && OrSize(e, i) <= OrSize(e, 0)
        invariant Feed(kb, q, OrLeaves(kb, e, i, val), |val|, k, Now()) ==
            Feed(kb, q, OrLeaves(kb, e, 0, val), |val|, k, old(Now()))
      {
        FeedOr(kb, q, e, i, val, k, Now());
        Solve(e.children[i], k);
        if halt || abort {
          return;
        }
      }
    }

    method SolveQuantified(e: Expr, k: Cont)
      requires Ready(k) && SlotsOk(e, |val|) && e.Quant?
      modifies this
      ensures val == old(val) && Now() == Feed(kb, q, Leaves(kb, e, val), |val|, k, old(Now()))
      decreases Size(e) + Weight(k), 1
    {
      if !Scoped(e, val) {
        abort := true;
        return;
      }
      BoundTypeSlots(e.bound, |val|);
      if e.all {
        SolveForall(e, k);
      } else {
        SolveExists(e, k);
      }
    }

    method SolveForall(e: Expr, k: Cont)
      requires Ready(k) && SlotsOk(e, |val|) && e.Quant? && e.all && Scoped(e, val)
      requires TypeSlots(TypeAtoms(e.bound), |val|)
      modifies this
      ensures val == old(val) && Now() == Feed(kb, q, Leaves(kb, e, val), |val|, k, old(Now()))
      decreases Size(e) + Weight(k), 0
    {
      hide Leaves, TypeLeaves, TypeAtoms, Done, Feed, Scoped, Size;
      ForallFeed(kb, q, e, val, k, Now());
      ForallSize(e);
      var ts := TypeAtoms(e.bound);
      if ts == [] {
        abort := true;
        return;
      }
      SolveTypes(ts, 0, Refute(e.body));
      var fails := halt;
      halt := false;
      if !abort && !fails {
        Run(k);
      }
    }

    method SolveExists(e: Expr, k: Cont)
      requires Ready(k) && SlotsOk(e, |val|) && e.Quant? && !e.all && Scoped(e, val)
      requires TypeSlots(TypeAtoms(e.bound), |val|)
      modifies this
      ensures val == old(val) && Now() == Feed(kb, q, Leaves(kb, e, val), |val|, k, old(Now()))
      decreases Size(e) + Weight(k), 0
    {
      hide Leaves, TypeLeaves, TypeAtoms, Done, Feed, Scoped, Size;
      ExistsFeed(kb, q, e, val, k, Now());
      ForallSize(e);
      assert Weight(Witness) == 1;
      assert Weight(Types(TypeAtoms(e.bound), 0, Witness)) == 2 * |TypeAtoms(e.bound)| + 2;
      Solve(e.body, Types(TypeAtoms(e.bound), 0, Witness));
      var isFound := halt;
      halt := false;
      if !abort && isFound {
        Run(k);
      }
    }

    method SolveTypes(ts: seq<(string, nat)>, i: nat, k: Cont)
      requires Ready(Types(ts, i, k))
      modifies this
      ensures val == old(val) && Now() == Feed(kb, q, Out(TypeLeaves(kb, ts, i, val), false), |val|, k, old(Now()))
      decreases 2 * (|ts| - i) + Weight(k), 1
    {
      if i == |ts| {
        Run(k);
      } else {
        var args := [Var(ts[i].1)];
        FeedTypes(kb, q, ts, i + 1, |val|, Out(AtomLeaves(kb, ts[i].0, args, val), false), k, Now());
        SolveAtom(ts[i].0, args, Types(ts, i + 1, k));
      }
    }

    method SolveAtom(p: string, args: seq<Term>, k: Cont)
      requires Ready(k) && ArgsOk(args, |val|)
      modifies this
      ensures val == old(val) && Now() == Feed(kb, q, Out(AtomLeaves(kb, p, args, val), false), |val|, k, old(Now()))
      decreases Weight(k) + 1, 0
    {
      if p !in kb.rels {
        return;
      }
      if args == [] {
        if kb.rels[p].tuples != [] {
          Run(k);
        }
        return;
      }
      if kb.rels[p].arity != |args| || HasText(kb, args, val) {
        return;
      }
      SolveTuples(args, kb.rels[p].tuples, k);
    }

    /** Does a tuple agree with the values wanted, and with itself where a variable repeats? */
    method Agrees(args: seq<Term>, want: seq<Val>, t: seq<nat>) returns (ok: bool)
      requires ArgsOk(args, |val|) && |t| == |args| == |want|
      requires forall i :: 0 <= i < |args| ==> want[i] == Value(kb, args[i], val)
      ensures ok <==> Fits(kb, args, val, t)
    {
      for i := 0 to |args|
        invariant forall j :: 0 <= j < i ==> FitsAt(kb, args, val, t, j)
      {
        ok := AgreesAt(args, want, t, i);
        if !ok {
          return;
        }
      }
      ok := true;
    }

    method AgreesAt(args: seq<Term>, want: seq<Val>, t: seq<nat>, i: nat) returns (ok: bool)
      requires ArgsOk(args, |val|) && |t| == |args| == |want| && i < |args| && want[i] == Value(kb, args[i], val)
      ensures ok <==> FitsAt(kb, args, val, t, i)
    {
      match want[i]
      case Obj(id) => ok := t[i] == id;
      case Text(_) => ok := false;
      case Unbound =>
        for j := 0 to i
          invariant forall h :: 0 <= h < j && args[h] == args[i] ==> t[h] == t[i]
        {
          if args[j] == args[i] && t[j] != t[i] {
            return false;
          }
        }
        ok := true;
    }

    method SolveTuples(args: seq<Term>, ts: seq<seq<nat>>, k: Cont)
      requires Ready(k) && ArgsOk(args, |val|) && forall t <- ts :: |t| == |args|
      modifies this
      ensures val == old(val) && Now() == Feed(kb, q, Out(MatchLeaves(kb, args, val, ts), false), |val|, k, old(Now()))
      decreases Weight(k), 2
    {
      var now := val;
      var want := seq(|args|, i requires 0 <= i < |args| => Value(kb, args[i], now));
      SolveTuplesFrom(args, want, ts, k);
    }

    method SolveTuplesFrom(args: seq<Term>, want: seq<Val>, ts: seq<seq<nat>>, k: Cont)
      requires Ready(k) && ArgsOk(args, |val|) && (forall t <- ts :: |t| == |args|)
      requires |want| == |args| && forall i :: 0 <= i < |args| ==> want[i] == Value(kb, args[i], val)
      modifies this
      ensures val == old(val) && Now() == Feed(kb, q, Out(MatchLeaves(kb, args, val, ts), false), |val|, k, old(Now()))
      decreases Weight(k), 1
    {
      hide Feed, Done, Fits, Take, KbOk, ContOk, MatchLeaves, ParamsOk;
      assert ts[0..] == ts;
      for j := 0 to |ts|
        invariant val == old(val) && !halt && !abort
        invariant Feed(kb, q, Out(MatchLeaves(kb, args, val, ts[j..]), false), |val|, k, Now()) ==
            Feed(kb, q, Out(MatchLeaves(kb, args, val, ts), false), |val|, k, old(Now()))
      {
        TupleStep(kb, q, args, val, ts, j, k, Now());
        assert ts[j] in ts;
        var ok := Agrees(args, want, ts[j]);
        if ok {
          SetFrom(args, want, ts[j]);
          Run(k);
          Unset(args, want, ts[j], old(val));
          if halt || abort {
            return;
          }
        }
      }
      assert ts[|ts|..] == [];
      NoTuples(kb, q, args, val, k, Now());
    }

    method SetFrom(args: seq<Term>, want: seq<Val>, t: seq<nat>)
      requires ArgsOk(args, |val|) && |t| == |args| == |want|
      requires forall i :: 0 <= i < |args| ==> want[i] == Value(kb, args[i], val)
      modifies this`val
      ensures val == Take(args, old(val), t, |args|)
    {
      for i := 0 to |args|
        invariant val == Take(args, old(val), t, i)
      {
        if want[i] == Unbound {
          val := val[args[i].slot := Obj(t[i])];
        }
      }
    }

    method Unset(args: seq<Term>, want: seq<Val>, t: seq<nat>, ghost was: Vals)
      requires ArgsOk(args, |was|) && |t| == |args| == |want|
      requires forall i :: 0 <= i < |args| ==> want[i] == Value(kb, args[i], was)
      requires Fits(kb, args, was, t) && val == Take(args, was, t, |args|)
      modifies this`val
      ensures val == was
    {
      TakeMeans(kb, args, was, t);
      for i := 0 to |args|
        invariant |val| == |was|
        invariant forall s :: 0 <= s < |val| ==>
          val[s] == was[s] || (val[s] == Take(args, was, t, |args|)[s] && forall j :: 0 <= j < i ==> args[j] != Var(s))
      {
        if want[i] == Unbound {
          val := val[args[i].slot := Unbound];
        }
      }
      forall s: nat | s < |val|
        ensures val[s] == was[s]
      {
        TakeAt(kb, args, was, t, |args|, s);
      }
    }
  }

  lemma {:induction false} AddAllConcat(found: seq<Vals>, x: seq<Vals>, y: seq<Vals>)
    ensures AddAll(AddAll(found, x), y) == AddAll(found, x + y)
    decreases |x|
  {
    if x == [] {
      assert x + y == y;
    } else {
      assert (x + y)[1..] == x[1..] + y;
      AddAllConcat(if x[0] in found then found else found + [x[0]], x[1..], y);
    }
  }
}
