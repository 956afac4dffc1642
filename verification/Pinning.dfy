/** What a caller of the evaluator gets (lib/evaluator.h, `prepare`, `ask`, `ask_any`): the assignments that
    satisfy the expression with the pinned names at the values they are pinned to. */
module Pinning {
  import opened Basics
  import opened Queries
  import opened Enumeration
  import opened Evaluator
  import opened Safety
  import opened Answers

  // ----- What is pinned -----

  /** A name is pinned to a value: it is the last such pin of the name that says anything, which one does
      that gives it another name or names an object. */
  ghost predicate PinnedTo(kb: Kb, fixed: seq<(string, string)>, name: string, v: string) {
    exists i :: 0 <= i < |fixed| && fixed[i] == (name, v) && (name != v || v in kb.ids) &&
      forall j :: i < j < |fixed| && fixed[j].0 == name ==> fixed[j].1 == name && name !in kb.ids
  }

  /** Where the names pinned differ, each is pinned to its value. */
  lemma PinnedOnce(kb: Kb, fixed: seq<(string, string)>, name: string, v: string)
    requires forall i, j :: 0 <= i < j < |fixed| ==> fixed[i].0 != fixed[j].0
    ensures PinnedTo(kb, fixed, name, v) <==> (name, v) in fixed && (name != v || v in kb.ids)
  {
  }

  /** An assignment has the pinned names at their values, and no constant is pinned to another. */
  ghost predicate Heeds(kb: Kb, ns: seq<string>, fixed: seq<(string, string)>, a: Vals) {
    && (forall s, v :: 0 <= s < |ns| && s < |a| && PinnedTo(kb, fixed, ns[s], v) ==> a[s] == Resolve(kb, v))
    && forall i :: 0 <= i < |fixed| && fixed[i].0 !in ns && fixed[i].0 in kb.ids ==> fixed[i].1 == fixed[i].0
  }

  /** The first pin is the only one of its name that says anything. */
  ghost predicate FirstPins(kb: Kb, fixed: seq<(string, string)>, name: string, v: string)
    requires fixed != []
  {
    fixed[0] == (name, v) && (name != v || v in kb.ids) && forall w :: !PinnedTo(kb, fixed[1..], name, w)
  }

  lemma PinnedRest(kb: Kb, fixed: seq<(string, string)>, name: string, v: string)
    requires fixed != []
    ensures PinnedTo(kb, fixed, name, v) <==>
            PinnedTo(kb, fixed[1..], name, v) || FirstPins(kb, fixed, name, v)
  {
    var rest := fixed[1..];
    if PinnedTo(kb, rest, name, v) {
      var i :| 0 <= i < |rest| && rest[i] == (name, v) && (name != v || v in kb.ids) &&
        forall j :: i < j < |rest| && rest[j].0 == name ==> rest[j].1 == name && name !in kb.ids;
      assert fixed[i + 1] == (name, v);
      forall j | i + 1 < j < |fixed| && fixed[j].0 == name
        ensures fixed[j].1 == name && name !in kb.ids
      {
        assert rest[j - 1] == fixed[j];
      }
    }
    if PinnedTo(kb, fixed, name, v) && !PinnedTo(kb, rest, name, v) {
      PinnedFirst(kb, fixed, name, v);
    }
    if fixed[0] == (name, v) && (name != v || v in kb.ids) && forall w :: !PinnedTo(kb, rest, name, w) {
      NothingLater(kb, rest, name);
      forall j | 0 < j < |fixed| && fixed[j].0 == name
        ensures fixed[j].1 == name && name !in kb.ids
      {
        assert rest[j - 1] == fixed[j];
      }
    }
  }

  lemma PinnedFirst(kb: Kb, fixed: seq<(string, string)>, name: string, v: string)
    requires fixed != [] && PinnedTo(kb, fixed, name, v) && !PinnedTo(kb, fixed[1..], name, v)
    ensures fixed[0] == (name, v) && forall w :: !PinnedTo(kb, fixed[1..], name, w)
  {
    var rest := fixed[1..];
    var i :| 0 <= i < |fixed| && fixed[i] == (name, v) && (name != v || v in kb.ids) &&
      forall j :: i < j < |fixed| && fixed[j].0 == name ==> fixed[j].1 == name && name !in kb.ids;
    assert forall j :: 0 <= j < |rest| ==> rest[j] == fixed[j + 1];
    if i > 0 {
      assert rest[i - 1] == (name, v);
      assert PinnedTo(kb, rest, name, v);
    }
  }

  /** If no pin of a name says anything, each pins it to itself, and it is no object. */
  lemma {:induction false} NothingLater(kb: Kb, fixed: seq<(string, string)>, name: string)
    requires forall w :: !PinnedTo(kb, fixed, name, w)
    ensures forall j :: 0 <= j < |fixed| && fixed[j].0 == name ==> fixed[j].1 == name && name !in kb.ids
    decreases |fixed|
  {
    if fixed != [] {
      var k, init := |fixed| - 1, fixed[..|fixed| - 1];
      if fixed[k].0 == name && (fixed[k].1 != name || name in kb.ids) {
        assert PinnedTo(kb, fixed, name, fixed[k].1);
      }
      forall w
        ensures !PinnedTo(kb, init, name, w)
      {
        if PinnedTo(kb, init, name, w) {
          PinnedInit(kb, fixed, name, w);
        }
      }
      NothingLater(kb, init, name);
    }
  }

  lemma PinnedInit(kb: Kb, fixed: seq<(string, string)>, name: string, w: string)
    requires fixed != [] && PinnedTo(kb, fixed[..|fixed| - 1], name, w)
    requires fixed[|fixed| - 1].0 == name ==> fixed[|fixed| - 1].1 == name && name !in kb.ids
    ensures PinnedTo(kb, fixed, name, w)
  {
    var init := fixed[..|fixed| - 1];
    var i :| 0 <= i < |init| && init[i] == (name, w) && (name != w || w in kb.ids) &&
      forall j :: i < j < |init| && init[j].0 == name ==> init[j].1 == name && name !in kb.ids;
    assert fixed[i] == (name, w);
    forall j | i < j < |fixed| && fixed[j].0 == name
      ensures fixed[j].1 == name && name !in kb.ids
    {
      if j < |init| {
        assert init[j] == fixed[j];
      }
    }
  }

  /** What the binding array starts as: each slot at the value its name is pinned to, the rest as it was. */
  lemma {:induction false} PinnedMeans(kb: Kb, ns: seq<string>, fixed: seq<(string, string)>, val: Vals, s: nat)
    requires |val| == |ns| && Distinct(ns) && s < |ns|
    ensures forall v :: PinnedTo(kb, fixed, ns[s], v) ==> Pinned(kb, ns, fixed, val)[s] == Resolve(kb, v)
    ensures (forall v :: !PinnedTo(kb, fixed, ns[s], v)) ==> Pinned(kb, ns, fixed, val)[s] == val[s]
    decreases |fixed|
  {
    hide PinnedTo;
    if fixed == [] {
      NoPins(kb, ns[s]);
    } else {
      var name, v := fixed[0].0, fixed[0].1;
      var slot := SlotOf(ns, name);
      var next := if slot.Some? && Pins(kb, name, v) then val[slot.value := Resolve(kb, v)] else val;
      PinnedMeans(kb, ns, fixed[1..], next, s);
      forall w
        ensures PinnedTo(kb, fixed, ns[s], w) <==> PinnedTo(kb, fixed[1..], ns[s], w) || FirstPins(kb, fixed, ns[s], w)
      {
        PinnedRest(kb, fixed, ns[s], w);
      }
      if name == ns[s] {
        assert slot.Some? && slot.value == s;
        assert Pins(kb, name, v) && (forall w :: !PinnedTo(kb, fixed[1..], name, w)) ==> FirstPins(kb, fixed, name, v);
      } else {
        assert slot.Some? ==> slot.value != s;
      }
    }
  }

  lemma NoPins(kb: Kb, name: string)
    ensures forall v :: !PinnedTo(kb, [], name, v)
  {
  }

  // ----- What a query is about -----

  /** A row of names satisfies a query: some assignment of all its names satisfies the expression, heeds the
      pins, and has each parameter at the object of its type that the row names. */
  ghost predicate Satisfies(kb: Kb, y: Query, row: seq<string>)
    requires KbOk(kb) && QueryOk(y)
  {
    QueryMeans(kb, y);
    exists a: Vals ::
        Satisfying(kb, y, SlotNames(y.names, y.params), a) && IsRow(kb, y, SlotNames(y.names, y.params), a, row)
  }

  ghost predicate Satisfying(kb: Kb, y: Query, ns: seq<string>, a: Vals)
    requires SlotsOk(y.e, |ns|)
  {
    && |a| == |ns| && (forall s :: 0 <= s < |a| ==> a[s] != Unbound)
    && Sat(kb, y.e, a) && Heeds(kb, ns, y.fixed, a)
  }

  ghost predicate IsRow(kb: Kb, y: Query, ns: seq<string>, a: Vals, row: seq<string>) {
    |a| == |ns| && |row| == |y.params| && forall i, s :: 0 <= i < |row| && 0 <= s < |ns| && ns[s] == y.params[i].0 ==>
      HasType(kb, a[s], y.params[i].1) && row[i] in kb.ids && a[s] == Obj(kb.ids[row[i]])
  }

  /** Each pinned parameter has its type, and so has whatever the facts and constants of the expression can
      give a parameter. */
  ghost predicate WellTyped(kb: Kb, y: Query)
    requires KbOk(kb) && QueryOk(y)
  {
    QueryMeans(kb, y);
    && (forall i, v :: 0 <= i < |y.params| && PinnedTo(kb, y.fixed, y.params[i].0, v) ==>
          HasType(kb, Resolve(kb, v), y.params[i].1))
    && Admits(kb, y.e, HasParamType(kb, Asked(y)))
  }

  /** The assignments a search is about are those that heed the pins. */
  lemma BeginMeans(kb: Kb, y: Query, a: Vals)
    requires QueryOk(y) && |a| == |SlotNames(y.names, y.params)|
    ensures (forall s :: 0 <= s < |a| ==> a[s] != Unbound) && !Refused(kb, SlotNames(y.names, y.params), y.fixed) &&
            Ext(a, Begin(kb, y)) <==>
            (forall s :: 0 <= s < |a| ==> a[s] != Unbound) && Heeds(kb, SlotNames(y.names, y.params), y.fixed, a)
  {
    hide PinnedTo;
    var ns := SlotNames(y.names, y.params);
    forall s: nat | s < |ns|
      ensures (forall v :: PinnedTo(kb, y.fixed, ns[s], v) ==> Begin(kb, y)[s] == Resolve(kb, v))
      ensures (forall v :: !PinnedTo(kb, y.fixed, ns[s], v)) ==> Begin(kb, y)[s] == Unbound
    {
      PinnedMeans(kb, ns, y.fixed, Nothing(|ns|), s);
    }
  }

  // ----- The row of an assignment -----

  lemma SlotOfParam(y: Query, i: nat, s: nat)
    requires QueryOk(y) && i < |y.params| && s < |SlotNames(y.names, y.params)|
    ensures SlotNames(y.names, y.params)[s] == y.params[i].0 <==> s == Asked(y).slots[i]
  {
  }

  /** An object of a type can be named, and is its name's object. */
  lemma TypedObject(kb: Kb, v: Val, t: string)
    requires KbOk(kb) && HasType(kb, v, t)
    ensures v.Obj? && v.id < |kb.names| && kb.names[v.id] in kb.ids && kb.ids[kb.names[v.id]] == v.id
  {
    var x :| x in kb.rels[t].tuples && Names([v], x);
    assert TupleOk(kb, kb.rels[t].arity, x) && [v][0] == Obj(x[0]);
  }

  lemma RowNames(kb: Kb, y: Query, a: Vals, row: seq<string>)
    requires KbOk(kb) && QueryOk(y) && |a| == |SlotNames(y.names, y.params)| && ParamsOk(Asked(y), |a|)
    ensures IsRow(kb, y, SlotNames(y.names, y.params), a, row) <==>
            ParamsTyped(kb, Asked(y), a) && ProperRow(kb, Row(Asked(y), a)) && row == Named(kb, Row(Asked(y), a))
  {
    hide SlotNames, Asked, HasType, KbOk;
    var ns, q := SlotNames(y.names, y.params), Asked(y);
    forall i: nat, s: nat | i < |y.params| && s < |ns|
      ensures ns[s] == y.params[i].0 <==> s == q.slots[i]
    {
      SlotOfParam(y, i, s);
    }
    if IsRow(kb, y, ns, a, row) {
      forall i | 0 <= i < |row|
        ensures HasType(kb, a[q.slots[i]], q.types[i]) && Proper(kb, a[q.slots[i]])
        ensures row[i] == NameOf(kb, a[q.slots[i]])
      {
        assert ns[q.slots[i]] == y.params[i].0;
        ObjectName(kb, row[i]);
      }
    }
    if ParamsTyped(kb, q, a) && ProperRow(kb, Row(q, a)) && row == Named(kb, Row(q, a)) {
      forall i, s | 0 <= i < |row| && 0 <= s < |ns| && ns[s] == y.params[i].0
        ensures HasType(kb, a[s], y.params[i].1) && row[i] in kb.ids && a[s] == Obj(kb.ids[row[i]])
      {
        TypedObject(kb, a[s], y.params[i].1);
        assert row[i] == NameOf(kb, Row(q, a)[i]);
      }
    }
  }

  lemma ObjectName(kb: Kb, name: string)
    requires KbOk(kb) && name in kb.ids
    ensures kb.ids[name] < |kb.names| && kb.names[kb.ids[name]] == name
  {
  }

  /** What satisfies a query is what the search has as an answer, and nothing satisfies one that is refused. */
  lemma SatisfiesMeans(kb: Kb, y: Query, row: seq<string>)
    requires KbOk(kb) && QueryOk(y)
    ensures Satisfies(kb, y, row) <==> !Refused(kb, SlotNames(y.names, y.params), y.fixed) && Answering(kb, y, row)
  {
    hide KbOk, QueryOk, SlotsOk, Sat, Ext, Heeds, IsRow, ParamsTyped, ProperRow, Refused, SlotNames, Asked, Begin,
         DistinctSlots;
    QueryMeans(kb, y);
    var ns, q, val := SlotNames(y.names, y.params), Asked(y), Begin(kb, y);
    if Satisfies(kb, y, row) {
      var a: Vals :| Satisfying(kb, y, ns, a) && IsRow(kb, y, ns, a, row);
      BeginMeans(kb, y, a);
      RowNames(kb, y, a, row);
      assert Meets(kb, y.e, val, a);
      assert Answer(kb, q, y.e, val, Row(q, a));
    }
    if !Refused(kb, ns, y.fixed) && Answering(kb, y, row) {
      var vals :| Answer(kb, q, y.e, val, vals) && ProperRow(kb, vals) && row == Named(kb, vals);
      var a :| Meets(kb, y.e, val, a) && ParamsTyped(kb, q, a) && vals == Row(q, a);
      AllSet(a, val);
      BeginMeans(kb, y, a);
      RowNames(kb, y, a, row);
      assert Satisfying(kb, y, ns, a);
    }
  }

  lemma AllSet(a: Vals, val: Vals)
    requires Ext(a, val)
    ensures forall s :: 0 <= s < |a| ==> a[s] != Unbound
  {
  }

  lemma TypedMeans(kb: Kb, y: Query)
    requires KbOk(kb) && QueryOk(y)
    ensures WellTyped(kb, y) ==> SearchTyped(kb, y)
  {
    hide KbOk, SlotsOk, HasType, Admits, SlotNames, Asked, PinnedTo, Pinned;
    QueryMeans(kb, y);
    if WellTyped(kb, y) {
      var ns, q := SlotNames(y.names, y.params), Asked(y);
      forall i | 0 <= i < |q.slots|
        ensures Begin(kb, y)[q.slots[i]] == Unbound || HasType(kb, Begin(kb, y)[q.slots[i]], q.types[i])
      {
        PinnedMeans(kb, ns, y.fixed, Nothing(|ns|), q.slots[i]);
      }
    }
  }

  // ----- The replies -----

  /** What `ask` answers: each satisfying assignment, exactly once, whatever the types say of the rest; and
      nothing else when the query is well typed. */
  lemma AnswersExact(kb: Kb, y: Query, r: Reply)
    requires KbOk(kb) && QueryOk(y) && Replied(kb, y, r) && r.Rows?
    ensures Distinct(r.rows)
    ensures forall row :: Satisfies(kb, y, row) ==> row in r.rows
    ensures WellTyped(kb, y) ==> forall row :: row in r.rows ==> Satisfies(kb, y, row)
  {
    hide KbOk, QueryOk, Satisfies, Answering, WellTyped, SearchTyped, Refused, Leaves, SlotsOk, Results, Asked, Begin;
    TypedMeans(kb, y);
    if !Refused(kb, SlotNames(y.names, y.params), y.fixed) {
      RowsAnswer(kb, y, r);
    }
    forall row
      ensures Satisfies(kb, y, row) <==> !Refused(kb, SlotNames(y.names, y.params), y.fixed) && Answering(kb, y, row)
    {
      SatisfiesMeans(kb, y, row);
    }
  }

  /** Whether or not it is well typed, every row has each pinned parameter at the value it is pinned to. */
  lemma RowsPinned(kb: Kb, y: Query, r: Reply, row: seq<string>, i: nat, v: string)
    requires KbOk(kb) && QueryOk(y) && Replied(kb, y, r) && r.Rows? && row in r.rows
    requires i < |y.params| && PinnedTo(kb, y.fixed, y.params[i].0, v)
    ensures |row| == |y.params| && row[i] == v
  {
    hide KbOk, QueryOk, Sat, Leaves, SlotsOk, Typed, Results, PinnedTo, Pinned, SlotNames, Asked, HasType;
    QueryMeans(kb, y);
    ResultsProper(kb, y);
    var ns, q, val := SlotNames(y.names, y.params), Asked(y), Begin(kb, y);
    var rows := Results(kb, q, y.e, val);
    var k :| 0 <= k < |r.rows| && r.rows[k] == row;
    assert row == Named(kb, rows[k]) && rows[k] in rows;
    TypedQuery(y);
    ResultsSound(kb, q, y.e, val, rows[k]);
    var l, a :| l in Leaves(kb, y.e, val).leaves && |l| == |val| && Meets(kb, y.e, val, a) && Row(q, a) == rows[k] &&
      Opened(kb, q, l, a);
    DistinctNames(y);
    PinnedMeans(kb, ns, y.fixed, Nothing(|ns|), q.slots[i]);
    assert val[q.slots[i]] == Resolve(kb, v) && a[q.slots[i]] == Resolve(kb, v);
    ResolvedName(kb, v);
  }

  lemma TypedQuery(y: Query)
    requires QueryOk(y)
    ensures Typed(y.e)
  {
  }

  lemma DistinctNames(y: Query)
    requires QueryOk(y)
    ensures Distinct(SlotNames(y.names, y.params))
  {
  }

  lemma ResolvedName(kb: Kb, v: string)
    requires KbOk(kb)
    ensures Resolve(kb, v) != Unbound && Proper(kb, Resolve(kb, v)) && NameOf(kb, Resolve(kb, v)) == v
  {
  }

  /** What `ask_any` answers: false only if nothing satisfies the query, and true, of a well typed one, only
      if something does, though a whole search might have given up. */
  lemma AnyExact(kb: Kb, y: Query, r: Option<bool>)
    requires KbOk(kb) && QueryOk(y) && RepliedAny(kb, y, r)
    ensures r == Some(false) ==> forall row :: !Satisfies(kb, y, row)
    ensures r == Some(true) && WellTyped(kb, y) ==> exists row :: Satisfies(kb, y, row)
    ensures r.Some? && WellTyped(kb, y) ==> (r.value <==> exists row :: Satisfies(kb, y, row))
  {
    hide KbOk, QueryOk, Satisfies, Answering, WellTyped, SearchTyped, Refused, Leaves, SlotsOk, Results, Asked, Begin;
    TypedMeans(kb, y);
    if !Refused(kb, SlotNames(y.names, y.params), y.fixed) {
      AnyAnswers(kb, y, r);
    }
    forall row
      ensures Satisfies(kb, y, row) <==> !Refused(kb, SlotNames(y.names, y.params), y.fixed) && Answering(kb, y, row)
    {
      SatisfiesMeans(kb, y, row);
    }
  }

  // ----- Queries that are always answered -----

  lemma {:induction false} SafeSupported(e: Expr, sure: set<nat>, maybe: set<nat>)
    requires Safe(e, sure, maybe)
    ensures Supported(e)
    decreases e, 1, 0
  {
    match e
    case Not(c) => SafeSupported(c, sure, maybe);
    case And(cs) =>
      AndSafeSupported(e, 0, sure, maybe);
      forall i | 0 <= i < |cs|
        ensures Supported(cs[i])
      {
        var p := if Binds(cs[i]) then i else i + |cs|;
        assert !Skipped(cs, p) && ChildAt(cs, p) == cs[i];
      }
    case Or(cs) =>
      forall i | 0 <= i < |cs|
        ensures Supported(cs[i])
      {
        SafeSupported(cs[i], sure, maybe);
      }
    case Quant(all, bound, body) =>
      SafeSupported(body, if all then sure + TypedSlots(bound) else sure, if all then maybe + Own(bound) else maybe);
    case _ =>
  }

  lemma {:induction false} AndSafeSupported(e: Expr, pos: nat, sure: set<nat>, maybe: set<nat>)
    requires e.And? && pos <= 2 * |e.children| && AndSafe(e, pos, sure, maybe)
    ensures forall p :: pos <= p < 2 * |e.children| && !Skipped(e.children, p) ==> Supported(ChildAt(e.children, p))
    decreases e, 0, 2 * |e.children| - pos
  {
    hide Supported;
    if pos < 2 * |e.children| {
      if Skipped(e.children, pos) {
        AndSafeSupported(e, pos + 1, sure, maybe);
      } else {
        var c := ChildAt(e.children, pos);
        SafeSupported(c, sure, maybe);
        AndSafeSupported(e, pos + 1, Safety.After(c, sure), maybe + Free(e));
      }
    }
  }

  /** The slots of the names pinned. */
  ghost function PinnedSlots(kb: Kb, y: Query): set<nat> {
    var ns := SlotNames(y.names, y.params);
    set s: nat | s < |ns| && exists v :: PinnedTo(kb, y.fixed, ns[s], v)
  }

  lemma BeginBetween(kb: Kb, y: Query)
    requires QueryOk(y)
    ensures Between(Begin(kb, y), PinnedSlots(kb, y), PinnedSlots(kb, y))
  {
    hide PinnedTo;
    var ns := SlotNames(y.names, y.params);
    forall s: nat | s < |ns|
      ensures s in PinnedSlots(kb, y) <==> Begin(kb, y)[s] != Unbound
    {
      PinnedMeans(kb, ns, y.fixed, Nothing(|ns|), s);
    }
  }

  /** A query whose expression finds bound what it needs, given the pins, is always answered. */
  lemma SafeQueries(kb: Kb, y: Query)
    requires KbOk(kb) && QueryOk(y) && Safe(y.e, PinnedSlots(kb, y), PinnedSlots(kb, y))
    ensures forall r :: Replied(kb, y, r) ==> r.Rows?
    ensures forall r :: RepliedAny(kb, y, r) ==> r.Some?
  {
    hide KbOk, QueryOk, Refused, Leaves, SlotsOk, Results, Asked, Begin, Safe, PinnedSlots, Supported;
    QueryMeans(kb, y);
    BeginBetween(kb, y);
    SafeSupported(y.e, PinnedSlots(kb, y), PinnedSlots(kb, y));
    SafeAnswers(kb, y.e, Begin(kb, y), PinnedSlots(kb, y), PinnedSlots(kb, y));
  }
}
