/** The fact base (lib/kb.h): per predicate a flat buffer of object ids, shared between states and
    copied only when a state writes to it. All the states alive at once live in one `Store`, where a
    pointer is a number; what each of them believes is its own set of facts. */
module KnowledgeBase {
  import opened Basics

  // ----- Flat buffers -----

  /** The tuples of a flat buffer, in order; a part of a tuple at the end is no tuple. */
  function Tuples(rel: seq<nat>, a: nat): seq<seq<nat>>
    requires a > 0
    decreases |rel|
  {
    if |rel| < a then [] else [rel[..a]] + Tuples(rel[a..], a)
  }

  predicate Whole(rel: seq<nat>, a: nat)
    requires a > 0
    decreases |rel|
  {
    rel == [] || (|rel| >= a && Whole(rel[a..], a))
  }

  /** Whole tuples without duplicates; at arity 0 at most the one sentinel. */
  ghost predicate Tidy(rel: seq<nat>, a: nat) {
    if a == 0 then |rel| <= 1 else Whole(rel, a) && Distinct(Tuples(rel, a))
  }

  /** The relation a buffer stands for. */
  ghost function FactsIn(rel: seq<nat>, a: nat): set<seq<nat>> {
    if a == 0 then (if rel == [] then {} else {[]}) else set t | t in Tuples(rel, a)
  }

  lemma {:induction false} TuplesConcat(x: seq<nat>, y: seq<nat>, a: nat)
    requires a > 0 && Whole(x, a)
    ensures Tuples(x + y, a) == Tuples(x, a) + Tuples(y, a)
    ensures Whole(y, a) ==> Whole(x + y, a)
    decreases |x|
  {
    if x == [] {
      assert x + y == y;
    } else {
      TuplesConcat(x[a..], y, a);
      assert (x + y)[..a] == x[..a] && (x + y)[a..] == x[a..] + y;
      assert Tuples(x + y, a) == [x[..a]] + Tuples(x[a..] + y, a);
    }
  }

  lemma OneTuple(t: seq<nat>)
    requires |t| > 0
    ensures Whole(t, |t|) && Tuples(t, |t|) == [t]
  {
    assert t[|t|..] == [] && t[..|t|] == t;
  }

  lemma {:induction false} TupleShape(rel: seq<nat>, a: nat)
    requires a > 0
    ensures forall t <- Tuples(rel, a) :: |t| == a && forall x <- t :: x in rel
    ensures Whole(rel, a) ==> |rel| == a * |Tuples(rel, a)|
    decreases |rel|
  {
    if |rel| >= a {
      TupleShape(rel[a..], a);
      var rest := Tuples(rel[a..], a);
      assert Tuples(rel, a) == [rel[..a]] + rest;
      assert a * (1 + |rest|) == a + a * |rest|;
    }
  }

  lemma {:induction false} DistinctCount<T(!new)>(ts: seq<T>)
    requires Distinct(ts)
    ensures |set t | t in ts| == |ts|
  {
    if ts != [] {
      DistinctCount(ts[1..]);
      assert (set t | t in ts) == {ts[0]} + set t | t in ts[1..];
      assert ts[0] !in ts[1..];
    } else {
      assert (set t | t in ts) == {};
    }
  }

  lemma DistinctSplit<T(!new)>(x: seq<T>, t: T, y: seq<T>)
    requires Distinct(x + [t] + y)
    ensures Distinct(x + y) && (set s | s in x + y) == (set s | s in x + [t] + y) - {t}
  {
    var w := x + [t] + y;
    assert forall i :: 0 <= i < |x| ==> w[i] == x[i];
    assert forall i :: 0 <= i < |y| ==> w[|x| + 1 + i] == y[i];
    assert w[|x|] == t;
    forall i, j | 0 <= i < j < |x + y|
      ensures (x + y)[i] != (x + y)[j]
    {
      var i' := if i < |x| then i else i + 1;
      var j' := if j < |x| then j else j + 1;
      assert w[i'] != w[j'];
    }
    assert t !in x && t !in y;
  }

  /** A new tuple at the end. */
  lemma Inserted(rel: seq<nat>, t: seq<nat>)
    requires |t| > 0 && Tidy(rel, |t|) && t !in FactsIn(rel, |t|)
    ensures Tidy(rel + t, |t|) && FactsIn(rel + t, |t|) == FactsIn(rel, |t|) + {t}
  {
    OneTuple(t);
    TuplesConcat(rel, t, |t|);
  }

  /** The tuple at `off` taken out. */
  lemma Erased(rel: seq<nat>, t: seq<nat>, off: nat)
    requires |t| > 0 && Tidy(rel, |t|) && off + |t| <= |rel| && rel[off..off + |t|] == t && Whole(rel[..off], |t|)
    ensures var rel' := rel[..off] + rel[off + |t|..]; Tidy(rel', |t|) && FactsIn(rel', |t|) == FactsIn(rel, |t|) - {t}
  {
    hide Tuples, Whole, Distinct;
    var a := |t|;
    var x, y := rel[..off], rel[off + a..];
    assert rel == x + (t + y);
    OneTuple(t);
    SuffixWhole(x, t + y, a);
    SuffixWhole(t, y, a);
    TuplesConcat(x, t + y, a);
    TuplesConcat(t, y, a);
    TuplesConcat(x, y, a);
    assert Tuples(rel, a) == Tuples(x, a) + [t] + Tuples(y, a);
    DistinctSplit(Tuples(x, a), t, Tuples(y, a));
  }

  lemma {:induction false} SuffixWhole(x: seq<nat>, y: seq<nat>, a: nat)
    requires a > 0 && Whole(x, a) && Whole(x + y, a)
    ensures Whole(y, a)
    decreases |x|
  {
    if x == [] {
      assert x + y == y;
    } else {
      assert (x + y)[a..] == x[a..] + y;
      SuffixWhole(x[a..], y, a);
    }
  }

  /** Is this tuple at `off`? */
  method SameAt(rel: seq<nat>, t: seq<nat>, off: nat) returns (same: bool)
    requires off + |t| <= |rel|
    ensures same <==> rel[off..off + |t|] == t
  {
    for i := 0 to |t|
      invariant forall j :: 0 <= j < i ==> rel[off + j] == t[j]
    {
      if rel[off + i] != t[i] {
        assert rel[off..off + |t|][i] != t[i];
        return false;
      }
    }
    return true;
  }

  /** Where a tuple is in a buffer. */
  method FindTuple(rel: seq<nat>, t: seq<nat>, a: nat) returns (at: Option<nat>)
    requires Tidy(rel, a) && |t| == a
    ensures at.Some? <==> t in FactsIn(rel, a)
    ensures at.Some? && a > 0 ==> at.value + a <= |rel| && rel[at.value..at.value + a] == t && Whole(rel[..at.value], a)
  {
    if a == 0 {
      return if rel == [] then None else Some(0);
    }
    var off := 0;
    assert rel[0..] == rel;
    while off + a <= |rel|
      invariant off <= |rel| && Whole(rel[..off], a)
      invariant t in Tuples(rel, a) <==> t in Tuples(rel[off..], a)
    {
      var same := SameAt(rel, t, off);
      ghost var next := rel[off..off + a];
      assert rel[off..][..a] == next && rel[off..][a..] == rel[off + a..];
      if same {
        return Some(off);
      }
      OneTuple(next);
      TuplesConcat(rel[..off], next, a);
      assert rel[..off + a] == rel[..off] + next;
      off := off + a;
    }
    return None;
  }

  // ----- Names -----

  /** Predicates and objects by number (`Schema`): the numbering is one to one both ways. */
  datatype Schema = Schema(predId: map<string, nat>, arity: seq<nat>, objId: map<string, nat>, objName: seq<string>)

  ghost predicate SchemaOk(sc: Schema) {
    && (forall h <- sc.predId :: sc.predId[h] < |sc.arity|)
    && (forall g, h :: g in sc.predId && h in sc.predId && sc.predId[g] == sc.predId[h] ==> g == h)
    && (forall s <- sc.objId :: sc.objId[s] < |sc.objName| && sc.objName[sc.objId[s]] == s)
    && (forall i: nat :: i < |sc.objName| ==> sc.objName[i] in sc.objId && sc.objId[sc.objName[i]] == i)
  }

  ghost predicate Ids(sc: Schema, t: seq<nat>) {
    forall i :: 0 <= i < |t| ==> t[i] < |sc.objName|
  }

  function NamesOf(sc: Schema, t: seq<nat>): seq<string>
    requires Ids(sc, t)
  {
    seq(|t|, i requires 0 <= i < |t| => sc.objName[t[i]])
  }

  predicate Known(sc: Schema, args: seq<string>) {
    forall x <- args :: x in sc.objId
  }

  function IdsOf(sc: Schema, args: seq<string>): seq<nat>
    requires Known(sc, args)
  {
    seq(|args|, i requires 0 <= i < |args| => sc.objId[args[i]])
  }

  lemma NamesInverse(sc: Schema, t: seq<nat>)
    requires SchemaOk(sc) && Ids(sc, t)
    ensures Known(sc, NamesOf(sc, t)) && IdsOf(sc, NamesOf(sc, t)) == t
  {
    var names := NamesOf(sc, t);
    forall x | x in names
      ensures x in sc.objId
    {
      var i :| 0 <= i < |names| && names[i] == x;
    }
  }

  lemma IdsInverse(sc: Schema, args: seq<string>)
    requires SchemaOk(sc) && Known(sc, args)
    ensures Ids(sc, IdsOf(sc, args)) && NamesOf(sc, IdsOf(sc, args)) == args
  {
    assert forall i :: 0 <= i < |args| ==> args[i] in args;
  }

  // ----- What a state believes -----

  type Facts = set<seq<string>>

  ghost predicate BufferOk(sc: Schema, rel: seq<nat>, a: nat) {
    Tidy(rel, a) && (a > 0 ==> Ids(sc, rel))
  }

  ghost function Named(sc: Schema, rel: seq<nat>, a: nat): Facts {
    set t | t in FactsIn(rel, a) && Ids(sc, t) :: NamesOf(sc, t)
  }

  ghost predicate ViewOk(sc: Schema, v: seq<seq<nat>>) {
    |v| == |sc.arity| && forall i :: 0 <= i < |v| ==> BufferOk(sc, v[i], sc.arity[i])
  }

  /** A state's facts: for each predicate, the argument lists it holds of. */
  ghost function Believed(sc: Schema, v: seq<seq<nat>>): map<string, Facts>
    requires SchemaOk(sc) && |v| == |sc.arity|
  {
    map h | h in sc.predId :: Named(sc, v[sc.predId[h]], sc.arity[sc.predId[h]])
  }

  lemma FactIds(sc: Schema, rel: seq<nat>, a: nat)
    requires BufferOk(sc, rel, a)
    ensures forall t <- FactsIn(rel, a) :: |t| == a && Ids(sc, t)
  {
    if a > 0 {
      TupleShape(rel, a);
      forall t | t in FactsIn(rel, a)
        ensures Ids(sc, t)
      {
        assert forall i :: 0 <= i < |t| ==> t[i] in rel;
      }
    }
  }

  /** A fact by its names is a fact by its ids. */
  lemma NamedFact(sc: Schema, rel: seq<nat>, a: nat, args: seq<string>)
    requires SchemaOk(sc) && BufferOk(sc, rel, a)
    ensures args in Named(sc, rel, a) <==> Known(sc, args) && IdsOf(sc, args) in FactsIn(rel, a)
    ensures args in Named(sc, rel, a) ==> |args| == a
  {
    FactIds(sc, rel, a);
    if args in Named(sc, rel, a) {
      var t :| t in FactsIn(rel, a) && Ids(sc, t) && NamesOf(sc, t) == args;
      NamesInverse(sc, t);
    } else if Known(sc, args) && IdsOf(sc, args) in FactsIn(rel, a) {
      IdsInverse(sc, args);
    }
  }

  /** Adding or removing one tuple adds or removes one fact. */
  lemma NamedChange(sc: Schema, rel: seq<nat>, rel': seq<nat>, a: nat, args: seq<string>, remove: bool)
    requires SchemaOk(sc) && BufferOk(sc, rel, a) && BufferOk(sc, rel', a) && Known(sc, args) && |args| == a
    requires FactsIn(rel', a) ==
        (if remove then FactsIn(rel, a) - {IdsOf(sc, args)} else FactsIn(rel, a) + {IdsOf(sc, args)})
    ensures Named(sc, rel', a) == if remove then Named(sc, rel, a) - {args} else Named(sc, rel, a) + {args}
  {
    forall x: seq<string>
      ensures x in Named(sc, rel', a) <==>
          if remove then x in Named(sc, rel, a) && x != args else x in Named(sc, rel, a) || x == args
    {
      NamedFact(sc, rel, a, x);
      NamedFact(sc, rel', a, x);
      if Known(sc, x) {
        IdsInverse(sc, x);
        IdsInverse(sc, args);
      }
    }
  }

  // ----- Storage -----

  /** One state: for each predicate a buffer, or nothing for an empty relation. */
  type Slots = seq<Option<nat>>

  ghost predicate Pointed(heap: map<nat, seq<nat>>, slots: Slots) {
    forall i :: 0 <= i < |slots| && slots[i].Some? ==> slots[i].value in heap
  }

  function RelationOf(heap: map<nat, seq<nat>>, slots: Slots, i: nat): seq<nat>
    requires i < |slots| && (slots[i].Some? ==> slots[i].value in heap)
  {
    if slots[i].None? then [] else heap[slots[i].value]
  }

  ghost function Deref(heap: map<nat, seq<nat>>, slots: Slots): seq<seq<nat>>
    requires Pointed(heap, slots)
  {
    seq(|slots|, i requires 0 <= i < |slots| => RelationOf(heap, slots, i))
  }

  ghost predicate Stored(heap: map<nat, seq<nat>>, bases: map<nat, Slots>, fresh_: nat) {
    (forall g <- bases :: Pointed(heap, bases[g])) && forall p <- heap :: p < fresh_
  }

  ghost function ViewsOf(heap: map<nat, seq<nat>>, bases: map<nat, Slots>): map<nat, seq<seq<nat>>>
    requires forall g <- bases :: Pointed(heap, bases[g])
  {
    map g | g in bases :: Deref(heap, bases[g])
  }

  /** Does another slot hold the pointer of slot `i` of state `g`? */
  predicate Shared(bases: map<nat, Slots>, g: nat, i: nat)
    requires g in bases && i < |bases[g]|
  {
    exists h, j | h in bases && 0 <= j < |bases[h]| ::
        (h != g || j != i) && bases[h][j].Some? && bases[h][j] == bases[g][i]
  }

  function Repoint(bases: map<nat, Slots>, g: nat, i: nat, p: nat): map<nat, Slots>
    requires g in bases && i < |bases[g]|
  {
    bases[g := bases[g][i := Some(p)]]
  }

  function Allocate(heap: map<nat, seq<nat>>, p: nat, rel: seq<nat>): map<nat, seq<nat>> {
    heap[p := rel]
  }

  /** Pointing a slot at a fresh copy changes no state, and the slot then shares with none. */
  lemma DetachSame(heap: map<nat, seq<nat>>, bases: map<nat, Slots>, fresh_: nat, g: nat, i: nat)
    requires Stored(heap, bases, fresh_) && g in bases && i < |bases[g]|
    ensures var heap' := Allocate(heap, fresh_, RelationOf(heap, bases[g], i));
      var bases' := Repoint(bases, g, i, fresh_);
      Stored(heap', bases', fresh_ + 1) && ViewsOf(heap', bases') == ViewsOf(heap, bases) && !Shared(bases', g, i)
  {
    var heap' := Allocate(heap, fresh_, RelationOf(heap, bases[g], i));
    var bases' := Repoint(bases, g, i, fresh_);
    assert fresh_ !in heap;
    forall h | h in bases
      ensures Pointed(heap', bases'[h]) && Deref(heap', bases'[h]) == Deref(heap, bases[h])
    {
    }
    forall h, j | h in bases' && 0 <= j < |bases'[h]| && (h != g || j != i)
      ensures bases'[h][j] != Some(fresh_)
    {
      assert Pointed(heap, bases[h]);
    }
  }

  /** Writing to a buffer no other slot holds changes that relation of that state only. */
  lemma WriteOne(heap: map<nat, seq<nat>>, bases: map<nat, Slots>, fresh_: nat, g: nat, i: nat, rel: seq<nat>)
    requires Stored(heap, bases, fresh_) && g in bases && i < |bases[g]| && bases[g][i].Some? && !Shared(bases, g, i)
    ensures var heap' := Allocate(heap, bases[g][i].value, rel);
      Stored(heap', bases, fresh_) &&
      ViewsOf(heap', bases) == ViewsOf(heap, bases)[g := ViewsOf(heap, bases)[g][i := rel]]
  {
    var heap' := Allocate(heap, bases[g][i].value, rel);
    forall h | h in bases
      ensures Pointed(heap', bases[h])
      ensures Deref(heap', bases[h]) == if h == g then Deref(heap, bases[h])[i := rel] else Deref(heap, bases[h])
    {
      forall j | 0 <= j < |bases[h]| && (h != g || j != i)
        ensures RelationOf(heap', bases[h], j) == RelationOf(heap, bases[h], j)
      {
      }
    }
  }

  lemma BufferChange(sc: Schema, rel: seq<nat>, t: seq<nat>, off: nat, a: nat)
    requires BufferOk(sc, rel, a) && Ids(sc, t) && |t| == a
    ensures a == 0 && rel == [] ==> BufferOk(sc, [0], a) && FactsIn([0], a) == FactsIn(rel, a) + {t}
    ensures a == 0 ==> BufferOk(sc, [], a) && FactsIn([], a) == FactsIn(rel, a) - {t}
    ensures a > 0 && t !in FactsIn(rel, a) ==> BufferOk(sc, rel + t, a) && FactsIn(rel + t, a) == FactsIn(rel, a) + {t}
    ensures a > 0 && off + a <= |rel| && rel[off..off + a] == t && Whole(rel[..off], a) ==>
      BufferOk(sc, rel[..off] + rel[off + a..], a) && FactsIn(rel[..off] + rel[off + a..], a) == FactsIn(rel, a) - {t}
  {
    if a > 0 {
      if t !in FactsIn(rel, a) {
        Inserted(rel, t);
      }
      if off + a <= |rel| && rel[off..off + a] == t && Whole(rel[..off], a) {
        Erased(rel, t, off);
      }
    }
  }

  // ----- Beliefs -----

  type World = map<nat, map<string, Facts>>

  /** A world with one fact of one state added or removed. */
  function Told(w: World, g: nat, head: string, args: seq<string>, remove: bool): World
    requires g in w && head in w[g]
  {
    w[g := w[g][head := if remove then w[g][head] - {args} else w[g][head] + {args}]]
  }

  function CopiedTo(w: World, g: nat, h: nat): World
    requires g in w
  {
    w[h := w[g]]
  }

  ghost predicate ViewsOk(sc: Schema, views: map<nat, seq<seq<nat>>>) {
    forall g: nat :: g in views ==> ViewOk(sc, views[g])
  }

  ghost function WorldOf(sc: Schema, views: map<nat, seq<seq<nat>>>): (w: World)
    requires SchemaOk(sc) && ViewsOk(sc, views)
    ensures w.Keys == views.Keys && forall g <- w :: w[g].Keys == sc.predId.Keys
  {
    map g | g in views :: Believed(sc, views[g])
  }

  function SetRelation(views: map<nat, seq<seq<nat>>>, g: nat, p: nat, rel: seq<nat>): map<nat, seq<seq<nat>>>
    requires g in views && p < |views[g]|
  {
    views[g := views[g][p := rel]]
  }

  lemma BelievedChange(sc: Schema, v: seq<seq<nat>>, head: string, rel: seq<nat>)
    requires SchemaOk(sc) && ViewOk(sc, v) && head in sc.predId && BufferOk(sc, rel, sc.arity[sc.predId[head]])
    ensures var p := sc.predId[head];
      ViewOk(sc, v[p := rel]) && Believed(sc, v[p := rel]) == Believed(sc, v)[head := Named(sc, rel, sc.arity[p])]
  {
    hide BufferOk, Named;
  }

  /** Changing one buffer changes one predicate of one state. */
  lemma WorldChange(sc: Schema, views: map<nat, seq<seq<nat>>>, g: nat, head: string, rel: seq<nat>,
        args: seq<string>, remove: bool)
    requires SchemaOk(sc) && ViewsOk(sc, views) && g in views && head in sc.predId
    requires Known(sc, args) && |args| == sc.arity[sc.predId[head]] && BufferOk(sc, rel, |args|)
    requires sc.predId[head] < |views[g]|
    requires var was := FactsIn(views[g][sc.predId[head]], |args|);
      FactsIn(rel, |args|) == if remove then was - {IdsOf(sc, args)} else was + {IdsOf(sc, args)}
    ensures var views' := SetRelation(views, g, sc.predId[head], rel);
      ViewsOk(sc, views') && WorldOf(sc, views') == Told(WorldOf(sc, views), g, head, args, remove)
  {
    hide BufferOk, Named, FactsIn, Believed, ViewOk, ViewsOk, WorldOf, SetRelation;
    var p := sc.predId[head];
    ViewAt(sc, views, g);
    BufferAt(sc, views[g], p);
    BelievedChange(sc, views[g], head, rel);
    ViewsStayOk(sc, views, g, p, rel);
    NamedChange(sc, views[g][p], rel, |args|, args, remove);
    BelievedAt(sc, views[g], head);
    WorldSet(sc, views, g, p, rel);
  }

  lemma WorldSet(sc: Schema, views: map<nat, seq<seq<nat>>>, g: nat, p: nat, rel: seq<nat>)
    requires SchemaOk(sc) && ViewsOk(sc, views) && g in views && p < |views[g]|
    requires ViewsOk(sc, SetRelation(views, g, p, rel))
    requires |views[g]| == |sc.arity|
    ensures WorldOf(sc, views)[g] == Believed(sc, views[g])
    ensures WorldOf(sc, SetRelation(views, g, p, rel)) == WorldOf(sc, views)[g := Believed(sc, views[g][p := rel])]
  {
    hide SchemaOk, Believed, ViewOk;
  }

  lemma ViewsStayOk(sc: Schema, views: map<nat, seq<seq<nat>>>, g: nat, p: nat, rel: seq<nat>)
    requires ViewsOk(sc, views) && g in views && p < |sc.arity| && p < |views[g]| && BufferOk(sc, rel, sc.arity[p])
    ensures ViewsOk(sc, SetRelation(views, g, p, rel))
  {
    hide BufferOk;
    assert ViewOk(sc, views[g]);
  }

  lemma ViewAt(sc: Schema, views: map<nat, seq<seq<nat>>>, g: nat)
    requires ViewsOk(sc, views) && g in views
    ensures ViewOk(sc, views[g])
  {
  }

  lemma BufferAt(sc: Schema, v: seq<seq<nat>>, p: nat)
    requires ViewOk(sc, v) && p < |v|
    ensures |v| == |sc.arity| && BufferOk(sc, v[p], sc.arity[p])
  {
  }

  lemma BelievedAt(sc: Schema, v: seq<seq<nat>>, head: string)
    requires SchemaOk(sc) && |v| == |sc.arity| && head in sc.predId
    ensures head in Believed(sc, v) && Believed(sc, v)[head] == Named(sc, v[sc.predId[head]], sc.arity[sc.predId[head]])
  {
  }

  class Store {
    const schema: Schema
    var heap: map<nat, seq<nat>>
    var bases: map<nat, Slots>
    var nextPtr: nat
    var nextBase: nat

    ghost predicate Ok()
      reads this
    {
      && SchemaOk(schema) && Stored(heap, bases, nextPtr) && (forall g <- bases :: g < nextBase)
      && ViewsOk(schema, ViewsOf(heap, bases))
    }

    ghost function Views(): (v: map<nat, seq<seq<nat>>>)
      reads this
      requires Ok()
      ensures v.Keys == bases.Keys && forall g <- v :: |v[g]| == |bases[g]| == |schema.arity|
    {
      ViewsOf(heap, bases)
    }

    /** What every state believes. */
    ghost function World(): (w: World)
      reads this
      requires Ok()
      ensures w.Keys == bases.Keys && forall g <- w :: w[g].Keys == schema.predId.Keys
    {
      WorldOf(schema, ViewsOf(heap, bases))
    }

    method Copy(g: nat) returns (h: nat)
      requires Ok() && g in bases
      modifies this
      ensures Ok() && h !in old(bases) && World() == CopiedTo(old(World()), g, h)
    {
      h := nextBase;
      nextBase := nextBase + 1;
      bases := bases[h := bases[g]];
      assert ViewsOf(heap, bases) == old(Views())[h := old(Views())[g]];
    }

    /** The one way to get a relation to write to. */
    method RelationMut(g: nat, p: nat)
      requires Ok() && g in bases && p < |schema.arity|
      modifies this
      ensures Ok() && g in bases && Views() == old(Views())
      ensures p < |bases[g]| && bases[g][p].Some? && !Shared(bases, g, p)
    {
      assert |Views()[g]| == |schema.arity|;
      if bases[g][p].None? || Shared(bases, g, p) {
        DetachSame(heap, bases, nextPtr, g, p);
        heap := Allocate(heap, nextPtr, RelationOf(heap, bases[g], p));
        bases := Repoint(bases, g, p, nextPtr);
        nextPtr := nextPtr + 1;
      }
    }

    /** Detaches a relation, and then writes to it. */
    method Write(g: nat, p: nat, rel: seq<nat>)
      requires Ok() && g in bases && p < |schema.arity| && BufferOk(schema, rel, schema.arity[p])
      modifies this
      ensures Ok() && Views() == SetRelation(old(Views()), g, p, rel)
    {
      hide BufferOk, ViewsOk, ViewOk, Deref, SchemaOk;
      RelationMut(g, p);
      ViewsStayOk(schema, Views(), g, p, rel);
      WriteOne(heap, bases, nextPtr, g, p, rel);
      heap := Allocate(heap, bases[g][p].value, rel);
      assert ViewsOf(heap, bases) == SetRelation(old(Views()), g, p, rel);
    }

    method Buffer(g: nat, p: nat) returns (rel: seq<nat>)
      requires Ok() && g in bases && p < |schema.arity|
      ensures rel == Views()[g][p] && BufferOk(schema, rel, schema.arity[p])
    {
      ViewAt(schema, Views(), g);
      BufferAt(schema, Views()[g], p);
      rel := RelationOf(heap, bases[g], p);
    }

    /** Adds or removes one tuple, looking before it writes. */
    method SetTuple(g: nat, head: string, ghost args: seq<string>, t: seq<nat>, remove: bool)
      requires Ok() && g in bases && head in schema.predId && Known(schema, args) && t == IdsOf(schema, args)
      requires |t| == schema.arity[schema.predId[head]]
      modifies this
      ensures Ok() && World() == Told(old(World()), g, head, args, remove)
    {
      hide BufferOk, FactsIn, Stored, ViewsOf, ViewsOk, ViewOk, WorldOf, SetRelation;
      var p := schema.predId[head];
      var rel := Buffer(g, p);
      IdsInverse(schema, args);
      var changed, rel' := Change(schema, rel, t, schema.arity[p], remove);
      WorldChange(schema, Views(), g, head, rel', args, remove);
      if changed {
        Write(g, p, rel');
      } else {
        SameRelation(Views(), g, p);
      }
    }

    /** Adds or removes a fact by name; nothing changes when the predicate is unknown, is applied to
        the wrong number of arguments, or an argument is no object. */
    method SetFact(g: nat, head: string, args: seq<string>, remove: bool) returns (ok: bool)
      requires Ok() && g in bases
      modifies this
      ensures Ok()
      ensures ok == (head in schema.predId && |args| == schema.arity[schema.predId[head]] && Known(schema, args))
      ensures World() == if ok then Told(old(World()), g, head, args, remove) else old(World())
    {
      if head !in schema.predId || |args| != schema.arity[schema.predId[head]] || !Known(schema, args) {
        return false;
      }
      SetTuple(g, head, args, IdsOf(schema, args), remove);
      return true;
    }

    method Holds(g: nat, head: string, args: seq<string>) returns (b: bool)
      requires Ok() && g in bases
      ensures b <==> head in World()[g] && args in World()[g][head]
    {
      if head !in schema.predId {
        return false;
      }
      var rel := Buffer(g, schema.predId[head]);
      NamedFact(schema, rel, schema.arity[schema.predId[head]], args);
      BelievedHere(g, head);
      if |args| != schema.arity[schema.predId[head]] || !Known(schema, args) {
        return false;
      }
      var at := FindTuple(rel, IdsOf(schema, args), |args|);
      return at.Some?;
    }

    lemma BelievedHere(g: nat, head: string)
      requires Ok() && g in bases && head in schema.predId
      ensures World()[g][head] == Named(schema, Views()[g][schema.predId[head]], schema.arity[schema.predId[head]])
    {
    }

    method CountFacts(g: nat, head: string) returns (n: nat)
      requires Ok() && g in bases
      ensures n == if head in World()[g] then |World()[g][head]| else 0
    {
      if head !in schema.predId {
        return 0;
      }
      var rel := Buffer(g, schema.predId[head]);
      var a := schema.arity[schema.predId[head]];
      BelievedHere(g, head);
      CountNamed(schema, rel, a);
      return if a == 0 then (if |rel| > 0 then 1 else 0) else |rel| / a;
    }

    method FactsOf(g: nat, head: string) returns (out: seq<seq<string>>)
      requires Ok() && g in bases
      ensures Distinct(out) && (set args | args in out) == if head in World()[g] then World()[g][head] else {}
    {
      if head !in schema.predId {
        return [];
      }
      var rel := Buffer(g, schema.predId[head]);
      BelievedHere(g, head);
      out := ListNames(schema, rel, schema.arity[schema.predId[head]]);
    }
  }

  lemma SameRelation(views: map<nat, seq<seq<nat>>>, g: nat, p: nat)
    requires g in views && p < |views[g]|
    ensures SetRelation(views, g, p, views[g][p]) == views
  {
    assert views[g][p := views[g][p]] == views[g];
  }

  /** The buffer with a tuple added or removed, and whether it differs. */
  method Change(sc: Schema, rel: seq<nat>, t: seq<nat>, a: nat, remove: bool) returns (changed: bool, r: seq<nat>)
    requires BufferOk(sc, rel, a) && Ids(sc, t) && |t| == a
    ensures BufferOk(sc, r, a) && FactsIn(r, a) == if remove then FactsIn(rel, a) - {t} else FactsIn(rel, a) + {t}
    ensures !changed ==> r == rel
  {
    hide FactsIn, Tidy, Whole, Ids;
    var at := FindTuple(rel, t, a);
    BufferChange(sc, rel, t, if at.Some? then at.value else 0, a);
    if remove {
      if at.Some? {
        return true, if a == 0 then [] else rel[..at.value] + rel[at.value + a..];
      }
    } else if at.None? {
      if a == 0 {
        EmptyUnit(rel);
      }
      return true, if a == 0 then [0] else rel + t;
    }
    return false, rel;
  }

  lemma EmptyUnit(rel: seq<nat>)
    requires [] !in FactsIn(rel, 0)
    ensures rel == []
  {
  }

  function NameList(sc: Schema, ts: seq<seq<nat>>): seq<seq<string>>
    requires forall i :: 0 <= i < |ts| ==> Ids(sc, ts[i])
  {
    seq(|ts|, i requires 0 <= i < |ts| => NamesOf(sc, ts[i]))
  }

  lemma NamesApart(sc: Schema, ts: seq<seq<nat>>)
    requires SchemaOk(sc) && Distinct(ts) && forall i :: 0 <= i < |ts| ==> Ids(sc, ts[i])
    ensures Distinct(NameList(sc, ts))
  {
    forall i, j | 0 <= i < j < |ts|
      ensures NamesOf(sc, ts[i]) != NamesOf(sc, ts[j])
    {
      NamesInverse(sc, ts[i]);
      NamesInverse(sc, ts[j]);
    }
  }

  /** The names of a buffer's tuples are the facts, each once. */
  lemma ListNamed(sc: Schema, rel: seq<nat>, a: nat)
    requires SchemaOk(sc) && BufferOk(sc, rel, a) && a > 0
    ensures forall i :: 0 <= i < |Tuples(rel, a)| ==> Ids(sc, Tuples(rel, a)[i])
    ensures Distinct(NameList(sc, Tuples(rel, a))) && (set n | n in NameList(sc, Tuples(rel, a))) == Named(sc, rel, a)
  {
    hide Ids, NamesOf, Whole;
    FactIds(sc, rel, a);
    var ts := Tuples(rel, a);
    assert forall i :: 0 <= i < |ts| ==> ts[i] in FactsIn(rel, a);
    NamesApart(sc, ts);
    forall n | n in Named(sc, rel, a)
      ensures n in NameList(sc, ts)
    {
      var t :| t in FactsIn(rel, a) && Ids(sc, t) && NamesOf(sc, t) == n;
      var i :| 0 <= i < |ts| && ts[i] == t;
      assert NameList(sc, ts)[i] == n;
    }
  }

  lemma UnitNamed(sc: Schema, rel: seq<nat>)
    ensures Named(sc, rel, 0) == if rel == [] then {} else {[]}
  {
    assert rel != [] ==> NamesOf(sc, []) == [];
    assert rel != [] ==> Ids(sc, []) && [] in FactsIn(rel, 0);
  }

  lemma CountNamed(sc: Schema, rel: seq<nat>, a: nat)
    requires SchemaOk(sc) && BufferOk(sc, rel, a)
    ensures |Named(sc, rel, a)| == if a == 0 then (if |rel| > 0 then 1 else 0) else |rel| / a
  {
    if a == 0 {
      UnitNamed(sc, rel);
    } else {
      ListNamed(sc, rel, a);
      DistinctCount(NameList(sc, Tuples(rel, a)));
      TupleShape(rel, a);
      Quotient(|rel|, a, |Tuples(rel, a)|);
    }
  }

  lemma {:induction false} TimesMono(x: nat, y: nat, a: nat)
    requires x <= y
    ensures x * a <= y * a
  {
    if x < y {
      TimesMono(x, y - 1, a);
      assert y * a == (y - 1) * a + a;
    }
  }

  lemma Remainder(n: nat, a: nat)
    requires a > 0
    ensures 0 <= n - a * (n / a) < a
  {
  }

  lemma Quotient(n: nat, a: nat, k: nat)
    requires a > 0 && n == a * k
    ensures n / a == k
  {
    var q := n / a;
    Remainder(n, a);
    if q < k {
      TimesMono(q + 1, k, a);
    }
    if q > k {
      TimesMono(k + 1, q, a);
    }
  }

  /** A buffer's facts in order, by name. */
  method ListNames(sc: Schema, rel: seq<nat>, a: nat) returns (out: seq<seq<string>>)
    requires SchemaOk(sc) && BufferOk(sc, rel, a)
    ensures Distinct(out) && (set args | args in out) == Named(sc, rel, a)
  {
    if a == 0 {
      UnitNamed(sc, rel);
      return if rel != [] then [[]] else [];
    }
    ListNamed(sc, rel, a);
    ghost var ts := Tuples(rel, a);
    out := [];
    var off := 0;
    assert rel[0..] == rel;
    while off + a <= |rel|
      invariant off <= |rel| && |out| <= |ts| && Tuples(rel[off..], a) == ts[|out|..]
      invariant out == NameList(sc, ts)[..|out|]
    {
      assert rel[off..][..a] == rel[off..off + a] && rel[off..][a..] == rel[off + a..];
      assert ts[|out|] == ts[|out|..][0] == rel[off..off + a];
      assert Ids(sc, ts[|out|]);
      out := out + [NamesOf(sc, rel[off..off + a])];
      off := off + a;
    }
    assert ts[|out|..] == [];
  }
}
