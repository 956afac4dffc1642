/** Telling the variants of a loop's body apart (eval/lift_loops.py, `tell`): literals about the
    element and its context that hold before every row of one variant and before no row of another. */
module Variants {

  datatype Fact = Fact(pred: string, args: seq<string>)

  /** An argument of a literal: a variable, a constant of the domain, or "some object". */
  datatype Arg = Var(name: string) | Const(name: string) | Some_

  datatype Literal = Literal(pred: string, args: seq<Arg>)

  const MODULE := "?m"
  const ELEMENT := "?e"

  /** A row: the values of the known variables, and the state before it. */
  datatype Row = Row(values: map<string, string>, state: set<Fact>)

  ghost predicate RowOk(r: Row, known: set<string>) {
    known <= r.values.Keys && MODULE in known && ELEMENT in known
  }

  ghost predicate RowsOk(rows: seq<Row>, known: set<string>) {
    forall i :: 0 <= i < |rows| ==> RowOk(rows[i], known)
  }

  // ----- What a literal says -----

  predicate ArgReads(row: Row, x: Arg, a: string) {
    match x
    case Var(v) => v in row.values && row.values[v] == a
    case Const(c) => c == a
    case Some_ => true
  }

  /** The fact is one the literal speaks of, "some object" standing for any. */
  predicate Reads(row: Row, l: Literal, f: Fact) {
    f.pred == l.pred && |f.args| == |l.args| && forall i :: 0 <= i < |l.args| ==> ArgReads(row, l.args[i], f.args[i])
  }

  /** The literal holds before the row: each "some object" is an existential of its own. */
  predicate Holds(row: Row, l: Literal) {
    exists f :: f in row.state && Reads(row, l, f)
  }

  /** A literal in the known variables and the constants, about more than the module. */
  ghost predicate Speaks(l: Literal, known: set<string>, constants: set<string>) {
    && (forall i :: 0 <= i < |l.args| ==>
        (l.args[i].Var? ==> l.args[i].name in known) && (l.args[i].Const? ==> l.args[i].name in constants))
    && exists i :: 0 <= i < |l.args| && l.args[i].Var? && l.args[i].name != MODULE
  }

  // ----- Collecting a row's literals -----

  /** The ways to read one argument of a fact. */
  function Choices(row: Row, known: set<string>, constants: set<string>, a: string): set<Arg>
    requires known <= row.values.Keys
  {
    (set v | v in known && row.values[v] == a :: Var(v)) + (if a in constants then {Const(a)} else {}) + {Some_}
  }

  function Product(row: Row, known: set<string>, constants: set<string>, args: seq<string>): set<seq<Arg>>
    requires known <= row.values.Keys
  {
    if args == [] then {[]}
    else set x, xs | x in Choices(row, known, constants, args[0]) && xs in Product(row, known, constants,
        args[1..]) :: [x] + xs
  }

  predicate AboutMore(args: seq<Arg>) {
    exists i :: 0 <= i < |args| && args[i].Var? && args[i].name != MODULE
  }

  /** A fact about the element, or about the context alone. */
  predicate Relevant(row: Row, known: set<string>, f: Fact)
    requires known <= row.values.Keys && ELEMENT in known
  {
    row.values[ELEMENT] in f.args || exists v :: v in known && v != MODULE && v != ELEMENT && row.values[v] in f.args
  }

  /** The literals that some fact of the row gives. */
  function Literals(row: Row, known: set<string>, constants: set<string>): set<Literal>
    requires known <= row.values.Keys && ELEMENT in known
  {
    set f, args | f in row.state && Relevant(row, known, f) && args in Product(row, known, constants, f.args) &&
        AboutMore(args)
      :: Literal(f.pred, args)
  }

  lemma {:induction false} ProductMeans(row: Row, known: set<string>, constants: set<string>, args: seq<string>,
        reading: seq<Arg>)
    requires known <= row.values.Keys
    ensures reading in Product(row, known, constants, args) <==>
            |reading| == |args| && forall i :: 0 <= i < |args| ==> reading[i] in Choices(row, known, constants, args[i])
  {
    if args != [] {
      if reading != [] {
        ProductMeans(row, known, constants, args[1..], reading[1..]);
        assert reading == [reading[0]] + reading[1..];
        assert forall i :: 1 <= i < |args| ==> args[i] == args[1..][i - 1];
        assert |reading| == |args| ==> forall i :: 1 <= i < |args| ==> reading[i] == reading[1..][i - 1];
      }
    }
  }

  /** The literals collected for a row are exactly those that hold before it. */
  lemma LiteralsExact(row: Row, known: set<string>, constants: set<string>, l: Literal)
    requires RowOk(row, known) && Speaks(l, known, constants)
    ensures l in Literals(row, known, constants) <==> Holds(row, l)
  {
    hide Product;
    forall f | f in row.state
      ensures Reads(row, l, f) <==> l.pred == f.pred && l.args in Product(row, known, constants, f.args)
      ensures Reads(row, l, f) ==> Relevant(row, known, f)
    {
      ProductMeans(row, known, constants, f.args, l.args);
      if Reads(row, l, f) {
        var i :| 0 <= i < |l.args| && l.args[i].Var? && l.args[i].name != MODULE;
        assert ArgReads(row, l.args[i], f.args[i]) && f.args[i] in f.args;
      }
    }
    if Holds(row, l) {
      var f :| f in row.state && Reads(row, l, f);
      assert l == Literal(f.pred, l.args) && AboutMore(l.args);
    }
  }

  lemma LiteralSpeaks(row: Row, known: set<string>, constants: set<string>, l: Literal)
    requires RowOk(row, known) && l in Literals(row, known, constants)
    ensures Speaks(l, known, constants)
  {
    hide Product;
    var f :| f in row.state && l.pred ==
        f.pred && l.args in Product(row, known, constants, f.args) && AboutMore(l.args);
    ProductMeans(row, known, constants, f.args, l.args);
    forall i | 0 <= i < |l.args|
      ensures (l.args[i].Var? ==> l.args[i].name in known) && (l.args[i].Const? ==> l.args[i].name in constants)
    {
      assert l.args[i] in Choices(row, known, constants, f.args[i]);
    }
  }

  // ----- Telling apart -----

  /** A literal, or its absence. */
  datatype Mark = Mark(literal: Literal, present: bool)

  predicate Meets(row: Row, m: Mark) {
    Holds(row, m.literal) == m.present
  }

  function Common(rows: seq<Row>, known: set<string>, constants: set<string>): set<Literal>
    requires rows != [] && RowsOk(rows, known)
  {
    if |rows| == 1 then Literals(rows[0], known, constants)
    else Literals(rows[0], known, constants) * Common(rows[1..], known, constants)
  }

  function Some(rows: seq<Row>, known: set<string>, constants: set<string>): set<Literal>
    requires RowsOk(rows, known)
  {
    if rows == [] then {} else Literals(rows[0], known, constants) + Some(rows[1..], known, constants)
  }

  /** What may be used: what every row of the variant has, present, and what only other rows have,
      absent. */
  function Candidates(mine: seq<Row>, others: seq<Row>, known: set<string>, constants: set<string>): set<Mark>
    requires mine != [] && RowsOk(mine, known) && RowsOk(others, known)
  {
    (set l | l in Common(mine, known, constants) :: Mark(l, true))
    + (set l | l in Some(others, known, constants) - Some(mine, known, constants) :: Mark(l, false))
  }

  lemma {:induction false} CommonMeans(rows: seq<Row>, known: set<string>, constants: set<string>, l: Literal)
    requires rows != [] && RowsOk(rows, known)
    ensures l in Common(rows, known, constants) <==> forall r <- rows :: l in Literals(r, known, constants)
  {
    hide Literals;
    if |rows| > 1 {
      CommonMeans(rows[1..], known, constants, l);
      assert forall r <- rows :: r == rows[0] || r in rows[1..];
    }
  }

  lemma {:induction false} SomeMeans(rows: seq<Row>, known: set<string>, constants: set<string>, l: Literal)
    requires RowsOk(rows, known)
    ensures l in Some(rows, known, constants) <==> exists r :: r in rows && l in Literals(r, known, constants)
  {
    hide Literals;
    if rows != [] {
      SomeMeans(rows[1..], known, constants, l);
      assert rows[0] in rows && (forall r <- rows[1..] :: r in rows) && forall r <- rows ::
          r == rows[0] || r in rows[1..];
    }
  }

  /** The candidates hold of every row of the variant, and are read alike in every other row. */
  lemma CandidateMeans(mine: seq<Row>, others: seq<Row>, known: set<string>, constants: set<string>, m: Mark)
    requires mine != [] && RowsOk(mine, known) && RowsOk(others, known)
    requires m in Candidates(mine, others, known, constants)
    ensures Speaks(m.literal, known, constants) && forall r <- mine :: Meets(r, m)
    ensures forall r <- others :: m.literal in Literals(r, known, constants) <==> Holds(r, m.literal)
  {
    hide Literals, Holds, Common, Some, Speaks;
    var l := m.literal;
    CommonMeans(mine, known, constants, l);
    SomeMeans(mine, known, constants, l);
    SomeMeans(others, known, constants, l);
    if m.present {
      LiteralSpeaks(mine[0], known, constants, l);
    } else {
      var r :| r in others && l in Literals(r, known, constants);
      LiteralSpeaks(r, known, constants, l);
    }
    forall r | r in mine || r in others
      ensures l in Literals(r, known, constants) <==> Holds(r, l)
    {
      LiteralsExact(r, known, constants, l);
    }
  }

  datatype Told = Cannot | Told(marks: seq<Mark>)

  /** Among the literals collected for the row, or not, as the mark says. */
  predicate Shows(row: Row, known: set<string>, constants: set<string>, m: Mark)
    requires known <= row.values.Keys && ELEMENT in known
  {
    (m.literal in Literals(row, known, constants)) == m.present
  }

  function Staying(rows: seq<Row>, known: set<string>, constants: set<string>, m: Mark): seq<Row>
    requires RowsOk(rows, known)
  {
    if rows == [] then []
        else (if Shows(rows[0], known, constants, m) then [rows[0]] else []) + Staying(rows[1..], known, constants, m)
  }

  lemma {:induction false} StayingMeans(rows: seq<Row>, known: set<string>, constants: set<string>, m: Mark)
    requires RowsOk(rows, known)
    requires forall r <- rows :: m.literal in Literals(r, known, constants) <==> Holds(r, m.literal)
    ensures RowsOk(Staying(rows, known, constants, m), known)
    ensures forall r :: r in Staying(rows, known, constants, m) <==> r in rows && Meets(r, m)
  {
    hide Holds, Literals;
    if rows != [] {
      StayingMeans(rows[1..], known, constants, m);
      assert rows == [rows[0]] + rows[1..];
    }
  }

  /** The candidates tried in an order, each kept if it rules out a row no earlier one did. */
  method Tell(mine: seq<Row>, others: seq<Row>, known: set<string>, constants: set<string>, order: seq<Mark>)
      returns (t: Told)
    requires mine != [] && RowsOk(mine, known) && RowsOk(others, known)
    requires forall m :: m in order <==> m in Candidates(mine, others, known, constants)
    ensures t.Told? ==> (forall r <- mine, m <- t.marks :: Meets(r, m)) && (forall r <- others :: exists m ::
        m in t.marks && !Meets(r, m))
    ensures t.Cannot? <==> exists r :: r in others && forall m <- Candidates(mine, others, known, constants) ::
        Meets(r, m)
  {
    hide Candidates, Literals, Meets, Holds;
    if others == [] {
      return Told([]);
    }
    var chosen: seq<Mark>, left := [], others;
    for i := 0 to |order|
      invariant left != [] && RowsOk(left, known) && forall m <- chosen :: m in order[..i]
      invariant forall r :: r in left <==> r in others && forall m <- chosen :: Meets(r, m)
      invariant forall r <- left, m <- order[..i] :: Meets(r, m)
    {
      var m := order[i];
      assert m in order;
      CandidateMeans(mine, others, known, constants, m);
      StayingMeans(left, known, constants, m);
      assert order[..i + 1] == order[..i] + [m];
      var rest := Staying(left, known, constants, m);
      if exists r <- left :: r !in rest {
        chosen := chosen + [m];
        left := rest;
        if left == [] {
          AllMeet(mine, others, known, constants, chosen);
          return Told(chosen);
        }
      }
    }
    assert order[..|order|] == order;
    assert left[0] in left;
    return Cannot;
  }

  lemma AllMeet(mine: seq<Row>, others: seq<Row>, known: set<string>, constants: set<string>, marks: seq<Mark>)
    requires mine != [] && RowsOk(mine, known) && RowsOk(others, known)
    requires forall m <- marks :: m in Candidates(mine, others, known, constants)
    ensures forall r <- mine, m <- marks :: Meets(r, m)
  {
    hide Candidates, Meets;
    forall m | m in marks
      ensures forall r <- mine :: Meets(r, m)
    {
      CandidateMeans(mine, others, known, constants, m);
    }
  }
}
