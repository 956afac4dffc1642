/** Sequence recognisers (rtl_designs/problem_compiler.py): the states of a machine that recognises
    bit sequences are their prefixes, and where it goes on a bit is the longest suffix of what it has
    matched that is again a prefix, found by failure links. A state may also hold on a bit. */
module Recogniser {
  import B = Basics

  type Word = seq<bool>

  ghost predicate Suffix(s: Word, w: Word) {
    |s| <= |w| && w[|w| - |s|..] == s
  }

  // ----- The longest suffix among the prefixes -----

  /** The prefixes hold the empty word and, with a word, all of its own prefixes. */
  ghost predicate PrefixClosed(p: set<Word>) {
    [] in p && forall x <- p :: x != [] ==> x[..|x| - 1] in p
  }

  function Longest(p: set<Word>, w: Word): Word {
    if w in p || w == [] then w else Longest(p, w[1..])
  }

  ghost predicate IsLongest(p: set<Word>, w: Word, s: Word) {
    s in p && Suffix(s, w) && forall t <- p :: Suffix(t, w) ==> |t| <= |s|
  }

  lemma SuffixTail(t: Word, w: Word)
    requires w != []
    ensures Suffix(t, w[1..]) ==> Suffix(t, w)
    ensures Suffix(t, w) && t != w ==> Suffix(t, w[1..])
  {
    if |t| < |w| {
      assert w[1..][|w| - 1 - |t|..] == w[|w| - |t|..];
    }
  }

  lemma {:induction false} LongestIs(p: set<Word>, w: Word)
    requires [] in p
    ensures IsLongest(p, w, Longest(p, w))
  {
    if w !in p && w != [] {
      LongestIs(p, w[1..]);
      SuffixTail(Longest(p, w[1..]), w);
      forall t | t in p && Suffix(t, w)
        ensures |t| <= |Longest(p, w)|
      {
        SuffixTail(t, w);
      }
    }
  }

  lemma LongestUnique(p: set<Word>, w: Word, s: Word)
    requires [] in p && IsLongest(p, w, s)
    ensures s == Longest(p, w)
  {
    LongestIs(p, w);
  }

  lemma SuffixSnoc(s: Word, w: Word, b: bool)
    ensures Suffix(s, w) ==> Suffix(s + [b], w + [b])
    ensures s != [] && Suffix(s, w + [b]) ==> s == s[..|s| - 1] + [b] && Suffix(s[..|s| - 1], w)
  {
    if Suffix(s, w) {
      assert (w + [b])[|w| - |s|..] == s + [b];
    }
    if s != [] && Suffix(s, w + [b]) {
      var k := |w| + 1 - |s|;
      assert (w + [b])[k..] == w[k..] + [b];
      assert s[..|s| - 1] == w[k..];
    }
  }

  lemma SuffixTrans(s: Word, t: Word, w: Word)
    requires Suffix(t, w)
    ensures Suffix(s, t) ==> Suffix(s, w)
    ensures Suffix(s, w) && |s| <= |t| ==> Suffix(s, t)
  {
    if |s| <= |t| {
      assert w[|w| - |t|..][|t| - |s|..] == w[|w| - |s|..];
    }
  }

  /** Matching one more bit only ever needs the longest match so far. */
  lemma LongestSnoc(p: set<Word>, w: Word, b: bool)
    requires PrefixClosed(p)
    ensures Longest(p, Longest(p, w) + [b]) == Longest(p, w + [b])
  {
    var m, s := Longest(p, w), Longest(p, w + [b]);
    LongestIs(p, w);
    LongestIs(p, w + [b]);
    SuffixSnoc(m, w, b);
    SuffixSnoc(s, w, b);
    assert Suffix(s, m + [b]) by {
      if s != [] {
        SuffixTrans(s[..|s| - 1], m, w);
        SuffixSnoc(s[..|s| - 1], m, b);
      }
    }
    forall t | t in p && Suffix(t, m + [b])
      ensures |t| <= |s|
    {
      SuffixTrans(t, m + [b], w + [b]);
    }
    LongestUnique(p, m + [b], s);
  }

  // ----- The machine -----

  type Holding = set<(Word, bool)>

  /** Where the machine goes: it stays where it holds, and otherwise keeps the longest match. */
  function Delta(p: set<Word>, holding: Holding, x: Word, b: bool): Word {
    if (x, b) in holding then x else Longest(p, x + [b])
  }

  function Run(p: set<Word>, holding: Holding, x: Word, u: Word): Word {
    if u == [] then x else Delta(p, holding, Run(p, holding, x, u[..|u| - 1]), u[|u| - 1])
  }

  /** The bits of `u` that are not read while holding. */
  function Kept(p: set<Word>, holding: Holding, x: Word, u: Word): Word {
    if u == [] then []
    else
      var v, b := u[..|u| - 1], u[|u| - 1];
      Kept(p, holding, x, v) + (if (Run(p, holding, x, v), b) in holding then [] else [b])
  }

  lemma EmptyPrefix(p: set<Word>)
    requires PrefixClosed(p)
    ensures [] in p
  {
  }

  lemma Parent(p: set<Word>, x: Word)
    requires PrefixClosed(p) && x in p && x != []
    ensures x[..|x| - 1] in p
  {
  }

  /** The state is the longest suffix, among the prefixes, of everything read but what was held. */
  lemma {:induction false} RunIsLongest(p: set<Word>, holding: Holding, x: Word, u: Word)
    requires PrefixClosed(p) && x in p
    ensures Run(p, holding, x, u) == Longest(p, x + Kept(p, holding, x, u))
  {
    hide PrefixClosed;
    EmptyPrefix(p);
    if u == [] {
      assert x + [] == x;
    } else {
      var v, b := u[..|u| - 1], u[|u| - 1];
      RunIsLongest(p, holding, x, v);
      var k := Kept(p, holding, x, v);
      if (Run(p, holding, x, v), b) in holding {
        assert x + (k + []) == x + k;
      } else {
        assert x + (k + [b]) == (x + k) + [b];
        LongestSnoc(p, x + k, b);
      }
    }
  }

  lemma {:induction false} KeptAll(p: set<Word>, x: Word, u: Word)
    ensures Kept(p, {}, x, u) == u
  {
    if u != [] {
      KeptAll(p, x, u[..|u| - 1]);
      assert u == u[..|u| - 1] + [u[|u| - 1]];
    }
  }

  /** Of the prefixes, only the sequence itself ends in it. */
  ghost predicate EndsOne(p: set<Word>, w: Word) {
    w in p && forall x <- p :: Suffix(w, x) ==> x == w
  }

  /** An output's state is reached exactly when what was read and not held, after the start prefix,
      ends in the output's sequence. */
  lemma OutputReached(p: set<Word>, holding: Holding, start: Word, u: Word, w: Word)
    requires PrefixClosed(p) && start in p && EndsOne(p, w)
    ensures Run(p, holding, start, u) == w <==> Suffix(w, start + Kept(p, holding, start, u))
  {
    var z := start + Kept(p, holding, start, u);
    RunIsLongest(p, holding, start, u);
    LongestIs(p, z);
    if Suffix(w, z) {
      SuffixTrans(w, Longest(p, z), z);
    }
  }

  /** Without holds that is everything read. */
  lemma OutputReachedPlain(p: set<Word>, start: Word, u: Word, w: Word)
    requires PrefixClosed(p) && start in p && EndsOne(p, w)
    ensures Run(p, {}, start, u) == w <==> Suffix(w, start + u)
  {
    OutputReached(p, {}, start, u, w);
    KeptAll(p, start, u);
  }

  // ----- Failure links -----

  /** Links lead to shorter prefixes, as far as they have been computed. */
  ghost predicate Linked(p: set<Word>, fail: map<Word, Word>, n: nat) {
    forall x <- p :: x != [] && |x| < n ==> x in fail && fail[x] in p && |fail[x]| < |x|
  }

  /** Where the code goes: the bit is tried at the prefix, and then along its links. */
  function Step(p: set<Word>, holding: Holding, fail: map<Word, Word>, x: Word, b: bool): Word
    requires x in p && Linked(p, fail, |x| + 1)
    decreases |x|
  {
    if (x, b) in holding then x
    else if x + [b] in p then x + [b]
    else if x == [] then []
    else Step(p, holding, fail, fail[x], b)
  }

  /** Every link is the longest proper suffix. */
  ghost predicate Sound(p: set<Word>, fail: map<Word, Word>, n: nat) {
    forall x <- p :: x != [] && |x| < n ==> x in fail && fail[x] == Longest(p, x[1..])
  }

  lemma SoundLinked(p: set<Word>, fail: map<Word, Word>, n: nat)
    requires [] in p && Sound(p, fail, n)
    ensures Linked(p, fail, n)
  {
    forall x | x in p && x != [] && |x| < n
      ensures x in fail && fail[x] in p && |fail[x]| < |x|
    {
      LongestIs(p, x[1..]);
    }
  }

  /** What holds is a sequence that only one prefix ends in. */
  ghost predicate HoldsOk(p: set<Word>, holding: Holding) {
    forall h <- holding :: EndsOne(p, h.0)
  }

  /** Away from its own state a hold is never met: a proper suffix of a prefix holds on nothing. */
  lemma NoHoldBelow(p: set<Word>, holding: Holding, x: Word, y: Word, b: bool)
    requires HoldsOk(p, holding) && x in p && Suffix(y, x) && y != x
    ensures (y, b) !in holding
  {
  }

  /** The next shorter suffix of `x` in `p`: the longest of its tail. */
  lemma LongestPast(p: set<Word>, x: Word, b: bool)
    requires PrefixClosed(p) && x in p && x != [] && x + [b] !in p
    ensures Longest(p, x + [b]) == Longest(p, Longest(p, x[1..]) + [b])
  {
    assert (x + [b])[1..] == x[1..] + [b];
    LongestSnoc(p, x[1..], b);
  }

  /** Following links gives the longest suffix, when the start is not held on the bit. */
  lemma {:induction false} StepIsLongest(p: set<Word>, holding: Holding, fail: map<Word, Word>, x: Word, b: bool)
    requires PrefixClosed(p) && HoldsOk(p, holding) && x in p && Sound(p, fail, |x| + 1) && Linked(p, fail, |x| + 1)
    requires (x, b) !in holding
    ensures Step(p, holding, fail, x, b) == Longest(p, x + [b])
    decreases |x|
  {
    if x + [b] in p {
    } else if x == [] {
      assert [] + [b] == [b] && [b][1..] == [];
    } else {
      LongestPast(p, x, b);
      LongestIs(p, x[1..]);
      SuffixTail(fail[x], x);
      NoHoldBelow(p, holding, x, fail[x], b);
      StepIsLongest(p, holding, fail, fail[x], b);
    }
  }

  /** Links computed from the links of shorter prefixes are right, holds or not. */
  lemma NextLink(p: set<Word>, holding: Holding, fail: map<Word, Word>, x: Word)
    requires PrefixClosed(p) && HoldsOk(p, holding) && x in p && x != [] && Sound(p, fail, |x|)
    ensures |x| == 1 ==> Longest(p, x[1..]) == []
    ensures |x| > 1 ==> var y, b := x[..|x| - 1], x[|x| - 1];
      y in p && y in fail && fail[y] in p && Linked(p, fail, |fail[y]| + 1) && Step(p, holding, fail, fail[y], b) ==
          Longest(p, x[1..])
  {
    hide Longest, Step, PrefixClosed, HoldsOk;
    EmptyPrefix(p);
    LongestIs(p, x[1..]);
    if |x| > 1 {
      var y, b := x[..|x| - 1], x[|x| - 1];
      Parent(p, x);
      LongestIs(p, y[1..]);
      SuffixTail(fail[y], y);
      SoundLinked(p, fail, |fail[y]| + 1);
      NoHoldBelow(p, holding, y, fail[y], b);
      StepIsLongest(p, holding, fail, fail[y], b);
      LongestSnoc(p, y[1..], b);
      TailSnoc(x);
    }
  }

  lemma TailSnoc(x: Word)
    requires |x| > 1
    ensures x[..|x| - 1][1..] + [x[|x| - 1]] == x[1..]
  {
  }

  // ----- The prefixes the machine can be in -----

  function Elements(ws: seq<Word>): set<Word> {
    set w | w in ws
  }

  /** Each prefix once, shortest first. */
  ghost predicate Listed(ws: seq<Word>) {
    forall i, j :: 0 <= i < j < |ws| ==> ws[i] != ws[j] && |ws[i]| <= |ws[j]|
  }

  /** The first `i` prefixes have their links. */
  ghost predicate LinksTo(prefixes: seq<Word>, fail: map<Word, Word>, i: nat) {
    forall j :: 0 <= j < i && j < |prefixes| && prefixes[j] != [] ==>
        prefixes[j] in fail && fail[prefixes[j]] == Longest(Elements(prefixes), prefixes[j][1..])
  }

  /** The links, shortest prefix first. */
  method Links(prefixes: seq<Word>, holding: Holding) returns (fail: map<Word, Word>)
    requires Listed(prefixes) && PrefixClosed(Elements(prefixes)) && HoldsOk(Elements(prefixes), holding)
    ensures forall n: nat :: Sound(Elements(prefixes), fail, n)
  {
    hide Longest, Step, PrefixClosed, HoldsOk, Sound, Linked, LinksTo, Listed;
    fail := map[];
    NoLinks(prefixes, fail);
    for i := 0 to |prefixes|
      invariant LinksTo(prefixes, fail, i)
    {
      var x := prefixes[i];
      if x == [] {
        MoreLinks(prefixes, fail, fail, i);
      } else {
        SoundSoFar(prefixes, fail, i);
        NextLink(Elements(prefixes), holding, fail, x);
        var link := if |x| == 1 then [] else Step(Elements(prefixes), holding, fail, fail[x[..|x| - 1]], x[|x| - 1]);
        MoreLinks(prefixes, fail, fail[x := link], i);
        fail := fail[x := link];
      }
    }
    AllSound(prefixes, fail);
  }

  lemma NoLinks(prefixes: seq<Word>, fail: map<Word, Word>)
    ensures LinksTo(prefixes, fail, 0)
  {
  }

  lemma MoreLinks(prefixes: seq<Word>, fail: map<Word, Word>, fail': map<Word, Word>, i: nat)
    requires Listed(prefixes) && i < |prefixes| && LinksTo(prefixes, fail, i)
    requires prefixes[i] == [] ==> fail' == fail
    requires prefixes[i] != [] ==> fail' == fail[prefixes[i] := Longest(Elements(prefixes), prefixes[i][1..])]
    ensures LinksTo(prefixes, fail', i + 1)
  {
    hide Longest;
  }

  lemma SoundSoFar(prefixes: seq<Word>, fail: map<Word, Word>, i: nat)
    requires Listed(prefixes) && i < |prefixes| && LinksTo(prefixes, fail, i)
    ensures prefixes[i] in Elements(prefixes) && Sound(Elements(prefixes), fail, |prefixes[i]|)
  {
    hide Longest;
    forall x | x in Elements(prefixes) && x != [] && |x| < |prefixes[i]|
      ensures x in fail && fail[x] == Longest(Elements(prefixes), x[1..])
    {
      var j :| 0 <= j < |prefixes| && prefixes[j] == x;
      assert j < i;
    }
  }

  lemma AllSound(prefixes: seq<Word>, fail: map<Word, Word>)
    requires LinksTo(prefixes, fail, |prefixes|)
    ensures forall n: nat :: Sound(Elements(prefixes), fail, n)
  {
    hide Longest;
  }

  ghost predicate Reachable(p: set<Word>, holding: Holding, start: Word, x: Word) {
    exists u: Word :: Run(p, holding, start, u) == x
  }

  lemma ReachStep(p: set<Word>, holding: Holding, start: Word, x: Word, b: bool)
    requires Reachable(p, holding, start, x)
    ensures Reachable(p, holding, start, Delta(p, holding, x, b))
  {
    var u: Word :| Run(p, holding, start, u) == x;
    assert (u + [b])[..|u|] == u;
    assert Run(p, holding, start, u + [b]) == Delta(p, holding, x, b);
  }

  ghost predicate Closed(p: set<Word>, holding: Holding, seen: set<Word>, todo: seq<Word>) {
    forall x, b :: x in seen && x !in todo ==> Delta(p, holding, x, b) in seen
  }

  lemma {:induction false} ClosedHoldsRuns(p: set<Word>, holding: Holding, seen: set<Word>, start: Word, u: Word)
    requires Closed(p, holding, seen, []) && start in seen
    ensures Run(p, holding, start, u) in seen
  {
    if u != [] {
      ClosedHoldsRuns(p, holding, seen, start, u[..|u| - 1]);
    }
  }

  lemma DeltaIn(p: set<Word>, holding: Holding, x: Word, b: bool)
    requires PrefixClosed(p) && x in p
    ensures Delta(p, holding, x, b) in p
  {
    LongestIs(p, x + [b]);
  }

  /** What the machine does from a prefix, by its links. */
  lemma StepIsDelta(p: set<Word>, holding: Holding, fail: map<Word, Word>, x: Word, b: bool)
    requires PrefixClosed(p) && HoldsOk(p, holding) && x in p && Sound(p, fail, |x| + 1)
    ensures Linked(p, fail, |x| + 1) && Step(p, holding, fail, x, b) == Delta(p, holding, x, b)
  {
    SoundLinked(p, fail, |x| + 1);
    if (x, b) !in holding {
      StepIsLongest(p, holding, fail, x, b);
    }
  }

  /** The prefixes the machine can be in, from `start`: exactly those some input leads to. */
  method ReachablePrefixes(prefixes: seq<Word>, holding: Holding, start: Word) returns (seen: set<Word>)
    requires Listed(prefixes) && PrefixClosed(Elements(prefixes)) && HoldsOk(Elements(prefixes), holding)
    requires start in prefixes
    ensures forall x :: x in seen <==> Reachable(Elements(prefixes), holding, start, x)
    ensures seen <= Elements(prefixes)
  {
    hide Step, Delta, Longest, PrefixClosed, HoldsOk, Sound, Linked;
    var p := Elements(prefixes);
    var fail := Links(prefixes, holding);
    seen := {start};
    var todo := [start];
    assert Run(p, holding, start, []) == start;
    while todo != []
      invariant (forall x <- todo :: x in seen) && start in seen && seen <= p
      invariant forall x <- seen :: Reachable(p, holding, start, x)
      invariant Closed(p, holding, seen, todo)
      decreases |p - seen|, |todo|
    {
      var x := todo[|todo| - 1];
      seen, todo := VisitBoth(p, holding, fail, start, seen, todo[..|todo| - 1], x);
    }
    forall x | Reachable(p, holding, start, x)
      ensures x in seen
    {
      var u: Word :| Run(p, holding, start, u) == x;
      ClosedHoldsRuns(p, holding, seen, start, u);
    }
  }

  /** One bit from one prefix: where it leads is seen, and is visited if it is new. */
  method Visit(p: set<Word>, holding: Holding, fail: map<Word, Word>, ghost start: Word, seen: set<Word>,
        todo: seq<Word>, x: Word, b: bool)
      returns (seen': set<Word>, todo': seq<Word>)
    requires PrefixClosed(p) && HoldsOk(p, holding) && x in p && (forall n: nat :: Sound(p, fail, n))
    requires x in seen && seen <= p && (forall y <- todo :: y in seen)
    requires forall y <- seen :: Reachable(p, holding, start, y)
    ensures seen' == seen + {Delta(p, holding, x, b)} && seen' <= p
    ensures (forall y <- todo' :: y in seen') && forall y <- seen' :: Reachable(p, holding, start, y)
    ensures if seen' == seen then todo' == todo
        else todo' == todo + [Delta(p, holding, x, b)] && |p - seen'| < |p - seen|
  {
    hide Step, Delta, Longest, PrefixClosed, HoldsOk, Sound, Linked, Reachable;
    StepIsDelta(p, holding, fail, x, b);
    DeltaIn(p, holding, x, b);
    ReachStep(p, holding, start, x, b);
    var y := Step(p, holding, fail, x, b);
    seen', todo' := seen, todo;
    if y !in seen {
      Fewer(p, seen, y);
      seen', todo' := seen + {y}, todo + [y];
    }
  }

  /** Both bits from a prefix, which is then done with. */
  method VisitBoth(p: set<Word>, holding: Holding, fail: map<Word, Word>, ghost start: Word, seen: set<Word>,
        todo: seq<Word>, x: Word)
      returns (seen': set<Word>, todo': seq<Word>)
    requires PrefixClosed(p) && HoldsOk(p, holding) && x in p && (forall n: nat :: Sound(p, fail, n))
    requires x in seen && seen <= p && (forall y <- todo :: y in seen)
    requires forall y <- seen :: Reachable(p, holding, start, y)
    requires Closed(p, holding, seen, todo + [x])
    ensures seen <= seen' <= p && (forall y <- todo' :: y in seen')
    ensures forall y <- seen' :: Reachable(p, holding, start, y)
    ensures Closed(p, holding, seen', todo')
    ensures (seen' == seen && todo' == todo) || |p - seen'| < |p - seen|
  {
    hide Delta, Longest, PrefixClosed, HoldsOk, Sound, Reachable;
    seen', todo' := Visit(p, holding, fail, start, seen, todo, x, false);
    seen', todo' := Visit(p, holding, fail, start, seen', todo', x, true);
    forall y, b | y in seen' && y !in todo'
      ensures Delta(p, holding, y, b) in seen'
    {
      if y != x {
        assert y !in todo + [x];
        assert y in seen;
      }
    }
  }

  lemma Fewer(p: set<Word>, seen: set<Word>, y: Word)
    requires y in p && y !in seen
    ensures |p - (seen + {y})| < |p - seen|
  {
    assert p - seen == (p - (seen + {y})) + {y};
  }

  // ----- Expanding a recogniser -----

  predicate Lex(x: Word, y: Word) {
    x != [] && y != [] && ((!x[0] && y[0]) || (x[0] == y[0] && Lex(x[1..], y[1..])))
  }

  /** Shorter first, and then in the order of the bits. */
  predicate Less(x: Word, y: Word) {
    |x| < |y| || (|x| == |y| && Lex(x, y))
  }

  ghost predicate Sorted(ws: seq<Word>) {
    forall i, j :: 0 <= i < j < |ws| ==> Less(ws[i], ws[j])
  }

  lemma {:induction false} LexTrans(x: Word, y: Word, z: Word)
    requires Lex(x, y) && Lex(y, z)
    ensures Lex(x, z)
    decreases |x|
  {
    if x[0] == y[0] && y[0] == z[0] {
      LexTrans(x[1..], y[1..], z[1..]);
    }
  }

  lemma {:induction false} LexTotal(x: Word, y: Word)
    requires |x| == |y| && x != y
    ensures Lex(x, y) || Lex(y, x)
    decreases |x|
  {
    if x[0] == y[0] {
      assert x == [x[0]] + x[1..] && y == [y[0]] + y[1..];
      LexTotal(x[1..], y[1..]);
    }
  }

  lemma {:induction false} LexIrreflexive(x: Word)
    ensures !Lex(x, x)
  {
    if x != [] {
      LexIrreflexive(x[1..]);
    }
  }

  lemma LessOrder(x: Word, y: Word, z: Word)
    ensures Less(x, y) && Less(y, z) ==> Less(x, z)
    ensures x != y ==> Less(x, y) || Less(y, x)
    ensures !Less(x, x)
  {
    if |x| == |y| == |z| && Lex(x, y) && Lex(y, z) {
      LexTrans(x, y, z);
    }
    if |x| == |y| && x != y {
      LexTotal(x, y);
    }
    LexIrreflexive(x);
  }

  lemma SortedListed(ws: seq<Word>)
    requires Sorted(ws)
    ensures Listed(ws)
  {
    forall i, j | 0 <= i < j < |ws|
      ensures ws[i] != ws[j] && |ws[i]| <= |ws[j]|
    {
      assert Less(ws[i], ws[j]);
      LessOrder(ws[i], ws[i], ws[i]);
    }
  }

  method Insert(ws: seq<Word>, x: Word) returns (r: seq<Word>)
    requires Sorted(ws)
    ensures Sorted(r) && Elements(r) == Elements(ws) + {x}
  {
    hide Less;
    var k := 0;
    while k < |ws| && Less(ws[k], x)
      invariant k <= |ws| && forall i :: 0 <= i < k ==> Less(ws[i], x)
    {
      k := k + 1;
    }
    if k < |ws| && ws[k] == x {
      return ws;
    }
    r := ws[..k] + [x] + ws[k..];
    if k < |ws| {
      LessOrder(ws[k], x, x);
      forall j | k <= j < |ws|
        ensures Less(x, ws[j])
      {
        LessOrder(x, ws[k], ws[j]);
      }
    }
    assert Elements(r) == Elements(ws) + {x} by {
      assert ws == ws[..k] + ws[k..];
    }
  }

  /** Every prefix of these words. */
  ghost predicate IsPrefix(ws: seq<Word>, x: Word) {
    exists w :: w in ws && x <= w
  }

  ghost predicate IsPrefixSet(ws: seq<Word>, p: set<Word>) {
    forall x: Word :: x in p <==> IsPrefix(ws, x)
  }

  lemma PrefixesClosed(ws: seq<Word>, p: set<Word>)
    requires ws != [] && IsPrefixSet(ws, p)
    ensures PrefixClosed(p)
  {
    assert ws[0] in ws && IsPrefix(ws, []);
    forall x | x in p && x != []
      ensures x[..|x| - 1] in p
    {
      var w :| w in ws && x <= w;
      assert x[..|x| - 1] <= w && IsPrefix(ws, x[..|x| - 1]);
    }
  }

  lemma PrefixSnoc(ws: seq<Word>, w: Word, x: Word)
    ensures IsPrefix(ws + [w], x) <==> IsPrefix(ws, x) || x <= w
  {
    assert w in ws + [w] && forall v <- ws :: v in ws + [w];
  }

  method Prefixes(ws: seq<Word>) returns (ps: seq<Word>)
    ensures Sorted(ps) && IsPrefixSet(ws, Elements(ps))
  {
    ps := [];
    for i := 0 to |ws|
      invariant Sorted(ps) && forall x: Word :: x in ps <==> IsPrefix(ws[..i], x)
    {
      ghost var was := ps;
      var w := ws[i];
      for k := 0 to |w| + 1
        invariant Sorted(ps) && forall x: Word :: x in ps <==> x in was || (x <= w && |x| < k)
      {
        ghost var before := ps;
        ps := Insert(ps, w[..k]);
        assert forall x: Word :: x in ps <==> x in Elements(ps);
        assert forall x: Word :: x in before <==> x in Elements(before);
        assert forall x: Word :: x <= w && |x| == k ==> x == w[..k];
      }
      assert ws[..i + 1] == ws[..i] + [w];
      forall x: Word
        ensures IsPrefix(ws[..i + 1], x) <==> IsPrefix(ws[..i], x) || x <= w
      {
        PrefixSnoc(ws[..i], w, x);
      }
    }
    assert ws[..|ws|] == ws;
  }

  /** What a file states of a recogniser: each output with its sequence, the outputs that stay while
      a bit keeps coming, and the bit the machine starts as though it had just read. A bit is
      missing where the file gives something that is no bit. */
  datatype Stated =
    Stated(sequences: seq<(string, Word)>, keeps: seq<(string, B.Option<bool>)>, previous: B.Option<B.Option<bool>>)

  datatype Outcome = Untouched | Invalid |
    Machine(prefixes: seq<Word>, start: Word, holding: Holding, listed: seq<Word>, names: map<Word, StateName>)

  function Words(sequences: seq<(string, Word)>): seq<Word> {
    seq(|sequences|, i requires 0 <= i < |sequences| => sequences[i].1)
  }

  function HoldingOf(y: Stated): Holding {
    set r, k | r in y.sequences && k in y.keeps && r.0 == k.0 && k.1.Some? :: (r.1, k.1.value)
  }

  function StartOf(y: Stated): Word {
    if y.previous.Some? && y.previous.value.Some? then [y.previous.value.value] else []
  }

  /** Some output with this sequence is stated to stay on this bit. */
  ghost predicate StatedToHold(y: Stated, w: Word, b: bool) {
    exists i, j :: 0 <= i < |y.sequences| && 0 <= j < |y.keeps| &&
      y.sequences[i] == (y.keeps[j].0, w) && y.keeps[j].1 == B.Some(b)
  }

  lemma HoldingMeans(y: Stated, w: Word, b: bool)
    ensures (w, b) in HoldingOf(y) <==> StatedToHold(y, w, b)
  {
    if (w, b) in HoldingOf(y) {
      var r, k :| r in y.sequences && k in y.keeps && r.0 == k.0 && k.1.Some? && (r.1, k.1.value) == (w, b);
      var i :| 0 <= i < |y.sequences| && y.sequences[i] == r;
      var j :| 0 <= j < |y.keeps| && y.keeps[j] == k;
      assert y.sequences[i] == (y.keeps[j].0, w);
    }
    if StatedToHold(y, w, b) {
      var i, j :| 0 <= i < |y.sequences| && 0 <= j < |y.keeps| &&
        y.sequences[i] == (y.keeps[j].0, w) && y.keeps[j].1 == B.Some(b);
      assert y.sequences[i] in y.sequences && y.keeps[j] in y.keeps;
    }
  }

  lemma StartMeans(y: Stated, p: set<Word>)
    requires y.previous.Some? ==> y.previous.value.Some? && StartOf(y) in p
    ensures y.previous.None? ==> StartOf(y) == []
    ensures y.previous.Some? ==> y.previous.value.Some? && StartOf(y) == [y.previous.value.value]
  {
  }

  /** What the expansion can express: the sequences' states have different names, each sequence
      ends one prefix, what is kept is a recognised output on a bit, some sequence begins with the bit
      before the start, and every sequence can complete. */
  ghost predicate Expressible(y: Stated, p: set<Word>, upper: string -> string) {
    && NamesApart(y, upper)
    && (forall r <- y.sequences :: EndsOne(p, r.1))
    && (forall k <- y.keeps :: k.1.Some? && exists r :: r in y.sequences && r.0 == k.0)
    && (y.previous.Some? ==> y.previous.value.Some? && StartOf(y) in p)
    && (forall r <- y.sequences :: Reachable(p, HoldingOf(y), StartOf(y), r.1))
  }

  /** The states listed: the start first, then the others the machine can be in, in order. */
  ghost predicate States(p: set<Word>, holding: Holding, start: Word, listed: seq<Word>) {
    && listed != [] && listed[0] == start && start !in listed[1..] && Sorted(listed[1..])
    && forall x :: x in listed <==> Reachable(p, holding, start, x)
  }

  method EndsOnce(prefixes: seq<Word>, sequences: seq<(string, Word)>) returns (ok: bool)
    requires Sorted(prefixes) && forall r <- sequences :: r.1 in prefixes
    ensures ok <==> forall r <- sequences :: EndsOne(Elements(prefixes), r.1)
  {
    for i := 0 to |sequences|
      invariant forall j :: 0 <= j < i ==> EndsOne(Elements(prefixes), sequences[j].1)
    {
      var w := sequences[i].1;
      for k := 0 to |prefixes|
        invariant forall j :: 0 <= j < k && Suffix(w, prefixes[j]) ==> prefixes[j] == w
      {
        if |w| <= |prefixes[k]| && prefixes[k][|prefixes[k]| - |w|..] == w && prefixes[k] != w {
          assert sequences[i] in sequences && prefixes[k] in Elements(prefixes);
          return false;
        }
      }
      assert sequences[i] in sequences;
    }
    return true;
  }

  predicate KeepsOk(y: Stated) {
    forall k <- y.keeps :: k.1.Some? && exists r <- y.sequences :: r.0 == k.0
  }

  lemma HoldingEnds(y: Stated, p: set<Word>)
    requires forall r <- y.sequences :: EndsOne(p, r.1)
    ensures HoldsOk(p, HoldingOf(y))
  {
    hide EndsOne;
  }

  method ListStates(prefixes: seq<Word>, reachable: set<Word>, start: Word) returns (listed: seq<Word>)
    requires Sorted(prefixes) && start in reachable && reachable <= Elements(prefixes)
    ensures listed != [] && listed[0] == start && start !in listed[1..] && Sorted(listed[1..])
    ensures forall x :: x in listed <==> x in reachable
  {
    hide Less;
    var rest: seq<Word> := [];
    for i := 0 to |prefixes|
      invariant Sorted(rest) && forall x :: x in rest <==> x in prefixes[..i] && x in reachable && x != start
    {
      assert forall x <- rest :: Less(x, prefixes[i]) by {
        forall x | x in rest
          ensures Less(x, prefixes[i])
        {
          var j :| 0 <= j < i && prefixes[j] == x;
        }
      }
      if prefixes[i] in reachable && prefixes[i] != start {
        rest := rest + [prefixes[i]];
      }
      assert prefixes[..i + 1] == prefixes[..i] + [prefixes[i]];
    }
    assert prefixes[..|prefixes|] == prefixes;
    listed := [start] + rest;
    assert listed[1..] == rest;
  }

  // ----- The names of the states -----

  /** `S_` and the outputs whose sequence has just completed, or `M` and how many bits are matched, with
      a letter where several prefixes are as long. */
  datatype StateName = Flag(name: string) | Matched(bits: nat, letter: B.Option<nat>)

  /** The outputs with this sequence, as they are spelt in a name. */
  function Outs(sequences: seq<(string, Word)>, x: Word, upper: string -> string): seq<string> {
    if sequences == [] then []
    else (if sequences[0].1 == x then [upper(sequences[0].0)] else []) + Outs(sequences[1..], x, upper)
  }

  function Underscored(names: seq<string>): string {
    if names == [] then "" else if |names| == 1 then names[0] else names[0] + "_" + Underscored(names[1..])
  }

  /** The prefixes of one length that complete no sequence, in order. */
  function Group(prefixes: seq<Word>, sequences: seq<(string, Word)>, upper: string -> string, n: nat): seq<Word> {
    if prefixes == [] then []
    else
      var last := prefixes[|prefixes| - 1];
      Group(prefixes[..|prefixes| - 1], sequences, upper, n) +
          (if |last| == n && Outs(sequences, last, upper) == [] then [last] else [])
  }

  /** The name of one prefix. */
  ghost predicate IsName(prefixes: seq<Word>, sequences: seq<(string, Word)>, upper: string -> string, x: Word,
        n: StateName) {
    var outs, group := Outs(sequences, x, upper), Group(prefixes, sequences, upper, |x|);
    if outs != [] then n == Flag(Underscored(outs))
    else exists j: nat :: j < |group| && group[j] == x && n == Matched(|x|, if |group| > 1 then B.Some(j) else B.None)
  }

  function FlagOf(y: Stated, x: Word, upper: string -> string): string {
    Underscored(Outs(y.sequences, x, upper))
  }

  /** Different sequences give different names. */
  ghost predicate NamesApart(y: Stated, upper: string -> string) {
    forall r <- y.sequences, q <- y.sequences :: FlagOf(y, r.1, upper) == FlagOf(y, q.1, upper) ==> r.1 == q.1
  }

  lemma {:induction false} GroupHas(prefixes: seq<Word>, sequences: seq<(string, Word)>, upper: string -> string,
        n: nat)
    ensures forall x :: x in Group(prefixes, sequences, upper, n) <==>
        x in prefixes && |x| == n && Outs(sequences, x, upper) == []
  {
    if prefixes != [] {
      var init, last := prefixes[..|prefixes| - 1], prefixes[|prefixes| - 1];
      assert prefixes == init + [last];
      GroupHas(init, sequences, upper, n);
    }
  }

  lemma {:induction false} OutsHas(sequences: seq<(string, Word)>, x: Word, upper: string -> string)
    ensures Outs(sequences, x, upper) != [] <==> exists r :: r in sequences && r.1 == x
  {
    if sequences != [] {
      OutsHas(sequences[1..], x, upper);
      assert sequences == [sequences[0]] + sequences[1..];
    }
  }

  type Groups = map<nat, seq<Word>>

  ghost predicate Grouped(prefixes: seq<Word>, sequences: seq<(string, Word)>, upper: string -> string,
        groups: Groups) {
    forall n: nat :: Group(prefixes, sequences, upper, n) == if n in groups then groups[n] else []
  }

  /** `state_names`: the sequences' states by their outputs, and the rest by length. */
  method StateNames(prefixes: seq<Word>, sequences: seq<(string, Word)>, upper: string -> string)
      returns (names: map<Word, StateName>)
    requires Listed(prefixes)
    ensures names.Keys == Elements(prefixes) && forall x <- prefixes :: IsName(prefixes, sequences, upper, x, names[x])
  {
    hide Outs, Group, Underscored;
    var groups: Groups;
    names, groups := FlagNames(prefixes, sequences, upper);
    GroupsLeft(prefixes, sequences, upper, groups);
    var todo := groups.Keys;
    while todo != {}
      invariant todo <= groups.Keys
      invariant forall x :: x in names <==> x in prefixes && (Outs(sequences, x, upper) != [] || |x| !in todo)
      invariant forall x <- names :: IsName(prefixes, sequences, upper, x, names[x])
      decreases todo
    {
      var n :| n in todo;
      names := NameGroup(prefixes, sequences, upper, groups, n, names);
      todo := todo - {n};
    }
    assert forall x :: x in names <==> x in Elements(prefixes);
  }

  lemma GroupsLeft(prefixes: seq<Word>, sequences: seq<(string, Word)>, upper: string -> string, groups: Groups)
    requires Grouped(prefixes, sequences, upper, groups)
    ensures forall x <- prefixes :: Outs(sequences, x, upper) == [] ==> |x| in groups
  {
    forall x | x in prefixes && Outs(sequences, x, upper) == []
      ensures |x| in groups
    {
      GroupHas(prefixes, sequences, upper, |x|);
    }
  }

  method FlagNames(prefixes: seq<Word>, sequences: seq<(string, Word)>, upper: string -> string)
      returns (names: map<Word, StateName>, groups: Groups)
    ensures forall x :: x in names <==> x in prefixes && Outs(sequences, x, upper) != []
    ensures forall x <- names :: names[x] == Flag(Underscored(Outs(sequences, x, upper)))
    ensures Grouped(prefixes, sequences, upper, groups)
  {
    hide Outs, Underscored, Grouped;
    names, groups := map[], map[];
    NoneGrouped(sequences, upper);
    for i := 0 to |prefixes|
      invariant forall x :: x in names <==> x in prefixes[..i] && Outs(sequences, x, upper) != []
      invariant forall x <- names :: names[x] == Flag(Underscored(Outs(sequences, x, upper)))
      invariant Grouped(prefixes[..i], sequences, upper, groups)
    {
      var x := prefixes[i];
      var outs := Outs(sequences, x, upper);
      assert prefixes[..i + 1] == prefixes[..i] + [x];
      GroupedSnoc(prefixes[..i], sequences, upper, groups, x);
      if outs != [] {
        names := names[x := Flag(Underscored(outs))];
      } else {
        groups := WithMember(groups, x);
      }
    }
    assert prefixes[..|prefixes|] == prefixes;
  }

  function WithMember(groups: Groups, x: Word): Groups {
    groups[|x| := (if |x| in groups then groups[|x|] else []) + [x]]
  }

  lemma NoneGrouped(sequences: seq<(string, Word)>, upper: string -> string)
    ensures Grouped([], sequences, upper, map[])
  {
  }

  /** One more prefix. */
  lemma GroupedSnoc(init: seq<Word>, sequences: seq<(string, Word)>, upper: string -> string, groups: Groups, x: Word)
    requires Grouped(init, sequences, upper, groups)
    ensures Grouped(init + [x], sequences, upper,
                    if Outs(sequences, x, upper) != [] then groups else WithMember(groups, x))
  {
    hide Outs;
    assert (init + [x])[..|init|] == init;
    forall n: nat
      ensures Group(init + [x], sequences, upper, n) ==
              Group(init, sequences, upper, n) + if |x| == n && Outs(sequences, x, upper) == [] then [x] else []
    {
    }
  }

  method NameGroup(prefixes: seq<Word>, sequences: seq<(string, Word)>, upper: string -> string, groups: Groups,
        n: nat, names: map<Word, StateName>)
      returns (names': map<Word, StateName>)
    requires Listed(prefixes) && Grouped(prefixes, sequences, upper, groups) && n in groups
    requires forall x <- names :: IsName(prefixes, sequences, upper, x, names[x])
    ensures forall x :: x in names' <==> x in names || (x in prefixes && |x| == n && Outs(sequences, x, upper) == [])
    ensures forall x <- names' :: IsName(prefixes, sequences, upper, x, names'[x])
  {
    hide Outs, Group, Underscored;
    var group := groups[n];
    GroupHas(prefixes, sequences, upper, n);
    assert group == Group(prefixes, sequences, upper, n);
    names' := names;
    for j := 0 to |group|
      invariant forall x :: x in names' <==> x in names || x in group[..j]
      invariant forall x <- names' :: IsName(prefixes, sequences, upper, x, names'[x])
    {
      var x := group[j];
      assert x in group && |x| == n;
      var name := Matched(n, if |group| > 1 then B.Some(j) else B.None);
      assert IsName(prefixes, sequences, upper, x, name);
      names' := names'[x := name];
      assert group[..j + 1] == group[..j] + [x];
    }
    assert group[..|group|] == group;
  }

  /** The names differ exactly when those of the sequences do. */
  lemma NamesDiffer(y: Stated, ps: seq<Word>, upper: string -> string, names: map<Word, StateName>)
    requires Listed(ps) && names.Keys == Elements(ps) && (forall r <- y.sequences :: r.1 in ps)
    requires forall x <- ps :: IsName(ps, y.sequences, upper, x, names[x])
    ensures (forall x, z :: x in names && z in names && names[x] == names[z] ==> x == z) <==> NamesApart(y, upper)
  {
    hide Outs, Group, Underscored;
    if NamesApart(y, upper) {
      forall x, z | x in names && z in names && names[x] == names[z]
        ensures x == z
      {
        assert IsName(ps, y.sequences, upper, x, names[x]) && IsName(ps, y.sequences, upper, z, names[z]);
        OutsHas(y.sequences, x, upper);
        OutsHas(y.sequences, z, upper);
        GroupHas(ps, y.sequences, upper, |x|);
      }
    }
    if forall x, z :: x in names && z in names && names[x] == names[z] ==> x == z {
      forall r, q | r in y.sequences && q in y.sequences && FlagOf(y, r.1, upper) == FlagOf(y, q.1, upper)
        ensures r.1 == q.1
      {
        OutsHas(y.sequences, r.1, upper);
        OutsHas(y.sequences, q.1, upper);
        assert IsName(ps, y.sequences, upper, r.1, names[r.1]) && IsName(ps, y.sequences, upper, q.1, names[q.1]);
        assert r.1 in names && q.1 in names;
      }
    }
  }

  /** Names are counted to see that none is used twice. */
  lemma {:induction false} AllDiffer(names: map<Word, StateName>)
    ensures |names.Values| <= |names|
    ensures |names.Values| == |names| <==> forall x, z :: x in names && z in names && names[x] == names[z] ==> x == z
    decreases |names|
  {
    if names != map[] {
      var x :| x in names;
      var rest := names - {x};
      assert names.Keys == rest.Keys + {x};
      assert names.Values == rest.Values + {names[x]};
      AllDiffer(rest);
      if names[x] in rest.Values {
        assert names.Values == rest.Values;
        var z :| z in rest && rest[z] == names[x];
        assert z in names && z != x && names[z] == names[x];
      } else {
        assert |names.Values| == |rest.Values| + 1;
      }
    }
  }

  /** Each state's name, all different. */
  ghost predicate WellNamed(y: Stated, ps: seq<Word>, upper: string -> string, names: map<Word, StateName>) {
    && names.Keys == Elements(ps) && (forall x <- ps :: IsName(ps, y.sequences, upper, x, names[x]))
    && forall x, z :: x in names && z in names && names[x] == names[z] ==> x == z
  }

  method NameStates(y: Stated, ps: seq<Word>, upper: string -> string) returns (ok: bool, names: map<Word, StateName>)
    requires Listed(ps) && forall r <- y.sequences :: r.1 in ps
    ensures ok <==> NamesApart(y, upper)
    ensures ok ==> WellNamed(y, ps, upper, names)
  {
    hide Listed, IsName, NamesApart;
    names := StateNames(ps, y.sequences, upper);
    NamesDiffer(y, ps, upper, names);
    AllDiffer(names);
    ok := |names.Values| == |names|;
  }

  /** A recogniser's states from its sequences, or a refusal of what the expansion cannot express. */
  method Expand(y: Stated, upper: string -> string) returns (r: Outcome)
    ensures r.Untouched? <==> y.sequences == []
    ensures r.Machine? ==> Sorted(r.prefixes) && IsPrefixSet(Words(y.sequences), Elements(r.prefixes))
    ensures r.Machine? ==>
      Expressible(y, Elements(r.prefixes), upper) && r.start == StartOf(y) && r.holding == HoldingOf(y)
    ensures r.Machine? ==> forall w: Word, b: bool :: (w, b) in r.holding <==> StatedToHold(y, w, b)
    ensures r.Machine? ==> y.previous.None? ==> r.start == []
    ensures r.Machine? ==> y.previous.Some? ==> y.previous.value.Some? && r.start == [y.previous.value.value]
    ensures r.Machine? ==> States(Elements(r.prefixes), r.holding, r.start, r.listed)
    ensures r.Machine? ==> WellNamed(y, r.prefixes, upper, r.names)
    ensures r.Invalid? ==> forall p: set<Word> :: IsPrefixSet(Words(y.sequences), p) ==> !Expressible(y, p, upper)
  {
    hide Reachable, Longest, EndsOne, IsPrefixSet, Sorted, PrefixClosed, HoldsOk, Less, StartOf, HoldingOf, Listed,
         WellNamed, NamesApart, StatedToHold;
    if y.sequences == [] {
      return Untouched;
    }
    var ps := Prefixes(Words(y.sequences));
    OnePrefixSet(Words(y.sequences), Elements(ps));
    SequencesIn(y, ps);
    SortedListed(ps);
    var apart, names := NameStates(y, ps, upper);
    if !apart {
      return Invalid;
    }
    var ends := EndsOnce(ps, y.sequences);
    if !ends || !KeepsOk(y) || (y.previous.Some? && (y.previous.value.None? || StartOf(y) !in ps)) {
      return Invalid;
    }
    HoldingEnds(y, Elements(ps));
    StartIn(y, Elements(ps));
    StartMeans(y, Elements(ps));
    forall w: Word, b: bool
      ensures (w, b) in HoldingOf(y) <==> StatedToHold(y, w, b)
    {
      HoldingMeans(y, w, b);
    }
    r := Reach(y, ps, names);
  }

  /** The last step: the states the machine can be in, every sequence among them. */
  method Reach(y: Stated, ps: seq<Word>, names: map<Word, StateName>) returns (r: Outcome)
    requires Sorted(ps) && PrefixClosed(Elements(ps)) && HoldsOk(Elements(ps), HoldingOf(y))
    requires StartOf(y) in Elements(ps)
    ensures r.Invalid? || (r.Machine? && r.prefixes == ps && r.start == StartOf(y) && r.holding ==
        HoldingOf(y) && r.names == names)
    ensures r.Invalid? <==> exists w :: w in y.sequences && !Reachable(Elements(ps), HoldingOf(y), StartOf(y), w.1)
    ensures r.Machine? ==> States(Elements(ps), r.holding, r.start, r.listed)
  {
    hide Reachable, Longest, EndsOne, Sorted, PrefixClosed, HoldsOk, Less, StartOf, HoldingOf;
    SortedListed(ps);
    var reachable := ReachablePrefixes(ps, HoldingOf(y), StartOf(y));
    StartReached(Elements(ps), HoldingOf(y), StartOf(y));
    var listed := ListStates(ps, reachable, StartOf(y));
    if exists w <- y.sequences :: w.1 !in reachable {
      return Invalid;
    }
    return Machine(ps, StartOf(y), HoldingOf(y), listed, names);
  }

  lemma OnePrefixSet(ws: seq<Word>, q: set<Word>)
    requires IsPrefixSet(ws, q)
    ensures forall p: set<Word> :: IsPrefixSet(ws, p) ==> p == q
  {
    forall p: set<Word> | IsPrefixSet(ws, p)
      ensures p == q
    {
      assert forall x: Word :: x in p <==> x in q;
    }
  }

  lemma SequencesIn(y: Stated, ps: seq<Word>)
    requires y.sequences != [] && IsPrefixSet(Words(y.sequences), Elements(ps))
    ensures forall r <- y.sequences :: r.1 in ps
    ensures PrefixClosed(Elements(ps))
  {
    var ws := Words(y.sequences);
    PrefixesClosed(ws, Elements(ps));
    forall r | r in y.sequences
      ensures r.1 in ps
    {
      var i :| 0 <= i < |y.sequences| && y.sequences[i] == r;
      assert ws[i] in ws && r.1 <= ws[i];
      assert IsPrefix(ws, r.1);
      assert r.1 in Elements(ps);
    }
  }

  lemma StartIn(y: Stated, p: set<Word>)
    requires PrefixClosed(p) && (y.previous.Some? ==> y.previous.value.Some? && StartOf(y) in p)
    ensures StartOf(y) in p
  {
  }

  lemma StartReached(p: set<Word>, holding: Holding, start: Word)
    ensures Reachable(p, holding, start, start)
  {
    assert Run(p, holding, start, []) == start;
  }
}
