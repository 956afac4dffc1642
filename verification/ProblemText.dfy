/** Problem files as text (rtl_designs/problem_compiler.py, `parse_sexpr`, `read`, `emit`): what is
    emitted reads back as the problem it was. */
module ProblemText {
  import B = Basics

  // ----- Tokens -----

  predicate IsSpace(c: char) {
    '\t' <= c <= '\r' || '\U{1C}' <= c <= ' ' || c == '\U{85}' || c == '\U{A0}' || c == '\U{1680}'
    || '\U{2000}' <= c <= '\U{200A}' || c == '\U{2028}' || c == '\U{2029}' || c == '\U{202F}' || c == '\U{205F}'
    || c == '\U{3000}'
  }

  predicate IsParen(c: char) {
    c == '(' || c == ')'
  }

  predicate IsPlain(c: char) {
    !IsSpace(c) && !IsParen(c)
  }

  /** Comments taken out: from a semicolon to the end of its line. */
  function Strip(text: string): string {
    if text == "" then ""
    else if text[0] == ';' then StripLine(text[1..])
    else [text[0]] + Strip(text[1..])
  }

  function StripLine(text: string): string {
    if text == "" then ""
    else if text[0] == '\n' then "\n" + Strip(text[1..])
    else StripLine(text[1..])
  }

  /** The length of the run of plain characters a text starts with. */
  function PlainRun(text: string): (n: nat)
    ensures n <= |text| && (forall i :: 0 <= i < n ==> IsPlain(text[i])) && (n < |text| ==> !IsPlain(text[n]))
  {
    if text != "" && IsPlain(text[0]) then 1 + PlainRun(text[1..]) else 0
  }

  /** Parentheses, and runs of anything but parentheses and spaces. */
  function Tokens(text: string): seq<string>
    decreases |text|
  {
    if text == "" then []
    else if IsSpace(text[0]) then Tokens(text[1..])
    else if IsParen(text[0]) then [[text[0]]] + Tokens(text[1..])
    else
      var n := PlainRun(text);
      [text[..n]] + Tokens(text[n..])
  }

  // ----- S-expressions -----

  datatype Sexp = Atom(token: string) | List(items: seq<Sexp>)

  datatype Parsed = Unbalanced | Parsed(s: Sexp, pos: nat)
  datatype ParsedMany = UnbalancedMany | ParsedMany(items: seq<Sexp>, pos: nat)

  /** The expression that starts at a token, and where it ends. */
  function ParseOne(ts: seq<string>, pos: nat): (r: Parsed)
    ensures r.Parsed? ==> pos < r.pos <= |ts|
    decreases |ts| - pos, 0
  {
    if pos >= |ts| then Unbalanced
    else if ts[pos] == "(" then
      var m := ParseMany(ts, pos + 1);
      if m.UnbalancedMany? then Unbalanced else Parsed(List(m.items), m.pos)
    else if ts[pos] == ")" then Unbalanced
    else Parsed(Atom(ts[pos]), pos + 1)
  }

  /** The expressions up to the closing parenthesis, and past it. */
  function ParseMany(ts: seq<string>, pos: nat): (r: ParsedMany)
    ensures r.ParsedMany? ==> pos < r.pos <= |ts|
    decreases |ts| - pos, 1
  {
    if pos >= |ts| then UnbalancedMany
    else if ts[pos] == ")" then ParsedMany([], pos + 1)
    else
      var first := ParseOne(ts, pos);
      if first.Unbalanced? then UnbalancedMany
      else
        var rest := ParseMany(ts, first.pos);
        if rest.UnbalancedMany? then UnbalancedMany else ParsedMany([first.s] + rest.items, rest.pos)
  }

  /** The reader: a cursor over the tokens. */
  method ReadOne(ts: seq<string>, pos: nat) returns (r: Parsed)
    ensures r == ParseOne(ts, pos)
    decreases |ts| - pos
  {
    if pos >= |ts| {
      return Unbalanced;
    }
    if ts[pos] == "(" {
      var out: seq<Sexp>, at := [], pos + 1;
      while at < |ts| && ts[at] != ")"
        invariant pos < at <= |ts|
        invariant ParseMany(ts, pos + 1) == Prepended(out, ParseMany(ts, at))
        decreases |ts| - at
      {
        var x := ReadOne(ts, at);
        if x.Unbalanced? {
          return Unbalanced;
        }
        out := out + [x.s];
        at := x.pos;
      }
      if at >= |ts| {
        return Unbalanced;
      }
      assert out + [] == out;
      return Parsed(List(out), at + 1);
    }
    if ts[pos] == ")" {
      return Unbalanced;
    }
    return Parsed(Atom(ts[pos]), pos + 1);
  }

  function Prepended(items: seq<Sexp>, m: ParsedMany): ParsedMany {
    if m.UnbalancedMany? then m else ParsedMany(items + m.items, m.pos)
  }

  function Print(s: Sexp): seq<string> {
    match s
    case Atom(t) => [t]
    case List(items) => ["("] + PrintAll(items) + [")"]
  }

  function PrintAll(items: seq<Sexp>): seq<string> {
    if items == [] then [] else Print(items[0]) + PrintAll(items[1..])
  }

  /** No atom is a parenthesis. */
  ghost predicate Plain(s: Sexp) {
    match s
    case Atom(t) => t != "(" && t != ")"
    case List(items) => forall i :: 0 <= i < |items| ==> Plain(items[i])
  }

  /** Printing and reading an expression gives it back, whatever stands around it. */
  lemma {:induction false} ParsePrint(pre: seq<string>, s: Sexp, post: seq<string>)
    requires Plain(s)
    ensures ParseOne(pre + Print(s) + post, |pre|) == Parsed(s, |pre| + |Print(s)|)
    decreases s, 0
  {
    var ts := pre + Print(s) + post;
    match s
    case Atom(t) => assert ts[|pre|] == t;
    case List(items) =>
      assert ts[|pre|] == "(";
      var pre', post' := pre + ["("], [")"] + post;
      assert ts == pre' + PrintAll(items) + post';
      ParsePrintAll(pre', items, 0, post);
  }

  lemma {:induction false} ParsePrintAll(pre: seq<string>, items: seq<Sexp>, i: nat, post: seq<string>)
    requires i <= |items| && forall j :: 0 <= j < |items| ==> Plain(items[j])
    ensures ParseMany(pre + PrintAll(items[i..]) + ([")"] + post), |pre|) ==
        ParsedMany(items[i..], |pre| + |PrintAll(items[i..])| + 1)
    decreases items, |items| - i
  {
    hide Print, ParseOne, Plain;
    var ts := pre + PrintAll(items[i..]) + ([")"] + post);
    if i == |items| {
      assert ts[|pre|] == ")";
    } else {
      var x, rest := items[i], PrintAll(items[i + 1..]);
      assert items[i..][0] == x && items[i..][1..] == items[i + 1..];
      assert ts == pre + Print(x) + (rest + ([")"] + post));
      ParsePrint(pre, x, rest + ([")"] + post));
      assert ts == (pre + Print(x)) + rest + ([")"] + post);
      ParsePrintAll(pre + Print(x), items, i + 1, post);
      FirstToken(x);
      assert ts[|pre|] == Print(x)[0];
      assert items[i..] == [x] + items[i + 1..];
    }
  }

  lemma FirstToken(s: Sexp)
    requires Plain(s)
    ensures Print(s) != [] && Print(s)[0] != ")"
  {
  }

  // ----- Layout -----

  /** A piece of laid out text. */
  datatype Piece = Gap(n: nat) | Newline | Open | Close | Word(token: string)

  function Spell(p: Piece): string {
    match p
    case Gap(n) => seq(n, i requires 0 <= i < n => ' ')
    case Newline => "\n"
    case Open => "("
    case Close => ")"
    case Word(token) => token
  }

  function Text(ps: seq<Piece>): string {
    if ps == [] then "" else Spell(ps[0]) + Text(ps[1..])
  }

  function TokenOf(p: Piece): seq<string> {
    if p.Gap? || p.Newline? then [] else [Spell(p)]
  }

  function TokensOf(ps: seq<Piece>): seq<string> {
    if ps == [] then [] else TokenOf(ps[0]) + TokensOf(ps[1..])
  }

  /** A token a file can hold: not empty, no spaces, parentheses or semicolons. */
  ghost predicate Legal(token: string) {
    token != "" && forall i :: 0 <= i < |token| ==> IsPlain(token[i]) && token[i] != ';'
  }

  /** Words are legal, and no word runs into the next. */
  ghost predicate LaidOut(ps: seq<Piece>) {
    && (forall i :: 0 <= i < |ps| ==> PieceOk(ps[i]))
    && forall i :: 0 <= i < |ps| - 1 ==> !(ps[i].Word? && ps[i + 1].Word?)
  }

  ghost predicate PieceOk(p: Piece) {
    (p.Word? ==> Legal(p.token)) && (p.Gap? ==> p.n > 0)
  }

  lemma {:induction false} SkipGap(spaces: string, rest: string)
    requires forall j :: 0 <= j < |spaces| ==> IsSpace(spaces[j])
    ensures Tokens(spaces + rest) == Tokens(rest)
  {
    if spaces == "" {
      assert spaces + rest == rest;
    } else {
      assert (spaces + rest)[1..] == spaces[1..] + rest;
      SkipGap(spaces[1..], rest);
    }
  }

  lemma {:induction false} RunOf(word: string, rest: string)
    requires (forall j :: 0 <= j < |word| ==> IsPlain(word[j])) && (rest == "" || !IsPlain(rest[0]))
    ensures PlainRun(word + rest) == |word|
  {
    if word == "" {
      assert word + rest == rest;
    } else {
      assert (word + rest)[1..] == word[1..] + rest;
      RunOf(word[1..], rest);
    }
  }

  lemma TakeWord(word: string, rest: string)
    requires Legal(word) && (rest == "" || !IsPlain(rest[0]))
    ensures Tokens(word + rest) == [word] + Tokens(rest)
  {
    RunOf(word, rest);
    assert (word + rest)[..|word|] == word && (word + rest)[|word|..] == rest;
    assert (word + rest)[0] == word[0];
  }

  /** Laid out text has the tokens of its pieces. */
  lemma {:induction false} TokensOfText(ps: seq<Piece>)
    requires LaidOut(ps)
    ensures Tokens(Text(ps)) == TokensOf(ps)
  {
    hide Tokens, Legal;
    if ps == [] {
      NoTokens();
    } else {
      var rest := Text(ps[1..]);
      TokensOfText(ps[1..]);
      match ps[0]
      case Gap(_) => SkipGap(Spell(ps[0]), rest);
      case Newline => SkipGap("\n", rest);
      case Open => TakeParen('(', rest);
      case Close => TakeParen(')', rest);
      case Word(token) =>
        NotPlainNext(ps[1..]);
        TakeWord(token, rest);
    }
  }

  lemma NoTokens()
    ensures Tokens("") == []
  {
  }

  lemma TakeParen(c: char, rest: string)
    requires IsParen(c)
    ensures Tokens([c] + rest) == [[c]] + Tokens(rest)
  {
    assert ([c] + rest)[1..] == rest;
  }

  lemma NotPlainNext(ps: seq<Piece>)
    requires LaidOut(ps) && (ps == [] || !ps[0].Word?)
    ensures Text(ps) == "" || !IsPlain(Text(ps)[0])
  {
    if ps != [] && ps[0].Gap? {
      assert PieceOk(ps[0]) && Spell(ps[0])[0] == ' ';
    }
  }

  lemma {:induction false} NoComments(text: string)
    requires forall i :: 0 <= i < |text| ==> text[i] != ';'
    ensures Strip(text) == text
  {
    if text != "" {
      NoComments(text[1..]);
    }
  }

  lemma {:induction false} TextPlain(ps: seq<Piece>)
    requires LaidOut(ps)
    ensures forall i :: 0 <= i < |Text(ps)| ==> Text(ps)[i] != ';'
  {
    if ps != [] {
      TextPlain(ps[1..]);
    }
  }

  lemma {:induction false} TokensConcat(x: seq<Piece>, y: seq<Piece>)
    ensures TokensOf(x + y) == TokensOf(x) + TokensOf(y)
  {
    if x == [] {
      assert x + y == y;
    } else {
      assert (x + y)[1..] == x[1..] + y;
      TokensConcat(x[1..], y);
    }
  }

  lemma {:induction false} PrintConcat(x: seq<Sexp>, y: seq<Sexp>)
    ensures PrintAll(x + y) == PrintAll(x) + PrintAll(y)
  {
    if x == [] {
      assert x + y == y;
    } else {
      assert (x + y)[1..] == x[1..] + y;
      PrintConcat(x[1..], y);
    }
  }

  // ----- Problems -----

  datatype Problem = Problem(name: string, about: string, objects: seq<(seq<string>, string)>, facts: seq<seq<string>>)

  /** What reading finds: the name and the types are kept as the expressions they are. */
  datatype Reading =
    Unreadable | Reading(name: Sexp, about: string, objects: seq<(seq<string>, Sexp)>, facts: seq<seq<string>>)

  // ----- Emitting -----

  /** Tokens with a space between. */
  function Spaced(tokens: seq<string>): seq<Piece> {
    if tokens == [] then []
    else if |tokens| == 1 then [Word(tokens[0])]
    else [Word(tokens[0]), Gap(1)] + Spaced(tokens[1..])
  }

  function ObjectLine(o: (seq<string>, string)): seq<Piece> {
    [Gap(4)] + Spaced(o.0) + [Gap(1), Word("-"), Gap(1)] + [Word(o.1), Newline]
  }

  function FactLine(f: seq<string>): seq<Piece> {
    [Gap(4), Open] + Spaced(f) + [Close, Newline]
  }

  function ObjectLines(os: seq<(seq<string>, string)>): seq<Piece> {
    if os == [] then [] else ObjectLine(os[0]) + ObjectLines(os[1..])
  }

  function FactLines(fs: seq<seq<string>>): seq<Piece> {
    if fs == [] then [] else FactLine(fs[0]) + FactLines(fs[1..])
  }

  const DEFINE := [Open, Word("define"), Gap(1), Open, Word("problem"), Gap(1)]
  const DOMAIN := [Close, Newline, Gap(2), Open, Word(":domain"), Gap(1), Word("rtl_fsm"), Close, Newline]
  const OBJECTS := [Gap(2), Open, Word(":objects"), Newline]
  const HTN := [Gap(2), Close, Newline, Gap(2), Open, Word(":htn"), Newline]
  const PARAMETERS := [Gap(4), Word(":parameters"), Gap(1), Open, Close, Newline]
  const SUBTASKS := [Gap(4), Word(":subtasks"), Gap(1), Open, Word("and"), Gap(1)]
  const TASK := [Open, Word("implement_module"), Gap(1)]
  const TASK_END := [Close, Close, Newline, Gap(2), Close, Newline]
  const INIT := [Gap(2), Open, Word(":init"), Newline]
  const END := [Gap(2), Close, Newline, Close, Newline]

  function Head(p: Problem): seq<Piece> {
    DEFINE + [Word(p.name)] + DOMAIN + OBJECTS
  }

  function Middle(p: Problem): seq<Piece> {
    HTN + PARAMETERS + SUBTASKS + TASK + [Word(p.about)] + TASK_END + INIT
  }

  function Layout(p: Problem): seq<Piece> {
    Head(p) + ObjectLines(p.objects) + Middle(p) + FactLines(p.facts) + END
  }

  function Emit(p: Problem): string {
    Text(Layout(p))
  }

  // ----- Reading -----

  /** The last section with this head. */
  function Section(items: seq<Sexp>, key: string): (r: B.Option<seq<Sexp>>)
    ensures r.Some? ==> r.value != []
  {
    if items == [] then B.None
    else
      var later := Section(items[1..], key);
      if later.Some? then later
      else if items[0].List? && items[0].items != [] && items[0].items[0] == Atom(key) then B.Some(items[0].items)
      else B.None
  }

  datatype Listed = Malformed | Listed(objects: seq<(seq<string>, Sexp)>)

  /** The typed list: names up to a dash, and then their type. */
  function Scan(items: seq<Sexp>, i: nat, pending: seq<string>): Listed
    requires i <= |items|
    decreases |items| - i
  {
    if i == |items| then (if pending == [] then Listed([]) else Malformed)
    else if items[i] == Atom("-") && i + 1 < |items| then
      var rest := Scan(items, i + 2, []);
      if rest.Malformed? then rest else Listed([(pending, items[i + 1])] + rest.objects)
    else if items[i].List? then Malformed
    else Scan(items, i + 1, pending + [items[i].token])
  }

  method ScanObjects(items: seq<Sexp>) returns (r: Listed)
    ensures r == Scan(items, 0, [])
  {
    var objects: seq<(seq<string>, Sexp)>, pending: seq<string>, i := [], [], 0;
    while i < |items|
      invariant i <= |items| && Scan(items, 0, []) == Before(objects, Scan(items, i, pending))
    {
      if items[i] == Atom("-") && i + 1 < |items| {
        objects, pending, i := objects + [(pending, items[i + 1])], [], i + 2;
      } else {
        if items[i].List? {
          return Malformed;
        }
        pending, i := pending + [items[i].token], i + 1;
      }
    }
    if pending != [] {
      return Malformed;
    }
    assert objects + [] == objects;
    return Listed(objects);
  }

  function Before(objects: seq<(seq<string>, Sexp)>, r: Listed): Listed {
    if r.Malformed? then r else Listed(objects + r.objects)
  }

  /** The module of the first (implement_module ...) task under a node. */
  function FindTask(s: Sexp): B.Option<string>
    decreases s, 0
  {
    match s
    case Atom(_) => B.None
    case List(items) =>
      if |items| == 2 && items[0] == Atom("implement_module") && items[1].Atom? then B.Some(items[1].token)
      else FindIn(s, 0)
  }

  function FindIn(s: Sexp, i: nat): B.Option<string>
    requires s.List? && i <= |s.items|
    decreases s, 0, |s.items| - i
  {
    if i == |s.items| then B.None
    else
      var found := FindTask(s.items[i]);
      if found.Some? && found.value != "" then found else FindIn(s, i + 1)
  }

  predicate AllAtoms(items: seq<Sexp>) {
    forall i :: 0 <= i < |items| ==> items[i].Atom?
  }

  function TokensIn(items: seq<Sexp>): seq<string>
    requires AllAtoms(items)
  {
    seq(|items|, i requires 0 <= i < |items| => items[i].token)
  }

  /** The facts: the lists of tokens that are not empty. */
  function Facts(items: seq<Sexp>): seq<seq<string>> {
    if items == [] then []
    else (if items[0].List? && items[0].items != [] && AllAtoms(items[0].items) then [TokensIn(items[0].items)]
        else []) + Facts(items[1..])
  }

  function Named(objects: seq<(seq<string>, Sexp)>): seq<(seq<string>, Sexp)> {
    if objects == [] then [] else (if objects[0].0 == [] then [] else [objects[0]]) + Named(objects[1..])
  }

  function Interpret(tree: Sexp): Reading {
    if tree.Atom? || tree.items == [] || tree.items[0] != Atom("define") then Unreadable
    else
      var rest := tree.items[1..];
      var name, objects, htn, init := Section(rest, "problem"), Section(rest, ":objects"), Section(rest,
          ":htn"), Section(rest, ":init");
      if name.None? || objects.None? || htn.None? || init.None? then Unreadable
      else
        var listed := Scan(objects.value[1..], 0, []);
        var about := FindTask(List(htn.value));
        if listed.Malformed? || about.None? || about.value == "" then Unreadable
        else Reading(if |name.value| > 1 then name.value[1]
            else Atom("problem"), about.value, Named(listed.objects), Facts(init.value[1..]))
  }

  /** Comments out, tokens, the first expression, and what its sections say. */
  function ReadingOf(text: string): Reading {
    var one := ParseOne(Tokens(Strip(text)), 0);
    if one.Unbalanced? then Unreadable else Interpret(one.s)
  }

  /** `read`. */
  method Read(text: string) returns (r: Reading)
    ensures r == ReadingOf(text)
  {
    var one := ReadOne(Tokens(Strip(text)), 0);
    if one.Unbalanced? {
      return Unreadable;
    }
    var tree := one.s;
    if tree.Atom? || tree.items == [] || tree.items[0] != Atom("define") {
      return Unreadable;
    }
    var rest := tree.items[1..];
    var name, objects, htn, init := Section(rest, "problem"), Section(rest, ":objects"), Section(rest,
        ":htn"), Section(rest, ":init");
    if name.None? || objects.None? || htn.None? || init.None? {
      return Unreadable;
    }
    var listed := ScanObjects(objects.value[1..]);
    if listed.Malformed? {
      return Unreadable;
    }
    var about := FindTask(List(htn.value));
    if about.None? || about.value == "" {
      return Unreadable;
    }
    return Reading(if |name.value| > 1 then name.value[1]
        else Atom("problem"), about.value, Named(listed.objects), Facts(init.value[1..]));
  }

  // ----- The round trip -----

  ghost predicate LegalAll(tokens: seq<string>) {
    forall i :: 0 <= i < |tokens| ==> Legal(tokens[i])
  }

  /** A problem over legal tokens. */
  ghost predicate LegalProblem(p: Problem) {
    && Legal(p.name) && Legal(p.about)
    && (forall i :: 0 <= i < |p.objects| ==> LegalAll(p.objects[i].0) && Legal(p.objects[i].1))
    && forall i :: 0 <= i < |p.facts| ==> LegalAll(p.facts[i])
  }

  /** No object is named by the dash, which reads as the end of a line of objects. */
  ghost predicate NoDash(os: seq<(seq<string>, string)>) {
    forall i :: 0 <= i < |os| ==> "-" !in os[i].0
  }

  /** Every line of objects has a name, and every fact a token. */
  ghost predicate NothingEmpty(os: seq<(seq<string>, string)>, fs: seq<seq<string>>) {
    (forall i :: 0 <= i < |os| ==> os[i].0 != []) && forall i :: 0 <= i < |fs| ==> fs[i] != []
  }

  /** The problem as reading would have it. */
  function Whole(p: Problem): Reading {
    Reading(Atom(p.name), p.about, AllObjects(p.objects), p.facts)
  }

  function Atoms(tokens: seq<string>): seq<Sexp> {
    seq(|tokens|, i requires 0 <= i < |tokens| => Atom(tokens[i]))
  }

  function ObjectSexps(os: seq<(seq<string>, string)>): seq<Sexp> {
    if os == [] then [] else Atoms(os[0].0) + [Atom("-"), Atom(os[0].1)] + ObjectSexps(os[1..])
  }

  function FactSexps(fs: seq<seq<string>>): seq<Sexp> {
    seq(|fs|, i requires 0 <= i < |fs| => List(Atoms(fs[i])))
  }

  function HtnSexp(about: string): Sexp {
    List([Atom(":htn"), Atom(":parameters"), List([]), Atom(":subtasks"),
        List([Atom("and"), List([Atom("implement_module"), Atom(about)])])])
  }

  /** The expression the text lays out. */
  function Tree(p: Problem): Sexp {
    List([Atom("define"), List([Atom("problem"), Atom(p.name)]), List([Atom(":domain"), Atom("rtl_fsm")]),
          List([Atom(":objects")] + ObjectSexps(p.objects)), HtnSexp(p.about), List([Atom(":init")] +
              FactSexps(p.facts))])
  }

  /** What reading the problem back should find: the objects with a name and the facts with a token. */
  function Expected(p: Problem): Reading {
    Reading(Atom(p.name), p.about, NamedObjects(p.objects), NonEmpty(p.facts))
  }

  function NamedObjects(os: seq<(seq<string>, string)>): seq<(seq<string>, Sexp)> {
    if os == [] then [] else (if os[0].0 == [] then [] else [(os[0].0, Atom(os[0].1))]) + NamedObjects(os[1..])
  }

  function NonEmpty(fs: seq<seq<string>>): seq<seq<string>> {
    if fs == [] then [] else (if fs[0] == [] then [] else [fs[0]]) + NonEmpty(fs[1..])
  }

  lemma {:induction false} AtomsPrint(tokens: seq<string>)
    ensures PrintAll(Atoms(tokens)) == tokens && TokensOf(Spaced(tokens)) == tokens
  {
    if tokens != [] {
      AtomsPrint(tokens[1..]);
      assert Atoms(tokens)[1..] == Atoms(tokens[1..]);
      assert tokens == [tokens[0]] + tokens[1..];
      if |tokens| > 1 {
        assert ([Word(tokens[0]), Gap(1)] + Spaced(tokens[1..]))[1..][1..] == Spaced(tokens[1..]);
      } else {
        assert tokens[1..] == [];
      }
    }
  }

  lemma DefineTokens()
    ensures TokensOf(DEFINE) == ["(", "define", "(", "problem"]
  {
  }

  lemma DomainTokens()
    ensures TokensOf(DOMAIN) == [")", "(", ":domain", "rtl_fsm", ")"]
  {
  }

  lemma ObjectsTokens()
    ensures TokensOf(OBJECTS) == ["(", ":objects"]
  {
  }

  lemma HtnTokens()
    ensures TokensOf(HTN) == [")", "(", ":htn"]
  {
  }

  lemma ParametersTokens()
    ensures TokensOf(PARAMETERS) == [":parameters", "(", ")"]
  {
  }

  lemma SubtasksTokens()
    ensures TokensOf(SUBTASKS) == [":subtasks", "(", "and"] && TokensOf(TASK) == ["(", "implement_module"]
  {
  }

  lemma TaskEndTokens()
    ensures TokensOf(TASK_END) == [")", ")", ")"]
  {
  }

  lemma InitTokens()
    ensures TokensOf(INIT) == ["(", ":init"] && TokensOf(END) == [")", ")"]
  {
  }

  lemma OneWord(w: string)
    ensures TokensOf([Word(w)]) == [w]
  {
  }

  lemma DashTokens()
    ensures TokensOf([Gap(4)]) == [] && TokensOf([Gap(1), Word("-"), Gap(1)]) == ["-"] && TokensOf([Newline]) == []
  {
  }

  lemma ObjectLineTokens(o: (seq<string>, string))
    ensures TokensOf(ObjectLine(o)) == o.0 + ["-", o.1]
  {
    hide TokensOf, Spaced, Atoms;
    AtomsPrint(o.0);
    DashTokens();
    OneWord(o.1);
    assert [Word(o.1), Newline] == [Word(o.1)] + [Newline];
    TokensConcat([Word(o.1)], [Newline]);
    TokensConcat([Gap(4)] + Spaced(o.0) + [Gap(1), Word("-"), Gap(1)], [Word(o.1), Newline]);
    TokensConcat([Gap(4)] + Spaced(o.0), [Gap(1), Word("-"), Gap(1)]);
    TokensConcat([Gap(4)], Spaced(o.0));
  }

  lemma ObjectPrint(o: (seq<string>, string))
    ensures PrintAll(Atoms(o.0) + [Atom("-"), Atom(o.1)]) == o.0 + ["-", o.1]
  {
    hide Atoms, PrintAll, Spaced, TokensOf;
    AtomsPrint(o.0);
    AtomsPrint(["-", o.1]);
    TwoAtoms("-", o.1);
    PrintConcat(Atoms(o.0), [Atom("-"), Atom(o.1)]);
  }

  lemma TwoAtoms(x: string, y: string)
    ensures Atoms([x, y]) == [Atom(x), Atom(y)]
  {
  }

  lemma {:induction false} ObjectTokens(os: seq<(seq<string>, string)>)
    ensures TokensOf(ObjectLines(os)) == PrintAll(ObjectSexps(os))
  {
    hide Atoms, Spaced, ObjectLine, TokensOf, PrintAll;
    if os == [] {
      NothingPrints();
    } else {
      ObjectTokens(os[1..]);
      ObjectLineTokens(os[0]);
      ObjectPrint(os[0]);
      TokensConcat(ObjectLine(os[0]), ObjectLines(os[1..]));
      PrintConcat(Atoms(os[0].0) + [Atom("-"), Atom(os[0].1)], ObjectSexps(os[1..]));
    }
  }

  lemma NothingPrints()
    ensures TokensOf([]) == [] && PrintAll([]) == []
  {
  }

  lemma {:induction false} FactTokens(fs: seq<seq<string>>)
    ensures TokensOf(FactLines(fs)) == PrintAll(FactSexps(fs))
  {
    hide Atoms, Spaced, TokensOf, FactLine, PrintAll;
    if fs == [] {
      NothingPrints();
      assert FactSexps(fs) == [];
    } else {
      var f := fs[0];
      FactTokens(fs[1..]);
      FactLineTokens(f);
      TokensConcat(FactLine(f), FactLines(fs[1..]));
      FactsCons(fs);
    }
  }

  lemma FactsCons(fs: seq<seq<string>>)
    requires fs != []
    ensures PrintAll(FactSexps(fs)) == Print(List(Atoms(fs[0]))) + PrintAll(FactSexps(fs[1..]))
  {
    hide Atoms;
    assert FactSexps(fs)[0] == List(Atoms(fs[0])) && FactSexps(fs)[1..] == FactSexps(fs[1..]);
  }

  lemma FactLineTokens(f: seq<string>)
    ensures TokensOf(FactLine(f)) == Print(List(Atoms(f)))
  {
    hide Atoms, Spaced, TokensOf;
    AtomsPrint(f);
    FactEnds();
    TokensConcat([Gap(4), Open] + Spaced(f), [Close, Newline]);
    TokensConcat([Gap(4), Open], Spaced(f));
  }

  lemma FactEnds()
    ensures TokensOf([Gap(4), Open]) == ["("] && TokensOf([Close, Newline]) == [")"]
  {
  }

  lemma HeadTokens(p: Problem)
    ensures TokensOf(Head(p)) ==
        ["(", "define", "(", "problem", p.name, ")", "(", ":domain", "rtl_fsm", ")", "(", ":objects"]
  {
    DefineTokens();
    OneWord(p.name);
    DomainTokens();
    ObjectsTokens();
    TokensConcat(DEFINE, [Word(p.name)]);
    TokensConcat(DEFINE + [Word(p.name)], DOMAIN);
    TokensConcat(DEFINE + [Word(p.name)] + DOMAIN, OBJECTS);
  }

  lemma MiddleTokens(p: Problem)
    ensures TokensOf(Middle(p)) == [")", "(", ":htn", ":parameters", "(", ")", ":subtasks", "(", "and", "(",
        "implement_module", p.about, ")", ")", ")", "(", ":init"]
  {
    hide TokensOf;
    HtnTokens();
    ParametersTokens();
    SubtasksTokens();
    OneWord(p.about);
    TaskEndTokens();
    InitTokens();
    TokensConcat(HTN, PARAMETERS);
    TokensConcat(HTN + PARAMETERS, SUBTASKS);
    TokensConcat(HTN + PARAMETERS + SUBTASKS, TASK);
    TokensConcat(HTN + PARAMETERS + SUBTASKS + TASK, [Word(p.about)]);
    TokensConcat(HTN + PARAMETERS + SUBTASKS + TASK + [Word(p.about)], TASK_END);
    TokensConcat(HTN + PARAMETERS + SUBTASKS + TASK + [Word(p.about)] + TASK_END, INIT);
  }

  lemma LayoutTokens(p: Problem)
    ensures TokensOf(Layout(p)) == TokensOf(Head(p)) + PrintAll(ObjectSexps(p.objects)) + TokensOf(Middle(p)) +
        PrintAll(FactSexps(p.facts)) + [")", ")"]
  {
    hide TokensOf, Head, Middle, ObjectLines, FactLines, PrintAll;
    ObjectTokens(p.objects);
    FactTokens(p.facts);
    InitTokens();
    TokensConcat(Head(p), ObjectLines(p.objects));
    TokensConcat(Head(p) + ObjectLines(p.objects), Middle(p));
    TokensConcat(Head(p) + ObjectLines(p.objects) + Middle(p), FactLines(p.facts));
    TokensConcat(Head(p) + ObjectLines(p.objects) + Middle(p) + FactLines(p.facts), END);
  }

  lemma PrintList(items: seq<Sexp>)
    ensures Print(List(items)) == ["("] + PrintAll(items) + [")"]
  {
  }

  lemma PrintCons(x: Sexp, rest: seq<Sexp>)
    ensures PrintAll([x] + rest) == Print(x) + PrintAll(rest)
  {
    assert ([x] + rest)[1..] == rest;
  }

  lemma PrintTwo(x: string, y: string)
    ensures Print(List([Atom(x), Atom(y)])) == ["(", x, y, ")"]
  {
    assert Atoms([x, y]) == [Atom(x), Atom(y)];
    AtomsPrint([x, y]);
  }

  lemma PrintHtn(about: string)
    ensures Print(HtnSexp(about)) ==
        ["(", ":htn", ":parameters", "(", ")", ":subtasks", "(", "and", "(", "implement_module", about, ")", ")", ")"]
  {
    hide Print, PrintAll;
    var task := List([Atom("implement_module"), Atom(about)]);
    var sub := List([Atom("and"), task]);
    NothingPrints();
    PrintTwo("implement_module", about);
    PrintAtom("and");
    PrintAtom(":htn");
    PrintAtom(":parameters");
    PrintAtom(":subtasks");
    PrintList([]);
    assert [Atom("and"), task] == [Atom("and")] + ([task] + []);
    PrintCons(task, []);
    PrintCons(Atom("and"), [task] + []);
    PrintList([Atom("and"), task]);
    var items := [Atom(":htn"), Atom(":parameters"), List([]), Atom(":subtasks"), sub];
    assert items == [Atom(":htn")] + ([Atom(":parameters")] + ([List([])] + ([Atom(":subtasks")] + ([sub] + []))));
    PrintCons(sub, []);
    PrintCons(Atom(":subtasks"), [sub] + []);
    PrintCons(List([]), [Atom(":subtasks")] + ([sub] + []));
    PrintCons(Atom(":parameters"), [List([])] + ([Atom(":subtasks")] + ([sub] + [])));
    PrintCons(Atom(":htn"), [Atom(":parameters")] + ([List([])] + ([Atom(":subtasks")] + ([sub] + []))));
    PrintList(items);
  }

  lemma PrintTree(p: Problem)
    ensures Print(Tree(p)) == TokensOf(Head(p)) + PrintAll(ObjectSexps(p.objects)) + TokensOf(Middle(p)) +
        PrintAll(FactSexps(p.facts)) + [")", ")"]
  {
    hide PrintAll, Print, TokensOf, Head, Middle, HtnSexp, FactSexps, ObjectSexps;
    var os, fs := [Atom(":objects")] + ObjectSexps(p.objects), [Atom(":init")] + FactSexps(p.facts);
    HeadTokens(p);
    MiddleTokens(p);
    PrintTwo("problem", p.name);
    PrintTwo(":domain", "rtl_fsm");
    PrintHtn(p.about);
    PrintAtom(":objects");
    PrintAtom(":init");
    PrintAtom("define");
    PrintCons(Atom(":objects"), ObjectSexps(p.objects));
    PrintCons(Atom(":init"), FactSexps(p.facts));
    PrintList(os);
    PrintList(fs);
    PrintSix(Atom("define"), List([Atom("problem"), Atom(p.name)]), List([Atom(":domain"), Atom("rtl_fsm")]),
            List(os), HtnSexp(p.about), List(fs));
  }

  lemma PrintAtom(t: string)
    ensures Print(Atom(t)) == [t]
  {
  }

  lemma PrintSix(a: Sexp, b: Sexp, c: Sexp, d: Sexp, e: Sexp, f: Sexp)
    ensures Print(List([a, b, c, d, e, f])) ==
        ["("] + Print(a) + Print(b) + Print(c) + Print(d) + Print(e) + Print(f) + [")"]
  {
    hide Print;
    PrintList([a, b, c, d, e, f]);
    assert [a, b, c, d, e, f] == [a] + ([b] + ([c] + ([d] + ([e] + ([f] + [])))));
    PrintCons(f, []);
    PrintCons(e, [f] + []);
    PrintCons(d, [e] + ([f] + []));
    PrintCons(c, [d] + ([e] + ([f] + [])));
    PrintCons(b, [c] + ([d] + ([e] + ([f] + []))));
    PrintCons(a, [b] + ([c] + ([d] + ([e] + ([f] + [])))));
  }

  // ----- The layout is laid out -----

  lemma LaidOutConcat(x: seq<Piece>, y: seq<Piece>)
    requires LaidOut(x) && LaidOut(y) && (x == [] || y == [] || !x[|x| - 1].Word? || !y[0].Word?)
    ensures LaidOut(x + y)
  {
    hide PieceOk;
  }

  /** Letters, underscores, colons and dashes make a legal token. */
  lemma LegalLetters(t: string)
    requires t != "" && forall i :: 0 <= i < |t| ==> 'a' <= t[i] <= 'z' || t[i] == '_' || t[i] == ':' || t[i] == '-'
    ensures Legal(t)
  {
  }

  lemma LegalWords()
    ensures Legal("define") && Legal("problem") && Legal(":domain") && Legal("rtl_fsm") && Legal(":objects")
    ensures Legal(":htn")
    ensures Legal(":parameters") && Legal(":subtasks") && Legal("and") && Legal("implement_module") && Legal(":init")
    ensures Legal("-")
  {
    hide Legal;
    LegalLetters("define");
    LegalLetters("problem");
    LegalLetters(":domain");
    LegalLetters("rtl_fsm");
    LegalLetters(":objects");
    LegalLetters(":htn");
    LegalLetters(":parameters");
    LegalLetters(":subtasks");
    LegalLetters("and");
    LegalLetters("implement_module");
    LegalLetters(":init");
    LegalLetters("-");
  }

  lemma FixedLaidOut()
    ensures LaidOut(DEFINE) && LaidOut(DOMAIN) && LaidOut(OBJECTS) && LaidOut(HTN) && LaidOut(PARAMETERS)
    ensures LaidOut(SUBTASKS) && LaidOut(TASK) && LaidOut(TASK_END) && LaidOut(INIT) && LaidOut(END)
  {
    hide Legal;
    LegalWords();
  }

  lemma {:induction false} SpacedLaidOut(tokens: seq<string>)
    requires LegalAll(tokens)
    ensures LaidOut(Spaced(tokens))
  {
    hide Legal;
    if |tokens| > 1 {
      SpacedLaidOut(tokens[1..]);
      LaidOutConcat([Word(tokens[0]), Gap(1)], Spaced(tokens[1..]));
    }
  }

  lemma ObjectLineLaidOut(o: (seq<string>, string))
    requires LegalAll(o.0) && Legal(o.1)
    ensures LaidOut(ObjectLine(o))
  {
    hide Legal, Spaced, LegalAll;
    LegalWords();
    SpacedLaidOut(o.0);
    LaidOutConcat([Gap(4)], Spaced(o.0));
    LaidOutConcat([Gap(4)] + Spaced(o.0), [Gap(1), Word("-"), Gap(1)]);
    LaidOutConcat([Gap(4)] + Spaced(o.0) + [Gap(1), Word("-"), Gap(1)], [Word(o.1), Newline]);
  }

  lemma {:induction false} ObjectLinesLaidOut(os: seq<(seq<string>, string)>)
    requires forall i :: 0 <= i < |os| ==> LegalAll(os[i].0) && Legal(os[i].1)
    ensures LaidOut(ObjectLines(os))
    ensures (os != [] ==> ObjectLines(os)[0] == Gap(4) && ObjectLines(os)[|ObjectLines(os)| - 1] == Newline)
  {
    hide Legal, LegalAll, LaidOut;
    if os == [] {
      EmptyLaidOut();
    } else {
      ObjectLineLaidOut(os[0]);
      ObjectLinesLaidOut(os[1..]);
      LaidOutConcat(ObjectLine(os[0]), ObjectLines(os[1..]));
    }
  }

  lemma EmptyLaidOut()
    ensures LaidOut([])
  {
  }

  lemma FactLineLaidOut(f: seq<string>)
    requires LegalAll(f)
    ensures LaidOut(FactLine(f))
  {
    hide Legal, Spaced, LegalAll;
    SpacedLaidOut(f);
    LaidOutConcat([Gap(4), Open], Spaced(f));
    LaidOutConcat([Gap(4), Open] + Spaced(f), [Close, Newline]);
  }

  lemma {:induction false} FactLinesLaidOut(fs: seq<seq<string>>)
    requires forall i :: 0 <= i < |fs| ==> LegalAll(fs[i])
    ensures LaidOut(FactLines(fs))
    ensures (fs != [] ==> FactLines(fs)[0] == Gap(4) && FactLines(fs)[|FactLines(fs)| - 1] == Newline)
  {
    hide Legal, LegalAll, LaidOut;
    if fs == [] {
      EmptyLaidOut();
    } else {
      FactLineLaidOut(fs[0]);
      FactLinesLaidOut(fs[1..]);
      LaidOutConcat(FactLine(fs[0]), FactLines(fs[1..]));
    }
  }

  lemma WordLaidOut(w: string)
    requires Legal(w)
    ensures LaidOut([Word(w)])
  {
  }

  lemma LayoutLaidOut(p: Problem)
    requires LegalProblem(p)
    ensures LaidOut(Layout(p))
  {
    hide Legal, LegalAll, LaidOut, ObjectLines, FactLines;
    FixedLaidOut();
    WordLaidOut(p.name);
    WordLaidOut(p.about);
    ObjectLinesLaidOut(p.objects);
    FactLinesLaidOut(p.facts);
    LaidOutConcat(DEFINE, [Word(p.name)]);
    LaidOutConcat(DEFINE + [Word(p.name)], DOMAIN);
    LaidOutConcat(DEFINE + [Word(p.name)] + DOMAIN, OBJECTS);
    LaidOutConcat(HTN, PARAMETERS);
    LaidOutConcat(HTN + PARAMETERS, SUBTASKS);
    LaidOutConcat(HTN + PARAMETERS + SUBTASKS, TASK);
    LaidOutConcat(HTN + PARAMETERS + SUBTASKS + TASK, [Word(p.about)]);
    LaidOutConcat(HTN + PARAMETERS + SUBTASKS + TASK + [Word(p.about)], TASK_END);
    LaidOutConcat(HTN + PARAMETERS + SUBTASKS + TASK + [Word(p.about)] + TASK_END, INIT);
    LaidOutConcat(Head(p), ObjectLines(p.objects));
    LaidOutConcat(Head(p) + ObjectLines(p.objects), Middle(p));
    LaidOutConcat(Head(p) + ObjectLines(p.objects) + Middle(p), FactLines(p.facts));
    LaidOutConcat(Head(p) + ObjectLines(p.objects) + Middle(p) + FactLines(p.facts), END);
  }

  // ----- Reading the tree -----

  function AllObjects(os: seq<(seq<string>, string)>): seq<(seq<string>, Sexp)> {
    if os == [] then [] else [(os[0].0, Atom(os[0].1))] + AllObjects(os[1..])
  }

  /** Scanning names: they pend until the dash. */
  lemma {:induction false} ScanNames(items: seq<Sexp>, i: nat, names: seq<string>, t: string, j: nat)
    requires j <= |names| && "-" !in names && i + |names| + 2 <= |items|
    requires forall l :: 0 <= l < |names| ==> items[i + l] == Atom(names[l])
    requires items[i + |names|] == Atom("-") && items[i + |names| + 1] == Atom(t)
    ensures Scan(items, i + j, names[..j]) ==
            var rest := Scan(items, i + |names| + 2, []);
            if rest.Malformed? then rest else Listed([(names, Atom(t))] + rest.objects)
    decreases |names| - j
  {
    if j == |names| {
      assert names[..j] == names;
    } else {
      assert items[i + j] == Atom(names[j]) && names[j] in names;
      assert names[..j + 1] == names[..j] + [names[j]];
      ScanNames(items, i, names, t, j + 1);
    }
  }

  lemma {:induction false} ScanAll(pre: seq<Sexp>, os: seq<(seq<string>, string)>)
    requires NoDash(os)
    ensures Scan(pre + ObjectSexps(os), |pre|, []) == Listed(AllObjects(os))
    decreases |os|
  {
    if os == [] {
      assert pre + ObjectSexps(os) == pre;
    } else {
      var first := Atoms(os[0].0) + [Atom("-"), Atom(os[0].1)];
      var items := pre + ObjectSexps(os);
      assert items == (pre + first) + ObjectSexps(os[1..]);
      assert os[0] in os;
      ScanAll(pre + first, os[1..]);
      ScanLine(pre, os[0].0, os[0].1, ObjectSexps(os[1..]));
    }
  }

  lemma ScanLine(pre: seq<Sexp>, names: seq<string>, t: string, rest: seq<Sexp>)
    requires "-" !in names
    ensures var first := Atoms(names) + [Atom("-"), Atom(t)];
      var items := (pre + first) + rest;
      Scan(items, |pre|, []) ==
      var later := Scan(items, |pre + first|, []);
      if later.Malformed? then later else Listed([(names, Atom(t))] + later.objects)
  {
    hide Scan, Atoms;
    var first := Atoms(names) + [Atom("-"), Atom(t)];
    var items := (pre + first) + rest;
    AtomsLength(names);
    forall l | 0 <= l < |names|
      ensures items[|pre| + l] == Atom(names[l])
    {
      InMiddle(pre, first, rest, l);
    }
    InMiddle(pre, first, rest, |names|);
    InMiddle(pre, first, rest, |names| + 1);
    ScanNames(items, |pre|, names, t, 0);
    assert names[..0] == [];
  }

  lemma AtomsLength(names: seq<string>)
    ensures |Atoms(names)| == |names| && forall l :: 0 <= l < |names| ==> Atoms(names)[l] == Atom(names[l])
  {
  }

  lemma InMiddle(pre: seq<Sexp>, mid: seq<Sexp>, post: seq<Sexp>, l: nat)
    requires l < |mid|
    ensures ((pre + mid) + post)[|pre| + l] == mid[l]
  {
  }

  lemma {:induction false} NamedAll(os: seq<(seq<string>, string)>)
    ensures Named(AllObjects(os)) == NamedObjects(os)
  {
    if os != [] {
      NamedAll(os[1..]);
      assert AllObjects(os)[1..] == AllObjects(os[1..]);
    }
  }

  lemma AtomsBack(tokens: seq<string>)
    ensures AllAtoms(Atoms(tokens)) && TokensIn(Atoms(tokens)) == tokens
  {
  }

  lemma {:induction false} FactsBack(fs: seq<seq<string>>)
    ensures Facts(FactSexps(fs)) == NonEmpty(fs)
  {
    if fs != [] {
      FactsBack(fs[1..]);
      AtomsBack(fs[0]);
      assert FactSexps(fs)[1..] == FactSexps(fs[1..]);
    }
  }

  lemma SectionCons(x: seq<Sexp>, rest: seq<Sexp>, key: string)
    requires x != []
    ensures Section([List(x)] + rest, key) ==
            if Section(rest, key).Some? then Section(rest, key) else if x[0] == Atom(key) then B.Some(x) else B.None
  {
    assert ([List(x)] + rest)[1..] == rest;
  }

  lemma SectionsOf(a: seq<Sexp>, b: seq<Sexp>, c: seq<Sexp>, d: seq<Sexp>, e: seq<Sexp>, key: string)
    requires a != [] && b != [] && c != [] && d != [] && e != []
    requires a[0] == Atom("problem") && b[0] == Atom(":domain") && c[0] == Atom(":objects") && d[0] == Atom(":htn")
    requires e[0] == Atom(":init")
    ensures key == "problem" ==> Section([List(a), List(b), List(c), List(d), List(e)], key) == B.Some(a)
    ensures key == ":objects" ==> Section([List(a), List(b), List(c), List(d), List(e)], key) == B.Some(c)
    ensures key == ":htn" ==> Section([List(a), List(b), List(c), List(d), List(e)], key) == B.Some(d)
    ensures key == ":init" ==> Section([List(a), List(b), List(c), List(d), List(e)], key) == B.Some(e)
  {
    hide Section;
    assert [List(a), List(b), List(c), List(d), List(e)] ==
        [List(a)] + ([List(b)] + ([List(c)] + ([List(d)] + ([List(e)] + []))));
    NoSection(key);
    SectionCons(e, [], key);
    SectionCons(d, [List(e)] + [], key);
    SectionCons(c, [List(d)] + ([List(e)] + []), key);
    SectionCons(b, [List(c)] + ([List(d)] + ([List(e)] + [])), key);
    SectionCons(a, [List(b)] + ([List(c)] + ([List(d)] + ([List(e)] + []))), key);
  }

  lemma NoSection(key: string)
    ensures Section([], key) == B.None
  {
  }

  lemma FindHtn(about: string)
    requires about != ""
    ensures FindTask(HtnSexp(about)) == B.Some(about)
  {
    var task := List([Atom("implement_module"), Atom(about)]);
    var sub := List([Atom("and"), task]);
    var h := HtnSexp(about);
    assert FindTask(task) == B.Some(about);
    assert FindIn(sub, 1) == B.Some(about);
    assert FindIn(sub, 0) == B.Some(about);
    assert FindTask(sub) == B.Some(about);
    assert FindIn(h, 4) == B.Some(about);
    assert FindIn(h, 3) == B.Some(about);
    assert FindTask(List([])) == B.None by {
      assert FindIn(List([]), 0) == B.None;
    }
    assert FindIn(h, 2) == B.Some(about);
    assert FindIn(h, 1) == B.Some(about);
    assert FindIn(h, 0) == B.Some(about);
  }

  lemma InterpretTree(p: Problem)
    requires LegalProblem(p) && NoDash(p.objects)
    ensures Interpret(Tree(p)) == Expected(p)
  {
    hide Section, FindTask, Scan, Facts, Named, ObjectSexps, FactSexps, LegalAll, NamedObjects, NonEmpty, AllObjects;
    var objects, htn, init := [Atom(":objects")] + ObjectSexps(p.objects), HtnSexp(p.about).items, [Atom(":init")] +
        FactSexps(p.facts);
    var name := [Atom("problem"), Atom(p.name)];
    var rest := Tree(p).items[1..];
    assert rest == [List(name), List([Atom(":domain"), Atom("rtl_fsm")]), List(objects), List(htn), List(init)];
    SectionsOf(name, [Atom(":domain"), Atom("rtl_fsm")], objects, htn, init, "problem");
    SectionsOf(name, [Atom(":domain"), Atom("rtl_fsm")], objects, htn, init, ":objects");
    SectionsOf(name, [Atom(":domain"), Atom("rtl_fsm")], objects, htn, init, ":htn");
    SectionsOf(name, [Atom(":domain"), Atom("rtl_fsm")], objects, htn, init, ":init");
    assert objects[1..] == [] + ObjectSexps(p.objects) && init[1..] == FactSexps(p.facts);
    ScanAll([], p.objects);
    NamedAll(p.objects);
    FactsBack(p.facts);
    FindHtn(p.about);
  }

  lemma {:induction false} PlainAll(os: seq<(seq<string>, string)>)
    requires forall i :: 0 <= i < |os| ==> LegalAll(os[i].0) && Legal(os[i].1)
    ensures forall i :: 0 <= i < |ObjectSexps(os)| ==> Plain(ObjectSexps(os)[i])
  {
    if os != [] {
      PlainAll(os[1..]);
      PlainAtoms(os[0].0);
      LegalNotParen(os[0].1);
    }
  }

  lemma LegalNotParen(t: string)
    requires Legal(t)
    ensures t != "(" && t != ")"
  {
    assert IsPlain(t[0]);
  }

  lemma PlainAtoms(tokens: seq<string>)
    requires LegalAll(tokens)
    ensures forall i :: 0 <= i < |tokens| ==> Plain(Atoms(tokens)[i])
  {
    forall i | 0 <= i < |tokens|
      ensures Plain(Atom(tokens[i]))
    {
      LegalNotParen(tokens[i]);
    }
  }

  lemma PlainTree(p: Problem)
    requires LegalProblem(p)
    ensures Plain(Tree(p))
  {
    hide Legal, LegalAll, ObjectSexps, Atoms, Plain, HtnSexp;
    PlainAll(p.objects);
    LegalNotParen(p.name);
    LegalNotParen(p.about);
    forall i | 0 <= i < |p.facts|
      ensures Plain(List(Atoms(p.facts[i])))
    {
      PlainFact(p.facts[i]);
    }
    PlainAtom("define");
    PlainAtom(p.name);
    PlainAtom("rtl_fsm");
    PlainCons("problem", [Atom(p.name)]);
    PlainCons(":domain", [Atom("rtl_fsm")]);
    PlainCons(":objects", ObjectSexps(p.objects));
    PlainCons(":init", FactSexps(p.facts));
    PlainHtn(p.about);
    PlainSix(Atom("define"), List([Atom("problem")] + [Atom(p.name)]), List([Atom(":domain")] + [Atom("rtl_fsm")]),
             List([Atom(":objects")] + ObjectSexps(p.objects)), HtnSexp(p.about), List([Atom(":init")] +
                 FactSexps(p.facts)));
    assert [Atom("problem")] + [Atom(p.name)] == [Atom("problem"), Atom(p.name)];
    assert [Atom(":domain")] + [Atom("rtl_fsm")] == [Atom(":domain"), Atom("rtl_fsm")];
  }

  lemma PlainAtom(t: string)
    requires t != "(" && t != ")"
    ensures Plain(Atom(t))
  {
  }

  lemma PlainSix(a: Sexp, b: Sexp, c: Sexp, d: Sexp, e: Sexp, f: Sexp)
    requires Plain(a) && Plain(b) && Plain(c) && Plain(d) && Plain(e) && Plain(f)
    ensures Plain(List([a, b, c, d, e, f]))
  {
    hide Plain;
    PlainList([a, b, c, d, e, f]);
  }

  lemma PlainList(items: seq<Sexp>)
    requires forall i :: 0 <= i < |items| ==> Plain(items[i])
    ensures Plain(List(items))
  {
  }

  lemma PlainCons(t: string, items: seq<Sexp>)
    requires t != "(" && t != ")" && forall i :: 0 <= i < |items| ==> Plain(items[i])
    ensures Plain(List([Atom(t)] + items))
  {
  }

  lemma PlainHtn(about: string)
    requires about != "(" && about != ")"
    ensures Plain(HtnSexp(about))
  {
    PlainList([Atom("implement_module"), Atom(about)]);
    PlainList([Atom("and"), List([Atom("implement_module"), Atom(about)])]);
  }

  lemma PlainFact(f: seq<string>)
    requires LegalAll(f)
    ensures Plain(List(Atoms(f)))
  {
    PlainAtoms(f);
  }

  /** The text of a problem parses as the expression it lays out. */
  lemma EmitsTree(p: Problem)
    requires LegalProblem(p)
    ensures ParseOne(Tokens(Strip(Emit(p))), 0).Parsed? && ReadingOf(Emit(p)) == Interpret(Tree(p))
  {
    hide Layout, Tree, LegalProblem, Interpret, Tokens, Print, Strip, LaidOut;
    LayoutLaidOut(p);
    TextPlain(Layout(p));
    NoComments(Emit(p));
    TokensOfText(Layout(p));
    LayoutTokens(p);
    PrintTree(p);
    PlainTree(p);
    ParsePrint([], Tree(p), []);
    assert [] + Print(Tree(p)) + [] == Print(Tree(p));
  }

  /** A problem over legal tokens reads back from its text, name, module, objects and facts, exactly
      when no object is named by the dash, every line of objects has a name and every fact a token. */
  lemma RoundTrip(p: Problem)
    requires LegalProblem(p)
    ensures ReadingOf(Emit(p)) == Whole(p) <==> NoDash(p.objects) && NothingEmpty(p.objects, p.facts)
    ensures NoDash(p.objects) ==> ReadingOf(Emit(p)) == Expected(p)
  {
    hide Tree, LegalProblem, Interpret, NothingEmpty, Emit, ReadingOf, AllObjects, NamedObjects, NonEmpty;
    EmitsTree(p);
    if NoDash(p.objects) {
      InterpretTree(p);
      NothingLost(p.objects, p.facts);
    } else if Interpret(Tree(p)) == Whole(p) {
      NamesRead(Tree(p));
      AllObjectsAt(p.objects);
    }
  }

  /** What is lost on the way: lines of objects without a name and facts without a token. */
  lemma NothingLost(os: seq<(seq<string>, string)>, fs: seq<seq<string>>)
    ensures NamedObjects(os) == AllObjects(os) && NonEmpty(fs) == fs <==> NothingEmpty(os, fs)
  {
    LinesLost(os);
    FactsLost(fs);
  }

  lemma {:induction false} LinesLost(os: seq<(seq<string>, string)>)
    ensures |NamedObjects(os)| <= |os| == |AllObjects(os)|
    ensures (forall i :: 0 <= i < |os| ==> os[i].0 != []) ==> NamedObjects(os) == AllObjects(os)
    ensures (exists i :: 0 <= i < |os| && os[i].0 == []) ==> |NamedObjects(os)| < |os|
  {
    if os != [] {
      LinesLost(os[1..]);
      if i :| 0 <= i < |os| && os[i].0 == [] {
        assert i > 0 ==> os[1..][i - 1].0 == [];
      }
    }
  }

  lemma {:induction false} FactsLost(fs: seq<seq<string>>)
    ensures |NonEmpty(fs)| <= |fs|
    ensures (forall i :: 0 <= i < |fs| ==> fs[i] != []) ==> NonEmpty(fs) == fs
    ensures (exists i :: 0 <= i < |fs| && fs[i] == []) ==> |NonEmpty(fs)| < |fs|
  {
    if fs != [] {
      FactsLost(fs[1..]);
      if i :| 0 <= i < |fs| && fs[i] == [] {
        assert i > 0 ==> fs[1..][i - 1] == [];
      }
    }
  }

  lemma {:induction false} AllObjectsAt(os: seq<(seq<string>, string)>)
    ensures |AllObjects(os)| == |os| && forall i :: 0 <= i < |os| ==> AllObjects(os)[i] == (os[i].0, Atom(os[i].1))
  {
    if os != [] {
      AllObjectsAt(os[1..]);
    }
  }

  /** Three problems that do not read back: a fact without a token, a line of objects without a name,
      and an object named by the dash. */
  lemma LostOnTheWay()
    ensures ReadingOf(Emit(Problem("p", "m", [], [[]]))) == Reading(Atom("p"), "m", [], [])
    ensures ReadingOf(Emit(Problem("p", "m", [([], "t")], []))) == Reading(Atom("p"), "m", [], [])
    ensures ReadingOf(Emit(Problem("p", "m", [(["-"], "t")], []))) != Whole(Problem("p", "m", [(["-"], "t")], []))
  {
    hide ReadingOf, Emit;
    RoundTrip(Problem("p", "m", [], [[]]));
    RoundTrip(Problem("p", "m", [([], "t")], []));
    var dashed := Problem("p", "m", [(["-"], "t")], []);
    assert "-" in dashed.objects[0].0;
    RoundTrip(dashed);
  }

  // ----- What is read, emitted again -----

  /** Every atom is a legal token. */
  ghost predicate Clean(s: Sexp) {
    match s
    case Atom(t) => Legal(t)
    case List(items) => forall i :: 0 <= i < |items| ==> Clean(items[i])
  }

  ghost predicate CleanAll(items: seq<Sexp>) {
    forall i :: 0 <= i < |items| ==> Clean(items[i])
  }

  lemma {:induction false} StripClean(text: string)
    ensures forall i :: 0 <= i < |Strip(text)| ==> Strip(text)[i] != ';'
    ensures forall i :: 0 <= i < |StripLine(text)| ==> StripLine(text)[i] != ';'
  {
    if text != "" {
      StripClean(text[1..]);
    }
  }

  ghost predicate TokenOk(t: string) {
    t == "(" || t == ")" || Legal(t)
  }

  lemma {:induction false} TokensLegal(text: string)
    requires forall i :: 0 <= i < |text| ==> text[i] != ';'
    ensures forall i :: 0 <= i < |Tokens(text)| ==> TokenOk(Tokens(text)[i])
    decreases |text|
  {
    if text != "" {
      if IsPlain(text[0]) {
        var n := PlainRun(text);
        TokensLegal(text[n..]);
        assert Legal(text[..n]);
      } else {
        TokensLegal(text[1..]);
      }
    }
  }

  lemma {:induction false} ParsedClean(ts: seq<string>, pos: nat)
    requires forall i :: 0 <= i < |ts| ==> TokenOk(ts[i])
    ensures ParseOne(ts, pos).Parsed? ==> Clean(ParseOne(ts, pos).s)
    decreases |ts| - pos, 0
  {
    if pos < |ts| && ts[pos] == "(" {
      ParsedManyClean(ts, pos + 1);
    }
  }

  lemma {:induction false} ParsedManyClean(ts: seq<string>, pos: nat)
    requires forall i :: 0 <= i < |ts| ==> TokenOk(ts[i])
    ensures ParseMany(ts, pos).ParsedMany? ==> CleanAll(ParseMany(ts, pos).items)
    decreases |ts| - pos, 1
  {
    if pos < |ts| && ts[pos] != ")" {
      ParsedClean(ts, pos);
      var first := ParseOne(ts, pos);
      if first.Parsed? {
        ParsedManyClean(ts, first.pos);
      }
    }
  }

  lemma {:induction false} SectionClean(items: seq<Sexp>, key: string)
    requires CleanAll(items)
    ensures Section(items, key).Some? ==> CleanAll(Section(items, key).value)
  {
    if items != [] {
      SectionClean(items[1..], key);
      assert Clean(items[0]);
    }
  }

  lemma {:induction false} TaskClean(s: Sexp)
    requires Clean(s)
    ensures FindTask(s).Some? ==> Legal(FindTask(s).value) || FindTask(s).value == ""
    decreases s, 0
  {
    if s.List? {
      if |s.items| == 2 {
        assert Clean(s.items[1]);
      }
      TaskInClean(s, 0);
    }
  }

  lemma {:induction false} TaskInClean(s: Sexp, i: nat)
    requires s.List? && Clean(s) && i <= |s.items|
    ensures FindIn(s, i).Some? ==> Legal(FindIn(s, i).value)
    decreases s, 0, |s.items| - i
  {
    if i < |s.items| {
      TaskClean(s.items[i]);
      TaskInClean(s, i + 1);
    }
  }

  /** No name scanned is the dash, and none comes from anywhere but the list. */
  lemma {:induction false} ScanNoDash(items: seq<Sexp>, i: nat, pending: seq<string>)
    requires i <= |items| && "-" !in pending
    ensures Scan(items, i, pending).Listed? ==> forall o <- Scan(items, i, pending).objects :: "-" !in o.0
    decreases |items| - i
  {
    if i < |items| {
      if items[i] == Atom("-") && i + 1 < |items| {
        ScanNoDash(items, i + 2, []);
      } else if items[i].Atom? {
        if items[i].token == "-" {
          assert Scan(items, i + 1, pending + ["-"]).Malformed?;
        } else {
          ScanNoDash(items, i + 1, pending + [items[i].token]);
        }
      }
    }
  }

  lemma {:induction false} ScanClean(items: seq<Sexp>, i: nat, pending: seq<string>)
    requires i <= |items| && CleanAll(items) && LegalAll(pending)
    ensures Scan(items, i, pending).Listed? ==>
      forall o <- Scan(items, i, pending).objects :: LegalAll(o.0) && Clean(o.1)
    decreases |items| - i
  {
    if i < |items| {
      if items[i] == Atom("-") && i + 1 < |items| {
        ScanClean(items, i + 2, []);
      } else if items[i].Atom? {
        assert Clean(items[i]);
        ScanClean(items, i + 1, pending + [items[i].token]);
      }
    }
  }

  lemma {:induction false} NamedOnly(os: seq<(seq<string>, Sexp)>)
    ensures forall o :: o in Named(os) <==> o in os && o.0 != []
  {
    if os != [] {
      NamedOnly(os[1..]);
    }
  }

  lemma {:induction false} FactsClean(items: seq<Sexp>)
    requires CleanAll(items)
    ensures forall f <- Facts(items) :: f != [] && LegalAll(f)
  {
    if items != [] {
      FactsClean(items[1..]);
      if items[0].List? && AllAtoms(items[0].items) {
        forall i | 0 <= i < |items[0].items|
          ensures Legal(items[0].items[i].token)
        {
          assert Clean(items[0]) && Clean(items[0].items[i]);
        }
      }
    }
  }

  /** No object that is read is named by the dash. */
  lemma NamesRead(tree: Sexp)
    ensures Interpret(tree).Reading? ==> forall o <- Interpret(tree).objects :: "-" !in o.0 && o.0 != []
  {
    hide Section, Scan, FindTask, Facts, Named;
    if Interpret(tree).Reading? {
      var objects := Section(tree.items[1..], ":objects");
      ScanNoDash(objects.value[1..], 0, []);
      NamedOnly(Scan(objects.value[1..], 0, []).objects);
    }
  }

  /** What is read is over legal tokens, its name and the types of its objects as far as they are
      tokens. */
  lemma ReadClean(tree: Sexp)
    requires Clean(tree)
    ensures var r := Interpret(tree);
      r.Reading? ==> Clean(r.name) && Legal(r.about) && (forall o <- r.objects :: LegalAll(o.0) && Clean(o.1)) &&
                     forall f <- r.facts :: f != [] && LegalAll(f)
  {
    hide Section, Scan, FindTask, Facts, Named, Legal;
    if Interpret(tree).Reading? {
      var rest := tree.items[1..];
      SectionClean(rest, "problem");
      SectionClean(rest, ":objects");
      SectionClean(rest, ":htn");
      SectionClean(rest, ":init");
      var objects, init := Section(rest, ":objects"), Section(rest, ":init");
      ScanClean(objects.value[1..], 0, []);
      NamedOnly(Scan(objects.value[1..], 0, []).objects);
      TaskClean(List(Section(rest, ":htn").value));
      FactsClean(init.value[1..]);
      ProblemWord();
    }
  }

  lemma ProblemWord()
    ensures Clean(Atom("problem"))
  {
  }

  function Lines(os: seq<(seq<string>, Sexp)>): seq<(seq<string>, string)>
    requires forall o <- os :: o.1.Atom?
  {
    seq(|os|, i requires 0 <= i < |os| => (os[i].0, os[i].1.token))
  }

  /** What was read, as a problem to emit. */
  function Again(r: Reading): Problem
    requires r.Reading? && r.name.Atom? && forall o <- r.objects :: o.1.Atom?
  {
    Problem(r.name.token, r.about, Lines(r.objects), r.facts)
  }

  /** Whatever the text, what was read of it, emitted and read again, is the same, provided its name
      and types are tokens. */
  lemma ReadAgain(text: string)
    requires var r := ReadingOf(text); r.Reading? && r.name.Atom? && forall o <- r.objects :: o.1.Atom?
    ensures ReadingOf(Emit(Again(ReadingOf(text)))) == ReadingOf(text)
  {
    hide Tokens, Strip, ParseOne, Interpret, Emit, Legal, AllObjects;
    var r, tree := ReadingOf(text), ParseOne(Tokens(Strip(text)), 0).s;
    StripClean(text);
    TokensLegal(Strip(text));
    ParsedClean(Tokens(Strip(text)), 0);
    ReadClean(tree);
    NamesRead(tree);
    var p := Again(r);
    forall i | 0 <= i < |p.objects|
      ensures LegalAll(p.objects[i].0) && "-" !in p.objects[i].0 && p.objects[i].0 != [] && Legal(p.objects[i].1)
    {
      assert r.objects[i] in r.objects;
    }
    forall i | 0 <= i < |p.facts|
      ensures p.facts[i] != [] && LegalAll(p.facts[i])
    {
      assert p.facts[i] in r.facts;
    }
    RoundTrip(p);
    AllObjectsAt(p.objects);
    assert AllObjects(p.objects) == r.objects;
  }
}
