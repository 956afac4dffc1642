/** Sampling several replies at once (executor/executor.h, `generate_samples` and `converse`): what
    each sequence's cache holds, what is pending in the batch, which logits a sample reads and which
    sampler draws it. The language model itself is abstract: decoding appends to each sequence's memory
    and replaces the logits, and what a sampler draws depends on its seed, how often it has drawn, and
    the tokens the logits were computed from. */
module Executor {

  type Token = nat

  /** What a sampler of this seed draws, after so many draws, from the logits of these tokens. */
  type Draw = (nat, nat, seq<Token>) -> Token

  /** A sequence's sampler: its seed, and how often it has drawn. */
  datatype Sampler = Sampler(seed: nat, count: nat)

  /** A decode fails some time. */
  ghost predicate Breaks(fails: nat -> bool) {
    exists k: nat :: fails(k)
  }

  /** One token of a batch: where it goes, and whether its logits are wanted. */
  datatype Entry = Entry(token: Token, pos: nat, s: nat, logits: bool)

  /** Memory after the first entries of a batch: each sequence's tokens. */
  function After(mem: seq<seq<Token>>, batch: seq<Entry>): (r: seq<seq<Token>>)
    ensures |r| == |mem|
  {
    if batch == [] then mem
    else
      var init, e := batch[..|batch| - 1], batch[|batch| - 1];
      var m := After(mem, init);
      if e.s < |m| then m[e.s := m[e.s] + [e.token]] else m
  }

  /** Every token goes at the end of its sequence. */
  ghost predicate Fits(mem: seq<seq<Token>>, batch: seq<Entry>) {
    batch == [] ||
      var init, e := batch[..|batch| - 1], batch[|batch| - 1];
      Fits(mem, init) && e.s < |mem| && e.pos == |After(mem, init)[e.s]|
  }

  /** The context each of the wanted logits was computed in. */
  function Logits(mem: seq<seq<Token>>, batch: seq<Entry>): map<nat, seq<Token>> {
    if batch == [] then map[]
    else
      var init, e := batch[..|batch| - 1], batch[|batch| - 1];
      var l := Logits(mem, init);
      if e.logits && e.s < |mem| then l[|init| := After(mem, batch)[e.s]] else l
  }

  /** One more token in a batch. */
  lemma Snoc(mem: seq<seq<Token>>, batch: seq<Entry>, e: Entry)
    requires e.s < |mem|
    ensures After(mem, batch + [e]) == After(mem, batch)[e.s := After(mem, batch)[e.s] + [e.token]]
    ensures Fits(mem, batch) && e.pos == |After(mem, batch)[e.s]| ==> Fits(mem, batch + [e])
    ensures Logits(mem, batch + [e]) == if e.logits then Logits(mem, batch)[|batch| := After(mem, batch + [e])[e.s]]
        else Logits(mem, batch)
  {
    assert (batch + [e])[..|batch|] == batch;
  }

  lemma {:induction false} LogitsBelow(mem: seq<seq<Token>>, batch: seq<Entry>)
    ensures forall i <- Logits(mem, batch) :: i < |batch|
  {
    if batch != [] {
      LogitsBelow(mem, batch[..|batch| - 1]);
    }
  }

  /** A context: the memory of its sequences, the logits of the latest decode, and a sampler for each
      sequence. Its decode number `k` fails when `fails(k)`. */
  class Context {
    const capacity: nat
    const draw: Draw
    const fails: nat -> bool
    var mem: seq<seq<Token>>
    var logits: map<nat, seq<Token>>
    var samplers: seq<Sampler>
    var decodes: nat

    constructor (seeds: seq<nat>, capacity: nat, draw: Draw, fails: nat -> bool)
      ensures this.capacity == capacity && this.draw == draw && this.fails == fails
      ensures mem == seq(|seeds|, s requires 0 <= s < |seeds| => []) && logits == map[]
      ensures samplers == seq(|seeds|, s requires 0 <= s < |seeds| => Sampler(seeds[s], 0))
    {
      this.capacity, this.draw, this.fails, decodes := capacity, draw, fails, 0;
      mem, logits := seq(|seeds|, s requires 0 <= s < |seeds| => []), map[];
      samplers := seq(|seeds|, s requires 0 <= s < |seeds| => Sampler(seeds[s], 0));
    }

    /** Decodes a batch, or fails. The logits of earlier decodes are gone. */
    method Decode(batch: seq<Entry>) returns (ok: bool)
      requires Fits(mem, batch) && |batch| <= capacity
      modifies this
      ensures samplers == old(samplers)
      ensures ok ==> mem == After(old(mem), batch) && logits == Logits(old(mem), batch)
      ensures !ok ==> Breaks(fails)
    {
      decodes := decodes + 1;
      if fails(decodes - 1) {
        return false;
      }
      mem, logits := After(mem, batch), Logits(mem, batch);
      return true;
    }

    /** A sequence's memory copied to another. */
    method CopySequence(from: nat, to: nat)
      requires from < |mem| && to < |mem|
      modifies this
      ensures mem == old(mem)[to := old(mem)[from]] && logits == old(logits) && samplers == old(samplers)
    {
      mem := mem[to := mem[from]];
    }

    /** A sequence's memory cut back to its first `p` tokens. */
    method Cut(s: nat, p: nat)
      requires s < |mem| && p <= |mem[s]|
      modifies this
      ensures mem == old(mem)[s := old(mem)[s][..p]] && logits == old(logits) && samplers == old(samplers)
    {
      mem := mem[s := mem[s][..p]];
    }

    /** A token drawn by a sequence's sampler from the logits at an index of the latest batch, which
        must have been asked for and be those of `after`. */
    method Sample(s: nat, i: nat, ghost after: seq<Token>) returns (t: Token)
      requires s < |samplers| && i in logits && logits[i] == after
      modifies this`samplers
      ensures t == draw(old(samplers)[s].seed, old(samplers)[s].count, after)
      ensures samplers == old(samplers)[s := Sampler(old(samplers)[s].seed, old(samplers)[s].count + 1)]
    {
      t := draw(samplers[s].seed, samplers[s].count, logits[i]);
      samplers := samplers[s := Sampler(samplers[s].seed, samplers[s].count + 1)];
    }
  }

  // ----- Capacity -----

  /** C++ integer division. */
  function Div(x: int, y: nat): int
    requires y > 0
  {
    if x >= 0 then x / y else -((-x) / y)
  }

  function Min(x: int, y: int): int {
    if x < y then x else y
  }

  /** How many sequences of `prompt + extra` tokens fit; in a unified cache the prompt is stored once. */
  function Cap(unified: bool, parallel: int, cells: int, prompt: nat, extra: nat): int
    requires extra > 0 || (!unified && prompt > 0)
  {
    if unified then Min(parallel, Div(cells - prompt, extra)) else Min(parallel, Div(cells, prompt + extra))
  }

  /** The cells a batch of `p` sequences is given. */
  function Cells(unified: bool, p: nat, prompt: nat, extra: nat): nat {
    if unified then prompt + p * extra else p * (prompt + extra)
  }

  /** As many sequences as there are cells for, up to as many as are wanted. */
  lemma CapExact(unified: bool, parallel: int, cells: int, prompt: nat, extra: nat, p: nat)
    requires (extra > 0 || (!unified && prompt > 0)) && p >= 1
    ensures p <= Cap(unified, parallel, cells, prompt, extra) <==>
            p <= parallel && Cells(unified, p, prompt, extra) <= cells
  {
    if unified {
      DivExact(cells - prompt, extra, p);
    } else {
      DivExact(cells, prompt + extra, p);
    }
  }

  lemma DivExact(x: int, y: nat, p: nat)
    requires y > 0 && p >= 1
    ensures p <= Div(x, y) <==> p * y <= x
  {
    if p <= Div(x, y) {
      DivBound(x, y, p);
    }
    if p * y <= x {
      Times(1, p, y);
      assert y * (x / y) + x % y == x && (x / y + 1) * y == y * (x / y) + y;
      TimesLess(p, x / y + 1, y);
    }
  }

  lemma TimesLess(a: nat, b: nat, y: nat)
    requires a * y < b * y
    ensures a < b
  {
    if b <= a {
      Times(b, a, y);
    }
  }

  /** No batch is given more cells than there are. */
  lemma WithinCells(unified: bool, parallel: int, cells: int, prompt: nat, extra: nat, p: nat)
    requires (extra > 0 || (!unified && prompt > 0)) && 1 <= p <= Cap(unified, parallel, cells, prompt, extra)
    ensures Cells(unified, p, prompt, extra) <= cells
  {
    if unified {
      DivBound(cells - prompt, extra, p);
    } else {
      DivBound(cells, prompt + extra, p);
    }
  }

  lemma DivBound(x: int, y: nat, p: nat)
    requires y > 0 && 1 <= p <= Div(x, y)
    ensures p * y <= x
  {
    if x < 0 {
      NotNegative(-x, y);
    } else {
      Whole(x, y);
      Times(p, x / y, y);
    }
  }

  lemma NotNegative(x: nat, y: nat)
    requires y > 0
    ensures x / y >= 0
  {
  }

  lemma Whole(x: nat, y: nat)
    requires y > 0
    ensures y * (x / y) <= x
  {
  }

  lemma {:induction false} Times(a: nat, b: nat, y: nat)
    requires a <= b
    ensures a * y <= y * b
    decreases b - a
  {
    if a < b {
      Times(a, b - 1, y);
      assert y * b == y * (b - 1) + y;
    } else {
      assert a * y == y * b;
    }
  }

  // ----- Samples of one request -----

  datatype Finish = Length | Stop

  /** A token drawn, with the context its logits were computed in. */
  datatype Drawn = Drawn(token: Token, context: seq<Token>)

  /** A reply: the tokens kept, how it ended, its sampler's seed, and every token drawn for it. */
  datatype Reply = Reply(tokens: seq<Token>, finish: Finish, seed: nat, drawn: seq<Drawn>)

  /** Every token of a reply was drawn after the prompt and the tokens before it, by the sampler of the
      reply's seed in turn after `past` other draws, and none ends the text; a reply that stopped did so
      on one that does. */
  ghost predicate Traced(r: Reply, prompt: seq<Token>, eog: Token -> bool, draw: Draw, past: nat) {
    && |r.drawn| == |r.tokens| + (if r.finish.Stop? then 1 else 0)
    && (forall j :: 0 <= j < |r.drawn| ==> r.drawn[j].context == prompt + r.tokens[..j])
    && (forall j :: 0 <= j < |r.drawn| ==> r.drawn[j].token == draw(r.seed, past + j, r.drawn[j].context))
    && (forall j :: 0 <= j < |r.tokens| ==> r.drawn[j].token == r.tokens[j] && !eog(r.tokens[j]))
    && (r.finish.Stop? ==> eog(r.drawn[|r.tokens|].token))
  }

  /** A limit on tokens is looked at once there is one. */
  function AtLeastOne(limit: nat): nat {
    if limit == 0 then 1 else limit
  }

  function Stopped(r: Reply, x: Drawn): Reply {
    r.(finish := Stop, drawn := r.drawn + [x])
  }

  function Longer(r: Reply, x: Drawn): Reply {
    r.(tokens := r.tokens + [x.token], drawn := r.drawn + [x])
  }

  /** This draw is the next of the reply's sampler. */
  ghost predicate Drew(x: Drawn, r: Reply, draw: Draw, past: nat) {
    x.token == draw(r.seed, past + |r.drawn|, x.context)
  }

  /** The sampler has made the draws of the reply, after `past` others, and one more where one waits. */
  ghost predicate Tally(p: Sampler, r: Reply, past: nat, waits: bool) {
    p == Sampler(r.seed, past + |r.drawn| + if waits then 1 else 0)
  }

  lemma TracedStop(r: Reply, prompt: seq<Token>, eog: Token -> bool, draw: Draw, past: nat, x: Drawn)
    requires Traced(r, prompt, eog, draw, past) && r.finish.Length? && x.context == prompt + r.tokens && eog(x.token)
    requires Drew(x, r, draw, past)
    ensures Traced(Stopped(r, x), prompt, eog, draw, past)
  {
    assert r.tokens[..|r.tokens|] == r.tokens;
  }

  lemma TracedMore(r: Reply, prompt: seq<Token>, eog: Token -> bool, draw: Draw, past: nat, x: Drawn)
    requires Traced(r, prompt, eog, draw, past) && r.finish.Length? && x.context == prompt + r.tokens && !eog(x.token)
    requires Drew(x, r, draw, past)
    ensures Traced(Longer(r, x), prompt, eog, draw, past)
  {
    var l := Longer(r, x);
    forall j | 0 <= j < |l.drawn|
      ensures l.drawn[j].context == prompt + l.tokens[..j]
    {
      assert l.tokens[..j] == r.tokens[..j];
      assert r.tokens[..|r.tokens|] == r.tokens;
    }
  }

  const WORD := 0x1_0000_0000

  /** Sample `i`'s seed: 32-bit arithmetic. */
  function Seed(base: nat, i: nat): nat {
    (base + i) % WORD
  }

  function Seeds(base: nat, first: nat, p: nat): seq<nat> {
    seq<nat>(p, s requires 0 <= s < p => Seed(base, first + s))
  }

  lemma SeedAt(base: nat, first: nat, p: nat)
    ensures |Seeds(base, first, p)| == p && forall s :: 0 <= s < p ==> Seeds(base, first, p)[s] == Seed(base, first + s)
  {
  }

  /** The prompt, in chunks, into the first sequence: its last logits are left. */
  method DecodePrompt(ctx: Context, toks: seq<Token>, chunk: nat) returns (ok: bool, last: nat)
    requires toks != [] && 0 < chunk <= ctx.capacity && ctx.mem != [] && ctx.mem[0] == []
    modifies ctx
    ensures ok ==> ctx.mem == old(ctx.mem)[0 := toks] && last in ctx.logits && ctx.logits[last] == toks
    ensures ctx.samplers == old(ctx.samplers) && (!ok ==> Breaks(ctx.fails))
  {
    hide Fits, Logits, After;
    var i: nat := 0;
    last := 0;
    while i < |toks|
      invariant i <= |toks| && ctx.mem == old(ctx.mem)[0 := toks[..i]] && ctx.samplers == old(ctx.samplers)
      invariant i == |toks| ==> last in ctx.logits && ctx.logits[last] == toks
    {
      var end := Min(|toks|, i + chunk);
      var batch: seq<Entry> := [];
      EmptyBatch(ctx.mem);
      for j := i to end
        invariant ctx.samplers == old(ctx.samplers)
        invariant |batch| == j - i && Fits(ctx.mem, batch) && After(ctx.mem, batch) == old(ctx.mem)[0 := toks[..j]]
        invariant j == |toks| && j > i ==>
          |batch| - 1 in Logits(ctx.mem, batch) && Logits(ctx.mem, batch)[|batch| - 1] == toks
      {
        var e := Entry(toks[j], j, 0, j == |toks| - 1);
        Snoc(ctx.mem, batch, e);
        assert toks[..j + 1] == toks[..j] + [toks[j]];
        assert j + 1 == |toks| ==> toks[..j + 1] == toks;
        batch := batch + [e];
      }
      ok := ctx.Decode(batch);
      if !ok {
        return;
      }
      last := |batch| - 1;
      i := end;
    }
    assert toks[..i] == toks;
    return true, last;
  }

  lemma EmptyBatch(mem: seq<seq<Token>>)
    ensures Fits(mem, []) && After(mem, []) == mem && Logits(mem, []) == map[]
  {
  }

  /** The prompt's memory given to every sequence. */
  method Share(ctx: Context, toks: seq<Token>)
    requires ctx.mem != [] && ctx.mem[0] == toks
    modifies ctx
    ensures ctx.mem == seq(|old(ctx.mem)|, s requires 0 <= s < |old(ctx.mem)| => toks) && ctx.logits == old(ctx.logits)
    ensures ctx.samplers == old(ctx.samplers)
  {
    for s := 1 to |ctx.mem|
      invariant |ctx.mem| == |old(ctx.mem)| && ctx.logits == old(ctx.logits) && ctx.samplers == old(ctx.samplers)
      invariant forall r :: 0 <= r < s ==> ctx.mem[r] == toks
    {
      ctx.CopySequence(0, s);
    }
  }

  /** A finished reply: it ended before its limit, or ran to it. */
  ghost predicate Finished(r: Reply, limit: nat) {
    if r.finish.Stop? then |r.tokens| < limit else |r.tokens| == limit
  }

  /** Where a sequence of a batch stands: its next logits, whether it is unfinished, and the token
      sampled last. */
  datatype Live = Live(idx: nat, active: bool, cur: Token)

  /** Before a round: an unfinished sequence has its whole reply in memory, and its logits ready. */
  ghost predicate Ready(mem: seq<Token>, logits: map<nat, seq<Token>>, toks: seq<Token>, r: Reply, l: Live,
        round: nat, limit: nat) {
    && Kept(mem, toks, r, limit)
    && (l.active ==> r.finish.Length? && |r.tokens| == round < AtLeastOne(limit) && mem == toks + r.tokens)
    && (l.active ==> l.idx in logits && logits[l.idx] == toks + r.tokens)
    && (!l.active ==> Finished(r, AtLeastOne(limit)))
  }

  /** What memory always holds of a sequence: the prompt, and then tokens of its reply. */
  ghost predicate Kept(mem: seq<Token>, toks: seq<Token>, r: Reply, limit: nat) {
    |r.tokens| <= AtLeastOne(limit) && toks <= mem <= toks + r.tokens && |mem| < |toks| + AtLeastOne(limit)
  }

  /** After a round's sampling: an unfinished sequence has one token more than is in memory. */
  ghost predicate Sampled(mem: seq<Token>, toks: seq<Token>, r: Reply, l: Live, round: nat, limit: nat) {
    && Kept(mem, toks, r, limit)
    && (l.active ==> r.finish.Length? && |r.tokens| == round + 1 < AtLeastOne(limit))
    && (l.active ==> mem == toks + r.tokens[..round] && l.cur == r.tokens[round])
    && (!l.active ==> Finished(r, AtLeastOne(limit)))
  }

  /** Every unfinished sequence samples from its own logits. */
  method SampleAll(ctx: Context, toks: seq<Token>, limit: nat, round: nat, eog: Token -> bool, replies: seq<Reply>,
        lives: seq<Live>)
      returns (rs: seq<Reply>, ls: seq<Live>, live: nat)
    requires |replies| == |lives| == |ctx.mem|
    requires forall s :: 0 <= s < |lives| ==> Ready(ctx.mem[s], ctx.logits, toks, replies[s], lives[s], round, limit)
    requires forall s :: 0 <= s < |lives| ==> Traced(replies[s], toks, eog, ctx.draw, 0)
    requires |ctx.samplers| == |lives| && forall s :: 0 <= s < |lives| ==> Tally(ctx.samplers[s], replies[s], 0, false)
    modifies ctx`samplers
    ensures |ctx.samplers| == |lives| && |rs| == |lives|
    ensures forall s :: 0 <= s < |lives| ==> Tally(ctx.samplers[s], rs[s], 0, false)
    ensures |rs| == |ls| == |lives| && live <= |lives| && forall s :: 0 <= s < |rs| ==> rs[s].seed == replies[s].seed
    ensures forall s :: 0 <= s < |lives| ==> Sampled(ctx.mem[s], toks, rs[s], ls[s], round, limit)
    ensures forall s :: 0 <= s < |lives| ==> Traced(rs[s], toks, eog, ctx.draw, 0)
    ensures live == 0 <==> forall s :: 0 <= s < |ls| ==> !ls[s].active
  {
    hide Traced;
    rs, ls, live := replies, lives, 0;
    for s := 0 to |lives|
      invariant |rs| == |ls| == |lives| && live <= s && forall r :: 0 <= r < |rs| ==> rs[r].seed == replies[r].seed
      invariant forall r :: 0 <= r < s ==> Sampled(ctx.mem[r], toks, rs[r], ls[r], round, limit)
      invariant forall r :: 0 <= r < |lives| ==> Traced(rs[r], toks, eog, ctx.draw, 0)
      invariant |ctx.samplers| == |lives| && forall r :: 0 <= r < |lives| ==> Tally(ctx.samplers[r], rs[r], 0, false)
      invariant forall r :: s <= r < |lives| ==> rs[r] == replies[r] && ls[r] == lives[r]
      invariant live == 0 <==> forall r :: 0 <= r < s ==> !ls[r].active
    {
      assert Ready(ctx.mem[s], ctx.logits, toks, replies[s], lives[s], round, limit);
      if ls[s].active {
        ghost var after := toks + rs[s].tokens;
        assert Tally(ctx.samplers[s], rs[s], 0, false);
        var t := ctx.Sample(s, ls[s].idx, after);
        rs, ls := SampledOne(ctx.mem[s], ctx.logits, toks, limit, round, eog, ctx.draw, Drawn(t, toks + rs[s].tokens),
            rs, ls, s);
        live := if ls[s].active then live + 1 else live;
      }
    }
  }

  method SampledOne(ghost mem: seq<Token>, ghost logits: map<nat, seq<Token>>, ghost toks: seq<Token>, limit: nat,
        ghost round: nat,
                    eog: Token -> bool, ghost draw: Draw, x: Drawn, replies: seq<Reply>, lives: seq<Live>, s: nat)
      returns (rs: seq<Reply>, ls: seq<Live>)
    requires |replies| == |lives| && s < |lives| && lives[s].active
    requires Ready(mem, logits, toks, replies[s], lives[s], round, limit)
    requires Traced(replies[s], toks, eog, draw, 0) && x.context == toks + replies[s].tokens
    requires Drew(x, replies[s], draw, 0)
    ensures |rs| == |ls| == |lives| && rs == replies[s := rs[s]] && ls == lives[s := ls[s]]
    ensures rs[s].seed == replies[s].seed && |rs[s].drawn| == |replies[s].drawn| + 1
    ensures Sampled(mem, toks, rs[s], ls[s], round, limit) && Traced(rs[s], toks, eog, draw, 0)
  {
    hide Traced;
    rs, ls := replies, lives;
    if eog(x.token) {
      TracedStop(replies[s], toks, eog, draw, 0, x);
      rs := rs[s := Stopped(rs[s], x)];
      ls := ls[s := ls[s].(active := false)];
      return;
    }
    TracedMore(replies[s], toks, eog, draw, 0, x);
    rs := rs[s := Longer(rs[s], x)];
    ls := ls[s := ls[s].(cur := x.token)];
    assert toks + rs[s].tokens == (toks + replies[s].tokens) + [x.token];
    assert rs[s].tokens[..round] == replies[s].tokens;
    if |rs[s].tokens| >= limit {
      ls := ls[s := ls[s].(active := false)];
    }
  }

  /** One token of every unfinished sequence, decoded in one batch. */
  method DecodeAll(ctx: Context, toks: seq<Token>, limit: nat, round: nat, replies: seq<Reply>, lives: seq<Live>)
      returns (ok: bool, ls: seq<Live>)
    requires |replies| == |lives| == |ctx.mem| <= ctx.capacity
    requires forall s :: 0 <= s < |lives| ==> Sampled(ctx.mem[s], toks, replies[s], lives[s], round, limit)
    modifies ctx
    ensures |ls| == |lives| && (ok ==> |ctx.mem| == |old(ctx.mem)|)
    ensures ctx.samplers == old(ctx.samplers) && (!ok ==> Breaks(ctx.fails))
    ensures ok ==> forall s :: 0 <= s < |lives| ==>
      Ready(ctx.mem[s], ctx.logits, toks, replies[s], ls[s], round + 1, limit)
  {
    hide Fits, After, Logits;
    ls := lives;
    var batch: seq<Entry> := [];
    EmptyBatch(ctx.mem);
    for s := 0 to |lives|
      invariant ctx.mem == old(ctx.mem) && ctx.samplers == old(ctx.samplers) && |ls| == |lives| && |batch| <= s
      invariant Fits(ctx.mem, batch)
      invariant |After(ctx.mem, batch)| == |ctx.mem|
      invariant forall r :: s <= r < |lives| ==> ls[r] == lives[r] && After(ctx.mem, batch)[r] == ctx.mem[r]
      invariant forall r :: 0 <= r < s ==>
        Ready(After(ctx.mem, batch)[r], Logits(ctx.mem, batch), toks, replies[r], ls[r], round + 1, limit)
    {
      assert Sampled(ctx.mem[s], toks, replies[s], lives[s], round, limit);
      if lives[s].active {
        var e := Entry(lives[s].cur, |toks| + round, s, true);
        Snoc(ctx.mem, batch, e);
        LogitsBelow(ctx.mem, batch);
        ls := ls[s := ls[s].(idx := |batch|)];
        batch := batch + [e];
        Decoded(toks, replies[s], round);
      } else {
        StaysReady(ctx.mem[s], Logits(ctx.mem, batch), toks, replies[s], lives[s], round, limit);
      }
    }
    ok := ctx.Decode(batch);
  }

  lemma Decoded(toks: seq<Token>, r: Reply, round: nat)
    requires |r.tokens| == round + 1
    ensures (toks + r.tokens[..round]) + [r.tokens[round]] == toks + r.tokens
  {
  }

  lemma StaysReady(mem: seq<Token>, logits: map<nat, seq<Token>>, toks: seq<Token>, r: Reply, l: Live, round: nat,
        limit: nat)
    requires Sampled(mem, toks, r, l, round, limit) && !l.active
    ensures Ready(mem, logits, toks, r, l, round + 1, limit)
  {
  }

  /** The cells in use: in a unified cache the prompt's are shared. */
  function Used(unified: bool, mem: seq<seq<Token>>, prompt: nat): nat {
    if unified then prompt + Extra(mem, prompt) else Total(mem)
  }

  function Extra(mem: seq<seq<Token>>, prompt: nat): nat {
    if mem == [] then 0 else (if |mem[0]| < prompt then 0 else |mem[0]| - prompt) + Extra(mem[1..], prompt)
  }

  function Total(mem: seq<seq<Token>>): nat {
    if mem == [] then 0 else |mem[0]| + Total(mem[1..])
  }

  /** Each sequence adds all its tokens, or in a unified cache those beyond the shared prompt. */
  lemma {:induction false} UsedAdds(unified: bool, mem: seq<seq<Token>>, prompt: nat, x: seq<Token>)
    requires prompt <= |x|
    ensures Used(unified, [], prompt) == if unified then prompt else 0
    ensures Used(unified, mem + [x], prompt) == Used(unified, mem, prompt) + |x| - if unified then prompt else 0
  {
    if mem != [] {
      UsedAdds(unified, mem[1..], prompt, x);
      assert (mem + [x])[1..] == mem[1..] + [x];
    } else {
      assert mem + [x] == [x] && [x][1..] == [];
    }
  }

  lemma {:induction false} UsedWithin(unified: bool, mem: seq<seq<Token>>, prompt: nat, extra: nat)
    requires forall s :: 0 <= s < |mem| ==> |mem[s]| <= prompt + extra
    ensures Extra(mem, prompt) <= |mem| * extra && Total(mem) <= |mem| * (prompt + extra)
    ensures Used(unified, mem, prompt) <= Cells(unified, |mem|, prompt, extra)
  {
    if mem != [] {
      UsedWithin(unified, mem[1..], prompt, extra);
      assert |mem| * extra == (|mem| - 1) * extra + extra;
      assert |mem| * (prompt + extra) == (|mem| - 1) * (prompt + extra) + (prompt + extra);
    }
  }

  /** One batch of samples: the prompt decoded once and shared, and then one token of every unfinished
      sequence a round. The memory of a sequence is the prompt and tokens of its reply throughout. */
  method GenerateBatch(toks: seq<Token>, p: nat, limit: nat, chunk: nat, first: nat, base: nat, eog: Token -> bool,
        draw: Draw, fails: nat -> bool)
      returns (ok: bool, rs: seq<Reply>, ghost mem: seq<seq<Token>>)
    requires toks != [] && p > 0 && chunk > 0
    ensures ok ==> |rs| == p && forall s :: 0 <= s < p ==>
      rs[s].seed == Seed(base, first + s) && Finished(rs[s], AtLeastOne(limit)) && Traced(rs[s], toks, eog, draw, 0)
    ensures !ok ==> Breaks(fails)
    ensures ok ==> |rs| == |mem| == p && forall s :: 0 <= s < p ==> Kept(mem[s], toks, rs[s], limit)
  {
    hide Kept, Seed, Finished, Traced, Ready, Sampled, Fits, After, Logits, Breaks, Seeds, Tally, Begun, NoReplies,
         AllLive;
    SeedAt(base, first, p);
    var ctx := new Context(Seeds(base, first, p), if chunk < p then p else chunk, draw, fails);
    rs := NoReplies(Seeds(base, first, p));
    mem := ctx.mem;
    var last;
    ok, last := DecodePrompt(ctx, toks, chunk);
    if !ok {
      return;
    }
    Share(ctx, toks);
    AllBegun(ctx.mem, ctx.logits, ctx.samplers, toks, last, Seeds(base, first, p), limit, eog, draw);
    ok, rs := Rounds(ctx, toks, limit, eog, rs, AllLive(p, last));
    mem := ctx.mem;
  }

  /** Sampling and decoding, round after round, until every sequence is done. */
  method Rounds(ctx: Context, toks: seq<Token>, limit: nat, eog: Token -> bool, replies: seq<Reply>, lives: seq<Live>)
      returns (ok: bool, rs: seq<Reply>)
    requires |replies| == |lives| == |ctx.mem| == |ctx.samplers| <= ctx.capacity
    requires forall s :: 0 <= s < |lives| ==>
      Begun(ctx.mem[s], ctx.logits, toks, replies[s], lives[s], ctx.samplers[s], limit, eog, ctx.draw)
    modifies ctx
    ensures !ok ==> Breaks(ctx.fails)
    ensures ok ==> |rs| == |replies| == |ctx.mem| && forall s :: 0 <= s < |rs| ==> rs[s].seed == replies[s].seed
    ensures ok ==> forall s :: 0 <= s < |rs| ==>
      && Finished(rs[s], AtLeastOne(limit)) && Traced(rs[s], toks, eog, ctx.draw, 0)
      && Kept(ctx.mem[s], toks, rs[s], limit)
  {
    hide Kept, Finished, Traced, Ready, Sampled, Fits, After, Logits, Breaks, Tally;
    rs := replies;
    var ls, round: nat, live, p := lives, 0, |lives|, |lives|;
    while true
      invariant |rs| == |ls| == |ctx.mem| == |ctx.samplers| == p && round <= AtLeastOne(limit)
      invariant forall s :: 0 <= s < p ==> rs[s].seed == replies[s].seed
      invariant forall s :: 0 <= s < p ==> Ready(ctx.mem[s], ctx.logits, toks, rs[s], ls[s], round, limit)
      invariant forall s :: 0 <= s < p ==> Traced(rs[s], toks, eog, ctx.draw, 0)
      invariant forall s :: 0 <= s < p ==> Tally(ctx.samplers[s], rs[s], 0, false)
      decreases AtLeastOne(limit) - round
    {
      rs, ls, live := SampleAll(ctx, toks, limit, round, eog, rs, ls);
      if live == 0 {
        break;
      }
      LiveLeft(ctx.mem, toks, rs, ls, round, limit);
      ok, ls := DecodeAll(ctx, toks, limit, round, rs, ls);
      if !ok {
        return;
      }
      round := round + 1;
    }
    ok := true;
    forall s | 0 <= s < p
      ensures Finished(rs[s], AtLeastOne(limit)) && Kept(ctx.mem[s], toks, rs[s], limit)
    {
      SampledLast(ctx.mem[s], toks, rs[s], ls[s], round, limit);
    }
  }

  function NoReplies(seeds: seq<nat>): seq<Reply> {
    seq(|seeds|, s requires 0 <= s < |seeds| => Reply([], Length, seeds[s], []))
  }

  function AllLive(p: nat, last: nat): seq<Live> {
    seq(p, s => Live(last, true, 0))
  }

  lemma AllBegun(mem: seq<seq<Token>>, logits: map<nat, seq<Token>>, samplers: seq<Sampler>, toks: seq<Token>,
        last: nat,
      seeds: seq<nat>, limit: nat, eog: Token -> bool, draw: Draw)
    requires |mem| == |samplers| == |seeds| && last in logits && logits[last] == toks
    requires forall s :: 0 <= s < |mem| ==> mem[s] == toks && samplers[s] == Sampler(seeds[s], 0)
    ensures |NoReplies(seeds)| == |AllLive(|seeds|, last)| == |seeds|
    ensures forall s :: 0 <= s < |seeds| ==> NoReplies(seeds)[s].seed == seeds[s]
    ensures forall s :: 0 <= s < |seeds| ==>
      Begun(mem[s], logits, toks, NoReplies(seeds)[s], AllLive(|seeds|, last)[s], samplers[s], limit, eog, draw)
  {
    hide Begun;
    forall s | 0 <= s < |seeds|
      ensures Begun(mem[s], logits, toks, NoReplies(seeds)[s], AllLive(|seeds|, last)[s], samplers[s], limit, eog, draw)
    {
      ReadyFirst(toks, logits, last, seeds[s], limit, eog, draw);
    }
  }

  /** A sequence before the first round. */
  ghost predicate Begun(mem: seq<Token>, logits: map<nat, seq<Token>>, toks: seq<Token>, r: Reply, l: Live,
      sampler: Sampler, limit: nat, eog: Token -> bool, draw: Draw) {
    Ready(mem, logits, toks, r, l, 0, limit) && Traced(r, toks, eog, draw, 0) && Tally(sampler, r, 0, false)
  }

  /** After the prompt: nothing drawn, and the prompt's logits to draw from. */
  lemma ReadyFirst(toks: seq<Token>, logits: map<nat, seq<Token>>, last: nat, seed: nat, limit: nat, eog: Token -> bool,
        draw: Draw)
    requires last in logits && logits[last] == toks
    ensures Begun(toks, logits, toks, Reply([], Length, seed, []), Live(last, true, 0), Sampler(seed, 0), limit, eog,
            draw)
  {
    assert toks + [] == toks;
  }

  lemma LiveLeft(mem: seq<seq<Token>>, toks: seq<Token>, rs: seq<Reply>, ls: seq<Live>, round: nat, limit: nat)
    requires |mem| == |rs| == |ls| && exists s :: 0 <= s < |ls| && ls[s].active
    requires forall s :: 0 <= s < |ls| ==> Sampled(mem[s], toks, rs[s], ls[s], round, limit)
    ensures round + 1 < AtLeastOne(limit)
  {
  }

  /** A sequence done after sampling is finished. */
  lemma SampledLast(mem: seq<Token>, toks: seq<Token>, r: Reply, l: Live, round: nat, limit: nat)
    requires Sampled(mem, toks, r, l, round, limit) && !l.active
    ensures Finished(r, AtLeastOne(limit)) && Kept(mem, toks, r, limit)
  {
  }

  datatype Outcome = Failed | Samples(replies: seq<Reply>)

  /** How many batches `n` samples take, `cap` at a time. */
  function Batches(n: nat, cap: int): nat {
    if n == 0 || cap < 1 then 0 else 1 + Batches(n - Min(cap, n), cap)
  }

  /** As few as will do. */
  lemma {:induction false} BatchesMean(n: nat, cap: int)
    requires n > 0 && cap >= 1
    ensures Batches(n, cap) > 0 && (Batches(n, cap) - 1) * cap < n <= Batches(n, cap) * cap
  {
    if n > cap {
      BatchesMean(n - cap, cap);
      assert Batches(n, cap) == 1 + Batches(n - cap, cap);
    } else {
      assert Batches(n - n, cap) == 0;
    }
  }

  /** `n` samples of one request, as many at a time as fit: each index once, with its own seed, and no
      batch in more cells than there are. `peaks` are the cells each batch came to use. */
  method GenerateSamples(toks: seq<Token>, n: nat, parallel: int, unified: bool, cells: int, limit: nat, chunk: nat,
        base: nat, eog: Token -> bool, draw: Draw, fails: nat -> nat -> bool)
      returns (r: Outcome, ghost peaks: seq<nat>)
    requires toks != [] && (unified ==> limit > 0) && chunk > 0
    ensures r.Samples? ==> |r.replies| == n && forall i :: 0 <= i < n ==>
      r.replies[i].seed == Seed(base, i) && Finished(r.replies[i], AtLeastOne(limit)) &&
      Traced(r.replies[i], toks, eog, draw, 0)
    ensures forall b <- peaks :: b <= cells
    ensures r.Samples? ==> |peaks| == Batches(n, Cap(unified, parallel, cells, |toks|, limit))
    ensures Cap(unified, parallel, cells, |toks|, limit) < 1 ==> r.Failed?
    ensures r.Failed? ==> Cap(unified, parallel, cells, |toks|, limit) < 1 || exists b: nat :: Breaks(fails(b))
  {
    hide Kept, Seed, Finished, Traced, Used, Cells, Breaks;
    var cap := Cap(unified, parallel, cells, |toks|, limit);
    peaks := [];
    if cap < 1 {
      return Failed, peaks;
    }
    var out: seq<Reply>, first: nat := [], 0;
    while first < n
      invariant |out| == first <= n && forall b <- peaks :: b <= cells
      invariant |peaks| + Batches(n - first, cap) == Batches(n, cap)
      invariant forall i :: 0 <= i < first ==>
        out[i].seed == Seed(base, i) && Finished(out[i], AtLeastOne(limit)) && Traced(out[i], toks, eog, draw, 0)
    {
      var p: nat := Min(cap, n - first);
      ghost var mem;
      var ok, rs;
      ok, rs, mem := GenerateBatch(toks, p, limit, chunk, first, base, eog, draw, fails(first));
      if !ok {
        return Failed, peaks;
      }
      PeakWithin(unified, parallel, cells, toks, limit, mem, rs);
      peaks := peaks + [Used(unified, mem, |toks|)];
      out := out + rs;
      first := first + p;
    }
    return Samples(out), peaks;
  }

  lemma PeakWithin(unified: bool, parallel: int, cells: int, toks: seq<Token>, limit: nat, mem: seq<seq<Token>>,
      rs: seq<Reply>)
    requires toks != [] && (unified ==> limit > 0) && 1 <= |mem| <= Cap(unified, parallel, cells, |toks|, limit)
    requires |mem| == |rs| && forall s :: 0 <= s < |mem| ==> Kept(mem[s], toks, rs[s], limit)
    ensures Used(unified, mem, |toks|) <= cells
  {
    hide Kept, Used, Cells, Cap;
    WithinCells(unified, parallel, cells, |toks|, limit, |mem|);
    KeptLengths(mem, toks, rs, limit);
    UsedWithin(unified, mem, |toks|, limit);
  }

  lemma KeptLengths(mem: seq<seq<Token>>, toks: seq<Token>, rs: seq<Reply>, limit: nat)
    requires |mem| == |rs| && forall s :: 0 <= s < |mem| ==> Kept(mem[s], toks, rs[s], limit)
    ensures forall s :: 0 <= s < |mem| ==> |mem[s]| <= |toks| + limit
  {
  }

  lemma {:induction false} SameDraws(a: Reply, b: Reply, prompt: seq<Token>, eog: Token -> bool, draw: Draw, past: nat,
      n: nat)
    requires Traced(a, prompt, eog, draw, past) && Traced(b, prompt, eog, draw, past) && a.seed == b.seed
    requires n <= |a.drawn| && n <= |b.drawn|
    ensures a.drawn[..n] == b.drawn[..n]
  {
    if n > 0 {
      SameDraws(a, b, prompt, eog, draw, past, n - 1);
      forall j | 0 <= j < n - 1
        ensures a.tokens[j] == b.tokens[j]
      {
        assert a.drawn[j] == a.drawn[..n - 1][j] == b.drawn[..n - 1][j] == b.drawn[j];
      }
      assert a.tokens[..n - 1] == b.tokens[..n - 1];
      assert a.drawn[n - 1] == b.drawn[n - 1];
      assert a.drawn[..n] == a.drawn[..n - 1] + [a.drawn[n - 1]] && b.drawn[..n] == b.drawn[..n - 1] + [b.drawn[n - 1]];
    }
  }

  /** Neither of two such replies goes on where the other is finished. */
  lemma SameLength(a: Reply, b: Reply, prompt: seq<Token>, eog: Token -> bool, draw: Draw, past: nat, limit: nat)
    requires Traced(a, prompt, eog, draw, past) && Traced(b, prompt, eog, draw, past) && a.seed == b.seed
    requires Finished(a, limit) && Finished(b, limit)
    ensures |a.drawn| >= |b.drawn|
  {
    var n := |a.drawn|;
    if n < |b.drawn| && a.finish.Stop? {
      SameDraw(a, b, prompt, eog, draw, past, n - 1);
    }
  }

  lemma SameDraw(a: Reply, b: Reply, prompt: seq<Token>, eog: Token -> bool, draw: Draw, past: nat, j: nat)
    requires Traced(a, prompt, eog, draw, past) && Traced(b, prompt, eog, draw, past) && a.seed == b.seed
    requires j < |a.drawn| && j < |b.drawn|
    ensures a.drawn[j] == b.drawn[j]
  {
    SameDraws(a, b, prompt, eog, draw, past, j + 1);
    assert a.drawn[..j + 1][j] == b.drawn[..j + 1][j];
  }

  /** A finished reply is settled by its prompt, its seed and the draws its sampler had made: how many
      others were generated beside it, and in which batch, makes no difference. */
  lemma SameReply(a: Reply, b: Reply, prompt: seq<Token>, eog: Token -> bool, draw: Draw, past: nat, limit: nat)
    requires Traced(a, prompt, eog, draw, past) && Traced(b, prompt, eog, draw, past) && a.seed == b.seed
    requires Finished(a, limit) && Finished(b, limit)
    ensures a == b
  {
    SameLength(a, b, prompt, eog, draw, past, limit);
    SameLength(b, a, prompt, eog, draw, past, limit);
    var n := |a.drawn|;
    SameDraws(a, b, prompt, eog, draw, past, n);
    assert a.drawn == a.drawn[..n] && b.drawn == b.drawn[..n];
    StopsAtLimit(a, prompt, eog, draw, past, limit);
    StopsAtLimit(b, prompt, eog, draw, past, limit);
    assert |a.tokens| == |b.tokens|;
    forall j | 0 <= j < |a.tokens|
      ensures a.tokens[j] == b.tokens[j]
    {
      assert a.drawn[j] == b.drawn[j];
    }
  }

  /** How a reply ended shows in its last draw. */
  lemma StopsAtLimit(a: Reply, prompt: seq<Token>, eog: Token -> bool, draw: Draw, past: nat, limit: nat)
    requires Traced(a, prompt, eog, draw, past) && Finished(a, limit)
    ensures a.finish.Stop? <==> |a.drawn| > 0 && eog(a.drawn[|a.drawn| - 1].token)
  {
  }

  /** The first sample has the base seed, and each other the seed after the one before it. */
  lemma SeedMeans(base: nat, i: nat)
    requires base < WORD
    ensures Seed(base, 0) == base
    ensures Seed(base, i + 1) == if Seed(base, i) == WORD - 1 then 0 else Seed(base, i) + 1
  {
    assert (base + i + 1) % WORD == ((base + i) % WORD + 1) % WORD;
  }

  /** Seeds of different samples differ, as far as a 32-bit seed can. */
  lemma SeedsApart(base: nat, i: nat, j: nat)
    requires i < j < i + WORD
    ensures Seed(base, i) != Seed(base, j)
  {
    assert (base + j) % WORD == ((base + i) % WORD + (j - i)) % WORD;
  }
}
