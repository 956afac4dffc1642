/** Conversations of several turns (executor/executor.h, `converse`): each sequence keeps a record of
    the tokens its cache holds, a new turn decodes only what the conversation's prompt adds to it, and
    every reply is fed back as it was generated. */
module Conversations {
  import opened Executor

  datatype Role = System | User | Assistant

  datatype Message = Message(role: Role, text: string)

  /** A reply, and how many tokens its prompt had. */
  datatype Said = Said(reply: Reply, prompt: nat)

  // ----- Decoding around a sequence -----

  ghost predicate Without(batch: seq<Entry>, s: nat) {
    forall i :: 0 <= i < |batch| ==> batch[i].s != s
  }

  /** What is pending says nothing of a sequence without a token in it: that one may change. */
  lemma {:induction false} PendingElsewhere(mem: seq<seq<Token>>, batch: seq<Entry>, s: nat, x: seq<Token>)
    requires s < |mem| && Without(batch, s)
    ensures After(mem, batch)[s] == mem[s]
    ensures After(mem[s := x], batch) == After(mem, batch)[s := x]
    ensures Fits(mem, batch) ==> Fits(mem[s := x], batch)
    ensures Logits(mem[s := x], batch) == Logits(mem, batch)
  {
    if batch != [] {
      PendingElsewhere(mem, batch[..|batch| - 1], s, x);
    }
  }

  /** The scan for the common prefix, and the step back that keeps one token to decode. */
  method CommonPrefix(cached: seq<Token>, target: seq<Token>) returns (p: nat)
    requires target != []
    ensures p <= |cached| && p < |target| && cached[..p] == target[..p]
    ensures p + 1 < |target| ==> p == |cached| || cached[p] != target[p]
  {
    p := 0;
    while p < |cached| && p < |target| && cached[p] == target[p]
      invariant p <= |cached| && p <= |target| && cached[..p] == target[..p]
    {
      assert cached[..p + 1] == cached[..p] + [cached[p]] && target[..p + 1] == target[..p] + [target[p]];
      p := p + 1;
    }
    if p >= |target| {
      p := |target| - 1;
      assert cached[..p] == cached[..|target|][..p] && target[..p] == target[..|target|][..p];
    }
  }

  // ----- One turn's prompts -----

  function Advanced(p: Sampler): Sampler {
    Sampler(p.seed, p.count + 1)
  }

  /** The sampler's next draw, from the logits of this context. */
  ghost predicate DrewFrom(x: Drawn, context: seq<Token>, draw: Draw, p: Sampler) {
    x.context == context && x.token == draw(p.seed, p.count, context)
  }

  /** The samplers before a turn's prompts and now. */
  datatype Pens = Pens(was: seq<Sampler>, now: seq<Sampler>, draw: Draw)

  /** Of the first `s` sequences each has been drawn for, once, or waits for the pending batch; the
      samplers of the others have not been touched. */
  ghost predicate Drawing(ends: seq<(nat, nat)>, cached: seq<seq<Token>>, next: seq<Drawn>, s: nat, pens: Pens) {
    && |pens.now| == |pens.was| == |cached| == |next| && s <= |cached|
    && (forall i, j :: 0 <= i < j < |ends| ==> ends[i].0 != ends[j].0)
    && (forall r :: 0 <= r < s && !Ends(ends, r) ==>
          DrewFrom(next[r], cached[r], pens.draw, pens.was[r]) && pens.now[r] == Advanced(pens.was[r]))
    && (forall r :: 0 <= r < |cached| && (s <= r || Ends(ends, r)) ==> pens.now[r] == pens.was[r])
  }

  /** Every sequence's cache is in memory or pending; the first `s` have been drawn for or wait for
      the pending batch, which has no token of those from `w` on. */
  ghost predicate Filling(mem: seq<seq<Token>>, batch: seq<Entry>, ends: seq<(nat, nat)>, cached: seq<seq<Token>>,
        next: seq<Drawn>, s: nat, w: nat, pens: Pens) {
    && |mem| == |cached| == |next| && s <= |mem| && Fits(mem, batch)
    && (forall r :: 0 <= r < |mem| ==> After(mem, batch)[r] == cached[r])
    && (forall r :: w <= r < |mem| ==> Without(batch, r))
    && (forall e <- ends :: e.0 < s) && (batch == [] ==> ends == []) && Waiting(mem, batch, ends, cached)
    && Drawing(ends, cached, next, s, pens)
  }

  ghost predicate Ends(ends: seq<(nat, nat)>, r: nat) {
    exists i: nat :: (r, i) in ends
  }

  /** Each end in the batch has its sequence's whole context behind it. */
  ghost predicate Waiting(mem: seq<seq<Token>>, batch: seq<Entry>, ends: seq<(nat, nat)>, cached: seq<seq<Token>>) {
    forall e <- ends :: e.0 < |cached| && e.1 in Logits(mem, batch) && Logits(mem, batch)[e.1] == cached[e.0]
  }

  /** The waiting sequences have been drawn for, and no others. */
  ghost predicate DrawnFor(ends: seq<(nat, nat)>, cached: seq<seq<Token>>, next: seq<Drawn>, drawn: seq<Drawn>,
        before: seq<Sampler>, after: seq<Sampler>, draw: Draw) {
    |drawn| == |next| == |cached| == |before| == |after| && forall r :: 0 <= r < |next| ==>
      if Ends(ends, r) then DrewFrom(drawn[r], cached[r], draw, before[r]) && after[r] == Advanced(before[r])
      else drawn[r] == next[r] && after[r] == before[r]
  }

  method Flush(ctx: Context, batch: seq<Entry>, ends: seq<(nat, nat)>, ghost cached: seq<seq<Token>>, next: seq<Drawn>)
      returns (ok: bool, drawn: seq<Drawn>)
    requires Fits(ctx.mem, batch) && |batch| <= ctx.capacity && |next| == |cached| == |ctx.samplers|
    requires Waiting(ctx.mem, batch, ends, cached)
    requires forall i, j :: 0 <= i < j < |ends| ==> ends[i].0 != ends[j].0
    requires batch == [] ==> ends == []
    modifies ctx
    ensures !ok ==> Breaks(ctx.fails)
    ensures ok ==> ctx.mem == After(old(ctx.mem), batch)
    ensures ok ==> DrawnFor(ends, cached, next, drawn, old(ctx.samplers), ctx.samplers, ctx.draw)
  {
    hide Fits, After, Logits, Breaks, DrawnFor;
    drawn := next;
    NoneDrawn(cached, next, ctx.samplers, ctx.draw);
    if batch == [] {
      EmptyBatch(ctx.mem);
      return true, drawn;
    }
    ok := ctx.Decode(batch);
    if !ok {
      return;
    }
    for e := 0 to |ends|
      invariant ctx.mem == After(old(ctx.mem), batch) && ctx.logits == Logits(old(ctx.mem), batch)
      invariant |drawn| == |next| && |ctx.samplers| == |next|
      invariant DrawnFor(ends[..e], cached, next, drawn, old(ctx.samplers), ctx.samplers, ctx.draw)
    {
      var s, i := ends[e].0, ends[e].1;
      assert ends[e] in ends;
      ghost var samplers := ctx.samplers;
      var t := ctx.Sample(s, i, cached[s]);
      OneDrawn(ends, e, cached, next, drawn, old(ctx.samplers), samplers, ctx.draw, Drawn(t, cached[s]));
      drawn := drawn[s := Drawn(t, ctx.logits[i])];
    }
    assert ends[..|ends|] == ends;
  }

  lemma NoneDrawn(cached: seq<seq<Token>>, next: seq<Drawn>, samplers: seq<Sampler>, draw: Draw)
    requires |next| == |cached| == |samplers|
    ensures DrawnFor([], cached, next, next, samplers, samplers, draw)
  {
  }

  /** One more of the waiting. */
  lemma OneDrawn(ends: seq<(nat, nat)>, e: nat, cached: seq<seq<Token>>, next: seq<Drawn>, drawn: seq<Drawn>,
        before: seq<Sampler>, after: seq<Sampler>, draw: Draw, x: Drawn)
    requires e < |ends| && DrawnFor(ends[..e], cached, next, drawn, before, after, draw) && ends[e].0 < |cached|
    requires forall i, j :: 0 <= i < j < |ends| ==> ends[i].0 != ends[j].0
    requires var s := ends[e].0; DrewFrom(x, cached[s], draw, after[s])
    ensures var s := ends[e].0;
      DrawnFor(ends[..e + 1], cached, next, drawn[s := x], before, after[s := Advanced(after[s])], draw)
  {
    hide DrewFrom;
    var was, s := ends[..e], ends[e].0;
    assert ends[..e + 1] == was + [ends[e]];
    assert forall r: nat, i: nat :: (r, i) in ends[..e + 1] <==> (r, i) in was || (r, i) == ends[e];
    assert !Ends(was, s);
    assert (s, ends[e].1) in ends[..e + 1];
    assert forall r: nat :: Ends(ends[..e + 1], r) <==> Ends(was, r) || r == s;
  }

  /** After a flush nothing is pending, and everyone waiting has been drawn for. */
  lemma Flushed(mem: seq<seq<Token>>, batch: seq<Entry>, ends: seq<(nat, nat)>, cached: seq<seq<Token>>,
        next: seq<Drawn>, drawn: seq<Drawn>, s: nat, w: nat, pens: Pens, after: seq<Sampler>)
    requires Filling(mem, batch, ends, cached, next, s, w, pens)
    requires DrawnFor(ends, cached, next, drawn, pens.now, after, pens.draw)
    ensures Filling(After(mem, batch), [], [], cached, drawn, s, s, pens.(now := after))
  {
    hide Fits, After, Logits, DrewFrom;
    EmptyBatch(After(mem, batch));
    assert Waiting(After(mem, batch), [], [], cached);
    forall r | 0 <= r < |next| && Ends(ends, r)
      ensures r < s
    {
      var i: nat :| (r, i) in ends;
    }
  }

  /** Cutting a sequence with nothing pending. */
  lemma CutKeeps(mem: seq<seq<Token>>, batch: seq<Entry>, ends: seq<(nat, nat)>, cached: seq<seq<Token>>,
        next: seq<Drawn>, s: nat, x: seq<Token>, pens: Pens)
    requires Filling(mem, batch, ends, cached, next, s, s, pens) && s < |mem|
    ensures mem[s] == cached[s] && Filling(mem[s := x], batch, ends, cached[s := x], next, s, s, pens)
  {
    hide Fits, After, Logits;
    PendingElsewhere(mem, batch, s, x);
  }

  lemma Widened(mem: seq<seq<Token>>, batch: seq<Entry>, ends: seq<(nat, nat)>, cached: seq<seq<Token>>,
        next: seq<Drawn>, s: nat, pens: Pens)
    requires Filling(mem, batch, ends, cached, next, s, s, pens)
    ensures Filling(mem, batch, ends, cached, next, s, s + 1, pens)
  {
  }

  /** One more token of a sequence; with its last, the sequence waits for the batch. */
  lemma Added(mem: seq<seq<Token>>, batch: seq<Entry>, ends: seq<(nat, nat)>, cached: seq<seq<Token>>,
        next: seq<Drawn>, s: nat, t: Token, last: bool, pens: Pens)
    requires Filling(mem, batch, ends, cached, next, s, s + 1, pens) && s < |mem|
    ensures var e := Entry(t, |cached[s]|, s, last);
      var c := cached[s := cached[s] + [t]];
      if last then Filling(mem, batch + [e], ends + [(s, |batch|)], c, next, s + 1, s + 1, pens)
          else Filling(mem, batch + [e], ends, c, next, s, s + 1, pens)
  {
    hide Fits, After, Logits;
    var e := Entry(t, |cached[s]|, s, last);
    var c := cached[s := cached[s] + [t]];
    Snoc(mem, batch, e);
    LogitsBelow(mem, batch);
    var ends' := ends + [(s, |batch|)];
    assert forall r: nat, i: nat :: (r, i) in ends ==> (r, i) in ends';
    assert (s, |batch|) in ends';
    assert Waiting(mem, batch + [e], ends, c);
    forall r | s + 1 <= r < |mem|
      ensures Without(batch + [e], r)
    {
      assert Without(batch, r);
    }
    assert Fits(mem, batch + [e]);
    assert forall r :: 0 <= r < |mem| ==> After(mem, batch + [e])[r] == c[r];
    if last {
      assert Waiting(mem, batch + [e], ends', c);
      AddedDrawing(ends, cached, next, s, t, |batch|, pens);
    }
  }

  lemma AddedDrawing(ends: seq<(nat, nat)>, cached: seq<seq<Token>>, next: seq<Drawn>, s: nat, t: Token, i: nat,
        pens: Pens)
    requires Drawing(ends, cached, next, s, pens) && s < |cached| && forall e <- ends :: e.0 < s
    ensures Drawing(ends + [(s, i)], cached[s := cached[s] + [t]], next, s + 1, pens)
  {
    hide DrewFrom;
    var ends' := ends + [(s, i)];
    assert (s, i) in ends';
    forall r: nat
      ensures Ends(ends', r) <==> Ends(ends, r) || r == s
    {
      if Ends(ends, r) {
        var k: nat :| (r, k) in ends;
        assert (r, k) in ends';
      }
    }
    forall a, b | 0 <= a < b < |ends'|
      ensures ends'[a].0 != ends'[b].0
    {
      assert ends'[a] in ends;
    }
  }

  ghost function PensOf(ctx: Context, was: seq<Sampler>): Pens
    reads ctx
  {
    Pens(was, ctx.samplers, ctx.draw)
  }

  /** What a conversation's prompt adds to one sequence's cache, into the batch. */
  method FillOne(ctx: Context, cached: seq<seq<Token>>, s: nat, target: seq<Token>, batch: seq<Entry>,
        ends: seq<(nat, nat)>, next: seq<Drawn>, ghost was: seq<Sampler>)
      returns (ok: bool, batch': seq<Entry>, ends': seq<(nat, nat)>, next': seq<Drawn>)
    requires s < |ctx.mem| && target != [] && |batch| < ctx.capacity
    requires Filling(ctx.mem, batch, ends, cached, next, s, s, PensOf(ctx, was))
    modifies ctx
    ensures !ok ==> Breaks(ctx.fails)
    ensures ok ==> |batch'| < ctx.capacity && |ctx.mem| == |old(ctx.mem)|
    ensures ok ==> Filling(ctx.mem, batch', ends', cached[s := target], next', s + 1, s + 1, PensOf(ctx, was))
  {
    hide Filling, Waiting, Fits, After, Logits, Breaks;
    ok, batch', ends', next' := true, batch, ends, next;
    FillingSizes(ctx.mem, batch, ends, cached, next, s, s, PensOf(ctx, was));
    CutKeeps(ctx.mem, batch, ends, cached, next, s, cached[s], PensOf(ctx, was));
    var p := CommonPrefix(cached[s], target);
    ghost var c := cached[s := target[..p]];
    CutKeeps(ctx.mem, batch, ends, cached, next, s, target[..p], PensOf(ctx, was));
    if p < |cached[s]| {
      ctx.Cut(s, p);
    } else {
      assert cached[s] == target[..p] && ctx.mem[s := ctx.mem[s]] == ctx.mem;
    }
    Widened(ctx.mem, batch, ends, c, next, s, PensOf(ctx, was));
    for j := p to |target|
      invariant ok && |batch'| < ctx.capacity && |ctx.mem| == |old(ctx.mem)|
      invariant j < |target| ==>
        Filling(ctx.mem, batch', ends', cached[s := target[..j]], next', s, s + 1, PensOf(ctx, was))
      invariant j == |target| ==>
        Filling(ctx.mem, batch', ends', cached[s := target], next', s + 1, s + 1, PensOf(ctx, was))
    {
      var last := j + 1 == |target|;
      ghost var before := cached[s := target[..j]];
      FillingSizes(ctx.mem, batch', ends', before, next', s, s + 1, PensOf(ctx, was));
      Added(ctx.mem, batch', ends', before, next', s, target[j], last, PensOf(ctx, was));
      assert target[..j] + [target[j]] == target[..j + 1] && (last ==> target[..j + 1] == target);
      assert before[s := target[..j + 1]] == cached[s := target[..j + 1]];
      ends' := if last then ends' + [(s, |batch'|)] else ends';
      batch' := batch' + [Entry(target[j], j, s, last)];
      if |batch'| == ctx.capacity {
        ok, batch', ends', next' := FlushAll(ctx, batch', ends', cached[s := target[..j + 1]], next', if last then s + 1
            else s, s + 1, was);
        if !ok {
          return;
        }
      }
    }
  }

  lemma FillingSizes(mem: seq<seq<Token>>, batch: seq<Entry>, ends: seq<(nat, nat)>, cached: seq<seq<Token>>,
        next: seq<Drawn>, s: nat, w: nat, pens: Pens)
    requires Filling(mem, batch, ends, cached, next, s, w, pens)
    ensures |mem| == |cached| == |next|
  {
  }

  method FlushAll(ctx: Context, batch: seq<Entry>, ends: seq<(nat, nat)>, ghost cached: seq<seq<Token>>,
        next: seq<Drawn>, ghost s: nat, ghost w: nat, ghost was: seq<Sampler>)
      returns (ok: bool, batch': seq<Entry>, ends': seq<(nat, nat)>, next': seq<Drawn>)
    requires |batch| <= ctx.capacity && Filling(ctx.mem, batch, ends, cached, next, s, w, PensOf(ctx, was))
    modifies ctx
    ensures !ok ==> Breaks(ctx.fails)
    ensures ok ==> batch' == [] && ends' == [] && |ctx.mem| == |old(ctx.mem)|
    ensures ok ==> Filling(ctx.mem, [], [], cached, next', s, s, PensOf(ctx, was))
    ensures ok ==> Filling(ctx.mem, [], [], cached, next', s, s + 1, PensOf(ctx, was))
  {
    hide Fits, After, Logits, DrawnFor, Breaks;
    ghost var pens := PensOf(ctx, was);
    ok, next' := Flush(ctx, batch, ends, cached, next);
    batch', ends' := [], [];
    if ok {
      Flushed(old(ctx.mem), batch, ends, cached, next, next', s, w, pens, ctx.samplers);
      Widened(ctx.mem, [], [], cached, next', s, PensOf(ctx, was));
    }
  }

  /** Every sequence's cache is its memory, and its next token was drawn from the end of it, by one draw
      of its sampler. */
  ghost predicate Settled(mem: seq<seq<Token>>, cached: seq<seq<Token>>, next: seq<Drawn>, pens: Pens) {
    && mem == cached && |next| == |cached| == |pens.was| == |pens.now|
    && (forall s :: 0 <= s < |cached| ==> DrewFrom(next[s], cached[s], pens.draw, pens.was[s]))
    && forall s :: 0 <= s < |cached| ==> pens.now[s] == Advanced(pens.was[s])
  }

  lemma SettledFilling(mem: seq<seq<Token>>, cached: seq<seq<Token>>, next: seq<Drawn>, pens: Pens)
    requires mem == cached && |next| == |cached| == |pens.was| && pens.now == pens.was
    ensures Filling(mem, [], [], cached, next, 0, 0, pens)
  {
    EmptyBatch(mem);
  }

  lemma FillingSettled(mem: seq<seq<Token>>, cached: seq<seq<Token>>, next: seq<Drawn>, pens: Pens)
    requires Filling(mem, [], [], cached, next, |mem|, |mem|, pens)
    ensures Settled(mem, cached, next, pens)
  {
    EmptyBatch(mem);
  }

  /** A later turn's prompts: each cache is cut back to what it shares with its conversation's prompt,
      and the rest decoded. A sequence is drawn for as soon as the batch with its last token is
      decoded, before the next decode replaces the logits. */
  method NextTurn(ctx: Context, cached: seq<seq<Token>>, next: seq<Drawn>, targets: seq<seq<Token>>)
      returns (ok: bool, drawn: seq<Drawn>)
    requires ctx.mem == cached && |next| == |cached| == |targets| == |ctx.samplers| && ctx.capacity > 0
    requires forall s :: 0 <= s < |targets| ==> targets[s] != []
    modifies ctx
    ensures !ok ==> Breaks(ctx.fails)
    ensures ok ==> Settled(ctx.mem, targets, drawn, PensOf(ctx, old(ctx.samplers)))
  {
    hide Filling, Settled, Breaks;
    var batch: seq<Entry>, ends: seq<(nat, nat)>, c := [], [], cached;
    drawn, ok := next, true;
    ghost var was := ctx.samplers;
    SettledFilling(ctx.mem, c, drawn, PensOf(ctx, was));
    for s := 0 to |targets|
      invariant ok && |batch| < ctx.capacity && |ctx.mem| == |targets| == |c|
      invariant Filling(ctx.mem, batch, ends, c, drawn, s, s, PensOf(ctx, was))
      invariant c == targets[..s] + cached[s..]
    {
      ok, batch, ends, drawn := FillOne(ctx, c, s, targets[s], batch, ends, drawn, was);
      if !ok {
        return;
      }
      c := c[s := targets[s]];
    }
    assert c == targets;
    ok, batch, ends, drawn := FlushAll(ctx, batch, ends, c, drawn, |targets|, |targets|, was);
    if ok {
      FillingSettled(ctx.mem, c, drawn, PensOf(ctx, was));
    }
  }

  /** The first turn's prompt, the same for all: once into the first sequence, and then shared. */
  method FirstTurn(ctx: Context, toks: seq<Token>, chunk: nat)
      returns (ok: bool, cached: seq<seq<Token>>, next: seq<Drawn>)
    requires toks != [] && 0 < chunk <= ctx.capacity && ctx.mem != [] && ctx.mem[0] == []
    requires |ctx.samplers| == |ctx.mem|
    modifies ctx
    ensures !ok ==> Breaks(ctx.fails)
    ensures ok ==> |cached| == |old(ctx.mem)| && (forall s :: 0 <= s < |cached| ==>
        cached[s] == toks) && Settled(ctx.mem, cached, next, PensOf(ctx, old(ctx.samplers)))
  {
    hide Breaks;
    var last;
    cached, next := [], [];
    ok, last := DecodePrompt(ctx, toks, chunk);
    if !ok {
      return;
    }
    var p := |ctx.mem|;
    for s := 0 to p
      invariant |ctx.mem| == p == |old(ctx.mem)| && |cached| == |next| == s && last in ctx.logits
      invariant ctx.logits[last] == toks && ctx.mem[0] == toks
      invariant forall r :: 0 <= r < s ==> ctx.mem[r] == cached[r] == next[r].context == toks
      invariant |ctx.samplers| == p && forall r :: s <= r < p ==> ctx.samplers[r] == old(ctx.samplers)[r]
      invariant forall r :: 0 <= r < s ==> ctx.samplers[r] == Advanced(old(ctx.samplers)[r])
      invariant forall r :: 0 <= r < s ==> DrewFrom(next[r], toks, ctx.draw, old(ctx.samplers)[r])
    {
      if s > 0 {
        ctx.CopySequence(0, s);
      }
      cached := cached + [toks];
      var t := ctx.Sample(s, last, toks);
      next := next + [Drawn(t, toks)];
    }
  }

  // ----- One turn's replies -----

  /** A reply so far, after `round` rounds, against the cache it started from and the cache now. */
  ghost predicate Talking(r: Reply, base: seq<Token>, c: seq<Token>, limit: nat, round: nat, active: bool) {
    if active then r.finish.Length? && |r.tokens| == round < AtLeastOne(limit) && c == base + r.tokens
    else Finished(r, AtLeastOne(limit)) && base <= c <= base + r.tokens && |base| + |r.tokens| <= |c| + 1
  }

  /** Between decodes: memory is the caches, and every unfinished reply's next token was drawn from
      the end of its own. */
  ghost predicate Between(mem: seq<seq<Token>>, bases: seq<seq<Token>>, cached: seq<seq<Token>>, next: seq<Drawn>,
        rs: seq<Reply>, active: seq<bool>, limit: nat, round: nat) {
    && mem == cached && |cached| == |bases| == |next| == |rs| == |active|
    && (forall s :: 0 <= s < |cached| ==> Talking(rs[s], bases[s], cached[s], limit, round, active[s]))
    && forall s :: 0 <= s < |cached| && active[s] ==> next[s].context == cached[s]
  }

  /** Within a round: the first `s` sequences have been looked at, their new tokens pending. */
  ghost predicate Looking(mem: seq<seq<Token>>, batch: seq<Entry>, idx: seq<nat>, bases: seq<seq<Token>>,
        cached: seq<seq<Token>>, next: seq<Drawn>, rs: seq<Reply>, active: seq<bool>, limit: nat, round: nat, s: nat) {
    && |mem| == |cached| == |bases| == |next| == |rs| == |active| ==
        |idx| && s <= |mem| && |batch| <= s && Fits(mem, batch)
    && (forall r :: 0 <= r < |mem| ==> After(mem, batch)[r] == cached[r])
    && (forall r :: 0 <= r < s ==> Talking(rs[r], bases[r], cached[r], limit, round + 1, active[r]))
    && (forall r :: 0 <= r < s && active[r] ==> idx[r] in Logits(mem, batch) && Logits(mem, batch)[idx[r]] == cached[r])
    && (forall r :: s <= r < |mem| ==> Talking(rs[r], bases[r], cached[r], limit, round, active[r]))
    && (forall r :: s <= r < |mem| && active[r] ==> next[r].context == cached[r])
    && (batch == [] <==> forall r :: 0 <= r < s ==> !active[r])
  }

  lemma LookStart(mem: seq<seq<Token>>, idx: seq<nat>, bases: seq<seq<Token>>, cached: seq<seq<Token>>,
        next: seq<Drawn>, rs: seq<Reply>, active: seq<bool>, limit: nat, round: nat)
    requires Between(mem, bases, cached, next, rs, active, limit, round) && |idx| == |mem|
    ensures Looking(mem, [], idx, bases, cached, next, rs, active, limit, round, 0)
  {
    EmptyBatch(mem);
  }

  lemma LookPast(mem: seq<seq<Token>>, batch: seq<Entry>, idx: seq<nat>, bases: seq<seq<Token>>,
        cached: seq<seq<Token>>, next: seq<Drawn>, rs: seq<Reply>, active: seq<bool>, limit: nat, round: nat, s: nat,
        r: Reply)
    requires Looking(mem, batch, idx, bases, cached, next, rs, active, limit, round, s) && s < |mem|
    requires Talking(r, bases[s], cached[s], limit, round + 1, false)
    ensures Looking(mem, batch, idx, bases, cached, next, rs[s := r], active[s := false], limit, round, s + 1)
  {
    hide Fits, After, Logits, Talking;
  }

  lemma LookAdd(mem: seq<seq<Token>>, batch: seq<Entry>, idx: seq<nat>, bases: seq<seq<Token>>,
        cached: seq<seq<Token>>, next: seq<Drawn>, rs: seq<Reply>, active: seq<bool>, limit: nat, round: nat, s: nat,
        t: Token, r: Reply)
    requires Looking(mem, batch, idx, bases, cached, next, rs, active, limit, round, s) && s < |mem| && active[s]
    requires Talking(r, bases[s], cached[s] + [t], limit, round + 1, true)
    ensures Looking(mem, batch + [Entry(t, |cached[s]|, s, true)], idx[s := |batch|], bases,
            cached[s := cached[s] + [t]], next, rs[s := r], active, limit, round, s + 1)
  {
    hide Fits, After, Logits, Talking;
    Snoc(mem, batch, Entry(t, |cached[s]|, s, true));
    LogitsBelow(mem, batch);
  }

  lemma TalkStart(mem: seq<seq<Token>>, start: seq<seq<Token>>, first: seq<Drawn>, rs: seq<Reply>, active: seq<bool>,
        limit: nat)
    requires mem == start && |first| == |rs| == |active| == |start|
    requires forall s :: 0 <= s < |start| ==> first[s].context == start[s]
    requires forall s :: 0 <= s < |start| ==> rs[s].tokens == [] && rs[s].finish.Length? && active[s]
    ensures Between(mem, start, start, first, rs, active, limit, 0)
  {
    forall s | 0 <= s < |start|
      ensures start[s] + rs[s].tokens == start[s]
    {
    }
  }

  /** Every sequence's sampler has made its reply's draws, and the next token's where one waits. */
  ghost predicate Paced(samplers: seq<Sampler>, draw: Draw, past: seq<nat>, next: seq<Drawn>, rs: seq<Reply>,
        active: seq<bool>) {
    && |samplers| == |past| == |next| == |rs| == |active|
    && (forall s :: 0 <= s < |rs| ==> Tally(samplers[s], rs[s], past[s], active[s]))
    && forall s :: 0 <= s < |rs| && active[s] ==> Drew(next[s], rs[s], draw, past[s])
  }

  /** And nothing waits. */
  ghost predicate Counted(samplers: seq<Sampler>, past: seq<nat>, rs: seq<Reply>) {
    |samplers| == |past| == |rs| && forall s :: 0 <= s < |rs| ==> Tally(samplers[s], rs[s], past[s], false)
  }

  /** The start of a turn's replies: the sampler of each has made the draws before, and one. */
  lemma PaceStart(start: seq<seq<Token>>, first: seq<Drawn>, pens: Pens, seeds: seq<nat>, past: seq<nat>,
        rs: seq<Reply>,
        active: seq<bool>)
    requires Settled(start, start, first, pens) && |seeds| == |past| == |rs| == |active| == |start|
    requires forall s :: 0 <= s < |start| ==> pens.was[s] == Sampler(seeds[s], past[s]) && active[s]
    requires forall s :: 0 <= s < |start| ==> rs[s] == Reply([], Length, seeds[s], [])
    ensures Paced(pens.now, pens.draw, past, first, rs, active)
    ensures forall s :: 0 <= s < |start| ==> first[s].context == start[s]
  {
    forall s | 0 <= s < |rs|
      ensures Tally(pens.now[s], rs[s], past[s], true) && Drew(first[s], rs[s], pens.draw, past[s])
    {
      assert DrewFrom(first[s], start[s], pens.draw, pens.was[s]);
    }
  }

  /** Nothing to decode: every reply is done. */
  lemma AllDone(mem: seq<seq<Token>>, idx: seq<nat>, bases: seq<seq<Token>>, cached: seq<seq<Token>>,
        next: seq<Drawn>, rs: seq<Reply>, active: seq<bool>, limit: nat, round: nat)
    requires Looking(mem, [], idx, bases, cached, next, rs, active, limit, round, |mem|)
    ensures mem == cached && forall s :: 0 <= s < |mem| ==> Talking(rs[s], bases[s], cached[s], limit, 0, false)
  {
    EmptyBatch(mem);
  }

  lemma RoundsLeft(mem: seq<seq<Token>>, batch: seq<Entry>, idx: seq<nat>, bases: seq<seq<Token>>,
        cached: seq<seq<Token>>, next: seq<Drawn>, rs: seq<Reply>, active: seq<bool>, limit: nat, round: nat)
    requires Looking(mem, batch, idx, bases, cached, next, rs, active, limit, round, |mem|) && batch != []
    ensures round + 1 < AtLeastOne(limit) && Fits(mem, batch) && |batch| <= |mem|
  {
    hide Fits, After, Logits;
    var r :| 0 <= r < |mem| && active[r];
  }

  /** Every unfinished sequence's token is looked at: the end, the last it may have, or one to go on. */
  method LookAll(ctx: Context, idx: seq<nat>, ghost bases: seq<seq<Token>>, cached: seq<seq<Token>>, next: seq<Drawn>,
        rs: seq<Reply>, active: seq<bool>, limit: nat, ghost round: nat, eog: Token -> bool, ghost past: seq<nat>)
      returns (batch: seq<Entry>, idx': seq<nat>, cached': seq<seq<Token>>, rs': seq<Reply>, active': seq<bool>)
    requires Looking(ctx.mem, [], idx, bases, cached, next, rs, active, limit, round, 0)
    requires |ctx.mem| == |rs| == |active| == |next| == |cached| == |idx| == |bases|
    requires Paced(ctx.samplers, ctx.draw, past, next, rs, active)
    requires forall s :: 0 <= s < |rs| ==> Traced(rs[s], bases[s], eog, ctx.draw, past[s])
    ensures Counted(ctx.samplers, past, rs')
    ensures forall s :: 0 <= s < |rs| ==> s < |rs'| && Traced(rs'[s], bases[s], eog, ctx.draw, past[s])
    ensures Looking(ctx.mem, batch, idx', bases, cached', next, rs', active', limit, round, |ctx.mem|)
    ensures |rs'| == |active'| == |idx'| == |cached'| == |ctx.mem|
    ensures forall s :: 0 <= s < |rs| ==> rs'[s].seed == rs[s].seed
  {
    hide Fits, After, Logits, Talking, Looking, Traced, Drew;
    batch, idx', cached', rs', active' := [], idx, cached, rs, active;
    for s := 0 to |ctx.mem|
      invariant |rs'| == |active'| == |idx'| == |cached'| == |ctx.mem|
      invariant forall r :: 0 <= r < |rs| ==> rs'[r].seed == rs[r].seed
      invariant forall r :: 0 <= r < |rs| ==> Traced(rs'[r], bases[r], eog, ctx.draw, past[r])
      invariant forall r :: 0 <= r < s ==> Tally(ctx.samplers[r], rs'[r], past[r], false)
      invariant forall r :: s <= r < |rs| ==> rs'[r] == rs[r] && active'[r] == active[r]
      invariant Looking(ctx.mem, batch, idx', bases, cached', next, rs', active', limit, round, s)
    {
      LookHere(ctx.mem, batch, idx', bases, cached', next, rs', active', limit, round, s);
      if !active'[s] {
        LookPast(ctx.mem, batch, idx', bases, cached', next, rs', active', limit, round, s, rs'[s]);
        assert rs'[s := rs'[s]] == rs' && active'[s := false] == active';
      } else if eog(next[s].token) {
        var r := Stopped(rs'[s], next[s]);
        TalkStop(rs'[s], bases[s], cached'[s], limit, round, next[s]);
        TracedStop(rs'[s], bases[s], eog, ctx.draw, past[s], next[s]);
        LookPast(ctx.mem, batch, idx', bases, cached', next, rs', active', limit, round, s, r);
        rs', active' := rs'[s := r], active'[s := false];
      } else {
        var t := next[s].token;
        var r := Longer(rs'[s], next[s]);
        TalkMore(rs'[s], bases[s], cached'[s], limit, round, next[s]);
        TracedMore(rs'[s], bases[s], eog, ctx.draw, past[s], next[s]);
        if |r.tokens| >= limit {
          LookPast(ctx.mem, batch, idx', bases, cached', next, rs', active', limit, round, s, r);
          rs', active' := rs'[s := r], active'[s := false];
        } else {
          LookAdd(ctx.mem, batch, idx', bases, cached', next, rs', active', limit, round, s, t, r);
          idx', rs' := idx'[s := |batch|], rs'[s := r];
          batch := batch + [Entry(t, |cached'[s]|, s, true)];
          cached' := cached'[s := cached'[s] + [t]];
        }
      }
    }
  }

  lemma LookHere(mem: seq<seq<Token>>, batch: seq<Entry>, idx: seq<nat>, bases: seq<seq<Token>>,
        cached: seq<seq<Token>>, next: seq<Drawn>, rs: seq<Reply>, active: seq<bool>, limit: nat, round: nat, s: nat)
    requires Looking(mem, batch, idx, bases, cached, next, rs, active, limit, round, s) && s < |mem|
    ensures |mem| == |cached| == |bases| == |next| == |rs| == |active|
    ensures active[s] ==> next[s].context == cached[s]
    ensures Talking(rs[s], bases[s], cached[s], limit, round, active[s])
    ensures Talking(rs[s], bases[s], cached[s], limit, round + 1, false) ==
        Talking(rs[s], bases[s], cached[s], limit, round, false)
  {
    hide Fits, After, Logits;
  }

  lemma TalkStop(r: Reply, base: seq<Token>, c: seq<Token>, limit: nat, round: nat, x: Drawn)
    requires Talking(r, base, c, limit, round, true) && x.context == c
    ensures Talking(Stopped(r, x), base, c, limit, round + 1, false) && r.finish.Length? && x.context == base + r.tokens
  {
  }

  lemma TalkMore(r: Reply, base: seq<Token>, c: seq<Token>, limit: nat, round: nat, x: Drawn)
    requires Talking(r, base, c, limit, round, true) && x.context == c
    ensures r.finish.Length? && x.context == base + r.tokens
    ensures var l := Longer(r, x);
      if |l.tokens| >= limit then Talking(l, base, c, limit, round + 1, false)
          else Talking(l, base, c + [x.token], limit, round + 1, true)
  {
    assert base + (r.tokens + [x.token]) == (base + r.tokens) + [x.token];
  }

  /** Every unfinished sequence draws from the logits after its own last token. */
  method DrawAll(ctx: Context, ghost before: seq<seq<Token>>, ghost batch: seq<Entry>, idx: seq<nat>,
        ghost bases: seq<seq<Token>>, cached: seq<seq<Token>>, next: seq<Drawn>, rs: seq<Reply>, active: seq<bool>,
        limit: nat, ghost round: nat, ghost past: seq<nat>)
      returns (drawn: seq<Drawn>)
    requires Looking(before, batch, idx, bases, cached, next, rs, active, limit, round, |before|)
    requires ctx.mem == After(before, batch) && ctx.logits == Logits(before, batch)
    requires Counted(ctx.samplers, past, rs)
    modifies ctx`samplers
    ensures |drawn| == |next| && Between(ctx.mem, bases, cached, drawn, rs, active, limit, round + 1)
    ensures Paced(ctx.samplers, ctx.draw, past, drawn, rs, active)
  {
    hide Fits, After, Logits, Talking;
    drawn := next;
    for s := 0 to |cached|
      invariant |drawn| == |next| && |ctx.samplers| == |rs|
      invariant forall r :: 0 <= r < s && active[r] ==> drawn[r].context == cached[r]
      invariant forall r :: 0 <= r < s ==> Tally(ctx.samplers[r], rs[r], past[r], active[r])
      invariant forall r :: 0 <= r < s && active[r] ==> Drew(drawn[r], rs[r], ctx.draw, past[r])
      invariant forall r :: s <= r < |rs| ==> ctx.samplers[r] == old(ctx.samplers)[r]
    {
      assert Tally(ctx.samplers[s], rs[s], past[s], false);
      if active[s] {
        var t := ctx.Sample(s, idx[s], cached[s]);
        drawn := drawn[s := Drawn(t, cached[s])];
      }
    }
    assert ctx.mem == cached;
  }

  /** The replies of one turn: one token of every unfinished sequence a decode, until all are done. The
      samplers have made `past` draws in earlier turns, and one each to begin this one. */
  method Generate(ctx: Context, start: seq<seq<Token>>, first: seq<Drawn>, seeds: seq<nat>, limit: nat,
        eog: Token -> bool, ghost was: seq<Sampler>, ghost past: seq<nat>)
      returns (ok: bool, cached: seq<seq<Token>>, rs: seq<Reply>)
    requires Settled(ctx.mem, start, first, PensOf(ctx, was)) && |seeds| == |past| == |start| <= ctx.capacity
    requires forall s :: 0 <= s < |start| ==> was[s] == Sampler(seeds[s], past[s])
    modifies ctx
    ensures !ok ==> Breaks(ctx.fails)
    ensures ok ==> ctx.mem == cached && |cached| == |rs| == |start| && Counted(ctx.samplers, past, rs)
    ensures ok ==> forall s :: 0 <= s < |start| ==>
      && rs[s].seed == seeds[s] && Talking(rs[s], start[s], cached[s], limit, 0, false)
      && Traced(rs[s], start[s], eog, ctx.draw, past[s])
  {
    hide Fits, After, Logits, Talking, Looking, Between, Paced, Counted, Breaks, Traced;
    var p := |start|;
    ok := true;
    rs := seq(p, s requires 0 <= s < p => Reply([], Length, seeds[s], []));
    cached := start;
    var next, active, idx := first, seq(p, s requires 0 <= s < p => true), seq(p, s requires 0 <= s < p => 0);
    PaceStart(start, first, PensOf(ctx, was), seeds, past, rs, active);
    TalkStart(ctx.mem, start, first, rs, active, limit);
    NothingTraced(seeds, start, eog, ctx.draw, past);
    ghost var round: nat := 0;
    while true
      invariant |rs| == |active| == |idx| == |next| == |cached| == |ctx.mem| == p
      invariant Between(ctx.mem, start, cached, next, rs, active, limit, round) && round <= AtLeastOne(limit)
      invariant Paced(ctx.samplers, ctx.draw, past, next, rs, active)
      invariant forall s :: 0 <= s < p ==> rs[s].seed == seeds[s] && Traced(rs[s], start[s], eog, ctx.draw, past[s])
      decreases AtLeastOne(limit) - round
    {
      LookStart(ctx.mem, idx, start, cached, next, rs, active, limit, round);
      var batch;
      batch, idx, cached, rs, active := LookAll(ctx, idx, start, cached, next, rs, active, limit, round, eog, past);
      if batch == [] {
        AllDone(ctx.mem, idx, start, cached, next, rs, active, limit, round);
        return;
      }
      RoundsLeft(ctx.mem, batch, idx, start, cached, next, rs, active, limit, round);
      ghost var before := ctx.mem;
      ok := ctx.Decode(batch);
      if !ok {
        return;
      }
      next := DrawAll(ctx, before, batch, idx, start, cached, next, rs, active, limit, round, past);
      round := round + 1;
    }
  }

  lemma NothingTraced(seeds: seq<nat>, start: seq<seq<Token>>, eog: Token -> bool, draw: Draw, past: seq<nat>)
    requires |seeds| == |start| == |past|
    ensures forall s :: 0 <= s < |start| ==> Traced(Reply([], Length, seeds[s], []), start[s], eog, draw, past[s])
  {
  }

  // ----- Whole conversations -----

  /** The turns to send, and how a reply's tokens read as text and a conversation as tokens. */
  datatype Script =
    Script(system: string, turns: seq<string>, encode: seq<Message> -> seq<Token>, say: seq<Token> -> string)

  /** The messages before the reply to turn `|said|`: every earlier turn, and each reply as it was. */
  function History(y: Script, said: seq<Said>): seq<Message>
    requires |said| < |y.turns|
  {
    if said == [] then [Message(System, y.system), Message(User, y.turns[0])]
    else
      var last := |said| - 1;
      History(y, said[..last]) + [Message(Assistant, y.say(said[last].reply.tokens)), Message(User, y.turns[last + 1])]
  }

  /** The system's message first; then each turn as the user's, and after it what was said to it, word
      for word. */
  lemma {:induction false} HistoryMeans(y: Script, said: seq<Said>)
    requires |said| < |y.turns|
    ensures |History(y, said)| == 2 * |said| + 2 && History(y, said)[0] == Message(System, y.system)
    ensures forall t :: 0 <= t <= |said| ==> History(y, said)[2 * t + 1] == Message(User, y.turns[t])
    ensures forall t :: 0 <= t < |said| ==>
      History(y, said)[2 * t + 2] == Message(Assistant, y.say(said[t].reply.tokens))
    decreases |said|
  {
    if said != [] {
      HistoryMeans(y, said[..|said| - 1]);
    }
  }

  /** An intermediate reply has its own limit. */
  function LimitOf(y: Script, intermediate: nat, final: nat, t: nat): (r: nat)
    ensures t < |y.turns| ==> r == if y.turns[t + 1..] == [] then final else intermediate
  {
    if t + 1 == |y.turns| then final else intermediate
  }

  /** The draws made for these replies. */
  function Draws(said: seq<Said>): nat {
    if said == [] then 0 else Draws(said[..|said| - 1]) + |said[|said| - 1].reply.drawn|
  }

  /** A conversation so far: every reply drawn with the sample's seed, within its limit, and to a
      prompt that is the conversation before it: every token after that prompt and the tokens before
      it, up to the first that ends the text, by one sampler throughout. */
  ghost predicate Conversed(y: Script, said: seq<Said>, seed: nat, intermediate: nat, final: nat, eog: Token -> bool,
        draw: Draw) {
    |said| <= |y.turns| && forall t :: 0 <= t < |said| ==> Answered(y, said, t, seed, intermediate, final, eog, draw)
  }

  /** The reply to turn `t`. */
  ghost predicate Answered(y: Script, said: seq<Said>, t: nat, seed: nat, intermediate: nat, final: nat,
        eog: Token -> bool, draw: Draw)
    requires t < |said| <= |y.turns|
  {
    var prompt := y.encode(History(y, said[..t]));
    && said[t].reply.seed == seed && Finished(said[t].reply, AtLeastOne(LimitOf(y, intermediate, final, t)))
    && said[t].prompt == |prompt| && Traced(said[t].reply, prompt, eog, draw, Draws(said[..t]))
  }

  /** A sampler that draws greedily has no seed. */
  function SeedOf(greedy: bool, base: nat, i: nat): (r: nat)
    ensures greedy ==> r == 0
    ensures !greedy ==> r == (base + i) % 0x1_0000_0000
  {
    if greedy then 0 else Seed(base, i)
  }

  lemma ConversedMore(y: Script, said: seq<Said>, seed: nat, intermediate: nat, final: nat, eog: Token -> bool,
        draw: Draw, x: Said)
    requires Conversed(y, said, seed, intermediate, final, eog, draw) && |said| < |y.turns|
    requires x.reply.seed == seed && Finished(x.reply, AtLeastOne(LimitOf(y, intermediate, final, |said|)))
    requires x.prompt == |y.encode(History(y, said))|
    requires Traced(x.reply, y.encode(History(y, said)), eog, draw, Draws(said))
    ensures Conversed(y, said + [x], seed, intermediate, final, eog, draw)
    ensures Draws(said + [x]) == Draws(said) + |x.reply.drawn|
  {
    hide Traced, Finished, History, LimitOf;
    var more := said + [x];
    assert said[..|said|] == said && more[..|said|] == said;
    forall t | 0 <= t < |more|
      ensures Answered(y, more, t, seed, intermediate, final, eog, draw)
    {
      assert more[..t] == said[..t];
      assert t < |said| ==> Answered(y, said, t, seed, intermediate, final, eog, draw);
    }
  }

  /** A conversation is settled by its script, its seed and the limits: the others of its batch make no
      difference to it. */
  lemma {:induction false} SameConversation(y: Script, a: seq<Said>, b: seq<Said>, seed: nat, intermediate: nat,
        final: nat, eog: Token -> bool, draw: Draw, n: nat)
    requires Conversed(y, a, seed, intermediate, final, eog, draw)
    requires Conversed(y, b, seed, intermediate, final, eog, draw)
    requires n <= |a| && n <= |b|
    ensures a[..n] == b[..n]
  {
    hide Traced, Finished, History, LimitOf, Draws;
    if n > 0 {
      var t := n - 1;
      SameConversation(y, a, b, seed, intermediate, final, eog, draw, t);
      assert Answered(y, a, t, seed, intermediate, final, eog, draw) &&
          Answered(y, b, t, seed, intermediate, final, eog, draw);
      SameReply(a[t].reply, b[t].reply, y.encode(History(y, a[..t])), eog, draw, Draws(a[..t]),
                AtLeastOne(LimitOf(y, intermediate, final, t)));
      assert a[..n] == a[..t] + [a[t]] && b[..n] == b[..t] + [b[t]];
    }
  }

  /** One batch of conversations, each in a sequence of its own. At every turn's end the record of
      each cache is what is in memory. */
  method ConverseBatch(y: Script, p: nat, first: nat, chunk: nat, base: nat, greedy: bool, intermediate: nat,
        final: nat, eog: Token -> bool, draw: Draw, fails: nat -> bool)
      returns (ok: bool, out: seq<seq<Said>>)
    requires p > 0 && chunk > 0 && y.turns != [] && forall h :: y.encode(h) != []
    ensures !ok ==> Breaks(fails)
    ensures ok ==> |out| == p && forall s :: 0 <= s < p ==>
      |out[s]| == |y.turns| && Conversed(y, out[s], SeedOf(greedy, base, first + s), intermediate, final, eog, draw)
  {
    hide Settled, Conversed, Talking, Traced, Breaks;
    var seeds := SeedsOf(greedy, base, first, p);
    var ctx := new Context(seeds, if chunk < p then p else chunk, draw, fails);
    out := seq(p, s requires 0 <= s < p => []);
    var cached: seq<seq<Token>> := ctx.mem;
    NothingSaid(y, intermediate, final, eog, draw);
    for t := 0 to |y.turns|
      invariant |out| == |cached| == p && |seeds| == p && ctx.capacity >= p && ctx.capacity >= chunk
      invariant ctx.draw == draw && ctx.fails == fails
      invariant ctx.mem == cached
      invariant t == 0 ==> forall s :: 0 <= s < p ==> ctx.mem[s] == []
      invariant ctx.samplers == AtDraws(seeds, out)
      invariant forall s :: 0 <= s < p ==>
        |out[s]| == t && Conversed(y, out[s], seeds[s], intermediate, final, eog, draw)
    {
      ok, cached, out := OneTurn(ctx, y, t, cached, out, seeds, chunk, intermediate, final, eog);
      if !ok {
        return;
      }
    }
    ok := true;
  }

  function SeedsOf(greedy: bool, base: nat, first: nat, p: nat): (r: seq<nat>)
    ensures |r| == p && forall s :: 0 <= s < p ==> r[s] == SeedOf(greedy, base, first + s)
  {
    seq<nat>(p, s requires 0 <= s < p => SeedOf(greedy, base, first + s))
  }

  /** Each sampler after the draws of its conversation so far. */
  ghost function AtDraws(seeds: seq<nat>, out: seq<seq<Said>>): (r: seq<Sampler>)
    requires |seeds| == |out|
    ensures |r| == |out| && forall s :: 0 <= s < |out| ==> r[s] == Sampler(seeds[s], Draws(out[s]))
  {
    seq(|out|, s requires 0 <= s < |out| => Sampler(seeds[s], Draws(out[s])))
  }

  ghost function Pasts(out: seq<seq<Said>>): (r: seq<nat>)
    ensures |r| == |out| && forall s :: 0 <= s < |out| ==> r[s] == Draws(out[s])
  {
    seq<nat>(|out|, s requires 0 <= s < |out| => Draws(out[s]))
  }

  function Prompts(y: Script, out: seq<seq<Said>>): (r: seq<seq<Token>>)
    requires forall s :: 0 <= s < |out| ==> |out[s]| < |y.turns|
    ensures |r| == |out| && forall s :: 0 <= s < |out| ==> r[s] == y.encode(History(y, out[s]))
  {
    seq(|out|, s requires 0 <= s < |out| => y.encode(History(y, out[s])))
  }

  /** One turn of every conversation of a batch. */
  method OneTurn(ctx: Context, y: Script, t: nat, cached: seq<seq<Token>>, out: seq<seq<Said>>, seeds: seq<nat>,
        chunk: nat, intermediate: nat, final: nat, eog: Token -> bool)
      returns (ok: bool, cached': seq<seq<Token>>, out': seq<seq<Said>>)
    requires t < |y.turns| && ctx.mem == cached && |cached| == |out| == |seeds| && 0 < |out| <= ctx.capacity
    requires 0 < chunk <= ctx.capacity
    requires t == 0 ==> ctx.mem[0] == []
    requires forall h :: y.encode(h) != []
    requires ctx.samplers == AtDraws(seeds, out)
    requires forall s :: 0 <= s < |out| ==>
      |out[s]| == t && Conversed(y, out[s], seeds[s], intermediate, final, eog, ctx.draw)
    modifies ctx
    ensures !ok ==> Breaks(ctx.fails)
    ensures ok ==> ctx.mem == cached' && |cached'| == |out'| == |out| && ctx.samplers == AtDraws(seeds, out')
    ensures ok ==> forall s :: 0 <= s < |out| ==>
      |out'[s]| == t + 1 && Conversed(y, out'[s], seeds[s], intermediate, final, eog, ctx.draw)
  {
    hide Settled, Conversed, Talking, Finished, Traced, Breaks, Draws, AtDraws, Pasts, Counted;
    var targets := Prompts(y, out);
    ghost var was := ctx.samplers;
    var next;
    cached', out' := cached, out;
    if t == 0 {
      ok, cached', next := FirstTurn(ctx, y.encode(History(y, [])), chunk);
      assert ok ==> cached' == targets;
    } else {
      ok, next := NextTurn(ctx, cached, seq(|cached|, s requires 0 <= s < |cached| => Drawn(0, [])), targets);
      cached' := targets;
    }
    if !ok {
      return;
    }
    var rs;
    ok, cached', rs := Generate(ctx, targets, next, seeds, LimitOf(y, intermediate, final, t), eog, was, Pasts(out));
    if ok {
      out' := WithReplies(out, rs, targets);
      TurnTaken(y, t, out, seeds, intermediate, final, eog, ctx.draw, targets, cached', rs, ctx.samplers);
    }
  }

  function WithReplies(out: seq<seq<Said>>, rs: seq<Reply>, targets: seq<seq<Token>>): seq<seq<Said>>
    requires |rs| == |out| == |targets|
  {
    seq(|out|, s requires 0 <= s < |out| => out[s] + [Said(rs[s], |targets[s]|)])
  }

  lemma TurnTaken(y: Script, t: nat, out: seq<seq<Said>>, seeds: seq<nat>, intermediate: nat, final: nat,
        eog: Token -> bool, draw: Draw, targets: seq<seq<Token>>, cached: seq<seq<Token>>, rs: seq<Reply>,
        samplers: seq<Sampler>)
    requires t < |y.turns| && |rs| == |out| == |seeds| == |cached| && Counted(samplers, Pasts(out), rs)
    requires forall s :: 0 <= s < |out| ==>
      |out[s]| == t && Conversed(y, out[s], seeds[s], intermediate, final, eog, draw)
    requires targets == Prompts(y, out)
    requires forall s :: 0 <= s < |out| ==>
      && rs[s].seed == seeds[s] && Traced(rs[s], targets[s], eog, draw, Draws(out[s]))
      && Talking(rs[s], targets[s], cached[s], LimitOf(y, intermediate, final, t), 0, false)
    ensures samplers == AtDraws(seeds, WithReplies(out, rs, targets))
    ensures forall s :: 0 <= s < |out| ==> var o := WithReplies(out, rs, targets)[s];
      |o| == t + 1 && Conversed(y, o, seeds[s], intermediate, final, eog, draw)
  {
    hide Conversed, Talking, Finished, Traced, Draws, History, LimitOf;
    forall s | 0 <= s < |out|
      ensures Conversed(y, WithReplies(out, rs, targets)[s], seeds[s], intermediate, final, eog, draw)
      ensures samplers[s] == Sampler(seeds[s], Draws(WithReplies(out, rs, targets)[s]))
    {
      TalkedOut(rs[s], targets[s], cached[s], LimitOf(y, intermediate, final, t));
      ConversedMore(y, out[s], seeds[s], intermediate, final, eog, draw, Said(rs[s], |targets[s]|));
      assert Tally(samplers[s], rs[s], Pasts(out)[s], false);
    }
  }

  lemma NothingSaid(y: Script, intermediate: nat, final: nat, eog: Token -> bool, draw: Draw)
    ensures forall seed: nat :: Conversed(y, [], seed, intermediate, final, eog, draw)
  {
  }

  lemma TalkedOut(r: Reply, start: seq<Token>, cached: seq<Token>, limit: nat)
    requires Talking(r, start, cached, limit, 0, false)
    ensures Finished(r, AtLeastOne(limit))
  {
  }

  datatype Result = Refused | Replies(out: seq<seq<Said>>)

  /** Room for one conversation beyond its first prompt: every reply at its limit, every later turn
      with the template around it, and some slack. */
  function PerSequence(y: Script, intermediate: nat, final: nat, length: string -> nat, t: nat): nat
    requires t <= |y.turns|
    decreases |y.turns| - t
  {
    if t == |y.turns| then 64
    else LimitOf(y, intermediate, final, t) + (if t > 0 then length(y.turns[t]) + 16
        else 0) + PerSequence(y, intermediate, final, length, t + 1)
  }

  /** How many conversations fit at a time; one where replies are greedy. */
  function RoomFor(y: Script, greedy: bool, parallel: int, unified: bool, cells: int, intermediate: nat, final: nat,
        length: string -> nat): int
  {
    if y.turns == [] then 0
    else
      RoomAtLeast(y, intermediate, final, length, 0);
      Cap(unified, if greedy then 1 else parallel, cells, |y.encode(History(y, []))|,
          PerSequence(y, intermediate, final, length, 0))
  }

  /** `n` conversations, as many at a time as fit: each index once, with its own seed. */
  method Converse(y: Script, n: nat, greedy: bool, parallel: int, unified: bool, cells: int, chunk: nat, base: nat,
        intermediate: nat, final: nat,
                  length: string -> nat, eog: Token -> bool, draw: Draw, fails: nat -> nat -> bool) returns (r: Result)
    requires chunk > 0 && forall h :: y.encode(h) != []
    ensures y.turns == [] || RoomFor(y, greedy, parallel, unified, cells, intermediate, final, length) < 1 ==>
      r.Refused?
    ensures r.Refused? && y.turns != [] ==>
      RoomFor(y, greedy, parallel, unified, cells, intermediate, final, length) < 1 || exists b: nat :: Breaks(fails(b))
    ensures r.Replies? ==> |r.out| == n && forall i :: 0 <= i < n ==>
      |r.out[i]| == |y.turns| && Conversed(y, r.out[i], SeedOf(greedy, base, i), intermediate, final, eog, draw)
  {
    hide Conversed, RoomFor, Breaks, SeedOf;
    if y.turns == [] {
      return Refused;
    }
    var cap := RoomFor(y, greedy, parallel, unified, cells, intermediate, final, length);
    if cap < 1 {
      return Refused;
    }
    var out: seq<seq<Said>>, first: nat := [], 0;
    while first < n
      invariant |out| == first <= n
      invariant forall i :: 0 <= i < first ==>
        |out[i]| == |y.turns| && Conversed(y, out[i], SeedOf(greedy, base, i), intermediate, final, eog, draw)
    {
      var p: nat := Min(cap, n - first);
      var ok, some := ConverseBatch(y, p, first, chunk, base, greedy, intermediate, final, eog, draw, fails(first));
      if !ok {
        return Refused;
      }
      out := out + some;
      first := first + p;
    }
    return Replies(out);
  }

  lemma {:induction false} RoomAtLeast(y: Script, intermediate: nat, final: nat, length: string -> nat, t: nat)
    requires t <= |y.turns|
    ensures PerSequence(y, intermediate, final, length, t) >= 64
    decreases |y.turns| - t
  {
    if t < |y.turns| {
      RoomAtLeast(y, intermediate, final, length, t + 1);
    }
  }

  function PromptSize(y: Script, said: seq<Said>): nat
    requires |said| < |y.turns|
  {
    |y.encode(History(y, said))|
  }

  /** Turn `t + 1`'s prompt has no more than the one before, the reply to it, the turn's own text and a
      template of 16 tokens around it. */
  ghost predicate AddsLittle(y: Script, said: seq<Said>, t: nat, length: string -> nat)
    requires t < |said| < |y.turns|
  {
    PromptSize(y, said[..t + 1]) <=
    PromptSize(y, said[..t]) + |said[t].reply.tokens| + length(y.turns[t + 1]) + 16
  }

  ghost predicate TemplatesFit(y: Script, said: seq<Said>, length: string -> nat) {
    |said| < |y.turns| && forall t :: 0 <= t < |said| ==> AddsLittle(y, said, t, length)
  }

  lemma Shorter(y: Script, said: seq<Said>, seed: nat, intermediate: nat, final: nat, eog: Token -> bool, draw: Draw,
        length: string -> nat)
    requires Conversed(y, said, seed, intermediate, final, eog, draw) && TemplatesFit(y, said, length) && said != []
    ensures var rest := said[..|said| - 1];
      Conversed(y, rest, seed, intermediate, final, eog, draw) && TemplatesFit(y, rest, length)
  {
    hide Traced, Finished, LimitOf, PromptSize;
    var rest := said[..|said| - 1];
    forall k | 0 <= k < |rest|
      ensures Answered(y, rest, k, seed, intermediate, final, eog, draw) && AddsLittle(y, rest, k, length)
    {
      assert Answered(y, said, k, seed, intermediate, final, eog, draw) && AddsLittle(y, said, k, length);
      assert said[..k] == rest[..k] && said[..k + 1] == rest[..k + 1];
    }
  }

  lemma LastShort(y: Script, said: seq<Said>, seed: nat, intermediate: nat, final: nat, eog: Token -> bool, draw: Draw,
        length: string -> nat)
    requires Conversed(y, said, seed, intermediate, final, eog, draw) && TemplatesFit(y, said, length) && said != []
    requires intermediate > 0 && final > 0
    ensures var t := |said| - 1;
      && |said[t].reply.tokens| <= LimitOf(y, intermediate, final, t)
      && PromptSize(y, said) <= PromptSize(y, said[..t]) + |said[t].reply.tokens| + length(y.turns[t + 1]) + 16
  {
    hide Traced, PromptSize;
    var t := |said| - 1;
    assert Answered(y, said, t, seed, intermediate, final, eog, draw) && AddsLittle(y, said, t, length);
    assert said[..t + 1] == said;
  }

  /** The room a conversation is given then holds, at every turn, its prompt, the longest reply to it, and
      all that is still to come. */
  lemma {:induction false} RoomEnough(y: Script, said: seq<Said>, seed: nat, intermediate: nat, final: nat,
        eog: Token -> bool, draw: Draw, length: string -> nat)
    requires Conversed(y, said, seed, intermediate, final, eog, draw) && TemplatesFit(y, said, length)
    requires intermediate > 0 && final > 0
    ensures PromptSize(y, said) + LimitOf(y, intermediate, final, |said|) +
            PerSequence(y, intermediate, final, length, |said| + 1) <=
            PromptSize(y, []) + PerSequence(y, intermediate, final, length, 0)
    decreases |said|
  {
    hide Conversed, AddsLittle, PromptSize, LimitOf;
    if said != [] {
      Shorter(y, said, seed, intermediate, final, eog, draw, length);
      LastShort(y, said, seed, intermediate, final, eog, draw, length);
      RoomEnough(y, said[..|said| - 1], seed, intermediate, final, eog, draw, length);
    }
  }
}
