// What any legal run of the verifier leaves in its cache, and what rollback and chunking preserve.
module CacheHistory {
  import opened Transformer
  import opened SinkWindow

  /** One legal step after the prompt: a verified block of which `a` tokens are kept, or one appended token. */
  datatype Op = Block(d: seq<Token>, a: nat) | Append(t: Token)

  predicate Legal(op: Op) {
    op.Block? ==> op.d != [] && op.a <= |op.d|
  }

  predicate AllLegal(ops: seq<Op>) {
    forall i :: 0 <= i < |ops| ==> Legal(ops[i])
  }

  function KeptTokens(op: Op): seq<Token>
    requires Legal(op)
  {
    match op
    case Block(d, a) => d[..a]
    case Append(t) => [t]
  }

  function Do(m: Model, c: Config, s: State, op: Op): State
    requires Legal(op)
  {
    match op
    case Block(d, a) => Advanced(m, c, s, d, a)
    case Append(t) => Appended(m, c, s, t)
  }

  function Run(m: Model, c: Config, prompt: seq<Token>, ops: seq<Op>): State
    requires prompt != [] && AllLegal(ops)
  {
    if ops == [] then Prefilled(m, c, prompt)
    else Do(m, c, Run(m, c, prompt, ops[..|ops| - 1]), ops[|ops| - 1])
  }

  /** Every token the verifier has accepted so far, in order. */
  function History(prompt: seq<Token>, ops: seq<Op>): seq<Token>
    requires AllLegal(ops)
  {
    if ops == [] then prompt else History(prompt, ops[..|ops| - 1]) + KeptTokens(ops[|ops| - 1])
  }

  ghost predicate Refines(c: Config, s: State, h: seq<Token>) {
    && Toks(s.kv) == Kept(c, h)
    && Poss(s.kv) == Kept(c, Positions(|h|))
    && s.pos == |h|
  }

  lemma RowsPositions(m: Model, kv: seq<Slot>, toks: seq<Token>, pos: nat)
    ensures Positions(pos) + Poss(Rows(m, kv, toks, pos)) == Positions(pos + |toks|)
  {
    forall i | 0 <= i < |toks| ensures Rows(m, kv, toks, pos)[i].pos == pos + i {
      RowAt(m, kv, toks, pos, i);
    }
  }

  lemma ExtendToks(m: Model, c: Config, kv: seq<Slot>, pos: nat, h: seq<Token>, x: seq<Token>)
    requires Toks(kv) == Kept(c, h)
    ensures Toks(Kept(c, kv + Rows(m, kv, x, pos))) == Kept(c, h + x)
  {
    var rows := Rows(m, kv, x, pos);
    calc {
      Toks(Kept(c, kv + rows));
      { KeptToks(c, kv + rows); }
      Kept(c, Toks(kv + rows));
      { ToksConcat(kv, rows); RowsToks(m, kv, x, pos); }
      Kept(c, Kept(c, h) + x);
      { KeptAbsorbs(c, h, x); }
      Kept(c, h + x);
    }
  }

  lemma ExtendPoss(m: Model, c: Config, kv: seq<Slot>, pos: nat, x: seq<Token>)
    requires Poss(kv) == Kept(c, Positions(pos))
    ensures Poss(Kept(c, kv + Rows(m, kv, x, pos))) == Kept(c, Positions(pos + |x|))
  {
    var rows := Rows(m, kv, x, pos);
    calc {
      Poss(Kept(c, kv + rows));
      { KeptToks(c, kv + rows); }
      Kept(c, Poss(kv + rows));
      { ToksConcat(kv, rows); }
      Kept(c, Kept(c, Positions(pos)) + Poss(rows));
      { KeptAbsorbs(c, Positions(pos), Poss(rows)); }
      Kept(c, Positions(pos) + Poss(rows));
      { RowsPositions(m, kv, x, pos); }
      Kept(c, Positions(pos + |x|));
    }
  }

  /** Adding accepted tokens behind a cache that refines `h`, then trimming, refines the longer history. */
  lemma ExtendRefines(m: Model, c: Config, s: State, h: seq<Token>, x: seq<Token>, t: State)
    requires Refines(c, s, h)
    requires t.kv == Kept(c, s.kv + Rows(m, s.kv, x, s.pos)) && t.pos == s.pos + |x|
    ensures Refines(c, t, h + x)
  {
    ExtendToks(m, c, s.kv, s.pos, h, x);
    ExtendPoss(m, c, s.kv, s.pos, x);
  }

  lemma DoRefines(m: Model, c: Config, s: State, h: seq<Token>, op: Op)
    requires Refines(c, s, h) && Legal(op)
    ensures Refines(c, Do(m, c, s, op), h + KeptTokens(op))
  {
    match op
    case Block(d, a) =>
      AdvancedKv(m, c, s, d, a);
      ExtendRefines(m, c, s, h, d[..a], Do(m, c, s, op));
    case Append(t) =>
      AppendedKv(m, c, s, t);
      ExtendRefines(m, c, s, h, [t], Do(m, c, s, op));
  }

  lemma PrefilledRefines(m: Model, c: Config, prompt: seq<Token>)
    requires prompt != []
    ensures Refines(c, Prefilled(m, c, prompt), prompt)
  {
    assert Refines(c, Initial, []);
    ExtendRefines(m, c, Initial, [], prompt, Prefilled(m, c, prompt));
    assert [] + prompt == prompt;
  }

  lemma {:induction false} RunRefines(m: Model, c: Config, prompt: seq<Token>, ops: seq<Op>)
    requires prompt != [] && AllLegal(ops)
    ensures Refines(c, Run(m, c, prompt, ops), History(prompt, ops))
    decreases |ops|
  {
    if ops == [] {
      PrefilledRefines(m, c, prompt);
    } else {
      var before := ops[..|ops| - 1];
      RunRefines(m, c, prompt, before);
      DoRefines(m, c, Run(m, c, prompt, before), History(prompt, before), ops[|ops| - 1]);
    }
  }

  /**
   * After any legal run the cache holds the whole history while it fits, and afterwards its sink and
   * its window; every slot still carries its true global position.
   */
  lemma CacheRefinesHistory(m: Model, c: Config, prompt: seq<Token>, ops: seq<Op>)
    requires prompt != [] && AllLegal(ops)
    ensures var s, h := Run(m, c, prompt, ops), History(prompt, ops);
            && Toks(s.kv) == Kept(c, h)
            && Poss(s.kv) == Kept(c, Positions(|h|))
            && s.pos == |h|
            && |s.kv| == if |h| <= Budget(c) then |h| else Budget(c)
  {
    RunRefines(m, c, prompt, ops);
  }

  /** Rejecting a tail is the same as never having forwarded it, whatever the provisional cache size was. */
  lemma RollbackIsExact(m: Model, c: Config, prompt: seq<Token>, ops: seq<Op>, d: seq<Token>, a: nat)
    requires prompt != [] && AllLegal(ops) && a <= |d|
    ensures var s := Run(m, c, prompt, ops);
            Committed(c, Extended(m, s, d), |d|, a) ==
            if a == 0 then s else Committed(c, Extended(m, s, d[..a]), a, a)
  {
    var s := Run(m, c, prompt, ops);
    CacheRefinesHistory(m, c, prompt, ops);
    AdvancedKv(m, c, s, d, a);
    AdvancedKv(m, c, s, d[..a], a);
    assert d[..a][..a] == d[..a];
    if a == 0 {
      assert s.kv + [] == s.kv;
    }
  }

  function Flatten(chunks: seq<seq<Token>>): seq<Token> {
    if chunks == [] then [] else Flatten(chunks[..|chunks| - 1]) + chunks[|chunks| - 1]
  }

  predicate NonEmptyChunks(chunks: seq<seq<Token>>) {
    forall i :: 0 <= i < |chunks| ==> chunks[i] != []
  }

  /** Forward and fully commit the chunks one after the other. */
  function Fed(m: Model, c: Config, s: State, chunks: seq<seq<Token>>): State {
    if chunks == [] then s
    else
      var last := chunks[|chunks| - 1];
      Advanced(m, c, Fed(m, c, s, chunks[..|chunks| - 1]), last, |last|)
  }

  lemma {:induction false} FedRefines(m: Model, c: Config, s: State, h: seq<Token>, chunks: seq<seq<Token>>)
    requires Refines(c, s, h)
    ensures Refines(c, Fed(m, c, s, chunks), h + Flatten(chunks))
    decreases |chunks|
  {
    if chunks == [] {
      assert h + [] == h;
    } else {
      var n := |chunks| - 1;
      FedRefines(m, c, s, h, chunks[..n]);
      BlockRefines(m, c, Fed(m, c, s, chunks[..n]), h + Flatten(chunks[..n]), chunks[n]);
      assert h + Flatten(chunks) == h + Flatten(chunks[..n]) + chunks[n];
    }
  }

  lemma BlockRefines(m: Model, c: Config, s: State, h: seq<Token>, x: seq<Token>)
    requires Refines(c, s, h)
    ensures Refines(c, Advanced(m, c, s, x, |x|), h + x)
  {
    AdvancedKv(m, c, s, x, |x|);
    assert x[..|x|] == x;
    ExtendRefines(m, c, s, h, x, Advanced(m, c, s, x, |x|));
  }

  /** While the history fits, chunks leave the very slots that one block leaves. */
  lemma {:induction false} FedFits(m: Model, c: Config, s: State, chunks: seq<seq<Token>>)
    requires |s.kv| + |Flatten(chunks)| <= Budget(c)
    ensures Fed(m, c, s, chunks) == Extended(m, s, Flatten(chunks)).(pos := s.pos + |Flatten(chunks)|)
    decreases |chunks|
  {
    if chunks == [] {
      assert s.kv + [] == s.kv;
    } else {
      var n := |chunks| - 1;
      var before, last := Flatten(chunks[..n]), chunks[n];
      FedFits(m, c, s, chunks[..n]);
      WholeBlock(m, c, Fed(m, c, s, chunks[..n]), last);
      CacheConcat(m, s.kv, before, last, s.pos);
    }
  }

  /** How many slots a row could see in layer `l`. */
  lemma LastRowSees(m: Model, kv: seq<Slot>, toks: seq<Token>, pos: nat, l: nat)
    requires toks != [] && l < |m.cached| && m.cached[l]
    ensures var row := Rows(m, kv, toks, pos)[|toks| - 1];
            |row.seen| == |m.cached| && |row.seen[l].keys| == |kv| + |toks| - 1
  {
    RowAt(m, kv, toks, pos, |toks| - 1);
  }

  lemma WholeBlock(m: Model, c: Config, s: State, x: seq<Token>)
    ensures Advanced(m, c, s, x, |x|) == State(Kept(c, s.kv + Rows(m, s.kv, x, s.pos)), s.pos + |x|, s.pred)
  {
    AdvancedKv(m, c, s, x, |x|);
    assert x[..|x|] == x;
  }

  lemma SplitFits(m: Model, c: Config, s: State, mid: State, before: seq<Token>, last: seq<Token>)
    requires last != [] && mid == Extended(m, s, before).(pos := s.pos + |before|)
    ensures var whole := before + last;
            && Advanced(m, c, mid, last, |last|) == Advanced(m, c, s, whole, |whole|)
            && Rows(m, mid.kv, last, mid.pos)[|last| - 1] == Rows(m, s.kv, whole, s.pos)[|whole| - 1]
  {
    CacheConcat(m, s.kv, before, last, s.pos);
    WholeBlock(m, c, mid, last);
    WholeBlock(m, c, s, before + last);
  }

  lemma SplitTooLong(m: Model, c: Config, s: State, mid: State, before: seq<Token>, last: seq<Token>)
    requires last != [] && c.window > 0 && HasCachedLayer(m)
    requires |mid.kv| < |s.kv| + |before|
    ensures var whole := before + last;
            && Advanced(m, c, mid, last, |last|) != Advanced(m, c, s, whole, |whole|)
            && Rows(m, mid.kv, last, mid.pos)[|last| - 1] != Rows(m, s.kv, whole, s.pos)[|whole| - 1]
  {
    var whole := before + last;
    WholeBlock(m, c, mid, last);
    WholeBlock(m, c, s, whole);
    LastKept(c, mid.kv + Rows(m, mid.kv, last, mid.pos));
    LastKept(c, s.kv + Rows(m, s.kv, whole, s.pos));
    var l :| 0 <= l < |m.cached| && m.cached[l];
    LastRowSees(m, mid.kv, last, mid.pos, l);
    LastRowSees(m, s.kv, whole, s.pos, l);
  }

  /**
   * Chunking is harmless exactly as long as nothing is evicted before the last chunk is forwarded:
   * then the cache, the position and the final prediction are those of a single block. Otherwise the
   * last slot has seen less than it would have seen in one block. The tokens agree in every case.
   */
  lemma ChunkingExactlyWithinBudget(
      m: Model, c: Config, prompt: seq<Token>, ops: seq<Op>, chunks: seq<seq<Token>>, last: seq<Token>)
    requires prompt != [] && AllLegal(ops) && last != [] && NonEmptyChunks(chunks)
    requires c.window > 0 && HasCachedLayer(m)
    ensures var s := Run(m, c, prompt, ops);
            var whole := Flatten(chunks) + last;
            var mid := Fed(m, c, s, chunks);
            var split := Advanced(m, c, mid, last, |last|);
            var once := Advanced(m, c, s, whole, |whole|);
            var fits := |History(prompt, ops)| + |Flatten(chunks)| <= Budget(c) || chunks == [];
            && Toks(split.kv) == Toks(once.kv) && split.pos == once.pos
            && (split == once <==> fits)
            && (Rows(m, mid.kv, last, mid.pos)[|last| - 1] == Rows(m, s.kv, whole, s.pos)[|whole| - 1] <==> fits)
  {
    var s, h := Run(m, c, prompt, ops), History(prompt, ops);
    var mid, before := Fed(m, c, s, chunks), Flatten(chunks);
    RunRefines(m, c, prompt, ops);
    FedRefines(m, c, s, h, chunks);
    BlockRefines(m, c, mid, h + before, last);
    BlockRefines(m, c, s, h, before + last);
    assert h + (before + last) == h + before + last;
    RefinesSize(c, s, h);
    RefinesSize(c, mid, h + before);
    if |h| + |before| <= Budget(c) || chunks == [] {
      FedFits(m, c, s, chunks);
      SplitFits(m, c, s, mid, before, last);
    } else {
      SplitTooLong(m, c, s, mid, before, last);
    }
  }

  lemma RefinesSize(c: Config, s: State, h: seq<Token>)
    requires Refines(c, s, h)
    ensures |s.kv| == if |h| <= Budget(c) then |h| else Budget(c)
  {
    assert |Toks(s.kv)| == |s.kv|;
  }

  lemma LastKept(c: Config, kv: seq<Slot>)
    requires kv != [] && c.window > 0
    ensures Kept(c, kv) != [] && Kept(c, kv)[|Kept(c, kv)| - 1] == kv[|kv| - 1]
  {
    KeptAt(c, kv, |Kept(c, kv)| - 1);
  }
}
