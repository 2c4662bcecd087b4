// The sink+window policy and the verifier's state machine, on values.
module SinkWindow {
  import opened Wrappers
  import opened Transformer

  /** How many leading slots (`sink`) and how many trailing slots (`window`) survive a trim. */
  datatype Config = Config(sink: nat, window: nat)

  function Budget(c: Config): nat {
    c.sink + c.window
  }

  /** The part of a history that the policy keeps. */
  function Kept<T>(c: Config, h: seq<T>): (r: seq<T>)
    ensures |r| == if |h| <= Budget(c) then |h| else Budget(c)
  {
    if |h| <= Budget(c) then h else h[..c.sink] + h[|h| - c.window..]
  }

  lemma KeptAt<T>(c: Config, h: seq<T>, i: nat)
    requires i < |Kept(c, h)|
    ensures Kept(c, h)[i] == h[if i < c.sink then i else i + |h| - |Kept(c, h)|]
  {
  }

  /** Evicting early loses nothing that a later eviction would have kept. */
  lemma KeptAbsorbs<T>(c: Config, h: seq<T>, x: seq<T>)
    ensures Kept(c, Kept(c, h) + x) == Kept(c, h + x)
  {
    var k := Kept(c, h) + x;
    var r, s := Kept(c, k), Kept(c, h + x);
    assert |r| == |s|;
    forall i | 0 <= i < |r| ensures r[i] == s[i] {
      KeptAt(c, k, i);
      KeptAt(c, h + x, i);
      var j := if i < c.sink then i else i + |k| - |r|;
      if j < |Kept(c, h)| {
        KeptAt(c, h, j);
      }
    }
  }

  lemma KeptToks(c: Config, kv: seq<Slot>)
    ensures Toks(Kept(c, kv)) == Kept(c, Toks(kv))
    ensures Poss(Kept(c, kv)) == Kept(c, Poss(kv))
  {
    forall i | 0 <= i < |Kept(c, kv)|
      ensures Toks(Kept(c, kv))[i] == Kept(c, Toks(kv))[i]
      ensures Poss(Kept(c, kv))[i] == Kept(c, Poss(kv))[i]
    {
      KeptAt(c, kv, i);
      KeptAt(c, Toks(kv), i);
      KeptAt(c, Poss(kv), i);
    }
  }

  /** Cache contents, next global position, and the row whose logits predict the next token. */
  datatype State = State(kv: seq<Slot>, pos: nat, pred: Option<Slot>)

  const Initial := State([], 0, None)

  function Extended(m: Model, s: State, d: seq<Token>): State {
    s.(kv := s.kv + Rows(m, s.kv, d, s.pos))
  }

  function Prefilled(m: Model, c: Config, prompt: seq<Token>): State
    requires prompt != []
  {
    var s := Extended(m, Initial, prompt);
    State(Kept(c, s.kv), |prompt|, Some(s.kv[|prompt| - 1]))
  }

  /** Drop the rejected tail, advance by what was accepted, then trim. */
  function Committed(c: Config, s: State, forwarded: nat, accepted: nat): State
    requires accepted <= forwarded
    requires forwarded - accepted <= |s.kv|
  {
    s.(kv := Kept(c, s.kv[..|s.kv| - (forwarded - accepted)]), pos := s.pos + accepted)
  }

  /** Forward a block and keep its first `a` tokens. */
  function Advanced(m: Model, c: Config, s: State, d: seq<Token>, a: nat): State
    requires a <= |d|
  {
    Committed(c, Extended(m, s, d), |d|, a)
  }

  function Appended(m: Model, c: Config, s: State, t: Token): State {
    Advanced(m, c, s, [t], 1).(pred := Some(Rows(m, s.kv, [t], s.pos)[0]))
  }

  lemma AdvancedKv(m: Model, c: Config, s: State, d: seq<Token>, a: nat)
    requires a <= |d|
    ensures Advanced(m, c, s, d, a) ==
            State(Kept(c, s.kv + Rows(m, s.kv, d[..a], s.pos)), s.pos + a, s.pred)
  {
    RowsPrefix(m, s.kv, d, s.pos, a);
    var e := Extended(m, s, d).kv;
    assert e[..|e| - (|d| - a)] == s.kv + Rows(m, s.kv, d, s.pos)[..a];
  }

  lemma AppendedKv(m: Model, c: Config, s: State, t: Token)
    ensures var row := Slot(t, s.pos, Seen(m, s.kv));
            Rows(m, s.kv, [t], s.pos) == [row] &&
            Appended(m, c, s, t) == State(Kept(c, s.kv + [row]), s.pos + 1, Some(row))
  {
    AdvancedKv(m, c, s, [t], 1);
    assert [t][..1] == [t] && [t][..0] == [];
    RowAt(m, s.kv, [t], s.pos, 0);
    assert s.kv + [] == s.kv;
  }
}
