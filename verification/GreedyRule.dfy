// Greedy decoding for any next-token rule on histories.
module GreedyRule {

  type Token = int
  type Rule = seq<Token> -> Token

  /** The greedy loop: `done` has been emitted after `prompt`, and at most n more tokens may follow. */
  function GreedyFrom(next: Rule, prompt: seq<Token>, done: seq<Token>, n: nat, eos: set<Token>): seq<Token>
    decreases n
  {
    if n == 0 then done else
      var t := next(prompt + done);
      if t in eos then done + [t] else GreedyFrom(next, prompt, done + [t], n - 1, eos)
  }

  function Greedy(next: Rule, prompt: seq<Token>, n: nat, eos: set<Token>): seq<Token> {
    GreedyFrom(next, prompt, [], n, eos)
  }

  /** A history with everything behind the first end-of-sequence token cut off. */
  function UpToEos(out: seq<Token>, eos: set<Token>): (r: seq<Token>)
    ensures r <= out
    ensures forall i :: 0 <= i < |r| - 1 ==> r[i] !in eos
    ensures r == out || (r != [] && r[|r| - 1] in eos)
  {
    if out == [] then [] else if out[0] in eos then [out[0]]
    else [out[0]] + UpToEos(out[1..], eos)
  }

  /** The first `upTo` tokens of `out` are the rule's own choices. */
  ghost predicate Follows(next: Rule, h: seq<Token>, out: seq<Token>, upTo: int) {
    forall j :: 0 <= j < |out| && j < upTo ==> out[j] == next(h + out[..j])
  }

  /** `out` stopped for the right reason: the cap, or its one end-of-sequence token, at its end. */
  ghost predicate Finished(out: seq<Token>, n: nat, eos: set<Token>) {
    && |out| <= n
    && (|out| == n || (out != [] && out[|out| - 1] in eos))
    && forall i :: 0 <= i < |out| - 1 ==> out[i] !in eos
  }

  /** The same first k tokens, or the same outputs when either is shorter. */
  ghost predicate AgreeOnFirst(a: seq<Token>, b: seq<Token>, k: nat) {
    if |a| < k || |b| < k then a == b else a[..k] == b[..k]
  }

  lemma FollowsOneMore(next: Rule, h: seq<Token>, out: seq<Token>, t: Token, upTo: int)
    requires Follows(next, h, out, upTo)
    requires |out| < upTo ==> t == next(h + out)
    ensures Follows(next, h, out + [t], upTo)
  {
    forall j | 0 <= j < |out + [t]| && j < upTo ensures (out + [t])[j] == next(h + (out + [t])[..j]) {
      assert (out + [t])[..j] == out[..j];
      assert out[..|out|] == out;
    }
  }

  lemma {:induction false} GreedyFromIsFinished(next: Rule, prompt: seq<Token>, done: seq<Token>, n: nat, eos: set<Token>)
    requires Follows(next, prompt, done, |done|)
    requires forall j :: 0 <= j < |done| ==> done[j] !in eos
    ensures Finished(GreedyFrom(next, prompt, done, n, eos), |done| + n, eos)
    ensures Follows(next, prompt, GreedyFrom(next, prompt, done, n, eos), |done| + n)
    decreases n
  {
    if n > 0 {
      var t := next(prompt + done);
      FollowsOneMore(next, prompt, done, t, |done| + 1);
      if t !in eos {
        GreedyFromIsFinished(next, prompt, done + [t], n - 1, eos);
      }
    }
  }

  /** The greedy output stops for the right reason, and every token of it is the rule's own choice. */
  lemma GreedyIsFinished(next: Rule, prompt: seq<Token>, n: nat, eos: set<Token>)
    ensures Finished(Greedy(next, prompt, n, eos), n, eos)
    ensures Follows(next, prompt, Greedy(next, prompt, n, eos), n)
  {
    GreedyFromIsFinished(next, prompt, [], n, eos);
  }

  /** Two outputs that follow the rule as far as token k have the same first k tokens. */
  lemma {:induction false} FollowersShare(next: Rule, h: seq<Token>, a: seq<Token>, b: seq<Token>, k: nat)
    requires k <= |a| && k <= |b|
    requires Follows(next, h, a, k) && Follows(next, h, b, k)
    ensures a[..k] == b[..k]
  {
    if k > 0 {
      FollowersShare(next, h, a, b, k - 1);
      assert a[k - 1] == b[k - 1];
      assert a[..k] == a[..k - 1] + [a[k - 1]] && b[..k] == b[..k - 1] + [b[k - 1]];
    }
  }

  /** A finished output whose first k tokens are greedy choices is the greedy output, as far as k. */
  lemma GreedyIsUnique(next: Rule, prompt: seq<Token>, out: seq<Token>, n: nat, eos: set<Token>, k: nat)
    requires Finished(out, n, eos) && Follows(next, prompt, out, k)
    ensures AgreeOnFirst(out, Greedy(next, prompt, n, eos), k)
    ensures k >= n ==> out == Greedy(next, prompt, n, eos)
  {
    var g := Greedy(next, prompt, n, eos);
    GreedyIsFinished(next, prompt, n, eos);
    var common := if |out| < |g| then |out| else |g|;
    var j := if k < common then k else common;
    FollowersShare(next, prompt, out, g, j);
    if common < k {
      assert out[..common] == g[..common];
      if common > 0 {
        assert out[common - 1] == out[..common][common - 1] == g[..common][common - 1] == g[common - 1];
      }
      assert out[..|out|] == out && g[..|g|] == g;
    }
  }

  /** A loop capped at n tokens has emitted `out`, its first k tokens the rule's own choices, and goes on. */
  ghost predicate Running(next: Rule, prompt: seq<Token>, out: seq<Token>, n: nat, eos: set<Token>, k: nat) {
    && |out| <= n
    && Follows(next, prompt, out, k)
    && forall i :: 0 <= i < |out| ==> out[i] !in eos
  }

  /** The next token either ends the output, at an end-of-sequence token or at the cap, or the loop goes on. */
  lemma RunningStep(next: Rule, prompt: seq<Token>, out: seq<Token>, t: Token, n: nat, eos: set<Token>, k: nat)
    requires Running(next, prompt, out, n, eos, k) && |out| < n
    requires |out| < k ==> t == next(prompt + out)
    ensures prompt + out + [t] == prompt + (out + [t])
    ensures Follows(next, prompt, out + [t], k)
    ensures t !in eos ==> Running(next, prompt, out + [t], n, eos, k)
    ensures t in eos || |out| + 1 == n ==>
      && AgreeOnFirst(out + [t], Greedy(next, prompt, n, eos), k)
      && (k >= n ==> out + [t] == Greedy(next, prompt, n, eos))
  {
    FollowsOneMore(next, prompt, out, t, k);
    if t in eos || |out| + 1 == n {
      GreedyIsUnique(next, prompt, out + [t], n, eos, k);
    }
  }

  /** A stretch of tokens without an end-of-sequence token keeps the loop running. */
  lemma {:induction false} RunningMany(
      next: Rule, prompt: seq<Token>, out: seq<Token>, ok: seq<Token>, n: nat, eos: set<Token>, k: nat)
    requires Running(next, prompt, out, n, eos, k) && |out| + |ok| <= n
    requires forall i :: 0 <= i < |ok| ==> ok[i] !in eos
    requires forall i :: 0 <= i < |ok| && |out| + i < k ==> ok[i] == next(prompt + out + ok[..i])
    ensures Running(next, prompt, out + ok, n, eos, k)
    decreases |ok|
  {
    if ok == [] {
      assert out + ok == out;
    } else {
      var l := |ok| - 1;
      var front := ok[..l];
      forall i | 0 <= i < l ensures front[..i] == ok[..i] {
      }
      RunningMany(next, prompt, out, front, n, eos, k);
      assert prompt + out + front == prompt + (out + front);
      RunningStep(next, prompt, out + front, ok[l], n, eos, k);
      assert out + front + [ok[l]] == out + ok;
    }
  }

  lemma RunningToCap(next: Rule, prompt: seq<Token>, out: seq<Token>, n: nat, eos: set<Token>, k: nat)
    requires Running(next, prompt, out, n, eos, k) && |out| == n
    ensures AgreeOnFirst(out, Greedy(next, prompt, n, eos), k)
  {
    GreedyIsUnique(next, prompt, out, n, eos, k);
  }
}
