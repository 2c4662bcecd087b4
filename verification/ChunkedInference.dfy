// Chunked generation over a session: the client asks for a few tokens at a time, watches what arrives through its
// callbacks, and goes on until the model stops, a callback stops it, or its own limit is reached.
module ChunkedInference {
  import opened Wrappers
  import opened GreedyRule

  datatype StopReason = MaxTokens | Eos | Cancelled | Truncated | Unknown

  /** What a deterministic session does after a given output: stop, emit a last token, or emit and go on. */
  datatype Reply = Halt(why: StopReason) | Last(t: Token, why: StopReason) | More(t: Token)

  type Behaviour = seq<Token> -> Reply

  /** A session reports `MaxTokens` only when the request's own bound cut it off. */
  ghost predicate Honest(b: Behaviour) {
    forall out :: b(out).More? || b(out).why != MaxTokens
  }

  /** Whether the output so far is one complete artifact. */
  type Completion = seq<Token> -> bool

  /** The client's semantic callbacks; `progress` judges the tokens of one chunk. */
  datatype Callbacks = Callbacks(complete: Completion, progress: Option<seq<Token> -> bool>, maxStalls: int)

  datatype Verdict = NotStarted | Stopped(why: StopReason) | SemanticComplete | SemanticStall | NoProgress | ClientSafetyLimit

  /** One request for at most n tokens, on top of what the session has produced, watched for completion. */
  function Watched(b: Behaviour, complete: Completion, out: seq<Token>, n: nat): (r: (seq<Token>, Verdict))
    ensures out <= r.0 && |r.0| <= |out| + n
    ensures r.1.Stopped? || r.1 == SemanticComplete
    ensures r.1 == Stopped(MaxTokens) && Honest(b) ==> |r.0| == |out| + n
    decreases n
  {
    if n == 0 then (out, Stopped(MaxTokens)) else
      match b(out)
      case Halt(why) => (out, Stopped(why))
      case Last(t, why) => (out + [t], if complete(out + [t]) then SemanticComplete else Stopped(why))
      case More(t) => if complete(out + [t]) then (out + [t], SemanticComplete) else Watched(b, complete, out + [t], n - 1)
  }

  /** Two requests in a row amount to one, as long as the first was only cut off by its bound. */
  lemma {:induction false} RequestsCompose(b: Behaviour, complete: Completion, out: seq<Token>, n: nat, k: nat)
    requires Honest(b)
    ensures var first := Watched(b, complete, out, n);
            Watched(b, complete, out, n + k) ==
              if first.1 == Stopped(MaxTokens) then Watched(b, complete, first.0, k) else first
    decreases n
  {
    if n > 0 {
      match b(out)
      case Halt(_) =>
      case Last(_, _) =>
      case More(t) =>
        if !complete(out + [t]) {
          RequestsCompose(b, complete, out + [t], n - 1, k);
        }
    }
  }

  // ---- chunks ----

  /** How many chunks in a row have made no progress, after one that brought `news`. */
  function Stalls(cb: Callbacks, news: seq<Token>, stalls: nat): nat {
    if cb.progress.None? || news == [] then stalls else if cb.progress.value(news) then 0 else stalls + 1
  }

  /** One chunk: the output after it, why the client stops there, or `Stopped(MaxTokens)` to go on, and the stalls. */
  function ChunkStep(b: Behaviour, cb: Callbacks, chunk: nat, out: seq<Token>, stalls: nat): (r: (seq<Token>, Verdict, nat))
    ensures out <= r.0
    ensures r.1 == Stopped(MaxTokens) && Honest(b) ==> chunk > 0 && |r.0| == |out| + chunk
  {
    var first := Watched(b, cb.complete, out, chunk);
    var now := Stalls(cb, first.0[|out|..], stalls);
    if first.1 == SemanticComplete then (first.0, SemanticComplete, stalls)
    else if now >= cb.maxStalls then (first.0, SemanticStall, now)
    else if first.1 != Stopped(MaxTokens) then (first.0, first.1, now)
    else if first.0 == out then (out, NoProgress, now)
    else (first.0, first.1, now)
  }

  /** The requests of a client, one for each chunk; `Stopped(MaxTokens)` when all of them were used up. */
  function Chunked(b: Behaviour, cb: Callbacks, chunks: seq<nat>, out: seq<Token>, stalls: nat): (r: (seq<Token>, Verdict))
    ensures out <= r.0
    decreases |chunks|
  {
    if chunks == [] then (out, Stopped(MaxTokens)) else
      var step := ChunkStep(b, cb, chunks[0], out, stalls);
      if step.1 == Stopped(MaxTokens) then Chunked(b, cb, chunks[1..], step.0, step.2) else (step.0, step.1)
  }

  function Total(chunks: seq<nat>): nat {
    if chunks == [] then 0 else chunks[0] + Total(chunks[1..])
  }

  predicate AllPositive(chunks: seq<nat>) {
    forall i :: 0 <= i < |chunks| ==> chunks[i] > 0
  }

  /** Any split of a limit into chunks gives what one request gives, unless the client calls a stall on the way. */
  lemma {:induction false} ChunkingOnlyStalls(b: Behaviour, cb: Callbacks, chunks: seq<nat>, out: seq<Token>, stalls: nat)
    requires Honest(b) && AllPositive(chunks)
    ensures var r, whole := Chunked(b, cb, chunks, out, stalls), Watched(b, cb.complete, out, Total(chunks));
            r == whole || (r.1 == SemanticStall && r.0 <= whole.0)
    decreases |chunks|
  {
    if chunks != [] {
      var first := Watched(b, cb.complete, out, chunks[0]);
      RequestsCompose(b, cb.complete, out, chunks[0], Total(chunks[1..]));
      if first.1 == Stopped(MaxTokens) {
        ChunkingOnlyStalls(b, cb, chunks[1..], first.0, Stalls(cb, first.0[|out|..], stalls));
      }
    }
  }

  /** Without a progress callback, or with one that is always content, no split of the limit shows. */
  lemma {:induction false} ChunkingIsInvisible(b: Behaviour, cb: Callbacks, chunks: seq<nat>, out: seq<Token>)
    requires Honest(b) && AllPositive(chunks) && cb.maxStalls > 0
    requires cb.progress.None? || forall news :: cb.progress.value(news)
    ensures Chunked(b, cb, chunks, out, 0) == Watched(b, cb.complete, out, Total(chunks))
    decreases |chunks|
  {
    if chunks != [] {
      RequestsCompose(b, cb.complete, out, chunks[0], Total(chunks[1..]));
      ChunkingIsInvisible(b, cb, chunks[1..], Watched(b, cb.complete, out, chunks[0]).0);
    }
  }

  /** Once the client has stopped for a reason, further chunks change nothing. */
  lemma {:induction false} FurtherChunksAreIdle(
      b: Behaviour, cb: Callbacks, chunks: seq<nat>, more: seq<nat>, out: seq<Token>, stalls: nat)
    requires Chunked(b, cb, chunks, out, stalls).1 != Stopped(MaxTokens)
    ensures Chunked(b, cb, chunks + more, out, stalls) == Chunked(b, cb, chunks, out, stalls)
    decreases |chunks|
  {
    assert (chunks + more)[0] == chunks[0] && (chunks + more)[1..] == chunks[1..] + more;
    var step := ChunkStep(b, cb, chunks[0], out, stalls);
    if step.1 == Stopped(MaxTokens) {
      FurtherChunksAreIdle(b, cb, chunks[1..], more, step.0, step.2);
    }
  }

  /**
   * A stall is called before the session's own reason is looked at: an answer that ends in the chunk that exhausts
   * the client's patience is reported as stalled, though it is whole.
   */
  lemma StallHidesTheEnd(b: Behaviour, cb: Callbacks, chunk: nat, out: seq<Token>, stalls: nat, why: StopReason)
    requires Watched(b, cb.complete, out, chunk).1 == Stopped(why) && cb.progress.Some?
    requires Watched(b, cb.complete, out, chunk).0 != out && !cb.progress.value(Watched(b, cb.complete, out, chunk).0[|out|..])
    ensures Chunked(b, cb, [chunk], out, stalls) ==
            (Watched(b, cb.complete, out, chunk).0,
             if stalls + 1 >= cb.maxStalls then SemanticStall else Stopped(why))
  {
    var first := Watched(b, cb.complete, out, chunk);
    assert [chunk][1..] == [];
    assert first.0[|out|..] != [];
    assert Chunked(b, cb, [], first.0, stalls + 1) == (first.0, Stopped(MaxTokens));
  }

  // ---- the session ----

  /** A session's stream of one request at a time; the reason it ended for is known once it is exhausted. */
  class Session {
    const behaviour: Behaviour
    var produced: seq<Token>
    var left: nat
    var ended: bool
    var lastStopReason: StopReason

    constructor (behaviour: Behaviour)
      ensures this.behaviour == behaviour && produced == []
    {
      this.behaviour, produced, left, ended, lastStopReason := behaviour, [], 0, true, Unknown;
    }

    /** What is still to come of the current request, watched for completion. */
    function Rest(complete: Completion): (seq<Token>, Verdict)
      reads this
    {
      if ended then (produced, Stopped(lastStopReason)) else Watched(behaviour, complete, produced, left)
    }

    method Generate(maxTokens: int)
      modifies this
      ensures produced == old(produced) && !ended && left == if maxTokens < 0 then 0 else maxTokens
    {
      left, ended := if maxTokens < 0 then 0 else maxTokens, false;
    }

    method Next(ghost complete: Completion) returns (t: Option<Token>)
      modifies this
      ensures t == None ==> ended && produced == old(produced) && Rest(complete) == old(Rest(complete))
      ensures t.Some? ==>
        && produced == old(produced) + [t.value] && left + (if ended then 0 else 1) <= old(left)
        && old(Rest(complete)) == if complete(produced) then (produced, SemanticComplete) else Rest(complete)
    {
      if ended {
        return None;
      }
      if left == 0 {
        ended, lastStopReason := true, MaxTokens;
        return None;
      }
      match behaviour(produced)
      case Halt(why) =>
        ended, lastStopReason := true, why;
        return None;
      case Last(token, why) =>
        produced, left, ended, lastStopReason := produced + [token], 0, true, why;
        return Some(token);
      case More(token) =>
        produced, left := produced + [token], left - 1;
        return Some(token);
    }
  }

  /** The client's inner loop: takes tokens until the request is exhausted or the output is complete. */
  method Watch(session: Session, complete: Completion) returns (generated: seq<Token>, completed: bool)
    modifies session
    ensures session.produced == generated
    ensures (generated, if completed then SemanticComplete else Stopped(session.lastStopReason)) == old(session.Rest(complete))
  {
    generated, completed := session.produced, false;
    ghost var all := session.Rest(complete);
    while true
      invariant session.produced == generated && session.Rest(complete) == all
      decreases session.left, if session.ended then 0 else 1
    {
      var t := session.Next(complete);
      if t == None {
        return;
      }
      generated := generated + [t.value];
      if complete(generated) {
        completed := true;
        return;
      }
    }
  }

  /** One round of the client's loop. */
  method OneChunk(session: Session, cb: Callbacks, chunk: nat, stalls: nat)
    returns (generated: seq<Token>, stop: Verdict, stalls': nat)
    modifies session
    ensures session.produced == generated
    ensures (generated, stop, stalls') == ChunkStep(session.behaviour, cb, chunk, old(session.produced), stalls)
  {
    var before := session.produced;
    session.Generate(chunk);
    var completed;
    generated, completed := Watch(session, cb.complete);
    if completed {
      return generated, SemanticComplete, stalls;
    }
    stalls' := Stalls(cb, generated[|before|..], stalls);
    stop := Stopped(session.lastStopReason);
    if stalls' >= cb.maxStalls {
      stop := SemanticStall;
    } else if stop == Stopped(MaxTokens) && |generated| == |before| {
      stop := NoProgress;
    }
  }

  // ---- the client ----

  datatype Refusal = BadStallLimit | BadRetainedLimit | SemanticUnitTooLarge(tokens: nat, cap: int)

  /** No response limit means the chunk size; a limit of 0 means none at all. */
  function Limit(outputTokens: int, maxResponse: Option<int>): Option<int> {
    if maxResponse == None then Some(outputTokens) else if maxResponse.value == 0 then None else maxResponse
  }

  function Sizes(left: nat, chunk: nat): (r: seq<nat>)
    requires chunk > 0
    ensures Total(r) == left && AllPositive(r)
  {
    if left == 0 then [] else if left <= chunk then [left] else [chunk] + Sizes(left - chunk, chunk)
  }

  /** The requests still to come after `done` tokens; without a limit, as many as the session takes to end. */
  function Requests(outputTokens: int, limit: Option<int>, done: nat, rounds: nat): seq<nat> {
    var chunk := if outputTokens < 0 then 0 else outputTokens;
    if limit == None then seq(rounds, i => chunk)
    else if limit.value <= done then []
    else if chunk == 0 then [0]
    else Sizes(limit.value - done, chunk)
  }

  function Request(outputTokens: int, limit: Option<int>, done: nat): nat
    requires limit.Some? ==> done < limit.value
  {
    if outputTokens <= 0 then 0
    else if limit.Some? && limit.value - done < outputTokens then limit.value - done
    else outputTokens
  }

  function Fewer(rounds: nat): nat {
    if rounds == 0 then 0 else rounds - 1
  }

  lemma NextRequest(outputTokens: int, limit: Option<int>, done: nat, rounds: nat, chunk: nat)
    requires (limit == None ==> rounds > 0) && (limit.Some? ==> done < limit.value)
    requires chunk == Request(outputTokens, limit, done)
    ensures var all := Requests(outputTokens, limit, done, rounds);
            all != [] && all[0] == chunk &&
            (chunk > 0 ==> all[1..] == Requests(outputTokens, limit, done + chunk, Fewer(rounds)))
  {
  }

  /** One round takes the first of the requests off the list, or ends the loop. */
  lemma RoundAdvances(b: Behaviour, cb: Callbacks, outputTokens: int, limit: Option<int>, out: seq<Token>, stalls: nat, rounds: nat)
    requires Honest(b) && (limit == None ==> rounds > 0) && (limit.Some? ==> |out| < limit.value)
    ensures var step := ChunkStep(b, cb, Request(outputTokens, limit, |out|), out, stalls);
            Chunked(b, cb, Requests(outputTokens, limit, |out|, rounds), out, stalls) ==
              if step.1 == Stopped(MaxTokens)
              then Chunked(b, cb, Requests(outputTokens, limit, |step.0|, Fewer(rounds)), step.0, step.2) else (step.0, step.1)
  {
    NextRequest(outputTokens, limit, |out|, rounds, Request(outputTokens, limit, |out|));
  }

  /** The verdict the client reports once its loop is over. */
  function Final(limit: Option<int>, r: (seq<Token>, Verdict)): (seq<Token>, Verdict) {
    if limit.Some? && limit.value <= 0 then (r.0, NotStarted)
    else if limit.Some? && r.1 == Stopped(MaxTokens) then (r.0, ClientSafetyLimit)
    else r
  }

  /** The chunk loop. Without a limit it ends only if the session or a callback ends it, within some number of rounds. */
  method InferChunks(session: Session, outputTokens: int, limit: Option<int>, cb: Callbacks, ghost rounds: nat)
    returns (r: (seq<Token>, Verdict))
    requires session.produced == [] && Honest(session.behaviour)
    requires limit == None ==>
               Chunked(session.behaviour, cb, Requests(outputTokens, None, 0, rounds), [], 0).1 != Stopped(MaxTokens)
    modifies session
    ensures r == Final(limit, Chunked(session.behaviour, cb, Requests(outputTokens, limit, 0, rounds), [], 0))
  {
    var generated, stop, stalls: nat := [], NotStarted, 0;
    ghost var b, left := session.behaviour, rounds;
    ghost var whole := Chunked(b, cb, Requests(outputTokens, limit, 0, rounds), [], 0);
    while limit == None || |generated| < limit.value
      invariant session.produced == generated
      invariant Chunked(b, cb, Requests(outputTokens, limit, |generated|, left), generated, stalls) == whole
      invariant stop == if generated == [] then NotStarted else Stopped(MaxTokens)
      invariant limit.Some? ==> |generated| <= if limit.value > 0 then limit.value else 0
      decreases if limit.Some? then limit.value - |generated| else left
    {
      var chunk := Request(outputTokens, limit, |generated|);
      RoundAdvances(b, cb, outputTokens, limit, generated, stalls, left);
      generated, stop, stalls := OneChunk(session, cb, chunk, stalls);
      if stop != Stopped(MaxTokens) {
        return (generated, stop);
      }
      left := Fewer(left);
    }
    if |generated| >= limit.value && stop == Stopped(MaxTokens) {
      stop := ClientSafetyLimit;
    }
    return (generated, stop);
  }

  /** The client: two settings it refuses, a prompt that is too long, and the chunk loop. */
  method Infer(session: Session, prompt: seq<Token>, outputTokens: int, maxResponse: Option<int>, cb: Callbacks,
               maxRetained: int, ghost rounds: nat)
    returns (r: Outcome<(seq<Token>, Verdict), Refusal>)
    requires session.produced == [] && Honest(session.behaviour)
    requires Limit(outputTokens, maxResponse) == None ==>
               Chunked(session.behaviour, cb, Requests(outputTokens, None, 0, rounds), [], 0).1 != Stopped(MaxTokens)
    modifies session
    ensures r ==
            if cb.maxStalls <= 0 then Raised(BadStallLimit)
            else if maxRetained < 0 then Raised(BadRetainedLimit)
            else if maxRetained > 0 && |prompt| > maxRetained then Raised(SemanticUnitTooLarge(|prompt|, maxRetained))
            else var limit := Limit(outputTokens, maxResponse);
                 Returned(Final(limit, Chunked(session.behaviour, cb, Requests(outputTokens, limit, 0, rounds), [], 0)))
  {
    if cb.maxStalls <= 0 {
      return Raised(BadStallLimit);
    }
    if maxRetained < 0 {
      return Raised(BadRetainedLimit);
    }
    if maxRetained != 0 && |prompt| > maxRetained {
      return Raised(SemanticUnitTooLarge(|prompt|, maxRetained));
    }
    var result := InferChunks(session, outputTokens, Limit(outputTokens, maxResponse), cb, rounds);
    return Returned(result);
  }

  /**
   * Under a finite limit the client's whole loop is one request for all of it, whatever the chunk size, unless it calls
   * a stall; and it calls none without a progress callback.
   */
  lemma LimitIsOneRequest(b: Behaviour, cb: Callbacks, outputTokens: int, limit: int, rounds: nat)
    requires Honest(b) && limit > 0 && outputTokens > 0 && cb.maxStalls > 0
    ensures var r := Chunked(b, cb, Requests(outputTokens, Some(limit), 0, rounds), [], 0);
            var whole := Watched(b, cb.complete, [], limit);
            && (r == whole || (r.1 == SemanticStall && r.0 <= whole.0))
            && (cb.progress.None? ==> r == whole)
  {
    var chunks := Requests(outputTokens, Some(limit), 0, rounds);
    ChunkingOnlyStalls(b, cb, chunks, [], 0);
    if cb.progress.None? {
      ChunkingIsInvisible(b, cb, chunks, []);
    }
  }

  // ---- what passes downstream ----

  datatype Incomplete = SemanticResponseIncomplete(tokenCount: nat, stop: Verdict)

  predicate Complete(v: Verdict) {
    v == Stopped(Eos) || v == SemanticComplete
  }

  /** Only complete output may enter another role; anything else raises. */
  function DecodeComplete(r: (seq<Token>, Verdict)): Outcome<seq<Token>, Incomplete> {
    if Complete(r.1) then Returned(r.0) else Raised(SemanticResponseIncomplete(|r.0|, r.1))
  }

  /**
   * What passes downstream is a whole answer: it ended at the session's end of sequence or is complete by the client's
   * own check, for every way of splitting the limit, and no larger limit would have produced more.
   */
  lemma PassedOutputIsWhole(b: Behaviour, cb: Callbacks, chunks: seq<nat>, more: seq<nat>, limit: Option<int>)
    requires Honest(b) && AllPositive(chunks) && cb.maxStalls > 0
    requires DecodeComplete(Final(limit, Chunked(b, cb, chunks, [], 0))).Returned?
    ensures var r := Chunked(b, cb, chunks, [], 0);
            && DecodeComplete(Final(limit, r)) == Returned(r.0)
            && r == Watched(b, cb.complete, [], Total(chunks))
            && Chunked(b, cb, chunks + more, [], 0) == r
  {
    ChunkingOnlyStalls(b, cb, chunks, [], 0);
    FurtherChunksAreIdle(b, cb, chunks, more, [], 0);
  }
}
