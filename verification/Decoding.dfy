/** The reference: decoding one token at a time, with no cache and no guesses. */
module SerialDecoding {
  import opened Options

  type Token = nat

  /** The token picked after a history, or None when picking it raises. */
  type Chooser = seq<Token> -> Option<Token>

  /** At most `limit` tokens after `history`, ending early after a stop token or where the chooser raises. */
  function Serial(next: Chooser, history: seq<Token>, limit: nat, stops: set<Token>): (r: seq<Token>)
    ensures |r| <= limit
    decreases limit
  {
    if limit == 0 || next(history).None? then []
    else
      var t := next(history).value;
      if t in stops then [t] else [t] + Serial(next, history + [t], limit - 1, stops)
  }

  /** Every token of `block` is the one picked after the tokens before it. */
  ghost predicate Follows(next: Chooser, history: seq<Token>, block: seq<Token>) {
    forall i :: 0 <= i < |block| ==> next(history + block[..i]) == Some(block[i])
  }

  /** No token but the last is a stop. */
  ghost predicate NoEarlyStop(block: seq<Token>, stops: set<Token>) {
    forall i :: 0 <= i < |block| - 1 ==> block[i] !in stops
  }

  /** Nothing more may follow `done`: the budget is spent or the last token is a stop. */
  predicate Ended(done: seq<Token>, limit: nat, stops: set<Token>) {
    |done| >= limit || (done != [] && done[|done| - 1] in stops)
  }

  /** `done` is a run of picks within the budget that has not gone past a stop. */
  ghost predicate Run(next: Chooser, history: seq<Token>, done: seq<Token>, limit: nat, stops: set<Token>) {
    |done| <= limit && Follows(next, history, done) && NoEarlyStop(done, stops)
  }

  lemma FollowsConcat(next: Chooser, history: seq<Token>, done: seq<Token>, block: seq<Token>)
    requires Follows(next, history, done) && Follows(next, history + done, block)
    ensures Follows(next, history, done + block)
  {
    var longer := done + block;
    forall i | 0 <= i < |longer| ensures next(history + longer[..i]) == Some(longer[i]) {
      if i < |done| {
        assert longer[..i] == done[..i];
      } else {
        assert history + longer[..i] == history + done + block[..i - |done|];
      }
    }
  }

  lemma FollowsAppend(next: Chooser, history: seq<Token>, done: seq<Token>, token: Token)
    requires Follows(next, history, done) && next(history + done) == Some(token)
    ensures Follows(next, history, done + [token])
  {
    assert [token][..0] == [] && history + done + [] == history + done;
    FollowsConcat(next, history, done, [token]);
  }

  /** A run that has not ended, extended by a run of its continuation, is a run. */
  lemma RunConcat(next: Chooser, history: seq<Token>, done: seq<Token>, block: seq<Token>, limit: nat,
      stops: set<Token>)
    requires Run(next, history, done, limit, stops) && !Ended(done, limit, stops)
    requires Run(next, history + done, block, limit - |done|, stops)
    ensures Run(next, history, done + block, limit, stops)
  {
    FollowsConcat(next, history, done, block);
    forall i | 0 <= i < |done + block| - 1 ensures (done + block)[i] !in stops {
      if i >= |done| { assert (done + block)[i] == block[i - |done|]; }
    }
  }

  lemma RunTail(next: Chooser, history: seq<Token>, done: seq<Token>, limit: nat, stops: set<Token>)
    requires Run(next, history, done, limit, stops) && done != []
    ensures next(history) == Some(done[0])
    ensures done[0] in stops ==> done == [done[0]]
    ensures Run(next, history + [done[0]], done[1..], limit - 1, stops)
  {
    var t, tail := done[0], done[1..];
    assert done[..0] == [] && history + done[..0] == history;
    forall i | 0 <= i < |tail| ensures next(history + [t] + tail[..i]) == Some(tail[i]) {
      assert history + [t] + tail[..i] == history + done[..i + 1];
    }
  }

  /** Runs are exactly the prefixes of the serial run, and a run that cannot go on is all of it. */
  lemma {:induction false} RunsAreSerial(next: Chooser, history: seq<Token>, done: seq<Token>, limit: nat,
      stops: set<Token>)
    requires Run(next, history, done, limit, stops)
    ensures done <= Serial(next, history, limit, stops)
    ensures Ended(done, limit, stops) || next(history + done).None? ==> done == Serial(next, history, limit, stops)
    decreases |done|
  {
    if done == [] {
      assert history + done == history;
    } else {
      var t, tail := done[0], done[1..];
      RunTail(next, history, done, limit, stops);
      if t in stops {
        assert Serial(next, history, limit, stops) == [t] == done;
      } else {
        RunsAreSerial(next, history + [t], tail, limit - 1, stops);
        SerialCons(next, history, t, tail, limit, stops);
        Regroup(history, done);
      }
    }
  }

  lemma Regroup(history: seq<Token>, done: seq<Token>)
    requires done != []
    ensures done == [done[0]] + done[1..] && history + [done[0]] + done[1..] == history + done
  {
  }

  /** The serial run after a token that is no stop follows that token. */
  lemma SerialCons(next: Chooser, history: seq<Token>, t: Token, tail: seq<Token>, limit: nat, stops: set<Token>)
    requires limit > 0 && next(history) == Some(t) && t !in stops
    requires tail <= Serial(next, history + [t], limit - 1, stops)
    ensures [t] + tail <= Serial(next, history, limit, stops)
    ensures tail == Serial(next, history + [t], limit - 1, stops) ==> [t] + tail == Serial(next, history, limit, stops)
  {
    assert Serial(next, history, limit, stops) == [t] + Serial(next, history + [t], limit - 1, stops);
  }

  lemma {:induction false} SerialIsARun(next: Chooser, history: seq<Token>, limit: nat, stops: set<Token>)
    ensures var r := Serial(next, history, limit, stops);
      Run(next, history, r, limit, stops) && (Ended(r, limit, stops) || next(history + r).None?)
    decreases limit
  {
    assert history + [] == history;
    if limit > 0 && next(history).Some? && next(history).value !in stops {
      var t := next(history).value;
      SerialIsARun(next, history + [t], limit - 1, stops);
      var tail := Serial(next, history + [t], limit - 1, stops);
      RunCons(next, history, t, tail, limit, stops);
      assert history + ([t] + tail) == history + [t] + tail;
    }
  }

  /** A token that is no stop may be put before a run that follows it. */
  lemma RunCons(next: Chooser, history: seq<Token>, t: Token, tail: seq<Token>, limit: nat, stops: set<Token>)
    requires limit > 0 && next(history) == Some(t) && t !in stops && Run(next, history + [t], tail, limit - 1, stops)
    ensures Run(next, history, [t] + tail, limit, stops)
    ensures Ended(tail, limit - 1, stops) ==> Ended([t] + tail, limit, stops)
  {
    var r := [t] + tail;
    assert history + [] == history;
    forall i | 0 <= i < |r| ensures next(history + r[..i]) == Some(r[i]) {
      if i > 0 { assert history + r[..i] == history + [t] + tail[..i - 1]; }
    }
  }
}

/**
 * Speculative greedy decoding with block verification and cache rollback.
 *
 * A network is a function of the tokens it has consumed, so a row of logits is
 * represented by exactly those tokens (its context), and a key/value cache by
 * the tokens whose states it holds.
 */
module Decoding {
  import opened Options
  import opened SerialDecoding

  type Context = seq<Token>

  datatype Method = Autoregressive | PromptLookup | Assistant

  datatype Plan = Plan(kind: Method, draftTokens: nat, minNgram: nat, maxNgram: nat, window: nat)

  datatype Outcome<+T> = Value(value: T) | Stopped | NonFinite | SelectFailed | CropFault

  function Min(a: int, b: int): int { if a < b then a else b }
  function Max(a: int, b: int): int { if a < b then b else a }

  // ---- cache rollback ----

  /** Keeps the first `length` states; refuses any length outside the cache. */
  method Crop(cache: seq<Token>, length: int) returns (kept: Option<seq<Token>>, dropped: nat)
    ensures kept.Some? <==> 0 <= length <= |cache|
    ensures kept.Some? ==> |kept.value| == length && kept.value <= cache && dropped == |cache| - length
    ensures kept.None? ==> dropped == 0
  {
    if 0 <= length <= |cache| {
      return Some(cache[..length]), |cache| - length;
    }
    return None, 0;
  }

  // ---- prompt lookup ----

  /** The last `n` tokens also occur at `pos`, inside the window and before the end. */
  predicate Repeats(history: seq<Token>, window: nat, n: nat, pos: nat) {
    && 1 <= n && pos + n < |history| && Max(0, |history| - window) <= pos
    && history[pos..pos + n] == history[|history| - n..]
  }

  ghost predicate NoRepeat(history: seq<Token>, plan: Plan, above: int) {
    forall n: nat, pos: nat :: above < n <= plan.maxNgram ==> !Repeats(history, plan.window, n, pos)
  }

  /** `(n, pos)` is the longest admitted repeat, and the latest one of that length. */
  ghost predicate BestRepeat(history: seq<Token>, plan: Plan, n: nat, pos: nat) {
    && plan.minNgram <= n <= plan.maxNgram
    && Repeats(history, plan.window, n, pos)
    && NoRepeat(history, plan, n)
    && forall later: nat :: pos < later ==> !Repeats(history, plan.window, n, later)
  }

  /** `r` is what followed the best repeat, or nothing when there is none. */
  ghost predicate FoundBy(history: seq<Token>, plan: Plan, count: nat, r: seq<Token>) {
    || (r == [] && NoRepeat(history, plan, plan.minNgram - 1))
    || exists n: nat, pos: nat ::
        BestRepeat(history, plan, n, pos) && r == history[pos + n..Min(pos + n + count, |history|)]
  }

  method Lookup(history: seq<Token>, plan: Plan, count: nat) returns (r: seq<Token>)
    requires 1 <= plan.minNgram
    ensures |r| <= count && FoundBy(history, plan, count, r)
  {
    var begin := Max(0, |history| - plan.window);
    var n: int := Min(plan.maxNgram, |history| - 1);
    while n >= plan.minNgram
      invariant n <= plan.maxNgram && n < |history|
      invariant NoRepeat(history, plan, Max(n, plan.minNgram - 1))
      decreases n
    {
      var suffix := history[|history| - n..];
      var pos := |history| - n - 1;
      while pos >= begin
        invariant begin - 1 <= pos < |history| - n || pos == |history| - n - 1
        invariant forall later: nat :: pos < later ==> !Repeats(history, plan.window, n, later)
        decreases pos - begin
      {
        if history[pos..pos + n] == suffix {
          assert BestRepeat(history, plan, n, pos);
          return history[pos + n..Min(pos + n + count, |history|)];
        }
        pos := pos - 1;
      }
      n := n - 1;
    }
    r := [];
  }

  // ---- cancellation ----

  /** The cancellation check; `stopAt` is the number of the first call that raises, if any does. */
  class Checker {
    const stopAt: Option<nat>
    var calls: nat

    constructor (stopAt: Option<nat>)
      ensures this.stopAt == stopAt && calls == 0
    {
      this.stopAt := stopAt;
      calls := 0;
    }

    method Check() returns (go: bool)
      modifies this
      ensures calls == old(calls) + 1
      ensures go <==> stopAt.None? || old(calls) < stopAt.value
    {
      go := stopAt.None? || calls < stopAt.value;
      calls := calls + 1;
    }
  }

  // ---- the draft model ----

  /** A total argmax seen as a chooser: the draft never checks its logits. */
  function Always(argmax: Context -> Token): Chooser {
    h => Some(argmax(h))
  }

  class DraftSequence {
    const argmax: Context -> Token
    const eos: set<Token>
    const checker: Checker
    var cache: seq<Token>
    var consumed: seq<Token>
    var calls: nat
    var rollbackTokens: nat
    ghost var fed: nat

    /** The cache holds exactly the tokens the sequence believes it has consumed. */
    ghost predicate Valid()
      reads this
    {
      cache == consumed && fed - rollbackTokens == |cache|
    }

    constructor (argmax: Context -> Token, eos: set<Token>, checker: Checker)
      ensures Valid() && consumed == [] && calls == 0 && rollbackTokens == 0
      ensures this.argmax == argmax && this.eos == eos && this.checker == checker
    {
      this.argmax, this.eos, this.checker := argmax, eos, checker;
      cache, consumed, calls, rollbackTokens, fed := [], [], 0, 0, 0;
    }

    /** Feeds `tokens`; the result is the context of the last position. */
    method Forward(tokens: seq<Token>) returns (logits: Option<Context>)
      modifies this`cache, this`calls, this`fed, checker
      ensures checker.stopAt.None? ==> logits.Some?
      ensures logits.Some? ==>
        && logits.value == cache == old(cache) + tokens
        && calls == old(calls) + 1 && fed == old(fed) + |tokens|
      ensures logits.None? ==> cache == old(cache) && calls == old(calls) && fed == old(fed)
    {
      var go := checker.Check();
      if !go { return None; }
      cache, calls, fed := cache + tokens, calls + 1, fed + |tokens|;
      logits := Some(cache);
    }

    /** Drops the states that `history` does not share and feeds the rest of it. */
    method Rewind(history: seq<Token>) returns (r: Outcome<Context>)
      requires Valid() && |history| > 0
      modifies this, checker
      ensures r.Value? || r.Stopped?
      ensures checker.stopAt.None? ==> r.Value?
      ensures r.Value? ==> Valid() && consumed == history == r.value && calls == old(calls) + 1
    {
      var common := 0;
      while common < |consumed| && common < |history| && consumed[common] == history[common]
        invariant common <= |consumed| && common <= |history|
        invariant consumed[..common] == history[..common]
      {
        common := common + 1;
      }
      var keep := Min(common, |history| - 1);
      var kept, dropped := Crop(cache, keep);
      if kept.None? { return CropFault; }
      assert kept.value == history[..keep] by { assert consumed[..keep] == consumed[..common][..keep]; }
      cache, rollbackTokens := kept.value, rollbackTokens + dropped;
      var logits := Forward(history[keep..]);
      if logits.None? { return Stopped; }
      consumed := history;
      r := Value(logits.value);
    }

    /**
     * Whatever was proposed or rejected before, the proposals are the draft's
     * own serial continuation of `history`; rollback is always legal.
     */
    method Propose(history: seq<Token>, count: nat) returns (r: Outcome<seq<Token>>)
      requires Valid() && |history| > 0
      modifies this, checker
      ensures r.Value? || r.Stopped?
      ensures checker.stopAt.None? ==> r.Value?
      ensures r.Value? ==>
        && Valid()
        && r.value == Serial(Always(argmax), history, count, eos)
        && consumed == history + r.value[..Max(0, |r.value| - 1)]
        && calls == old(calls) + Max(1, |r.value|)
      ensures r.Value? && count > 0 ==> 1 <= |r.value| <= count
      ensures r.Value? ==> forall k {:trigger r.value[k]} :: 0 <= k < |r.value| ==>
        r.value[k] == argmax(history + r.value[..k]) && (r.value[k] in eos ==> k == |r.value| - 1)
      ensures r.Value? && |r.value| < count ==> r.value[|r.value| - 1] in eos
    {
      var first := Rewind(history);
      if !first.Value? { return Stopped; }
      var logits := Some(first.value);
      var proposed: seq<Token> := [];
      assert history + proposed == history;
      while |proposed| < count
        invariant |proposed| <= count
        invariant Valid() && consumed == history + proposed && logits == Some(consumed)
        invariant calls == old(calls) + 1 + |proposed|
        invariant Run(Always(argmax), history, proposed, count, eos)
        invariant !Ended(proposed, count, eos) || count == 0
      {
        var go := checker.Check();
        if !go { return Stopped; }
        var token := argmax(logits.value);
        FollowsAppend(Always(argmax), history, proposed, token);
        if token in eos || |proposed| + 1 == count {
          RunsAreSerial(Always(argmax), history, proposed + [token], count, eos);
          assert (proposed + [token])[..|proposed|] == proposed;
          return Value(proposed + [token]);
        }
        logits := Forward([token]);
        if logits.None? { return Stopped; }
        consumed := consumed + [token];
        proposed := proposed + [token];
        assert consumed == history + proposed;
      }
      assert consumed == history + proposed[..0];
      r := Value(proposed);
    }
  }

  // ---- the target model ----

  datatype RoundDoc = RoundDoc(proposed: nat, accepted: nat, emitted: nat, rolledBack: nat, committed: nat,
      cacheTokens: nat)

  const ROUND_LOG := 256

  function Flatten(groups: seq<seq<Token>>): seq<Token> {
    if groups == [] then [] else Flatten(groups[..|groups| - 1]) + groups[|groups| - 1]
  }

  lemma FlattenAppend(groups: seq<seq<Token>>, group: seq<Token>)
    ensures Flatten(groups + [group]) == Flatten(groups) + group
  {
    assert (groups + [group])[..|groups|] == groups;
  }

  /** The contexts of a verified block: before each guess, and after the last. */
  function Contexts(history: seq<Token>, guesses: seq<Token>): (c: seq<Context>)
    ensures |c| == |guesses| + 1
    ensures forall i :: 0 <= i < |c| ==> c[i] == history + guesses[..i]
  {
    seq(|guesses| + 1, i requires 0 <= i <= |guesses| => history + guesses[..i])
  }

  /** The picks that serial decoding would make: the sampler's, or the target's own argmax. */
  function Picks(net: Chooser, select: (Context, seq<Token>, seq<Token>) -> Option<Token>, kind: Method,
      inputs: nat): Chooser {
    h => if kind.Autoregressive? && inputs <= |h| then select(h, h, h[inputs..]) else net(h)
  }

  /** The emitted tokens of one block: the guesses the target agrees with, then its own next token. */
  ghost predicate Verified(next: Chooser, history: seq<Token>, guesses: seq<Token>, accepted: nat,
      emitted: seq<Token>) {
    && accepted <= |guesses| && |emitted| == accepted + 1
    && emitted[..accepted] == guesses[..accepted]
    && Follows(next, history, emitted)
    && (accepted < |guesses| ==> guesses[accepted] != emitted[accepted])
  }

  /**
   * What one round must emit: with `accepted` the length of the longest prefix of the
   * guesses that `next` agrees with, those tokens and one more, cut after the first stop.
   */
  ghost predicate Emission(next: Chooser, history: seq<Token>, guesses: seq<Token>, accepted: nat,
      emitted: seq<Token>, stops: set<Token>) {
    && accepted <= |guesses| && Follows(next, history, guesses[..accepted])
    && (accepted < |guesses| ==> next(history + guesses[..accepted]) != Some(guesses[accepted]))
    && 0 < |emitted| <= accepted + 1
    && Follows(next, history, emitted) && NoEarlyStop(emitted, stops)
    && (|emitted| == accepted + 1 || emitted[|emitted| - 1] in stops)
  }

  /** Cutting a verified block short leaves a block that follows the picks and, but for its last token, the guesses. */
  lemma VerifiedPrefix(next: Chooser, history: seq<Token>, guesses: seq<Token>, accepted: nat, block: seq<Token>,
      emitted: seq<Token>, stops: set<Token>)
    requires Verified(next, history, guesses, accepted, block)
    requires emitted != [] && emitted <= block
    requires NoEarlyStop(emitted, stops) && (emitted == block || emitted[|emitted| - 1] in stops)
    ensures Emission(next, history, guesses, accepted, emitted, stops) && emitted[..|emitted| - 1] <= guesses
  {
    forall i | 0 <= i < |emitted| ensures next(history + emitted[..i]) == Some(emitted[i]) {
      assert emitted[..i] == block[..i];
    }
    forall i | 0 <= i < accepted ensures next(history + guesses[..accepted][..i]) == Some(guesses[..accepted][i]) {
      assert guesses[..accepted][..i] == block[..i];
    }
    assert guesses[..accepted] == block[..accepted];
    assert emitted[..|emitted| - 1] == block[..accepted][..|emitted| - 1];
  }

  class Decoder {
    const net: Chooser
    const select: (Context, seq<Token>, seq<Token>) -> Option<Token>
    const plan: Plan
    const prompt: seq<Token>
    const limit: nat
    const eos: set<Token>
    const fixed: bool
    const checker: Checker
    const draft: DraftSequence?

    var history: seq<Token>
    var generated: seq<Token>
    var cache: seq<Token>
    var initial: Option<Context>
    var groups: seq<seq<Token>>
    // statistics
    var forwardCalls: nat
    var inputTokens: nat
    var verificationCalls: nat
    var proposedTokens: nat
    var acceptedTokens: nat
    var discardedTokens: nat
    var rollbackTokens: nat
    var rounds: seq<RoundDoc>
    var roundsTruncated: bool

    ghost function Next(): Chooser { Picks(net, select, plan.kind, |prompt|) }

    ghost function Stops(): set<Token> { if fixed then {} else eos }

    ghost function Wanted(): seq<Token> { Serial(Next(), prompt, limit, Stops()) }

    /** Somewhere past the prompt the target's logits are not finite. */
    ghost predicate Unscorable() { exists h :: prompt <= h && net(h).None? }

    ghost predicate Finished()
      reads this`generated
    {
      Ended(generated, limit, Stops())
    }

    /** The wiring a decoding plan allows: only the assistant method has a draft model. */
    ghost predicate Wired() {
      && 0 < |prompt|
      && 1 <= plan.minNgram
      && (draft != null ==> plan.kind.Assistant? && draft.checker == checker)
    }

    /** What has been published is the serial run so far. */
    ghost predicate OnTrack()
      reads this`history, this`generated, this`groups
    {
      && history == prompt + generated
      && Flatten(groups) == generated
      && Run(Next(), prompt, generated, limit, Stops())
    }

    /** The books balance, and every published round left the cache one token short of the history. */
    ghost predicate Balanced()
      reads this
    {
      && inputTokens - rollbackTokens == |cache|
      && proposedTokens == acceptedTokens + discardedTokens
      && |groups| <= |generated| && verificationCalls <= |groups|
      && |groups| <= forwardCalls <= |groups| + 1
      && Logged(|groups|)
    }

    /** The first rounds are logged, at most ROUND_LOG of them, each with a cache one short of its history. */
    ghost predicate Logged(count: nat)
      reads this`rounds, this`roundsTruncated
    {
      && |rounds| == Min(count, ROUND_LOG)
      && roundsTruncated == (count > ROUND_LOG)
      && forall i :: 0 <= i < |rounds| ==>
           && rounds[i].cacheTokens == rounds[i].committed - 1
           && rounds[i].accepted <= rounds[i].proposed && 1 <= rounds[i].emitted <= rounds[i].accepted + 1
    }

    /** The state between rounds. */
    ghost predicate Valid()
      reads this, draft
    {
      && Wired() && OnTrack() && Balanced()
      && (draft != null ==> draft.Valid())
      && Primed() && (initial.Some? <==> groups == []) && (initial.Some? ==> forwardCalls == 1)
    }

    /** The cache misses only the last token of the history, or nothing just after the prompt was fed. */
    ghost predicate Primed()
      reads this`history, this`initial, this`cache
    {
      && history != []
      && (initial.Some? ==> cache == history == initial.value)
      && (initial.None? ==> cache == history[..|history| - 1])
    }

    ghost predicate Fresh()
      reads this, draft
    {
      && Wired() && (draft != null ==> draft.Valid())
      && history == prompt && generated == [] && cache == [] && groups == [] && initial.None?
      && forwardCalls == inputTokens == verificationCalls == rollbackTokens == 0
      && proposedTokens == acceptedTokens == discardedTokens == 0 && rounds == [] && !roundsTruncated
    }

    constructor (net: Chooser, select: (Context, seq<Token>, seq<Token>) -> Option<Token>, plan: Plan,
                 prompt: seq<Token>, limit: nat, eos: set<Token>, fixed: bool, checker: Checker, draft: DraftSequence?)
      requires 0 < |prompt| && 1 <= plan.minNgram
      requires draft != null ==> plan.kind.Assistant? && draft.checker == checker && draft.Valid()
      ensures Fresh()
      ensures this.net == net && this.select == select && this.plan == plan && this.prompt == prompt
      ensures this.limit == limit && this.eos == eos && this.fixed == fixed && this.checker == checker &&
        this.draft == draft
    {
      this.net, this.select, this.plan, this.prompt := net, select, plan, prompt;
      this.limit, this.eos, this.fixed, this.checker, this.draft := limit, eos, fixed, checker, draft;
      history, generated, cache, groups, initial := prompt, [], [], [], None;
      forwardCalls, inputTokens, verificationCalls, rollbackTokens := 0, 0, 0, 0;
      proposedTokens, acceptedTokens, discardedTokens := 0, 0, 0;
      rounds, roundsTruncated := [], false;
    }

    method Forward(tokens: seq<Token>) returns (scores: Option<seq<Context>>)
      modifies this`cache, this`forwardCalls, this`inputTokens, checker
      ensures checker.stopAt.None? ==> scores.Some?
      ensures scores.Some? ==>
        && cache == old(cache) + tokens
        && forwardCalls == old(forwardCalls) + 1 && inputTokens == old(inputTokens) + |tokens|
        && |scores.value| == |tokens|
        && forall i :: 0 <= i < |tokens| ==> scores.value[i] == old(cache) + tokens[..i + 1]
      ensures scores.None? ==> unchanged(this)
    {
      var go := checker.Check();
      if !go { return None; }
      var before := cache;
      cache, forwardCalls, inputTokens := cache + tokens, forwardCalls + 1, inputTokens + |tokens|;
      scores := Some(seq(|tokens|, i requires 0 <= i < |tokens| => before + tokens[..i + 1]));
    }

    /** What the guesses of a round may be, given the tokens known so far. */
    ghost function Guesses(known: seq<Token>, remaining: nat): iset<seq<Token>>
      requires 0 < remaining
    {
      var count := Min(plan.draftTokens, remaining - 1);
      if plan.kind.PromptLookup? then iset guesses | FoundBy(known, plan, count, guesses)
      else if draft != null && remaining > 1 then iset{Serial(Always(draft.argmax), known, count, draft.eos)}
      else iset{[]}
    }

    /** Guesses from whichever source the plan names, never more than may still be emitted. */
    method Guess(remaining: nat) returns (r: Outcome<seq<Token>>)
      requires Wired() && 0 < |history| && 0 < remaining && (draft != null ==> draft.Valid())
      modifies draft, checker
      ensures r.Value? || r.Stopped?
      ensures checker.stopAt.None? ==> r.Value?
      ensures r.Value? ==> (draft != null ==> draft.Valid()) && |r.value| < remaining && |r.value| <= plan.draftTokens
      ensures r.Value? ==> r.value in Guesses(history, remaining)
    {
      var count: nat := Min(plan.draftTokens, remaining - 1);
      if plan.kind.PromptLookup? {
        var found := Lookup(history, plan, count);
        r := Value(found);
      } else if draft != null && remaining > 1 {
        r := draft.Propose(history, count);
      } else {
        r := Value([]);
      }
    }

    /** One block through the target: the scores of every position from the history onward. */
    method Score(guesses: seq<Token>) returns (scores: Option<seq<Context>>)
      requires Primed()
      modifies this`cache, this`forwardCalls, this`inputTokens, checker
      ensures checker.stopAt.None? ==> scores.Some?
      ensures scores.Some? ==> scores.value == Contexts(history, guesses) && cache == history + guesses
      ensures inputTokens - |cache| == old(inputTokens - |cache|)
      ensures scores.Some? ==> forwardCalls == old(forwardCalls) + (if guesses == [] && initial.Some? then 0 else 1)
    {
      if guesses != [] || initial.None? {
        var tokens := if initial.Some? then guesses else [history[|history| - 1]] + guesses;
        scores := Forward(tokens);
        if scores.Some? {
          if initial.Some? {
            scores := Some([initial.value] + scores.value);
            assert history == history + guesses[..0];
          } else {
            assert forall i :: 0 <= i < |tokens| ==> old(cache) + tokens[..i + 1] == history + guesses[..i];
          }
          assert scores.value == Contexts(history, guesses);
        }
      } else {
        scores := Some([initial.value]);
        assert history == history + guesses[..0];
        assert scores.value == Contexts(history, guesses);
      }
    }

    /** Accepts the longest prefix of the guesses that the target itself would have produced. */
    method Accept(guesses: seq<Token>, scores: seq<Context>) returns (r: Outcome<seq<Token>>, accepted: nat)
      requires history == prompt + generated && !Finished()
      requires scores == Contexts(history, guesses)
      requires plan.kind.Autoregressive? ==> guesses == []
      ensures r.Value? || r.NonFinite? || r.SelectFailed?
      ensures r.Value? ==> Verified(Next(), history, guesses, accepted, r.value)
      ensures r.NonFinite? ==> !plan.kind.Autoregressive? && Unscorable()
      ensures r.SelectFailed? ==> plan.kind.Autoregressive? && !Finished() && Next()(history).None?
      ensures plan.kind.Autoregressive? ==>
        var picked := select(history, history, generated);
        accepted == 0 && r == if picked.Some? then Value([picked.value]) else SelectFailed
      ensures !plan.kind.Autoregressive? ==>
        && (r.NonFinite? <==> exists i :: 0 <= i < |scores| && net(scores[i]).None?)
        && (r.Value? ==> forall i :: 0 <= i < |r.value| ==> net(scores[i]) == Some(r.value[i]))
    {
      accepted := 0;
      assert history + [] == history;
      assert history[|prompt|..] == generated;
      if plan.kind.Autoregressive? {
        var picked := select(scores[|scores| - 1], history, generated);
        if picked.None? { return SelectFailed, 0; }
        return Value([picked.value]), 0;
      }
      if i :| 0 <= i < |scores| && net(scores[i]).None? {
        assert prompt <= scores[i];
        return NonFinite, 0;
      }
      var predictions := seq(|scores|, i requires 0 <= i < |scores| => net(scores[i]).value);
      while accepted < |guesses| && guesses[accepted] == predictions[accepted]
        invariant accepted <= |guesses|
        invariant guesses[..accepted] == predictions[..accepted]
      {
        accepted := accepted + 1;
      }
      var emitted := guesses[..accepted] + [predictions[accepted]];
      assert emitted == predictions[..accepted + 1];
      forall i | 0 <= i < |emitted| ensures Next()(history + emitted[..i]) == Some(emitted[i]) {
        assert emitted[..i] == guesses[..i];
      }
      r := Value(emitted);
    }

    /** Cuts a block after its first stop token, unless the output length is fixed. */
    method CutAtStop(block: seq<Token>) returns (emitted: seq<Token>)
      requires block != []
      ensures emitted != [] && emitted <= block
      ensures NoEarlyStop(emitted, Stops())
      ensures emitted == block || emitted[|emitted| - 1] in Stops()
    {
      emitted := block;
      if fixed { return; }
      var index := 0;
      while index < |block|
        invariant 0 <= index <= |block|
        invariant forall i :: 0 <= i < index ==> block[i] !in eos
      {
        if block[index] in eos {
          emitted := block[..index + 1];
          return;
        }
        index := index + 1;
      }
    }

    /** The state of a round between scoring a block and publishing it. */
    ghost predicate Scored(guesses: seq<Token>)
      reads this, draft
    {
      && Wired() && OnTrack() && !Finished() && initial.None?
      && (draft != null ==> draft.Valid())
      && cache == history + guesses
      && inputTokens - rollbackTokens == |cache|
      && proposedTokens == acceptedTokens + discardedTokens
      && |groups| <= |generated| && verificationCalls <= |groups|
      && |groups| + 1 <= forwardCalls <= |groups| + 2
      && Logged(|groups|)
    }

    /** Books one round of statistics. */
    method Book(guesses: nat, accepted: nat, emitted: nat, rolled: nat)
      requires accepted <= guesses && 0 < |history| && |cache| == |history| - 1
      requires 1 <= emitted <= accepted + 1 && Logged(|groups|)
      modifies this`rollbackTokens, this`proposedTokens, this`acceptedTokens, this`discardedTokens,
               this`verificationCalls, this`rounds, this`roundsTruncated
      ensures rollbackTokens == old(rollbackTokens) + rolled
      ensures proposedTokens == old(proposedTokens) + guesses
      ensures acceptedTokens == old(acceptedTokens) + accepted
      ensures discardedTokens == old(discardedTokens) + (guesses - accepted)
      ensures verificationCalls == old(verificationCalls) + (if guesses > 0 then 1 else 0)
      ensures Logged(|groups| + 1) && old(rounds) <= rounds
      ensures |groups| < ROUND_LOG ==>
        rounds == old(rounds) + [RoundDoc(guesses, accepted, emitted, rolled, |history|, |cache|)]
    {
      rollbackTokens := rollbackTokens + rolled;
      proposedTokens := proposedTokens + guesses;
      acceptedTokens := acceptedTokens + accepted;
      discardedTokens := discardedTokens + (guesses - accepted);
      verificationCalls := verificationCalls + (if guesses > 0 then 1 else 0);
      if |rounds| < ROUND_LOG {
        rounds := rounds + [RoundDoc(guesses, accepted, emitted, rolled, |history|, |cache|)];
      } else {
        roundsTruncated := true;
      }
    }

    /** Drops every state past the committed history. */
    method RollBack(ghost before: seq<Token>, guesses: seq<Token>, emitted: seq<Token>) returns (rolled: Option<nat>)
      requires emitted != [] && emitted[..|emitted| - 1] <= guesses
      requires history == before + emitted && cache == before + guesses
      modifies this`cache
      ensures rolled.Some? && cache == history[..|history| - 1] && rolled.value == |old(cache)| - |cache|
    {
      var kept, dropped := Crop(cache, |history| - 1);
      if kept.None? { return None; }
      assert history[..|history| - 1] == before + emitted[..|emitted| - 1];
      cache := kept.value;
      rolled := Some(dropped);
    }

    /** Takes the emitted tokens into the history and drops the states past it. */
    method Expose(guesses: seq<Token>, emitted: seq<Token>) returns (rolled: Option<nat>)
      requires OnTrack() && cache == history + guesses && emitted != [] && emitted[..|emitted| - 1] <= guesses
      requires Run(Next(), history, emitted, limit - |generated|, Stops()) && !Finished()
      modifies this`history, this`generated, this`cache
      ensures history == old(history) + emitted && generated == old(generated) + emitted &&
        history == prompt + generated
      ensures Run(Next(), prompt, generated, limit, Stops())
      ensures rolled.Some? && cache == history[..|history| - 1] && rolled.value == |old(cache)| - |cache|
    {
      RunConcat(Next(), prompt, generated, emitted, limit, Stops());
      ghost var before := history;
      history, generated := history + emitted, generated + emitted;
      assert history == prompt + generated;
      rolled := RollBack(before, guesses, emitted);
    }

    /** Commits the emitted tokens and rolls back before anything is exposed. */
    method Publish(guesses: seq<Token>, accepted: nat, emitted: seq<Token>) returns (r: Outcome<seq<Token>>)
      requires Scored(guesses)
      requires 0 < |emitted| <= accepted + 1 <= |guesses| + 1
      requires emitted[..|emitted| - 1] <= guesses
      requires Run(Next(), history, emitted, limit - |generated|, Stops())
      modifies this
      ensures r == Value(emitted) && Valid() && groups == old(groups) + [emitted]
      ensures proposedTokens == old(proposedTokens) + |guesses|
      ensures acceptedTokens == old(acceptedTokens) + Min(accepted, |emitted|)
    {
      FlattenAppend(groups, emitted);
      var rolled := Expose(guesses, emitted);
      if rolled.None? { return CropFault; }
      Book(|guesses|, Min(accepted, |emitted|), |emitted|, rolled.value);
      groups := groups + [emitted];
      assert Balanced();
      r := Value(emitted);
    }

    /** First half of a round: guess and score the block. */
    method Draw(ghost known: seq<Token>, ghost remaining: nat) returns (r: Outcome<seq<Token>>, scores: seq<Context>)
      requires Valid() && !Finished() && known == history && remaining == limit - |generated|
      modifies this`cache, this`forwardCalls, this`inputTokens, this`initial, checker, draft
      ensures r.Value? || r.Stopped?
      ensures checker.stopAt.None? ==> r.Value?
      ensures r.Value? ==>
        && Scored(r.value) && |r.value| < remaining
        && scores == Contexts(known, r.value)
        && r.value in Guesses(known, remaining)
    {
      scores := [];
      var go := checker.Check();
      if !go { return Stopped, []; }
      r := Guess(limit - |generated|);
      if !r.Value? { return; }
      var scored := ScoreAll(r.value);
      if scored.None? { return Stopped, []; }
      scores := scored.value;
    }

    /** Scores a guessed block and forgets the scores of the prompt. */
    method ScoreAll(guesses: seq<Token>) returns (scores: Option<seq<Context>>)
      requires Valid() && !Finished()
      modifies this`cache, this`forwardCalls, this`inputTokens, this`initial, checker
      ensures checker.stopAt.None? ==> scores.Some?
      ensures scores.Some? ==> Scored(guesses) && scores.value == Contexts(history, guesses)
    {
      scores := Score(guesses);
      if scores.Some? { initial := None; }
    }

    /** Second half of a round: accept, cut, publish, roll back. */
    method Settle(ghost known: seq<Token>, guesses: seq<Token>, scores: seq<Context>)
        returns (r: Outcome<seq<Token>>, accepted: nat)
      requires known == history && Scored(guesses) && |guesses| < limit - |generated| &&
        scores == Contexts(history, guesses)
      requires plan.kind.Autoregressive? ==> guesses == []
      modifies this
      ensures r.Value? || r.NonFinite? || r.SelectFailed?
      ensures r.Value? ==> Valid() && groups == old(groups) + [r.value]
      ensures r.Value? ==> Emission(Next(), known, guesses, accepted, r.value, Stops())
      ensures r.Value? ==> proposedTokens == old(proposedTokens) + |guesses|
      ensures r.Value? ==> acceptedTokens == old(acceptedTokens) + Min(accepted, |r.value|)
      ensures !r.Value? ==> unchanged(this)
      ensures r.NonFinite? ==> !plan.kind.Autoregressive? && Unscorable()
      ensures r.SelectFailed? ==> plan.kind.Autoregressive? && !Finished() && Next()(history).None?
    {
      var block;
      block, accepted := Accept(guesses, scores);
      if !block.Value? { return block, accepted; }
      var emitted := CutAtStop(block.value[..Min(limit - |generated|, |block.value|)]);
      VerifiedPrefix(Next(), history, guesses, accepted, block.value, emitted, Stops());
      r := Publish(guesses, accepted, emitted);
    }

    /** One pass of the round loop. */
    method Round() returns (r: Outcome<seq<Token>>, ghost guesses: seq<Token>, ghost accepted: nat)
      requires Valid() && !Finished()
      modifies this, checker, draft
      ensures !r.CropFault?
      ensures r.Value? ==> Valid() && groups == old(groups) + [r.value]
      ensures r.Value? ==> guesses in Guesses(old(history), limit - |old(generated)|)
      ensures r.Value? ==> Emission(Next(), old(history), guesses, accepted, r.value, Stops())
      ensures r.Value? ==> proposedTokens == old(proposedTokens) + |guesses|
      ensures r.Value? ==> acceptedTokens == old(acceptedTokens) + Min(accepted, |r.value|)
      ensures !r.Value? ==> OnTrack() && generated == old(generated) && groups == old(groups)
      ensures checker.stopAt.None? ==> !r.Stopped?
      ensures r.NonFinite? ==> !plan.kind.Autoregressive? && Unscorable()
      ensures r.SelectFailed? ==> plan.kind.Autoregressive? && !Finished() && Next()(history).None?
    {
      ghost var known := history;
      var drawn, scores := Draw(known, limit - |generated|);
      if !drawn.Value? { return Stopped, [], 0; }
      guesses := drawn.value;
      r, accepted := Settle(known, drawn.value, scores);
    }

    /** Feeds the prompt and keeps the scores of its last position for the first round. */
    method Prefill() returns (r: Outcome<seq<Token>>)
      requires Fresh()
      modifies this`cache, this`forwardCalls, this`inputTokens, this`initial, checker
      ensures r.Value? || r.Stopped?
      ensures checker.stopAt.None? ==> r.Value?
      ensures OnTrack() && (r.Value? ==> Valid())
    {
      assert prompt + generated == prompt;
      var scores := Forward(history);
      if scores.None? { return Stopped; }
      initial := Some(scores.value[|scores.value| - 1]);
      r := Value([]);
    }

    /** What is on track is a prefix of the serial run, and all of it when nothing more can follow. */
    lemma PublishedIsSerial()
      requires OnTrack()
      ensures generated <= Wanted()
      ensures Finished() || Next()(history).None? ==> generated == Wanted()
    {
      RunsAreSerial(Next(), prompt, generated, limit, Stops());
    }

    /** Round after round until the budget is spent, a stop is emitted or a call raises. */
    method Loop() returns (r: Outcome<seq<Token>>)
      requires Valid()
      modifies this, checker, draft
      ensures OnTrack() && (r.Value? ==> Valid() && Finished() && r.value == generated)
      ensures !r.CropFault?
      ensures checker.stopAt.None? ==> !r.Stopped?
      ensures r.NonFinite? ==> !plan.kind.Autoregressive? && Unscorable()
      ensures r.SelectFailed? ==> plan.kind.Autoregressive? && !Finished() && Next()(history).None?
    {
      while |generated| < limit
        invariant Valid()
        decreases limit - |generated|
      {
        if generated != [] && generated[|generated| - 1] in eos && !fixed { break; }
        ghost var guesses, accepted;
        r, guesses, accepted := Round();
        if !r.Value? { return; }
      }
      r := Value(generated);
    }

    /**
     * The whole generator. However the guesses were made, what was published is
     * a prefix of the serial run, and all of it when the generator finishes.
     */
    method Rounds() returns (r: Outcome<seq<Token>>)
      requires Fresh()
      modifies this, checker, draft
      ensures Flatten(groups) == generated <= Wanted()
      ensures r.Value? ==> r.value == generated == Wanted() && Valid() && Finished()
      ensures !r.CropFault?
      ensures checker.stopAt.None? ==> !r.Stopped?
      ensures r.NonFinite? ==> !plan.kind.Autoregressive? && Unscorable()
      ensures r.SelectFailed? ==> plan.kind.Autoregressive? && generated == Wanted() && !Finished()
      ensures forall k {:trigger generated[k]} :: 0 <= k < |generated| ==>
        var h := prompt + generated[..k];
        if plan.kind.Autoregressive? then select(h, h, generated[..k]) == Some(generated[k])
        else net(h) == Some(generated[k])
      ensures |generated| <= limit && forall k :: 0 <= k < |generated| - 1 ==> fixed || generated[k] !in eos
      ensures r.Value? ==>
        |generated| == limit || (!fixed && generated != [] && generated[|generated| - 1] in eos)
      ensures r.SelectFailed? ==> select(prompt + generated, prompt + generated, generated).None?
    {
      r := Prefill();
      if r.Value? {
        r := Loop();
      }
      PublishedIsSerial();
      PicksAre();
    }

    /** What was published, token by token: the sampler's pick after prompt and tokens so far, or the target's own. */
    lemma PicksAre()
      requires OnTrack()
      ensures forall k {:trigger generated[k]} :: 0 <= k < |generated| ==>
        var h := prompt + generated[..k];
        if plan.kind.Autoregressive? then select(h, h, generated[..k]) == Some(generated[k])
        else net(h) == Some(generated[k])
      ensures plan.kind.Autoregressive? ==>
        Next()(prompt + generated) == select(prompt + generated, prompt + generated, generated)
    {
      assert history[|prompt|..] == generated;
      forall k | 0 <= k < |generated|
        ensures var h := prompt + generated[..k];
          if plan.kind.Autoregressive? then select(h, h, generated[..k]) == Some(generated[k])
          else net(h) == Some(generated[k])
      {
        var h := prompt + generated[..k];
        assert Next()(h) == Some(generated[k]) && h[|prompt|..] == generated[..k];
      }
    }
  }
}
