/** Logit selection over extended scores: a real number, or minus infinity for a masked token. */
module Sampling {
  import opened Options
  import opened Orders
  import opened Reals
  import opened SerialDecoding
  import opened ChoiceTries
  import opened Decoding

  datatype Score = NegInf | Fin(v: real)

  predicate Less(a: Score, b: Score) {
    b.Fin? && (a.NegInf? || a.v < b.v)
  }

  predicate HasFinite(s: seq<Score>) {
    exists i :: 0 <= i < |s| && s[i].Fin?
  }

  /** The lowest index of a largest score. */
  function Argmax(s: seq<Score>): (m: nat)
    requires s != []
    ensures m < |s|
    ensures forall j :: 0 <= j < |s| ==> !Less(s[m], s[j])
    ensures forall j :: 0 <= j < m ==> Less(s[j], s[m])
  {
    var last := |s| - 1;
    if last == 0 then 0
    else
      var m := Argmax(s[..last]);
      assert forall j :: 0 <= j < last ==> s[..last][j] == s[j];
      if Less(s[m], s[last]) then last else m
  }

  // ---- the top-k threshold ----

  /** How many scores are strictly above `x`. */
  function CountAbove(s: seq<Score>, x: Score): nat {
    if s == [] then 0 else CountAbove(s[..|s| - 1], x) + (if Less(x, s[|s| - 1]) then 1 else 0)
  }

  /** The k-th largest score, by taking the largest away k - 1 times. */
  function Cutoff(s: seq<Score>, k: nat): Score
    requires 1 <= k <= |s|
    decreases k
  {
    var m := Argmax(s);
    if k == 1 then s[m] else Cutoff(s[..m] + s[m + 1..], k - 1)
  }

  function TopK(s: seq<Score>, k: nat): (r: seq<Score>)
    requires s != []
    ensures |r| == |s|
  {
    if k == 0 then s
    else
      var cutoff := Cutoff(s, if k < |s| then k else |s|);
      seq(|s|, i requires 0 <= i < |s| => if Less(s[i], cutoff) then NegInf else s[i])
  }

  lemma {:induction false} CountConcat(a: seq<Score>, b: seq<Score>, x: Score)
    ensures CountAbove(a + b, x) == CountAbove(a, x) + CountAbove(b, x)
    decreases |b|
  {
    if b == [] {
      assert a + b == a;
    } else {
      assert (a + b)[..|a + b| - 1] == a + b[..|b| - 1];
      CountConcat(a, b[..|b| - 1], x);
    }
  }

  lemma CountWithout(s: seq<Score>, m: nat, x: Score)
    requires m < |s|
    ensures CountAbove(s, x) == CountAbove(s[..m] + s[m + 1..], x) + (if Less(x, s[m]) then 1 else 0)
  {
    assert s == s[..m] + ([s[m]] + s[m + 1..]);
    CountConcat(s[..m], [s[m]] + s[m + 1..], x);
    CountConcat([s[m]], s[m + 1..], x);
    CountConcat(s[..m], s[m + 1..], x);
    assert [s[m]][..0] == [];
  }

  lemma {:induction false} NoneAbove(s: seq<Score>, x: Score)
    ensures CountAbove(s, x) == 0 <==> forall j :: 0 <= j < |s| ==> !Less(x, s[j])
    decreases |s|
  {
    if s != [] {
      var init := s[..|s| - 1];
      NoneAbove(init, x);
      assert forall j :: 0 <= j < |init| ==> init[j] == s[j];
    }
  }

  /** A score reaches the k-th largest exactly when fewer than k scores beat it. */
  lemma {:induction false} ReachesCutoff(s: seq<Score>, k: nat, x: Score)
    requires 1 <= k <= |s|
    ensures !Less(x, Cutoff(s, k)) <==> CountAbove(s, x) < k
    decreases k
  {
    var m := Argmax(s);
    if k == 1 {
      NoneAbove(s, x);
    } else {
      var rest := s[..m] + s[m + 1..];
      CountWithout(s, m, x);
      ReachesCutoff(rest, k - 1, x);
      if !Less(x, s[m]) {
        NoneAbove(s, x);
      }
    }
  }

  /** Counting what is above is the size of a set. */
  lemma {:induction false} CountIsSize(s: seq<Score>, x: Score, n: nat)
    requires n <= |s|
    ensures CountAbove(s[..n], x) == |set j | 0 <= j < n && Less(x, s[j])|
    decreases n
  {
    if n > 0 {
      CountIsSize(s, x, n - 1);
      CountStep(s, n, x);
      var before := set j | 0 <= j < n - 1 && Less(x, s[j]);
      var all := set j | 0 <= j < n && Less(x, s[j]);
      assert all == if Less(x, s[n - 1]) then before + {n - 1} else before;
    }
  }

  /** Exactly the scores with fewer than k above them survive the threshold, and they survive unchanged. */
  lemma TopKIs(s: seq<Score>, k: nat, i: nat)
    requires i < |s|
    ensures TopK(s, k)[i] == if k == 0 || |set j | 0 <= j < |s| && Less(s[i], s[j])| < k then s[i] else NegInf
  {
    CountIsSize(s, s[i], |s|);
    assert s[..|s|] == s;
    CountBelowLength(s, i);
    if k > 0 { ReachesCutoff(s, if k < |s| then k else |s|, s[i]); }
  }

  // ---- the two ways to confine the scores ----

  function Gathered(scores: seq<Score>, allowed: seq<Token>): seq<Score>
    requires InRange(allowed, |scores|)
  {
    seq(|allowed|, i requires 0 <= i < |allowed| => scores[allowed[i]])
  }

  function Masked(scores: seq<Score>, allowed: seq<Token>): seq<Score> {
    seq(|scores|, i requires 0 <= i < |scores| => if i in allowed then scores[i] else NegInf)
  }

  predicate InRange(tokens: seq<Token>, vocabulary: nat) {
    forall i :: 0 <= i < |tokens| ==> tokens[i] < vocabulary
  }

  lemma CountStep(s: seq<Score>, n: nat, x: Score)
    requires 0 < n <= |s|
    ensures CountAbove(s[..n], x) == CountAbove(s[..n - 1], x) + (if Less(x, s[n - 1]) then 1 else 0)
  {
    assert s[..n][..n - 1] == s[..n - 1];
  }

  /** Masked-out tokens are above nothing, so both layouts rank a score alike. */
  lemma {:induction false} CountsAgree(scores: seq<Score>, allowed: seq<Token>, n: nat, k: nat, x: Score)
    requires InRange(allowed, |scores|) && Ascending(allowed)
    requires n <= |scores| && k <= |allowed|
    requires forall i :: 0 <= i < k ==> allowed[i] < n
    requires forall i :: k <= i < |allowed| ==> n <= allowed[i]
    ensures CountAbove(Masked(scores, allowed)[..n], x) == CountAbove(Gathered(scores, allowed)[..k], x)
    decreases n
  {
    var m, g := Masked(scores, allowed), Gathered(scores, allowed);
    assert k > 0 ==> allowed[0] < n;
    if n == 0 {
      assert k == 0;
    } else if k > 0 && allowed[k - 1] == n - 1 {
      CountsAgree(scores, allowed, n - 1, k - 1, x);
      CountStep(m, n, x);
      CountStep(g, k, x);
      assert n - 1 in allowed && m[n - 1] == g[k - 1];
    } else {
      assert n - 1 !in allowed;
      CountsAgree(scores, allowed, n - 1, k, x);
      CountStep(m, n, x);
    }
  }

  lemma CountBelowLength(s: seq<Score>, i: nat)
    requires i < |s|
    ensures CountAbove(s, s[i]) < |s|
  {
    CountWithout(s, i, s[i]);
    CountBound(s[..i] + s[i + 1..], s[i]);
  }

  lemma {:induction false} CountBound(s: seq<Score>, x: Score)
    ensures CountAbove(s, x) <= |s|
    decreases |s|
  {
    if s != [] { CountBound(s[..|s| - 1], x); }
  }

  /** Greedy choice with lowest-index ties does not depend on the constraint backend. */
  lemma BackendsAgreeGreedily(scores: seq<Score>, allowed: seq<Token>)
    requires InRange(allowed, |scores|) && Ascending(allowed)
    ensures HasFinite(Masked(scores, allowed)) <==> HasFinite(Gathered(scores, allowed))
    ensures HasFinite(Gathered(scores, allowed)) ==>
      Argmax(Masked(scores, allowed)) == allowed[Argmax(Gathered(scores, allowed))]
  {
    var m, g := Masked(scores, allowed), Gathered(scores, allowed);
    if HasFinite(g) {
      var i :| 0 <= i < |g| && g[i].Fin?;
      assert m[allowed[i]] == g[i];
    }
    if HasFinite(m) {
      var best := Argmax(m);
      var t :| 0 <= t < |m| && m[t].Fin?;
      assert m[best].Fin? && best in allowed;
      var i :| 0 <= i < |allowed| && allowed[i] == best;
      assert g[i].Fin? && g[i] == m[best];
      forall j | 0 <= j < |g| ensures !Less(g[i], g[j]) && (j < i ==> Less(g[j], g[i])) {
        assert g[j] == m[allowed[j]];
      }
      assert i == Argmax(g);
    }
  }

  /** The top-k threshold leaves the same scores under either backend. */
  lemma BackendsAgreeOnTopK(scores: seq<Score>, allowed: seq<Token>, k: nat, i: nat)
    requires InRange(allowed, |scores|) && Ascending(allowed) && i < |allowed| && scores != []
    ensures TopK(Masked(scores, allowed), k)[allowed[i]] == TopK(Gathered(scores, allowed), k)[i]
  {
    var m, g := Masked(scores, allowed), Gathered(scores, allowed);
    var t := allowed[i];
    assert m[t] == g[i];
    if k > 0 {
      CountsAgree(scores, allowed, |scores|, |allowed|, g[i]);
      assert m[..|scores|] == m && g[..|allowed|] == g;
      CountBelowLength(g, i);
      CountBelowLength(m, t);
      ReachesCutoff(m, if k < |m| then k else |m|, g[i]);
      ReachesCutoff(g, if k < |g| then k else |g|, g[i]);
    }
  }

  /** A token outside the allowed set never survives the mask. */
  lemma MaskedOutStaysOut(scores: seq<Score>, allowed: seq<Token>, k: nat, t: Token)
    requires t < |scores| && t !in allowed
    ensures TopK(Masked(scores, allowed), k)[t] == NegInf
  {
    assert Masked(scores, allowed)[t] == NegInf;
  }

  // ---- the sampler ----

  datatype Backend = Mask | Gather

  /**
   * `nucleus` and `draw` stand for the top-p filter and the seeded multinomial draw, which
   * also depends on how many draws came before it: one for every generated token.
   */
  datatype Strategy =
    | Greedy
    | Multinomial(temperature: real, topK: nat, nucleus: seq<Score> -> seq<Score>, draw: (seq<Score>, nat) -> nat)

  datatype SamplerPlan = SamplerPlan(penalty: real, minNew: nat, backend: Backend, strategy: Strategy)

  /** Repetition penalty and minimum length, over the whole vocabulary. */
  function Prepared(plan: SamplerPlan, eos: set<Token>, logits: seq<real>, history: seq<Token>,
      generated: seq<Token>): (s: seq<Score>)
    requires plan.penalty > 0.0
    ensures |s| == |logits|
  {
    seq(|logits|, i requires 0 <= i < |logits| =>
      if |generated| < plan.minNew && i in eos then NegInf
      else Fin(if i in history && plan.penalty != 1.0 then Penalise(logits[i], plan.penalty) else logits[i]))
  }

  function Scaled(s: seq<Score>, temperature: real): seq<Score>
    requires temperature > 0.0
  {
    seq(|s|, i requires 0 <= i < |s| => if s[i].Fin? then Fin(s[i].v / temperature) else NegInf)
  }

  /** The index chosen among the scores, or None when nothing finite is left. */
  function Pick(strategy: Strategy, scores: seq<Score>, step: nat): Option<nat>
    requires strategy.Multinomial? ==> strategy.temperature > 0.0
  {
    if !HasFinite(scores) then None
    else match strategy
      case Greedy => Some(Argmax(scores))
      case Multinomial(temperature, topK, nucleus, draw) =>
        var kept := nucleus(TopK(Scaled(scores, temperature), topK));
        if HasFinite(kept) then Some(draw(kept, step)) else None
  }

  predicate ValidPlan(plan: SamplerPlan) {
    plan.penalty > 0.0 && (plan.strategy.Multinomial? ==> plan.strategy.temperature > 0.0)
  }

  /** The top-p filter only masks and keeps its best score; a draw has positive probability. */
  ghost predicate Honest(strategy: Strategy) {
    strategy.Multinomial? ==>
      && (forall s: seq<Score> {:trigger strategy.nucleus(s)} :: HasFinite(s) ==>
            && |strategy.nucleus(s)| == |s| && HasFinite(strategy.nucleus(s))
            && forall i :: 0 <= i < |s| ==> strategy.nucleus(s)[i] == s[i] || strategy.nucleus(s)[i] == NegInf)
      && (forall s: seq<Score>, step: nat {:trigger strategy.draw(s, step)} :: HasFinite(s) ==>
            strategy.draw(s, step) < |s| && s[strategy.draw(s, step)].Fin?)
  }

  lemma TopKKeepsTheBest(s: seq<Score>, k: nat)
    requires HasFinite(s)
    ensures HasFinite(TopK(s, k))
    ensures forall i :: 0 <= i < |s| ==> TopK(s, k)[i] == s[i] || TopK(s, k)[i] == NegInf
  {
    if k > 0 {
      var m := Argmax(s);
      var f :| 0 <= f < |s| && s[f].Fin?;
      NoneAbove(s, s[m]);
      ReachesCutoff(s, if k < |s| then k else |s|, s[m]);
      assert TopK(s, k)[m].Fin?;
    }
  }

  /** Whatever the strategy, what is picked has a finite score. */
  lemma PickIsFinite(strategy: Strategy, scores: seq<Score>, step: nat)
    requires strategy.Multinomial? ==> strategy.temperature > 0.0
    requires Honest(strategy) && HasFinite(scores)
    ensures Pick(strategy, scores, step).Some? && Pick(strategy, scores, step).value < |scores|
    ensures scores[Pick(strategy, scores, step).value].Fin?
  {
    var f :| 0 <= f < |scores| && scores[f].Fin?;
    if strategy.Multinomial? {
      var scaled := Scaled(scores, strategy.temperature);
      assert scaled[f].Fin?;
      TopKKeepsTheBest(scaled, strategy.topK);
      var top := TopK(scaled, strategy.topK);
      var kept := strategy.nucleus(top);
      assert |kept| == |top| == |scores|;
      var index := strategy.draw(kept, step);
      assert kept[index].Fin? && kept[index] == top[index];
    }
  }

  /** The token a backend picks among the allowed ones, if any of them has a finite score. */
  function PickAllowed(plan: SamplerPlan, scores: seq<Score>, allowed: seq<Token>, step: nat): Option<Token>
    requires ValidPlan(plan) && InRange(allowed, |scores|)
  {
    if plan.backend.Gather? then
      match Pick(plan.strategy, Gathered(scores, allowed), step)
      case None => None
      case Some(index) => if index < |allowed| then Some(allowed[index]) else None
    else Pick(plan.strategy, Masked(scores, allowed), step)
  }

  lemma PickAllowedIsAllowed(plan: SamplerPlan, scores: seq<Score>, allowed: seq<Token>, t: Token, step: nat)
    requires ValidPlan(plan) && Honest(plan.strategy) && InRange(allowed, |scores|)
    requires t in allowed && scores[t].Fin?
    ensures PickAllowed(plan, scores, allowed, step).Some?
    ensures var picked := PickAllowed(plan, scores, allowed, step).value;
      picked in allowed && scores[picked].Fin?
  {
    if plan.backend.Gather? {
      var g := Gathered(scores, allowed);
      var i :| 0 <= i < |allowed| && allowed[i] == t;
      assert g[i].Fin?;
      PickIsFinite(plan.strategy, g, step);
    } else {
      var m := Masked(scores, allowed);
      assert m[t].Fin?;
      PickIsFinite(plan.strategy, m, step);
    }
  }

  /** The selected token, or None where selection raises. */
  function Select(plan: SamplerPlan, trie: Option<Node>, eos: set<Token>, logits: seq<real>, history: seq<Token>,
      generated: seq<Token>): Option<Token>
    requires ValidPlan(plan)
  {
    var scores := Prepared(plan, eos, logits, history, generated);
    if trie.None? then Pick(plan.strategy, scores, |generated|)
    else
      match Admissible(trie.value, eos, generated)
      case None => None
      case Some(allowed) =>
        if allowed == [] || !InRange(allowed, |logits|) then None else PickAllowed(plan, scores, allowed, |generated|)
  }

  // ---- what selection computes ----

  /**
   * What becomes of a logit: minus infinity exactly for a stop token before the minimum length; an unseen token keeps
   * its logit, a seen one is divided by the penalty, or multiplied if it is negative, so it never gains.
   */
  lemma PreparedIs(plan: SamplerPlan, eos: set<Token>, logits: seq<real>, history: seq<Token>, generated: seq<Token>,
      t: Token)
    requires plan.penalty > 0.0 && t < |logits|
    ensures var s := Prepared(plan, eos, logits, history, generated)[t];
      && (s.NegInf? <==> t in eos && |generated| < plan.minNew)
      && (s.Fin? && t !in history ==> s.v == logits[t])
      && (s.Fin? && t in history && logits[t] >= 0.0 ==> s.v * plan.penalty == logits[t])
      && (s.Fin? && t in history && logits[t] < 0.0 ==> s.v == logits[t] * plan.penalty)
      && (s.Fin? && t in history && plan.penalty > 1.0 ==> s.v <= logits[t] && (logits[t] != 0.0 ==> s.v < logits[t]))
  {
    Penalised(logits[t], plan.penalty);
  }

  /** The worth of every token, from its logit, the history and the penalty alone. */
  ghost predicate Worths(penalty: real, logits: seq<real>, history: seq<Token>, worth: seq<real>) {
    |worth| == |logits| && forall t :: 0 <= t < |logits| ==>
      if t !in history then worth[t] == logits[t]
      else if logits[t] < 0.0 then worth[t] == logits[t] * penalty
      else worth[t] * penalty == logits[t]
  }

  /** Every token has a worth, and only one. */
  lemma WorthsExist(penalty: real, logits: seq<real>, history: seq<Token>) returns (worth: seq<real>)
    requires penalty > 0.0
    ensures Worths(penalty, logits, history, worth)
    ensures forall other :: Worths(penalty, logits, history, other) ==> other == worth
  {
    worth := seq(|logits|, i requires 0 <= i < |logits| =>
      if i in history then Penalise(logits[i], penalty) else logits[i]);
    forall t | 0 <= t < |logits|
      ensures if t !in history then worth[t] == logits[t]
        else if logits[t] < 0.0 then worth[t] == logits[t] * penalty
        else worth[t] * penalty == logits[t]
    {
      Penalised(logits[t], penalty);
    }
    forall other | Worths(penalty, logits, history, other) ensures other == worth {
      WorthsAgree(penalty, logits, history, worth, other);
    }
  }

  lemma WorthsAgree(penalty: real, logits: seq<real>, history: seq<Token>, worth: seq<real>, other: seq<real>)
    requires penalty > 0.0 && Worths(penalty, logits, history, worth) && Worths(penalty, logits, history, other)
    ensures other == worth
  {
    forall t | 0 <= t < |logits| ensures other[t] == worth[t] {
      if t in history && logits[t] >= 0.0 { OneQuotient(other[t], worth[t], penalty); }
    }
  }

  /** The tokens that may be selected: those the trie allows, but no stop token before the minimum length. */
  ghost predicate Open(plan: SamplerPlan, allowed: Option<seq<Token>>, eos: set<Token>, generated: seq<Token>, t: Token) {
    (allowed.Some? ==> t in allowed.value) && !(t in eos && |generated| < plan.minNew)
  }

  /** `t` is open, no open token is worth more, and of those worth as much it is the first. */
  ghost predicate Best(plan: SamplerPlan, allowed: Option<seq<Token>>, eos: set<Token>, generated: seq<Token>,
      worth: seq<real>, t: Token) {
    && t < |worth| && Open(plan, allowed, eos, generated, t)
    && forall j :: 0 <= j < |worth| && Open(plan, allowed, eos, generated, j) ==>
         worth[j] <= worth[t] && (j < t ==> worth[j] < worth[t])
  }

  /** The scores that are picked from, over the whole vocabulary. */
  function Confined(scores: seq<Score>, allowed: Option<seq<Token>>): seq<Score> {
    if allowed.None? then scores else Masked(scores, allowed.value)
  }

  lemma ConfinedIs(plan: SamplerPlan, allowed: Option<seq<Token>>, eos: set<Token>, logits: seq<real>,
      history: seq<Token>, generated: seq<Token>, worth: seq<real>)
    requires plan.penalty > 0.0 && Worths(plan.penalty, logits, history, worth)
    ensures Scores(plan, allowed, eos, generated, worth,
      Confined(Prepared(plan, eos, logits, history, generated), allowed))
  {
    var s := Confined(Prepared(plan, eos, logits, history, generated), allowed);
    forall t | 0 <= t < |s|
      ensures s[t] == if Open(plan, allowed, eos, generated, t) then Fin(worth[t]) else NegInf
    {
      PreparedIs(plan, eos, logits, history, generated, t);
      if s[t].Fin? && t in history && logits[t] >= 0.0 { OneQuotient(worth[t], s[t].v, plan.penalty); }
    }
  }

  /** The lowest index of a largest score is the best finite one. */
  lemma ArgmaxIs(s: seq<Score>, t: nat)
    requires HasFinite(s)
    ensures Argmax(s) == t <==>
      && t < |s| && s[t].Fin?
      && forall j :: 0 <= j < |s| && s[j].Fin? ==> s[j].v <= s[t].v && (j < t ==> s[j].v < s[t].v)
  {
    var m := Argmax(s);
    var f :| 0 <= f < |s| && s[f].Fin?;
    assert !Less(s[m], s[f]);
  }

  /** What the trie allows in a selection; None without a trie. */
  ghost predicate Allows(trie: Option<Node>, eos: set<Token>, generated: seq<Token>, vocabulary: nat,
      allowed: Option<seq<Token>>) {
    if trie.None? then allowed.None?
    else allowed.Some? && Admissible(trie.value, eos, generated) == allowed && InRange(allowed.value, vocabulary)
  }

  /** Greedy selection takes the best open token, and raises exactly when none is open. */
  lemma GreedySelectIs(plan: SamplerPlan, trie: Option<Node>, allowed: Option<seq<Token>>, eos: set<Token>,
      logits: seq<real>, history: seq<Token>, generated: seq<Token>, worth: seq<real>)
    requires ValidPlan(plan) && plan.strategy.Greedy? && Worths(plan.penalty, logits, history, worth)
    requires Allows(trie, eos, generated, |logits|, allowed)
    ensures var r := Select(plan, trie, eos, logits, history, generated);
      && (r.None? <==> forall t :: 0 <= t < |logits| ==> !Open(plan, allowed, eos, generated, t))
      && forall t: Token :: r == Some(t) <==> Best(plan, allowed, eos, generated, worth, t)
  {
    var s := Confined(Prepared(plan, eos, logits, history, generated), allowed);
    ConfinedIs(plan, allowed, eos, logits, history, generated, worth);
    SelectsFrom(plan, trie, allowed, eos, logits, history, generated);
    if HasFinite(s) {
      forall t: Token ensures Argmax(s) == t <==> Best(plan, allowed, eos, generated, worth, t) { ArgmaxIs(s, t); }
      var f :| 0 <= f < |s| && s[f].Fin?;
      assert Open(plan, allowed, eos, generated, f);
    } else {
      forall t | 0 <= t < |logits| ensures !Open(plan, allowed, eos, generated, t) { assert s[t].NegInf?; }
    }
  }

  /** Under either backend a greedy selection is the best of the confined scores. */
  lemma SelectsFrom(plan: SamplerPlan, trie: Option<Node>, allowed: Option<seq<Token>>, eos: set<Token>,
      logits: seq<real>, history: seq<Token>, generated: seq<Token>)
    requires ValidPlan(plan) && plan.strategy.Greedy? && Allows(trie, eos, generated, |logits|, allowed)
    ensures var s := Confined(Prepared(plan, eos, logits, history, generated), allowed);
      Select(plan, trie, eos, logits, history, generated) == if HasFinite(s) then Some(Argmax(s)) else None
  {
    var masking := plan.(backend := Mask);
    PreparedAlike(plan, eos, logits, history, generated);
    MaskingPicks(masking, trie, allowed, eos, logits, history, generated);
    if plan.backend.Mask? {
      assert plan == masking;
    } else {
      assert plan == plan.(backend := Gather);
      GreedySelectsAlike(plan, trie, eos, logits, history, generated);
    }
  }

  /** The backend has no say in what is prepared. */
  lemma PreparedAlike(plan: SamplerPlan, eos: set<Token>, logits: seq<real>, history: seq<Token>,
      generated: seq<Token>)
    requires plan.penalty > 0.0
    ensures Prepared(plan.(backend := Mask), eos, logits, history, generated) ==
      Prepared(plan, eos, logits, history, generated)
  {
  }

  /** How many open tokens are worth more than `t`. */
  ghost function WorthMore(plan: SamplerPlan, allowed: Option<seq<Token>>, eos: set<Token>, generated: seq<Token>,
      worth: seq<real>, t: Token): nat
    requires t < |worth|
  {
    |set j | 0 <= j < |worth| && Open(plan, allowed, eos, generated, j) && worth[t] < worth[j]|
  }

  /** What is drawn from: the worth over the temperature, for open tokens with fewer than k open ones worth more. */
  ghost predicate DrawnFrom(plan: SamplerPlan, allowed: Option<seq<Token>>, eos: set<Token>, generated: seq<Token>,
      worth: seq<real>, input: seq<Score>)
    requires plan.strategy.Multinomial? && plan.strategy.temperature > 0.0
  {
    var k := plan.strategy.topK;
    |input| == |worth| && forall t :: 0 <= t < |worth| ==>
      input[t] ==
        if Open(plan, allowed, eos, generated, t) && (k == 0 || WorthMore(plan, allowed, eos, generated, worth, t) < k)
        then Fin(worth[t] / plan.strategy.temperature) else NegInf
  }

  /** A drawing selection hands these scores to the top-p filter and then to the draw. */
  lemma DrawIs(plan: SamplerPlan, trie: Option<Node>, allowed: Option<seq<Token>>, eos: set<Token>,
      logits: seq<real>, history: seq<Token>, generated: seq<Token>, worth: seq<real>, input: seq<Score>)
    requires ValidPlan(plan) && plan.strategy.Multinomial? && Worths(plan.penalty, logits, history, worth)
    requires Allows(trie, eos, generated, |logits|, allowed) && (trie.None? || plan.backend.Mask?)
    requires DrawnFrom(plan, allowed, eos, generated, worth, input)
    ensures var kept := plan.strategy.nucleus(input);
      Select(plan, trie, eos, logits, history, generated) ==
        if (forall t :: 0 <= t < |logits| ==> !Open(plan, allowed, eos, generated, t)) || !HasFinite(kept) then None
        else Some(plan.strategy.draw(kept, |generated|))
  {
    var s := Confined(Prepared(plan, eos, logits, history, generated), allowed);
    ConfinedIs(plan, allowed, eos, logits, history, generated, worth);
    OpenIsFinite(plan, allowed, eos, generated, worth, s);
    MaskingPicks(plan, trie, allowed, eos, logits, history, generated);
    if HasFinite(s) { InputIs(plan, allowed, eos, generated, worth, s, input); }
    PickDraws(plan.strategy, s, |generated|, input);
  }

  /** Masking or unconfined, a selection picks from the confined scores. */
  lemma MaskingPicks(plan: SamplerPlan, trie: Option<Node>, allowed: Option<seq<Token>>, eos: set<Token>,
      logits: seq<real>, history: seq<Token>, generated: seq<Token>)
    requires ValidPlan(plan) && Allows(trie, eos, generated, |logits|, allowed) && (trie.None? || plan.backend.Mask?)
    ensures Select(plan, trie, eos, logits, history, generated) ==
      Pick(plan.strategy, Confined(Prepared(plan, eos, logits, history, generated), allowed), |generated|)
  {
    if allowed == Some([]) { assert !HasFinite(Confined(Prepared(plan, eos, logits, history, generated), allowed)); }
  }

  lemma PickDraws(strategy: Strategy, s: seq<Score>, step: nat, input: seq<Score>)
    requires strategy.Multinomial? && strategy.temperature > 0.0
    requires HasFinite(s) ==> input == TopK(Scaled(s, strategy.temperature), strategy.topK)
    ensures Pick(strategy, s, step) ==
      if !HasFinite(s) || !HasFinite(strategy.nucleus(input)) then None
      else Some(strategy.draw(strategy.nucleus(input), step))
  {
  }

  /** Gathering, it hands on the same scores of the allowed tokens alone. */
  lemma GatheringDrawIs(plan: SamplerPlan, root: Node, allowed: seq<Token>, eos: set<Token>, logits: seq<real>,
      history: seq<Token>, generated: seq<Token>, worth: seq<real>, input: seq<Score>)
    requires ValidPlan(plan) && plan.strategy.Multinomial? && Worths(plan.penalty, logits, history, worth)
    requires Allows(Some(root), eos, generated, |logits|, Some(allowed)) && plan.backend.Gather?
    requires DrawnFrom(plan, Some(allowed), eos, generated, worth, input)
    ensures InRange(allowed, |input|)
    ensures var kept := plan.strategy.nucleus(Gathered(input, allowed));
      var index := plan.strategy.draw(kept, |generated|);
      Select(plan, Some(root), eos, logits, history, generated) ==
        if (forall t :: 0 <= t < |logits| ==> !Open(plan, Some(allowed), eos, generated, t)) || !HasFinite(kept) then None
        else if index < |allowed| then Some(allowed[index]) else None
  {
    var scores := Prepared(plan, eos, logits, history, generated);
    GatheredFrom(plan, allowed, eos, generated, scores, worth, input) by {
      ConfinedIs(plan, Some(allowed), eos, logits, history, generated, worth);
    }
    GatheringPicks(plan, root, allowed, eos, logits, history, generated);
    PickDraws(plan.strategy, Gathered(scores, allowed), |generated|, Gathered(input, allowed));
  }

  /** Gathering, a selection picks an index into the allowed tokens. */
  lemma GatheringPicks(plan: SamplerPlan, root: Node, allowed: seq<Token>, eos: set<Token>, logits: seq<real>,
      history: seq<Token>, generated: seq<Token>)
    requires ValidPlan(plan) && Allows(Some(root), eos, generated, |logits|, Some(allowed)) && plan.backend.Gather?
    ensures Select(plan, Some(root), eos, logits, history, generated) ==
      var index := Pick(plan.strategy, Gathered(Prepared(plan, eos, logits, history, generated), allowed), |generated|);
      if index.Some? && index.value < |allowed| then Some(allowed[index.value]) else None
  {
    if allowed == [] { assert !HasFinite(Gathered(Prepared(plan, eos, logits, history, generated), allowed)); }
  }

  /** The gathered scores after temperature and top-k are those of the allowed tokens. */
  lemma GatheredFrom(plan: SamplerPlan, allowed: seq<Token>, eos: set<Token>, generated: seq<Token>,
      scores: seq<Score>, worth: seq<real>, input: seq<Score>)
    requires ValidPlan(plan) && plan.strategy.Multinomial? && InRange(allowed, |scores|) && Ascending(allowed)
    requires Scores(plan, Some(allowed), eos, generated, worth, Masked(scores, allowed))
    requires DrawnFrom(plan, Some(allowed), eos, generated, worth, input)
    ensures HasFinite(Gathered(scores, allowed)) <==>
      exists t :: 0 <= t < |worth| && Open(plan, Some(allowed), eos, generated, t)
    ensures HasFinite(Gathered(scores, allowed)) ==>
      TopK(Scaled(Gathered(scores, allowed), plan.strategy.temperature), plan.strategy.topK) == Gathered(input, allowed)
  {
    var s := Masked(scores, allowed);
    OpenIsFinite(plan, Some(allowed), eos, generated, worth, s);
    BackendsAgreeGreedily(scores, allowed);
    if HasFinite(s) {
      InputIs(plan, Some(allowed), eos, generated, worth, s, input);
      DrawsFromTheSame(scores, allowed, plan.strategy.temperature, plan.strategy.topK);
    }
  }

  /** Open tokens score their worth, all others nothing. */
  ghost predicate Scores(plan: SamplerPlan, allowed: Option<seq<Token>>, eos: set<Token>, generated: seq<Token>,
      worth: seq<real>, s: seq<Score>)
  {
    |s| == |worth| && forall t :: 0 <= t < |s| ==>
      s[t] == if Open(plan, allowed, eos, generated, t) then Fin(worth[t]) else NegInf
  }

  lemma OpenIsFinite(plan: SamplerPlan, allowed: Option<seq<Token>>, eos: set<Token>, generated: seq<Token>,
      worth: seq<real>, s: seq<Score>)
    requires Scores(plan, allowed, eos, generated, worth, s)
    ensures HasFinite(s) <==> exists t :: 0 <= t < |worth| && Open(plan, allowed, eos, generated, t)
  {
    if HasFinite(s) {
      var t :| 0 <= t < |s| && s[t].Fin?;
      assert Open(plan, allowed, eos, generated, t);
    }
    if t :| 0 <= t < |worth| && Open(plan, allowed, eos, generated, t) { assert s[t].Fin?; }
  }

  lemma InputIs(plan: SamplerPlan, allowed: Option<seq<Token>>, eos: set<Token>, generated: seq<Token>,
      worth: seq<real>, s: seq<Score>, input: seq<Score>)
    requires ValidPlan(plan) && plan.strategy.Multinomial? && Scores(plan, allowed, eos, generated, worth, s) && s != []
    requires DrawnFrom(plan, allowed, eos, generated, worth, input)
    ensures input == TopK(Scaled(s, plan.strategy.temperature), plan.strategy.topK)
  {
    var scaled := Scaled(s, plan.strategy.temperature);
    forall t | 0 <= t < |s| ensures input[t] == TopK(scaled, plan.strategy.topK)[t] {
      TopKIs(scaled, plan.strategy.topK, t);
      if Open(plan, allowed, eos, generated, t) { AboveIs(plan, allowed, eos, generated, worth, s, t); }
    }
  }

  lemma AboveIs(plan: SamplerPlan, allowed: Option<seq<Token>>, eos: set<Token>, generated: seq<Token>,
      worth: seq<real>, s: seq<Score>, t: nat)
    requires ValidPlan(plan) && plan.strategy.Multinomial? && Scores(plan, allowed, eos, generated, worth, s)
    requires t < |s| && Open(plan, allowed, eos, generated, t)
    ensures var scaled := Scaled(s, plan.strategy.temperature);
      |set j | 0 <= j < |scaled| && Less(scaled[t], scaled[j])| == WorthMore(plan, allowed, eos, generated, worth, t)
  {
    var scaled := Scaled(s, plan.strategy.temperature);
    forall j | 0 <= j < |s|
      ensures Less(scaled[t], scaled[j]) <==> Open(plan, allowed, eos, generated, j) && worth[t] < worth[j]
    {
      QuotientOrder(worth[t], worth[j], plan.strategy.temperature);
    }
    assert (set j | 0 <= j < |scaled| && Less(scaled[t], scaled[j])) ==
      (set j | 0 <= j < |worth| && Open(plan, allowed, eos, generated, j) && worth[t] < worth[j]);
  }

  /** A greedy sampler selects the same token, or raises alike, under either backend. */
  lemma GreedySelectsAlike(plan: SamplerPlan, trie: Option<Node>, eos: set<Token>, logits: seq<real>,
      history: seq<Token>, generated: seq<Token>)
    requires ValidPlan(plan) && plan.strategy.Greedy?
    ensures Select(plan.(backend := Mask), trie, eos, logits, history, generated)
         == Select(plan.(backend := Gather), trie, eos, logits, history, generated)
  {
    if trie.Some? && Admissible(trie.value, eos, generated).Some? {
      var allowed := Admissible(trie.value, eos, generated).value;
      if InRange(allowed, |logits|) {
        BackendsAgreeGreedily(Prepared(plan, eos, logits, history, generated), allowed);
      }
    }
  }

  /**
   * A drawing sampler hands the top-p filter the same scores under either backend: those of the
   * allowed tokens agree after temperature and top-k, and under the mask nothing else is left.
   */
  lemma DrawsFromTheSame(scores: seq<Score>, allowed: seq<Token>, temperature: real, k: nat)
    requires InRange(allowed, |scores|) && Ascending(allowed) && allowed != [] && temperature > 0.0
    ensures assert allowed[0] < |scores|;
      var m := TopK(Scaled(Masked(scores, allowed), temperature), k);
      var g := TopK(Scaled(Gathered(scores, allowed), temperature), k);
      g == Gathered(m, allowed) && m == Masked(m, allowed)
  {
    assert allowed[0] < |scores|;
    var scaled := Scaled(scores, temperature);
    assert Scaled(Masked(scores, allowed), temperature) == Masked(scaled, allowed);
    assert Scaled(Gathered(scores, allowed), temperature) == Gathered(scaled, allowed);
    var m, g := TopK(Masked(scaled, allowed), k), TopK(Gathered(scaled, allowed), k);
    forall i | 0 <= i < |allowed| ensures g[i] == Gathered(m, allowed)[i] {
      BackendsAgreeOnTopK(scaled, allowed, k, i);
    }
    forall t | 0 <= t < |m| && t !in allowed ensures m[t] == NegInf {
      MaskedOutStaysOut(scaled, allowed, k, t);
    }
  }

  /** As long as one admissible token is unmasked, selection succeeds with an admissible token. */
  lemma SelectsAdmissible(plan: SamplerPlan, root: Node, eos: set<Token>, logits: seq<real>, history: seq<Token>,
      prefix: seq<Token>, candidate: Token)
    requires ValidPlan(plan) && Honest(plan.strategy)
    requires Admissible(root, eos, prefix).Some? && InRange(Admissible(root, eos, prefix).value, |logits|)
    requires candidate in Admissible(root, eos, prefix).value && (candidate in eos ==> plan.minNew <= |prefix|)
    ensures Select(plan, Some(root), eos, logits, history, prefix).Some?
    ensures Select(plan, Some(root), eos, logits, history, prefix).value in Admissible(root, eos, prefix).value
  {
    var scores := Prepared(plan, eos, logits, history, prefix);
    assert scores[candidate].Fin?;
    PickAllowedIsAllowed(plan, scores, Admissible(root, eos, prefix).value, candidate, |prefix|);
  }

  // ---- constrained decoding finishes ----

  /** The sampler as an autoregressive decoder calls it: on the logits of a context. */
  function SelectOn(plan: SamplerPlan, root: Node, eos: set<Token>, logits: Context -> seq<real>)
      : (Context, seq<Token>, seq<Token>) -> Option<Token>
    requires ValidPlan(plan)
  {
    (c, history, generated) => Select(plan, Some(root), eos, logits(c), history, generated)
  }

  /** The picks of such a decoder; block verification plays no part in them. */
  function Constrained(plan: SamplerPlan, root: Node, eos: set<Token>, logits: Context -> seq<real>, inputs: nat)
      : Chooser
    requires ValidPlan(plan)
  {
    Picks(NoVerification, SelectOn(plan, root, eos, logits), Autoregressive, inputs)
  }

  function NoVerification(c: Context): Option<Token> { None }

  ghost predicate Covers(vocabulary: nat, paths: seq<seq<Token>>, eos: set<Token>) {
    (forall p, t :: p in paths && t in p ==> t < vocabulary) && (forall e :: e in eos ==> e < vocabulary)
  }

  lemma StartInRange(paths: seq<seq<Token>>, eos: set<Token>, prefix: seq<Token>, t: Token, vocabulary: nat)
    requires Covers(vocabulary, paths, eos) && Starts(paths, prefix + [t])
    ensures t < vocabulary
  {
    var p :| p in paths && prefix + [t] <= p;
    assert p[|prefix|] == t && t in p;
  }

  lemma AdmissibleInRange(root: Node, paths: seq<seq<Token>>, eos: set<Token>, prefix: seq<Token>, vocabulary: nat)
    requires Represents(root, paths) && Starts(paths, prefix) && Covers(vocabulary, paths, eos)
    ensures Admissible(root, eos, prefix).Some? && InRange(Admissible(root, eos, prefix).value, vocabulary)
  {
    AdmissibleMeans(root, paths, eos, prefix, 0);
    var allowed := Admissible(root, eos, prefix).value;
    forall i | 0 <= i < |allowed| ensures allowed[i] < vocabulary {
      AdmissibleMeans(root, paths, eos, prefix, allowed[i]);
      if allowed[i] !in eos {
        StartInRange(paths, eos, prefix, allowed[i], vocabulary);
      }
    }
  }

  /** EOS continues no choice. */
  lemma EosStartsNothing(paths: seq<seq<Token>>, eos: set<Token>, limit: nat, minimum: nat, prefix: seq<Token>,
      t: Token)
    requires Acceptable(paths, eos, limit, minimum) && Starts(paths, prefix + [t])
    ensures t !in eos
  {
    var p :| p in paths && prefix + [t] <= p;
    assert p[|prefix|] == t;
  }

  /** After a prefix of a choice the sampler picks EOS if the choice is whole, or extends it to a longer prefix. */
  lemma PicksASuccessor(plan: SamplerPlan, root: Node, paths: seq<seq<Token>>, eos: set<Token>,
      logits: seq<real>, limit: nat, history: seq<Token>, prefix: seq<Token>) returns (t: Token)
    requires ValidPlan(plan) && Honest(plan.strategy)
    requires Acceptable(paths, eos, limit, plan.minNew) && Represents(root, paths) && Starts(paths, prefix)
    requires Covers(|logits|, paths, eos)
    ensures Select(plan, Some(root), eos, logits, history, prefix) == Some(t)
    ensures if t in eos then prefix in paths else Starts(paths, prefix + [t])
  {
    var candidate := AlwaysASuccessor(root, paths, eos, limit, plan.minNew, prefix);
    AdmissibleInRange(root, paths, eos, prefix, |logits|);
    SelectsAdmissible(plan, root, eos, logits, history, prefix, candidate);
    t := Select(plan, Some(root), eos, logits, history, prefix).value;
    AdmissibleMeans(root, paths, eos, prefix, t);
    if Starts(paths, prefix + [t]) {
      EosStartsNothing(paths, eos, limit, plan.minNew, prefix, t);
    }
  }

  /** The chooser never raises on a prefix of a choice and never leaves the choices. */
  ghost predicate Guided(next: Chooser, prompt: seq<Token>, paths: seq<seq<Token>>, eos: set<Token>) {
    forall g {:trigger next(prompt + g)} :: Starts(paths, g) ==>
      && next(prompt + g).Some?
      && var t := next(prompt + g).value;
         if t in eos then g in paths else Starts(paths, g + [t])
  }

  /** Until it emits EOS, a guided run stays on a prefix of some choice. */
  lemma {:induction false} StaysOnAChoice(next: Chooser, prompt: seq<Token>, paths: seq<seq<Token>>, eos: set<Token>,
      r: seq<Token>, k: nat)
    requires Guided(next, prompt, paths, eos) && Follows(next, prompt, r) && Starts(paths, [])
    requires k <= |r| && forall i :: 0 <= i < k ==> r[i] !in eos
    ensures Starts(paths, r[..k])
    decreases k
  {
    if k > 0 {
      StaysOnAChoice(next, prompt, paths, eos, r, k - 1);
      assert next(prompt + r[..k - 1]) == Some(r[k - 1]);
      assert r[..k] == r[..k - 1] + [r[k - 1]];
    }
  }

  /** A guided run completes one of the choices and ends with EOS. */
  lemma GuidedFinishes(next: Chooser, prompt: seq<Token>, paths: seq<seq<Token>>, eos: set<Token>, limit: nat,
      minimum: nat)
    requires Guided(next, prompt, paths, eos) && Acceptable(paths, eos, limit, minimum)
    ensures ValidChoice(paths, eos, Serial(next, prompt, limit, eos))
  {
    var r := Serial(next, prompt, limit, eos);
    SerialIsARun(next, prompt, limit, eos);
    assert Starts(paths, []) by { assert [] <= paths[0] && paths[0] in paths; }
    assert r[..|r|] == r && Starts(paths, r) ==> |r| < limit && next(prompt + r).Some?;
    if r != [] && r[|r| - 1] in eos {
      var k := |r| - 1;
      StaysOnAChoice(next, prompt, paths, eos, r, k);
      assert next(prompt + r[..k]) == Some(r[k]);
    } else {
      StaysOnAChoice(next, prompt, paths, eos, r, |r|);
      assert false;
    }
  }

  /** The constrained sampler guides every decoder whose logits cover the choices. */
  lemma SamplerGuides(plan: SamplerPlan, root: Node, paths: seq<seq<Token>>, eos: set<Token>,
      logits: seq<Token> -> seq<real>, prompt: seq<Token>, limit: nat)
    requires ValidPlan(plan) && Honest(plan.strategy)
    requires Acceptable(paths, eos, limit, plan.minNew) && Represents(root, paths)
    requires forall h :: Covers(|logits(h)|, paths, eos)
    ensures Guided(Constrained(plan, root, eos, logits, |prompt|), prompt, paths, eos)
  {
    var next := Constrained(plan, root, eos, logits, |prompt|);
    forall g | Starts(paths, g)
      ensures next(prompt + g).Some?
      ensures var t := next(prompt + g).value; if t in eos then g in paths else Starts(paths, g + [t])
    {
      var h := prompt + g;
      assert h[|prompt|..] == g;
      var t := PicksASuccessor(plan, root, paths, eos, logits(h), limit, h, g);
    }
  }

  /** A constrained run of the serial decoder ends within its budget as a whole choice and EOS. */
  lemma ConstrainedDecodingFinishes(plan: SamplerPlan, root: Node, paths: seq<seq<Token>>, eos: set<Token>,
      logits: seq<Token> -> seq<real>, prompt: seq<Token>, limit: nat)
    requires ValidPlan(plan) && Honest(plan.strategy)
    requires Acceptable(paths, eos, limit, plan.minNew) && Represents(root, paths)
    requires forall h :: Covers(|logits(h)|, paths, eos)
    ensures ValidChoice(paths, eos, Serial(Constrained(plan, root, eos, logits, |prompt|), prompt, limit, eos))
  {
    SamplerGuides(plan, root, paths, eos, logits, prompt, limit);
    GuidedFinishes(Constrained(plan, root, eos, logits, |prompt|), prompt, paths, eos, limit, plan.minNew);
  }

  /** The tokens that may follow a prefix of a choice: those that extend it towards a choice, and EOS after a whole one. */
  ghost predicate MayFollow(plan: SamplerPlan, paths: seq<seq<Token>>, eos: set<Token>, prefix: seq<Token>, t: Token) {
    && ((t in eos && prefix in paths) || Starts(paths, prefix + [t]))
    && (t in eos ==> plan.minNew <= |prefix|)
  }

  /** `t` may follow, nothing that may follow is worth more, and of those worth as much it is the first. */
  ghost predicate BestFollower(plan: SamplerPlan, paths: seq<seq<Token>>, eos: set<Token>, prefix: seq<Token>,
      worth: seq<real>, t: Token) {
    && t < |worth| && MayFollow(plan, paths, eos, prefix, t)
    && forall j :: 0 <= j < |worth| && MayFollow(plan, paths, eos, prefix, j) ==>
         worth[j] <= worth[t] && (j < t ==> worth[j] < worth[t])
  }

  /** What a greedy constrained selection takes after a prefix of a choice is the best follower. */
  lemma SelectsBestFollower(plan: SamplerPlan, root: Node, paths: seq<seq<Token>>, eos: set<Token>,
      logits: seq<real>, history: seq<Token>, prefix: seq<Token>, worth: seq<real>, t: Token)
    requires ValidPlan(plan) && plan.strategy.Greedy? && Worths(plan.penalty, logits, history, worth)
    requires Represents(root, paths) && Starts(paths, prefix) && Covers(|logits|, paths, eos)
    requires Select(plan, Some(root), eos, logits, history, prefix) == Some(t)
    ensures BestFollower(plan, paths, eos, prefix, worth, t)
  {
    AdmissibleInRange(root, paths, eos, prefix, |logits|);
    var allowed := Admissible(root, eos, prefix);
    GreedySelectIs(plan, Some(root), allowed, eos, logits, history, prefix, worth);
    forall j: Token ensures Open(plan, allowed, eos, prefix, j) <==> MayFollow(plan, paths, eos, prefix, j) {
      AdmissibleMeans(root, paths, eos, prefix, j);
    }
  }

  /** Every token of a result is the sampler's pick after the prompt and the tokens before it. */
  ghost predicate Picked(plan: SamplerPlan, root: Node, eos: set<Token>, logits: Context -> seq<real>,
      prompt: seq<Token>, ids: seq<Token>)
    requires ValidPlan(plan)
  {
    forall k {:trigger ids[k]} :: 0 <= k < |ids| ==>
      var h := prompt + ids[..k];
      Select(plan, Some(root), eos, logits(h), h, ids[..k]) == Some(ids[k])
  }

  lemma PickedAreBest(plan: SamplerPlan, root: Node, paths: seq<seq<Token>>, eos: set<Token>,
      logits: Context -> seq<real>, prompt: seq<Token>, ids: seq<Token>)
    requires ValidPlan(plan) && plan.strategy.Greedy? && Represents(root, paths)
    requires forall h :: Covers(|logits(h)|, paths, eos)
    requires ValidChoice(paths, eos, ids) && Picked(plan, root, eos, logits, prompt, ids)
    ensures AllBest(plan, paths, eos, logits, prompt, ids)
  {
    forall k, worth | 0 <= k < |ids| && Worths(plan.penalty, logits(prompt + ids[..k]), prompt + ids[..k], worth)
      ensures BestFollower(plan, paths, eos, ids[..k], worth, ids[k])
    {
      assert ids[..k] <= ids[..|ids| - 1] && ids[..|ids| - 1] in paths;
      SelectsBestFollower(plan, root, paths, eos, logits(prompt + ids[..k]), prompt + ids[..k], ids[..k], worth, ids[k]);
    }
  }

  /** Every token of a result is the best follower of those before it, with the whole history penalised. */
  ghost predicate AllBest(plan: SamplerPlan, paths: seq<seq<Token>>, eos: set<Token>, logits: Context -> seq<real>,
      prompt: seq<Token>, ids: seq<Token>) {
    forall k, worth :: 0 <= k < |ids| && Worths(plan.penalty, logits(prompt + ids[..k]), prompt + ids[..k], worth) ==>
      BestFollower(plan, paths, eos, ids[..k], worth, ids[k])
  }

  /**
   * A whole constrained request: build the trie, run the decoder, check the ids.
   * A run that completes always ends at an allowed terminal, and every run that
   * is not cancelled completes; a greedy one takes the best follower at every step.
   */
  method DecodeChoice(plan: SamplerPlan, paths: seq<seq<Token>>, eos: set<Token>, logits: Context -> seq<real>,
      prompt: seq<Token>, limit: nat, stopAt: Option<nat>) returns (r: Option<Outcome<seq<Token>>>)
    requires ValidPlan(plan) && Honest(plan.strategy) && prompt != []
    requires forall h :: Covers(|logits(h)|, paths, eos)
    ensures r.None? <==> !Acceptable(paths, eos, limit, plan.minNew)
    ensures r.Some? ==> r.value.Value? || r.value.Stopped?
    ensures r.Some? && stopAt.None? ==> r.value.Value?
    ensures r.Some? && r.value.Value? ==> ValidChoice(paths, eos, r.value.value)
    ensures r.Some? && r.value.Value? && plan.strategy.Greedy? ==>
      AllBest(plan, paths, eos, logits, prompt, r.value.value)
  {
    var root := Build(paths, eos, limit, plan.minNew);
    if root.None? { return None; }
    ConstrainedDecodingFinishes(plan, root.value, paths, eos, logits, prompt, limit);
    var ids := DecodeOn(plan, root.value, eos, logits, prompt, limit, stopAt);
    if ids.Value? && plan.strategy.Greedy? {
      PickedAreBest(plan, root.value, paths, eos, logits, prompt, ids.value);
    }
    r := Some(ids);
  }

  /** The decoder driven by the constrained sampler; it can only fail to select before its serial run has ended. */
  method DecodeOn(plan: SamplerPlan, root: Node, eos: set<Token>, logits: Context -> seq<real>, prompt: seq<Token>,
      limit: nat, stopAt: Option<nat>) returns (r: Outcome<seq<Token>>)
    requires ValidPlan(plan) && prompt != []
    ensures r.Value? || r.Stopped? || r.SelectFailed?
    ensures stopAt.None? ==> !r.Stopped?
    ensures var serial := Serial(Constrained(plan, root, eos, logits, |prompt|), prompt, limit, eos);
      (r.Value? ==> r.value == serial) && (r.SelectFailed? ==> !Ended(serial, limit, eos))
    ensures r.Value? ==> Picked(plan, root, eos, logits, prompt, r.value)
  {
    var checker := new Checker(stopAt);
    var decoder := new Decoder(NoVerification, SelectOn(plan, root, eos, logits),
      Plan(Autoregressive, 4, 2, 6, 4096), prompt, limit, eos, false, checker, null);
    r := decoder.Rounds();
  }
}
