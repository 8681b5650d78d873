/** The module-level `entail` of ponens/models.py: forward chaining to a fixpoint. */
module Entailment {
  import opened Wrappers
  import opened Truth
  import opened Knowledge
  import opened Ancestry
  import opened Evaluation

  /** Every rule reached from the predicates in `keys`: for each predicate, each
      expression linked to it, each rule of that expression's
      `all_antecedent_rules` (models.py:187-190). */
  function Candidates(kb: KnowledgeBase, ghost h: map<ExprId, nat>, keys: set<PredId>): (r: set<RuleId>)
    requires Valid(kb, h)
    ensures forall i :: i in r ==> i < |kb.rules|
  {
    assert forall p, e :: e in Expressions(kb, p) ==> e in kb.operators by {
      forall p {
        ExpressionsInMembers(kb.links, p);
      }
    }
    set p, e, i | p in keys && e in Expressions(kb, p) && i in AllAntecedentRules(kb, h, e) :: i
  }

  /** Row `i` of the rule table, with its references valid. */
  function RuleAt(kb: KnowledgeBase, ghost h: map<ExprId, nat>, i: RuleId): (rule: Rule)
    requires Valid(kb, h) && i < |kb.rules|
    ensures rule in kb.rules && rule.antecedent in kb.operators && rule.consequent in kb.operators
  {
    kb.rules[i]
  }

  /** The keys written by `combined.update(results)` for the rules `rs`. */
  function Fired(kb: KnowledgeBase, ghost h: map<ExprId, nat>, rs: set<RuleId>, tv: Assignment): (r: set<PredId>)
    requires Valid(kb, h) && forall i :: i in rs ==> i < |kb.rules|
    ensures r <= kb.labels.Keys
  {
    var r := set i, k | i in rs && FireRule(kb, h, RuleAt(kb, h, i), tv).Ok?
                       && k in FireRule(kb, h, RuleAt(kb, h, i), tv).value :: k;
    assert r <= kb.labels.Keys by {
      forall k | k in r
        ensures k in kb.labels
      {
        var i :| i in rs && FireRule(kb, h, RuleAt(kb, h, i), tv).Ok? && k in FireRule(kb, h, RuleAt(kb, h, i), tv).value;
        FireRuleConclusion(kb, h, RuleAt(kb, h, i), tv, k);
      }
    }
    r
  }

  /** What a nonempty `Rule.evaluate` result says about its rule. */
  lemma FireRuleConclusion(kb: KnowledgeBase, h: map<ExprId, nat>, rule: Rule, tv: Assignment, k: PredId)
    requires Valid(kb, h) && rule in kb.rules
    requires FireRule(kb, h, rule, tv).Ok? && k in FireRule(kb, h, rule, tv).value
    ensures Evaluate(kb, h, rule.antecedent, tv) == Ok(Known(true))
    ensures kb.operators[rule.consequent] == Id && PredicateOf(kb, rule.consequent) == Some(k)
    ensures FireRule(kb, h, rule, tv).value == map[k := true]
    ensures k in kb.labels
  {
    PredicateLinked(kb, rule.consequent);
  }

  /** `r` keeps every key of `tv` and every True of `tv`, and every False in
      `r` was already a False of `tv`: the only change a pass can make to a
      seed value is False to True, and every added key is True. */
  ghost predicate Grows(r: Assignment, tv: Assignment)
  {
    && tv.Keys <= r.Keys
    && (forall k :: k in tv && tv[k] ==> r[k])
    && (forall k :: k in r && !r[k] ==> k in tv && !tv[k])
  }

  /** `tv` updated with True at every key of `ks`. */
  function WriteTrue(tv: Assignment, ks: set<PredId>): (r: Assignment)
  {
    tv + map k | k in ks :: true
  }

  lemma WriteTrueGrows(tv: Assignment, ks: set<PredId>)
    ensures Grows(WriteTrue(tv, ks), tv)
    ensures WriteTrue(tv, ks).Keys == tv.Keys + ks
    ensures forall k :: k in ks ==> WriteTrue(tv, ks)[k]
  {
  }

  /** `combined.update(new_results)` when `new_results` already has every key of `combined`. */
  lemma MergeAbsorbed(combined: Assignment, more: Assignment)
    requires combined.Keys <= more.Keys
    ensures combined + more == more
  {
  }

  /** Two assignments with the same keys and values are equal. */
  lemma SameAssignment(a: Assignment, b: Assignment)
    requires forall k :: k in a <==> k in b
    requires forall k :: k in a ==> a[k] == b[k]
    ensures a == b
  {
    assert a.Keys == b.Keys;
  }

  lemma GrowsTransitive(a: Assignment, b: Assignment, c: Assignment)
    requires Grows(b, a) && Grows(c, b)
    ensures Grows(c, a)
  {
  }

  /** Some key of the seed names no predicate: `Predicate.objects.get` raises. */
  predicate UnknownKey(kb: KnowledgeBase, tv: Assignment)
  {
    exists p :: p in tv && p !in kb.labels
  }

  /** Some candidate rule's evaluation raises. */
  predicate FailingCandidate(kb: KnowledgeBase, ghost h: map<ExprId, nat>, tv: Assignment)
    requires Valid(kb, h)
  {
    exists i :: i in Candidates(kb, h, tv.Keys) && FireRule(kb, h, RuleAt(kb, h, i), tv).Err?
  }

  /** One pass of `entail` (models.py:184-195): every candidate rule is evaluated
      against the pass's input `tv`, and each result is written over `tv` with
      True. `None` when the pass raises. */
  function Pass(kb: KnowledgeBase, ghost h: map<ExprId, nat>, tv: Assignment): (r: Option<Assignment>)
    requires Valid(kb, h)
    ensures r.None? <==> UnknownKey(kb, tv) || FailingCandidate(kb, h, tv)
    ensures r.Some? ==> Grows(r.value, tv) && r.value.Keys <= tv.Keys + kb.labels.Keys
  {
    if UnknownKey(kb, tv) || FailingCandidate(kb, h, tv) then None
    else
      var fired := Fired(kb, h, Candidates(kb, h, tv.Keys), tv);
      WriteTrueGrows(tv, fired);
      Some(WriteTrue(tv, fired))
  }

  /** Removing elements shrinks a finite set. */
  lemma ProperSubsetSmaller<T>(a: set<T>, b: set<T>, x: T)
    requires a <= b && x in b && x !in a
    ensures |a| < |b|
  {
    var rest := b - {x};
    assert rest == a + (rest - a);
    assert a * (rest - a) == {};
    assert |rest| == |b| - 1;
  }

  /** A pass that adds a key leaves fewer predicates unassigned: the measure
      that bounds the recursion of `entail`. */
  lemma PassShrinksUnassigned(kb: KnowledgeBase, h: map<ExprId, nat>, tv: Assignment)
    requires Valid(kb, h) && Pass(kb, h, tv).Some? && Pass(kb, h, tv).value.Keys != tv.Keys
    ensures |kb.labels.Keys - Pass(kb, h, tv).value.Keys| < |kb.labels.Keys - tv.Keys|
  {
    var combined := Pass(kb, h, tv).value;
    var k :| k in combined.Keys && k !in tv.Keys;
    ProperSubsetSmaller(kb.labels.Keys - combined.Keys, kb.labels.Keys - tv.Keys, k);
  }

  /** `entail` (models.py:180-204): run a pass; if it added a key, recurse on
      the combined assignment and merge the recursion's result over it. Each
      recursion assigns at least one more predicate, so at most
      `|kb.labels|` passes run. */
  function Entail(kb: KnowledgeBase, ghost h: map<ExprId, nat>, tv: Assignment): (r: Option<Assignment>)
    requires Valid(kb, h)
    ensures r.Some? ==> Grows(r.value, tv)
    decreases |kb.labels.Keys - tv.Keys|
  {
    var pass := Pass(kb, h, tv);
    if pass.None? then None
    else if pass.value.Keys == tv.Keys then pass
    else
      var combined := pass.value;
      PassShrinksUnassigned(kb, h, tv);
      var next := Entail(kb, h, combined);
      if next.None? then None
      else
        MergeAbsorbed(combined, next.value);
        GrowsTransitive(tv, combined, next.value);
        Some(combined + next.value)
  }

  /** `entail()` and `entail({})` return an empty assignment. */
  lemma EntailEmptySeed(kb: KnowledgeBase, h: map<ExprId, nat>)
    requires Valid(kb, h)
    ensures Entail(kb, h, map[]) == Some(map[])
  {
    var none: Assignment := map[];
    assert none.Keys == {};
    assert Candidates(kb, h, none.Keys) == {};
    assert !FailingCandidate(kb, h, none);
    assert Fired(kb, h, {}, none) == {};
    assert WriteTrue(none, {}) == none;
    assert Pass(kb, h, none) == Some(none);
  }

  /** Every value is True. */
  ghost predicate AllTrue(m: Assignment)
  {
    forall k :: k in m ==> m[k]
  }

  /** Rule `i` returns `{k: True}` under `tv`. */
  ghost predicate Derives(kb: KnowledgeBase, h: map<ExprId, nat>, tv: Assignment, i: RuleId, k: PredId)
    requires Valid(kb, h)
  {
    i < |kb.rules| && FireRule(kb, h, RuleAt(kb, h, i), tv) == Ok(map[k := true])
  }

  /** No rule can add anything to `m`: whatever a rule returns under `m` is
      already True in `m`. */
  ghost predicate Closed(kb: KnowledgeBase, h: map<ExprId, nat>, m: Assignment)
    requires Valid(kb, h)
  {
    forall i, k :: Derives(kb, h, m, i, k) ==> k in m && m[k]
  }

  /** A key is written by a pass exactly when some candidate rule returns it. */
  lemma FiredMembers(kb: KnowledgeBase, h: map<ExprId, nat>, rs: set<RuleId>, tv: Assignment, k: PredId)
    requires Valid(kb, h) && forall i :: i in rs ==> i < |kb.rules|
    ensures k in Fired(kb, h, rs, tv) <==>
      exists i :: i in rs && Derives(kb, h, tv, i, k)
  {
    if k in Fired(kb, h, rs, tv) {
      var i :| i in rs && FireRule(kb, h, RuleAt(kb, h, i), tv).Ok? && k in FireRule(kb, h, RuleAt(kb, h, i), tv).value;
      FireRuleConclusion(kb, h, RuleAt(kb, h, i), tv, k);
    }
    if exists i :: i in rs && Derives(kb, h, tv, i, k) {
      var i :| i in rs && Derives(kb, h, tv, i, k);
      assert k in FireRule(kb, h, RuleAt(kb, h, i), tv).value;
    }
  }

  /** The ancestry lookup misses no rule that could fire: a rule whose
      antecedent has a known value under `tv` is a candidate of the pass. */
  lemma CandidatesCover(kb: KnowledgeBase, h: map<ExprId, nat>, tv: Assignment, i: RuleId)
    requires Valid(kb, h) && i < |kb.rules|
    requires Evaluate(kb, h, RuleAt(kb, h, i).antecedent, tv).Ok?
    requires Evaluate(kb, h, RuleAt(kb, h, i).antecedent, tv).value.Known?
    ensures i in Candidates(kb, h, tv.Keys)
  {
    var ant := RuleAt(kb, h, i).antecedent;
    var x, p := KnownNeedsFact(kb, h, ant, tv);
    PredicateLinked(kb, x);
    ExpressionsInMembers(kb.links, p);
    assert x in Expressions(kb, p);
    AllAntecedentRulesExact(kb, h, x, i);
    assert i in AllAntecedentRules(kb, h, x);
  }

  /** A pass returns `tv` updated with True at the conclusions of the
      candidate rules that fire under `tv`. */
  lemma PassValue(kb: KnowledgeBase, h: map<ExprId, nat>, tv: Assignment, k: PredId)
    requires Valid(kb, h) && Pass(kb, h, tv).Some?
    ensures k in Pass(kb, h, tv).value <==>
      k in tv || exists i :: i in Candidates(kb, h, tv.Keys) && Derives(kb, h, tv, i, k)
    ensures k in Pass(kb, h, tv).value ==>
      Pass(kb, h, tv).value[k] == (
        || (k in tv && tv[k])
        || exists i :: i in Candidates(kb, h, tv.Keys) && Derives(kb, h, tv, i, k))
  {
    var cands := Candidates(kb, h, tv.Keys);
    FiredMembers(kb, h, cands, tv, k);
    WriteTrueGrows(tv, Fired(kb, h, cands, tv));
  }

  /** The candidate lookup loses nothing: a pass adds exactly the conclusions
      of the rules, candidate or not, that fire under `tv`. */
  lemma PassDerives(kb: KnowledgeBase, h: map<ExprId, nat>, tv: Assignment, k: PredId)
    requires Valid(kb, h) && Pass(kb, h, tv).Some?
    ensures k in Pass(kb, h, tv).value <==> k in tv || exists i :: Derives(kb, h, tv, i, k)
    ensures k in Pass(kb, h, tv).value ==>
      Pass(kb, h, tv).value[k] == ((k in tv && tv[k]) || exists i :: Derives(kb, h, tv, i, k))
  {
    PassValue(kb, h, tv, k);
    if exists i :: Derives(kb, h, tv, i, k) {
      var i :| Derives(kb, h, tv, i, k);
      FireRuleConclusion(kb, h, RuleAt(kb, h, i), tv, k);
      CandidatesCover(kb, h, tv, i);
    }
  }

  /** In a well-formed knowledge base, a pass over predicate keys never raises. */
  lemma PassWellFormed(kb: KnowledgeBase, h: map<ExprId, nat>, tv: Assignment)
    requires Valid(kb, h) && WellFormed(kb) && tv.Keys <= kb.labels.Keys
    ensures Pass(kb, h, tv).Some?
  {
    forall i | i in Candidates(kb, h, tv.Keys)
      ensures FireRule(kb, h, RuleAt(kb, h, i), tv).Ok?
    {
      EvaluateWellFormed(kb, h, RuleAt(kb, h, i).antecedent, tv);
    }
  }

  /** When `entail` raises: never on a well-formed knowledge base and a seed
      of predicate ids, always on a seed key that names no predicate. */
  lemma {:induction false} EntailSucceeds(kb: KnowledgeBase, h: map<ExprId, nat>, tv: Assignment)
    requires Valid(kb, h)
    ensures UnknownKey(kb, tv) ==> Entail(kb, h, tv).None?
    ensures WellFormed(kb) && tv.Keys <= kb.labels.Keys ==> Entail(kb, h, tv).Some?
    decreases |kb.labels.Keys - tv.Keys|
  {
    if WellFormed(kb) && tv.Keys <= kb.labels.Keys {
      PassWellFormed(kb, h, tv);
      var combined := Pass(kb, h, tv).value;
      if combined.Keys != tv.Keys {
        PassShrinksUnassigned(kb, h, tv);
        EntailSucceeds(kb, h, combined);
      }
    }
  }

  /** A rule that derives `k` under `tv` puts `k` as True into the pass over `tv`. */
  lemma DerivedInPass(kb: KnowledgeBase, h: map<ExprId, nat>, tv: Assignment, i: RuleId, k: PredId)
    requires Valid(kb, h) && Pass(kb, h, tv).Some? && Derives(kb, h, tv, i, k)
    ensures k in Pass(kb, h, tv).value && Pass(kb, h, tv).value[k]
  {
    FireRuleConclusion(kb, h, RuleAt(kb, h, i), tv, k);
    CandidatesCover(kb, h, tv, i);
    PassValue(kb, h, tv, k);
  }

  /** A pass that returns its own input leaves an assignment no rule can extend. */
  lemma PassFixpointClosed(kb: KnowledgeBase, h: map<ExprId, nat>, m: Assignment)
    requires Valid(kb, h) && Pass(kb, h, m) == Some(m)
    ensures Closed(kb, h, m)
  {
    forall i, k | Derives(kb, h, m, i, k)
      ensures k in m && m[k]
    {
      DerivedInPass(kb, h, m, i, k);
    }
  }

  /** One step of `entail`: either the pass adds nothing and is the result, or
      the result is that of `entail` on the pass's output, which has fewer
      unassigned predicates. */
  lemma EntailStep(kb: KnowledgeBase, h: map<ExprId, nat>, tv: Assignment)
    requires Valid(kb, h) && Entail(kb, h, tv).Some?
    ensures Pass(kb, h, tv).Some?
    ensures Pass(kb, h, tv).value.Keys == tv.Keys ==> Entail(kb, h, tv) == Pass(kb, h, tv)
    ensures Pass(kb, h, tv).value.Keys != tv.Keys ==>
      && |kb.labels.Keys - Pass(kb, h, tv).value.Keys| < |kb.labels.Keys - tv.Keys|
      && Entail(kb, h, Pass(kb, h, tv).value) == Entail(kb, h, tv)
  {
    var combined := Pass(kb, h, tv).value;
    if combined.Keys != tv.Keys {
      PassShrinksUnassigned(kb, h, tv);
      MergeAbsorbed(combined, Entail(kb, h, combined).value);
    }
  }

  /** From an all-True seed, `entail` stops at an assignment that its own last
      pass returns unchanged. */
  lemma {:induction false} EntailEndsAtFixpoint(kb: KnowledgeBase, h: map<ExprId, nat>, tv: Assignment)
    requires Valid(kb, h) && AllTrue(tv) && Entail(kb, h, tv).Some?
    ensures Pass(kb, h, Entail(kb, h, tv).value) == Some(Entail(kb, h, tv).value)
    decreases |kb.labels.Keys - tv.Keys|
  {
    EntailStep(kb, h, tv);
    var combined := Pass(kb, h, tv).value;
    if combined.Keys != tv.Keys {
      EntailEndsAtFixpoint(kb, h, combined);
    } else {
      assert combined == tv;
    }
  }

  /** From an all-True seed, the result of `entail` is closed under every rule. */
  lemma EntailClosed(kb: KnowledgeBase, h: map<ExprId, nat>, tv: Assignment)
    requires Valid(kb, h) && AllTrue(tv) && Entail(kb, h, tv).Some?
    ensures Closed(kb, h, Entail(kb, h, tv).value)
    ensures AllTrue(Entail(kb, h, tv).value) && Extends(Entail(kb, h, tv).value, tv)
  {
    EntailEndsAtFixpoint(kb, h, tv);
    PassFixpointClosed(kb, h, Entail(kb, h, tv).value);
  }

  /** From an all-True seed, running `entail` on its own result changes nothing. */
  lemma EntailIdempotent(kb: KnowledgeBase, h: map<ExprId, nat>, tv: Assignment)
    requires Valid(kb, h) && AllTrue(tv) && Entail(kb, h, tv).Some?
    ensures Entail(kb, h, Entail(kb, h, tv).value) == Entail(kb, h, tv)
  {
    EntailEndsAtFixpoint(kb, h, tv);
  }

  /** Whatever a pass adds to `tv` is forced in every closed assignment that
      extends `tv`. */
  lemma PassInsideClosed(kb: KnowledgeBase, h: map<ExprId, nat>, tv: Assignment, m: Assignment, k: PredId)
    requires Valid(kb, h) && Pass(kb, h, tv).Some? && k in Pass(kb, h, tv).value
    requires Extends(m, tv) && Closed(kb, h, m)
    ensures k in m && m[k] == Pass(kb, h, tv).value[k]
  {
    PassValue(kb, h, tv, k);
    if exists i :: i in Candidates(kb, h, tv.Keys) && Derives(kb, h, tv, i, k) {
      var i :| i in Candidates(kb, h, tv.Keys) && Derives(kb, h, tv, i, k);
      var rule := RuleAt(kb, h, i);
      FireRuleConclusion(kb, h, rule, tv, k);
      EvaluateMonotone(kb, h, rule.antecedent, tv, m, true);
      assert Derives(kb, h, m, i, k);
    }
  }

  /** `entail` derives nothing that is not forced: its result lies inside every
      closed assignment that extends the seed. */
  lemma {:induction false} EntailLeast(kb: KnowledgeBase, h: map<ExprId, nat>, tv: Assignment, m: Assignment)
    requires Valid(kb, h) && Entail(kb, h, tv).Some?
    requires Extends(m, tv) && Closed(kb, h, m)
    ensures Extends(m, Entail(kb, h, tv).value)
    decreases |kb.labels.Keys - tv.Keys|
  {
    EntailStep(kb, h, tv);
    var combined := Pass(kb, h, tv).value;
    forall k | k in combined
      ensures k in m && m[k] == combined[k]
    {
      PassInsideClosed(kb, h, tv, m, k);
    }
    if combined.Keys != tv.Keys {
      EntailLeast(kb, h, combined, m);
    }
  }

  /** In a well-formed knowledge base, from an all-True seed over predicate
      keys, `entail` returns the least closed extension of the seed: any
      closed all-True extension whose keys every closed extension has. */
  lemma EntailIsLeastClosed(kb: KnowledgeBase, h: map<ExprId, nat>, tv: Assignment, m: Assignment)
    requires Valid(kb, h) && WellFormed(kb) && tv.Keys <= kb.labels.Keys && AllTrue(tv)
    requires Extends(m, tv) && Closed(kb, h, m) && AllTrue(m)
    requires forall m' :: Extends(m', tv) && Closed(kb, h, m') ==> m.Keys <= m'.Keys
    ensures Entail(kb, h, tv) == Some(m)
  {
    EntailSucceeds(kb, h, tv);
    var r := Entail(kb, h, tv).value;
    EntailClosed(kb, h, tv);
    EntailLeast(kb, h, tv, m);
    SameAssignment(r, m);
  }

  /** In a well-formed knowledge base, a pass over predicate keys returns the
      seed with True written at every conclusion of a rule that fires. */
  lemma PassIs(kb: KnowledgeBase, h: map<ExprId, nat>, tv: Assignment, m: Assignment)
    requires Valid(kb, h) && WellFormed(kb) && tv.Keys <= kb.labels.Keys
    requires forall k :: k in m <==> k in tv || exists i :: Derives(kb, h, tv, i, k)
    requires forall k :: k in m ==> m[k] == ((k in tv && tv[k]) || exists i :: Derives(kb, h, tv, i, k))
    ensures Pass(kb, h, tv) == Some(m)
  {
    PassWellFormed(kb, h, tv);
    var r := Pass(kb, h, tv).value;
    forall k
      ensures k in r <==> k in m
      ensures k in r ==> r[k] == m[k]
    {
      PassDerives(kb, h, tv, k);
    }
    SameAssignment(r, m);
  }

  /** A pass that adds no key is the last one: `entail` returns its result. */
  lemma EntailStopsWithoutNewKey(kb: KnowledgeBase, h: map<ExprId, nat>, tv: Assignment)
    requires Valid(kb, h) && Pass(kb, h, tv).Some? && Pass(kb, h, tv).value.Keys == tv.Keys
    ensures Entail(kb, h, tv) == Pass(kb, h, tv)
  {
  }

  /** When no rule's antecedent is True under the seed, `entail` returns the
      seed unchanged. */
  lemma EntailNothingFires(kb: KnowledgeBase, h: map<ExprId, nat>, tv: Assignment)
    requires Valid(kb, h) && Pass(kb, h, tv).Some?
    requires forall i :: 0 <= i < |kb.rules| ==> Evaluate(kb, h, RuleAt(kb, h, i).antecedent, tv) != Ok(Known(true))
    ensures Entail(kb, h, tv) == Some(tv)
  {
    var r := Pass(kb, h, tv).value;
    forall k
      ensures k in r <==> k in tv
      ensures k in r ==> r[k] == tv[k]
    {
      PassValue(kb, h, tv, k);
      if exists i :: i in Candidates(kb, h, tv.Keys) && Derives(kb, h, tv, i, k) {
        var i :| i in Candidates(kb, h, tv.Keys) && Derives(kb, h, tv, i, k);
        FireRuleConclusion(kb, h, RuleAt(kb, h, i), tv, k);
      }
    }
    SameAssignment(r, tv);
  }
}
