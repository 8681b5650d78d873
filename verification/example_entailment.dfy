/** The entailments the unit test of ponens/models.py asserts, made exact,
    and the treatment of a seed value of False. Each scenario is proved of
    every knowledge base with the example's shape, then of the example. */
module ExampleEntailment {
  import opened Wrappers
  import opened Truth
  import opened Knowledge
  import opened Evaluation
  import opened Entailment
  import opened Examples

  /** "human" and "mortal" True is closed: rule 0 adds "mortal" again, and
      rule 1 has a NOT consequent, which adds nothing. */
  lemma MortalityClosed(kb: KnowledgeBase, h: map<ExprId, nat>)
    requires MortalityShape(kb, h)
    ensures Closed(kb, h, map[1 := true, 2 := true])
  {
    var m: Assignment := map[1 := true, 2 := true];
    forall i, k | Derives(kb, h, m, i, k)
      ensures k in m && m[k]
    {
      FireRuleConclusion(kb, h, RuleAt(kb, h, i), m, k);
    }
  }

  /** Every closed assignment in which "human" is True has "mortal" True. */
  lemma MortalityForces(kb: KnowledgeBase, h: map<ExprId, nat>, m: Assignment)
    requires MortalityShape(kb, h) && Closed(kb, h, m)
    requires 1 in m && m[1]
    ensures 2 in m && m[2]
  {
    EvaluateIdentity(kb, h, 1, m, 1);
    assert Derives(kb, h, m, 0, 2);
  }

  /** From "human" alone, `entail` derives "mortal" and nothing else. */
  lemma MortalityEntail(kb: KnowledgeBase, h: map<ExprId, nat>)
    requires MortalityShape(kb, h)
    ensures Entail(kb, h, map[1 := true]) == Some(map[1 := true, 2 := true])
  {
    var seed: Assignment := map[1 := true];
    var m: Assignment := map[1 := true, 2 := true];
    forall m' | Extends(m', seed) && Closed(kb, h, m')
      ensures m.Keys <= m'.Keys
    {
      MortalityForces(kb, h, m');
    }
    MortalityClosed(kb, h);
    EntailIsLeastClosed(kb, h, seed, m);
  }

  /** The unit test's first entailment, on its own knowledge base. */
  lemma MortalityExample()
    ensures Valid(Mortality, MortalityRanks)
    ensures Entail(Mortality, MortalityRanks, map[1 := true]) == Some(map[1 := true, 2 := true])
  {
    MortalityHasShape();
    MortalityEntail(Mortality, MortalityRanks);
  }

  /** Under "god" alone no rule returns anything: rule 0 needs "human", and
      rule 1's consequent is a NOT expression, for which `Rule.evaluate`
      writes nothing. */
  lemma GodDerivesNothing(kb: KnowledgeBase, h: map<ExprId, nat>, i: RuleId, k: PredId)
    requires MortalityShape(kb, h)
    ensures !Derives(kb, h, map[3 := true], i, k)
  {
    var m: Assignment := map[3 := true];
    EvaluateIdentity(kb, h, 1, m, 1);
    if Derives(kb, h, m, i, k) {
      FireRuleConclusion(kb, h, RuleAt(kb, h, i), m, k);
      assert false;
    }
  }

  /** From "god" alone, `entail` derives nothing: in particular it says
      nothing about "mortal", since a False fact is never derived. */
  lemma GodEntail(kb: KnowledgeBase, h: map<ExprId, nat>)
    requires MortalityShape(kb, h)
    ensures Entail(kb, h, map[3 := true]) == Some(map[3 := true])
  {
    var seed: Assignment := map[3 := true];
    forall i, k
      ensures !Derives(kb, h, seed, i, k)
    {
      GodDerivesNothing(kb, h, i, k);
    }
    EntailIsLeastClosed(kb, h, seed, seed);
  }

  /** The same on the unit test's mortality knowledge base. */
  lemma GodExample()
    ensures Valid(Mortality, MortalityRanks)
    ensures Entail(Mortality, MortalityRanks, map[3 := true]) == Some(map[3 := true])
  {
    MortalityHasShape();
    GodEntail(Mortality, MortalityRanks);
  }

  /** Conjunction `e` over the ID expressions `x` and `y` is True under `m`
      when both of their predicates `p` and `q` are. */
  lemma ChainConjunction(kb: KnowledgeBase, h: map<ExprId, nat>, m: Assignment,
                         e: ExprId, x: ExprId, y: ExprId, p: PredId, q: PredId)
    requires ChainShape(kb, h)
    requires (e, x, y, p, q) == (4, 1, 2, 1, 2) || (e, x, y, p, q) == (6, 1, 3, 1, 3) || (e, x, y, p, q) == (8, 1, 5, 1, 4)
    requires p in m && m[p] && q in m && m[q]
    ensures Evaluate(kb, h, e, m) == Ok(Known(true))
  {
    EvaluateIdentity(kb, h, x, m, p);
    EvaluateIdentity(kb, h, y, m, q);
    EvaluateAnd(kb, h, e, [x, y], m);
  }

  /** In a closed assignment, rule `i` (`e` => `k`, with `e` the conjunction
      of the predicates `p` and `q`) has its conclusion True once `p` and `q`
      are. */
  lemma ChainStep(kb: KnowledgeBase, h: map<ExprId, nat>, m: Assignment,
                  i: RuleId, e: ExprId, x: ExprId, y: ExprId, p: PredId, q: PredId, k: PredId)
    requires ChainShape(kb, h) && Closed(kb, h, m)
    requires || (i, e, x, y, p, q, k) == (0, 4, 1, 2, 1, 2, 3)
             || (i, e, x, y, p, q, k) == (1, 6, 1, 3, 1, 3, 4)
             || (i, e, x, y, p, q, k) == (2, 8, 1, 5, 1, 4, 5)
    requires p in m && m[p] && q in m && m[q]
    ensures k in m && m[k]
  {
    ChainConjunction(kb, h, m, e, x, y, p, q);
    assert Derives(kb, h, m, i, k);
  }

  /** Every closed assignment in which a and b are True has c, d and e True. */
  lemma ChainForces(kb: KnowledgeBase, h: map<ExprId, nat>, m: Assignment)
    requires ChainShape(kb, h) && Closed(kb, h, m)
    requires 1 in m && m[1] && 2 in m && m[2]
    ensures forall p :: 1 <= p <= 5 ==> p in m && m[p]
  {
    ChainStep(kb, h, m, 0, 4, 1, 2, 1, 2, 3);
    ChainStep(kb, h, m, 1, 6, 1, 3, 1, 3, 4);
    ChainStep(kb, h, m, 2, 8, 1, 5, 1, 4, 5);
  }

  /** a to e all True is closed: every conclusion is one of the predicates. */
  lemma ChainClosed(kb: KnowledgeBase, h: map<ExprId, nat>)
    requires ChainShape(kb, h)
    ensures Closed(kb, h, map[1 := true, 2 := true, 3 := true, 4 := true, 5 := true])
  {
    var m: Assignment := map[1 := true, 2 := true, 3 := true, 4 := true, 5 := true];
    forall i, k | Derives(kb, h, m, i, k)
      ensures k in m && m[k]
    {
      FireRuleConclusion(kb, h, RuleAt(kb, h, i), m, k);
    }
  }

  /** From a and b, `entail` derives c, d and e through three rounds, and
      nothing else. */
  lemma ChainEntail(kb: KnowledgeBase, h: map<ExprId, nat>)
    requires ChainShape(kb, h)
    ensures Entail(kb, h, map[1 := true, 2 := true])
         == Some(map[1 := true, 2 := true, 3 := true, 4 := true, 5 := true])
  {
    var seed: Assignment := map[1 := true, 2 := true];
    var m: Assignment := map[1 := true, 2 := true, 3 := true, 4 := true, 5 := true];
    forall m' | Extends(m', seed) && Closed(kb, h, m')
      ensures m.Keys <= m'.Keys
    {
      ChainForces(kb, h, m');
    }
    ChainClosed(kb, h);
    EntailIsLeastClosed(kb, h, seed, m);
  }

  /** The unit test's conjunction chain, on its own knowledge base. */
  lemma ChainExample()
    ensures Valid(Chain, ChainRanks)
    ensures Entail(Chain, ChainRanks, map[1 := true, 2 := true])
         == Some(map[1 := true, 2 := true, 3 := true, 4 := true, 5 := true])
  {
    ChainHasShape();
    ChainEntail(Chain, ChainRanks);
  }

  /** Under the seed, rule 0 (b => a) fires and overwrites a's False, while
      rule 1 (a => d) sees a False and does not fire. */
  lemma OverturnPass(kb: KnowledgeBase, h: map<ExprId, nat>)
    requires OverturnShape(kb, h)
    ensures Pass(kb, h, map[1 := false, 2 := true]) == Some(map[1 := true, 2 := true])
  {
    var seed: Assignment := map[1 := false, 2 := true];
    var m: Assignment := map[1 := true, 2 := true];
    EvaluateIdentity(kb, h, 1, seed, 1);
    EvaluateIdentity(kb, h, 2, seed, 2);
    assert Derives(kb, h, seed, 0, 1);
    forall i, k | Derives(kb, h, seed, i, k)
      ensures k == 1
    {
      FireRuleConclusion(kb, h, RuleAt(kb, h, i), seed, k);
    }
    PassIs(kb, h, seed, m);
  }

  /** A seed False is overwritten by a rule's True, and because that adds no
      key, `entail` stops after one pass although `a => d` now fires: the
      result is not closed under the rules. */
  lemma OverturnedSeed(kb: KnowledgeBase, h: map<ExprId, nat>)
    requires OverturnShape(kb, h)
    ensures Entail(kb, h, map[1 := false, 2 := true]) == Some(map[1 := true, 2 := true])
    ensures !Closed(kb, h, map[1 := true, 2 := true])
  {
    OverturnPass(kb, h);
    EntailStopsWithoutNewKey(kb, h, map[1 := false, 2 := true]);
    EvaluateIdentity(kb, h, 1, map[1 := true, 2 := true], 1);
    assert Derives(kb, h, map[1 := true, 2 := true], 1, 3);
  }

  /** The seed-False scenario on its own knowledge base. */
  lemma OverturnExample()
    ensures Valid(Overturn, OverturnRanks)
    ensures Entail(Overturn, OverturnRanks, map[1 := false, 2 := true]) == Some(map[1 := true, 2 := true])
    ensures !Closed(Overturn, OverturnRanks, map[1 := true, 2 := true])
  {
    OverturnHasShape();
    OverturnedSeed(Overturn, OverturnRanks);
  }
}
