/** The knowledge bases of the unit test in ponens/models.py, and one that
    shows how a seed value of False is treated.

    Each knowledge base comes with a shape predicate listing the facts about
    it that the scenarios use, and a lemma that the constant has that shape.
    The scenarios are proved of every knowledge base with the shape, and then
    of the constant; this keeps the literal tables out of the proofs. */
module Examples {
  import opened Wrappers
  import opened Knowledge

  // Predicates 1-4 are human, mortal, god and immortal; expressions 1-3 are
  // their ID expressions and 4 is NOT over "mortal". Rule 0 is
  // human => mortal, rule 1 is god => NOT mortal.
  const Mortality := KnowledgeBase(
    map[1 := "is Human", 2 := "is Mortal", 3 := "is a God", 4 := "is Immortal"],
    map[1 := Id, 2 := Id, 3 := Id, 4 := Not],
    [Link(1, 1), Link(2, 2), Link(3, 3)],
    [Edge(4, 2)],
    [Rule(1, 2), Rule(3, 4)])

  const MortalityRanks: map<ExprId, nat> := map[1 := 0, 2 := 0, 3 := 0, 4 := 1]

  ghost predicate MortalityTables(kb: KnowledgeBase)
  {
    && (forall e :: e in {1, 2, 3} ==> e in kb.operators && kb.operators[e] == Id)
    && 4 in kb.operators && kb.operators[4] == Not
    && kb.labels.Keys == {1, 2, 3, 4}
    && kb.rules == [Rule(1, 2), Rule(3, 4)]
  }

  ghost predicate MortalityLinks(kb: KnowledgeBase)
  {
    PredicateOf(kb, 1) == Some(1) && PredicateOf(kb, 2) == Some(2) && PredicateOf(kb, 3) == Some(3)
  }

  ghost predicate MortalityShape(kb: KnowledgeBase, h: map<ExprId, nat>)
  {
    && Valid(kb, h) && WellFormed(kb)
    && MortalityTables(kb) && MortalityLinks(kb) && Children(kb, 4) == [2]
  }

  /** The labels the rendering scenarios print. */
  ghost predicate MortalityNames(kb: KnowledgeBase)
  {
    && (forall p :: p in {1, 2, 3} ==> p in kb.labels)
    && kb.labels[1] == "is Human" && kb.labels[2] == "is Mortal" && kb.labels[3] == "is a God"
  }

  lemma MortalityNamed()
    ensures MortalityNames(Mortality)
  {
  }

  lemma MortalityConsistent()
    ensures Consistent(Mortality)
  {
  }

  lemma MortalityRankBounds()
    ensures MortalityRanks.Keys == Mortality.operators.Keys
    ensures forall x :: x in MortalityRanks ==> MortalityRanks[x] < |Mortality.operators|
  {
    assert {1, 4} <= Mortality.operators.Keys;
  }

  lemma MortalityValid()
    ensures Valid(Mortality, MortalityRanks)
  {
    MortalityConsistent();
    MortalityRankBounds();
  }

  lemma MortalityWellFormed()
    ensures WellFormed(Mortality)
  {
    assert MortalityLinks(Mortality);
  }

  lemma MortalityHasShape()
    ensures MortalityShape(Mortality, MortalityRanks)
  {
    MortalityValid();
    MortalityWellFormed();
    assert MortalityTables(Mortality);
    assert MortalityLinks(Mortality);
    assert Children(Mortality, 4) == [2];
  }

  // The conjunction part of the unit test: predicates 1-5 are a to e, with ID
  // expressions 1, 2, 3, 5 and 7, and the conjunctions 4 = a AND b,
  // 6 = a AND c and 8 = a AND d. Rule 0 is a AND b => c, rule 1 is
  // a AND c => d, rule 2 is a AND d => e.
  const Chain := KnowledgeBase(
    map[1 := "a", 2 := "b", 3 := "c", 4 := "d", 5 := "e"],
    map[1 := Id, 2 := Id, 3 := Id, 4 := And, 5 := Id, 6 := And, 7 := Id, 8 := And],
    [Link(1, 1), Link(2, 2), Link(3, 3), Link(5, 4), Link(7, 5)],
    [Edge(4, 1), Edge(4, 2), Edge(6, 1), Edge(6, 3), Edge(8, 1), Edge(8, 5)],
    [Rule(4, 3), Rule(6, 5), Rule(8, 7)])

  const ChainRanks: map<ExprId, nat> := map[1 := 0, 2 := 0, 3 := 0, 4 := 1, 5 := 0, 6 := 1, 7 := 0, 8 := 1]

  ghost predicate ChainTables(kb: KnowledgeBase)
  {
    && (forall e :: e in {1, 2, 3, 5, 7} ==> e in kb.operators && kb.operators[e] == Id)
    && (forall e :: e in {4, 6, 8} ==> e in kb.operators && kb.operators[e] == And)
    && kb.labels.Keys == {1, 2, 3, 4, 5}
    && kb.rules == [Rule(4, 3), Rule(6, 5), Rule(8, 7)]
  }

  ghost predicate ChainLinks(kb: KnowledgeBase)
  {
    && PredicateOf(kb, 1) == Some(1) && PredicateOf(kb, 2) == Some(2) && PredicateOf(kb, 3) == Some(3)
    && PredicateOf(kb, 5) == Some(4) && PredicateOf(kb, 7) == Some(5)
  }

  ghost predicate ChainEdges(kb: KnowledgeBase)
  {
    Children(kb, 4) == [1, 2] && Children(kb, 6) == [1, 3] && Children(kb, 8) == [1, 5]
  }

  ghost predicate ChainShape(kb: KnowledgeBase, h: map<ExprId, nat>)
  {
    Valid(kb, h) && WellFormed(kb) && ChainTables(kb) && ChainLinks(kb) && ChainEdges(kb)
  }

  /** The labels the rendering scenario prints. */
  ghost predicate ChainNames(kb: KnowledgeBase)
  {
    && (forall p :: p in {1, 2, 3} ==> p in kb.labels)
    && kb.labels[1] == "a" && kb.labels[2] == "b" && kb.labels[3] == "c"
  }

  lemma ChainNamed()
    ensures ChainNames(Chain)
  {
  }

  lemma ChainConsistent()
    ensures Consistent(Chain)
  {
  }

  lemma ChainRankBounds()
    ensures ChainRanks.Keys == Chain.operators.Keys
    ensures forall x :: x in ChainRanks ==> ChainRanks[x] < |Chain.operators|
  {
    assert {1, 4} <= Chain.operators.Keys;
  }

  lemma ChainEdgesRanked()
    ensures forall ed :: ed in Chain.edges ==> ed.parent in ChainRanks && ed.child in ChainRanks
    ensures forall ed :: ed in Chain.edges ==> ChainRanks[ed.child] < ChainRanks[ed.parent]
  {
  }

  lemma ChainValid()
    ensures Valid(Chain, ChainRanks)
  {
    ChainConsistent();
    ChainRankBounds();
    ChainEdgesRanked();
  }

  lemma ChainLinked()
    ensures ChainLinks(Chain)
  {
  }

  lemma ChainEdged()
    ensures ChainEdges(Chain)
  {
  }

  lemma ChainTabled()
    ensures ChainTables(Chain)
  {
  }

  /** Every knowledge base with the chain's tables, links and edges is
      well-formed. */
  lemma ChainTablesWellFormed(kb: KnowledgeBase)
    requires kb.operators.Keys == {1, 2, 3, 4, 5, 6, 7, 8}
    requires ChainTables(kb) && ChainLinks(kb) && ChainEdges(kb)
    ensures WellFormed(kb)
  {
  }

  lemma ChainWellFormed()
    ensures WellFormed(Chain)
  {
    ChainTabled();
    ChainLinked();
    ChainEdged();
    assert Chain.operators.Keys == {1, 2, 3, 4, 5, 6, 7, 8};
    ChainTablesWellFormed(Chain);
  }

  lemma ChainHasShape()
    ensures ChainShape(Chain, ChainRanks)
  {
    ChainValid();
    ChainWellFormed();
    ChainLinked();
    ChainEdged();
    ChainTabled();
  }

  // Predicates 1-3 are a, b and d with ID expressions 1-3; rule 0 is b => a
  // and rule 1 is a => d.
  const Overturn := KnowledgeBase(
    map[1 := "a", 2 := "b", 3 := "d"],
    map[1 := Id, 2 := Id, 3 := Id],
    [Link(1, 1), Link(2, 2), Link(3, 3)],
    [],
    [Rule(2, 1), Rule(1, 3)])

  const OverturnRanks: map<ExprId, nat> := map[1 := 0, 2 := 0, 3 := 0]

  ghost predicate OverturnTables(kb: KnowledgeBase)
  {
    && kb.operators == map[1 := Id, 2 := Id, 3 := Id]
    && kb.labels.Keys == {1, 2, 3}
    && kb.rules == [Rule(2, 1), Rule(1, 3)]
  }

  ghost predicate OverturnShape(kb: KnowledgeBase, h: map<ExprId, nat>)
  {
    && Valid(kb, h) && WellFormed(kb) && OverturnTables(kb)
    && PredicateOf(kb, 1) == Some(1) && PredicateOf(kb, 2) == Some(2) && PredicateOf(kb, 3) == Some(3)
  }

  lemma OverturnConsistent()
    ensures Consistent(Overturn)
  {
  }

  lemma OverturnRankBounds()
    ensures OverturnRanks.Keys == Overturn.operators.Keys
    ensures forall x :: x in OverturnRanks ==> OverturnRanks[x] < |Overturn.operators|
  {
    assert {1} <= Overturn.operators.Keys;
  }

  lemma OverturnValid()
    ensures Valid(Overturn, OverturnRanks)
  {
    OverturnConsistent();
    OverturnRankBounds();
  }

  lemma OverturnHasShape()
    ensures OverturnShape(Overturn, OverturnRanks)
  {
    OverturnValid();
    assert PredicateOf(Overturn, 1) == Some(1) && PredicateOf(Overturn, 2) == Some(2);
    assert PredicateOf(Overturn, 3) == Some(3);
    assert OverturnTables(Overturn);
  }
}
