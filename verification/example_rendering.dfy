/** The renderings the unit test of ponens/models.py asserts. Each is proved
    of every knowledge base with the example's shape and labels, then of the
    example. */
module ExampleRendering {
  import opened Wrappers
  import opened Knowledge
  import opened Rendering
  import opened Examples

  /** The string identities the renderings below reduce to. */
  lemma MortalitySpelled()
    ensures "(" + "is Human" + ")" == "(is Human)"
    ensures "(" + "is Mortal" + ")" == "(is Mortal)"
    ensures "(" + "is a God" + ")" == "(is a God)"
    ensures "(" + ("NOT" + " " + "(is Mortal)") + ")" == "(NOT (is Mortal))"
  {
  }

  lemma MortalityRulesSpelled()
    ensures "(is Human)" + " => " + "(is Mortal)" == "(is Human) => (is Mortal)"
    ensures "(is a God)" + " => " + "(NOT (is Mortal))" == "(is a God) => (NOT (is Mortal))"
  {
  }

  lemma ChainSpelled()
    ensures "(" + "a" + ")" == "(a)" && "(" + "b" + ")" == "(b)" && "(" + "c" + ")" == "(c)"
    ensures Join(["(a)", "(b)"]) == "(a) (b)"
    ensures "(" + ("AND" + " " + "(a) (b)") + ")" == "(AND (a) (b))"
    ensures "(AND (a) (b))" + " => " + "(c)" == "(AND (a) (b)) => (c)"
  {
  }

  /** The ID expressions render as their labels in parentheses. */
  lemma MortalityLabels(kb: KnowledgeBase, h: map<ExprId, nat>)
    requires MortalityShape(kb, h) && MortalityNames(kb)
    ensures Render(kb, h, 1) == Ok("(is Human)")
    ensures Render(kb, h, 2) == Ok("(is Mortal)")
    ensures Render(kb, h, 3) == Ok("(is a God)")
  {
    MortalitySpelled();
    RenderIdentity(kb, h, 1, 1, "is Human");
    RenderIdentity(kb, h, 2, 2, "is Mortal");
    RenderIdentity(kb, h, 3, 3, "is a God");
  }

  /** The two rules render as in the unit test, the second with its NOT
      expression over "mortal". */
  lemma MortalityRendering(kb: KnowledgeBase, h: map<ExprId, nat>)
    requires MortalityShape(kb, h) && MortalityNames(kb)
    ensures RenderRule(kb, h, kb.rules[0]) == Ok("(is Human) => (is Mortal)")
    ensures RenderRule(kb, h, kb.rules[1]) == Ok("(is a God) => (NOT (is Mortal))")
  {
    MortalitySpelled();
    MortalityRulesSpelled();
    MortalityLabels(kb, h);
    RenderOperator(kb, h, 4, [2], ["(is Mortal)"]);
  }

  /** The unit test's renderings, on its own knowledge base. */
  lemma MortalityRenderingExample()
    ensures Valid(Mortality, MortalityRanks)
    ensures RenderRule(Mortality, MortalityRanks, Mortality.rules[0]) == Ok("(is Human) => (is Mortal)")
    ensures RenderRule(Mortality, MortalityRanks, Mortality.rules[1]) == Ok("(is a God) => (NOT (is Mortal))")
  {
    MortalityHasShape();
    MortalityNamed();
    MortalityRendering(Mortality, MortalityRanks);
  }

  /** The conjunction rule renders with both children in order. */
  lemma ChainRendering(kb: KnowledgeBase, h: map<ExprId, nat>)
    requires ChainShape(kb, h) && ChainNames(kb)
    ensures RenderRule(kb, h, kb.rules[0]) == Ok("(AND (a) (b)) => (c)")
  {
    ChainSpelled();
    RenderIdentity(kb, h, 1, 1, "a");
    RenderIdentity(kb, h, 2, 2, "b");
    RenderIdentity(kb, h, 3, 3, "c");
    RenderOperator(kb, h, 4, [1, 2], ["(a)", "(b)"]);
  }

  /** The unit test's conjunction rendering, on its own knowledge base. */
  lemma ChainRenderingExample()
    ensures Valid(Chain, ChainRanks)
    ensures RenderRule(Chain, ChainRanks, Chain.rules[0]) == Ok("(AND (a) (b)) => (c)")
  {
    ChainHasShape();
    ChainNamed();
    ChainRendering(Chain, ChainRanks);
  }
}
