/** The knowledge base of ponens/models.py as immutable in-memory relations:
    the Predicate table (only labels matter to the core), the Expression table
    (an operator per expression), the ExpressionPredicate and ExpressionChild
    link tables in row order, and the Rule table in row order. */
module Knowledge {
  import opened Wrappers

  type PredId = nat
  type ExprId = nat
  /** A rule is identified by its row index in `KnowledgeBase.rules`. */
  type RuleId = nat

  /** The operator strings the evaluator matches (models.py:94-124). */
  predicate IsOperatorName(name: string)
  {
    name == "ID" || name == "AND" || name == "OR" || name == "NOT"
  }

  /** Any other string, which the database does not reject. */
  type OtherName = s: string | !IsOperatorName(s) witness ""

  /** The operator column. */
  datatype Op = Id | And | Or | Not | Other(name: OtherName)

  /** The operator column as stored. */
  function OperatorName(op: Op): (s: string)
    ensures IsOperatorName(s) <==> !op.Other?
  {
    match op
    case Id => "ID"
    case And => "AND"
    case Or => "OR"
    case Not => "NOT"
    case Other(name) => name
  }

  /** The stored string determines the operator, so the string tests of
      models.py:94-124 pick the branch that `Op` names. */
  lemma OperatorNameDetermines(a: Op, b: Op)
    ensures OperatorName(a) == OperatorName(b) <==> a == b
  {
  }

  /** A row of ExpressionPredicate. */
  datatype Link = Link(expr: ExprId, pred: PredId)

  /** A row of ExpressionChild. */
  datatype Edge = Edge(parent: ExprId, child: ExprId)

  datatype Rule = Rule(antecedent: ExprId, consequent: ExprId)

  datatype KnowledgeBase = KnowledgeBase(
    labels: map<PredId, string>,
    operators: map<ExprId, Op>,
    links: seq<Link>,
    edges: seq<Edge>,
    rules: seq<Rule>)

  /** A truth assignment: a missing key means unknown, never false. */
  type Assignment = map<PredId, bool>

  /** Every foreign key points at an existing row. */
  ghost predicate Consistent(kb: KnowledgeBase)
  {
    && (forall l :: l in kb.links ==> l.expr in kb.operators && l.pred in kb.labels)
    && (forall ed :: ed in kb.edges ==> ed.parent in kb.operators && ed.child in kb.operators)
    && (forall r :: r in kb.rules ==> r.antecedent in kb.operators && r.consequent in kb.operators)
  }

  /** `h` ranks every expression below the number of expressions, a child
      strictly below each of its parents. Such a rank exists exactly when the
      ExpressionChild relation is acyclic, so `h` is the acyclicity witness. */
  ghost predicate Valid(kb: KnowledgeBase, h: map<ExprId, nat>)
  {
    && Consistent(kb)
    && h.Keys == kb.operators.Keys
    && (forall x :: x in h ==> h[x] < |kb.operators|)
    && (forall ed :: ed in kb.edges ==> h[ed.child] < h[ed.parent])
  }

  /** The data-model invariant the evaluator relies on: an ID expression has a
      predicate link, and AND, OR and NOT expressions have at least one child. */
  ghost predicate WellFormed(kb: KnowledgeBase)
  {
    forall e :: e in kb.operators ==>
      match kb.operators[e]
      case Id => PredicateOf(kb, e).Some?
      case And => |Children(kb, e)| > 0
      case Or => |Children(kb, e)| > 0
      case Not => |Children(kb, e)| > 0
      case Other(_) => true
  }

  /** `[ec.child for ec in ExpressionChild.objects.filter(parent=e)]` over `edges`. */
  function ChildrenIn(edges: seq<Edge>, e: ExprId): seq<ExprId>
  {
    if edges == [] then []
    else (if edges[0].parent == e then [edges[0].child] else []) + ChildrenIn(edges[1..], e)
  }

  lemma {:induction false} ChildrenInMembers(edges: seq<Edge>, e: ExprId)
    ensures forall c :: c in ChildrenIn(edges, e) <==> Edge(e, c) in edges
  {
    if edges != [] {
      ChildrenInMembers(edges[1..], e);
      assert edges == [edges[0]] + edges[1..];
    }
  }

  /** `Expression.children`, in table order. */
  function Children(kb: KnowledgeBase, e: ExprId): seq<ExprId>
  {
    ChildrenIn(kb.edges, e)
  }

  /** The children of `e` under a valid ranking: existing expressions, each
      ranked below `e`. */
  lemma ChildrenRanked(kb: KnowledgeBase, h: map<ExprId, nat>, e: ExprId)
    requires Valid(kb, h) && e in kb.operators
    ensures forall c :: c in Children(kb, e) ==> c in kb.operators && h[c] < h[e]
  {
    ChildrenInMembers(kb.edges, e);
  }

  /** `[ec.parent for ec in ExpressionChild.objects.filter(child=e)]` over `edges`. */
  function ParentsIn(edges: seq<Edge>, e: ExprId): seq<ExprId>
  {
    if edges == [] then []
    else (if edges[0].child == e then [edges[0].parent] else []) + ParentsIn(edges[1..], e)
  }

  lemma {:induction false} ParentsInMembers(edges: seq<Edge>, e: ExprId)
    ensures forall p :: p in ParentsIn(edges, e) <==> Edge(p, e) in edges
  {
    if edges != [] {
      ParentsInMembers(edges[1..], e);
      assert edges == [edges[0]] + edges[1..];
    }
  }

  /** `Expression.parents`, in table order. */
  function Parents(kb: KnowledgeBase, e: ExprId): seq<ExprId>
  {
    ParentsIn(kb.edges, e)
  }

  /** The predicate of the first ExpressionPredicate row of `e`, or `None` when
      there is none (where `all()[0]` raises IndexError). */
  function FirstPredicate(links: seq<Link>, e: ExprId): Option<PredId>
  {
    if links == [] then None
    else if links[0].expr == e then Some(links[0].pred)
    else FirstPredicate(links[1..], e)
  }

  /** `FirstPredicate` finds the first row of `e`, and fails only when there is none. */
  lemma {:induction false} FirstPredicateFirst(links: seq<Link>, e: ExprId)
    ensures FirstPredicate(links, e).None? <==> forall i :: 0 <= i < |links| ==> links[i].expr != e
    ensures FirstPredicate(links, e).Some? ==>
      exists i :: 0 <= i < |links| && links[i] == Link(e, FirstPredicate(links, e).value)
                  && forall j :: 0 <= j < i ==> links[j].expr != e
  {
    if links != [] && links[0].expr != e {
      var r := FirstPredicate(links[1..], e);
      FirstPredicateFirst(links[1..], e);
      if r.Some? {
        var i :| 0 <= i < |links| - 1 && links[1..][i] == Link(e, r.value)
                 && forall j :: 0 <= j < i ==> links[1..][j].expr != e;
        assert links[i + 1] == Link(e, r.value);
      } else {
        assert forall i :: 1 <= i < |links| ==> links[1..][i - 1] == links[i];
      }
    } else if links != [] {
      assert links[0] == Link(e, links[0].pred);
    }
  }

  /** `Expression.predicate`. */
  function PredicateOf(kb: KnowledgeBase, e: ExprId): Option<PredId>
  {
    FirstPredicate(kb.links, e)
  }

  /** `Expression.predicate` fails exactly when `e` has no link, and otherwise
      names a linked predicate, which exists. */
  lemma PredicateLinked(kb: KnowledgeBase, e: ExprId)
    requires Consistent(kb)
    ensures PredicateOf(kb, e).None? <==> forall l :: l in kb.links ==> l.expr != e
    ensures PredicateOf(kb, e).Some? ==> Link(e, PredicateOf(kb, e).value) in kb.links
    ensures PredicateOf(kb, e).Some? ==> PredicateOf(kb, e).value in kb.labels
  {
    FirstPredicateFirst(kb.links, e);
  }

  /** `[ep.expression for ep in expressionpredicate_set]` over `links`. */
  function ExpressionsIn(links: seq<Link>, p: PredId): seq<ExprId>
  {
    if links == [] then []
    else (if links[0].pred == p then [links[0].expr] else []) + ExpressionsIn(links[1..], p)
  }

  lemma {:induction false} ExpressionsInMembers(links: seq<Link>, p: PredId)
    ensures forall e :: e in ExpressionsIn(links, p) <==> Link(e, p) in links
  {
    if links != [] {
      ExpressionsInMembers(links[1..], p);
      assert links == [links[0]] + links[1..];
    }
  }

  /** `Predicate.expressions`: every expression linked to `p`, in table order. */
  function Expressions(kb: KnowledgeBase, p: PredId): seq<ExprId>
  {
    ExpressionsIn(kb.links, p)
  }

  /** Row indices `from..` of the rules whose antecedent is `e`. */
  function RulesWithAntecedentFrom(rules: seq<Rule>, e: ExprId, from: nat): seq<RuleId>
    requires from <= |rules|
    decreases |rules| - from
  {
    if from == |rules| then []
    else (if rules[from].antecedent == e then [from] else []) + RulesWithAntecedentFrom(rules, e, from + 1)
  }

  lemma {:induction false} RulesWithAntecedentFromMembers(rules: seq<Rule>, e: ExprId, from: nat)
    requires from <= |rules|
    ensures forall i :: i in RulesWithAntecedentFrom(rules, e, from) <==> from <= i < |rules| && rules[i].antecedent == e
    decreases |rules| - from
  {
    if from < |rules| {
      RulesWithAntecedentFromMembers(rules, e, from + 1);
    }
  }

  /** `Expression.antecedent_rules` (the second definition, which replaces the
      first): `Rule.objects.filter(antecedent=e)`. */
  function AntecedentRules(kb: KnowledgeBase, e: ExprId): seq<RuleId>
  {
    RulesWithAntecedentFrom(kb.rules, e, 0)
  }
}
