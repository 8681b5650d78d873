/** `Expression.evaluate` and `Rule.evaluate` of ponens/models.py. */
module Evaluation {
  import opened Wrappers
  import opened Truth
  import opened Knowledge
  import opened Ancestry

  /** The exceptions the Python code raises on malformed data. */
  datatype Error =
    | MissingPredicate(expr: ExprId)        // `expressionpredicate_set.all()[0]` raises IndexError
    | EmptyConjunction(expr: ExprId)        // `reduce` of an empty list raises TypeError
    | EmptyDisjunction(expr: ExprId)        // `assert len(subterms) > 0` fails
    | NegationWithoutOperand(expr: ExprId)  // `children()[0]` raises IndexError

  /** Three-valued value of expression `e` under the partial assignment `tv`.
      Every non-ID expression first evaluates all its children in order (and
      fails with the first failure), as the list comprehension does. */
  function Evaluate(kb: KnowledgeBase, ghost h: map<ExprId, nat>, e: ExprId, tv: Assignment): (r: Result<Tri, Error>)
    requires Valid(kb, h) && e in kb.operators
    decreases h[e]
  {
    match kb.operators[e]
    case Id =>
      (match PredicateOf(kb, e)
       case None => Err(MissingPredicate(e))
       case Some(p) => Ok(if p in tv then Known(tv[p]) else Unknown))
    case _ =>
      var cs := Children(kb, e);
      ChildrenRanked(kb, h, e);
      Apply(e, kb.operators[e], seq(|cs|, i requires 0 <= i < |cs| => Evaluate(kb, h, cs[i], tv)))
  }

  /** The operator of a non-ID expression applied to its children's results. */
  function Apply(e: ExprId, op: Op, rs: seq<Result<Tri, Error>>): (r: Result<Tri, Error>)
    requires op != Id
  {
    match Collect(rs)
    case Err(err) => Err(err)
    case Ok(ts) => Combine(e, op, ts)
  }

  /** Apply the operator of a non-ID expression to its evaluated children. */
  function Combine(e: ExprId, op: Op, ts: seq<Tri>): (r: Result<Tri, Error>)
    requires op != Id
  {
    match op
    case And => (match Conjunction(ts) case None => Err(EmptyConjunction(e)) case Some(t) => Ok(t))
    case Or => (match Disjunction(ts) case None => Err(EmptyDisjunction(e)) case Some(t) => Ok(t))
    case Not => if |ts| == 0 then Err(NegationWithoutOperand(e)) else Ok(Negation(ts[0]))
    case Other(_) => Ok(Unknown)
  }

  /** The results of the children of a non-ID expression, one per child in order. */
  lemma ChildResults(kb: KnowledgeBase, h: map<ExprId, nat>, e: ExprId, tv: Assignment)
    returns (cs: seq<ExprId>, rs: seq<Result<Tri, Error>>)
    requires Valid(kb, h) && e in kb.operators && kb.operators[e] != Id
    ensures cs == Children(kb, e) && |rs| == |cs|
    ensures forall i :: 0 <= i < |cs| ==> cs[i] in kb.operators && h[cs[i]] < h[e]
    ensures forall i :: 0 <= i < |cs| ==> rs[i] == Evaluate(kb, h, cs[i], tv)
    ensures Evaluate(kb, h, e, tv) == Apply(e, kb.operators[e], rs)
  {
    cs := Children(kb, e);
    ChildrenRanked(kb, h, e);
    rs := seq(|cs|, i requires 0 <= i < |cs| => Evaluate(kb, h, cs[i], tv));
  }

  /** A non-ID expression, NOT and unknown operators included, fails with the
      error of its first failing child: the list comprehension evaluates every
      child before the operator is looked at. */
  lemma ChildFailurePropagates(kb: KnowledgeBase, h: map<ExprId, nat>, e: ExprId, tv: Assignment, i: nat)
    requires Valid(kb, h) && e in kb.operators && kb.operators[e] != Id
    requires i < |Children(kb, e)|
    requires Children(kb, e)[i] in kb.operators && Evaluate(kb, h, Children(kb, e)[i], tv).Err?
    requires forall j :: 0 <= j < i ==> Children(kb, e)[j] in kb.operators && Evaluate(kb, h, Children(kb, e)[j], tv).Ok?
    ensures Evaluate(kb, h, e, tv) == Evaluate(kb, h, Children(kb, e)[i], tv)
  {
    var cs, rs := ChildResults(kb, h, e, tv);
    var r := Collect(rs);
    assert r.Err? by {
      assert rs[i].Err?;
    }
    var k :| 0 <= k < |rs| && rs[k] == Err(r.error) && forall j :: 0 <= j < k ==> rs[j].Ok?;
    assert k == i;
  }

  /** `Rule.evaluate`: `{p: True}` when the antecedent is True and the
      consequent is the ID expression of `p`; an empty map otherwise. */
  function FireRule(kb: KnowledgeBase, ghost h: map<ExprId, nat>, rule: Rule, tv: Assignment): (r: Result<Assignment, Error>)
    requires Valid(kb, h) && rule.antecedent in kb.operators && rule.consequent in kb.operators
    ensures r.Ok? && r.value != map[] <==>
      && Evaluate(kb, h, rule.antecedent, tv) == Ok(Known(true))
      && kb.operators[rule.consequent] == Id
      && PredicateOf(kb, rule.consequent).Some?
    ensures r.Ok? && r.value != map[] ==> r.value == map[PredicateOf(kb, rule.consequent).value := true]
    ensures r.Err? <==>
      || Evaluate(kb, h, rule.antecedent, tv).Err?
      || (&& Evaluate(kb, h, rule.antecedent, tv) == Ok(Known(true))
          && kb.operators[rule.consequent] == Id
          && PredicateOf(kb, rule.consequent).None?)
  {
    match Evaluate(kb, h, rule.antecedent, tv)
    case Err(err) => Err(err)
    case Ok(Unknown) => Ok(map[])
    case Ok(Known(false)) => Ok(map[])
    case Ok(Known(true)) =>
      if kb.operators[rule.consequent] == Id then
        match PredicateOf(kb, rule.consequent)
        case None => Err(MissingPredicate(rule.consequent))
        case Some(p) => assert p in map[p := true]; Ok(map[p := true])
      else Ok(map[])
  }

  /** `m'` agrees with `m` on every key of `m`: it knows at least as much. */
  ghost predicate Extends(m': Assignment, m: Assignment)
  {
    forall k :: k in m ==> k in m' && m'[k] == m[k]
  }

  /** An ID expression yields the assignment's value for its predicate, and
      unknown when the predicate is absent. */
  lemma EvaluateIdentity(kb: KnowledgeBase, h: map<ExprId, nat>, e: ExprId, tv: Assignment, p: PredId)
    requires Valid(kb, h) && e in kb.operators && kb.operators[e] == Id
    requires PredicateOf(kb, e) == Some(p)
    ensures p in tv ==> Evaluate(kb, h, e, tv) == Ok(Known(tv[p]))
    ensures p !in tv ==> Evaluate(kb, h, e, tv) == Ok(Unknown)
  {
  }

  /** Statements about the children's evaluations are statements about their
      results. */
  lemma ResultsAre(kb: KnowledgeBase, h: map<ExprId, nat>, cs: seq<ExprId>, rs: seq<Result<Tri, Error>>, tv: Assignment, v: Result<Tri, Error>)
    requires Valid(kb, h) && |rs| == |cs|
    requires forall i :: 0 <= i < |cs| ==> cs[i] in kb.operators && rs[i] == Evaluate(kb, h, cs[i], tv)
    ensures (exists i :: 0 <= i < |cs| && Evaluate(kb, h, cs[i], tv) == v) <==> (exists i :: 0 <= i < |rs| && rs[i] == v)
    ensures (forall i :: 0 <= i < |cs| ==> Evaluate(kb, h, cs[i], tv) == v) <==> (forall i :: 0 <= i < |rs| ==> rs[i] == v)
    ensures (forall i :: 0 <= i < |cs| ==> Evaluate(kb, h, cs[i], tv) != v) <==> (forall i :: 0 <= i < |rs| ==> rs[i] != v)
  {
  }

  /** AND over a non-empty list of children's results, all of them values. */
  lemma CombineAnd(e: ExprId, ts: seq<Tri>, rs: seq<Result<Tri, Error>>)
    requires |ts| > 0 && |rs| == |ts| && forall i :: 0 <= i < |ts| ==> rs[i] == Ok(ts[i])
    ensures Combine(e, And, ts) == Ok(Known(false)) <==> exists i :: 0 <= i < |rs| && rs[i] == Ok(Known(false))
    ensures Combine(e, And, ts) == Ok(Unknown) <==>
      && (forall i :: 0 <= i < |rs| ==> rs[i] != Ok(Known(false)))
      && (exists i :: 0 <= i < |rs| && rs[i] == Ok(Unknown))
    ensures Combine(e, And, ts) == Ok(Known(true)) <==> forall i :: 0 <= i < |rs| ==> rs[i] == Ok(Known(true))
  {
  }

  /** OR over a non-empty list of children's results, all of them values. */
  lemma CombineOr(e: ExprId, ts: seq<Tri>, rs: seq<Result<Tri, Error>>)
    requires |ts| > 0 && |rs| == |ts| && forall i :: 0 <= i < |ts| ==> rs[i] == Ok(ts[i])
    ensures Combine(e, Or, ts) == Ok(Known(true)) <==> exists i :: 0 <= i < |rs| && rs[i] == Ok(Known(true))
    ensures Combine(e, Or, ts) == Ok(Unknown) <==>
      && (forall i :: 0 <= i < |rs| ==> rs[i] != Ok(Known(true)))
      && (exists i :: 0 <= i < |rs| && rs[i] == Ok(Unknown))
    ensures Combine(e, Or, ts) == Ok(Known(false)) <==> forall i :: 0 <= i < |rs| ==> rs[i] == Ok(Known(false))
  {
  }

  /** AND: a False child gives False even beside unknown children; otherwise
      an unknown child gives unknown; otherwise True. */
  lemma EvaluateAnd(kb: KnowledgeBase, h: map<ExprId, nat>, e: ExprId, cs: seq<ExprId>, tv: Assignment)
    requires Valid(kb, h) && e in kb.operators && kb.operators[e] == And
    requires cs == Children(kb, e) && |cs| > 0
    requires forall c :: c in cs ==> c in kb.operators && Evaluate(kb, h, c, tv).Ok?
    ensures Evaluate(kb, h, e, tv) == Ok(Known(false)) <==>
      exists i :: 0 <= i < |cs| && Evaluate(kb, h, cs[i], tv) == Ok(Known(false))
    ensures Evaluate(kb, h, e, tv) == Ok(Unknown) <==>
      && (forall i :: 0 <= i < |cs| ==> Evaluate(kb, h, cs[i], tv) != Ok(Known(false)))
      && (exists i :: 0 <= i < |cs| && Evaluate(kb, h, cs[i], tv) == Ok(Unknown))
    ensures Evaluate(kb, h, e, tv) == Ok(Known(true)) <==>
      forall i :: 0 <= i < |cs| ==> Evaluate(kb, h, cs[i], tv) == Ok(Known(true))
  {
    var _, rs := ChildResults(kb, h, e, tv);
    var ts := Collect(rs).value;
    CombineAnd(e, ts, rs);
    ResultsAre(kb, h, cs, rs, tv, Ok(Known(false)));
    ResultsAre(kb, h, cs, rs, tv, Ok(Unknown));
    ResultsAre(kb, h, cs, rs, tv, Ok(Known(true)));
    assert Evaluate(kb, h, e, tv) == Combine(e, And, ts);
  }

  /** OR, the dual: a True child gives True; otherwise an unknown child gives
      unknown; otherwise False. */
  lemma EvaluateOr(kb: KnowledgeBase, h: map<ExprId, nat>, e: ExprId, cs: seq<ExprId>, tv: Assignment)
    requires Valid(kb, h) && e in kb.operators && kb.operators[e] == Or
    requires cs == Children(kb, e) && |cs| > 0
    requires forall c :: c in cs ==> c in kb.operators && Evaluate(kb, h, c, tv).Ok?
    ensures Evaluate(kb, h, e, tv) == Ok(Known(true)) <==>
      exists i :: 0 <= i < |cs| && Evaluate(kb, h, cs[i], tv) == Ok(Known(true))
    ensures Evaluate(kb, h, e, tv) == Ok(Unknown) <==>
      && (forall i :: 0 <= i < |cs| ==> Evaluate(kb, h, cs[i], tv) != Ok(Known(true)))
      && (exists i :: 0 <= i < |cs| && Evaluate(kb, h, cs[i], tv) == Ok(Unknown))
    ensures Evaluate(kb, h, e, tv) == Ok(Known(false)) <==>
      forall i :: 0 <= i < |cs| ==> Evaluate(kb, h, cs[i], tv) == Ok(Known(false))
  {
    var _, rs := ChildResults(kb, h, e, tv);
    var ts := Collect(rs).value;
    CombineOr(e, ts, rs);
    ResultsAre(kb, h, cs, rs, tv, Ok(Known(true)));
    ResultsAre(kb, h, cs, rs, tv, Ok(Unknown));
    ResultsAre(kb, h, cs, rs, tv, Ok(Known(false)));
    assert Evaluate(kb, h, e, tv) == Combine(e, Or, ts);
  }

  /** NOT: unknown when its first child is unknown, the negation otherwise;
      further children are evaluated but ignored. */
  lemma EvaluateNot(kb: KnowledgeBase, h: map<ExprId, nat>, e: ExprId, cs: seq<ExprId>, tv: Assignment)
    requires Valid(kb, h) && e in kb.operators && kb.operators[e] == Not
    requires cs == Children(kb, e) && |cs| > 0
    requires forall c :: c in cs ==> c in kb.operators && Evaluate(kb, h, c, tv).Ok?
    ensures Evaluate(kb, h, cs[0], tv) == Ok(Unknown) ==> Evaluate(kb, h, e, tv) == Ok(Unknown)
    ensures forall b :: Evaluate(kb, h, cs[0], tv) == Ok(Known(b)) ==> Evaluate(kb, h, e, tv) == Ok(Known(!b))
  {
    var _, rs := ChildResults(kb, h, e, tv);
    assert cs[0] in cs;
  }

  /** Without its child a NOT fails, whatever the assignment. */
  lemma EvaluateNotWithoutChild(kb: KnowledgeBase, h: map<ExprId, nat>, e: ExprId, tv: Assignment)
    requires Valid(kb, h) && e in kb.operators && kb.operators[e] == Not && Children(kb, e) == []
    ensures Evaluate(kb, h, e, tv) == Err(NegationWithoutOperand(e))
  {
    var _, rs := ChildResults(kb, h, e, tv);
  }

  /** An empty AND or OR fails, whatever the assignment. */
  lemma EvaluateEmptyJunction(kb: KnowledgeBase, h: map<ExprId, nat>, e: ExprId, tv: Assignment)
    requires Valid(kb, h) && e in kb.operators && Children(kb, e) == []
    ensures kb.operators[e] == And ==> Evaluate(kb, h, e, tv) == Err(EmptyConjunction(e))
    ensures kb.operators[e] == Or ==> Evaluate(kb, h, e, tv) == Err(EmptyDisjunction(e))
  {
    if kb.operators[e] != Id {
      var _, rs := ChildResults(kb, h, e, tv);
    }
  }

  /** An operator outside the four choices yields unknown once its children evaluate. */
  lemma EvaluateOther(kb: KnowledgeBase, h: map<ExprId, nat>, e: ExprId, tv: Assignment)
    requires Valid(kb, h) && e in kb.operators && kb.operators[e].Other?
    requires forall c :: c in Children(kb, e) ==> c in kb.operators && Evaluate(kb, h, c, tv).Ok?
    ensures Evaluate(kb, h, e, tv) == Ok(Unknown)
  {
    var cs, rs := ChildResults(kb, h, e, tv);
    assert forall i :: 0 <= i < |cs| ==> cs[i] in cs;
  }

  /** Whether an operator fails on its evaluated children depends only on
      how many children there are. */
  lemma CombineFailsByArity(e: ExprId, op: Op, ts: seq<Tri>, ts': seq<Tri>)
    requires op != Id && |ts| == |ts'|
    ensures Combine(e, op, ts).Err? <==> Combine(e, op, ts').Err?
    ensures Combine(e, op, ts).Err? ==> Combine(e, op, ts) == Combine(e, op, ts')
  {
  }

  /** Failures depend only on the shape of the knowledge base, never on the assignment. */
  lemma {:induction false} EvaluateErrorsAreStructural(kb: KnowledgeBase, h: map<ExprId, nat>, e: ExprId, m: Assignment, m': Assignment)
    requires Valid(kb, h) && e in kb.operators
    ensures Evaluate(kb, h, e, m).Err? <==> Evaluate(kb, h, e, m').Err?
    ensures Evaluate(kb, h, e, m).Err? ==> Evaluate(kb, h, e, m) == Evaluate(kb, h, e, m')
    decreases h[e]
  {
    if kb.operators[e] != Id {
      var cs, rs := ChildResults(kb, h, e, m);
      var _, rs' := ChildResults(kb, h, e, m');
      forall i | 0 <= i < |cs|
        ensures rs[i].Err? <==> rs'[i].Err?
        ensures rs[i].Err? ==> rs[i] == rs'[i]
      {
        EvaluateErrorsAreStructural(kb, h, cs[i], m, m');
      }
      CollectFailuresAgree(rs, rs');
      if Collect(rs).Ok? {
        CombineFailsByArity(e, kb.operators[e], Collect(rs).value, Collect(rs').value);
      }
    }
  }

  /** In a well-formed knowledge base evaluation never fails. */
  lemma {:induction false} EvaluateWellFormed(kb: KnowledgeBase, h: map<ExprId, nat>, e: ExprId, tv: Assignment)
    requires Valid(kb, h) && WellFormed(kb) && e in kb.operators
    ensures Evaluate(kb, h, e, tv).Ok?
    decreases h[e]
  {
    if kb.operators[e] != Id {
      var cs, rs := ChildResults(kb, h, e, tv);
      forall i | 0 <= i < |cs|
        ensures rs[i].Ok?
      {
        EvaluateWellFormed(kb, h, cs[i], tv);
      }
    }
  }

  /** Three-valued monotonicity: learning more facts never changes a known value. */
  lemma {:induction false} EvaluateMonotone(kb: KnowledgeBase, h: map<ExprId, nat>, e: ExprId, m: Assignment, m': Assignment, b: bool)
    requires Valid(kb, h) && e in kb.operators
    requires Extends(m', m)
    requires Evaluate(kb, h, e, m) == Ok(Known(b))
    ensures Evaluate(kb, h, e, m') == Ok(Known(b))
    decreases h[e]
  {
    if kb.operators[e] != Id {
      var cs, rs := ChildResults(kb, h, e, m);
      var _, rs' := ChildResults(kb, h, e, m');
      var ts := Collect(rs).value;
      forall i | 0 <= i < |cs|
        ensures rs'[i].Ok?
        ensures ts[i].Known? ==> rs'[i] == rs[i]
      {
        EvaluateErrorsAreStructural(kb, h, cs[i], m, m');
        if ts[i].Known? {
          EvaluateMonotone(kb, h, cs[i], m, m', ts[i].value);
        }
      }
      var ts' := Collect(rs').value;
      assert Sharpens(ts', ts);
      JunctionsMonotone(ts, ts');
    }
  }

  /** A known value needs a known fact: some ID expression at or below `e`
      carries a predicate that `tv` assigns. */
  lemma {:induction false} KnownNeedsFact(kb: KnowledgeBase, h: map<ExprId, nat>, e: ExprId, tv: Assignment)
    returns (x: ExprId, p: PredId)
    requires Valid(kb, h) && e in kb.operators
    requires Evaluate(kb, h, e, tv).Ok? && Evaluate(kb, h, e, tv).value.Known?
    ensures x in kb.operators && kb.operators[x] == Id && PredicateOf(kb, x) == Some(p) && p in tv
    ensures x == e || Above(kb, e, x)
    decreases h[e]
  {
    if kb.operators[e] == Id {
      x, p := e, PredicateOf(kb, e).value;
    } else {
      var cs, rs := ChildResults(kb, h, e, tv);
      var ts := Collect(rs).value;
      var i: nat;
      match kb.operators[e] {
        case And =>
          if Known(false) in ts {
            i :| i < |ts| && ts[i] == Known(false);
          } else {
            i := 0;
          }
        case Or =>
          if Known(true) in ts {
            i :| i < |ts| && ts[i] == Known(true);
          } else {
            i := 0;
          }
        case Not =>
          i := 0;
        case Other(_) =>
          assert false;
      }
      assert i < |cs| && ts[i].Known?;
      var c := cs[i];
      ChildrenInMembers(kb.edges, e);
      assert Edge(e, c) in kb.edges;
      x, p := KnownNeedsFact(kb, h, c, tv);
      AboveByEdge(kb, e, c);
      if x != c {
        AboveTransitive(kb, e, c, x);
      }
    }
  }

  /** With no assignment (Python's default `truth_values=None`) nothing is known. */
  lemma EvaluateEmptyAssignment(kb: KnowledgeBase, h: map<ExprId, nat>, e: ExprId)
    requires Valid(kb, h) && e in kb.operators
    ensures Evaluate(kb, h, e, map[]).Ok? ==> Evaluate(kb, h, e, map[]) == Ok(Unknown)
  {
    if Evaluate(kb, h, e, map[]).Ok? && Evaluate(kb, h, e, map[]).value.Known? {
      var x, p := KnownNeedsFact(kb, h, e, map[]);
    }
  }
}
