/** `entail` of ponens/models.py as the source writes it: nested loops over
    the seed's keys, their expressions and those expressions' rules, with the
    `found_new` flag, written as folds and proved to compute the pass and the
    fixpoint of the `Entailment` module. The order in which the seed's keys
    are visited is a parameter, as a dict's iteration order is unspecified,
    and the results hold for every order. */
module PassLoop {
  import opened Wrappers
  import opened Knowledge
  import opened Ancestry
  import opened Evaluation
  import opened Entailment

  /** The variables `combined` and `found_new` of a pass. */
  datatype PassState = PassState(combined: Assignment, found: bool)

  /** The elements of `s`. */
  function Elements(s: seq<nat>): (r: set<nat>)
    ensures forall x :: x in r <==> x in s
  {
    set x | x in s
  }

  /** The elements of a nonempty sequence: its head and those of its tail. */
  lemma ElementsCons(s: seq<nat>)
    requires s != []
    ensures Elements(s) == {s[0]} + Elements(s[1..])
  {
    assert forall x :: x in s <==> x == s[0] || x in s[1..];
  }

  /** Adding the rules of `a` and then `b` to `seen` adds those of `c`. */
  lemma UnionStep(seen: set<RuleId>, a: set<RuleId>, b: set<RuleId>, c: set<RuleId>)
    requires c == a + b
    ensures seen + a + b == seen + c
  {
  }

  /** Adding the rules of `a` to none gives `a`. */
  lemma UnionFromEmpty(a: set<RuleId>)
    ensures {} + a == a
  {
  }

  /** Adding no rules to `seen` leaves it as it is. */
  lemma UnionEmpty(seen: set<RuleId>, a: set<RuleId>)
    requires a == {}
    ensures seen + a == seen
  {
  }

  /** The rules of `all_antecedent_rules` of every expression in `es`. */
  ghost function RulesBelow(kb: KnowledgeBase, h: map<ExprId, nat>, es: seq<ExprId>): set<RuleId>
    requires Valid(kb, h)
  {
    set e, i | e in es && e in kb.operators && i in AllAntecedentRules(kb, h, e) :: i
  }

  /** Rule `i` exists and returns normally under `tv`. */
  ghost predicate Returns(kb: KnowledgeBase, h: map<ExprId, nat>, tv: Assignment, i: RuleId)
    requires Valid(kb, h)
  {
    i < |kb.rules| && FireRule(kb, h, RuleAt(kb, h, i), tv).Ok?
  }

  /** The state of a pass after the rules in `seen`: `combined` is the
      input with True written at every key they returned, and `found` says
      whether one of those keys was new. */
  ghost predicate Absorbed(kb: KnowledgeBase, h: map<ExprId, nat>, tv: Assignment,
                           seen: set<RuleId>, combined: Assignment, found: bool)
    requires Valid(kb, h)
  {
    && (forall i :: i in seen ==> i < |kb.rules|)
    && combined == WriteTrue(tv, Fired(kb, h, seen, tv))
    && (found <==> !(combined.Keys <= tv.Keys))
  }

  /** Every expression linked to a predicate exists. */
  lemma ExpressionsExist(kb: KnowledgeBase, h: map<ExprId, nat>)
    requires Valid(kb, h)
    ensures forall p, e :: e in Expressions(kb, p) ==> e in kb.operators
  {
    forall p {
      ExpressionsInMembers(kb.links, p);
    }
  }

  /** The keys written by the rules `seen` and one more rule `i`. */
  lemma FiredAdd(kb: KnowledgeBase, h: map<ExprId, nat>, tv: Assignment, seen: set<RuleId>, i: RuleId)
    requires Valid(kb, h) && forall j :: j in seen ==> j < |kb.rules|
    requires Returns(kb, h, tv, i)
    ensures Fired(kb, h, seen + {i}, tv) == Fired(kb, h, seen, tv) + FireRule(kb, h, RuleAt(kb, h, i), tv).value.Keys
    ensures forall k :: k in FireRule(kb, h, RuleAt(kb, h, i), tv).value ==> FireRule(kb, h, RuleAt(kb, h, i), tv).value[k]
  {
    var res := FireRule(kb, h, RuleAt(kb, h, i), tv).value;
    forall k
      ensures k in Fired(kb, h, seen + {i}, tv) <==> k in Fired(kb, h, seen, tv) || k in res
      ensures k in res ==> res[k]
    {
      FiredMembers(kb, h, seen + {i}, tv, k);
      FiredMembers(kb, h, seen, tv, k);
      if k in res {
        FireRuleConclusion(kb, h, RuleAt(kb, h, i), tv, k);
        assert Derives(kb, h, tv, i, k);
      }
    }
  }

  /** `combined.update(results)` with a map of True values, and the
      `found_new` test before it (models.py:192-195). */
  lemma WriteStep(tv: Assignment, ks: set<PredId>, combined: Assignment, found: bool, res: Assignment)
    requires combined == WriteTrue(tv, ks) && (found <==> !(combined.Keys <= tv.Keys))
    requires forall k :: k in res ==> res[k]
    ensures combined + res == WriteTrue(tv, ks + res.Keys)
    ensures found || !(res.Keys <= combined.Keys) <==> !((combined + res).Keys <= tv.Keys)
  {
    WriteTrueGrows(tv, ks);
    WriteTrueGrows(tv, ks + res.Keys);
    SameAssignment(combined + res, WriteTrue(tv, ks + res.Keys));
  }

  /** Writing the result of one more rule extends the state by that result. */
  lemma AbsorbRule(kb: KnowledgeBase, h: map<ExprId, nat>, tv: Assignment,
                   seen: set<RuleId>, combined: Assignment, found: bool, i: RuleId)
    requires Valid(kb, h) && Absorbed(kb, h, tv, seen, combined, found)
    requires Returns(kb, h, tv, i)
    ensures Absorbed(kb, h, tv, seen + {i},
                     combined + FireRule(kb, h, RuleAt(kb, h, i), tv).value,
                     found || !(FireRule(kb, h, RuleAt(kb, h, i), tv).value.Keys <= combined.Keys))
  {
    var res := FireRule(kb, h, RuleAt(kb, h, i), tv).value;
    FiredAdd(kb, h, tv, seen, i);
    WriteStep(tv, Fired(kb, h, seen, tv), combined, found, res);
  }

  /** The innermost loop (models.py:190-195): evaluate each rule of `rs`
      against the pass's input; stop when one raises; otherwise note whether
      its result has a key `combined` lacks, and write the result over
      `combined`. */
  function FireAll(kb: KnowledgeBase, ghost h: map<ExprId, nat>, tv: Assignment, rs: seq<RuleId>,
                   combined: Assignment, found: bool): (r: Option<PassState>)
    requires Valid(kb, h) && forall i :: i in rs ==> i < |kb.rules|
    ensures r.Some? ==> combined.Keys <= r.value.combined.Keys && (found ==> r.value.found)
    decreases |rs|
  {
    if rs == [] then Some(PassState(combined, found))
    else
      assert rs[0] in rs && forall i :: i in rs[1..] ==> i in rs;
      match FireRule(kb, h, RuleAt(kb, h, rs[0]), tv)
      case Err(_) => None
      case Ok(results) =>
        FireAll(kb, h, tv, rs[1..], combined + results, found || !(results.Keys <= combined.Keys))
  }

  /** The middle loop (models.py:189-190): the rules of each expression of `es`. */
  function FireExpressions(kb: KnowledgeBase, ghost h: map<ExprId, nat>, tv: Assignment, es: seq<ExprId>,
                           combined: Assignment, found: bool): (r: Option<PassState>)
    requires Valid(kb, h) && forall e :: e in es ==> e in kb.operators
    ensures r.Some? ==> combined.Keys <= r.value.combined.Keys && (found ==> r.value.found)
    decreases |es|
  {
    if es == [] then Some(PassState(combined, found))
    else
      assert es[0] in es && forall e :: e in es[1..] ==> e in es;
      match FireAll(kb, h, tv, AllAntecedentRules(kb, h, es[0]), combined, found)
      case None => None
      case Some(PassState(combined', found')) => FireExpressions(kb, h, tv, es[1..], combined', found')
  }

  /** The outer loop (models.py:187-190) over the keys in `order`: a key
      that names no predicate raises, as `Predicate.objects.get` does. */
  function FireKeys(kb: KnowledgeBase, ghost h: map<ExprId, nat>, tv: Assignment, order: seq<PredId>,
                    combined: Assignment, found: bool): (r: Option<PassState>)
    requires Valid(kb, h)
    ensures r.Some? ==> combined.Keys <= r.value.combined.Keys && (found ==> r.value.found)
    decreases |order|
  {
    if order == [] then Some(PassState(combined, found))
    else if order[0] !in kb.labels then None
    else
      ExpressionsExist(kb, h);
      match FireExpressions(kb, h, tv, Expressions(kb, order[0]), combined, found)
      case None => None
      case Some(PassState(combined', found')) => FireKeys(kb, h, tv, order[1..], combined', found')
  }

  /** One pass (models.py:184-195) visiting the keys of `tv` in `order`:
      the combined assignment and `found_new`. */
  function RunPass(kb: KnowledgeBase, ghost h: map<ExprId, nat>, tv: Assignment, order: seq<PredId>): (r: Option<PassState>)
    requires Valid(kb, h)
    ensures r.Some? ==> tv.Keys <= r.value.combined.Keys
  {
    FireKeys(kb, h, tv, order, tv, false)
  }

  /** The innermost loop raises exactly when one of its rules does. */
  lemma {:induction false} FireAllRaises(kb: KnowledgeBase, h: map<ExprId, nat>, tv: Assignment, rs: seq<RuleId>,
                                         combined: Assignment, found: bool)
    requires Valid(kb, h) && forall i :: i in rs ==> i < |kb.rules|
    ensures FireAll(kb, h, tv, rs, combined, found).None? <==> exists i :: i in rs && !Returns(kb, h, tv, i)
    decreases |rs|
  {
    if rs != [] {
      var i := rs[0];
      assert i in rs && forall j :: j in rs[1..] ==> j in rs;
      if Returns(kb, h, tv, i) {
        var res := FireRule(kb, h, RuleAt(kb, h, i), tv).value;
        var found' := found || !(res.Keys <= combined.Keys);
        assert FireAll(kb, h, tv, rs, combined, found) == FireAll(kb, h, tv, rs[1..], combined + res, found');
        FireAllRaises(kb, h, tv, rs[1..], combined + res, found');
        assert forall j :: j in rs ==> j == i || j in rs[1..];
      }
    }
  }

  /** When the innermost loop returns, it has extended the pass's state by
      all of its rules. */
  lemma {:induction false} FireAllAbsorbs(kb: KnowledgeBase, h: map<ExprId, nat>, tv: Assignment, rs: seq<RuleId>,
                                          seen: set<RuleId>, combined: Assignment, found: bool)
    requires Valid(kb, h) && Absorbed(kb, h, tv, seen, combined, found)
    requires forall i :: i in rs ==> i < |kb.rules|
    requires FireAll(kb, h, tv, rs, combined, found).Some?
    ensures Absorbed(kb, h, tv, seen + Elements(rs),
                     FireAll(kb, h, tv, rs, combined, found).value.combined,
                     FireAll(kb, h, tv, rs, combined, found).value.found)
    decreases |rs|
  {
    if rs == [] {
      assert Elements(rs) == {};
      UnionEmpty(seen, Elements(rs));
    } else {
      var i := rs[0];
      assert i in rs && forall j :: j in rs[1..] ==> j in rs;
      var res := FireRule(kb, h, RuleAt(kb, h, i), tv).value;
      var found' := found || !(res.Keys <= combined.Keys);
      assert FireAll(kb, h, tv, rs, combined, found) == FireAll(kb, h, tv, rs[1..], combined + res, found');
      AbsorbRule(kb, h, tv, seen, combined, found, i);
      FireAllAbsorbs(kb, h, tv, rs[1..], seen + {i}, combined + res, found');
      ElementsCons(rs);
      UnionStep(seen, {i}, Elements(rs[1..]), Elements(rs));
    }
  }

  /** The rules below a nonempty sequence of expressions: those of its head
      and those below its tail. */
  lemma RulesBelowCons(kb: KnowledgeBase, h: map<ExprId, nat>, es: seq<ExprId>)
    requires Valid(kb, h) && es != [] && es[0] in kb.operators
    ensures RulesBelow(kb, h, es) == Elements(AllAntecedentRules(kb, h, es[0])) + RulesBelow(kb, h, es[1..])
  {
    assert forall e :: e in es <==> e == es[0] || e in es[1..];
  }

  /** The middle loop raises exactly when one of the rules below its
      expressions does. */
  lemma {:induction false} FireExpressionsRaises(kb: KnowledgeBase, h: map<ExprId, nat>, tv: Assignment, es: seq<ExprId>,
                                                 combined: Assignment, found: bool)
    requires Valid(kb, h) && forall e :: e in es ==> e in kb.operators
    ensures FireExpressions(kb, h, tv, es, combined, found).None? <==>
            exists i :: i in RulesBelow(kb, h, es) && !Returns(kb, h, tv, i)
    decreases |es|
  {
    if es == [] {
      assert RulesBelow(kb, h, es) == {};
    } else {
      var e := es[0];
      assert e in es && forall x :: x in es[1..] ==> x in es;
      RulesBelowCons(kb, h, es);
      FireAllRaises(kb, h, tv, AllAntecedentRules(kb, h, e), combined, found);
      var first := FireAll(kb, h, tv, AllAntecedentRules(kb, h, e), combined, found);
      if first.Some? {
        assert FireExpressions(kb, h, tv, es, combined, found)
            == FireExpressions(kb, h, tv, es[1..], first.value.combined, first.value.found);
        FireExpressionsRaises(kb, h, tv, es[1..], first.value.combined, first.value.found);
      }
    }
  }

  /** The first expression of the middle loop: its rules return, and the
      loop carries on from the state they leave. */
  lemma FireExpressionsStep(kb: KnowledgeBase, h: map<ExprId, nat>, tv: Assignment, es: seq<ExprId>,
                            seen: set<RuleId>, combined: Assignment, found: bool)
    requires Valid(kb, h) && Absorbed(kb, h, tv, seen, combined, found)
    requires es != [] && forall e :: e in es ==> e in kb.operators
    requires FireExpressions(kb, h, tv, es, combined, found).Some?
    ensures es[0] in kb.operators
    ensures var first := FireAll(kb, h, tv, AllAntecedentRules(kb, h, es[0]), combined, found);
            && first.Some?
            && FireExpressions(kb, h, tv, es, combined, found)
               == FireExpressions(kb, h, tv, es[1..], first.value.combined, first.value.found)
            && Absorbed(kb, h, tv, seen + Elements(AllAntecedentRules(kb, h, es[0])), first.value.combined, first.value.found)
  {
    assert es[0] in es;
    FireAllAbsorbs(kb, h, tv, AllAntecedentRules(kb, h, es[0]), seen, combined, found);
  }

  /** When the middle loop returns, it has extended the pass's state by all
      the rules below its expressions. */
  lemma {:induction false} FireExpressionsAbsorbs(kb: KnowledgeBase, h: map<ExprId, nat>, tv: Assignment, es: seq<ExprId>,
                                                  seen: set<RuleId>, combined: Assignment, found: bool)
    requires Valid(kb, h) && Absorbed(kb, h, tv, seen, combined, found)
    requires forall e :: e in es ==> e in kb.operators
    requires FireExpressions(kb, h, tv, es, combined, found).Some?
    ensures Absorbed(kb, h, tv, seen + RulesBelow(kb, h, es),
                     FireExpressions(kb, h, tv, es, combined, found).value.combined,
                     FireExpressions(kb, h, tv, es, combined, found).value.found)
    decreases |es|
  {
    if es == [] {
      assert RulesBelow(kb, h, es) == {};
      UnionEmpty(seen, RulesBelow(kb, h, es));
    } else {
      FireExpressionsStep(kb, h, tv, es, seen, combined, found);
      var rs := AllAntecedentRules(kb, h, es[0]);
      var first := FireAll(kb, h, tv, rs, combined, found).value;
      assert forall x :: x in es[1..] ==> x in es;
      FireExpressionsAbsorbs(kb, h, tv, es[1..], seen + Elements(rs), first.combined, first.found);
      var r := FireExpressions(kb, h, tv, es[1..], first.combined, first.found).value;
      RulesBelowCons(kb, h, es);
      var all := seen + RulesBelow(kb, h, es);
      UnionStep(seen, Elements(rs), RulesBelow(kb, h, es[1..]), RulesBelow(kb, h, es));
      assert Absorbed(kb, h, tv, all, r.combined, r.found);
    }
  }

  /** The candidates of the keys in a nonempty sequence: the rules below the
      head's expressions and the candidates of the tail's keys. */
  lemma CandidatesCons(kb: KnowledgeBase, h: map<ExprId, nat>, order: seq<PredId>)
    requires Valid(kb, h) && order != []
    ensures Candidates(kb, h, Elements(order))
         == RulesBelow(kb, h, Expressions(kb, order[0])) + Candidates(kb, h, Elements(order[1..]))
  {
    var p := order[0];
    ExpressionsExist(kb, h);
    ElementsCons(order);
    forall i
      ensures i in Candidates(kb, h, Elements(order)) <==>
              i in RulesBelow(kb, h, Expressions(kb, p)) || i in Candidates(kb, h, Elements(order[1..]))
    {
      if i in Candidates(kb, h, Elements(order)) {
        var q, e :| q in Elements(order) && e in Expressions(kb, q) && i in AllAntecedentRules(kb, h, e);
      }
      if i in Candidates(kb, h, Elements(order[1..])) {
        var q, e :| q in Elements(order[1..]) && e in Expressions(kb, q) && i in AllAntecedentRules(kb, h, e);
      }
    }
  }

  /** The outer loop raises exactly when one of its keys names no predicate
      or one of their candidate rules raises. */
  lemma {:induction false} FireKeysRaises(kb: KnowledgeBase, h: map<ExprId, nat>, tv: Assignment, order: seq<PredId>,
                                          combined: Assignment, found: bool)
    requires Valid(kb, h)
    ensures FireKeys(kb, h, tv, order, combined, found).None? <==>
            || (exists p :: p in order && p !in kb.labels)
            || (exists i :: i in Candidates(kb, h, Elements(order)) && !Returns(kb, h, tv, i))
    decreases |order|
  {
    if order == [] {
      assert Elements(order) == {};
      assert Candidates(kb, h, {}) == {};
    } else {
      var p := order[0];
      assert p in order && forall q :: q in order[1..] ==> q in order;
      assert forall q :: q in order ==> q == p || q in order[1..];
      ExpressionsExist(kb, h);
      CandidatesCons(kb, h, order);
      if p in kb.labels {
        FireExpressionsRaises(kb, h, tv, Expressions(kb, p), combined, found);
        var first := FireExpressions(kb, h, tv, Expressions(kb, p), combined, found);
        if first.Some? {
          assert FireKeys(kb, h, tv, order, combined, found)
              == FireKeys(kb, h, tv, order[1..], first.value.combined, first.value.found);
          FireKeysRaises(kb, h, tv, order[1..], first.value.combined, first.value.found);
        }
      }
    }
  }

  /** The first key of the outer loop: it names a predicate, the rules
      below its expressions return, and the loop carries on from the state
      they leave. */
  lemma FireKeysStep(kb: KnowledgeBase, h: map<ExprId, nat>, tv: Assignment, order: seq<PredId>,
                     seen: set<RuleId>, combined: Assignment, found: bool)
    requires Valid(kb, h) && Absorbed(kb, h, tv, seen, combined, found)
    requires order != [] && FireKeys(kb, h, tv, order, combined, found).Some?
    ensures order[0] in kb.labels && forall e :: e in Expressions(kb, order[0]) ==> e in kb.operators
    ensures var first := FireExpressions(kb, h, tv, Expressions(kb, order[0]), combined, found);
            && first.Some?
            && FireKeys(kb, h, tv, order, combined, found)
               == FireKeys(kb, h, tv, order[1..], first.value.combined, first.value.found)
            && Absorbed(kb, h, tv, seen + RulesBelow(kb, h, Expressions(kb, order[0])), first.value.combined, first.value.found)
  {
    ExpressionsExist(kb, h);
    FireExpressionsAbsorbs(kb, h, tv, Expressions(kb, order[0]), seen, combined, found);
  }

  /** When the outer loop returns, it has extended the pass's state by the
      candidates of all of its keys. */
  lemma {:induction false} FireKeysAbsorbs(kb: KnowledgeBase, h: map<ExprId, nat>, tv: Assignment, order: seq<PredId>,
                                           seen: set<RuleId>, combined: Assignment, found: bool)
    requires Valid(kb, h) && Absorbed(kb, h, tv, seen, combined, found)
    requires FireKeys(kb, h, tv, order, combined, found).Some?
    ensures Absorbed(kb, h, tv, seen + Candidates(kb, h, Elements(order)),
                     FireKeys(kb, h, tv, order, combined, found).value.combined,
                     FireKeys(kb, h, tv, order, combined, found).value.found)
    decreases |order|
  {
    if order == [] {
      assert Elements(order) == {};
      assert Candidates(kb, h, {}) == {};
      UnionEmpty(seen, Candidates(kb, h, Elements(order)));
    } else {
      FireKeysStep(kb, h, tv, order, seen, combined, found);
      var es := Expressions(kb, order[0]);
      var first := FireExpressions(kb, h, tv, es, combined, found).value;
      FireKeysAbsorbs(kb, h, tv, order[1..], seen + RulesBelow(kb, h, es), first.combined, first.found);
      var r := FireKeys(kb, h, tv, order[1..], first.combined, first.found).value;
      CandidatesCons(kb, h, order);
      var all := seen + Candidates(kb, h, Elements(order));
      UnionStep(seen, RulesBelow(kb, h, es), Candidates(kb, h, Elements(order[1..])), Candidates(kb, h, Elements(order)));
      assert Absorbed(kb, h, tv, all, r.combined, r.found);
    }
  }

  /** Before the outer loop, no rule has been evaluated. */
  lemma AbsorbedNothing(kb: KnowledgeBase, h: map<ExprId, nat>, tv: Assignment)
    requires Valid(kb, h)
    ensures Absorbed(kb, h, tv, {}, tv, false)
  {
    assert Fired(kb, h, {}, tv) == {};
    SameAssignment(WriteTrue(tv, {}), tv);
  }

  /** A pass visiting the keys of `tv` in any order raises exactly when the
      pass of the `Entailment` module does. */
  lemma RunPassRaises(kb: KnowledgeBase, h: map<ExprId, nat>, tv: Assignment, order: seq<PredId>)
    requires Valid(kb, h) && Elements(order) == tv.Keys
    ensures RunPass(kb, h, tv, order).None? <==> Pass(kb, h, tv).None?
  {
    FireKeysRaises(kb, h, tv, order, tv, false);
    var cands := Candidates(kb, h, tv.Keys);
    assert (exists p :: p in order && p !in kb.labels) <==> UnknownKey(kb, tv);
    assert (exists i :: i in cands && !Returns(kb, h, tv, i)) <==> FailingCandidate(kb, h, tv);
  }

  /** A state that has absorbed every candidate rule is the pass's result. */
  lemma AbsorbedAll(kb: KnowledgeBase, h: map<ExprId, nat>, tv: Assignment, combined: Assignment, found: bool)
    requires Valid(kb, h) && Pass(kb, h, tv).Some?
    requires Absorbed(kb, h, tv, Candidates(kb, h, tv.Keys), combined, found)
    ensures combined == Pass(kb, h, tv).value
    ensures found <==> combined.Keys != tv.Keys
  {
    WriteTrueGrows(tv, Fired(kb, h, Candidates(kb, h, tv.Keys), tv));
  }

  /** A pass visiting the keys of `tv` in any order computes the assignment
      of the `Entailment` module's pass, and `found_new` says that it added
      a key. */
  lemma RunPassIsPass(kb: KnowledgeBase, h: map<ExprId, nat>, tv: Assignment, order: seq<PredId>)
    requires Valid(kb, h) && Elements(order) == tv.Keys
    ensures RunPass(kb, h, tv, order).None? <==> Pass(kb, h, tv).None?
    ensures RunPass(kb, h, tv, order).Some? ==>
              RunPass(kb, h, tv, order).value == PassState(Pass(kb, h, tv).value, Pass(kb, h, tv).value.Keys != tv.Keys)
  {
    RunPassRaises(kb, h, tv, order);
    if RunPass(kb, h, tv, order).Some? {
      var r := RunPass(kb, h, tv, order).value;
      AbsorbedNothing(kb, h, tv);
      FireKeysAbsorbs(kb, h, tv, order, {}, tv, false);
      UnionFromEmpty(Candidates(kb, h, Elements(order)));
      AbsorbedAll(kb, h, tv, r.combined, r.found);
    }
  }

  /** The keys of `tv` in the order they appear in the listing `order`. */
  function KeysInOrder(order: seq<PredId>, tv: Assignment): (r: seq<PredId>)
    ensures Elements(r) == Elements(order) * tv.Keys
    decreases |order|
  {
    if order == [] then []
    else
      ElementsCons(order);
      if order[0] in tv then [order[0]] + KeysInOrder(order[1..], tv)
      else KeysInOrder(order[1..], tv)
  }

  /** One pass of `ForwardChain`: it computes the `Entailment` pass, and when
      it finds a new key, its result still lies within the listing and has
      fewer unassigned predicates. */
  lemma RunPassInOrder(kb: KnowledgeBase, h: map<ExprId, nat>, tv: Assignment, order: seq<PredId>)
    requires Valid(kb, h) && tv.Keys + kb.labels.Keys <= Elements(order)
    ensures var r := RunPass(kb, h, tv, KeysInOrder(order, tv));
            && (r.None? <==> Pass(kb, h, tv).None?)
            && (r.Some? ==> r.value == PassState(Pass(kb, h, tv).value, Pass(kb, h, tv).value.Keys != tv.Keys))
            && (r.Some? ==> r.value.combined.Keys + kb.labels.Keys <= Elements(order))
            && (r.Some? && r.value.found ==>
                  |kb.labels.Keys - r.value.combined.Keys| < |kb.labels.Keys - tv.Keys|)
  {
    var keys := KeysInOrder(order, tv);
    assert Elements(keys) == tv.Keys;
    RunPassIsPass(kb, h, tv, keys);
    if Pass(kb, h, tv).Some? && Pass(kb, h, tv).value.Keys != tv.Keys {
      PassShrinksUnassigned(kb, h, tv);
    }
  }

  /** `entail` (models.py:180-204), each pass visiting its input's keys in
      the order of the listing `order`: a pass, and when it found a new key,
      the fixpoint of its result written over it. */
  function ForwardChain(kb: KnowledgeBase, ghost h: map<ExprId, nat>, tv: Assignment, order: seq<PredId>): (r: Option<Assignment>)
    requires Valid(kb, h) && tv.Keys + kb.labels.Keys <= Elements(order)
    decreases |kb.labels.Keys - tv.Keys|
  {
    match RunPass(kb, h, tv, KeysInOrder(order, tv))
    case None => None
    case Some(PassState(combined, found)) =>
      if !found then Some(combined)
      else
        RunPassInOrder(kb, h, tv, order);
        match ForwardChain(kb, h, combined, order)
        case None => None
        case Some(next) => Some(combined + next)
  }

  /** Whatever listing orders the keys, `entail` as written returns what
      `Entailment.Entail` returns, failure included. */
  lemma {:induction false} ForwardChainIsEntail(kb: KnowledgeBase, h: map<ExprId, nat>, tv: Assignment, order: seq<PredId>)
    requires Valid(kb, h) && tv.Keys + kb.labels.Keys <= Elements(order)
    ensures ForwardChain(kb, h, tv, order) == Entail(kb, h, tv)
    decreases |kb.labels.Keys - tv.Keys|
  {
    var keys := KeysInOrder(order, tv);
    RunPassInOrder(kb, h, tv, order);
    var pass := Pass(kb, h, tv);
    if pass.None? {
      assert ForwardChain(kb, h, tv, order) == None;
    } else if pass.value.Keys == tv.Keys {
      assert RunPass(kb, h, tv, keys) == Some(PassState(pass.value, false));
      assert ForwardChain(kb, h, tv, order) == pass;
    } else {
      var combined := pass.value;
      assert RunPass(kb, h, tv, keys) == Some(PassState(combined, true));
      ForwardChainIsEntail(kb, h, combined, order);
      var next := Entail(kb, h, combined);
      assert ForwardChain(kb, h, tv, order) == if next.None? then None else Some(combined + next.value);
    }
  }
}
