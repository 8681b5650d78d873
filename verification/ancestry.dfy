/** Upward lookups through the ExpressionChild relation: `all_parents` and
    `all_antecedent_rules` of ponens/models.py, and their meaning as sets. */
module Ancestry {
  import opened Knowledge

  /** `path` climbs the ExpressionChild relation one edge at a time, from a
      child at `path[0]` to an ancestor at the end. */
  ghost predicate IsUpPath(kb: KnowledgeBase, path: seq<ExprId>)
  {
    forall i :: 0 <= i < |path| - 1 ==> Edge(path[i + 1], path[i]) in kb.edges
  }

  /** Reference definition: `a` contains `x` as a strict sub-expression. */
  ghost predicate Above(kb: KnowledgeBase, a: ExprId, x: ExprId)
  {
    exists path :: |path| >= 2 && path[0] == x && path[|path| - 1] == a && IsUpPath(kb, path)
  }

  lemma AboveByEdge(kb: KnowledgeBase, p: ExprId, c: ExprId)
    requires Edge(p, c) in kb.edges
    ensures Above(kb, p, c)
  {
    assert IsUpPath(kb, [c, p]);
  }

  /** An ancestor of a parent of `x` is an ancestor of `x`. */
  lemma AboveFromChild(kb: KnowledgeBase, a: ExprId, p: ExprId, x: ExprId)
    requires Edge(p, x) in kb.edges
    requires Above(kb, a, p)
    ensures Above(kb, a, x)
  {
    var path :| |path| >= 2 && path[0] == p && path[|path| - 1] == a && IsUpPath(kb, path);
    var longer := [x] + path;
    assert IsUpPath(kb, longer) by {
      forall i | 0 <= i < |longer| - 1
        ensures Edge(longer[i + 1], longer[i]) in kb.edges
      {
        if i > 0 {
          assert longer[i + 1] == path[i] && longer[i] == path[i - 1];
        }
      }
    }
  }

  lemma AboveTransitive(kb: KnowledgeBase, a: ExprId, b: ExprId, x: ExprId)
    requires Above(kb, a, b) && Above(kb, b, x)
    ensures Above(kb, a, x)
  {
    var p1 :| |p1| >= 2 && p1[0] == x && p1[|p1| - 1] == b && IsUpPath(kb, p1);
    var p2 :| |p2| >= 2 && p2[0] == b && p2[|p2| - 1] == a && IsUpPath(kb, p2);
    var path := p1 + p2[1..];
    assert IsUpPath(kb, path) by {
      forall i | 0 <= i < |path| - 1
        ensures Edge(path[i + 1], path[i]) in kb.edges
      {
        if i < |p1| - 1 {
          assert path[i + 1] == p1[i + 1] && path[i] == p1[i];
        } else {
          var j := i - (|p1| - 1);
          assert path[i + 1] == p2[j + 1] && path[i] == p2[j];
        }
      }
    }
  }

  /** `Expression.all_parents`: the direct parents, then every parent's own
      `all_parents`, concatenated with repetitions. */
  function AllParents(kb: KnowledgeBase, ghost h: map<ExprId, nat>, e: ExprId): (r: seq<ExprId>)
    requires Valid(kb, h) && e in kb.operators
    ensures forall a :: a in r ==> a in kb.operators && h[e] < h[a]
    decreases |kb.operators| - h[e], 1
  {
    var ps := Parents(kb, e);
    ParentsInMembers(kb.edges, e);
    ps + AllParentsOfEach(kb, h, ps, h[e])
  }

  /** The concatenation of `AllParents(p)` over `ps`, in order. */
  function AllParentsOfEach(kb: KnowledgeBase, ghost h: map<ExprId, nat>, ps: seq<ExprId>, ghost floor: nat): (r: seq<ExprId>)
    requires Valid(kb, h)
    requires forall p :: p in ps ==> p in kb.operators && floor < h[p]
    ensures forall a :: a in r ==> a in kb.operators && floor < h[a]
    ensures forall a :: a in r <==> exists j :: 0 <= j < |ps| && a in AllParents(kb, h, ps[j])
    decreases |kb.operators| - floor, 0, |ps|
  {
    if ps == [] then []
    else
      var r := AllParents(kb, h, ps[0]) + AllParentsOfEach(kb, h, ps[1..], floor);
      assert forall j :: 1 <= j < |ps| ==> ps[j] == ps[1..][j - 1];
      r
  }

  /** `Expression.all_antecedent_rules`: the rules directly on `e`, then every
      ancestor's own `all_antecedent_rules`, concatenated with repetitions. */
  function AllAntecedentRules(kb: KnowledgeBase, ghost h: map<ExprId, nat>, e: ExprId): (r: seq<RuleId>)
    requires Valid(kb, h) && e in kb.operators
    ensures forall i :: i in r ==> i < |kb.rules|
    decreases |kb.operators| - h[e], 1
  {
    RulesWithAntecedentFromMembers(kb.rules, e, 0);
    AntecedentRules(kb, e) + AllAntecedentRulesOfEach(kb, h, AllParents(kb, h, e), h[e])
  }

  /** The concatenation of `AllAntecedentRules(p)` over `ps`, in order. */
  function AllAntecedentRulesOfEach(kb: KnowledgeBase, ghost h: map<ExprId, nat>, ps: seq<ExprId>, ghost floor: nat): (r: seq<RuleId>)
    requires Valid(kb, h)
    requires forall p :: p in ps ==> p in kb.operators && floor < h[p]
    ensures forall i :: i in r ==> i < |kb.rules|
    ensures forall i :: i in r <==> exists j :: 0 <= j < |ps| && i in AllAntecedentRules(kb, h, ps[j])
    decreases |kb.operators| - floor, 0, |ps|
  {
    if ps == [] then []
    else
      var r := AllAntecedentRules(kb, h, ps[0]) + AllAntecedentRulesOfEach(kb, h, ps[1..], floor);
      assert forall j :: 1 <= j < |ps| ==> ps[j] == ps[1..][j - 1];
      r
  }

  /** Climbing an edge raises the rank, so an ancestor outranks its descendant. */
  lemma {:induction false} AboveRaisesRank(kb: KnowledgeBase, h: map<ExprId, nat>, path: seq<ExprId>)
    requires Valid(kb, h) && |path| >= 2 && IsUpPath(kb, path)
    ensures path[0] in kb.operators && path[|path| - 1] in kb.operators
    ensures h[path[0]] < h[path[|path| - 1]]
    decreases |path|
  {
    assert Edge(path[1], path[0]) in kb.edges;
    if |path| > 2 {
      var rest := path[1..];
      assert IsUpPath(kb, rest) by {
        forall i | 0 <= i < |rest| - 1
          ensures Edge(rest[i + 1], rest[i]) in kb.edges
        {
          assert Edge(path[i + 2], path[i + 1]) in kb.edges;
        }
      }
      AboveRaisesRank(kb, h, rest);
    }
  }

  /** An ancestor outranks what it contains, so in a valid knowledge base no
      expression contains itself and `all_parents` cannot loop. */
  lemma AboveRanked(kb: KnowledgeBase, h: map<ExprId, nat>, a: ExprId, x: ExprId)
    requires Valid(kb, h) && Above(kb, a, x)
    ensures a in kb.operators && x in kb.operators && h[x] < h[a]
    ensures a != x && !Above(kb, x, a)
  {
    var path :| |path| >= 2 && path[0] == x && path[|path| - 1] == a && IsUpPath(kb, path);
    AboveRaisesRank(kb, h, path);
    if Above(kb, x, a) {
      var back :| |back| >= 2 && back[0] == a && back[|back| - 1] == x && IsUpPath(kb, back);
      AboveRaisesRank(kb, h, back);
    }
  }

  /** Every element of `all_parents(e)` is a strict ancestor of `e`. */
  lemma {:induction false} AllParentsSound(kb: KnowledgeBase, h: map<ExprId, nat>, e: ExprId, a: ExprId)
    requires Valid(kb, h) && e in kb.operators
    requires a in AllParents(kb, h, e)
    ensures Above(kb, a, e)
    decreases |kb.operators| - h[e]
  {
    var ps := Parents(kb, e);
    ParentsInMembers(kb.edges, e);
    if a in ps {
      AboveByEdge(kb, a, e);
    } else {
      assert a in AllParentsOfEach(kb, h, ps, h[e]);
      var j :| 0 <= j < |ps| && a in AllParents(kb, h, ps[j]);
      AllParentsSound(kb, h, ps[j], a);
      AboveFromChild(kb, a, ps[j], e);
    }
  }

  /** Every strict ancestor reached along `path` appears in `all_parents`. */
  lemma {:induction false} AllParentsComplete(kb: KnowledgeBase, h: map<ExprId, nat>, path: seq<ExprId>)
    requires Valid(kb, h) && |path| >= 2 && IsUpPath(kb, path)
    requires path[0] in kb.operators
    ensures path[|path| - 1] in AllParents(kb, h, path[0])
    decreases |path|
  {
    var e := path[0];
    var p := path[1];
    assert Edge(p, e) in kb.edges;
    var ps := Parents(kb, e);
    ParentsInMembers(kb.edges, e);
    assert p in ps;
    if |path| > 2 {
      var rest := path[1..];
      assert IsUpPath(kb, rest) by {
        forall i | 0 <= i < |rest| - 1
          ensures Edge(rest[i + 1], rest[i]) in kb.edges
        {
          assert Edge(path[i + 2], path[i + 1]) in kb.edges;
        }
      }
      AllParentsComplete(kb, h, rest);
      var j :| 0 <= j < |ps| && ps[j] == p;
      assert path[|path| - 1] in AllParentsOfEach(kb, h, ps, h[e]);
    }
  }

  /** `all_parents(e)`, read as a set, is exactly the set of strict ancestors of `e`. */
  lemma AllParentsExact(kb: KnowledgeBase, h: map<ExprId, nat>, e: ExprId, a: ExprId)
    requires Valid(kb, h) && e in kb.operators
    ensures a in AllParents(kb, h, e) <==> Above(kb, a, e)
  {
    if a in AllParents(kb, h, e) {
      AllParentsSound(kb, h, e, a);
    }
    if Above(kb, a, e) {
      var path :| |path| >= 2 && path[0] == e && path[|path| - 1] == a && IsUpPath(kb, path);
      AllParentsComplete(kb, h, path);
    }
  }

  /** Every rule of `all_antecedent_rules(e)` has `e` or a strict ancestor of
      `e` as its antecedent. */
  lemma {:induction false} AllAntecedentRulesSound(kb: KnowledgeBase, h: map<ExprId, nat>, e: ExprId, i: RuleId)
    requires Valid(kb, h) && e in kb.operators
    requires i in AllAntecedentRules(kb, h, e)
    ensures i < |kb.rules| && (kb.rules[i].antecedent == e || Above(kb, kb.rules[i].antecedent, e))
    decreases |kb.operators| - h[e]
  {
    var ps := AllParents(kb, h, e);
    RulesWithAntecedentFromMembers(kb.rules, e, 0);
    if i !in AntecedentRules(kb, e) {
      assert i in AllAntecedentRulesOfEach(kb, h, ps, h[e]);
      var j :| 0 <= j < |ps| && i in AllAntecedentRules(kb, h, ps[j]);
      AllAntecedentRulesSound(kb, h, ps[j], i);
      AllParentsSound(kb, h, e, ps[j]);
      if kb.rules[i].antecedent != ps[j] {
        AboveTransitive(kb, kb.rules[i].antecedent, ps[j], e);
      }
    }
  }

  /** Every rule whose antecedent is `e` or a strict ancestor of `e` is in
      `all_antecedent_rules(e)`. */
  lemma AllAntecedentRulesComplete(kb: KnowledgeBase, h: map<ExprId, nat>, e: ExprId, i: RuleId)
    requires Valid(kb, h) && e in kb.operators
    requires i < |kb.rules| && (kb.rules[i].antecedent == e || Above(kb, kb.rules[i].antecedent, e))
    ensures i in AllAntecedentRules(kb, h, e)
  {
    var ps := AllParents(kb, h, e);
    var a := kb.rules[i].antecedent;
    RulesWithAntecedentFromMembers(kb.rules, e, 0);
    if a != e {
      AllParentsExact(kb, h, e, a);
      var j :| 0 <= j < |ps| && ps[j] == a;
      RulesWithAntecedentFromMembers(kb.rules, a, 0);
      assert i in AntecedentRules(kb, a);
      assert i in AllAntecedentRules(kb, h, ps[j]);
      assert i in AllAntecedentRulesOfEach(kb, h, ps, h[e]);
    }
  }

  /** `all_antecedent_rules(e)`, read as a set, is exactly the set of rules whose
      antecedent is `e` or one of its strict ancestors. */
  lemma AllAntecedentRulesExact(kb: KnowledgeBase, h: map<ExprId, nat>, e: ExprId, i: RuleId)
    requires Valid(kb, h) && e in kb.operators
    ensures i in AllAntecedentRules(kb, h, e) <==>
      i < |kb.rules| && (kb.rules[i].antecedent == e || Above(kb, kb.rules[i].antecedent, e))
  {
    if i in AllAntecedentRules(kb, h, e) {
      AllAntecedentRulesSound(kb, h, e, i);
    }
    if i < |kb.rules| && (kb.rules[i].antecedent == e || Above(kb, kb.rules[i].antecedent, e)) {
      AllAntecedentRulesComplete(kb, h, e, i);
    }
  }
}
