/** The `__unicode__` methods of ponens/models.py: the parenthesised prefix
    notation of expressions and the `antecedent => consequent` notation of
    rules, and the fact that a rule's rendering can be split back into the
    renderings of its two sides. */
module Rendering {
  import opened Wrappers
  import opened Knowledge
  import opened Evaluation

  /** `" ".join(ss)`. */
  function Join(ss: seq<string>): (r: string)
    ensures ss == [] ==> r == []
    ensures |ss| == 1 ==> r == ss[0]
  {
    if |ss| == 0 then []
    else if |ss| == 1 then ss[0]
    else ss[0] + " " + Join(ss[1..])
  }

  /** `Expression.__unicode__`: `(label)` for an ID expression, and
      `(OP c1 c2 ...)` with the children rendered in order otherwise. A missing
      predicate link fails, as `predicate()` raises IndexError. */
  function Render(kb: KnowledgeBase, ghost h: map<ExprId, nat>, e: ExprId): (r: Result<string, Error>)
    requires Valid(kb, h) && e in kb.operators
    decreases h[e]
  {
    match kb.operators[e]
    case Id =>
      PredicateLinked(kb, e);
      (match PredicateOf(kb, e)
       case None => Err(MissingPredicate(e))
       case Some(p) => Ok("(" + kb.labels[p] + ")"))
    case _ =>
      var cs := Children(kb, e);
      ChildrenRanked(kb, h, e);
      Wrap(kb.operators[e], seq(|cs|, i requires 0 <= i < |cs| => Render(kb, h, cs[i])))
  }

  /** The operator name and the children's renderings inside one pair of parentheses. */
  function Wrap(op: Op, rs: seq<Result<string, Error>>): (r: Result<string, Error>)
    requires op != Id
  {
    match Collect(rs)
    case Err(err) => Err(err)
    case Ok(ss) => Ok("(" + (OperatorName(op) + " " + Join(ss)) + ")")
  }

  /** `Rule.__unicode__`: the antecedent, ` => `, the consequent. */
  function RenderRule(kb: KnowledgeBase, ghost h: map<ExprId, nat>, rule: Rule): (r: Result<string, Error>)
    requires Valid(kb, h) && rule.antecedent in kb.operators && rule.consequent in kb.operators
  {
    match Render(kb, h, rule.antecedent)
    case Err(err) => Err(err)
    case Ok(a) =>
      match Render(kb, h, rule.consequent)
      case Err(err) => Err(err)
      case Ok(c) => Ok(a + " => " + c)
  }

  /** The renderings of the children of a non-ID expression, one per child in order. */
  lemma ChildRenderings(kb: KnowledgeBase, h: map<ExprId, nat>, e: ExprId)
    returns (cs: seq<ExprId>, rs: seq<Result<string, Error>>)
    requires Valid(kb, h) && e in kb.operators && kb.operators[e] != Id
    ensures cs == Children(kb, e) && |rs| == |cs|
    ensures forall i :: 0 <= i < |cs| ==> cs[i] in kb.operators && h[cs[i]] < h[e]
    ensures forall i :: 0 <= i < |cs| ==> rs[i] == Render(kb, h, cs[i])
    ensures Render(kb, h, e) == Wrap(kb.operators[e], rs)
  {
    cs := Children(kb, e);
    ChildrenRanked(kb, h, e);
    rs := seq(|cs|, i requires 0 <= i < |cs| => Render(kb, h, cs[i]));
  }

  /** An ID expression renders as its predicate's label in parentheses. */
  lemma RenderIdentity(kb: KnowledgeBase, h: map<ExprId, nat>, e: ExprId, p: PredId, name: string)
    requires Valid(kb, h) && e in kb.operators && kb.operators[e] == Id
    requires PredicateOf(kb, e) == Some(p) && p in kb.labels && kb.labels[p] == name
    ensures Render(kb, h, e) == Ok("(" + name + ")")
  {
    PredicateLinked(kb, e);
  }

  /** Any other expression renders as its operator name and its children's
      renderings, separated by single spaces, in parentheses. */
  lemma RenderOperator(kb: KnowledgeBase, h: map<ExprId, nat>, e: ExprId, cs: seq<ExprId>, ss: seq<string>)
    requires Valid(kb, h) && e in kb.operators && kb.operators[e] != Id
    requires cs == Children(kb, e) && |ss| == |cs|
    requires forall i :: 0 <= i < |cs| ==> cs[i] in kb.operators && Render(kb, h, cs[i]) == Ok(ss[i])
    ensures Render(kb, h, e) == Ok("(" + (OperatorName(kb.operators[e]) + " " + Join(ss)) + ")")
  {
    var cs', rs := ChildRenderings(kb, h, e);
    assert Collect(rs).value == ss;
  }

  /** Rendering fails only where evaluation fails: a missing predicate link
      below `e` breaks both, whatever the assignment. */
  lemma {:induction false} RenderFailsOnlyWhereEvaluateFails(kb: KnowledgeBase, h: map<ExprId, nat>, e: ExprId, tv: Assignment)
    requires Valid(kb, h) && e in kb.operators
    requires Render(kb, h, e).Err?
    ensures Evaluate(kb, h, e, tv).Err?
    decreases h[e]
  {
    if kb.operators[e] != Id {
      var cs, rs := ChildRenderings(kb, h, e);
      var _, vs := ChildResults(kb, h, e, tv);
      var i :| 0 <= i < |rs| && rs[i] == Err(Collect(rs).error);
      RenderFailsOnlyWhereEvaluateFails(kb, h, cs[i], tv);
      assert vs[i].Err?;
    }
  }

  /** In a well-formed knowledge base every expression renders. */
  lemma {:induction false} RenderWellFormed(kb: KnowledgeBase, h: map<ExprId, nat>, e: ExprId)
    requires Valid(kb, h) && WellFormed(kb) && e in kb.operators
    ensures Render(kb, h, e).Ok?
    decreases h[e]
  {
    if kb.operators[e] != Id {
      var cs, rs := ChildRenderings(kb, h, e);
      forall i | 0 <= i < |cs|
        ensures rs[i].Ok?
      {
        RenderWellFormed(kb, h, cs[i]);
      }
    }
  }

  // Parenthesis structure of renderings.

  function Delta(c: char): (d: int)
    ensures -1 <= d <= 1
  {
    if c == '(' then 1 else if c == ')' then -1 else 0
  }

  /** Opening minus closing parentheses in `s`. */
  function Depth(s: string): (d: int)
  {
    if s == [] then 0 else Depth(s[..|s| - 1]) + Delta(s[|s| - 1])
  }

  ghost predicate ParenFree(s: string)
  {
    forall i :: 0 <= i < |s| ==> s[i] != '(' && s[i] != ')'
  }

  /** No prefix of `s` closes more parentheses than it opens. */
  ghost predicate NonNegative(s: string)
  {
    forall k :: 0 <= k <= |s| ==> Depth(s[..k]) >= 0
  }

  /** `s` is one parenthesised group: it opens at its first character and
      returns to depth zero only at its end. */
  ghost predicate Group(s: string)
  {
    && |s| >= 2 && s[0] == '(' && Depth(s) == 0
    && forall k :: 0 < k < |s| ==> Depth(s[..k]) > 0
  }

  /** Labels and free-form operator names carry no parentheses. */
  ghost predicate PlainNames(kb: KnowledgeBase)
  {
    && (forall p :: p in kb.labels ==> ParenFree(kb.labels[p]))
    && (forall e :: e in kb.operators && kb.operators[e].Other? ==> ParenFree(kb.operators[e].name))
  }

  lemma {:induction false} DepthAppend(a: string, b: string)
    ensures Depth(a + b) == Depth(a) + Depth(b)
    decreases |b|
  {
    if b != [] {
      var b' := b[..|b| - 1];
      assert (a + b)[..|a + b| - 1] == a + b';
      assert (a + b)[|a + b| - 1] == b[|b| - 1];
      DepthAppend(a, b');
      assert Depth(a + b) == Depth(a + b') + Delta(b[|b| - 1]);
      assert Depth(b) == Depth(b') + Delta(b[|b| - 1]);
    } else {
      assert a + b == a;
    }
  }

  lemma {:induction false} ParenFreeFlat(s: string)
    requires ParenFree(s)
    ensures Depth(s) == 0
    decreases |s|
  {
    if s != [] {
      ParenFreeFlat(s[..|s| - 1]);
    }
  }

  lemma ParenFreeNonNegative(s: string)
    requires ParenFree(s)
    ensures NonNegative(s) && Depth(s) == 0
  {
    forall k | 0 <= k <= |s|
      ensures Depth(s[..k]) == 0
    {
      ParenFreeFlat(s[..k]);
    }
    assert s[..|s|] == s;
  }

  /** Concatenation keeps prefixes non-negative and adds depths. */
  lemma NonNegativeAppend(a: string, b: string)
    requires NonNegative(a) && NonNegative(b)
    ensures NonNegative(a + b) && Depth(a + b) == Depth(a) + Depth(b)
  {
    DepthAppend(a, b);
    assert a[..|a|] == a;
    forall k | 0 <= k <= |a + b|
      ensures Depth((a + b)[..k]) >= 0
    {
      if k <= |a| {
        assert (a + b)[..k] == a[..k];
      } else {
        assert (a + b)[..k] == a + b[..k - |a|];
        DepthAppend(a, b[..k - |a|]);
      }
    }
  }

  lemma GroupNonNegative(g: string)
    requires Group(g)
    ensures NonNegative(g)
  {
    assert g[..|g|] == g;
  }

  /** Parentheses around a balanced string make one group. */
  lemma Parenthesize(inner: string)
    requires NonNegative(inner) && Depth(inner) == 0
    ensures Group("(" + inner + ")")
  {
    var s := "(" + inner + ")";
    assert s[..|s| - 1] == "(" + inner;
    DepthAppend("(", inner);
    forall k | 0 < k < |s|
      ensures Depth(s[..k]) > 0
    {
      assert s[..k] == "(" + inner[..k - 1];
      DepthAppend("(", inner[..k - 1]);
    }
  }

  /** Groups separated by spaces are balanced. */
  lemma {:induction false} JoinGroups(ss: seq<string>)
    requires forall i :: 0 <= i < |ss| ==> Group(ss[i])
    ensures NonNegative(Join(ss)) && Depth(Join(ss)) == 0
    decreases |ss|
  {
    if |ss| == 0 {
      assert Join(ss) == [];
    } else if |ss| == 1 {
      GroupNonNegative(ss[0]);
    } else {
      GroupNonNegative(ss[0]);
      ParenFreeNonNegative(" ");
      NonNegativeAppend(ss[0], " ");
      JoinGroups(ss[1..]);
      NonNegativeAppend(ss[0] + " ", Join(ss[1..]));
    }
  }

  /** A name followed by a space stays free of parentheses. */
  lemma ParenFreeSpaced(name: string)
    requires ParenFree(name)
    ensures ParenFree(name + " ")
  {
    var head := name + " ";
    forall i | 0 <= i < |head|
      ensures head[i] != '(' && head[i] != ')'
    {
      if i < |name| {
        assert head[i] == name[i];
      }
    }
  }

  /** An operator name and a run of groups, parenthesised, make one group. */
  lemma WrapIsGroup(name: string, ss: seq<string>)
    requires ParenFree(name)
    requires forall i :: 0 <= i < |ss| ==> Group(ss[i])
    ensures Group("(" + (name + " " + Join(ss)) + ")")
  {
    var head := name + " ";
    var body := Join(ss);
    ParenFreeSpaced(name);
    ParenFreeNonNegative(head);
    JoinGroups(ss);
    NonNegativeAppend(head, body);
    Parenthesize(head + body);
  }

  /** With plain labels and operator names, every rendering is one group. */
  lemma {:induction false} RenderIsGroup(kb: KnowledgeBase, h: map<ExprId, nat>, e: ExprId)
    requires Valid(kb, h) && PlainNames(kb) && e in kb.operators
    requires Render(kb, h, e).Ok?
    ensures Group(Render(kb, h, e).value)
    decreases h[e]
  {
    if kb.operators[e] == Id {
      var p := PredicateOf(kb, e).value;
      PredicateLinked(kb, e);
      ParenFreeNonNegative(kb.labels[p]);
      Parenthesize(kb.labels[p]);
    } else {
      var cs, rs := ChildRenderings(kb, h, e);
      var ss := Collect(rs).value;
      forall i | 0 <= i < |ss|
        ensures Group(ss[i])
      {
        RenderIsGroup(kb, h, cs[i]);
      }
      WrapIsGroup(OperatorName(kb.operators[e]), ss);
    }
  }

  /** The first `j >= k` at which the prefix of `s` is back at depth zero. */
  function FirstBalanced(s: string, k: nat): (r: Option<nat>)
    ensures r.Some? ==> k <= r.value <= |s| && Depth(s[..r.value]) == 0
    ensures r.Some? ==> forall j :: k <= j < r.value ==> Depth(s[..j]) != 0
    ensures r.None? ==> forall j :: k <= j <= |s| ==> Depth(s[..j]) != 0
    decreases |s| + 1 - k
  {
    if k > |s| then None
    else if Depth(s[..k]) == 0 then Some(k)
    else FirstBalanced(s, k + 1)
  }

  /** Reads a rule's rendering back: the first group is the antecedent, and
      after ` => ` the rest is the consequent. */
  function SplitRule(s: string): (r: Option<(string, string)>)
    ensures r.Some? ==> s == r.value.0 + " => " + r.value.1
  {
    match FirstBalanced(s, 1)
    case None => None
    case Some(k) =>
      if k + 4 <= |s| && s[k..k + 4] == " => " then
        assert s == s[..k] + s[k..k + 4] + s[k + 4..] by {
          assert s[..k + 4] == s[..k] + s[k..k + 4];
          assert s == s[..k + 4] + s[k + 4..];
        }
        Some((s[..k], s[k + 4..]))
      else None
  }

  /** The first balanced prefix of a group followed by anything is that group. */
  lemma FirstBalancedOfGroup(g: string, t: string)
    requires Group(g)
    ensures FirstBalanced(g + t, 1) == Some(|g|)
  {
    var s := g + t;
    assert s[..|g|] == g;
    assert forall j :: 0 < j < |g| ==> s[..j] == g[..j];
  }

  /** Splitting `a => c` after the group `a` recovers `a` and `c`. */
  lemma SplitJoined(a: string, c: string)
    requires Group(a)
    ensures SplitRule(a + " => " + c) == Some((a, c))
  {
    var s := a + " => " + c;
    assert s == a + (" => " + c);
    FirstBalancedOfGroup(a, " => " + c);
    assert s[|a|..|a| + 4] == " => ";
    assert s[..|a|] == a && s[|a| + 4..] == c;
  }

  /** Splitting a rendered rule recovers the renderings of both sides. */
  lemma RuleRoundTrip(kb: KnowledgeBase, h: map<ExprId, nat>, rule: Rule)
    requires Valid(kb, h) && PlainNames(kb)
    requires rule.antecedent in kb.operators && rule.consequent in kb.operators
    requires RenderRule(kb, h, rule).Ok?
    ensures SplitRule(RenderRule(kb, h, rule).value)
         == Some((Render(kb, h, rule.antecedent).value, Render(kb, h, rule.consequent).value))
  {
    var a := Render(kb, h, rule.antecedent).value;
    var c := Render(kb, h, rule.consequent).value;
    RenderIsGroup(kb, h, rule.antecedent);
    assert RenderRule(kb, h, rule).value == a + " => " + c;
    SplitJoined(a, c);
  }
}
