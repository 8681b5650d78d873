/** The three-valued truth scheme of ponens/models.py: an expression evaluates
    to True, False, or None (unknown). */
module Truth {
  import opened Wrappers

  /** `Known(b)` is Python's True/False; `Unknown` is Python's None. */
  datatype Tri = Known(value: bool) | Unknown

  /** Kleene's strong conjunction of two values: false dominates, then unknown. */
  function And3(a: Tri, b: Tri): Tri
  {
    if a == Known(false) || b == Known(false) then Known(false)
    else if a == Unknown || b == Unknown then Unknown
    else Known(true)
  }

  /** Kleene's strong disjunction of two values: true dominates, then unknown. */
  function Or3(a: Tri, b: Tri): Tri
  {
    if a == Known(true) || b == Known(true) then Known(true)
    else if a == Unknown || b == Unknown then Unknown
    else Known(false)
  }

  /** Left fold of `And3`, the reference meaning of an n-ary conjunction. */
  function FoldAnd(ts: seq<Tri>): Tri
    requires |ts| > 0
  {
    if |ts| == 1 then ts[0] else And3(FoldAnd(ts[..|ts| - 1]), ts[|ts| - 1])
  }

  /** Left fold of `Or3`, the reference meaning of an n-ary disjunction. */
  function FoldOr(ts: seq<Tri>): Tri
    requires |ts| > 0
  {
    if |ts| == 1 then ts[0] else Or3(FoldOr(ts[..|ts| - 1]), ts[|ts| - 1])
  }

  /** The AND branch of `Expression.evaluate` applied to the evaluated children:
      a False child decides, then an unknown child, and otherwise `reduce`
      over the (all True) list; `reduce` of an empty list raises, which is `None`. */
  function Conjunction(ts: seq<Tri>): (r: Option<Tri>)
    ensures r.None? <==> |ts| == 0
    ensures r == Some(Known(false)) <==> exists i :: 0 <= i < |ts| && ts[i] == Known(false)
    ensures r == Some(Unknown) <==>
      && (forall i :: 0 <= i < |ts| ==> ts[i] != Known(false))
      && (exists i :: 0 <= i < |ts| && ts[i] == Unknown)
    ensures r == Some(Known(true)) <==> |ts| > 0 && forall i :: 0 <= i < |ts| ==> ts[i] == Known(true)
  {
    if Known(false) in ts then Some(Known(false))
    else if Unknown in ts then Some(Unknown)
    else if |ts| == 0 then None
    else
      assert forall i :: 0 <= i < |ts| ==> ts[i] != Known(false) && ts[i] != Unknown;
      Some(Known(true))
  }

  /** The OR branch of `Expression.evaluate`: a True child decides, then an
      unknown child; an empty list trips the assertion, which is `None`. */
  function Disjunction(ts: seq<Tri>): (r: Option<Tri>)
    ensures r.None? <==> |ts| == 0
    ensures r == Some(Known(true)) <==> exists i :: 0 <= i < |ts| && ts[i] == Known(true)
    ensures r == Some(Unknown) <==>
      && (forall i :: 0 <= i < |ts| ==> ts[i] != Known(true))
      && (exists i :: 0 <= i < |ts| && ts[i] == Unknown)
    ensures r == Some(Known(false)) <==> |ts| > 0 && forall i :: 0 <= i < |ts| ==> ts[i] == Known(false)
  {
    if Known(true) in ts then Some(Known(true))
    else if Unknown in ts then Some(Unknown)
    else if |ts| == 0 then None
    else
      assert forall i :: 0 <= i < |ts| ==> ts[i] != Known(true) && ts[i] != Unknown;
      Some(Known(false))
  }

  /** The NOT branch of `Expression.evaluate` on the value of the first child. */
  function Negation(t: Tri): (r: Tri)
    ensures r == Unknown <==> t == Unknown
    ensures t.Known? ==> r.Known? && r.value != t.value
  {
    match t
    case Unknown => Unknown
    case Known(b) => Known(!b)
  }

  function NegateAll(ts: seq<Tri>): (r: seq<Tri>)
    ensures |r| == |ts|
    ensures forall i :: 0 <= i < |ts| ==> r[i] == Negation(ts[i])
  {
    seq(|ts|, i requires 0 <= i < |ts| => Negation(ts[i]))
  }

  /** The AND branch computes Kleene's n-ary conjunction on every non-empty list. */
  lemma {:induction false} ConjunctionIsKleene(ts: seq<Tri>)
    requires |ts| > 0
    ensures Conjunction(ts) == Some(FoldAnd(ts))
  {
    if |ts| > 1 {
      var init := ts[..|ts| - 1];
      ConjunctionIsKleene(init);
      assert forall i :: 0 <= i < |init| ==> init[i] == ts[i];
      assert ts == init + [ts[|ts| - 1]];
    }
  }

  /** The OR branch computes Kleene's n-ary disjunction on every non-empty list. */
  lemma {:induction false} DisjunctionIsKleene(ts: seq<Tri>)
    requires |ts| > 0
    ensures Disjunction(ts) == Some(FoldOr(ts))
  {
    if |ts| > 1 {
      var init := ts[..|ts| - 1];
      DisjunctionIsKleene(init);
      assert forall i :: 0 <= i < |init| ==> init[i] == ts[i];
      assert ts == init + [ts[|ts| - 1]];
    }
  }

  /** De Morgan: negating an AND is the OR of the negated children. */
  lemma DeMorgan(ts: seq<Tri>)
    requires |ts| > 0
    ensures Disjunction(NegateAll(ts)) == Some(Negation(Conjunction(ts).value))
  {
  }

  /** NOT is an involution on all three values. */
  lemma NegationInvolutive(t: Tri)
    ensures Negation(Negation(t)) == t
  {
  }

  /** `ts'` is `ts` with possibly some unknown entries now known. */
  ghost predicate Sharpens(ts': seq<Tri>, ts: seq<Tri>)
  {
    |ts'| == |ts| && forall i :: 0 <= i < |ts| && ts[i].Known? ==> ts'[i] == ts[i]
  }

  /** A known AND or OR stays the same when unknown operands become known. */
  lemma JunctionsMonotone(ts: seq<Tri>, ts': seq<Tri>)
    requires Sharpens(ts', ts)
    ensures Conjunction(ts).Some? && Conjunction(ts).value.Known? ==> Conjunction(ts') == Conjunction(ts)
    ensures Disjunction(ts).Some? && Disjunction(ts).value.Known? ==> Disjunction(ts') == Disjunction(ts)
  {
    if Conjunction(ts) == Some(Known(false)) {
      var i :| 0 <= i < |ts| && ts[i] == Known(false);
      assert ts'[i] == Known(false);
    }
    if Disjunction(ts) == Some(Known(true)) {
      var i :| 0 <= i < |ts| && ts[i] == Known(true);
      assert ts'[i] == Known(true);
    }
  }
}
