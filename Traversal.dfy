/** `Traverse(container, func)` of the Hubris ownership library: ranges (other
    than std::string) are walked element by element, recursively, and `func`
    is applied to every non-range leaf. `Shared::Release` uses it to destroy a
    payload leaf by leaf. */
module Traversal {

  /** A payload as Traverse sees it: a leaf object (any non-range type, and
      std::string) or a range of nested elements. Each leaf carries an id that
      names the object it stands for. */
  datatype Value = Leaf(id: nat) | Range(elems: seq<Value>)

  /** The leaves `func` is applied to, in the order Traverse reaches them. */
  function Traverse(v: Value): seq<nat>
    decreases v
  {
    match v
    case Leaf(id) => [id]
    case Range(es) => TraverseAll(es)
  }

  /** The range-based for loop over the elements of one range. */
  function TraverseAll(es: seq<Value>): seq<nat>
    decreases es
  {
    if es == [] then [] else Traverse(es[0]) + TraverseAll(es[1..])
  }

  /** Leaf x occurs somewhere inside v: the independent reference for what
      Traverse must visit. */
  ghost predicate Contains(v: Value, x: nat)
    decreases v
  {
    match v
    case Leaf(id) => id == x
    case Range(es) => exists i :: 0 <= i < |es| && Contains(es[i], x)
  }

  /** No leaf id occurs twice: every leaf stands for a distinct object. */
  ghost predicate UniqueLeaves(v: Value)
    decreases v
  {
    match v
    case Leaf(_) => true
    case Range(es) =>
      && (forall i :: 0 <= i < |es| ==> UniqueLeaves(es[i]))
      && (forall i, j, x :: 0 <= i < j < |es| && Contains(es[i], x) ==> !Contains(es[j], x))
  }

  /** Traverse reaches exactly the leaves the value contains. */
  lemma {:induction false} TraverseVisitsLeaves(v: Value, x: nat)
    ensures x in Traverse(v) <==> Contains(v, x)
    decreases v
  {
    match v
    case Leaf(_) =>
    case Range(es) =>
      TraverseAllVisitsLeaves(es, x);
  }

  lemma {:induction false} TraverseAllVisitsLeaves(es: seq<Value>, x: nat)
    ensures x in TraverseAll(es) <==> exists i :: 0 <= i < |es| && Contains(es[i], x)
    decreases es
  {
    if es != [] {
      TraverseVisitsLeaves(es[0], x);
      TraverseAllVisitsLeaves(es[1..], x);
      if exists i :: 0 <= i < |es| && Contains(es[i], x) {
        var i :| 0 <= i < |es| && Contains(es[i], x);
        if i > 0 {
          assert es[1..][i - 1] == es[i];
        }
      }
      if exists i :: 0 <= i < |es[1..]| && Contains(es[1..][i], x) {
        var i :| 0 <= i < |es[1..]| && Contains(es[1..][i], x);
        assert es[i + 1] == es[1..][i];
      }
    }
  }

  /** With distinct leaves, Traverse applies `func` to each leaf exactly once
      and to nothing else. */
  lemma {:induction false} TraverseVisitsOnce(v: Value, x: nat)
    requires UniqueLeaves(v)
    ensures multiset(Traverse(v))[x] == if Contains(v, x) then 1 else 0
    decreases v
  {
    TraverseVisitsLeaves(v, x);
    match v
    case Leaf(_) =>
    case Range(es) =>
      TraverseAllVisitsOnce(es, x);
  }

  lemma {:induction false} TraverseAllVisitsOnce(es: seq<Value>, x: nat)
    requires forall i :: 0 <= i < |es| ==> UniqueLeaves(es[i])
    requires forall i, j, y :: 0 <= i < j < |es| && Contains(es[i], y) ==> !Contains(es[j], y)
    ensures multiset(TraverseAll(es))[x] <= 1
    decreases es
  {
    if es != [] {
      var rest := es[1..];
      assert forall i :: 0 <= i < |rest| ==> rest[i] == es[i + 1];
      TraverseVisitsOnce(es[0], x);
      TraverseAllVisitsOnce(rest, x);
      TraverseAllVisitsLeaves(rest, x);
      assert multiset(TraverseAll(es)) == multiset(Traverse(es[0])) + multiset(TraverseAll(rest));
    }
  }
}
