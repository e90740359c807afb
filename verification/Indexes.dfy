/**
 The builder's index stores as values: for every kind and value, the recorded nodes in the order they were
 recorded. Popping the last one is the backward search of the specification.
 */
module Indexes {
  import opened Outcomes
  import opened Documents
  import opened Rewriting
  import opened Diffs
  import opened Stores

  /** The nodes whose entries match. */
  function Pick<T>(nodes: seq<T>, es: seq<Entry>, kind: Kind, v: Json): seq<T>
    requires |nodes| == |es|
  {
    if es == [] then []
    else
      var n := |es| - 1;
      Pick(nodes[..n], es[..n], kind, v) + (if Matches(es[n], kind, v) then [nodes[n]] else [])
  }

  predicate OfKind(e: Entry, kind: Kind) {
    if kind == Adding then e.op.Add? else e.op.Remove?
  }

  /** The nodes of a kind whose values cannot be hashed, each with its value. */
  function PickListed<T>(nodes: seq<T>, es: seq<Entry>, kind: Kind): seq<(Json, T)>
    requires |nodes| == |es|
  {
    if es == [] then []
    else
      var n := |es| - 1;
      PickListed(nodes[..n], es[..n], kind)
      + (if OfKind(es[n], kind) && !es[n].item.Num? then [(es[n].item, nodes[n])] else [])
  }

  /** The last position of a stored value, searching from the end. */
  function LastPair<T>(pairs: seq<(Json, T)>, v: Json): (r: Option<nat>)
    ensures r.Some? ==> r.value < |pairs| && pairs[r.value].0 == v
    ensures r.Some? ==> forall i :: r.value < i < |pairs| ==> pairs[i].0 != v
    ensures r.None? ==> forall i :: 0 <= i < |pairs| ==> pairs[i].0 != v
  {
    if pairs == [] then None
    else if pairs[|pairs| - 1].0 == v then Some(|pairs| - 1)
    else LastPair(pairs[..|pairs| - 1], v)
  }

  lemma PickAppend<T>(nodes: seq<T>, es: seq<Entry>, kind: Kind, v: Json, x: T, e: Entry)
    requires |nodes| == |es|
    ensures Pick(nodes + [x], es + [e], kind, v) == Pick(nodes, es, kind, v) + (if Matches(e, kind, v) then [x] else [])
    ensures PickListed(nodes + [x], es + [e], kind)
            == PickListed(nodes, es, kind) + (if OfKind(e, kind) && !e.item.Num? then [(e.item, x)] else [])
  {
    var n := |es|;
    assert (nodes + [x])[..n] == nodes && (es + [e])[..n] == es;
  }

  /** Only kinds and values of the entries matter. */
  lemma {:induction false} PickSame<T>(nodes: seq<T>, es: seq<Entry>, es': seq<Entry>, kind: Kind, v: Json)
    requires |nodes| == |es| == |es'|
    requires forall i :: 0 <= i < |es| ==> es'[i].item == es[i].item && (OfKind(es'[i], kind) <==> OfKind(es[i], kind))
    ensures Pick(nodes, es', kind, v) == Pick(nodes, es, kind, v)
    ensures PickListed(nodes, es', kind) == PickListed(nodes, es, kind)
  {
    if es != [] {
      var n := |es| - 1;
      PickSame(nodes[..n], es[..n], es'[..n], kind, v);
    }
  }

  lemma CutLast<T>(s: seq<T>, i: nat)
    requires i < |s|
    ensures i < |s| - 1 ==> Cut(s, i)[..|s| - 2] == Cut(s[..|s| - 1], i) && Cut(s, i)[|s| - 2] == s[|s| - 1]
    ensures i == |s| - 1 ==> Cut(s, i) == s[..|s| - 1]
  {
  }

  /** A node that does not match leaves no trace; the last that matches is the last one stored. */
  lemma {:induction false} PickCutOther<T>(nodes: seq<T>, es: seq<Entry>, kind: Kind, v: Json, i: nat)
    requires |nodes| == |es| && i < |es| && !Matches(es[i], kind, v)
    ensures Pick(Cut(nodes, i), Cut(es, i), kind, v) == Pick(nodes, es, kind, v)
    decreases |es|
  {
    var n := |es| - 1;
    CutLast(nodes, i);
    CutLast(es, i);
    if i < n {
      PickCutOther(nodes[..n], es[..n], kind, v, i);
    }
  }

  lemma {:induction false} PickCutLast<T>(nodes: seq<T>, es: seq<Entry>, kind: Kind, v: Json, i: nat)
    requires |nodes| == |es| && i < |es| && LastMatch(es, kind, v) == Some(i)
    ensures Pick(nodes, es, kind, v) == Pick(Cut(nodes, i), Cut(es, i), kind, v) + [nodes[i]]
    decreases |es|
  {
    var n := |es| - 1;
    CutLast(nodes, i);
    CutLast(es, i);
    if i < n {
      PickCutLast(nodes[..n], es[..n], kind, v, i);
      PickSkips(nodes, es, kind, v);
      PickSkips(Cut(nodes, i), Cut(es, i), kind, v);
    }
  }

  lemma PickSkips<T>(nodes: seq<T>, es: seq<Entry>, kind: Kind, v: Json)
    requires |nodes| == |es| > 0 && !Matches(es[|es| - 1], kind, v)
    ensures Pick(nodes, es, kind, v) == Pick(nodes[..|es| - 1], es[..|es| - 1], kind, v)
  {
  }

  lemma PickCut<T>(nodes: seq<T>, es: seq<Entry>, kind: Kind, v: Json, i: nat)
    requires |nodes| == |es| && i < |es|
    ensures !Matches(es[i], kind, v) ==> Pick(Cut(nodes, i), Cut(es, i), kind, v) == Pick(nodes, es, kind, v)
    ensures LastMatch(es, kind, v) == Some(i) ==>
              && Pick(nodes, es, kind, v) != []
              && Pick(nodes, es, kind, v)[|Pick(nodes, es, kind, v)| - 1] == nodes[i]
              && Pick(Cut(nodes, i), Cut(es, i), kind, v) == Pick(nodes, es, kind, v)[..|Pick(nodes, es, kind, v)| - 1]
  {
    if !Matches(es[i], kind, v) { PickCutOther(nodes, es, kind, v, i); }
    if LastMatch(es, kind, v) == Some(i) { PickCutLast(nodes, es, kind, v, i); }
  }

  lemma {:induction false} PickNone<T>(nodes: seq<T>, es: seq<Entry>, kind: Kind, v: Json)
    requires |nodes| == |es|
    ensures Pick(nodes, es, kind, v) == [] <==> LastMatch(es, kind, v).None?
  {
    if es != [] {
      var n := |es| - 1;
      PickNone(nodes[..n], es[..n], kind, v);
    }
  }

  /** Cutting before the last entry commutes with listing. */
  lemma ListedCutBefore<T>(nodes: seq<T>, es: seq<Entry>, kind: Kind, i: nat)
    requires |nodes| == |es| && i < |es| - 1
    ensures var n := |es| - 1;
            PickListed(Cut(nodes, i), Cut(es, i), kind)
            == PickListed(Cut(nodes[..n], i), Cut(es[..n], i), kind)
               + (if OfKind(es[n], kind) && !es[n].item.Num? then [(es[n].item, nodes[n])] else [])
  {
    CutLast(nodes, i);
    CutLast(es, i);
  }

  lemma LastPairSkip<T>(rest: seq<(Json, T)>, last: (Json, T), v: Json)
    requires last.0 != v
    ensures LastPair(rest + [last], v) == LastPair(rest, v)
    ensures LastPair(rest, v).Some? ==>
              Cut(rest + [last], LastPair(rest, v).value) == Cut(rest, LastPair(rest, v).value) + [last]
  {
    assert (rest + [last])[..|rest|] == rest;
  }

  /** Searching the pairs from the end finds the node of the last matching entry. */
  ghost predicate ListedAgrees<T>(nodes: seq<T>, es: seq<Entry>, kind: Kind, v: Json)
    requires |nodes| == |es|
  {
    var pairs := PickListed(nodes, es, kind);
    match LastMatch(es, kind, v)
    case None => LastPair(pairs, v).None?
    case Some(i) =>
      && LastPair(pairs, v).Some? && pairs[LastPair(pairs, v).value].1 == nodes[i]
      && PickListed(Cut(nodes, i), Cut(es, i), kind) == Cut(pairs, LastPair(pairs, v).value)
  }

  lemma ListedHit<T>(nodes: seq<T>, es: seq<Entry>, kind: Kind, v: Json)
    requires |nodes| == |es| > 0 && !v.Num? && Matches(es[|es| - 1], kind, v)
    ensures ListedAgrees(nodes, es, kind, v)
  {
    var n := |es| - 1;
    var rest := PickListed(nodes[..n], es[..n], kind);
    var last := (es[n].item, nodes[n]);
    assert LastPair(rest + [last], v) == Some(|rest|);
    assert Cut(rest + [last], |rest|) == rest;
    assert Cut(nodes, n) == nodes[..n] && Cut(es, n) == es[..n];
  }

  lemma ListedMiss<T>(nodes: seq<T>, es: seq<Entry>, kind: Kind, v: Json)
    requires |nodes| == |es| > 0 && !Matches(es[|es| - 1], kind, v)
    requires ListedAgrees(nodes[..|es| - 1], es[..|es| - 1], kind, v)
    ensures ListedAgrees(nodes, es, kind, v)
  {
    var n := |es| - 1;
    var rest := PickListed(nodes[..n], es[..n], kind);
    if OfKind(es[n], kind) && !es[n].item.Num? {
      LastPairSkip(rest, (es[n].item, nodes[n]), v);
    } else {
      assert PickListed(nodes, es, kind) == rest;
    }
    if LastMatch(es[..n], kind, v).Some? {
      ListedCutBefore(nodes, es, kind, LastMatch(es[..n], kind, v).value);
    }
  }

  /** The same for the values that cannot be hashed: the search from the end finds the same node. */
  lemma {:induction false} ListedLast<T>(nodes: seq<T>, es: seq<Entry>, kind: Kind, v: Json)
    requires |nodes| == |es| && !v.Num?
    ensures ListedAgrees(nodes, es, kind, v)
    decreases |es|
  {
    if es != [] {
      if Matches(es[|es| - 1], kind, v) {
        ListedHit(nodes, es, kind, v);
      } else {
        ListedLast(nodes[..|es| - 1], es[..|es| - 1], kind, v);
        ListedMiss(nodes, es, kind, v);
      }
    }
  }

  /** An entry of another kind, or of a value that can be hashed, leaves the list of pairs alone. */
  lemma {:induction false} ListedCut<T>(nodes: seq<T>, es: seq<Entry>, kind: Kind, i: nat)
    requires |nodes| == |es| && i < |es| && (!OfKind(es[i], kind) || es[i].item.Num?)
    ensures PickListed(Cut(nodes, i), Cut(es, i), kind) == PickListed(nodes, es, kind)
    decreases |es|
  {
    var n := |es| - 1;
    if i < n {
      ListedCut(nodes[..n], es[..n], kind, i);
      ListedCutBefore(nodes, es, kind, i);
    } else {
      CutLast(nodes, i);
      CutLast(es, i);
    }
  }
}
