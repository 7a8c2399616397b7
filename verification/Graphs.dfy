/** Cycles of a finite directed graph given by its successor sets. */
module Graphs {
  import opened Sequences

  ghost predicate IsChain<N>(graph: map<N, set<N>>, chain: seq<N>) {
    forall i :: 0 <= i < |chain| - 1 ==> chain[i] in graph && chain[i + 1] in graph[chain[i]]
  }

  ghost predicate IsCycle<N>(graph: map<N, set<N>>, chain: seq<N>) {
    |chain| >= 2 && chain[0] == chain[|chain| - 1] && IsChain(graph, chain)
  }

  ghost predicate Acyclic<N(!new)>(graph: map<N, set<N>>) {
    forall chain :: !IsCycle(graph, chain)
  }

  /** Every node of `live` has a successor in `live`. */
  ghost predicate NeverStuck<N>(graph: map<N, set<N>>, live: set<N>) {
    forall n <- live :: n in graph && graph[n] * live != {}
  }

  lemma {:induction false} Walk<N>(graph: map<N, set<N>>, live: set<N>, start: N, steps: nat)
    returns (chain: seq<N>)
    requires start in live && NeverStuck(graph, live)
    ensures |chain| == steps + 1 && IsChain(graph, chain) && forall n <- chain :: n in live
  {
    if steps == 0 {
      return [start];
    }
    var shorter := Walk(graph, live, start, steps - 1);
    var next :| next in graph[shorter[|shorter| - 1]] * live;
    chain := shorter + [next];
  }

  /** A nonempty set one can keep walking in holds a cycle. */
  lemma NeverStuckMeansCycle<N(!new)>(graph: map<N, set<N>>, live: set<N>)
    requires live != {} && NeverStuck(graph, live)
    ensures !Acyclic(graph)
  {
    var start :| start in live;
    var chain := Walk(graph, live, start, |live|);
    var i, j := Pigeonhole(chain, live);
    var cycle := chain[i..j + 1];
    assert forall k :: 0 <= k < |cycle| ==> cycle[k] == chain[i + k];
    assert IsCycle(graph, cycle);
  }

  /** `order` lists every successor before the node that has it. */
  ghost predicate SuccessorsFirst<N>(graph: map<N, set<N>>, order: seq<N>) {
    forall i, d :: 0 <= i < |order| && order[i] in graph && d in graph[order[i]] ==> d in order[..i]
  }

  lemma {:induction false} ChainStepsBack<N>(graph: map<N, set<N>>, order: seq<N>, chain: seq<N>, from: nat, k: nat)
    returns (to: nat)
    requires SuccessorsFirst(graph, order) && NoRepeats(order)
    requires IsChain(graph, chain) && 0 < k < |chain| && from < |order| && order[from] == chain[0]
    ensures to < from && order[to] == chain[k]
  {
    var at := from;
    if k > 1 {
      at := ChainStepsBack(graph, order, chain, from, k - 1);
    }
    assert chain[k - 1 + 1] in graph[order[at]];
    assert chain[k] in order[..at];
    to :| 0 <= to < at && order[to] == chain[k];
  }

  /** A graph whose nodes can be listed successors first has no cycle. */
  lemma OrderMeansAcyclic<N(!new)>(graph: map<N, set<N>>, order: seq<N>)
    requires SuccessorsFirst(graph, order) && NoRepeats(order)
    requires forall n <- graph :: n in order
    ensures Acyclic(graph)
  {
    forall chain ensures !IsCycle(graph, chain) {
      if IsCycle(graph, chain) {
        assert chain[0] in graph;
        var from :| 0 <= from < |order| && order[from] == chain[0];
        var to := ChainStepsBack(graph, order, chain, from, |chain| - 1);
        assert false;
      }
    }
  }
}
