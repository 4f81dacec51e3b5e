/**
  The path-counting centrality of a graph. For each source node a
  breadth-first traversal records every node's distance and number of
  shortest paths; the source's score is the sum of the path counts of the
  nodes one step away, divided by the source's own path count. The scores,
  paired with the labels, are then ranked by a stable descending sort and
  the first three are read off.
 */
module Centrality {
  import opened Sequences
  import opened Labels
  import opened Graphs

  datatype Option<T> = None | Some(value: T)

  /** A score paired with the label of its node. */
  type ScoredLabel = (nat, string)

  /** The three best-ranked nodes, or the failure to read three of them. */
  datatype TopThree = Top(entries: seq<ScoredLabel>) | InsufficientNodes(nodeCount: nat)

  /** Number of nodes not reached yet. */
  function Unvisited(d: seq<Option<nat>>): nat
  {
    if d == [] then 0 else Unvisited(d[..|d| - 1]) + (if d[|d| - 1] == None then 1 else 0)
  }

  lemma {:induction false} UnvisitedReach(d: seq<Option<nat>>, u: nat, x: nat)
    requires u < |d| && d[u] == None
    ensures Unvisited(d[u := Some(x)]) + 1 == Unvisited(d)
  {
    var n := |d|;
    var d' := d[u := Some(x)];
    if u < n - 1 {
      UnvisitedReach(d[..n - 1], u, x);
      assert d'[..n - 1] == d[..n - 1][u := Some(x)];
    } else {
      assert d'[..n - 1] == d[..n - 1];
    }
  }

  ghost predicate Distinct(s: seq<nat>)
  {
    forall i, j :: 0 <= i < j < |s| ==> s[i] != s[j]
  }

  /** What the traversal from `s` knows about the nodes one step away: apart
      from `s` itself, they are exactly the neighbours in `l`, and each has as
      many shortest paths as it has occurrences in `l`. */
  ghost predicate DepthOne(l: seq<nat>, s: nat, d: seq<Option<nat>>, p: seq<nat>)
    requires |d| == |p|
  {
    forall t :: 0 <= t < |d| && t != s ==>
      && (d[t] == Some(1) <==> t in l)
      && (d[t] == Some(1) ==> p[t] == multiset(l)[t])
  }

  lemma DepthOneKept(l: seq<nat>, s: nat, d: seq<Option<nat>>, p: seq<nat>, u: nat, x: Option<nat>, y: nat)
    requires |d| == |p| && u < |d| && u != s
    requires DepthOne(l, s, d, p)
    requires d[u] != Some(1) && x != Some(1)
    ensures DepthOne(l, s, d[u := x], p[u := y])
  {
    var d', p' := d[u := x], p[u := y];
    forall t | 0 <= t < |d'| && t != s
      ensures (d'[t] == Some(1) <==> t in l) && (d'[t] == Some(1) ==> p'[t] == multiset(l)[t])
    {
      if t != u {
        assert d'[t] == d[t] && p'[t] == p[t];
      }
    }
  }

  /** The score of source `s`, as the count loop forms it over the nodes
      below `k`: the path counts of the nodes other than `s` at distance one. */
  function DepthOneSum(d: seq<Option<nat>>, p: seq<nat>, s: nat, k: nat): nat
    requires k <= |d| && |d| == |p|
  {
    if k == 0 then 0
    else DepthOneSum(d, p, s, k - 1) + (if k - 1 != s && d[k - 1] == Some(1) then p[k - 1] else 0)
  }

  /** The number of entries of `l` that are not `s`: its edges that are not
      self-loops. */
  function NonLoopDegree(l: seq<nat>, s: nat): nat
  {
    if l == [] then 0 else NonLoopDegree(l[..|l| - 1], s) + (if l[|l| - 1] != s then 1 else 0)
  }

  /** Occurrences in `l` of the nodes below `k` other than `s`. */
  function OccurrencesBelow(l: seq<nat>, s: nat, k: nat): nat
  {
    if k == 0 then 0
    else OccurrencesBelow(l, s, k - 1) + (if k - 1 != s then multiset(l)[k - 1] else 0)
  }

  lemma {:induction false} DepthOneSumOccurrences(l: seq<nat>, s: nat, d: seq<Option<nat>>, p: seq<nat>, k: nat)
    requires k <= |d| && |d| == |p|
    requires DepthOne(l, s, d, p)
    ensures DepthOneSum(d, p, s, k) == OccurrencesBelow(l, s, k)
  {
    if k > 0 {
      DepthOneSumOccurrences(l, s, d, p, k - 1);
      var t := k - 1;
      if t != s && d[t] != Some(1) {
        assert t !in l;
        assert t !in multiset(l);
      }
    }
  }

  lemma {:induction false} OccurrencesBelowSnoc(l: seq<nat>, x: nat, s: nat, k: nat)
    ensures OccurrencesBelow(l + [x], s, k) == OccurrencesBelow(l, s, k) + (if x < k && x != s then 1 else 0)
  {
    if k > 0 {
      OccurrencesBelowSnoc(l, x, s, k - 1);
      assert multiset(l + [x]) == multiset(l) + multiset{x};
    }
  }

  lemma {:induction false} OccurrencesBelowNone(s: nat, k: nat)
    ensures OccurrencesBelow([], s, k) == 0
  {
    if k > 0 {
      OccurrencesBelowNone(s, k - 1);
    }
  }

  lemma {:induction false} OccurrencesBelowAll(l: seq<nat>, s: nat, n: nat)
    requires forall k :: 0 <= k < |l| ==> l[k] < n
    ensures OccurrencesBelow(l, s, n) == NonLoopDegree(l, s)
  {
    if l == [] {
      OccurrencesBelowNone(s, n);
    } else {
      var p, x := l[..|l| - 1], l[|l| - 1];
      assert forall k :: 0 <= k < |p| ==> p[k] == l[k];
      OccurrencesBelowAll(p, s, n);
      assert l == p + [x];
      assert x < n;
      OccurrencesBelowSnoc(p, x, s, n);
    }
  }

  /** A score formed from a traversal with the depth-one facts is the number
      of non-self-loop entries of the source's adjacency list. */
  lemma ScoreIsNonLoopDegree(l: seq<nat>, s: nat, d: seq<Option<nat>>, p: seq<nat>)
    requires |d| == |p|
    requires DepthOne(l, s, d, p)
    requires forall k :: 0 <= k < |l| ==> l[k] < |d|
    ensures DepthOneSum(d, p, s, |d|) == NonLoopDegree(l, s)
  {
    DepthOneSumOccurrences(l, s, d, p, |d|);
    OccurrencesBelowAll(l, s, |d|);
  }

  /** The entries of `l` that are not `s` are all of them but the copies of `s`. */
  lemma {:induction false} NonLoopDegreeCount(l: seq<nat>, s: nat)
    ensures NonLoopDegree(l, s) + multiset(l)[s] == |l|
  {
    if l != [] {
      var p := l[..|l| - 1];
      NonLoopDegreeCount(p, s);
      assert l == p + [l[|l| - 1]];
      assert multiset(l) == multiset(p) + multiset{l[|l| - 1]};
    }
  }

  /** Reordering an adjacency list (as its sort does) keeps the score. */
  lemma NonLoopDegreePermutation(a: seq<nat>, b: seq<nat>, s: nat)
    requires multiset(a) == multiset(b)
    ensures NonLoopDegree(a, s) == NonLoopDegree(b, s)
  {
    NonLoopDegreeCount(a, s);
    NonLoopDegreeCount(b, s);
    assert |a| == |multiset(a)| == |multiset(b)| == |b|;
  }

  /** Number of pairs in `edges` that join node `i` to a different node. */
  function IncidentEdges(edges: EdgeList, idx: map<string, nat>, i: nat): nat
    requires Indexed(edges, idx)
  {
    if edges == [] then 0
    else
      var e := edges[|edges| - 1];
      IncidentEdges(edges[..|edges| - 1], idx, i)
        + (if idx[e.0] != idx[e.1] && (idx[e.0] == i || idx[e.1] == i) then 1 else 0)
  }

  lemma {:induction false} NonLoopDegreeSnoc(l: seq<nat>, x: nat, s: nat)
    ensures NonLoopDegree(l + [x], s) == NonLoopDegree(l, s) + (if x != s then 1 else 0)
  {
    assert (l + [x])[..|l|] == l;
  }

  lemma {:induction false} DoubledNonLoopDegree(edges: EdgeList, idx: map<string, nat>, i: nat)
    requires Indexed(edges, idx)
    ensures Indexed(Doubled(edges), idx)
    ensures NonLoopDegree(Targets(Doubled(edges), idx, i), i) == IncidentEdges(edges, idx, i)
  {
    DoubledIndexed(edges, idx);
    if edges != [] {
      var p, e := edges[..|edges| - 1], edges[|edges| - 1];
      assert Indexed(p, idx);
      DoubledNonLoopDegree(p, idx, i);
      var dp := Doubled(p);
      var e' := (e.1, e.0);
      assert Doubled(edges) == (dp + [e]) + [e'];
      TargetsSnoc(dp + [e], e', idx, i);
      TargetsSnoc(dp, e, idx, i);
      var t := Targets(dp, idx, i);
      var t1 := Targets(dp + [e], idx, i);
      if idx[e.0] == i {
        NonLoopDegreeSnoc(t, idx[e.1], i);
      } else {
        assert t1 == t;
      }
      if idx[e.1] == i {
        NonLoopDegreeSnoc(t1, idx[e.0], i);
      } else {
        assert Targets(Doubled(edges), idx, i) == t1;
      }
    }
  }

  /** In an undirected graph the score of a node is the number of input pairs
      that join it to another node: each such pair puts one entry into its
      list, while a self-loop puts two copies of the node itself, which the
      score skips. */
  lemma UndirectedScore(edges: EdgeList, labels: seq<string>, idx: map<string, nat>, lists: seq<seq<nat>>, i: nat)
    requires BuiltFrom(Doubled(edges), labels, idx, lists) && Indexed(edges, idx)
    requires i < |lists|
    ensures NonLoopDegree(lists[i], i) == IncidentEdges(edges, idx, i)
  {
    DoubledNonLoopDegree(edges, idx, i);
    NonLoopDegreePermutation(lists[i], Targets(Doubled(edges), idx, i), i);
  }

  /** Every queued label is the label of its shadowing index, and every
      queued node has been reached. */
  ghost predicate QueueShadows(queue: seq<string>, queued: seq<nat>, labels: seq<string>, d: seq<Option<nat>>)
    requires |labels| == |d|
  {
    && |queue| == |queued|
    && forall k :: 0 <= k < |queued| ==>
         queued[k] < |d| && queue[k] == labels[queued[k]] && d[queued[k]] != None
  }

  /** Every queued node lies at distance one or more from the source. */
  ghost predicate QueuedBeyondSource(queued: seq<nat>, d: seq<Option<nat>>)
  {
    forall k :: 0 <= k < |queued| ==> queued[k] < |d| && d[queued[k]].Some? && d[queued[k]].value >= 1
  }

  /** `order` lists the reached nodes, the source first, each once. */
  ghost predicate ReachOrder(order: seq<nat>, s: nat, d: seq<Option<nat>>)
  {
    && |order| > 0 && order[0] == s && Distinct(order)
    && forall t :: 0 <= t < |d| ==> (d[t] != None <==> t in order)
  }

  /** While the source's own neighbours `nb[..j]` are being relaxed: the
      nodes reached are exactly those seen so far, all at distance one, each
      with as many paths as it has occurrences so far. */
  ghost predicate FirstLevel(nb: seq<nat>, j: nat, s: nat, d: seq<Option<nat>>, p: seq<nat>)
    requires j <= |nb| && |d| == |p|
  {
    forall t :: 0 <= t < |d| && t != s ==>
      && (d[t] == Some(1) <==> t in nb[..j])
      && (d[t] == None || d[t] == Some(1))
      && p[t] == multiset(nb[..j])[t]
  }

  lemma QueueShadowsPush(queue: seq<string>, queued: seq<nat>, labels: seq<string>, d: seq<Option<nat>>, u: nat, x: nat)
    requires |labels| == |d| && u < |d|
    requires QueueShadows(queue, queued, labels, d)
    ensures QueueShadows(queue + [labels[u]], queued + [u], labels, d[u := Some(x)])
  {
  }

  lemma QueuedBeyondSourcePush(queued: seq<nat>, d: seq<Option<nat>>, u: nat, x: nat)
    requires u < |d| && x >= 1
    requires QueuedBeyondSource(queued, d)
    ensures QueuedBeyondSource(queued + [u], d[u := Some(x)])
  {
  }

  lemma ReachOrderPush(order: seq<nat>, s: nat, d: seq<Option<nat>>, u: nat, x: nat)
    requires u < |d| && d[u] == None
    requires ReachOrder(order, s, d)
    ensures ReachOrder(order + [u], s, d[u := Some(x)])
  {
    var o := order + [u];
    forall i, j | 0 <= i < j < |o| ensures o[i] != o[j] {
      if j == |order| {
        assert o[i] in order;
      } else {
        assert o[i] == order[i] && o[j] == order[j];
      }
    }
  }

  lemma FirstLevelStart(nb: seq<nat>, s: nat, d: seq<Option<nat>>, p: seq<nat>)
    requires |d| == |p|
    requires forall t :: 0 <= t < |d| && t != s ==> d[t] == None && p[t] == 0
    ensures FirstLevel(nb, 0, s, d, p)
  {
    assert nb[..0] == [];
  }

  /** The next neighbour of the source is reached for the first time. */
  lemma FirstLevelReach(nb: seq<nat>, j: nat, s: nat, d: seq<Option<nat>>, p: seq<nat>)
    requires j < |nb| && |d| == |p| && nb[j] < |d| && nb[j] != s && d[nb[j]] == None
    requires FirstLevel(nb, j, s, d, p)
    ensures FirstLevel(nb, j + 1, s, d[nb[j] := Some(1)], p[nb[j] := p[nb[j]] + 1])
  {
    assert nb[..j + 1] == nb[..j] + [nb[j]];
  }

  /** The next neighbour of the source was reached before: one more path. */
  lemma FirstLevelRepeat(nb: seq<nat>, j: nat, s: nat, d: seq<Option<nat>>, p: seq<nat>)
    requires j < |nb| && |d| == |p| && nb[j] < |d| && nb[j] != s && d[nb[j]] == Some(1)
    requires FirstLevel(nb, j, s, d, p)
    ensures FirstLevel(nb, j + 1, s, d, p[nb[j] := p[nb[j]] + 1])
  {
    assert nb[..j + 1] == nb[..j] + [nb[j]];
  }

  /** The next neighbour of the source is the source itself: a self-loop. */
  lemma FirstLevelSelf(nb: seq<nat>, j: nat, s: nat, d: seq<Option<nat>>, p: seq<nat>)
    requires j < |nb| && |d| == |p| && nb[j] == s
    requires FirstLevel(nb, j, s, d, p)
    ensures FirstLevel(nb, j + 1, s, d, p)
  {
    assert nb[..j + 1] == nb[..j] + [nb[j]];
  }

  lemma FirstLevelDone(nb: seq<nat>, s: nat, d: seq<Option<nat>>, p: seq<nat>)
    requires |d| == |p|
    requires FirstLevel(nb, |nb|, s, d, p)
    ensures DepthOne(nb, s, d, p)
  {
    assert nb[..|nb|] == nb;
  }

  /** The queue, its index shadow and the log of enqueued nodes have only been
      appended to since `queue0`, `queued0`, `order0`, and the same nodes were
      appended to the shadow and the log, each unreached in `distance0`. */
  ghost predicate Appended(queue0: seq<string>, queued0: seq<nat>, order0: seq<nat>,
                           queue: seq<string>, queued: seq<nat>, order: seq<nat>, distance0: seq<Option<nat>>)
  {
    && |queue0| <= |queue| && queue[..|queue0|] == queue0
    && |queued0| <= |queued| && queued[..|queued0|] == queued0
    && order == order0 + queued[|queued0|..]
    && forall k :: |queued0| <= k < |queued| ==> queued[k] < |distance0| && distance0[queued[k]] == None
  }

  /** A relaxation only appends, appends an unreached node, and never
      changes a distance that was already set. */
  lemma AppendedStep(queue0: seq<string>, queued0: seq<nat>, order0: seq<nat>,
                     queue1: seq<string>, queued1: seq<nat>, order1: seq<nat>,
                     distance0: seq<Option<nat>>, distance1: seq<Option<nat>>, numPaths1: seq<nat>,
                     queue: seq<string>, queued: seq<nat>, order: seq<nat>,
                     distance: seq<Option<nat>>, numPaths: seq<nat>, u: nat, x: string, dv: nat, pv: nat)
    requires Appended(queue0, queued0, order0, queue1, queued1, order1, distance0)
    requires |distance1| == |distance0| && u < |distance1| && u < |numPaths1|
    requires forall t :: 0 <= t < |distance0| && distance0[t] != None ==> distance1[t] == distance0[t]
    requires Relaxed(u, x, dv, pv, distance1, numPaths1, queue1, queued1, order1, distance, numPaths, queue, queued, order)
    ensures Appended(queue0, queued0, order0, queue, queued, order, distance0)
    ensures forall t :: 0 <= t < |distance0| && distance0[t] != None ==> distance[t] == distance0[t]
  {
    if distance1[u] == None {
      assert distance0[u] == None;
      assert queue[..|queue0|] == queue1[..|queue0|];
      assert queued[..|queued0|] == queued1[..|queued0|];
      assert queued[|queued0|..] == queued1[|queued0|..] + [u];
    }
  }

  /** One relaxation of node `u` (label `x`) from a node at distance `dv`
      with `pv` shortest paths: an unreached `u` gets distance `dv + 1`, the
      path count of its predecessor and a place at the back of the queue (and
      of its shadow and the log); a `u` already at distance `dv + 1` gains
      `pv` paths; any other `u` is left alone. */
  ghost predicate Relaxed(u: nat, x: string, dv: nat, pv: nat,
                          distance0: seq<Option<nat>>, numPaths0: seq<nat>, queue0: seq<string>,
                          queued0: seq<nat>, order0: seq<nat>,
                          distance: seq<Option<nat>>, numPaths: seq<nat>, queue: seq<string>,
                          queued: seq<nat>, order: seq<nat>)
    requires u < |distance0| && u < |numPaths0|
  {
    if distance0[u] == None then
      && distance == distance0[u := Some(dv + 1)] && numPaths == numPaths0[u := numPaths0[u] + pv]
      && queue == queue0 + [x] && queued == queued0 + [u] && order == order0 + [u]
    else
      && distance == distance0 && queue == queue0 && queued == queued0 && order == order0
      && numPaths == if distance0[u] == Some(dv + 1) then numPaths0[u := numPaths0[u] + pv] else numPaths0
  }

  /** Relaxes the `j`-th neighbour of the dequeued node `vIndex` (at distance
      `dv` with `pv` shortest paths), as `Relaxed` describes. */
  method RelaxNeighbour(g: Graph, vIndex: nat, j: nat, ghost dv: nat, ghost pv: nat,
                        distance0: seq<Option<nat>>, numPaths0: seq<nat>, queue0: seq<string>,
                        ghost queued0: seq<nat>, ghost order0: seq<nat>)
    returns (distance: seq<Option<nat>>, numPaths: seq<nat>, queue: seq<string>,
             ghost queued: seq<nat>, ghost order: seq<nat>)
    requires g.Valid() && vIndex < g.nodeCount && j < |g.outerEdges[vIndex]|
    requires |distance0| == g.nodeCount && |numPaths0| == g.nodeCount
    requires distance0[vIndex] == Some(dv) && numPaths0[vIndex] == pv
    ensures |distance| == g.nodeCount && |numPaths| == g.nodeCount
    ensures Relaxed(g.outerEdges[vIndex][j], g.nodeLabels[g.outerEdges[vIndex][j]], dv, pv,
                    distance0, numPaths0, queue0, queued0, order0, distance, numPaths, queue, queued, order)
  {
    distance, numPaths, queue, queued, order := distance0, numPaths0, queue0, queued0, order0;
    var neighbours := g.outerEdges[vIndex];
    var u := g.nodeLabels[neighbours[j]];
    var uIndex := g.nodeIndices[u];
    assert uIndex == neighbours[j];
    if distance[uIndex] == None {
      distance := distance[uIndex := Some(distance[vIndex].value + 1)];
      numPaths := numPaths[uIndex := numPaths[uIndex] + numPaths[vIndex]];
      queue := queue + [u];
      queued := queued + [uIndex];
      order := order + [uIndex];
    } else if distance[uIndex].value == distance[vIndex].value + 1 {
      numPaths := numPaths[uIndex := numPaths[uIndex] + numPaths[vIndex]];
    }
  }

  /** Reaching the unvisited node `u` at distance `dv + 1` keeps the
      traversal invariants; `nb` is the source's list, and in the first
      round `u` is its `j`-th entry. */
  lemma ReachKeeps(nb: seq<nat>, labels: seq<string>, s: nat, j: nat, u: nat, dv: nat, pv: nat, started: bool,
                   distance0: seq<Option<nat>>, numPaths0: seq<nat>, queue0: seq<string>,
                   queued0: seq<nat>, order0: seq<nat>)
    requires s < |labels| && u < |labels| && |distance0| == |labels| && |numPaths0| == |labels|
    requires distance0[u] == None
    requires QueueShadows(queue0, queued0, labels, distance0)
    requires QueuedBeyondSource(queued0, distance0)
    requires distance0[s] == Some(0) && numPaths0[s] == 1
    requires !started ==> dv == 0 && pv == 1 && j < |nb| && nb[j] == u && FirstLevel(nb, j, s, distance0, numPaths0)
    requires started ==> dv >= 1 && DepthOne(nb, s, distance0, numPaths0)
    requires ReachOrder(order0, s, distance0)
    ensures var distance, numPaths := distance0[u := Some(dv + 1)], numPaths0[u := numPaths0[u] + pv];
      && Unvisited(distance) + 1 == Unvisited(distance0)
      && QueueShadows(queue0 + [labels[u]], queued0 + [u], labels, distance)
      && QueuedBeyondSource(queued0 + [u], distance)
      && distance[s] == Some(0) && numPaths[s] == 1
      && (!started ==> FirstLevel(nb, j + 1, s, distance, numPaths))
      && (started ==> DepthOne(nb, s, distance, numPaths))
      && ReachOrder(order0 + [u], s, distance)
  {
    UnvisitedReach(distance0, u, dv + 1);
    QueueShadowsPush(queue0, queued0, labels, distance0, u, dv + 1);
    QueuedBeyondSourcePush(queued0, distance0, u, dv + 1);
    ReachOrderPush(order0, s, distance0, u, dv + 1);
    if started {
      DepthOneKept(nb, s, distance0, numPaths0, u, Some(dv + 1), numPaths0[u] + pv);
    } else {
      FirstLevelReach(nb, j, s, distance0, numPaths0);
    }
  }

  /** A relaxation keeps the traversal invariants: the source stays at
      distance 0 with one path, queue length plus unvisited count is
      conserved, every queued node is reached (and beyond the source), the
      log lists each reached node once, and the depth-one counts advance.
      When the round is the first (`!started`), `vIndex` is the source. */
  lemma RelaxKeeps(lists: seq<seq<nat>>, labels: seq<string>, s: nat, vIndex: nat, j: nat,
                   dv: nat, pv: nat, started: bool,
                   distance0: seq<Option<nat>>, numPaths0: seq<nat>, queue0: seq<string>,
                   queued0: seq<nat>, order0: seq<nat>,
                   distance: seq<Option<nat>>, numPaths: seq<nat>, queue: seq<string>,
                   queued: seq<nat>, order: seq<nat>)
    requires |lists| == |labels| && InRange(lists, |labels|)
    requires s < |labels| && vIndex < |labels| && j < |lists[vIndex]|
    requires |distance0| == |labels| && |numPaths0| == |labels|
    requires QueueShadows(queue0, queued0, labels, distance0)
    requires QueuedBeyondSource(queued0, distance0)
    requires distance0[s] == Some(0) && numPaths0[s] == 1
    requires distance0[vIndex] == Some(dv) && numPaths0[vIndex] == pv
    requires !started ==> vIndex == s && dv == 0 && pv == 1 && FirstLevel(lists[s], j, s, distance0, numPaths0)
    requires started ==> dv >= 1 && DepthOne(lists[s], s, distance0, numPaths0)
    requires ReachOrder(order0, s, distance0)
    requires Relaxed(lists[vIndex][j], labels[lists[vIndex][j]], dv, pv,
                     distance0, numPaths0, queue0, queued0, order0, distance, numPaths, queue, queued, order)
    ensures |distance| == |labels| && |numPaths| == |labels|
    ensures |queue| >= |queue0| && Unvisited(distance) + |queue| == Unvisited(distance0) + |queue0|
    ensures QueueShadows(queue, queued, labels, distance)
    ensures QueuedBeyondSource(queued, distance)
    ensures distance[s] == Some(0) && numPaths[s] == 1
    ensures distance[vIndex] == Some(dv) && numPaths[vIndex] == pv
    ensures !started ==> FirstLevel(lists[s], j + 1, s, distance, numPaths)
    ensures started ==> DepthOne(lists[s], s, distance, numPaths)
    ensures ReachOrder(order, s, distance)
  {
    var u := lists[vIndex][j];
    if distance0[u] == None {
      assert distance == distance0[u := Some(dv + 1)] && numPaths == numPaths0[u := numPaths0[u] + pv];
      assert queue == queue0 + [labels[u]] && queued == queued0 + [u] && order == order0 + [u];
      ReachKeeps(lists[s], labels, s, j, u, dv, pv, started, distance0, numPaths0, queue0, queued0, order0);
    } else if distance0[u] == Some(dv + 1) {
      assert distance == distance0 && queue == queue0 && queued == queued0 && order == order0;
      assert numPaths == numPaths0[u := numPaths0[u] + pv];
      if started {
        DepthOneKept(lists[s], s, distance0, numPaths0, u, distance0[u], numPaths0[u] + pv);
      } else {
        FirstLevelRepeat(lists[s], j, s, distance0, numPaths0);
      }
    } else {
      assert distance == distance0 && numPaths == numPaths0;
      assert queue == queue0 && queued == queued0 && order == order0;
      if !started {
        FirstLevelSelf(lists[s], j, s, distance0, numPaths0);
      }
    }
  }

  /** The state after relaxing the first `j` neighbours of `vIndex` in a
      round that began with `distance0`, `queue0`, `queued0`, `order0`. */
  ghost predicate RoundState(lists: seq<seq<nat>>, labels: seq<string>, s: nat, vIndex: nat,
                             dv: nat, pv: nat, started: bool, j: nat,
                             distance0: seq<Option<nat>>, queue0: seq<string>, queued0: seq<nat>, order0: seq<nat>,
                             distance: seq<Option<nat>>, numPaths: seq<nat>, queue: seq<string>,
                             queued: seq<nat>, order: seq<nat>)
  {
    && |lists| == |labels| && s < |labels| && vIndex < |labels| && j <= |lists[vIndex]|
    && |distance0| == |labels| && |distance| == |labels| && |numPaths| == |labels|
    && |queue| >= |queue0| && Unvisited(distance) + |queue| == Unvisited(distance0) + |queue0|
    && QueueShadows(queue, queued, labels, distance)
    && QueuedBeyondSource(queued, distance)
    && distance[s] == Some(0) && numPaths[s] == 1
    && distance[vIndex] == Some(dv) && numPaths[vIndex] == pv
    && (!started ==> vIndex == s && dv == 0 && pv == 1 && FirstLevel(lists[s], j, s, distance, numPaths))
    && (started ==> dv >= 1 && DepthOne(lists[s], s, distance, numPaths))
    && ReachOrder(order, s, distance)
    && (forall t :: 0 <= t < |labels| && distance0[t] != None ==> distance[t] == distance0[t])
    && Appended(queue0, queued0, order0, queue, queued, order, distance0)
  }

  /** Relaxing neighbour `j` advances the round state to `j + 1`. */
  lemma RoundStep(lists: seq<seq<nat>>, labels: seq<string>, s: nat, vIndex: nat,
                  dv: nat, pv: nat, started: bool, j: nat,
                  distance0: seq<Option<nat>>, queue0: seq<string>, queued0: seq<nat>, order0: seq<nat>,
                  distance1: seq<Option<nat>>, numPaths1: seq<nat>, queue1: seq<string>,
                  queued1: seq<nat>, order1: seq<nat>,
                  distance: seq<Option<nat>>, numPaths: seq<nat>, queue: seq<string>,
                  queued: seq<nat>, order: seq<nat>)
    requires InRange(lists, |labels|)
    requires RoundState(lists, labels, s, vIndex, dv, pv, started, j, distance0, queue0, queued0, order0,
                        distance1, numPaths1, queue1, queued1, order1)
    requires j < |lists[vIndex]|
    requires Relaxed(lists[vIndex][j], labels[lists[vIndex][j]], dv, pv,
                     distance1, numPaths1, queue1, queued1, order1, distance, numPaths, queue, queued, order)
    ensures RoundState(lists, labels, s, vIndex, dv, pv, started, j + 1, distance0, queue0, queued0, order0,
                       distance, numPaths, queue, queued, order)
  {
    RelaxKeeps(lists, labels, s, vIndex, j, dv, pv, started,
               distance1, numPaths1, queue1, queued1, order1, distance, numPaths, queue, queued, order);
    AppendedStep(queue0, queued0, order0, queue1, queued1, order1, distance0, distance1, numPaths1,
                 queue, queued, order, distance, numPaths, lists[vIndex][j], labels[lists[vIndex][j]], dv, pv);
  }

  /** One round of the traversal: relaxes every neighbour of the dequeued
      node `vIndex` in list order. */
  method RelaxNeighbours(g: Graph, s: nat, vIndex: nat,
                         distance0: seq<Option<nat>>, numPaths0: seq<nat>, queue0: seq<string>,
                         ghost queued0: seq<nat>, ghost order0: seq<nat>, ghost started: bool)
    returns (distance: seq<Option<nat>>, numPaths: seq<nat>, queue: seq<string>,
             ghost queued: seq<nat>, ghost order: seq<nat>)
    requires g.Valid() && s < g.nodeCount && vIndex < g.nodeCount
    requires |distance0| == g.nodeCount && |numPaths0| == g.nodeCount
    requires QueueShadows(queue0, queued0, g.nodeLabels, distance0)
    requires QueuedBeyondSource(queued0, distance0)
    requires distance0[s] == Some(0) && numPaths0[s] == 1 && distance0[vIndex].Some?
    requires !started ==> vIndex == s && FirstLevel(g.outerEdges[s], 0, s, distance0, numPaths0)
    requires started ==> distance0[vIndex].value >= 1 && DepthOne(g.outerEdges[s], s, distance0, numPaths0)
    requires ReachOrder(order0, s, distance0)
    ensures |distance| == g.nodeCount && |numPaths| == g.nodeCount
    ensures |queue| >= |queue0| && Unvisited(distance) + |queue| == Unvisited(distance0) + |queue0|
    ensures QueueShadows(queue, queued, g.nodeLabels, distance)
    ensures QueuedBeyondSource(queued, distance)
    ensures distance[s] == Some(0) && numPaths[s] == 1
    ensures DepthOne(g.outerEdges[s], s, distance, numPaths)
    ensures ReachOrder(order, s, distance)
    ensures forall t :: 0 <= t < g.nodeCount && distance0[t] != None ==> distance[t] == distance0[t]
    ensures Appended(queue0, queued0, order0, queue, queued, order, distance0)
  {
    distance, numPaths, queue, queued, order := distance0, numPaths0, queue0, queued0, order0;
    ghost var dv, pv := distance[vIndex].value, numPaths[vIndex];
    for j := 0 to |g.outerEdges[vIndex]|
      invariant RoundState(g.outerEdges, g.nodeLabels, s, vIndex, dv, pv, started, j, distance0, queue0, queued0, order0,
                           distance, numPaths, queue, queued, order)
    {
      ghost var queue1, queued1, order1, distance1, numPaths1 := queue, queued, order, distance, numPaths;
      distance, numPaths, queue, queued, order :=
        RelaxNeighbour(g, vIndex, j, dv, pv, distance, numPaths, queue, queued, order);
      RoundStep(g.outerEdges, g.nodeLabels, s, vIndex, dv, pv, started, j, distance0, queue0, queued0, order0,
                distance1, numPaths1, queue1, queued1, order1, distance, numPaths, queue, queued, order);
    }
    if !started {
      FirstLevelDone(g.outerEdges[s], s, distance, numPaths);
    }
  }

  /** The shadow of the queue is the tail of the log: it stays so when the
      front is dequeued and a round appends the same nodes to both. */
  lemma QueueIsLogTail(order0: seq<nat>, queued0: seq<nat>, order: seq<nat>, queued: seq<nat>)
    requires |queued0| >= 1 && |queued0| <= |order0| && queued0 == order0[|order0| - |queued0|..]
    requires |queued0| - 1 <= |queued| && queued[..|queued0| - 1] == queued0[1..]
    requires order == order0 + queued[|queued0| - 1..]
    ensures |queued| <= |order| && queued == order[|order| - |queued|..]
  {
    var k := |order0| - |queued0| + 1;
    assert |order| - |queued| == k;
    forall i | 0 <= i < |queued| ensures queued[i] == order[k + i] {
      if i < |queued0| - 1 {
        assert queued[i] == queued0[1..][i] == queued0[i + 1];
      } else {
        assert queued[i] == queued[|queued0| - 1..][i - (|queued0| - 1)];
      }
    }
  }

  /** The state between rounds of the traversal from `s`: `queued` shadows
      the queue and is the tail of the log `order`; before the first round
      only the source is queued and nothing else is reached. */
  ghost predicate Traversing(lists: seq<seq<nat>>, labels: seq<string>, s: nat, started: bool,
                             distance: seq<Option<nat>>, numPaths: seq<nat>, queue: seq<string>,
                             queued: seq<nat>, order: seq<nat>)
  {
    && |lists| == |labels| && s < |labels| && |distance| == |labels| && |numPaths| == |labels|
    && QueueShadows(queue, queued, labels, distance)
    && distance[s] == Some(0) && numPaths[s] == 1
    && (!started ==> queued == [s] && FirstLevel(lists[s], 0, s, distance, numPaths))
    && (started ==> QueuedBeyondSource(queued, distance) && DepthOne(lists[s], s, distance, numPaths))
    && ReachOrder(order, s, distance)
    && |queued| <= |order| && queued == order[|order| - |queued|..]
  }

  /** A finished round leaves the traversal in a state between rounds. */
  lemma RoundDone(lists: seq<seq<nat>>, labels: seq<string>, s: nat, started: bool,
                  distance0: seq<Option<nat>>, numPaths0: seq<nat>, queue0: seq<string>,
                  queued0: seq<nat>, order0: seq<nat>,
                  distance: seq<Option<nat>>, numPaths: seq<nat>, queue: seq<string>,
                  queued: seq<nat>, order: seq<nat>)
    requires Traversing(lists, labels, s, started, distance0, numPaths0, queue0, queued0, order0)
    requires queue0 != []
    requires |distance| == |labels| && |numPaths| == |labels|
    requires QueueShadows(queue, queued, labels, distance)
    requires QueuedBeyondSource(queued, distance)
    requires distance[s] == Some(0) && numPaths[s] == 1
    requires DepthOne(lists[s], s, distance, numPaths)
    requires ReachOrder(order, s, distance)
    requires Appended(queue0[1..], queued0[1..], order0, queue, queued, order, distance0)
    ensures Traversing(lists, labels, s, true, distance, numPaths, queue, queued, order)
  {
    QueueIsLogTail(order0, queued0, order, queued);
  }

  /** Breadth-first traversal from `s` over a queue of labels, recording the
      distance and the number of shortest paths of every node reached.
      `order` lists every node in the order it was enqueued. */
  method Traverse(g: Graph, s: nat) returns (distance: seq<Option<nat>>, numPaths: seq<nat>, ghost order: seq<nat>)
    requires g.Valid() && s < g.nodeCount
    ensures |distance| == g.nodeCount && |numPaths| == g.nodeCount
    ensures distance[s] == Some(0) && numPaths[s] == 1
    ensures DepthOne(g.outerEdges[s], s, distance, numPaths)
    ensures ReachOrder(order, s, distance)
  {
    var n := g.nodeCount;
    distance := seq(n, _ => None);
    numPaths := seq(n, _ => 0);
    distance := distance[s := Some(0)];
    numPaths := numPaths[s := 1];
    var queue := [g.nodeLabels[s]];
    ghost var queued := [s];
    ghost var started := false;
    order := [s];
    FirstLevelStart(g.outerEdges[s], s, distance, numPaths);
    while queue != []
      invariant Traversing(g.outerEdges, g.nodeLabels, s, started, distance, numPaths, queue, queued, order)
      decreases Unvisited(distance), |queue|
    {
      ghost var distance0, numPaths0, queue0, queued0, order0 := distance, numPaths, queue, queued, order;
      var v := queue[0];
      queue := queue[1..];
      var vIndex := g.nodeIndices[v];
      assert vIndex == queued0[0];
      distance, numPaths, queue, queued, order :=
        RelaxNeighbours(g, s, vIndex, distance, numPaths, queue, queued0[1..], order, started);
      RoundDone(g.outerEdges, g.nodeLabels, s, started, distance0, numPaths0, queue0, queued0, order0,
                distance, numPaths, queue, queued, order);
      started := true;
    }
  }

  /** The score of source `s`: the path counts of the nodes one step further
      than `s`, each divided by the path count of `s`. */
  method SourceScore(g: Graph, s: nat, distance: seq<Option<nat>>, numPaths: seq<nat>) returns (c: nat)
    requires g.Valid() && s < g.nodeCount
    requires |distance| == g.nodeCount && |numPaths| == g.nodeCount
    requires distance[s] == Some(0) && numPaths[s] == 1
    ensures c == DepthOneSum(distance, numPaths, s, g.nodeCount)
  {
    c := 0;
    for t := 0 to g.nodeCount
      invariant c == DepthOneSum(distance, numPaths, s, t)
    {
      if s != t {
        var tIndex := g.nodeIndices[g.nodeLabels[t]];
        if distance[tIndex] == Some(distance[s].value + 1) {
          c := c + numPaths[tIndex] / numPaths[s];
        }
      }
    }
  }

  /** Each score paired with the label of its node. */
  function WithLabels(scores: seq<nat>, labels: seq<string>): seq<ScoredLabel>
    requires |scores| == |labels|
  {
    seq(|scores|, i requires 0 <= i < |scores| => (scores[i], labels[i]))
  }

  /** The comparison of the ranking sort: higher scores first. */
  predicate ScoreGe(a: ScoredLabel, b: ScoredLabel)
  {
    a.0 >= b.0
  }

  /** Label order between two ranked entries, the order ties keep. */
  predicate LabelLess(a: ScoredLabel, b: ScoredLabel)
  {
    LexLess(a.1, b.1)
  }

  lemma ScoreGeTotalPreorder()
    ensures TotalPreorder(ScoreGe)
  {
  }

  /** The ranking of the scored labels: sorted by descending score, a
      permutation of its input, ties in ascending label order. */
  lemma RankingOrder(scores: seq<nat>, labels: seq<string>)
    requires |scores| == |labels| && StrictlyAscending(labels)
    ensures multiset(SortBy(WithLabels(scores, labels), ScoreGe)) == multiset(WithLabels(scores, labels))
    ensures Sorted(SortBy(WithLabels(scores, labels), ScoreGe), ScoreGe)
    ensures forall i, j :: 0 <= i < j < |scores| && SortBy(WithLabels(scores, labels), ScoreGe)[i].0 == SortBy(WithLabels(scores, labels), ScoreGe)[j].0
              ==> LexLess(SortBy(WithLabels(scores, labels), ScoreGe)[i].1, SortBy(WithLabels(scores, labels), ScoreGe)[j].1)
  {
    var w := WithLabels(scores, labels);
    ScoreGeTotalPreorder();
    SortBySorted(w, ScoreGe);
    SortByTies(w, ScoreGe, LabelLess);
  }

  /** The score of every node, one traversal per source in index order. */
  method ComputeScores(g: Graph) returns (centrality: seq<nat>)
    requires g.Valid()
    ensures |centrality| == g.nodeCount
    ensures forall s :: 0 <= s < g.nodeCount ==> centrality[s] == NonLoopDegree(g.outerEdges[s], s)
  {
    var n := g.nodeCount;
    var scores := new nat[n](_ => 0);
    for s := 0 to n
      invariant forall h :: 0 <= h < s ==> scores[h] == NonLoopDegree(g.outerEdges[h], h)
    {
      var distance, numPaths, order := Traverse(g, s);
      var c := SourceScore(g, s, distance, numPaths);
      ScoreIsNonLoopDegree(g.outerEdges[s], s, distance, numPaths);
      scores[s] := c;
    }
    centrality := scores[..];
  }

  /** Pairs each score with its label and sorts the pairs by descending score
      with the stable sort. */
  method Rank(centrality: seq<nat>, labels: seq<string>) returns (ranked: seq<ScoredLabel>)
    requires |centrality| == |labels| && StrictlyAscending(labels)
    ensures |ranked| == |labels|
    ensures multiset(ranked) == multiset(WithLabels(centrality, labels))
    ensures Sorted(ranked, ScoreGe)
    ensures forall i, j :: 0 <= i < j < |ranked| && ranked[i].0 == ranked[j].0 ==> LexLess(ranked[i].1, ranked[j].1)
  {
    var withNode := WithLabels(centrality, labels);
    withNode := SortBy(withNode, ScoreGe);
    RankingOrder(centrality, labels);
    ranked := withNode;
  }

  /** Reads the first three ranked entries; fewer than three entries is the
      index-out-of-bounds failure of the reporting loop. */
  method ReadTopThree(ranked: seq<ScoredLabel>) returns (top: TopThree)
    ensures top.Top? <==> |ranked| >= 3
    ensures top.Top? ==> top.entries == ranked[..3]
    ensures top.InsufficientNodes? ==> top.nodeCount == |ranked|
  {
    var entries: seq<ScoredLabel> := [];
    for i := 0 to 3
      invariant i <= |ranked| && entries == ranked[..i]
    {
      if i >= |ranked| {
        return InsufficientNodes(|ranked|);
      }
      entries := entries + [ranked[i]];
    }
    top := Top(entries);
  }

  /** Scores every node, ranks them and reads the three best. */
  method ComputeCentralities(g: Graph) returns (centrality: seq<nat>, ranked: seq<ScoredLabel>, top: TopThree)
    requires g.Valid()
    ensures |centrality| == g.nodeCount
    ensures forall s :: 0 <= s < g.nodeCount ==> centrality[s] == NonLoopDegree(g.outerEdges[s], s)
    ensures |ranked| == g.nodeCount
    ensures multiset(ranked) == multiset(WithLabels(centrality, g.nodeLabels))
    ensures Sorted(ranked, ScoreGe)
    ensures forall i, j :: 0 <= i < j < |ranked| && ranked[i].0 == ranked[j].0 ==> LexLess(ranked[i].1, ranked[j].1)
    ensures top.Top? <==> g.nodeCount >= 3
    ensures top.Top? ==> top.entries == ranked[..3]
    ensures top.InsufficientNodes? ==> top.nodeCount == g.nodeCount
  {
    centrality := ComputeScores(g);
    ranked := Rank(centrality, g.nodeLabels);
    top := ReadTopThree(ranked);
  }
}
