/**
  The graph built from a list of labelled pairs: node labels sorted and
  deduplicated, a label <-> index bijection, and one adjacency list of
  neighbour indices per node (duplicates kept, each list sorted ascending).
 */
module Graphs {
  import opened Sequences
  import opened Labels

  type Edge = (string, string)
  type EdgeList = seq<Edge>

  /** The endpoints of the edges, both of each pair in input order. */
  function Endpoints(edges: EdgeList): (r: seq<string>)
    ensures |r| == 2 * |edges|
  {
    if edges == [] then []
    else Endpoints(edges[..|edges| - 1]) + [edges[|edges| - 1].0, edges[|edges| - 1].1]
  }

  /** Each pair followed by its reverse. */
  function Doubled(edges: EdgeList): (r: EdgeList)
    ensures |r| == 2 * |edges|
  {
    if edges == [] then []
    else
      var e := edges[|edges| - 1];
      Doubled(edges[..|edges| - 1]) + [e, (e.1, e.0)]
  }

  lemma {:induction false} EndpointsAt(edges: EdgeList, k: nat)
    requires k < |edges|
    ensures Endpoints(edges)[2 * k] == edges[k].0 && Endpoints(edges)[2 * k + 1] == edges[k].1
  {
    if k < |edges| - 1 {
      EndpointsAt(edges[..|edges| - 1], k);
    }
  }

  lemma {:induction false} DoubledAt(edges: EdgeList, k: nat)
    requires k < |edges|
    ensures Doubled(edges)[2 * k] == edges[k] && Doubled(edges)[2 * k + 1] == (edges[k].1, edges[k].0)
  {
    if k < |edges| - 1 {
      DoubledAt(edges[..|edges| - 1], k);
    }
  }

  lemma EndpointsSnoc(edges: EdgeList, e: Edge)
    ensures Endpoints(edges + [e]) == Endpoints(edges) + [e.0, e.1]
  {
    assert (edges + [e])[..|edges|] == edges;
  }

  /** Both endpoints of every edge are keys of `idx`. */
  ghost predicate Indexed(edges: EdgeList, idx: map<string, nat>)
  {
    forall k :: 0 <= k < |edges| ==> edges[k].0 in idx && edges[k].1 in idx
  }

  /** The neighbour indices the edges give node `i`: the index of `v` for each
      pair `(u, v)` whose `u` has index `i`, in input order. */
  function Targets(edges: EdgeList, idx: map<string, nat>, i: nat): seq<nat>
    requires Indexed(edges, idx)
  {
    if edges == [] then []
    else
      var e := edges[|edges| - 1];
      Targets(edges[..|edges| - 1], idx, i) + (if idx[e.0] == i then [idx[e.1]] else [])
  }

  /** Every neighbour index names a node. */
  ghost predicate InRange(lists: seq<seq<nat>>, n: nat)
  {
    forall i, j :: 0 <= i < |lists| && 0 <= j < |lists[i]| ==> lists[i][j] < n
  }

  /** `j` occurs in the list of `i` exactly as often as `i` in the list of `j`. */
  ghost predicate SymmetricCounts(lists: seq<seq<nat>>)
  {
    forall i, j :: 0 <= i < |lists| && 0 <= j < |lists| ==> multiset(lists[i])[j] == multiset(lists[j])[i]
  }

  /** `j` is a neighbour of `i` exactly when `i` is a neighbour of `j`. */
  ghost predicate Symmetric(lists: seq<seq<nat>>)
  {
    forall i, j :: 0 <= i < |lists| && 0 <= j < |lists| ==> (j in lists[i] <==> i in lists[j])
  }

  /** Number of entries over all adjacency lists. */
  function TotalLength(lists: seq<seq<nat>>): nat
  {
    if lists == [] then 0 else TotalLength(lists[..|lists| - 1]) + |lists[|lists| - 1]|
  }

  /** The order `sort` uses on neighbour indices. */
  predicate IndexLe(a: nat, b: nat)
  {
    a <= b
  }

  lemma IndexLeTotalPreorder()
    ensures TotalPreorder(IndexLe)
  {
  }

  /** Every adjacency list sorted: a sorted permutation of the list it replaces. */
  function SortedLists(lists: seq<seq<nat>>): (r: seq<seq<nat>>)
    ensures |r| == |lists|
    ensures forall i :: 0 <= i < |lists| ==> Sorted(r[i], IndexLe) && multiset(r[i]) == multiset(lists[i])
  {
    var r := seq(|lists|, i requires 0 <= i < |lists| => SortBy(lists[i], IndexLe));
    assert forall i :: 0 <= i < |lists| ==> Sorted(r[i], IndexLe) by {
      forall i | 0 <= i < |lists| ensures Sorted(r[i], IndexLe) {
        IndexLeTotalPreorder();
        SortBySorted(lists[i], IndexLe);
      }
    }
    r
  }

  /** Sorting the lists a second time changes nothing. */
  lemma SortedListsIdempotent(lists: seq<seq<nat>>)
    ensures SortedLists(SortedLists(lists)) == SortedLists(lists)
  {
    var once := SortedLists(lists);
    forall i | 0 <= i < |lists| ensures SortedLists(once)[i] == once[i] {
      SortByOfSorted(once[i], IndexLe);
    }
  }

  lemma {:induction false} TotalLengthPush(lists: seq<seq<nat>>, u: nat, x: nat)
    requires u < |lists|
    ensures TotalLength(lists[u := lists[u] + [x]]) == TotalLength(lists) + 1
  {
    var n := |lists|;
    var lists' := lists[u := lists[u] + [x]];
    if u == n - 1 {
      assert lists'[..n - 1] == lists[..n - 1];
    } else {
      TotalLengthPush(lists[..n - 1], u, x);
      assert lists'[..n - 1] == lists[..n - 1][u := lists[u] + [x]];
    }
  }

  lemma {:induction false} TotalLengthOfLengths(a: seq<seq<nat>>, b: seq<seq<nat>>)
    requires |a| == |b| && forall i :: 0 <= i < |a| ==> |a[i]| == |b[i]|
    ensures TotalLength(a) == TotalLength(b)
  {
    if a != [] {
      TotalLengthOfLengths(a[..|a| - 1], b[..|b| - 1]);
    }
  }

  lemma {:induction false} TargetsPrefix(edges: EdgeList, idx: map<string, nat>, k: nat, i: nat)
    requires Indexed(edges, idx) && k < |edges|
    ensures Indexed(edges[..k], idx) && Indexed(edges[..k + 1], idx)
    ensures Targets(edges[..k + 1], idx, i)
         == Targets(edges[..k], idx, i) + (if idx[edges[k].0] == i then [idx[edges[k].1]] else [])
  {
    assert edges[..k + 1][..k] == edges[..k];
  }

  /** `lists` is `before` with the targets of `edges` appended to each list,
      and every entry names a node. */
  ghost predicate Added(before: seq<seq<nat>>, lists: seq<seq<nat>>, edges: EdgeList, idx: map<string, nat>)
  {
    && |lists| == |before|
    && Indexed(edges, idx)
    && (forall i :: 0 <= i < |lists| ==> lists[i] == before[i] + Targets(edges, idx, i))
  }

  /** Pushing the target of edge `k` onto its source's list extends the edges
      added so far by that edge. */
  lemma AddedPush(before: seq<seq<nat>>, lists: seq<seq<nat>>, edges: EdgeList, idx: map<string, nat>, k: nat)
    requires k < |edges| && Indexed(edges, idx)
    requires Added(before, lists, edges[..k], idx)
    requires idx[edges[k].0] < |lists|
    ensures Added(before, lists[idx[edges[k].0] := lists[idx[edges[k].0]] + [idx[edges[k].1]]], edges[..k + 1], idx)
  {
    var u, v := idx[edges[k].0], idx[edges[k].1];
    var lists' := lists[u := lists[u] + [v]];
    forall i | 0 <= i < |lists'| ensures lists'[i] == before[i] + Targets(edges[..k + 1], idx, i) {
      TargetsPrefix(edges, idx, k, i);
    }
  }

  lemma InRangePush(lists: seq<seq<nat>>, n: nat, u: nat, v: nat)
    requires InRange(lists, n) && u < |lists| && v < n
    ensures InRange(lists[u := lists[u] + [v]], n)
  {
  }

  lemma {:induction false} TargetsSnoc(edges: EdgeList, e: Edge, idx: map<string, nat>, i: nat)
    requires Indexed(edges + [e], idx)
    ensures Indexed(edges, idx) && e.0 in idx && e.1 in idx
    ensures Targets(edges + [e], idx, i) == Targets(edges, idx, i) + (if idx[e.0] == i then [idx[e.1]] else [])
  {
    assert (edges + [e])[..|edges|] == edges;
    assert (edges + [e])[|edges|] == e;
    forall k | 0 <= k < |edges| ensures edges[k].0 in idx && edges[k].1 in idx {
      assert (edges + [e])[k] == edges[k];
    }
  }

  lemma DoubledIndexed(edges: EdgeList, idx: map<string, nat>)
    requires Indexed(edges, idx)
    ensures Indexed(Doubled(edges), idx)
  {
    var d := Doubled(edges);
    forall k | 0 <= k < |d| ensures d[k].0 in idx && d[k].1 in idx {
      DoubledAt(edges, k / 2);
    }
  }

  /** In the doubled list, `j` occurs among the targets of `i` exactly as often
      as `i` among the targets of `j`. */
  lemma {:induction false} DoubledSymmetric(edges: EdgeList, idx: map<string, nat>, i: nat, j: nat)
    requires Indexed(edges, idx)
    ensures Indexed(Doubled(edges), idx)
    ensures multiset(Targets(Doubled(edges), idx, i))[j] == multiset(Targets(Doubled(edges), idx, j))[i]
  {
    DoubledIndexed(edges, idx);
    if edges != [] {
      var p, e := edges[..|edges| - 1], edges[|edges| - 1];
      assert Indexed(p, idx);
      DoubledSymmetric(p, idx, i, j);
      var dp := Doubled(p);
      var e' := (e.1, e.0);
      assert Doubled(edges) == (dp + [e]) + [e'];
      TargetsSnoc(dp + [e], e', idx, i);
      TargetsSnoc(dp + [e], e', idx, j);
      TargetsSnoc(dp, e, idx, i);
      TargetsSnoc(dp, e, idx, j);
    }
  }

  lemma DoubledIndexedOriginal(edges: EdgeList, idx: map<string, nat>)
    requires Indexed(Doubled(edges), idx)
    ensures Indexed(edges, idx)
  {
    forall k | 0 <= k < |edges| ensures edges[k].0 in idx && edges[k].1 in idx {
      DoubledAt(edges, k);
    }
  }

  lemma SortedListsOfSorted(lists: seq<seq<nat>>)
    requires forall i :: 0 <= i < |lists| ==> Sorted(lists[i], IndexLe)
    ensures SortedLists(lists) == lists
  {
    forall i | 0 <= i < |lists| ensures SortedLists(lists)[i] == lists[i] {
      SortByOfSorted(lists[i], IndexLe);
    }
  }

  /** Lists holding the targets of a doubled edge list are symmetric, counting
      repeats. */
  lemma UndirectedSymmetric(edges: EdgeList, idx: map<string, nat>, lists: seq<seq<nat>>)
    requires Indexed(edges, idx) && Indexed(Doubled(edges), idx)
    requires forall i :: 0 <= i < |lists| ==> lists[i] == SortBy(Targets(Doubled(edges), idx, i), IndexLe)
    ensures SymmetricCounts(lists) && Symmetric(lists)
  {
    forall i, j | 0 <= i < |lists| && 0 <= j < |lists|
      ensures multiset(lists[i])[j] == multiset(lists[j])[i]
    {
      DoubledSymmetric(edges, idx, i, j);
    }
    forall i, j | 0 <= i < |lists| && 0 <= j < |lists|
      ensures j in lists[i] <==> i in lists[j]
    {
      assert j in lists[i] <==> j in multiset(lists[i]);
      assert i in lists[j] <==> i in multiset(lists[j]);
    }
  }

  lemma {:induction false} TotalLengthEmpty(lists: seq<seq<nat>>)
    requires forall i :: 0 <= i < |lists| ==> lists[i] == []
    ensures TotalLength(lists) == 0
  {
    if lists != [] {
      TotalLengthEmpty(lists[..|lists| - 1]);
    }
  }

  /** The labels `create_directed` keeps: the endpoints, sorted, without repeats. */
  lemma NodeLabelsOf(edges: EdgeList)
    ensures StrictlyAscending(Dedup(SortBy(Endpoints(edges), LexLe)))
    ensures forall x :: x in Dedup(SortBy(Endpoints(edges), LexLe)) <==> x in Endpoints(edges)
  {
    var ends := Endpoints(edges);
    var sorted := SortBy(ends, LexLe);
    LexLeTotalPreorder();
    SortBySorted(ends, LexLe);
    DedupStrictlyAscending(sorted);
    forall x ensures x in sorted <==> x in ends {
      assert x in multiset(sorted) <==> x in multiset(ends);
    }
  }

  /** If every endpoint is a label, an index of the labels covers every edge. */
  lemma EndpointsIndexed(edges: EdgeList, labels: seq<string>, idx: map<string, nat>)
    requires forall x :: x in Endpoints(edges) ==> x in labels
    requires IsIndex(idx, labels)
    ensures Indexed(edges, idx)
  {
    var ends := Endpoints(edges);
    forall k | 0 <= k < |edges| ensures edges[k].0 in idx && edges[k].1 in idx {
      EndpointsAt(edges, k);
      assert edges[k].0 in ends && edges[k].1 in ends;
      var a :| 0 <= a < |labels| && labels[a] == edges[k].0;
      var b :| 0 <= b < |labels| && labels[b] == edges[k].1;
    }
  }

  /** What building a graph from `edges` yields: the labels are exactly the
      endpoints, strictly ascending, `idx` is their index, and the list of
      node `i` is the sorted list of its targets. */
  ghost predicate BuiltFrom(edges: EdgeList, labels: seq<string>, idx: map<string, nat>, lists: seq<seq<nat>>)
  {
    && StrictlyAscending(labels)
    && (forall x :: x in labels <==> x in Endpoints(edges))
    && IsIndex(idx, labels)
    && Indexed(edges, idx)
    && |lists| == |labels|
    && (forall i :: 0 <= i < |lists| ==> lists[i] == SortBy(Targets(edges, idx, i), IndexLe))
  }

  /** The labels of a built graph are the endpoints sorted and deduplicated,
      whatever order the edges came in. */
  lemma LabelsDetermined(edges: EdgeList, labels: seq<string>)
    requires StrictlyAscending(labels)
    requires forall x :: x in labels <==> x in Endpoints(edges)
    ensures labels == Dedup(SortBy(Endpoints(edges), LexLe))
  {
    NodeLabelsOf(edges);
    StrictlyAscendingUnique(labels, Dedup(SortBy(Endpoints(edges), LexLe)));
  }

  /** The labels of the doubled edge list are those of the original. */
  lemma {:induction false} DoubledSameEndpoints(edges: EdgeList)
    ensures forall x :: x in Endpoints(Doubled(edges)) <==> x in Endpoints(edges)
  {
    if edges != [] {
      var p, e := edges[..|edges| - 1], edges[|edges| - 1];
      DoubledSameEndpoints(p);
      var dp := Doubled(p);
      assert Doubled(edges) == (dp + [e]) + [(e.1, e.0)];
      EndpointsSnoc(dp + [e], (e.1, e.0));
      EndpointsSnoc(dp, e);
      assert edges == p + [e];
      EndpointsSnoc(p, e);
    }
  }

  /** Maps each label to its position (the `enumerate` loop of `create_directed`). */
  method IndexLabels(labels: seq<string>) returns (m: map<string, nat>)
    requires StrictlyAscending(labels)
    ensures IsIndex(m, labels)
  {
    m := map[];
    for i := 0 to |labels|
      invariant forall j :: 0 <= j < i ==> labels[j] in m && m[labels[j]] == j
      invariant forall x :: x in m ==> m[x] < i && labels[m[x]] == x
    {
      LexLessIrreflexive(labels[i]);
      m := m[labels[i] := i];
    }
  }

  /** The distinct labels of the edges in ascending order, and their index. */
  method CollectLabels(edges: EdgeList) returns (nodeLabels: seq<string>, nodeIndices: map<string, nat>)
    ensures StrictlyAscending(nodeLabels)
    ensures IsIndex(nodeIndices, nodeLabels)
    ensures forall x :: x in nodeLabels <==> x in Endpoints(edges)
    ensures Indexed(edges, nodeIndices)
  {
    nodeLabels := Endpoints(edges);
    nodeLabels := SortBy(nodeLabels, LexLe);
    nodeLabels := Dedup(nodeLabels);
    NodeLabelsOf(edges);
    nodeIndices := IndexLabels(nodeLabels);
    EndpointsIndexed(edges, nodeLabels, nodeIndices);
  }

  /** Pushes each pair and then its reverse (the loop of `create_undirected`). */
  method DoubleEdges(edges: EdgeList) returns (directedEdges: EdgeList)
    ensures directedEdges == Doubled(edges)
  {
    directedEdges := [];
    for k := 0 to |edges|
      invariant directedEdges == Doubled(edges[..k])
    {
      assert edges[..k + 1][..k] == edges[..k];
      directedEdges := directedEdges + [(edges[k].0, edges[k].1)];
      directedEdges := directedEdges + [(edges[k].1, edges[k].0)];
    }
    assert edges[..|edges|] == edges;
  }

  class Graph {
    var nodeCount: nat
    var outerEdges: seq<seq<nat>>
    var nodeLabels: seq<string>
    var nodeIndices: map<string, nat>

    /** The labels are strictly ascending, the index is their inverse, and
        every neighbour is a node. */
    ghost predicate Valid()
      reads this
    {
      && nodeCount == |nodeLabels| == |outerEdges|
      && StrictlyAscending(nodeLabels)
      && IsIndex(nodeIndices, nodeLabels)
      && InRange(outerEdges, nodeCount)
    }

    /** Builds the graph from its four parts. Any parts are accepted, as the
        struct literal accepts them; the graph is valid exactly when the
        labels are strictly ascending, the index is their inverse, there is
        one list per label and every listed neighbour is a node. */
    constructor (nodeCount: nat, outerEdges: seq<seq<nat>>, nodeLabels: seq<string>, nodeIndices: map<string, nat>)
      ensures this.nodeCount == nodeCount && this.outerEdges == outerEdges
      ensures this.nodeLabels == nodeLabels && this.nodeIndices == nodeIndices
      ensures Valid() <==>
        && nodeCount == |nodeLabels| == |outerEdges|
        && StrictlyAscending(nodeLabels) && IsIndex(nodeIndices, nodeLabels)
        && InRange(outerEdges, nodeCount)
    {
      this.nodeCount := nodeCount;
      this.outerEdges := outerEdges;
      this.nodeLabels := nodeLabels;
      this.nodeIndices := nodeIndices;
    }

    /** Appends the index of `v` to the list of `u` for every pair `(u, v)`. */
    method AddDirectedEdges(edges: EdgeList)
      requires Valid() && Indexed(edges, nodeIndices)
      modifies this`outerEdges
      ensures Valid()
      ensures Added(old(outerEdges), outerEdges, edges, nodeIndices)
      ensures TotalLength(outerEdges) == old(TotalLength(outerEdges)) + |edges|
    {
      ghost var before := outerEdges;
      for k := 0 to |edges|
        invariant Valid()
        invariant Added(before, outerEdges, edges[..k], nodeIndices)
        invariant TotalLength(outerEdges) == TotalLength(before) + k
      {
        var uIndex := nodeIndices[edges[k].0];
        var vIndex := nodeIndices[edges[k].1];
        AddedPush(before, outerEdges, edges, nodeIndices, k);
        InRangePush(outerEdges, nodeCount, uIndex, vIndex);
        TotalLengthPush(outerEdges, uIndex, vIndex);
        outerEdges := outerEdges[uIndex := outerEdges[uIndex] + [vIndex]];
      }
      assert edges[..|edges|] == edges;
    }

    /** Sorts every adjacency list ascending. */
    method SortGraphLists()
      requires Valid()
      modifies this`outerEdges
      ensures Valid()
      ensures outerEdges == SortedLists(old(outerEdges))
      ensures TotalLength(outerEdges) == old(TotalLength(outerEdges))
    {
      ghost var sorted := SortedLists(outerEdges);
      for i := 0 to nodeCount
        invariant |outerEdges| == nodeCount
        invariant forall h :: 0 <= h < i ==> outerEdges[h] == sorted[h]
        invariant forall h :: i <= h < nodeCount ==> outerEdges[h] == old(outerEdges[h])
      {
        outerEdges := outerEdges[i := SortBy(outerEdges[i], IndexLe)];
      }
      forall i, j | 0 <= i < |outerEdges| && 0 <= j < |outerEdges[i]| ensures outerEdges[i][j] < nodeCount {
        assert outerEdges[i][j] in multiset(old(outerEdges[i]));
      }
      TotalLengthOfLengths(outerEdges, old(outerEdges));
    }

    /** The graph of the pairs read as directed edges. */
    static method CreateDirected(edges: EdgeList) returns (g: Graph)
      ensures fresh(g) && g.Valid()
      ensures BuiltFrom(edges, g.nodeLabels, g.nodeIndices, g.outerEdges)
      ensures forall i :: 0 <= i < g.nodeCount ==>
                Sorted(g.outerEdges[i], IndexLe) && multiset(g.outerEdges[i]) == multiset(Targets(edges, g.nodeIndices, i))
      ensures TotalLength(g.outerEdges) == |edges|
    {
      var nodeLabels, nodeIndices := CollectLabels(edges);
      var nodeCount := |nodeLabels|;
      var outerEdges: seq<seq<nat>> := seq(nodeCount, _ => []);
      g := new Graph(nodeCount, outerEdges, nodeLabels, nodeIndices);
      TotalLengthEmpty(outerEdges);
      g.AddDirectedEdges(edges);
      ghost var added := g.outerEdges;
      forall i | 0 <= i < nodeCount ensures added[i] == Targets(edges, nodeIndices, i) {
        assert outerEdges[i] == [];
      }
      g.SortGraphLists();
      forall i | 0 <= i < nodeCount ensures g.outerEdges[i] == SortBy(Targets(edges, nodeIndices, i), IndexLe) {
        assert g.outerEdges[i] == SortedLists(added)[i];
      }
    }

    /** The graph of the pairs read as undirected edges: each pair and its
        reverse are added. */
    static method CreateUndirected(edges: EdgeList) returns (g: Graph)
      ensures fresh(g) && g.Valid()
      ensures BuiltFrom(Doubled(edges), g.nodeLabels, g.nodeIndices, g.outerEdges)
      ensures Indexed(edges, g.nodeIndices)
      ensures forall x :: x in g.nodeLabels <==> x in Endpoints(edges)
      ensures TotalLength(g.outerEdges) == 2 * |edges|
      ensures SymmetricCounts(g.outerEdges) && Symmetric(g.outerEdges)
    {
      var directedEdges := DoubleEdges(edges);
      g := CreateDirected(directedEdges);
      ghost var built := g.outerEdges;
      g.SortGraphLists();
      SortedListsOfSorted(built);
      DoubledIndexedOriginal(edges, g.nodeIndices);
      DoubledSameEndpoints(edges);
      ghost var lists, idx := g.outerEdges, g.nodeIndices;
      UndirectedSymmetric(edges, idx, lists);
    }
  }
}
