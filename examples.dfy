/**
  Worked cases of the undirected centrality: a single edge, a path of three
  nodes, a triangle and a repeated edge. Each lemma takes what building the
  undirected graph guarantees (`BuiltFrom` on the doubled edge list) and
  concludes the labels and the score `NonLoopDegree(lists[s], s)` that
  `ComputeCentralities` gives every node `s`.
 */
module Examples {
  import opened Sequences
  import opened Labels
  import opened Graphs
  import opened Centrality

  /** The labels of an undirected graph are its endpoints in ascending order;
      a strictly ascending candidate with the same elements is them. */
  lemma UndirectedLabels(edges: EdgeList, labels: seq<string>, idx: map<string, nat>, lists: seq<seq<nat>>, expected: seq<string>)
    requires BuiltFrom(Doubled(edges), labels, idx, lists)
    requires StrictlyAscending(expected)
    requires forall x :: x in expected <==> x in Endpoints(edges)
    ensures labels == expected && |lists| == |expected|
    ensures forall i :: 0 <= i < |expected| ==> expected[i] in idx && idx[expected[i]] == i
    ensures Indexed(edges, idx)
  {
    DoubledSameEndpoints(edges);
    StrictlyAscendingUnique(labels, expected);
    DoubledIndexedOriginal(edges, idx);
  }

  /** A and B in ascending order, and A, B and C. */
  lemma AscendingLetters()
    ensures StrictlyAscending(["A", "B"]) && StrictlyAscending(["A", "B", "C"])
  {
  }

  /** The labels each example's edges mention. */
  lemma SingleEdgeNodes()
    ensures forall x :: x in ["A", "B"] <==> x in Endpoints([("A", "B")])
  {
    assert Endpoints([("A", "B")]) == ["A", "B"];
  }

  lemma PathNodes()
    ensures forall x :: x in ["A", "B", "C"] <==> x in Endpoints([("A", "B"), ("B", "C")])
  {
    assert Endpoints([("A", "B"), ("B", "C")]) == ["A", "B", "B", "C"];
  }

  lemma TriangleNodes()
    ensures forall x :: x in ["A", "B", "C"] <==> x in Endpoints([("A", "B"), ("B", "C"), ("C", "A")])
  {
    assert Endpoints([("A", "B"), ("B", "C"), ("C", "A")]) == ["A", "B", "B", "C", "C", "A"];
  }

  lemma RepeatedNodes()
    ensures forall x :: x in ["A", "B"] <==> x in Endpoints([("A", "B"), ("A", "B")])
  {
    assert Endpoints([("A", "B"), ("A", "B")]) == ["A", "B", "A", "B"];
  }

  /** One edge A-B: both nodes score 1. */
  lemma SingleEdge(labels: seq<string>, idx: map<string, nat>, lists: seq<seq<nat>>)
    requires BuiltFrom(Doubled([("A", "B")]), labels, idx, lists)
    ensures labels == ["A", "B"] && |lists| == 2
    ensures NonLoopDegree(lists[0], 0) == 1 && NonLoopDegree(lists[1], 1) == 1
  {
    var edges: EdgeList := [("A", "B")];
    AscendingLetters();
    SingleEdgeNodes();
    UndirectedLabels(edges, labels, idx, lists, ["A", "B"]);
    assert idx["A"] == 0 && idx["B"] == 1;
    Incident1(idx);
    UndirectedScore(edges, labels, idx, lists, 0);
    UndirectedScore(edges, labels, idx, lists, 1);
  }

  lemma Incident1(idx: map<string, nat>)
    requires "A" in idx && "B" in idx && idx["A"] == 0 && idx["B"] == 1
    ensures IncidentEdges([("A", "B")], idx, 0) == 1
    ensures IncidentEdges([("A", "B")], idx, 1) == 1
  {
    var e: EdgeList := [("A", "B")];
    assert e[..0] == [];
  }

  /** The path A-B-C: the middle node scores 2, the ends 1. */
  lemma PathOfThree(labels: seq<string>, idx: map<string, nat>, lists: seq<seq<nat>>)
    requires BuiltFrom(Doubled([("A", "B"), ("B", "C")]), labels, idx, lists)
    ensures labels == ["A", "B", "C"] && |lists| == 3
    ensures NonLoopDegree(lists[0], 0) == 1
    ensures NonLoopDegree(lists[1], 1) == 2
    ensures NonLoopDegree(lists[2], 2) == 1
  {
    var edges: EdgeList := [("A", "B"), ("B", "C")];
    AscendingLetters();
    PathNodes();
    UndirectedLabels(edges, labels, idx, lists, ["A", "B", "C"]);
    assert idx["A"] == 0 && idx["B"] == 1 && idx["C"] == 2;
    Incident2(idx);
    UndirectedScore(edges, labels, idx, lists, 0);
    UndirectedScore(edges, labels, idx, lists, 1);
    UndirectedScore(edges, labels, idx, lists, 2);
  }

  lemma Incident2(idx: map<string, nat>)
    requires "A" in idx && "B" in idx && "C" in idx
    requires idx["A"] == 0 && idx["B"] == 1 && idx["C"] == 2
    ensures IncidentEdges([("A", "B"), ("B", "C")], idx, 0) == 1
    ensures IncidentEdges([("A", "B"), ("B", "C")], idx, 1) == 2
    ensures IncidentEdges([("A", "B"), ("B", "C")], idx, 2) == 1
  {
    var e: EdgeList := [("A", "B"), ("B", "C")];
    assert e[..1] == [("A", "B")];
    Incident1(idx);
    assert e[|e| - 1] == ("B", "C");
    assert IncidentEdges(e, idx, 0) == IncidentEdges(e[..1], idx, 0) + 0;
    assert IncidentEdges(e, idx, 1) == IncidentEdges(e[..1], idx, 1) + 1;
    assert IncidentEdges(e, idx, 2) == IncidentEdges(e[..1], idx, 2) + 1;
    assert IncidentEdges([("A", "B")], idx, 2) == 0;
  }

  /** The triangle A-B, B-C, C-A: every node scores 2. */
  lemma Triangle(labels: seq<string>, idx: map<string, nat>, lists: seq<seq<nat>>)
    requires BuiltFrom(Doubled([("A", "B"), ("B", "C"), ("C", "A")]), labels, idx, lists)
    ensures labels == ["A", "B", "C"] && |lists| == 3
    ensures NonLoopDegree(lists[0], 0) == 2
    ensures NonLoopDegree(lists[1], 1) == 2
    ensures NonLoopDegree(lists[2], 2) == 2
  {
    var edges: EdgeList := [("A", "B"), ("B", "C"), ("C", "A")];
    AscendingLetters();
    TriangleNodes();
    UndirectedLabels(edges, labels, idx, lists, ["A", "B", "C"]);
    assert idx["A"] == 0 && idx["B"] == 1 && idx["C"] == 2;
    Incident3(idx);
    UndirectedScore(edges, labels, idx, lists, 0);
    UndirectedScore(edges, labels, idx, lists, 1);
    UndirectedScore(edges, labels, idx, lists, 2);
  }

  lemma Incident3(idx: map<string, nat>)
    requires "A" in idx && "B" in idx && "C" in idx
    requires idx["A"] == 0 && idx["B"] == 1 && idx["C"] == 2
    ensures IncidentEdges([("A", "B"), ("B", "C"), ("C", "A")], idx, 0) == 2
    ensures IncidentEdges([("A", "B"), ("B", "C"), ("C", "A")], idx, 1) == 2
    ensures IncidentEdges([("A", "B"), ("B", "C"), ("C", "A")], idx, 2) == 2
  {
    var e: EdgeList := [("A", "B"), ("B", "C"), ("C", "A")];
    assert e[..2] == [("A", "B"), ("B", "C")];
    Incident2(idx);
  }

  /** The edge A-B given twice is kept twice: each node scores 2. */
  lemma RepeatedEdge(labels: seq<string>, idx: map<string, nat>, lists: seq<seq<nat>>)
    requires BuiltFrom(Doubled([("A", "B"), ("A", "B")]), labels, idx, lists)
    ensures labels == ["A", "B"] && |lists| == 2
    ensures NonLoopDegree(lists[0], 0) == 2 && NonLoopDegree(lists[1], 1) == 2
  {
    var edges: EdgeList := [("A", "B"), ("A", "B")];
    AscendingLetters();
    RepeatedNodes();
    UndirectedLabels(edges, labels, idx, lists, ["A", "B"]);
    assert idx["A"] == 0 && idx["B"] == 1;
    IncidentRepeated(idx);
    UndirectedScore(edges, labels, idx, lists, 0);
    UndirectedScore(edges, labels, idx, lists, 1);
  }

  lemma IncidentRepeated(idx: map<string, nat>)
    requires "A" in idx && "B" in idx && idx["A"] == 0 && idx["B"] == 1
    ensures IncidentEdges([("A", "B"), ("A", "B")], idx, 0) == 2
    ensures IncidentEdges([("A", "B"), ("A", "B")], idx, 1) == 2
  {
    var e: EdgeList := [("A", "B"), ("A", "B")];
    assert e[..1] == [("A", "B")];
    Incident1(idx);
  }

  /** The ranking of the path A-B-C: B first, then A and C in label order. */
  lemma PathRanking()
    ensures SortBy(WithLabels([1, 2, 1], ["A", "B", "C"]), ScoreGe) == [(2, "B"), (1, "A"), (1, "C")]
  {
    var w := WithLabels([1, 2, 1], ["A", "B", "C"]);
    assert w == [(1, "A"), (2, "B"), (1, "C")];
    assert w[..2] == [(1, "A"), (2, "B")];
    RankFirstTwo();
    RankThird();
  }

  lemma RankFirstTwo()
    ensures SortBy([(1, "A"), (2, "B")], ScoreGe) == [(2, "B"), (1, "A")]
  {
    var a, b: ScoredLabel := (1, "A"), (2, "B");
    var none: seq<ScoredLabel> := [];
    assert [a, b][..1] == [a];
    assert [a][..0] == none;
    assert SortBy([a], ScoreGe) == Insert(none, a, ScoreGe) == [a];
    assert Insert([a], b, ScoreGe) == [b, a];
  }

  lemma RankThird()
    ensures Insert([(2, "B"), (1, "A")], (1, "C"), ScoreGe) == [(2, "B"), (1, "A"), (1, "C")]
  {
    var a, b, c: ScoredLabel := (1, "A"), (2, "B"), (1, "C");
    var none: seq<ScoredLabel> := [];
    assert [b, a][1..] == [a];
    assert [a][1..] == none;
    assert Insert(none, c, ScoreGe) == [c];
    assert Insert([a], c, ScoreGe) == [a, c];
  }
}
