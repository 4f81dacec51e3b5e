# Path-counting centrality of a labelled graph

This project models the core of a small Rust program that reads a list of
`(label, label)` pairs, builds a graph from them, and scores every node. It
proves properties of the model in Dafny.

The model has two parts, in the order the program uses them.

**Graph construction** (`Graphs`, with `Labels` and `Sequences`).
- `Graph.CreateDirected` collects every endpoint of the pairs, sorts the
  labels and removes repeats. It then indexes them, giving the label list
  (index → label) and the label map (label → index).
- It then appends, for each pair `(u, v)` in input order, the index of `v` to
  the adjacency list of `u`. Repeated pairs are kept.
- Finally it sorts every adjacency list ascending.
- `Graph.CreateUndirected` feeds each pair and its reverse to
  `CreateDirected`, then sorts the lists once more.
- The `Graph` class keeps the four fields of the Rust struct. `Valid()` ties
  them together: the labels are strictly ascending, the map is their inverse,
  and every neighbour index names a node.

**Centrality** (`Centrality`).
- For each source `s`, `Traverse` runs the breadth-first traversal. It keeps a
  distance and a path count per node and a FIFO queue of labels.
- `SourceScore` sums the path counts of the nodes `t ≠ s` at distance
  `distance[s] + 1`, each divided by the path count of `s`.
- `Rank` pairs each score with its label and sorts the pairs by descending
  score with a stable sort.
- `ReadTopThree` reads the first three ranked pairs.

The main results:
- The labels are exactly the endpoints, strictly ascending, and the label ↔
  index map is a bijection. So no lookup can fail.
- Adding edges appends exactly one entry per pair, and sorting permutes each
  list into ascending order. Sorting is idempotent, so the second sort in
  `create_undirected` changes nothing.
- The undirected lists are symmetric, counting repeats.
- During a traversal the source keeps distance 0 and path count 1. A node is
  pushed onto the queue only when it is first reached, so each node enters
  the queue at most once. Every queued node has a distance, and the loop
  terminates.
- The score of `s` equals the number of entries of `s`'s adjacency list that
  are not `s` itself. In an undirected graph this is the number of input
  pairs that join `s` to another node.
- The ranking is a permutation of the scored labels, sorted by descending
  score. Equal scores keep ascending label order.

Library routines the program calls (`Vec::sort`, `sort_by`, `dedup`) are
modelled as pure functions in `Sequences`. `sort` and `sort_by` are a stable
insertion sort; for a total preorder the stable result is unique, so this
choice does not matter. Rust orders `String`s lexicographically by bytes,
which is the same as by Unicode scalar values. `LexLess` compares `char`s.

The source differs from a plain reading of its design in two places. The
model follows the code.
- The adjacency lists of an undirected graph are sorted twice:
  `create_directed` sorts them (centrality.rs:45), then `create_undirected`
  sorts them again (centrality.rs:62). The model does both and proves the
  second sort changes nothing.
- With fewer than three nodes, the top-3 loop indexes past the end of the
  ranking and panics (centrality.rs:112-113). `ReadTopThree` returns
  `InsufficientNodes` in exactly that case.

## Model

| member | source | states |
|---|---|---|
| `Sequences.SortBy` | centrality.rs:26 | the sorted sequence has the same length and the same multiset of elements as its input |
| `Sequences.SortBySorted` | centrality.rs:51 | under a total preorder, the result of the sort is sorted |
| `Sequences.SortByIdempotent` | centrality.rs:62 | sorting a sorted result again gives the same sequence |
| `Sequences.SortByTies` | centrality.rs:110 | stability: elements that compare equal stay in their input order |
| `Sequences.Dedup` | centrality.rs:27 | removing consecutive repeats never lengthens the sequence, keeps the same set of elements and the last element, and leaves no two equal neighbours |
| `Sequences.DedupSorted` | centrality.rs:26-27 | dedup of a sorted sequence is sorted |
| `Labels.LexLeTotalPreorder` | centrality.rs:26 | string order is total and transitive, so sorting labels is well defined |
| `Labels.DedupStrictlyAscending` | centrality.rs:26-27 | sorting then deduplicating the labels makes them strictly ascending, so no label repeats |
| `Labels.StrictlyAscendingUnique` | centrality.rs:25-27 | two strictly ascending label lists with the same elements are equal, so the node numbering depends only on the set of labels |
| `Labels.IndexBijection` | centrality.rs:31-34 | the label map's keys are the labels and its values are exactly `0 .. node_count-1`, each value hit once |
| `Graphs.EndpointsAt` | centrality.rs:25 | the collected endpoint list holds `u` then `v` for every pair, in input order |
| `Graphs.DoubledAt` | centrality.rs:57-59 | the doubled edge list holds every pair followed by its reverse |
| `Graphs.NodeLabelsOf` | centrality.rs:25-27 | the kept labels are strictly ascending and are exactly the endpoints of the pairs |
| `Graphs.LabelsDetermined` | centrality.rs:25-29 | any strictly ascending list of exactly the endpoints equals the sorted, deduplicated endpoints |
| `Graphs.IndexLabels` | centrality.rs:31-34 | the insertion loop builds the inverse of the label list: `idx[labels[i]] == i` for each i, and every key maps back to its label |
| `Graphs.CollectLabels` | centrality.rs:25-34 | the label list is strictly ascending and holds exactly the endpoints; the map is its inverse and covers both ends of every pair |
| `Graphs.DoubleEdges` | centrality.rs:56-60 | the push loop yields each pair followed by its reverse |
| `Graphs.DoubledSameEndpoints` | centrality.rs:56-61 | doubling the pairs adds no label and loses none |
| `Graphs.SortedLists` | centrality.rs:49-53 | each resulting list is sorted ascending and is a permutation of the list it replaces |
| `Graphs.SortedListsIdempotent` | centrality.rs:61-62 | sorting all lists twice equals sorting them once |
| `Graphs.AddedPush` | centrality.rs:17-20 | one push for pair `k` extends the adjacency lists from the first `k` pairs to the first `k+1` pairs |
| `Graphs.TotalLengthPush` | centrality.rs:20 | one push adds exactly one entry over all lists |
| `Graphs.DoubledSymmetric` | centrality.rs:57-59 | after doubling, `j` occurs among the targets of `i` as often as `i` among the targets of `j` |
| `Graphs.UndirectedSymmetric` | centrality.rs:55-64 | the undirected lists are symmetric, counting repeats, and so `j` is a neighbour of `i` iff `i` is a neighbour of `j` |
| `Graphs.Graph.constructor` | centrality.rs:37-42 | the graph holds exactly the four values it is built from, and it is valid exactly when the labels are strictly ascending, the map is their inverse, there is one list per label and every neighbour index names a node |
| `Graphs.Graph.AddDirectedEdges` | centrality.rs:16-22 | each list becomes its old contents followed by the target indices of its pairs, in input order; total length grows by the number of pairs; the graph stays valid |
| `Graphs.Graph.SortGraphLists` | centrality.rs:49-53 | the lists become their sorted permutations, total length is unchanged, and the graph stays valid |
| `Graphs.Graph.CreateDirected` | centrality.rs:24-47 | a fresh valid graph with strictly ascending labels exactly the endpoints, its map covers every pair, each list is the sorted targets of its node, total length equals the number of pairs |
| `Graphs.Graph.CreateUndirected` | centrality.rs:55-64 | the directed graph of the doubled pairs, with the same labels as the input pairs, total length twice the number of pairs, and symmetric lists |
| `Centrality.UnvisitedReach` | centrality.rs:85-88 | reaching an unvisited node lowers the number of unvisited nodes by one (the traversal's termination measure) |
| `Centrality.RelaxNeighbour` | centrality.rs:83-91 | the exact step: an unreached neighbour `u` gets distance `distance[v] + 1`, gains `num_paths[v]` paths and is pushed onto the back of the queue; a `u` already at distance `distance[v] + 1` gains `num_paths[v]` paths and nothing else changes; any other `u` changes nothing |
| `Centrality.RelaxKeeps` | centrality.rs:83-91 | that step keeps the source at distance 0 with one path, conserves queue length plus unvisited count, keeps every queued node reached and beyond the source, and keeps the log of enqueued nodes listing each reached node exactly once; the depth-one counts advance |
| `Centrality.AppendedStep` | centrality.rs:85-88 | that step only appends to the queue, appends only a node that was unreached when the round began, and never changes a distance already set |
| `Centrality.RelaxNeighbours` | centrality.rs:81-92 | one dequeue round keeps the traversal invariants; the queue and the log are only appended to, with the same nodes, each unreached when the round began; set distances never change; after the source's own round, the nodes at distance 1 are exactly its neighbours, each with as many paths as occurrences |
| `Centrality.QueueIsLogTail` | centrality.rs:80-92 | the queue is always the tail of the log of enqueued nodes: popping the front and appending a round's nodes to both keeps it so |
| `Centrality.Traverse` | centrality.rs:72-93 | the traversal ends with `distance[s] == Some(0)` and `num_paths[s] == 1`; apart from `s`, the nodes at distance 1 are exactly the neighbours of `s`, each with a path count equal to its occurrences in `s`'s list; the log of enqueued nodes starts with `s`, holds exactly the reached nodes and no node twice |
| `Centrality.SourceScore` | centrality.rs:95-103 | the score is the sum over `t ≠ s` at distance 1 of `num_paths[t]` divided by `num_paths[s]`, which is 1 |
| `Centrality.ScoreIsNonLoopDegree` | centrality.rs:85-103 | for a finished traversal, that sum equals the number of entries of `s`'s list other than `s` |
| `Centrality.NonLoopDegreePermutation` | centrality.rs:51 | reordering a list (as the sort does) leaves the score unchanged |
| `Centrality.DoubledNonLoopDegree` | centrality.rs:57-59 | over the doubled pairs, node `i`'s non-self entries count the pairs that join `i` to another node |
| `Centrality.UndirectedScore` | centrality.rs:55-105 | in an undirected graph a node's score is the number of input pairs joining it to a different node; self-loops add nothing, and repeated pairs count each time |
| `Centrality.ComputeScores` | centrality.rs:69-107 | the score array holds, for every node, the number of non-self entries of its adjacency list |
| `Centrality.RankingOrder` | centrality.rs:109-110 | the stable descending sort of the scored labels is a permutation of them, sorted non-increasing by score, with equal scores in ascending label order |
| `Centrality.Rank` | centrality.rs:109-110 | the ranking has one pair per node, is a permutation of the scored labels, is sorted non-increasing by score, and equal scores keep ascending label order |
| `Centrality.ReadTopThree` | centrality.rs:112-115 | with at least three entries, the first three are returned; otherwise the read fails with `InsufficientNodes` and the entry count |
| `Centrality.ComputeCentralities` | centrality.rs:66-116 | the scores, the ranking, and the top-3 read, with all the properties above combined |
| `Examples.SingleEdge` | centrality.rs:55-105 | undirected A-B: labels `[A, B]`, both score 1 |
| `Examples.PathOfThree` | centrality.rs:55-105 | undirected path A-B-C: labels `[A, B, C]`, B scores 2, A and C score 1 |
| `Examples.Triangle` | centrality.rs:55-105 | undirected triangle: every node scores 2 |
| `Examples.RepeatedEdge` | centrality.rs:16-22 | the pair A-B given twice is kept twice, so both nodes score 2 |
| `Examples.PathRanking` | centrality.rs:109-110 | the path's scores rank as B (2), then A (1), then C (1) |

## Left out

- Reading the pairs from a CSV file (read_file.rs) and the hard-coded file name and wiring (main.rs) are not part of this model. The pairs are a parameter.
- The `println!` output of each score and of the top three (centrality.rs:106, 111, 114) is left out. The scores, the ranking and the top three are returned instead.
- Floating point: scores are natural numbers. The divisor `num_paths[s]` is proved to be 1, so the `f64` only ever carries an integer sum. The `partial_cmp(...).unwrap()` of the ranking becomes a total comparison on naturals.
- `u32` overflow of `num_paths` and of the distances (centrality.rs:72-73, 86-90) is not modelled. Both are unbounded naturals.
- The `HashMap` is a Dafny `map`. Hashing and capacity are left out.
- `Vec::sort`, `sort_by` and `dedup` are library code. They are modelled as pure functions on sequences. The lists they sort in place are reassigned with the sorted value.
- The per-source `distance` and `num_paths` vectors and the queue are sequences that the traversal methods reassign, not arrays updated in place. No aliasing is possible, since they are local to one source.
- Dedup: its contract fixes the result only on sorted input (through `DedupSorted` and `Labels.StrictlyAscendingUnique`), which is the only input the program gives it. On unsorted input it does not state the order of the kept elements.
- Traverse: proves the facts the score reads: the source's distance and path count, which nodes are at distance 1, their path counts, and that each node is queued at most once. It does not prove that deeper distances are shortest-path distances, or that deeper path counts count shortest paths.
