/**
 * The workflow graph of `MultiAgentSystem._build_graph`: four nodes, an entry
 * point and one outgoing edge per node.
 */
module Graph {
  datatype Node = QueryUnderstanding | DataExtraction | Validation | ResponseGeneration

  /** Where an edge leads: another node or the graph's `END`. */
  datatype Target = To(node: Node) | End

  const Entry: Node := QueryUnderstanding

  /** The edges in the order they are added. */
  const Edges: seq<(Node, Target)> := [
    (QueryUnderstanding, To(DataExtraction)),
    (DataExtraction, To(Validation)),
    (Validation, To(ResponseGeneration)),
    (ResponseGeneration, End)
  ]

  /** The first edge out of `n` among `edges`, if any. */
  function EdgeFrom(edges: seq<(Node, Target)>, n: Node): (t: Target)
    ensures t.To? ==> exists i :: 0 <= i < |edges| && edges[i] == (n, t)
  {
    if edges == [] then End
    else if edges[0].0 == n then edges[0].1
    else
      var t := EdgeFrom(edges[1..], n);
      assert t.To? ==> exists i :: 0 <= i < |edges[1..]| && edges[1..][i] == (n, t);
      if t.To? then
        var i :| 0 <= i < |edges[1..]| && edges[1..][i] == (n, t);
        assert edges[i + 1] == (n, t);
        t
      else t
  }

  /** The nodes visited from `n` until `END`, following at most `fuel` edges. */
  function Walk(n: Node, fuel: nat): (path: seq<Node>)
    ensures 1 <= |path| <= fuel + 1 && path[0] == n
    decreases fuel
  {
    match EdgeFrom(Edges, n)
    case End => [n]
    case To(m) => if fuel == 0 then [n] else [n] + Walk(m, fuel - 1)
  }

  /** Each node has exactly one successor. */
  lemma EachNodeHasOneEdge(n: Node)
    ensures |set i | 0 <= i < |Edges| && Edges[i].0 == n| == 1
  {
    var s := set i | 0 <= i < |Edges| && Edges[i].0 == n;
    var k := match n
      case QueryUnderstanding => 0
      case DataExtraction => 1
      case Validation => 2
      case ResponseGeneration => 3;
    assert s == {k};
  }

  /** A query visits the four stages once each, in this order, and then ends. */
  lemma ExecutionOrder()
    ensures Walk(Entry, 4) == [QueryUnderstanding, DataExtraction, Validation, ResponseGeneration]
    ensures EdgeFrom(Edges, ResponseGeneration) == End
  {
    assert EdgeFrom(Edges, ResponseGeneration) == End;
    assert Walk(ResponseGeneration, 1) == [ResponseGeneration];
    assert Walk(Validation, 2) == [Validation, ResponseGeneration];
    assert Walk(DataExtraction, 3) == [DataExtraction, Validation, ResponseGeneration];
  }
}
