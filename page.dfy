/**
  The transaction-DAG page of the frontend (frontend/src/app/page.js): the
  staircase layout of the transaction nodes, the tagging of the dependency
  edges, and the choice of graph once the server's response has settled.
*/
module Page {
  import opened Wrappers
  import opened JsValues

  /** Radius unit `r` of the layout. */
  const Radius := 5
  /** The `size` stamped on every node. */
  const NodeSize := 10
  /** The block whose DAG the page loads. */
  const InitialBlockNumber := 2952107

  /** The fields a node takes from the layout rather than from its record. */
  const NodeKeys: set<string> := {"id", "label", "size", "x", "y"}
  /** The fields an edge takes from the tagging rather than from its record. */
  const EdgeKeys: set<string> := {"id", "type"}

  datatype Graph = Graph(nodes: seq<Record>, edges: seq<Record>)

  const EmptyGraph := Graph([], [])

  /** The body of a `/data/evm/transaction-dag` response. A field that is
      absent or `null` is `None`. */
  datatype Response = Response(transactions: Option<seq<Record>>, dags: Option<seq<Record>>)

  /** How the request settled: rejected (network error, non-2xx status,
      malformed JSON) or with a parsed body. */
  datatype Fetched = Failed | Received(response: Response)

  /** `Math.ceil(i / 4)`. */
  function CeilQuarter(i: nat): (c: nat)
    ensures 4 * c - 4 < i <= 4 * c
  {
    (i + 3) / 4
  }

  /** `+1` for the first two nodes of each band of four, `-1` for the last two. */
  function Direction(i: nat): (d: int)
    requires i > 0
    ensures d == 1 || d == -1
    ensures d == 1 <==> (i - 1) % 4 < 2
  {
    if (i - 1) % 4 <= 1 then 1 else -1
  }

  /** The x-coordinate of the node at array position `i`. */
  function LayoutX(i: nat): (x: int)
    ensures i == 0 ==> x == 0
    ensures i > 0 ==> x == Radius * CeilQuarter(i) || x == -(Radius * CeilQuarter(i))
  {
    if i == 0 then 0 else CeilQuarter(i) * Direction(i) * Radius
  }

  /** The y-coordinate of the node at array position `i`: the previous node's
      x-coordinate, negated. */
  function LayoutY(i: nat): (y: int)
    ensures i <= 1 ==> y == 0
    ensures i > 1 ==> y == Radius * CeilQuarter(i - 1) || y == -(Radius * CeilQuarter(i - 1))
    ensures i > 1 ==> (y > 0 <==> (i - 2) % 4 >= 2)
  {
    if i == 0 then 0 else -LayoutX(i - 1)
  }

  /** `{...item, id: item.index, label: `${item.index}`, size: 10, x, y}`. */
  function PositionedNode(item: Record, x: int, y: int): (node: Record)
    ensures node.Keys == item.Keys + NodeKeys
  {
    var index := Get(item, "index");
    item["id" := index]["label" := Str(ToJsString(index))]["size" := Num(NodeSize)]["x" := Num(x)]["y" := Num(y)]
  }

  /** A positioned node has every field of its record, then the five layout
      fields over them: the raw index as id, its string form as label, the
      fixed size and the two coordinates. */
  lemma PositionedNodeFields(item: Record, x: int, y: int)
    ensures PositionedNode(item, x, y).Keys == item.Keys + NodeKeys
    ensures forall k :: k in item && k !in NodeKeys ==> PositionedNode(item, x, y)[k] == item[k]
    ensures PositionedNode(item, x, y)["id"] == Get(item, "index")
    ensures PositionedNode(item, x, y)["label"] == Str(ToJsString(Get(item, "index")))
    ensures PositionedNode(item, x, y)["size"] == Num(NodeSize)
    ensures PositionedNode(item, x, y)["x"] == Num(x) && PositionedNode(item, x, y)["y"] == Num(y)
  {
  }

  /** The node list `processTransactionNodes` returns, built up one
      transaction at a time. */
  function LayoutNodes(transactions: seq<Record>): (nodes: seq<Record>)
    ensures |nodes| == |transactions|
    decreases |transactions|
  {
    if transactions == [] then []
    else
      var i := |transactions| - 1;
      LayoutNodes(transactions[..i]) + [PositionedNode(transactions[i], LayoutX(i), LayoutY(i))]
  }

  /** The node at position `i` is the transaction at position `i`, placed at
      the `i`-th layout position. */
  lemma {:induction false} LayoutNodesAt(transactions: seq<Record>, i: nat)
    requires i < |transactions|
    ensures LayoutNodes(transactions)[i] == PositionedNode(transactions[i], LayoutX(i), LayoutY(i))
  {
    var last := |transactions| - 1;
    var prefix := transactions[..last];
    if i < last {
      LayoutNodesAt(prefix, i);
      assert prefix[i] == transactions[i];
    }
  }

  /** `processTransactionNodes`: a single pass over the transactions that
      carries the previous node's x-coordinate (`preX`, unset before the
      first node) from one iteration to the next. */
  method ProcessTransactionNodes(transactions: seq<Record>) returns (nodes: seq<Record>)
    ensures nodes == LayoutNodes(transactions)
  {
    var preX: Option<int> := None;
    nodes := [];
    var i := 0;
    while i < |transactions|
      invariant 0 <= i <= |transactions|
      invariant nodes == LayoutNodes(transactions[..i])
      invariant i == 0 <==> preX.None?
      invariant preX.Some? ==> preX.value == LayoutX(i - 1)
    {
      var item := transactions[i];
      var x := LayoutX(i);
      var y := if i == 0 then 0 else -preX.value;
      preX := Some(x);
      assert transactions[..i + 1][..i] == transactions[..i];
      nodes := nodes + [PositionedNode(item, x, y)];
      i := i + 1;
    }
    assert transactions[..i] == transactions;
  }

  /** One node per transaction, in array order; each keeps the fields of its
      transaction apart from the five layout fields. */
  lemma NodesFollowTransactions(transactions: seq<Record>, i: nat, key: string)
    requires i < |transactions|
    ensures |LayoutNodes(transactions)| == |transactions|
    ensures key !in NodeKeys ==> Get(LayoutNodes(transactions)[i], key) == Get(transactions[i], key)
    ensures Get(LayoutNodes(transactions)[i], "id") == Get(transactions[i], "index")
  {
    LayoutNodesAt(transactions, i);
    PositionedNodeFields(transactions[i], LayoutX(i), LayoutY(i));
  }

  /** The first node sits at the origin. */
  lemma FirstNodeAtOrigin(transactions: seq<Record>)
    requires |transactions| > 0
    ensures Get(LayoutNodes(transactions)[0], "x") == Num(0)
    ensures Get(LayoutNodes(transactions)[0], "y") == Num(0)
  {
    LayoutNodesAt(transactions, 0);
    NodeCoordinates(transactions[0], LayoutX(0), LayoutY(0));
  }

  /** Every node after the first has as y-coordinate the previous node's
      x-coordinate, negated. */
  lemma LayoutRecurrence(transactions: seq<Record>, j: nat)
    requires j + 1 < |transactions|
    ensures Get(LayoutNodes(transactions)[j], "x") == Num(LayoutX(j))
    ensures Get(LayoutNodes(transactions)[j + 1], "y") == Num(-LayoutX(j))
  {
    NodePosition(transactions, j + 1);
    NodePosition(transactions, j);
  }

  /** The node at position `i` carries the `i`-th layout coordinates. */
  lemma NodePosition(transactions: seq<Record>, i: nat)
    requires i < |transactions|
    ensures Get(LayoutNodes(transactions)[i], "x") == Num(LayoutX(i))
    ensures Get(LayoutNodes(transactions)[i], "y") == Num(LayoutY(i))
  {
    LayoutNodesAt(transactions, i);
    NodeCoordinates(transactions[i], LayoutX(i), LayoutY(i));
  }

  lemma NodeCoordinates(item: Record, x: int, y: int)
    ensures Get(PositionedNode(item, x, y), "x") == Num(x)
    ensures Get(PositionedNode(item, x, y), "y") == Num(y)
  {
  }

  function Abs(v: int): nat
  {
    if v < 0 then -v else v
  }

  /** Every node after the first is off the y-axis, at distance five times its
      band number, on the right for the first two nodes of a band and on the
      left for the last two. */
  lemma LayoutXBand(i: nat)
    requires i > 0
    ensures Abs(LayoutX(i)) == Radius * CeilQuarter(i)
    ensures LayoutX(i) != 0
    ensures LayoutX(i) > 0 <==> (i - 1) % 4 <= 1
  {
  }

  /** The distance from the y-axis never shrinks along the array. */
  lemma LayoutXMonotone(i: nat, j: nat)
    requires i <= j
    ensures Abs(LayoutX(i)) <= Abs(LayoutX(j))
  {
    if i > 0 {
      LayoutXBand(i);
      LayoutXBand(j);
    }
  }

  /** The first five positions: (0,0), (5,0), (5,-5), (-5,-5), (-5,5). */
  lemma FirstFivePositions()
    ensures LayoutX(0) == 0 && LayoutY(0) == 0
    ensures LayoutX(1) == 5 && LayoutY(1) == 0
    ensures LayoutX(2) == 5 && LayoutY(2) == -5
    ensures LayoutX(3) == -5 && LayoutY(3) == -5
    ensures LayoutX(4) == -5 && LayoutY(4) == 5
  {
  }

  /** A non-negative integer index reads back from its label, and distinct
      integer indices get distinct labels. */
  lemma LabelsIdentifyIndices(item: Record, other: Record)
    ensures Get(item, "index").Num? && Get(item, "index").n >= 0 ==>
              var text := ToJsString(Get(item, "index"));
              AllDigits(text) && ParseNat(text) == Get(item, "index").n
    ensures Get(item, "index").Num? && Get(other, "index").Num? && Get(item, "index") != Get(other, "index") ==>
              PositionedNode(item, 0, 0)["label"] != PositionedNode(other, 0, 0)["label"]
  {
    var index, otherIndex := Get(item, "index"), Get(other, "index");
    if index.Num? && index.n >= 0 {
      ParseNatToString(index.n);
    }
    if index.Num? && otherIndex.Num? && IntToString(index.n) == IntToString(otherIndex.n) {
      IntToStringInjective(index.n, otherIndex.n);
    }
  }

  /** The id `e<i>` of the edge at array position `i`. */
  function EdgeId(i: nat): (id: string)
    ensures |id| >= 2 && id[0] == 'e' && AllDigits(id[1..])
    ensures id[1] == '0' <==> i == 0
  {
    "e" + NatToString(i)
  }

  /** `processTransactionEdges`: `(dags || []).map((item, i) => ({...item,
      id: `e${i}`, type: "arrow"}))`. An absent edge list gives no edges. */
  function ProcessTransactionEdges(dags: Option<seq<Record>>): (edges: seq<Record>)
    ensures dags.None? ==> edges == []
    ensures dags.Some? ==> |edges| == |dags.value|
    ensures forall i :: 0 <= i < |edges| ==>
              && edges[i].Keys == dags.value[i].Keys + EdgeKeys
              && (forall k :: k in dags.value[i] && k !in EdgeKeys ==> edges[i][k] == dags.value[i][k])
              && edges[i]["id"] == Str(EdgeId(i))
              && edges[i]["type"] == Str("arrow")
  {
    match dags
    case None => []
    case Some(ds) =>
      seq(|ds|, i requires 0 <= i < |ds| => ds[i]["id" := Str(EdgeId(i))]["type" := Str("arrow")])
  }

  /** Edge ids are pairwise distinct, and each one gives back the position of
      its edge. */
  lemma EdgeIdsIdentifyPositions(dags: Option<seq<Record>>, i: nat, j: nat)
    requires i < |ProcessTransactionEdges(dags)| && j < |ProcessTransactionEdges(dags)|
    ensures i != j ==> ProcessTransactionEdges(dags)[i]["id"] != ProcessTransactionEdges(dags)[j]["id"]
    ensures var id := ProcessTransactionEdges(dags)[i]["id"].s;
            id[0] == 'e' && AllDigits(id[1..]) && ParseNat(id[1..]) == i
  {
    var edges: seq<Record> := ProcessTransactionEdges(dags);
    var idI: Value, idJ: Value := edges[i]["id"], edges[j]["id"];
    assert idI.s[1..] == NatToString(i);
    assert idJ.s[1..] == NatToString(j);
    ParseNatToString(i);
    if idI == idJ {
      NatToStringInjective(i, j);
    }
  }

  /** The graph the page holds once a request has settled: the empty graph
      when the request failed or the body has no `transactions` (the thrown
      "Invalid response format" is caught and resets the graph), otherwise
      the laid-out nodes and the tagged edges. */
  function GraphAfterResponse(fetched: Fetched): (g: Graph)
    ensures fetched.Failed? || fetched.response.transactions.None? ==> g == EmptyGraph
    ensures fetched.Received? && fetched.response.transactions.Some? ==>
              && g.nodes == LayoutNodes(fetched.response.transactions.value)
              && |g.nodes| == |fetched.response.transactions.value|
              && g.edges == ProcessTransactionEdges(fetched.response.dags)
  {
    match fetched
    case Failed => EmptyGraph
    case Received(res) =>
      if res.transactions.None? then EmptyGraph
      else Graph(LayoutNodes(res.transactions.value), ProcessTransactionEdges(res.dags))
  }

  /** The state of the `Home` page component: the graph handed to the
      renderer and the loading flag. */
  class HomePage {
    var graphData: Graph
    var loading: bool
    const blockNumber: nat

    constructor ()
      ensures graphData == EmptyGraph && !loading && blockNumber == InitialBlockNumber
    {
      graphData := EmptyGraph;
      loading := false;
      blockNumber := InitialBlockNumber;
    }

    /** The start of `loadTransactionDag`: the loading flag goes up and the
        request for the page's block goes out; the graph is left as it is. */
    method BeginLoad() returns (requestedBlock: nat)
      modifies this
      ensures loading && graphData == old(graphData)
      ensures requestedBlock == blockNumber
    {
      loading := true;
      requestedBlock := blockNumber;
    }

    /** The settlement of a request (`then`, `catch`, `finally`): the graph is
        replaced as `GraphAfterResponse` says and the loading flag goes down.
        Nothing checks which request is settling. */
    method Settle(fetched: Fetched)
      modifies this
      ensures graphData == GraphAfterResponse(fetched) && !loading
    {
      match fetched {
        case Failed =>
          graphData := EmptyGraph;
        case Received(res) =>
          if res.transactions.None? {
            graphData := EmptyGraph;
          } else {
            var nodes := ProcessTransactionNodes(res.transactions.value);
            var edges := ProcessTransactionEdges(res.dags);
            graphData := Graph(nodes, edges);
          }
      }
      loading := false;
    }
  }
}
