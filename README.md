# parallel-evm-explorer: dependency detection and DAG layout in Dafny

parallel-evm-explorer analyses the transactions of an EVM block to find which of them could run in parallel. The Rust backend traces each transaction's read and write state. It records a dependency edge whenever a later transaction reads state that an earlier one wrote. The browser frontend then lays the transactions out on a staircase and draws those edges.

This project models two pieces of that logic and proves their properties:

- **`ParallelAnalyzer`** (`parallel_analyzer.dfy`, from `src/parallel_analyzer.rs`):
  - `AccountStateToSet` flattens a traced per-account state map into three sets: touched balances, touched code, and storage keys. It is a method with loops, like the source.
  - `CheckTxDependency` computes the dependency mask (`0x1` balance, `0x10` code, `0x100` storage).
  - `DependenciesOf` and `AnalyseBlockEdges` are the nested loops of `analyse_block`. They list the `transaction_dags` rows the analyser inserts: source, target and mask.
  - Lemmas prove that the mask fits the `as i16` column, that it depends only on the earlier transaction's writes and the later one's reads, and that every path of dependency edges strictly decreases the transaction index. The graph therefore has no cycle and no self-loop.
- **`JsValues`** (`js_values.dfy`): the flat JSON records the frontend receives, field lookup with `undefined`, and the string a template literal produces. Decimal rendering of integers is proved invertible and injective.
- **`Page`** (`page.dfy`, from `frontend/src/app/page.js`):
  - `ProcessTransactionNodes` is a loop that carries `preX` from one node to the next. It is proved equal to the position-by-position layout `LayoutNodes`.
  - `ProcessTransactionEdges` tags each edge with the id `e<i>` and the type `arrow`.
  - `GraphAfterResponse` is the graph `loadTransactionDag` installs once its request has settled.
  - `HomePage` holds the page component's `graphData` and `loading` state.
- **`Wrappers`** (`wrappers.dfy`): the `Option` type.

Three behaviours of the code that a reader might not expect are modelled as written:
- A node's `id` is the raw `index` value, not its string form. Only `label` is the string (`page.js:58-59`).
- Nothing guards against stale responses. Each settling request overwrites `graphData` and clears `loading`, so the response that settles last wins, whichever block was requested last (`page.js:26-46`).
- Transaction 0 is never the target of an edge. The inner loop of `analyse_block` runs `for index in 1..tx_index` (`src/parallel_analyzer.rs:185`), so no transaction is ever compared with transaction 0, even one that reads what transaction 0 wrote. `IsDependencyEdge` keeps this as `1 <= e.target`.

## Model

| member | source | states |
|---|---|---|
| ParallelAnalyzer.AccountStateToSet | src/parallel_analyzer.rs:241-261 | an address is in the balance set iff its entry has a balance; it is in the code set iff its entry has code; the storage set is exactly the union of all accounts' storage keys, whatever else the account reports |
| ParallelAnalyzer.CheckTxDependency | src/parallel_analyzer.rs:263-297 | bit 0x1 is set iff the earlier write balance set meets the later read balance set; the same holds for 0x10 with code and 0x100 with storage; no other bit is ever set |
| ParallelAnalyzer.DependencyIgnoresOtherSets | src/parallel_analyzer.rs:266-294 | the mask is unchanged by anything except the earlier transaction's write set and the later transaction's read set |
| ParallelAnalyzer.NoDependencyIffDisjoint | src/parallel_analyzer.rs:263-297 | the mask is zero iff all three write/read set pairs are disjoint |
| ParallelAnalyzer.AsI16 | src/parallel_analyzer.rs:208 | the `as i16` cast reads 16 bits as a two's-complement value in [-0x8000, 0x8000) |
| ParallelAnalyzer.DepTypeFitsI16 | src/db/transaction_dag.rs:9-10 | the mask is at most 0x111, so the `as i16` cast that stores `dep_type` keeps its value |
| ParallelAnalyzer.DependenciesOf | src/parallel_analyzer.rs:185-198 | for one transaction whose lower indices 1..tx_index are all traced, the inner loop emits exactly its dependency edges: every target in 1..tx_index with a non-zero mask and that mask as dep_type, in ascending target order |
| ParallelAnalyzer.AnalyseBlockEdges | src/parallel_analyzer.rs:184-198 | given every index 1..tx_index is traced, the emitted rows are exactly the edges (source, target, mask) with 1 <= target < source and a non-zero mask, ordered by source then target, hence without repetition |
| ParallelAnalyzer.PathsDescend | src/parallel_analyzer.rs:184-198 | along any path of emitted edges the transaction index strictly decreases, so the dependency graph has no cycle and no self-loop |
| JsValues.Get | frontend/src/app/page.js:58 | `item.index`: the field's value when the record has the field, `undefined` otherwise |
| JsValues.IntToString | frontend/src/app/page.js:59 | the decimal rendering of an integer: a leading '-' exactly for negative numbers, followed by digits with no leading zero when negative |
| JsValues.ToJsString | frontend/src/app/page.js:59 | the template literal `${v}`: a string renders as itself, `undefined` as "undefined", a number as a non-empty sign-and-digits string whose '-' marks exactly the negative numbers |
| JsValues.NatToString | frontend/src/app/page.js:70 | the decimal rendering of a natural number is a non-empty digit string that starts with '0' only for zero |
| JsValues.ParseNatToString | frontend/src/app/page.js:59 | reading the decimal rendering of n back as a number gives n |
| JsValues.NatToStringInjective | frontend/src/app/page.js:70 | distinct positions render as distinct decimal strings |
| JsValues.IntToStringInjective | frontend/src/app/page.js:59 | distinct integers (negative ones included) render as distinct strings |
| Page.CeilQuarter | frontend/src/app/page.js:53 | `Math.ceil(i / 4)`: the c with 4c - 4 < i <= 4c |
| Page.Direction | frontend/src/app/page.js:53 | the sign factor is +1 or -1, and +1 exactly for the first two positions of each band of four |
| Page.LayoutX | frontend/src/app/page.js:52-53 | x is 0 for the first node and otherwise plus or minus 5 * ceil(i/4) |
| Page.LayoutY | frontend/src/app/page.js:54 | y is 0 for the first two nodes; after that it is plus or minus 5 * ceil((i-1)/4), positive exactly when the previous node's x was negative ((i-2) mod 4 >= 2) |
| Page.PositionedNode | frontend/src/app/page.js:56-63 | the node has exactly the fields of its transaction record plus id, label, size, x and y |
| Page.PositionedNodeFields | frontend/src/app/page.js:56-63 | a node keeps every field of its transaction record except the five layout fields; id is the raw `index`, label its string form, size 10, and x and y are the coordinates given |
| Page.LayoutNodes | frontend/src/app/page.js:51 | the node list has as many nodes as there are transactions |
| Page.LayoutNodesAt | frontend/src/app/page.js:51-64 | node i comes from transaction i in array order and sits at the i-th layout position |
| Page.ProcessTransactionNodes | frontend/src/app/page.js:48-65 | the single pass that carries the previous x (`preX`) produces exactly the position-by-position layout |
| Page.NodesFollowTransactions | frontend/src/app/page.js:51-63 | node i reads like transaction i on every field outside the five layout fields, and its id is that transaction's index |
| Page.FirstNodeAtOrigin | frontend/src/app/page.js:52-54 | the first node is at (0, 0) |
| Page.LayoutRecurrence | frontend/src/app/page.js:50-55 | node j+1's y is minus node j's x |
| Page.NodePosition | frontend/src/app/page.js:52-55 | node i's x and y fields hold the i-th layout coordinates |
| Page.LayoutXBand | frontend/src/app/page.js:52-53 | for i > 0, x_i is 5 * ceil(i/4) away from the axis, never 0, and positive iff (i - 1) mod 4 <= 1 |
| Page.LayoutXMonotone | frontend/src/app/page.js:52-53 | the absolute value of x never decreases along the array |
| Page.FirstFivePositions | frontend/src/app/page.js:49-55 | the first five nodes sit at (0,0), (5,0), (5,-5), (-5,-5), (-5,5) |
| Page.LabelsIdentifyIndices | frontend/src/app/page.js:58-59 | a non-negative integer index reads back from its label, and distinct integer indices get distinct labels |
| Page.ProcessTransactionEdges | frontend/src/app/page.js:67-73 | an absent edge list gives no edges; otherwise there is one edge per input edge, keeping all its other fields (source and target included), with id `e<i>` and type "arrow" |
| Page.EdgeId | frontend/src/app/page.js:70 | the id `e${i}` is 'e' followed by at least one decimal digit, with a leading '0' only for position 0 |
| Page.EdgeIdsIdentifyPositions | frontend/src/app/page.js:68-70 | edge ids are pairwise distinct, and each is 'e' followed by the decimal digits of its position |
| Page.GraphAfterResponse | frontend/src/app/page.js:29-42 | a failed request or a body without `transactions` leaves the empty graph; otherwise the graph is the laid-out nodes (one per transaction) and the tagged edges |
| Page.HomePage.constructor | frontend/src/app/page.js:7-18 | the page starts with the empty graph, not loading, on block 2952107 |
| Page.HomePage.BeginLoad | frontend/src/app/page.js:26-28 | loading starts and the page's block is requested; the graph is kept |
| Page.HomePage.Settle | frontend/src/app/page.js:29-45 | once the request settles, the graph becomes `GraphAfterResponse` of the outcome and loading stops |

## Left out

- Block ingestion and tracing are not modelled. This covers `get_block_transactions`, `trace_transaction_state`, the `run` polling loop and the SQL inserts (`src/parallel_analyzer.rs:60-173, 199-211, 218-238`). They are RPC, async and database I/O. The traced read and write sets are inputs of the model, and an emitted `TransactionDag` stands for one insert.
- The `info!` log line in `analyse_block` and the `console.error` call in the `catch` of `loadTransactionDag` (`frontend/src/app/page.js:39`) are I/O and are not modelled. The `as f32` and `as i32` binds are not modelled either. Only the `as i16` of `dep_type` is modelled.
- ParallelAnalyzer.AnalyseBlockEdges: it requires every index 1..tx_index to be traced. A missing index makes `tx_states.get(&index).unwrap()` panic (`src/parallel_analyzer.rs:186`). The panic, and the rows already inserted before it, are not modelled.
- ParallelAnalyzer.AccountStateToSet: it visits the accounts in an unspecified order rather than the `BTreeMap` key order. The result is a set, so the order does not change it. Balance, nonce and code values are carried but never inspected; only their presence matters.
- `frontend/src/components/Graph.js` is not part of this model: sigma/graphology construction, `kill` and `refresh`, and the resize observer. The same goes for `frontend/src/utils/api.js` (fetch), which becomes the `Fetched` outcome. The loading indicator's rendering is also left out.
- JavaScript numbers are modelled as mathematical integers. Fractional values, `-0` and exponent notation for large magnitudes are not modelled.
- Page.GraphAfterResponse: the response is typed. `transactions` and `dags` are each absent or `null` (`None`), or an array of flat records with integer, string, boolean, `null` or `undefined` fields, which is what the backend serialises. Other inputs are not modelled. They behave as follows:
  - A falsy `transactions` other than `null` (`0`, `""`, `false`) hits the explicit "Invalid response format" throw (`page.js:30-31`) and resets the graph, like an absent one.
  - A truthy `transactions` that is not an array has no `map`. The `TypeError` reaches the `catch` and resets the graph.
  - A `null` or `undefined` transaction element throws a `TypeError` at `item.index` and resets the graph.
  - A primitive transaction element does not throw. For example, `5` spreads to no fields and becomes a node whose `id` is `undefined` and whose `label` is "undefined" (`page.js:56-59`). A string element spreads its characters as fields.
  - A falsy `dags` other than `null` becomes `[]` through `dags || []` (`page.js:68`). The graph then has no edges and no error is raised.
  - A truthy `dags` that is not an array throws a `TypeError` at `map` and resets the graph.
  - An edge element never throws, whatever its kind. Spreading `null`, `undefined` or a number gives no fields, and the callback reads no property (`page.js:68-72`).
  - Nested objects and arrays as field values are not modelled.
- The insertion order of JavaScript object properties is not modelled, because records are maps.
- Page.HomePage.Settle: requests are not identified. With overlapping requests the one that settles last decides the graph, and the first to settle clears `loading` early. This is what the code does; the model states no ordering guarantee.
