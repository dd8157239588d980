/**
  Transaction-dependency detection of the block analyser
  (src/parallel_analyzer.rs).

  Each transaction of a block is traced twice: once for the state it reads (a
  pre-state map) and once for the state it writes (the post-state of a diff).
  `AccountStateToSet` flattens such a map into three sets, `CheckTxDependency`
  compares an earlier transaction's write sets with a later transaction's read
  sets, and `AnalyseBlockEdges` enumerates the dependency edges that
  `analyse_block` inserts into the `transaction_dags` table.
*/
module ParallelAnalyzer {
  import opened Wrappers

  type byte = bv8

  /** An account address: 20 bytes. */
  type Address = s: seq<byte> | |s| == 20 witness seq(20, _ => 0 as byte)

  /** A 32-byte word (alloy's `B256`), used for storage slot keys and values. */
  type B256 = s: seq<byte> | |s| == 32 witness seq(32, _ => 0 as byte)

  /** One account's entry in a geth prestate trace. A field is `None` when the
      tracer did not report it for this account. */
  datatype AccountState = AccountState(
    balance: Option<nat>,
    nonce: Option<nat>,
    code: Option<seq<byte>>,
    storage: map<B256, B256>)

  /** Addresses whose balance was touched, addresses whose code was touched,
      and the storage keys that were touched. */
  datatype StateSet = StateSet(balanceSet: set<Address>, codeSet: set<Address>, storageSet: set<B256>)

  datatype TransactionStateSet = TransactionStateSet(readSet: StateSet, writeSet: StateSet)

  /** A row of the `transaction_dags` table: transaction `source` depends on
      the earlier transaction `target`; `depType` is the dependency mask. */
  datatype TransactionDag = TransactionDag(blockNumber: nat, source: nat, target: nat, depType: bv16)

  // The dependency kinds, one bit each, as documented on `TransactionDag.dep_type`.
  const BalanceDependency: bv16 := 0x1
  const CodeDependency: bv16 := 0x10
  const StorageDependency: bv16 := 0x100

  /** Flattens a traced account-state map into its three touched-state sets.
      An address enters the balance set exactly when its entry reports a
      balance, the code set exactly when it reports code; the storage set is
      the union of every account's storage keys, whatever else the account
      reports. */
  method AccountStateToSet(accountState: map<Address, AccountState>) returns (s: StateSet)
    ensures forall a :: a in s.balanceSet <==> a in accountState && accountState[a].balance.Some?
    ensures forall a :: a in s.codeSet <==> a in accountState && accountState[a].code.Some?
    ensures forall k :: k in s.storageSet <==> exists a :: a in accountState && k in accountState[a].storage
  {
    var balanceSet: set<Address> := {};
    var codeSet: set<Address> := {};
    var storageSet: set<B256> := {};
    var remaining := accountState.Keys;
    while remaining != {}
      invariant remaining <= accountState.Keys
      invariant forall a :: a in balanceSet <==> a in accountState && a !in remaining && accountState[a].balance.Some?
      invariant forall a :: a in codeSet <==> a in accountState && a !in remaining && accountState[a].code.Some?
      invariant forall k :: k in storageSet <==>
                  exists a :: a in accountState && a !in remaining && k in accountState[a].storage
      decreases remaining
    {
      var address :| address in remaining;
      var state := accountState[address];
      if state.balance.Some? {
        balanceSet := balanceSet + {address};
      }
      if state.code.Some? {
        codeSet := codeSet + {address};
      }
      var keys := state.storage.Keys;
      while keys != {}
        invariant keys <= state.storage.Keys
        invariant forall k :: k in storageSet <==>
                    (exists a :: a in accountState && a !in remaining && k in accountState[a].storage)
                    || (k in state.storage && k !in keys)
        decreases keys
      {
        var key :| key in keys;
        storageSet := storageSet + {key};
        keys := keys - {key};
      }
      remaining := remaining - {address};
    }
    s := StateSet(balanceSet, codeSet, storageSet);
  }

  /** The dependency mask of `state` on the earlier `prevState`: one bit per
      kind of state the earlier transaction wrote and the later one read. */
  function CheckTxDependency(prevState: TransactionStateSet, state: TransactionStateSet): (mask: bv16)
    ensures mask & BalanceDependency != 0 <==> prevState.writeSet.balanceSet * state.readSet.balanceSet != {}
    ensures mask & CodeDependency != 0 <==> prevState.writeSet.codeSet * state.readSet.codeSet != {}
    ensures mask & StorageDependency != 0 <==> prevState.writeSet.storageSet * state.readSet.storageSet != {}
    ensures mask & !(BalanceDependency | CodeDependency | StorageDependency) == 0
  {
    var mask0: bv16 := 0;
    var mask1 := if |prevState.writeSet.balanceSet * state.readSet.balanceSet| > 0
                 then mask0 | BalanceDependency else mask0;
    var mask2 := if |prevState.writeSet.codeSet * state.readSet.codeSet| > 0
                 then mask1 | CodeDependency else mask1;
    var mask3 := if |prevState.writeSet.storageSet * state.readSet.storageSet| > 0
                 then mask2 | StorageDependency else mask2;
    mask3
  }

  /** The mask reads only the earlier transaction's writes and the later
      transaction's reads. */
  lemma DependencyIgnoresOtherSets(prevState: TransactionStateSet, state: TransactionStateSet,
                                   prevState': TransactionStateSet, state': TransactionStateSet)
    requires prevState.writeSet == prevState'.writeSet
    requires state.readSet == state'.readSet
    ensures CheckTxDependency(prevState, state) == CheckTxDependency(prevState', state')
  {
  }

  /** Two's-complement reading of 16 bits, as Rust's `as i16` cast does. */
  function AsI16(v: bv16): (r: int)
    ensures -0x8000 <= r < 0x8000
    ensures v as int == if r < 0 then r + 0x10000 else r
  {
    if v < 0x8000 then v as int else v as int - 0x10000
  }

  /** The mask is at most 0x111, so storing it with `as i16` keeps its value. */
  lemma DepTypeFitsI16(prevState: TransactionStateSet, state: TransactionStateSet)
    ensures CheckTxDependency(prevState, state) as int <= 0x111
    ensures AsI16(CheckTxDependency(prevState, state)) == CheckTxDependency(prevState, state) as int
  {
    var mask := CheckTxDependency(prevState, state);
    assert mask & !0x111 == 0;
    assert mask <= 0x111;
  }

  /** The mask is zero exactly when none of the three pairs of sets meet. */
  lemma NoDependencyIffDisjoint(prevState: TransactionStateSet, state: TransactionStateSet)
    ensures CheckTxDependency(prevState, state) == 0 <==>
              && prevState.writeSet.balanceSet !! state.readSet.balanceSet
              && prevState.writeSet.codeSet !! state.readSet.codeSet
              && prevState.writeSet.storageSet !! state.readSet.storageSet
  {
    var mask := CheckTxDependency(prevState, state);
    assert mask & !0x111 == 0;
    assert mask == 0 <==> mask & 0x1 == 0 && mask & 0x10 == 0 && mask & 0x100 == 0;
    DisjointIffNoCommonElement(prevState.writeSet.balanceSet, state.readSet.balanceSet);
    DisjointIffNoCommonElement(prevState.writeSet.codeSet, state.readSet.codeSet);
    DisjointIffNoCommonElement(prevState.writeSet.storageSet, state.readSet.storageSet);
  }

  lemma DisjointIffNoCommonElement<T>(a: set<T>, b: set<T>)
    ensures a !! b <==> a * b == {}
  {
    if a * b != {} {
      var x :| x in a * b;
      assert x in a && x in b;
    } else {
      forall x | x in a ensures x !in b {
        assert x !in a * b;
      }
    }
  }

  /** Every transaction index from 1 up to (not including) a traced index is
      itself traced; otherwise the lookup in `analyse_block` panics. */
  ghost predicate PriorIndicesPresent(txStates: map<nat, TransactionStateSet>)
  {
    forall t, i :: t in txStates && 1 <= i < t ==> i in txStates
  }

  /** `e` is an edge `analyse_block` records for `blockNumber`: a traced later
      transaction, a traced earlier one with index at least 1, and a non-zero
      mask. */
  ghost predicate IsDependencyEdge(blockNumber: nat, txStates: map<nat, TransactionStateSet>, e: TransactionDag)
  {
    && e.blockNumber == blockNumber
    && e.source in txStates && e.target in txStates
    && 1 <= e.target < e.source
    && e.depType == CheckTxDependency(txStates[e.target], txStates[e.source])
    && e.depType != 0
  }

  /** The order in which edges are emitted: by source, then by target. */
  ghost predicate EmittedBefore(e: TransactionDag, f: TransactionDag)
  {
    e.source < f.source || (e.source == f.source && e.target < f.target)
  }

  /** The least element of a set of transaction indices. */
  predicate IsLeast(m: nat, s: set<nat>)
  {
    m in s && forall u :: u in s ==> m <= u
  }

  lemma {:induction false} HasLeast(s: set<nat>)
    requires s != {}
    ensures exists m :: IsLeast(m, s)
  {
    var x :| x in s;
    if s == {x} {
      assert IsLeast(x, s);
    } else {
      var rest := s - {x};
      HasLeast(rest);
      var m :| IsLeast(m, rest);
      var least := if x < m then x else m;
      forall u | u in s ensures least <= u {
        if u != x {
          assert u in rest;
        }
      }
      assert IsLeast(least, s);
    }
  }

  /** The inner loop of `analyse_block`: transaction `txIndex` is compared
      with every lower index from 1 upward, and an edge is emitted for every
      non-zero mask. The result holds exactly the dependency edges whose
      source is `txIndex`, in ascending target order. */
  method DependenciesOf(blockNumber: nat, txStates: map<nat, TransactionStateSet>, txIndex: nat)
    returns (dags: seq<TransactionDag>)
    requires txIndex in txStates
    requires forall i :: 1 <= i < txIndex ==> i in txStates
    ensures forall e :: e in dags <==> IsDependencyEdge(blockNumber, txStates, e) && e.source == txIndex
    ensures forall i, j :: 0 <= i < j < |dags| ==> dags[i].target < dags[j].target
  {
    dags := [];
    var state := txStates[txIndex];
    var index := 1;
    while index < txIndex
      invariant 1 <= index && (index <= txIndex || index == 1)
      invariant forall e :: e in dags <==>
                  IsDependencyEdge(blockNumber, txStates, e) && e.source == txIndex && e.target < index
      invariant forall i, j :: 0 <= i < j < |dags| ==> dags[i].target < dags[j].target
    {
      var prevState := txStates[index];
      var mask := CheckTxDependency(prevState, state);
      if mask != 0 {
        var edge := TransactionDag(blockNumber, txIndex, index, mask);
        forall k | 0 <= k < |dags| ensures dags[k].target < edge.target {
          assert dags[k] in dags;
        }
        dags := dags + [edge];
      }
      index := index + 1;
    }
  }

  /** The edge enumeration of `analyse_block`: transactions in ascending index
      order (the order of the `BTreeMap`), each compared with its earlier
      transactions. The result holds exactly the dependency edges, in
      (source, target) order and so without repetition. */
  method AnalyseBlockEdges(blockNumber: nat, txStates: map<nat, TransactionStateSet>) returns (dags: seq<TransactionDag>)
    requires PriorIndicesPresent(txStates)
    ensures forall e :: e in dags <==> IsDependencyEdge(blockNumber, txStates, e)
    ensures forall i, j :: 0 <= i < j < |dags| ==> EmittedBefore(dags[i], dags[j])
  {
    dags := [];
    var done: set<nat> := {};
    var remaining := txStates.Keys;
    while remaining != {}
      invariant remaining !! done && remaining + done == txStates.Keys
      invariant forall d, r :: d in done && r in remaining ==> d < r
      invariant forall e :: e in dags <==> IsDependencyEdge(blockNumber, txStates, e) && e.source in done
      invariant forall i, j :: 0 <= i < j < |dags| ==> EmittedBefore(dags[i], dags[j])
      decreases remaining
    {
      HasLeast(remaining);
      var txIndex :| IsLeast(txIndex, remaining);
      var edges := DependenciesOf(blockNumber, txStates, txIndex);
      forall i, j | 0 <= i < |dags| && 0 <= j < |edges| ensures EmittedBefore(dags[i], edges[j]) {
        assert dags[i] in dags && edges[j] in edges;
      }
      dags := dags + edges;
      done := done + {txIndex};
      remaining := remaining - {txIndex};
    }
  }

  /** There is a recorded edge from transaction `s` to transaction `t`. */
  ghost predicate HasEdge(dags: seq<TransactionDag>, s: nat, t: nat)
  {
    exists e :: e in dags && e.source == s && e.target == t
  }

  /** `path` follows recorded edges from its first index to its last. */
  ghost predicate IsPath(dags: seq<TransactionDag>, path: seq<nat>)
  {
    forall k :: 0 <= k < |path| - 1 ==> HasEdge(dags, path[k], path[k + 1])
  }

  /** Along any path of dependency edges the transaction index strictly
      decreases: the dependency graph has no cycle and no self-loop. */
  lemma {:induction false} PathsDescend(blockNumber: nat, txStates: map<nat, TransactionStateSet>,
                                        dags: seq<TransactionDag>, path: seq<nat>)
    requires forall e :: e in dags ==> IsDependencyEdge(blockNumber, txStates, e)
    requires IsPath(dags, path)
    requires |path| >= 2
    ensures path[|path| - 1] < path[0]
    ensures path[|path| - 1] != path[0]
  {
    assert HasEdge(dags, path[0], path[1]);
    var e :| e in dags && e.source == path[0] && e.target == path[1];
    assert IsDependencyEdge(blockNumber, txStates, e);
    if |path| > 2 {
      var rest := path[1..];
      assert IsPath(dags, rest) by {
        forall k | 0 <= k < |rest| - 1 ensures HasEdge(dags, rest[k], rest[k + 1]) {
          assert rest[k] == path[k + 1] && rest[k + 1] == path[k + 2];
        }
      }
      PathsDescend(blockNumber, txStates, dags, rest);
    }
  }
}
