/** The node arena and its transposition table, and the search graph they represent (mcts-core/src/mcts.rs). */
module Arena {
  import opened Wrappers
  import opened Sums
  import opened Environment
  import opened SearchNode
  import opened SearchGraph

  type Table = map<NodeId, nat>

  ghost predicate EntryOk(nodes: seq<Node>, table: Table, id: NodeId) {
    id in table ==> table[id] < |nodes| && nodes[table[id]].id == id
  }

  ghost predicate SlotOk(nodes: seq<Node>, table: Table, i: nat) {
    i < |nodes| ==> nodes[i].id in table && table[nodes[i].id] == i
  }

  /** The table and the arena are in bijection by node id. */
  ghost predicate Indexed(nodes: seq<Node>, table: Table) {
    (forall id :: EntryOk(nodes, table, id)) && (forall i: nat :: SlotOk(nodes, table, i))
  }

  /** The ids in arena order. */
  function IdsOf(nodes: seq<Node>): seq<NodeId> {
    seq(|nodes|, i requires 0 <= i < |nodes| => nodes[i].id)
  }

  function GraphOf(nodes: seq<Node>, table: Table): (g: Graph)
    requires Indexed(nodes, table)
    ensures g.Keys == table.Keys
  {
    map id | id in table :: (assert EntryOk(nodes, table, id); nodes[table[id]])
  }

  lemma GraphUpdate(nodes: seq<Node>, table: Table, id: NodeId, n: Node)
    requires Indexed(nodes, table) && id in table && n.id == id
    ensures table[id] < |nodes|
    ensures var nodes' := nodes[table[id] := n];
      Indexed(nodes', table) && GraphOf(nodes', table) == GraphOf(nodes, table)[id := n]
      && IdsOf(nodes') == IdsOf(nodes)
  {
    assert EntryOk(nodes, table, id);
    var nodes' := nodes[table[id] := n];
    forall k ensures EntryOk(nodes', table, k) {
      assert EntryOk(nodes, table, k);
    }
    forall i: nat ensures SlotOk(nodes', table, i) {
      assert SlotOk(nodes, table, i);
    }
    forall k | k in table && k != id ensures GraphOf(nodes', table)[k] == GraphOf(nodes, table)[k] {
      assert EntryOk(nodes, table, k);
    }
  }

  lemma GraphInsert(nodes: seq<Node>, table: Table, id: NodeId, n: Node)
    requires Indexed(nodes, table) && id !in table && n.id == id
    ensures var nodes', table' := nodes + [n], table[id := |nodes|];
      Indexed(nodes', table') && GraphOf(nodes', table') == GraphOf(nodes, table)[id := n]
      && IdsOf(nodes') == IdsOf(nodes) + [id]
  {
    var nodes', table' := nodes + [n], table[id := |nodes|];
    forall k ensures EntryOk(nodes', table', k) {
      assert EntryOk(nodes, table, k);
    }
    forall i: nat ensures SlotOk(nodes', table', i) {
      assert SlotOk(nodes, table, i);
    }
    forall k | k in table ensures GraphOf(nodes', table')[k] == GraphOf(nodes, table)[k] {
      assert EntryOk(nodes, table, k);
    }
  }

  // ----- pruning the arena -----

  /** The nodes whose id is kept, in their original order. */
  function KeptNodes(nodes: seq<Node>, keep: set<NodeId>): seq<Node> {
    if nodes == [] then []
    else
      var rest := KeptNodes(nodes[..|nodes| - 1], keep);
      if nodes[|nodes| - 1].id in keep then rest + [nodes[|nodes| - 1]] else rest
  }

  function Restricted(g: Graph, keep: set<NodeId>): Graph {
    map id | id in g && id in keep :: g[id]
  }

  /** One turn of the rebuild loop. */
  lemma KeptStep(nodes: seq<Node>, table: Table, keep: set<NodeId>, i: nat, kept: seq<Node>, keptTable: Table)
    requires Indexed(nodes, table) && i < |nodes|
    requires kept == KeptNodes(nodes[..i], keep) && Indexed(kept, keptTable)
    requires forall id :: id in keptTable <==> id in table && table[id] < i && id in keep
    requires GraphOf(kept, keptTable) == map id | id in keptTable :: GraphOf(nodes, table)[id]
    ensures var n := nodes[i];
      var (kept', keptTable') := if n.id in keep then (kept + [n], keptTable[n.id := |kept|]) else (kept, keptTable);
      && kept' == KeptNodes(nodes[..i + 1], keep) && Indexed(kept', keptTable')
      && (forall id :: id in keptTable' <==> id in table && table[id] < i + 1 && id in keep)
      && GraphOf(kept', keptTable') == map id | id in keptTable' :: GraphOf(nodes, table)[id]
  {
    assert nodes[..i + 1][..i] == nodes[..i];
    assert SlotOk(nodes, table, i);
    var n := nodes[i];
    assert GraphOf(nodes, table)[n.id] == n;
    forall id | id in table && table[id] == i ensures id == n.id {
      assert EntryOk(nodes, table, id);
    }
    if n.id in keep {
      assert n.id !in keptTable;
      GraphInsert(kept, keptTable, n.id, n);
    }
  }
}
