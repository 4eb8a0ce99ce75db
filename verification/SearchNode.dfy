/** One node of the search graph (mcts-core/src/node.rs). Nodes are owned by the arena vector
    and never shared, so a node is a value and each in-place update yields the updated node. */
module SearchNode {
  import opened Wrappers
  import opened Sums
  import opened Environment

  datatype Node = Node(
    id: NodeId,
    numActions: nat,
    valid: seq<Act>,
    priors: seq<real>,
    estimate: real,
    visits: nat,
    children: seq<Option<NodeId>>,
    edgeVisits: seq<nat>,
    losses: seq<nat>,
    penalties: seq<real>,
    value: real,
    terminal: bool)
  {
    function AddVirtualLoss(a: Act): Node {
      if a < |losses| then this.(losses := losses[a := losses[a] + 1]) else this
    }

    function RevertVirtualLoss(a: Act): Node {
      if a < |losses| then this.(losses := losses[a := if losses[a] == 0 then 0 else losses[a] - 1]) else this
    }

    /** With no stored action the source's float division yields minus infinity; callers never get there. */
    function ApplyPenalty(a: Act): Node
      requires |valid| > 0
    {
      if a < |penalties| then this.(penalties := penalties[a := penalties[a] - 1.0 / |valid| as real]) else this
    }

    function AddVisit(a: Act): Node {
      if a < |edgeVisits| then this.(edgeVisits := edgeVisits[a := edgeVisits[a] + 1]) else this
    }

    function Child(a: Act): Option<NodeId> {
      if a < |children| then children[a] else None
    }

    function LinkChild(a: Act, child: NodeId): Node {
      if a < |children| && children[a].None? then this.(children := children[a := Some(child)]) else this
    }

    /** The dense vectors have one slot per action, and only stored actions have non-default slots. */
    ghost predicate Dense() {
      && |priors| == |children| == |edgeVisits| == |losses| == |penalties| == numActions
      && Distinct(valid)
      && Below(valid, numActions)
      && (forall a :: 0 <= a < numActions && a !in valid ==>
           edgeVisits[a] == 0 && losses[a] == 0 && children[a] == None)
      && (forall a :: 0 <= a < numActions && edgeVisits[a] > 0 ==> children[a].Some?)
    }
  }

  ghost predicate Enumerates(order: seq<Act>, keys: set<Act>) {
    Distinct(order) && forall a :: a in order <==> a in keys
  }

  /** What `Node::new` builds. The order of the stored actions is the hash map's iteration order: any one. */
  ghost predicate IsNewNode(n: Node, numActions: nat, priors: map<Act, real>, value: real, id: NodeId) {
    && n.id == id && n.numActions == numActions && !n.terminal
    && Enumerates(n.valid, priors.Keys)
    && |n.priors| == numActions
    && (forall a :: 0 <= a < numActions ==> n.priors[a] == if a in priors then priors[a] else 0.0)
    && n.estimate == value && n.value == value && n.visits == 0
    && n.children == seq(numActions, _ => None)
    && n.edgeVisits == seq(numActions, _ => 0)
    && n.losses == seq(numActions, _ => 0)
    && n.penalties == seq(numActions, _ => 0.0)
  }

  method NewNode(numActions: nat, priorMap: map<Act, real>, value: real, id: NodeId) returns (n: Node)
    ensures IsNewNode(n, numActions, priorMap, value, id)
  {
    var priors := seq(numActions, _ => 0.0);
    var valid: seq<Act> := [];
    var left := priorMap.Keys;
    while left != {}
      invariant left <= priorMap.Keys
      invariant |priors| == numActions
      invariant Enumerates(valid, priorMap.Keys - left)
      invariant forall a :: 0 <= a < numActions ==>
        priors[a] == if a in priorMap && a !in left then priorMap[a] else 0.0
      decreases left
    {
      var a :| a in left;
      if a < numActions {
        priors := priors[a := priorMap[a]];
      }
      valid := valid + [a];
      left := left - {a};
    }
    n := Node(id, numActions, valid, priors, value, 0, seq(numActions, _ => None), seq(numActions, _ => 0),
      seq(numActions, _ => 0), seq(numActions, _ => 0.0), value, false);
  }

  function NewTerminal(id: NodeId, value: real): Node {
    Node(id, 0, [], [], value, 0, [], [], [], [], value, true)
  }
}
