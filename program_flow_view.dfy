/**
  The flow-diagram view of a program (src/components/dashboard/ProgramFlowView.tsx):
  one node per activity on a three-column grid, one edge per consecutive pair,
  and the index-based lock rule.
*/
module ProgramFlowView {
  import opened Types
  import opened ActivityItem

  /** The index-based lock: a node is locked when the activity before it is not completed. */
  function IndexLocked(acts: seq<Activity>, i: nat): (locked: bool)
    requires i < |acts|
    ensures i == 0 ==> !locked
    ensures i > 0 ==> (locked <==> !acts[i - 1].completed)
  {
    i > 0 && !acts[i - 1].completed
  }

  datatype Position = Position(x: int, y: int)

  /** Three nodes per row, 250 apart horizontally and 200 apart vertically. */
  function GridPosition(i: nat): (p: Position)
    ensures p.x in {0, 250, 500} && p.y >= 0
    ensures p.x == 250 * (i % 3) && p.y == 200 * (i / 3)
  {
    Position((i % 3) * 250, (i / 3) * 200)
  }

  /** Different nodes are never placed on top of each other. */
  lemma GridPositionInjective(i: nat, j: nat)
    requires GridPosition(i) == GridPosition(j)
    ensures i == j
  {
    assert i % 3 == j % 3;
    assert i / 3 == j / 3;
    assert i == 3 * (i / 3) + i % 3;
    assert j == 3 * (j / 3) + j % 3;
  }

  datatype Node = Node(id: string, position: Position, activity: Activity, isLocked: bool)

  /** `createNodes`. */
  function CreateNodes(acts: seq<Activity>): (nodes: seq<Node>)
    ensures |nodes| == |acts|
    ensures forall i :: 0 <= i < |acts| ==>
              nodes[i].id == acts[i].id && nodes[i].activity == acts[i] &&
              nodes[i].position == GridPosition(i) && nodes[i].isLocked == IndexLocked(acts, i)
  {
    seq(|acts|, i requires 0 <= i < |acts| =>
      Node(acts[i].id, GridPosition(i), acts[i], IndexLocked(acts, i)))
  }

  datatype Stroke = Green | Gray

  datatype Edge = Edge(id: string, source: string, target: string, animated: bool, stroke: Stroke)

  /** The edge id `e{source}-{target}`. */
  function EdgeId(source: string, target: string): (id: string)
    ensures |id| == |source| + |target| + 2
    ensures id[0] == 'e' && id[1..|source| + 1] == source && id[|source| + 1] == '-' && id[|source| + 2..] == target
  {
    "e" + source + "-" + target
  }

  /** The edge from one activity to the next: grey and animated until the source is completed. */
  function EdgeBetween(a: Activity, b: Activity): (e: Edge)
    ensures e.source == a.id && e.target == b.id && e.id == EdgeId(a.id, b.id)
    ensures (e.animated <==> !a.completed) && (e.stroke == Green <==> a.completed)
  {
    Edge(EdgeId(a.id, b.id), a.id, b.id, !a.completed, if a.completed then Green else Gray)
  }

  /** `createEdges`: an edge from each activity to the one after it. */
  function CreateEdges(acts: seq<Activity>): (edges: seq<Edge>)
    ensures |edges| == if acts == [] then 0 else |acts| - 1
    ensures forall i :: 0 <= i < |edges| ==>
              edges[i].source == acts[i].id && edges[i].target == acts[i + 1].id &&
              edges[i].id == EdgeId(acts[i].id, acts[i + 1].id)
    ensures forall i :: 0 <= i < |edges| ==>
              (edges[i].animated <==> !acts[i].completed) &&
              (edges[i].stroke == Green <==> acts[i].completed)
  {
    if |acts| <= 1 then []
    else [EdgeBetween(acts[0], acts[1])] + CreateEdges(acts[1..])
  }

  /** Edge i joins node i to node i+1, and it is animated exactly when its target node is locked. */
  lemma EdgesFollowLocks(acts: seq<Activity>, i: nat)
    requires i + 1 < |acts|
    ensures CreateEdges(acts)[i].source == CreateNodes(acts)[i].id
    ensures CreateEdges(acts)[i].target == CreateNodes(acts)[i + 1].id
    ensures CreateEdges(acts)[i].animated <==> CreateNodes(acts)[i + 1].isLocked
  {
  }

  datatype Badge = CompletedBadge | LockedBadge | AvailableBadge

  /** The node badge: completion takes precedence over the lock. */
  function NodeBadge(n: Node): (b: Badge)
    ensures b == CompletedBadge <==> n.activity.completed
    ensures b == LockedBadge <==> !n.activity.completed && n.isLocked
    ensures b == AvailableBadge <==> !n.activity.completed && !n.isLocked
  {
    if n.activity.completed then CompletedBadge
    else if n.isLocked then LockedBadge
    else AvailableBadge
  }

  /** The manual "Mark as Complete" button of the dialog: uncompleted videos and audios only. */
  function ManualCompleteButton(a: Activity): (shown: bool)
    ensures shown ==> !a.completed
    ensures shown <==> !a.completed && (a.kind == Video || a.kind == Audio)
  {
    !a.completed && (a.kind == Video || a.kind == Audio)
  }

  /** The content of a node's dialog. */
  datatype Dialog = Dialog(player: Player, completeButton: bool)

  /** Clicking a node opens its dialog unless the node is locked; a locked node renders no dialog content. */
  function OpenDialog(n: Node): (d: Option<Dialog>)
    ensures d.None? <==> n.isLocked
    ensures d.Some? ==> d.value.player == RenderPlayer(n.activity)
    ensures d.Some? && d.value.completeButton ==> !n.activity.completed
  {
    if n.isLocked then None
    else Some(Dialog(RenderPlayer(n.activity), ManualCompleteButton(n.activity)))
  }

  /** The first node is never locked, so its dialog always opens. */
  lemma FirstNodeOpens(acts: seq<Activity>)
    requires acts != []
    ensures OpenDialog(CreateNodes(acts)[0]).Some?
    ensures NodeBadge(CreateNodes(acts)[0]) != LockedBadge
  {
  }
}
