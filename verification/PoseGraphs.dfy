/** The pose graph over submap anchors, `maploc/src/pose_graph.rs`. */
module PoseGraphs {
  import opened Poses
  import opened LinearAlgebra

  /** `held` nodes stay where they are when the graph is optimized. */
  datatype PoseNode = PoseNode(pose: Pose, submapIdx: nat, held: bool)

  datatype PoseEdge = PoseEdge(from: nat, to: nat, measurement: Pose, information: Mat3)

  /** A link of the odometry chain, or an edge from a node to itself. */
  predicate IsChain(e: PoseEdge)
  {
    e.to as int - e.from as int <= 1 && e.from as int - e.to as int <= 1
  }

  function InformationFromSigmas(sigmaXy: real, sigmaYaw: real): Mat3
    requires sigmaXy * sigmaXy != 0.0 && sigmaYaw * sigmaYaw != 0.0
  {
    var invXy2 := 1.0 / (sigmaXy * sigmaXy);
    Diag(invXy2, invXy2, 1.0 / (sigmaYaw * sigmaYaw))
  }

  class PoseGraph {
    var nodes: seq<PoseNode>
    var edges: seq<PoseEdge>

    constructor ()
      ensures nodes == [] && edges == []
    {
      nodes, edges := [], [];
    }

    /** The first node is held, every later one is free. */
    method AddNode(pose: Pose, submapIdx: nat) returns (idx: nat)
      modifies this`nodes
      ensures idx == |old(nodes)| && nodes == old(nodes) + [PoseNode(pose, submapIdx, idx == 0)]
    {
      idx := |nodes|;
      nodes := nodes + [PoseNode(pose, submapIdx, idx == 0)];
    }

    method AddEdge(edge: PoseEdge)
      modifies this`edges
      ensures edges == old(edges) + [edge]
    {
      edges := edges + [edge];
    }
  }
}
