/** The part of a hardware snapshot that the planner reads. */
module Hardware {
  import opened Common

  /** Interconnect classes; `Unknown` also stands for every string that names no class. */
  datatype Relationship = NvLink | Pix | Pxb | Phb | Node | Sys | Network | Unknown {
    function Score(): nat {
      match this
      case NvLink => 100
      case Pix => 40
      case Pxb => 30
      case Phb => 20
      case Node => 10
      case Sys => 5
      case Unknown => 1
      case Network => 0
    }
  }

  datatype Edge = Edge(a: int, b: int, relationship: Relationship, nvlinkDetected: bool, links: Option<nat>) {
    function Score(): nat {
      if nvlinkDetected
      then Max(relationship.Score(), NvLink.Score()) + (if links.Some? then links.value else 0)
      else relationship.Score()
    }
  }

  datatype Topology = Topology(edges: seq<Edge>, available: bool) {
    /** Score of the first edge recorded for the pair, or the score of an unknown relationship. */
    function Score(a: int, b: int): nat {
      EdgeScore(edges, if a < b then a else b, if a < b then b else a)
    }
  }

  function EdgeScore(edges: seq<Edge>, lo: int, hi: int): nat {
    if edges == [] then Unknown.Score()
    else if edges[0].a == lo && edges[0].b == hi then edges[0].Score()
    else EdgeScore(edges[1..], lo, hi)
  }

  datatype Gpu = Gpu(index: int, name: string, total: int, free: int, nodeId: Option<string>)

  datatype NodeInfo = NodeInfo(nodeId: string, gpuIndices: seq<int>)

  datatype Snapshot = Snapshot(gpus: seq<Gpu>, topology: Topology, nodes: seq<NodeInfo>, provider: string) {
    /** `{g.index: g.node_id for g in gpus}`: a later entry replaces an earlier one. */
    function NodeMap(): map<int, Option<string>> {
      NodeMapOf(gpus)
    }

    predicate IsCluster() {
      |nodes| > 1
    }
  }

  function NodeMapOf(gpus: seq<Gpu>): map<int, Option<string>> {
    if gpus == [] then map[] else map[gpus[0].index := gpus[0].nodeId] + NodeMapOf(gpus[1..])
  }

  /** Indices are unique across a snapshot. */
  ghost predicate UniqueIndices(gpus: seq<Gpu>) {
    forall i, j :: 0 <= i < j < |gpus| ==> gpus[i].index != gpus[j].index
  }

  /** With unique indices the node map answers what each device says about itself. */
  lemma {:induction false} NodeMapAt(gpus: seq<Gpu>, k: nat)
    requires UniqueIndices(gpus) && k < |gpus|
    ensures gpus[k].index in NodeMapOf(gpus) && NodeMapOf(gpus)[gpus[k].index] == gpus[k].nodeId
  {
    if k > 0 {
      NodeMapAt(gpus[1..], k - 1);
    } else {
      NodeMapMisses(gpus[1..], gpus[0].index);
    }
  }

  lemma {:induction false} NodeMapMisses(gpus: seq<Gpu>, index: int)
    requires forall k :: 0 <= k < |gpus| ==> gpus[k].index != index
    ensures index !in NodeMapOf(gpus)
  {
    if gpus != [] {
      NodeMapMisses(gpus[1..], index);
    }
  }
}
