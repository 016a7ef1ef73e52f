/** The shadow tables of one DiskANN column, as maps. A read that fails is a key
    that is absent, so a stale edge is an id without a node or a vector. */
module DiskAnnTables {
  import opened Wrappers

  type Vec = seq<real>

  type QVec = seq<int>

  /** One neighbour slot of a node: validity bit, neighbour row, quantized vector. */
  datatype Slot = Slot(valid: bool, id: int, qvec: QVec)

  type Node = seq<Slot>

  /** Quantizer and distances of a column; nothing is assumed about them. */
  datatype Metric = Metric(quantize: Vec -> QVec, approx: (QVec, QVec) -> real, exact: (Vec, Vec) -> real)

  datatype Tables = Tables(nodes: map<int, Node>, vectors: map<int, Vec>, medoid: Option<int>)

  /** Rows named by the valid slots of a node. */
  ghost function Neighbours(node: Node): (rows: set<int>) {
    set i | 0 <= i < |node| && node[i].valid :: node[i].id
  }
}
