/** The road network is an external collaborator: the simulation only needs node
    identifiers and a shortest-path query between two of them. */
module Network {

  /** A road-network node, identified by its OpenStreetMap id (osmid). */
  type Node = int

  /** A route from `src` to `dst`: it starts at `src` and ends at `dst`. */
  predicate IsPath(p: seq<Node>, src: Node, dst: Node) {
    |p| >= 1 && p[0] == src && p[|p| - 1] == dst
  }

  /** Any shortest-path query over the road network. Nothing beyond the shape of
      its answer is assumed: the first node is the source, the last the target. */
  type PathOracle = f: (Node, Node) -> seq<Node> | forall a: Node, b: Node :: IsPath(f(a, b), a, b)
    witness (a: Node, b: Node) => if a == b then [a] else [a, b]
}
