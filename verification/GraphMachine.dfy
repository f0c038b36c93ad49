/** What the storage engine is for, without pages, caches, chains or property indexes: a graph
    in memory, the graph that would come back, and what each operation does to the two. */
module GraphMachine {
  import opened Graph
  import opened Engine

  /** A graph with its subgraphs, who is a member of which, and its hyperedges. */
  datatype Data = Data(
    nodes: map<nat, NodeRecord>, edges: map<nat, EdgeRecord>, subs: map<nat, SubgraphRecord>,
    members: set<(nat, nat)>, hypers: map<nat, HyperEdgeRecord>)

  /** Index names with their pairs of label or type and property key. */
  type Definitions = map<string, (nat, nat)>

  /** `live` is the graph in use, `saved` the one that closing and opening brings back. A failed
      edge creation moves `nextEdge` on but not `savedEdge`. */
  datatype Machine = Machine(
    live: Data, saved: Data, nextNode: nat, nextEdge: nat, savedEdge: nat, nextSub: nat, nextHyper: nat,
    nodeIndexes: Definitions, edgeIndexes: Definitions)

  const NO_DATA := Data(map[], map[], map[], {}, map[])

  const START := Machine(NO_DATA, NO_DATA, 1, 1, 1, 1, 1, map[], map[])

  function PutNode(g: Data, id: nat, labels: seq<nat>, props: Props): Data {
    g.(nodes := g.nodes[id := NodeRecord(id, labels, props)])
  }

  function PutEdge(g: Data, id: nat, start: nat, end: nat, relType: nat, props: Props): Data {
    g.(edges := g.edges[id := EdgeRecord(id, start, end, relType, props)])
  }

  /** The edges that neither start nor end at the node. */
  function EdgesAwayFrom(edges: map<nat, EdgeRecord>, node: nat): map<nat, EdgeRecord> {
    map x | x in edges && edges[x].start != node && edges[x].end != node :: edges[x]
  }

  /** The subgraph with all its members, written anew. */
  function SaveSub(saved: Data, live: Data, id: nat): Data
    requires id in live.subs
  {
    saved.(subs := saved.subs[id := live.subs[id]],
           members := saved.members + set p | p in live.members && p.0 == id)
  }

  function PutHyper(g: Data, id: nat, relType: nat, sources: seq<Entity>, targets: seq<Entity>, props: Props): Data {
    g.(hypers := g.hypers[id := HyperEdgeRecord(id, relType, sources, targets, props)])
  }

  /** What an operation does. `fits` says whether the record it writes, if it creates one, has
      room on a page: only then is the change saved. */
  function Change(m: Machine, op: Op, fits: bool): Machine {
    match op
    case CreateNode(labels, props) =>
      m.(live := PutNode(m.live, m.nextNode, labels, props),
         saved := if fits then PutNode(m.saved, m.nextNode, labels, props) else m.saved, nextNode := m.nextNode + 1)
    case UpdateNode(id, props) =>
      if id !in m.live.nodes then m
      else
        var labels := m.live.nodes[id].labels;
        m.(live := PutNode(m.live, id, labels, props),
           saved := if id in m.saved.nodes then PutNode(m.saved, id, labels, props) else m.saved)
    case DeleteNode(id) =>
      // The edges at the node go as well, but they are not taken from what is saved.
      m.(live := m.live.(nodes := m.live.nodes - {id}, edges := EdgesAwayFrom(m.live.edges, id)),
         saved := if id in m.live.nodes then m.saved.(nodes := m.saved.nodes - {id}) else m.saved)
    case CreateEdge(start, end, relType, props) =>
      if start !in m.live.nodes || end !in m.live.nodes then m.(nextEdge := m.nextEdge + 1)
      else
        m.(live := PutEdge(m.live, m.nextEdge, start, end, relType, props),
           saved := if fits then PutEdge(m.saved, m.nextEdge, start, end, relType, props) else m.saved,
           nextEdge := m.nextEdge + 1, savedEdge := m.nextEdge + 1)
    case UpdateEdge(id, props) =>
      if id !in m.live.edges then m
      else
        var r := m.live.edges[id];
        m.(live := PutEdge(m.live, id, r.start, r.end, r.relType, props),
           saved := if id in m.saved.edges then PutEdge(m.saved, id, r.start, r.end, r.relType, props) else m.saved)
    case DeleteEdge(id) =>
      if id !in m.live.edges then m
      else m.(live := m.live.(edges := m.live.edges - {id}), saved := m.saved.(edges := m.saved.edges - {id}))
    case CreateNodeIndex(name, tag, key) =>
      if name in m.nodeIndexes then m else m.(nodeIndexes := m.nodeIndexes[name := (tag, key)])
    case CreateEdgeIndex(name, tag, key) =>
      if name in m.edgeIndexes then m else m.(edgeIndexes := m.edgeIndexes[name := (tag, key)])
    case DropIndex(name) =>
      // A node index goes first.
      if name in m.nodeIndexes then m.(nodeIndexes := m.nodeIndexes - {name})
      else m.(edgeIndexes := m.edgeIndexes - {name})
    case CreateSubgraph(props, anchor) =>
      var live := m.live.(subs := m.live.subs[m.nextSub := SubgraphRecord(m.nextSub, anchor, props)]);
      m.(live := live, saved := if fits then SaveSub(m.saved, live, m.nextSub) else m.saved, nextSub := m.nextSub + 1)
    case AddMember(id, node) =>
      if id !in m.live.subs || node !in m.live.nodes then m
      else
        var live := m.live.(members := m.live.members + {(id, node)});
        m.(live := live, saved := if fits then SaveSub(m.saved, live, id) else m.saved)
    // What follows here is not saved.
    case RemoveMember(id, node) =>
      if id !in m.live.subs then m else m.(live := m.live.(members := m.live.members - {(id, node)}))
    case DeleteSubgraph(id) =>
      m.(live := m.live.(subs := m.live.subs - {id}, members := set p | p in m.live.members && p.0 != id))
    case CreateHyperEdge(relType, sources, targets, props) =>
      m.(live := PutHyper(m.live, m.nextHyper, relType, sources, targets, props),
         saved := if fits then PutHyper(m.saved, m.nextHyper, relType, sources, targets, props) else m.saved,
         nextHyper := m.nextHyper + 1)
    case DeleteHyperEdge(id) => m.(live := m.live.(hypers := m.live.hypers - {id}))
    case SetCatalog(_) => m
    case RunCheckpoint => m
    case Reopen => m.(live := m.saved, nextEdge := m.savedEdge, nodeIndexes := map[], edgeIndexes := map[])
  }
}
