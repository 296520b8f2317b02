/** The identity registry: one node per (kind, definition), created on first
    request with the next sequential id and a label cleaned of the characters
    the graph export cannot carry, and a set of outgoing edges per node. The
    process-wide node counter of the source is the registry's `nextId`. */
module Identity {
  import opened Wrappers
  import opened Metadata

  /** Node identity: the kind of definition and its metadata identity. */
  datatype NodeKey = TypeKey(t: TypeId) | FieldKey(f: FieldId) | MethodKey(m: MethodId)

  datatype Node = Node(id: nat, name: string, moduleName: string, container: Option<string>)

  /** The node table, the outgoing edges of every node, the id counter, and
      the keys in creation order (the export lists nodes in that order). */
  datatype Registry = Registry(
    nodes: map<NodeKey, Node>,
    edges: map<NodeKey, set<NodeKey>>,
    nextId: nat,
    created: seq<NodeKey>)

  /** The registry a run starts from. */
  const EmptyRegistry := Registry(map[], map[], 0, [])

  predicate IsHostile(c: char) {
    c == '\\' || c == '/' || c == '<' || c == '>'
  }

  predicate Clean(s: string) {
    forall i :: 0 <= i < |s| ==> !IsHostile(s[i])
  }

  predicate HasEdge(g: Registry, a: NodeKey, b: NodeKey) {
    a in g.edges && b in g.edges[a]
  }

  /** The registry's invariant: exactly the nodes have edge sets, a node's id
      is its position in creation order (so ids are below the counter and no
      two nodes share one), labels are clean, and edges end at nodes. */
  ghost predicate Valid(g: Registry) {
    && (forall k :: k in g.edges <==> k in g.nodes)
    && |g.created| == g.nextId
    && (forall k :: k in g.nodes ==>
          g.nodes[k].id < g.nextId && g.created[g.nodes[k].id] == k && Clean(g.nodes[k].name))
    && (forall k, x :: HasEdge(g, k, x) ==> x in g.nodes)
  }

  /** Different definitions have different node ids. */
  lemma IdsDistinct(g: Registry, k1: NodeKey, k2: NodeKey)
    requires Valid(g) && k1 in g.nodes && k2 in g.nodes && k1 != k2
    ensures g.nodes[k1].id != g.nodes[k2].id
  {
  }

  /** No node points to itself. */
  ghost predicate Irreflexive(g: Registry) {
    forall k :: !HasEdge(g, k, k)
  }

  /** Nodes keep their identity and edges are never removed. */
  ghost predicate Grows(g: Registry, g': Registry) {
    && g.nextId <= g'.nextId
    && (forall k :: k in g.nodes ==> k in g'.nodes && g'.nodes[k] == g.nodes[k])
    && (forall k, x :: HasEdge(g, k, x) ==> HasEdge(g', k, x))
  }

  lemma GrowsTrans(a: Registry, b: Registry, c: Registry)
    requires Grows(a, b) && Grows(b, c)
    ensures Grows(a, c)
  {
  }

  /** Grows, and only `src` gains outgoing edges. */
  ghost predicate GrowsAt(src: NodeKey, g: Registry, g': Registry) {
    && Grows(g, g')
    && (forall k, x :: k != src && HasEdge(g', k, x) ==> HasEdge(g, k, x))
  }

  /** One recording step from `src`: the invariant is kept, only `src` gains
      edges, and no self-edge appears. */
  ghost predicate Step(src: NodeKey, g: Registry, g': Registry) {
    && Valid(g')
    && GrowsAt(src, g, g')
    && (Irreflexive(g) ==> Irreflexive(g'))
  }

  lemma StepTrans(src: NodeKey, a: Registry, b: Registry, c: Registry)
    requires Step(src, a, b) && Step(src, b, c)
    ensures Step(src, a, c)
  {
  }

  /** The invariant is kept, the registry grows, and no self-edge appears;
      steps from any node compose into one. */
  ghost predicate Extends(g: Registry, g': Registry) {
    && Valid(g')
    && Grows(g, g')
    && (Irreflexive(g) ==> Irreflexive(g'))
  }

  lemma StepExtends(src: NodeKey, g: Registry, g': Registry)
    requires Step(src, g, g')
    ensures Extends(g, g')
  {
  }

  lemma ExtendsTrans(a: Registry, b: Registry, c: Registry)
    requires Extends(a, b) && Extends(b, c)
    ensures Extends(a, c)
  {
  }

  /** String.Replace of one character by another. */
  function Replace(s: string, from: char, to: char): (r: string)
    ensures |r| == |s|
    ensures forall i :: 0 <= i < |s| ==> r[i] == (if s[i] == from then to else s[i])
  {
    if |s| == 0 then "" else [if s[0] == from then to else s[0]] + Replace(s[1..], from, to)
  }

  /** Node.Massage: the four successive replacements by '_'. */
  function Massage(s: string): (r: string)
    ensures |r| == |s|
    ensures forall i :: 0 <= i < |s| ==> r[i] == (if IsHostile(s[i]) then '_' else s[i])
    ensures Clean(r)
  {
    Replace(Replace(Replace(Replace(s, '\\', '_'), '/', '_'), '<', '_'), '>', '_')
  }

  /** Massaging is idempotent, and leaves a clean label as it is. */
  lemma MassageIdempotent(s: string)
    ensures Massage(Massage(s)) == Massage(s)
    ensures Clean(s) ==> Massage(s) == s
  {
  }

  function DigitChar(d: nat): char
    requires d < 10
  {
    "0123456789"[d]
  }

  function NatToString(n: nat): string {
    if n < 10 then [DigitChar(n)] else NatToString(n / 10) + [DigitChar(n % 10)]
  }

  /** The label, module and container a fresh node takes from its definition. */
  function NewNode(md: Meta, k: NodeKey, id: nat): (n: Node)
    ensures n.id == id && Clean(n.name)
  {
    match k
    case TypeKey(t) =>
      var td := md.TypeOf(t);
      Node(id, Massage(td.fullName), td.moduleName,
           if td.declaringType.Some? then Some(md.TypeOf(td.declaringType.value).fullName) else None)
    case FieldKey(f) =>
      var fd := md.FieldOf(f);
      var owner := md.TypeOf(fd.declaringType);
      Node(id, Massage(owner.fullName + ":" + fd.name), owner.moduleName, Some(owner.fullName))
    case MethodKey(m) =>
      var mdef := md.MethodOf(m);
      var owner := md.TypeOf(mdef.declaringType);
      Node(id, Massage(owner.fullName + ":" + mdef.name + "/" + NatToString(|mdef.params|)),
           owner.moduleName, Some(owner.fullName))
  }

  /** The registry with a fresh node for `k`, numbered by the counter. */
  function AddNode(md: Meta, g: Registry, k: NodeKey): Registry {
    Registry(g.nodes[k := NewNode(md, k, g.nextId)], g.edges[k := {}], g.nextId + 1, g.created + [k])
  }

  lemma AddNodeProperties(md: Meta, g: Registry, k: NodeKey)
    requires Valid(g) && k !in g.nodes
    ensures Valid(AddNode(md, g, k)) && Grows(g, AddNode(md, g, k))
    ensures forall k', x :: HasEdge(AddNode(md, g, k), k', x) <==> HasEdge(g, k', x)
  {
    AddNodeEdges(md, g, k);
    AddNodeNumbers(md, g, k);
  }

  lemma AddNodeEdges(md: Meta, g: Registry, k: NodeKey)
    requires Valid(g) && k !in g.nodes
    ensures forall k', x :: HasEdge(AddNode(md, g, k), k', x) <==> HasEdge(g, k', x)
  {
    var g' := AddNode(md, g, k);
    forall k', x ensures HasEdge(g', k', x) <==> HasEdge(g, k', x) {
      if k' == k {
        assert k' !in g.edges;
      }
    }
  }

  lemma AddNodeNumbers(md: Meta, g: Registry, k: NodeKey)
    requires Valid(g) && k !in g.nodes
    ensures forall k' :: k' in AddNode(md, g, k).nodes ==>
      var g' := AddNode(md, g, k);
      g'.nodes[k'].id < g'.nextId && g'.created[g'.nodes[k'].id] == k' && Clean(g'.nodes[k'].name)
  {
    var g' := AddNode(md, g, k);
    forall k' | k' in g'.nodes
      ensures g'.nodes[k'].id < g'.nextId && g'.created[g'.nodes[k'].id] == k' && Clean(g'.nodes[k'].name)
    {
      if k' != k {
        assert g'.created[g.nodes[k'].id] == g.created[g.nodes[k'].id];
      }
    }
  }

  /** NodeForType / NodeForField / NodeForMethod: the memoised node of a key. */
  function NodeFor(md: Meta, g: Registry, k: NodeKey): (r: (Registry, Node))
    requires Valid(g)
    ensures Valid(r.0) && Grows(g, r.0)
    ensures forall k', x :: HasEdge(r.0, k', x) <==> HasEdge(g, k', x)
    ensures k in r.0.nodes && r.0.nodes[k] == r.1
    ensures k in g.nodes ==> r == (g, g.nodes[k])
    ensures k !in g.nodes ==> r.1.id == g.nextId && r.0.nextId == g.nextId + 1
  {
    if k in g.nodes then (g, g.nodes[k])
    else
      AddNodeProperties(md, g, k);
      (AddNode(md, g, k), NewNode(md, k, g.nextId))
  }

  /** Asking twice for the node of the same definition yields the same node
      and leaves the registry as the first request left it. */
  lemma NodeForMemoised(md: Meta, g: Registry, k: NodeKey)
    requires Valid(g)
    ensures NodeFor(md, NodeFor(md, g, k).0, k) == NodeFor(md, g, k)
  {
  }

  /** Adds one edge between two existing nodes. */
  function AddEdge(g: Registry, src: NodeKey, tgt: NodeKey): (r: Registry)
    requires Valid(g) && src in g.nodes && tgt in g.nodes
    ensures Valid(r) && GrowsAt(src, g, r)
    ensures forall x :: HasEdge(r, src, x) <==> HasEdge(g, src, x) || x == tgt
    ensures r.nodes == g.nodes
    ensures Irreflexive(g) && src != tgt ==> Irreflexive(r)
  {
    var r := g.(edges := g.edges[src := g.edges[src] + {tgt}]);
    assert forall k, x :: HasEdge(r, k, x) ==> HasEdge(g, k, x) || (k == src && x == tgt);
    r
  }

  /** The registry after adding `src -> tgt`, creating the source node first. */
  function Relate(md: Meta, src: NodeKey, tgt: NodeKey, g: Registry): Registry
    requires Valid(g)
  {
    var g1 := NodeFor(md, g, src).0;
    AddEdge(NodeFor(md, g1, tgt).0, src, tgt)
  }

  lemma RelateProperties(md: Meta, src: NodeKey, tgt: NodeKey, g: Registry)
    requires Valid(g)
    ensures Valid(Relate(md, src, tgt, g)) && GrowsAt(src, g, Relate(md, src, tgt, g))
    ensures forall x :: HasEdge(Relate(md, src, tgt, g), src, x) <==> HasEdge(g, src, x) || x == tgt
    ensures Irreflexive(g) && src != tgt ==> Irreflexive(Relate(md, src, tgt, g))
  {
  }

  /** Adding an edge that is already there leaves the registry as it is. */
  lemma RelateExisting(md: Meta, src: NodeKey, tgt: NodeKey, g: Registry)
    requires Valid(g) && HasEdge(g, src, tgt)
    ensures Relate(md, src, tgt, g) == g
  {
    assert src in g.nodes && tgt in g.nodes;
    assert g.edges[src] + {tgt} == g.edges[src];
    assert g.edges[src := g.edges[src] + {tgt}] == g.edges;
  }

  /** Record{Type,Field,Method}Relation: add `tgt` to the edge set of `src`,
      creating both nodes on demand (source first); the flag says whether this
      is the edge's first insertion. */
  function RecordRelation(md: Meta, src: NodeKey, tgt: NodeKey, g: Registry): (r: (Registry, bool))
    requires Valid(g)
    ensures Valid(r.0) && GrowsAt(src, g, r.0)
    ensures r.1 <==> !HasEdge(g, src, tgt)
    ensures forall x :: HasEdge(r.0, src, x) <==> HasEdge(g, src, x) || x == tgt
    ensures Irreflexive(g) && src != tgt ==> Irreflexive(r.0)
  {
    RelateProperties(md, src, tgt, g);
    (Relate(md, src, tgt, g), !HasEdge(g, src, tgt))
  }

  /** Recording an edge between two different nodes is one step from its source. */
  lemma RecordRelationStep(md: Meta, src: NodeKey, tgt: NodeKey, g: Registry)
    requires Valid(g) && src != tgt
    ensures Step(src, g, RecordRelation(md, src, tgt, g).0)
  {
  }

  /** Recording an edge a second time changes nothing and reports no insertion. */
  lemma RecordRelationDeduplicates(md: Meta, src: NodeKey, tgt: NodeKey, g: Registry)
    requires Valid(g)
    ensures var g1 := RecordRelation(md, src, tgt, g).0;
            RecordRelation(md, src, tgt, g1) == (g1, false)
  {
    var g1 := RecordRelation(md, src, tgt, g).0;
    RelateExisting(md, src, tgt, g1);
  }
}
