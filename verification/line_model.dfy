// What `buildProductionLineModel` returns without the collapse pass: one node per item,
// fluid and machine the tree mentions, under distinct ids, and the tree's edges merged by key.
module LineModel {
  import opened Wrappers
  import opened Strings
  import opened PackTypes
  import opened Key
  import opened OrderedMaps
  import opened Planner
  import opened ProductionLine
  import opened LineEdges
  import opened LineWalk

  /** The walk from empty maps, key by key. */
  lemma WalkFromEmpty(cfg: Config, root: Node, k: string)
    ensures Walk(cfg, root, EmptyLine).edges == MergeAll([], AllDrafts(Preorder(root)))
    ensures WellKeyed(Walk(cfg, root, EmptyLine).edges)
    ensures Has(Walk(cfg, root, EmptyLine).machines, k) <==> k in MachineKeysOf(Preorder(root))
    ensures MachineAmount(Walk(cfg, root, EmptyLine).machines, k) == MachineTotal(Preorder(root), k)
    ensures Has(Walk(cfg, root, EmptyLine).items, k) <==> k in ItemHashesOf(Preorder(root))
    ensures ItemSeed(Walk(cfg, root, EmptyLine).items, k) == SeedTotal(cfg, Preorder(root), k)
    ensures Has(Walk(cfg, root, EmptyLine).fluids, k) <==> k in FluidKeysOf(Preorder(root))
    ensures ItemsTagged(cfg, Walk(cfg, root, EmptyLine).items)
    ensures DistinctKeys(Walk(cfg, root, EmptyLine).fluids) && DistinctKeys(Walk(cfg, root, EmptyLine).machines)
  {
    var ns := Preorder(root);
    WalkVisitsPreorder(cfg, root, EmptyLine);
    VisitAllEdges(cfg, ns, EmptyLine);
    MergeAllWellKeyed([], AllDrafts(ns));
    VisitAllMachineKeys(cfg, ns, EmptyLine, k);
    VisitAllMachineAmounts(cfg, ns, EmptyLine, k);
    VisitAllItemKeys(cfg, ns, EmptyLine, k);
    VisitAllItemSeeds(cfg, ns, EmptyLine, k);
    VisitAllFluids(cfg, ns, EmptyLine, k);
  }

  // ---------------------------------------------------------------------------
  // Node ids

  predicate DistinctIds(nodes: seq<LineNode>) {
    forall i, j :: 0 <= i < j < |nodes| ==> nodes[i].nodeId != nodes[j].nodeId
  }

  /** Item, fluid and machine ids never coincide. */
  lemma KindsApart(a: string, b: string)
    ensures ItemId(a) != FluidId(b) && ItemId(a) != MachineId(b) && FluidId(a) != MachineId(b)
  {
    IdKinds(a);
    IdKinds(b);
  }

  /** The id of a node of kind `part` (0 item, 1 fluid, 2 machine) and key `k`. */
  function KindId(part: nat, k: string): string {
    if part == 0 then ItemId(k) else if part == 1 then FluidId(k) else MachineId(k)
  }

  lemma KindIdInjective(p1: nat, x: string, p2: nat, y: string)
    requires p1 <= 2 && p2 <= 2
    ensures KindId(p1, x) == KindId(p2, y) ==> p1 == p2 && x == y
  {
    KindsApart(x, y);
    KindsApart(y, x);
    IdsInjective(x, y);
  }

  /** Which of the three maps position `i` of the node list comes from. */
  function Part(line: Line, i: nat): nat {
    if i < |line.items| then 0 else if i < |line.items| + |line.fluids| then 1 else 2
  }

  /** The key behind position `i` of the node list. */
  function KeyAt(line: Line, i: nat): string
    requires i < |line.items| + |line.fluids| + |line.machines|
  {
    if i < |line.items| then line.items[i].k
    else if i < |line.items| + |line.fluids| then line.fluids[i - |line.items|].k
    else line.machines[i - |line.items| - |line.fluids|].k
  }

  /** Items first, then fluids, then machines, each node's id made from its key. */
  lemma LineNodeAt(line: Line, amounts: map<string, real>, i: nat)
    requires i < |LineNodes(line, amounts)|
    ensures i < |line.items| + |line.fluids| + |line.machines|
    ensures LineNodes(line, amounts)[i].nodeId == KindId(Part(line, i), KeyAt(line, i))
  {
  }

  /** With no key repeated in any map, no node id repeats in the node list. */
  lemma LineNodesDistinct(line: Line, amounts: map<string, real>)
    requires DistinctKeys(line.items) && DistinctKeys(line.fluids) && DistinctKeys(line.machines)
    ensures DistinctIds(LineNodes(line, amounts))
  {
    var ns := LineNodes(line, amounts);
    forall i, j | 0 <= i < j < |ns|
      ensures ns[i].nodeId != ns[j].nodeId
    {
      LineNodeAt(line, amounts, i);
      LineNodeAt(line, amounts, j);
      KindIdInjective(Part(line, i), KeyAt(line, i), Part(line, j), KeyAt(line, j));
    }
  }

  // ---------------------------------------------------------------------------
  // Node amounts

  /** What the edges credit to node `id`. */
  function CreditTotal(edges: seq<Edge>, id: string, final: bool): real {
    if |edges| == 0 then 0.0
    else (if final then FinalCredit(edges[0].draft, id) else Credit(edges[0].draft, id)) + CreditTotal(edges[1..], id, final)
  }

  /** Crediting an edge to its credited endpoint is crediting each node what the edge owes it. */
  lemma CreditedMatches(d: Draft, id: string, final: bool)
    ensures (if final then FinalCredit(d, id) else Credit(d, id)) == if CreditedId(d, final) == Some(id) then d.amount else 0.0
  {
  }

  /** `amountByNodeId` holds, for each node, the amounts of the edges credited to it. */
  lemma {:induction false} NodeAmountsTotal(edges: seq<Edge>, final: bool, acc: map<string, real>, id: string)
    ensures AmountAt(NodeAmounts(edges, final, acc), id) == AmountAt(acc, id) + CreditTotal(edges, id, final)
    decreases |edges|
  {
    if |edges| > 0 {
      var d := edges[0].draft;
      var acc1 := match CreditedId(d, final)
        case None => acc
        case Some(x) => acc[x := AmountAt(acc, x) + d.amount];
      CreditedMatches(d, id, final);
      NodeAmountsTotal(edges[1..], final, acc1, id);
    }
  }

  // ---------------------------------------------------------------------------
  // The model without the collapse pass

  /** The root's hash the builder marks: the given root key's, else the root node's own. */
  function RootHash(root: Node, rootItemKey: Option<ItemKey>): Option<string> {
    if rootItemKey.Some? then Some(ItemKeyHash(rootItemKey.value))
    else if root.ItemNode? then Some(ItemKeyHash(root.itemKey))
    else None
  }

  /** Every edge joins a machine to something else: machine to item, or item or fluid to machine. */
  predicate Shaped(e: (bool, string, string)) {
    if e.0 then (IsMachineId(e.1) && IsItemId(e.2)) || (IsItemId(e.1) && IsMachineId(e.2))
    else IsFluidId(e.1) && IsMachineId(e.2)
  }

  lemma {:induction false} ChildDraftsShaped(cs: seq<Node>, k: string)
    ensures forall i :: 0 <= i < |ChildDrafts(cs, MachineId(k))| ==> Shaped(Ends(ChildDrafts(cs, MachineId(k))[i]))
    decreases |cs|
  {
    if |cs| > 0 {
      var c := cs[0];
      if c.ItemNode? {
        IdKinds(ItemKeyHash(c.itemKey));
      } else {
        IdKinds(FluidKey(c.id, c.unit));
      }
      IdKinds(k);
      ChildDraftsShaped(cs[1..], k);
    }
  }

  lemma {:induction false} AllDraftsShaped(ns: seq<Node>)
    ensures forall i :: 0 <= i < |AllDrafts(ns)| ==> Shaped(Ends(AllDrafts(ns)[i]))
    decreases |ns|
  {
    if |ns| > 0 {
      VisitDraftsShaped(ns[0]);
      AllDraftsShaped(ns[1..]);
    }
  }

  lemma VisitDraftsShaped(n: Node)
    ensures forall i :: 0 <= i < |VisitDrafts(n)| ==> Shaped(Ends(VisitDrafts(n)[i]))
  {
    if BuildsMachine(n) {
      IdKinds(MachineKeyOf(n));
      IdKinds(ItemKeyHash(n.itemKey));
      ChildDraftsShaped(n.children, MachineKeyOf(n));
    }
  }

  /** The builder without the collapse pass: the walk's maps listed as nodes and edges. */
  lemma Uncollapsed(root: Node, rootItemKey: Option<ItemKey>, seeds: bool)
    ensures var line := Walk(Config(RootHash(root, rootItemKey), seeds), root, EmptyLine);
      BuildProductionLineModel(root, rootItemKey, seeds, false)
      == (LineNodes(line, NodeAmounts(Values(line.edges), false, map[])), Values(line.edges))
  {
  }

  /** Without the collapse pass, no two nodes share an id. */
  lemma UncollapsedNodeIds(root: Node, rootItemKey: Option<ItemKey>, seeds: bool)
    ensures DistinctIds(BuildProductionLineModel(root, rootItemKey, seeds, false).0)
  {
    var cfg := Config(RootHash(root, rootItemKey), seeds);
    var line := Walk(cfg, root, EmptyLine);
    Uncollapsed(root, rootItemKey, seeds);
    WalkFromEmpty(cfg, root, "");
    LineNodesDistinct(line, NodeAmounts(Values(line.edges), false, map[]));
  }

  /**
   * Without the collapse pass, the edges are the tree's drafts merged by key: their ids are
   * distinct and each has a machine at exactly one end.
   */
  lemma UncollapsedEdges(root: Node, rootItemKey: Option<ItemKey>, seeds: bool)
    ensures BuildProductionLineModel(root, rootItemKey, seeds, false).1
         == Values(MergeAll([], AllDrafts(Preorder(root))))
    ensures var edges := BuildProductionLineModel(root, rootItemKey, seeds, false).1;
      forall i, j :: 0 <= i < j < |edges| ==> edges[i].id != edges[j].id
    ensures var edges := BuildProductionLineModel(root, rootItemKey, seeds, false).1;
      forall i :: 0 <= i < |edges| ==> Shaped(Ends(edges[i].draft))
  {
    Uncollapsed(root, rootItemKey, seeds);
    WalkFromEmpty(Config(RootHash(root, rootItemKey), seeds), root, "");
    TreeEdges(Preorder(root));
  }

  /** The visits' drafts merged by key have distinct ids and a machine at exactly one end. */
  lemma TreeEdges(ns: seq<Node>)
    ensures var edges := Values(MergeAll([], AllDrafts(ns)));
      forall i, j :: 0 <= i < j < |edges| ==> edges[i].id != edges[j].id
    ensures var edges := Values(MergeAll([], AllDrafts(ns)));
      forall i :: 0 <= i < |edges| ==> Shaped(Ends(edges[i].draft))
  {
    var m := MergeAll([], AllDrafts(ns));
    MergeAllWellKeyed([], AllDrafts(ns));
    WellKeyedIds(m);
    AllDraftsShaped(ns);
    MergeAllKeeps([], AllDrafts(ns), Shaped);
  }

  // ---------------------------------------------------------------------------
  // What each node of the list says

  /** Position `i` of the three maps, read in order, is position `i` of the node list, of the matching kind. */
  lemma PartAt(line: Line, amounts: map<string, real>, i: nat)
    requires i < |line.items| + |line.fluids| + |line.machines|
    ensures i < |LineNodes(line, amounts)|
    ensures LineNodes(line, amounts)[i].nodeId == KindId(Part(line, i), KeyAt(line, i))
    ensures Part(line, i) == 0 <==> LineNodes(line, amounts)[i].LineItem?
    ensures Part(line, i) == 1 <==> LineNodes(line, amounts)[i].LineFluid?
    ensures Part(line, i) == 2 <==> LineNodes(line, amounts)[i].LineMachine?
  {
  }

  /** An item node: its id, hash, root mark, amount and seed come from its entry. */
  lemma ItemNodeFacts(cfg: Config, line: Line, amounts: map<string, real>, i: nat)
    requires ItemsTagged(cfg, line.items)
    requires i < |LineNodes(line, amounts)| && LineNodes(line, amounts)[i].LineItem?
    ensures i < |line.items|
    ensures var n := LineNodes(line, amounts)[i];
      && n.nodeId == ItemId(ItemKeyHash(n.itemKey))
      && Has(line.items, ItemKeyHash(n.itemKey))
      && (n.isRoot <==> cfg.rootKeyHash == Some(ItemKeyHash(n.itemKey)))
      && n.amount == AmountAt(amounts, n.nodeId)
      && var seed := ItemSeed(line.items, ItemKeyHash(n.itemKey));
         n.seedAmount == if seed > 0.0 then Some(seed) else None
  {
    GetAt(line.items, i);
  }

  /** Item `h` gets a node exactly when the items map holds it. */
  lemma ItemListed(line: Line, amounts: map<string, real>, h: string)
    ensures Has(line.items, h) <==>
      exists i :: 0 <= i < |LineNodes(line, amounts)| && LineNodes(line, amounts)[i].LineItem? && LineNodes(line, amounts)[i].nodeId == ItemId(h)
  {
    var ns := LineNodes(line, amounts);
    HasAt(line.items, h);
    if Has(line.items, h) {
      var j :| 0 <= j < |line.items| && line.items[j].k == h;
      PartAt(line, amounts, j);
    }
    if exists i :: 0 <= i < |ns| && ns[i].LineItem? && ns[i].nodeId == ItemId(h) {
      var i :| 0 <= i < |ns| && ns[i].LineItem? && ns[i].nodeId == ItemId(h);
      PartAt(line, amounts, i);
      KindIdInjective(Part(line, i), KeyAt(line, i), 0, h);
    }
  }

  /** A machine node: its amount is that of its entry. */
  lemma MachineNodeFacts(line: Line, amounts: map<string, real>, i: nat)
    requires DistinctKeys(line.machines)
    requires i < |LineNodes(line, amounts)| && LineNodes(line, amounts)[i].LineMachine?
    ensures |line.items| + |line.fluids| <= i
    ensures var k := line.machines[i - |line.items| - |line.fluids|].k;
      && LineNodes(line, amounts)[i].nodeId == MachineId(k)
      && Has(line.machines, k)
      && LineNodes(line, amounts)[i].amount == MachineAmount(line.machines, k)
  {
    GetAt(line.machines, i - |line.items| - |line.fluids|);
  }

  /** Machine `k` gets a node exactly when the machines map holds it. */
  lemma MachineListed(line: Line, amounts: map<string, real>, k: string)
    ensures Has(line.machines, k) <==>
      exists i :: 0 <= i < |LineNodes(line, amounts)| && LineNodes(line, amounts)[i].LineMachine? && LineNodes(line, amounts)[i].nodeId == MachineId(k)
  {
    var ns := LineNodes(line, amounts);
    var off := |line.items| + |line.fluids|;
    HasAt(line.machines, k);
    if Has(line.machines, k) {
      var j :| 0 <= j < |line.machines| && line.machines[j].k == k;
      PartAt(line, amounts, off + j);
    }
    if exists i :: 0 <= i < |ns| && ns[i].LineMachine? && ns[i].nodeId == MachineId(k) {
      var i :| 0 <= i < |ns| && ns[i].LineMachine? && ns[i].nodeId == MachineId(k);
      PartAt(line, amounts, i);
      KindIdInjective(Part(line, i), KeyAt(line, i), 2, k);
    }
  }

  /** A fluid node: its id comes from its entry's key and its amount from the edges. */
  lemma FluidNodeFacts(line: Line, amounts: map<string, real>, i: nat)
    requires i < |LineNodes(line, amounts)| && LineNodes(line, amounts)[i].LineFluid?
    ensures |line.items| <= i < |line.items| + |line.fluids|
    ensures var k := line.fluids[i - |line.items|].k;
      && LineNodes(line, amounts)[i].nodeId == FluidId(k)
      && Has(line.fluids, k)
      && LineNodes(line, amounts)[i].amount == AmountAt(amounts, FluidId(k))
  {
    PartAt(line, amounts, i);
    var j := i - |line.items|;
    assert LineNodes(line, amounts)[i] == FluidNodes(line.fluids, amounts)[j];
    HasAt(line.fluids, line.fluids[j].k);
  }

  /** Fluid `k` gets a node exactly when the fluids map holds it. */
  lemma FluidListed(line: Line, amounts: map<string, real>, k: string)
    ensures Has(line.fluids, k) <==>
      exists i :: 0 <= i < |LineNodes(line, amounts)| && LineNodes(line, amounts)[i].LineFluid? && LineNodes(line, amounts)[i].nodeId == FluidId(k)
  {
    var ns := LineNodes(line, amounts);
    var off := |line.items|;
    HasAt(line.fluids, k);
    if Has(line.fluids, k) {
      var j :| 0 <= j < |line.fluids| && line.fluids[j].k == k;
      PartAt(line, amounts, off + j);
    }
    if exists i :: 0 <= i < |ns| && ns[i].LineFluid? && ns[i].nodeId == FluidId(k) {
      var i :| 0 <= i < |ns| && ns[i].LineFluid? && ns[i].nodeId == FluidId(k);
      PartAt(line, amounts, i);
      KindIdInjective(Part(line, i), KeyAt(line, i), 1, k);
    }
  }

  // ---------------------------------------------------------------------------
  // The nodes without the collapse pass

  /** Without the collapse pass, item `h` has a node exactly when the walk meets it. */
  lemma UncollapsedItemNodes(root: Node, rootItemKey: Option<ItemKey>, seeds: bool, h: string)
    ensures var nodes := BuildProductionLineModel(root, rootItemKey, seeds, false).0;
      (exists i :: 0 <= i < |nodes| && nodes[i].LineItem? && nodes[i].nodeId == ItemId(h))
      <==> h in ItemHashesOf(Preorder(root))
  {
    var cfg := Config(RootHash(root, rootItemKey), seeds);
    var line := Walk(cfg, root, EmptyLine);
    Uncollapsed(root, rootItemKey, seeds);
    WalkFromEmpty(cfg, root, h);
    ItemListed(line, NodeAmounts(Values(line.edges), false, map[]), h);
  }

  /**
   * Without the collapse pass, an item node is marked root exactly when its hash is the root's,
   * its amount is what the edges credit it, and its seed amount is its nodes' cycle seeds.
   */
  lemma UncollapsedItemNode(root: Node, rootItemKey: Option<ItemKey>, seeds: bool, i: nat)
    requires i < |BuildProductionLineModel(root, rootItemKey, seeds, false).0|
    requires BuildProductionLineModel(root, rootItemKey, seeds, false).0[i].LineItem?
    ensures var r := BuildProductionLineModel(root, rootItemKey, seeds, false);
      var h := ItemKeyHash(r.0[i].itemKey);
      && r.0[i].nodeId == ItemId(h)
      && h in ItemHashesOf(Preorder(root))
      && (r.0[i].isRoot <==> RootHash(root, rootItemKey) == Some(h))
      && r.0[i].amount == CreditTotal(r.1, r.0[i].nodeId, false)
      && var seed := SeedTotal(Config(RootHash(root, rootItemKey), seeds), Preorder(root), h);
         r.0[i].seedAmount == if seed > 0.0 then Some(seed) else None
  {
    var cfg := Config(RootHash(root, rootItemKey), seeds);
    var line := Walk(cfg, root, EmptyLine);
    var edges := Values(line.edges);
    var n := LineNodes(line, NodeAmounts(edges, false, map[]))[i];
    Uncollapsed(root, rootItemKey, seeds);
    WalkFromEmpty(cfg, root, "");
    ItemNodeFacts(cfg, line, NodeAmounts(edges, false, map[]), i);
    WalkFromEmpty(cfg, root, ItemKeyHash(n.itemKey));
    NodeAmountsTotal(edges, false, map[], n.nodeId);
  }

  /** Without the collapse pass, machine `k` has a node exactly when some node of the tree builds it. */
  lemma UncollapsedMachineNodes(root: Node, rootItemKey: Option<ItemKey>, seeds: bool, k: string)
    ensures var nodes := BuildProductionLineModel(root, rootItemKey, seeds, false).0;
      (exists i :: 0 <= i < |nodes| && nodes[i].LineMachine? && nodes[i].nodeId == MachineId(k))
      <==> k in MachineKeysOf(Preorder(root))
  {
    var cfg := Config(RootHash(root, rootItemKey), seeds);
    var line := Walk(cfg, root, EmptyLine);
    Uncollapsed(root, rootItemKey, seeds);
    WalkFromEmpty(cfg, root, k);
    MachineListed(line, NodeAmounts(Values(line.edges), false, map[]), k);
  }

  /** Without the collapse pass, a machine node's amount is the total amount of the tree nodes that build it. */
  lemma UncollapsedMachineNode(root: Node, rootItemKey: Option<ItemKey>, seeds: bool, i: nat)
    requires i < |BuildProductionLineModel(root, rootItemKey, seeds, false).0|
    requires BuildProductionLineModel(root, rootItemKey, seeds, false).0[i].LineMachine?
    ensures var n := BuildProductionLineModel(root, rootItemKey, seeds, false).0[i];
      exists k :: n.nodeId == MachineId(k) && k in MachineKeysOf(Preorder(root)) && n.amount == MachineTotal(Preorder(root), k)
  {
    var cfg := Config(RootHash(root, rootItemKey), seeds);
    var line := Walk(cfg, root, EmptyLine);
    var amounts := NodeAmounts(Values(line.edges), false, map[]);
    Uncollapsed(root, rootItemKey, seeds);
    WalkFromEmpty(cfg, root, "");
    MachineNodeFacts(line, amounts, i);
    var k := line.machines[i - |line.items| - |line.fluids|].k;
    WalkFromEmpty(cfg, root, k);
  }

  /** Without the collapse pass, fluid `k` has a node exactly when the walk meets it. */
  lemma UncollapsedFluidNodes(root: Node, rootItemKey: Option<ItemKey>, seeds: bool, k: string)
    ensures var nodes := BuildProductionLineModel(root, rootItemKey, seeds, false).0;
      (exists i :: 0 <= i < |nodes| && nodes[i].LineFluid? && nodes[i].nodeId == FluidId(k))
      <==> k in FluidKeysOf(Preorder(root))
  {
    var cfg := Config(RootHash(root, rootItemKey), seeds);
    var line := Walk(cfg, root, EmptyLine);
    Uncollapsed(root, rootItemKey, seeds);
    WalkFromEmpty(cfg, root, k);
    FluidListed(line, NodeAmounts(Values(line.edges), false, map[]), k);
  }

  /** Without the collapse pass, a fluid node's amount is what its outgoing edges carry. */
  lemma UncollapsedFluidNode(root: Node, rootItemKey: Option<ItemKey>, seeds: bool, i: nat)
    requires i < |BuildProductionLineModel(root, rootItemKey, seeds, false).0|
    requires BuildProductionLineModel(root, rootItemKey, seeds, false).0[i].LineFluid?
    ensures var r := BuildProductionLineModel(root, rootItemKey, seeds, false);
      && r.0[i].amount == CreditTotal(r.1, r.0[i].nodeId, false)
      && exists k :: r.0[i].nodeId == FluidId(k) && k in FluidKeysOf(Preorder(root))
  {
    var cfg := Config(RootHash(root, rootItemKey), seeds);
    var line := Walk(cfg, root, EmptyLine);
    var edges := Values(line.edges);
    var amounts := NodeAmounts(edges, false, map[]);
    Uncollapsed(root, rootItemKey, seeds);
    FluidNodeFacts(line, amounts, i);
    var k := line.fluids[i - |line.items|].k;
    WalkFromEmpty(cfg, root, k);
    NodeAmountsTotal(edges, false, map[], FluidId(k));
  }
}
