// The production-line graph (src/jei/planner/productionLine.ts): a requirement tree folded
// into one node per item variant, per fluid and per (recipe, output) machine, joined by
// edges merged on (source, target, what flows), with an optional pass that removes
// intermediate items and wires their consumers straight to a producing machine.
module ProductionLine {
  import opened Wrappers
  import opened Strings
  import opened PackTypes
  import opened Key
  import opened OrderedMaps
  import opened Planner

  // ---------------------------------------------------------------------------
  // Graph data

  datatype LineNode =
    | LineItem(nodeId: string, itemKey: ItemKey, amount: real, seedAmount: Option<real>, isRoot: bool)
    | LineFluid(nodeId: string, id: string, unit: Option<string>, amount: real)
    | LineMachine(
        nodeId: string,
        recipeId: string,
        recipeTypeKey: Option<string>,
        outputItemKey: ItemKey,
        amount: real,
        machineItemId: Option<string>,
        machineName: Option<string>,
        machineCount: Option<real>,
        machines: Option<real>)

  /** An edge before it has an id: what flows from `source` to `target`. */
  datatype Draft =
    | ItemDraft(source: string, target: string, itemKey: ItemKey, amount: real)
    | FluidDraft(source: string, target: string, fluidId: string, unit: Option<string>, amount: real)

  datatype Edge = Edge(id: string, draft: Draft)

  datatype ItemAgg = ItemAgg(itemKey: ItemKey, seedAmount: real, isRoot: bool)

  datatype FluidAgg = FluidAgg(id: string, unit: Option<string>)

  datatype MachineAgg = MachineAgg(
    recipeId: string,
    recipeTypeKey: Option<string>,
    outputItemKey: ItemKey,
    amount: real,
    machineItemId: Option<string>,
    machineName: Option<string>,
    machineCount: Option<real>,
    machines: Option<real>)

  /** The four maps the walk fills: items by hash, fluids by `id[:unit]`, machines by `recipeId:hash`, edges by key. */
  datatype Line = Line(
    items: seq<Entry<ItemAgg>>,
    fluids: seq<Entry<FluidAgg>>,
    machines: seq<Entry<MachineAgg>>,
    edges: seq<Entry<Edge>>)

  const EmptyLine := Line([], [], [], [])

  /** What the builder is asked for: the root's hash (if any) and whether cycle seeds are counted. */
  datatype Config = Config(rootKeyHash: Option<string>, includeCycleSeeds: bool)

  // ---------------------------------------------------------------------------
  // Node ids

  function ItemId(h: string): string { "i:" + h }
  function FluidId(k: string): string { "f:" + k }
  function MachineId(k: string): string { "m:" + k }

  predicate IsItemId(id: string) { StartsWith(id, "i:") }
  predicate IsFluidId(id: string) { StartsWith(id, "f:") }
  predicate IsMachineId(id: string) { StartsWith(id, "m:") }

  /** The three kinds of node id are told apart by their first character. */
  lemma IdKinds(k: string)
    ensures IsItemId(ItemId(k)) && !IsMachineId(ItemId(k)) && !IsFluidId(ItemId(k))
    ensures IsFluidId(FluidId(k)) && !IsMachineId(FluidId(k)) && !IsItemId(FluidId(k))
    ensures IsMachineId(MachineId(k)) && !IsItemId(MachineId(k)) && !IsFluidId(MachineId(k))
  {
    assert ItemId(k)[..2] == "i:";
    assert FluidId(k)[..2] == "f:";
    assert MachineId(k)[..2] == "m:";
  }

  /** Ids of one kind are told apart by their keys. */
  lemma IdsInjective(a: string, b: string)
    ensures ItemId(a) == ItemId(b) ==> a == b
    ensures FluidId(a) == FluidId(b) ==> a == b
    ensures MachineId(a) == MachineId(b) ==> a == b
  {
    assert ItemId(a)[2..] == a && ItemId(b)[2..] == b;
    assert FluidId(a)[2..] == a && FluidId(b)[2..] == b;
    assert MachineId(a)[2..] == a && MachineId(b)[2..] == b;
  }

  /** `${id}:${unit}` when the unit is non-empty, else the id. */
  function FluidKey(id: string, unit: Option<string>): string {
    if Present(unit) then id + ":" + unit.value else id
  }

  /** `${recipeId}:${itemKeyHash(itemKey)}` */
  function MachineKey(recipeId: string, itemKey: ItemKey): string {
    recipeId + ":" + ItemKeyHash(itemKey)
  }

  /** `${source}->${target}:i:${hash}` or `${source}->${target}:f:${fluidId}:${unit ?? ''}`. */
  function EdgeKey(d: Draft): string {
    match d
    case ItemDraft(source, target, itemKey, _) => source + "->" + target + ":i:" + ItemKeyHash(itemKey)
    case FluidDraft(source, target, fluidId, unit, _) =>
      source + "->" + target + ":f:" + fluidId + ":" + (if unit.Some? then unit.value else "")
  }

  function KeepIfPresent(s: Option<string>): Option<string> {
    if Present(s) then s else None
  }

  /** `finiteOr(x, 0)` of an optional field. */
  function OrZero(x: Option<real>): real {
    if x.Some? then x.value else 0.0
  }

  // ---------------------------------------------------------------------------
  // The walk's helpers

  /** `ensureItem`: registers the item's hash once, marking it as root when it is the root's hash. */
  function EnsureItem(cfg: Config, line: Line, key: ItemKey): (r: Line)
    ensures Has(r.items, ItemKeyHash(key))
    ensures r.fluids == line.fluids && r.machines == line.machines && r.edges == line.edges
  {
    var h := ItemKeyHash(key);
    if Has(line.items, h) then line
    else line.(items := Put(line.items, h, ItemAgg(key, 0.0, cfg.rootKeyHash == Some(h))))
  }

  /** `ensureFluid`: registers the fluid's `id[:unit]` key once. */
  function EnsureFluid(line: Line, id: string, unit: Option<string>): (r: Line)
    ensures Has(r.fluids, FluidKey(id, unit))
    ensures r.items == line.items && r.machines == line.machines && r.edges == line.edges
  {
    var k := FluidKey(id, unit);
    if Has(line.fluids, k) then line
    else line.(fluids := Put(line.fluids, k, FluidAgg(id, KeepIfPresent(unit))))
  }

  /** A tree node that gets a machine: it used a recipe and is not a cycle back-reference. */
  predicate BuildsMachine(n: Node) {
    n.ItemNode? && Present(n.recipeIdUsed) && !n.cycle
  }

  function MachineKeyOf(n: Node): string
    requires BuildsMachine(n)
  {
    MachineKey(n.recipeIdUsed.value, n.itemKey)
  }

  /**
   * `ensureMachine`: registers the (recipe, output) machine once; a later node for the same
   * machine only fills in a machine item, machine name or recipe type still missing.
   */
  function EnsureMachine(line: Line, n: Node): (r: Line)
    requires BuildsMachine(n)
    ensures Has(r.machines, MachineKeyOf(n))
    ensures r.items == line.items && r.fluids == line.fluids && r.edges == line.edges
  {
    var k := MachineKeyOf(n);
    match Get(line.machines, k)
    case None =>
      line.(machines := Put(line.machines, k, MachineAgg(
        n.recipeIdUsed.value, KeepIfPresent(n.recipeTypeKeyUsed), n.itemKey, 0.0,
        KeepIfPresent(n.machineItemId), KeepIfPresent(n.machineName), None, None)))
    case Some(prev) =>
      var filled := prev.(
        machineItemId := if !Present(prev.machineItemId) && Present(n.machineItemId) then n.machineItemId else prev.machineItemId,
        machineName := if !Present(prev.machineName) && Present(n.machineName) then n.machineName else prev.machineName,
        recipeTypeKey := if !Present(prev.recipeTypeKey) && Present(n.recipeTypeKeyUsed) then n.recipeTypeKeyUsed else prev.recipeTypeKey);
      line.(machines := Put(line.machines, k, filled))
  }

  /** Adds `x` to an optional running total when `x` is positive. */
  function AddPositive(total: Option<real>, x: real): Option<real> {
    if x > 0.0 then Some(OrZero(total) + x) else total
  }

  /** `mAgg.amount += amount` followed by `addMachineTotals`. */
  function AddToMachine(line: Line, k: string, n: Node): (r: Line)
    requires n.ItemNode?
    ensures r.items == line.items && r.fluids == line.fluids && r.edges == line.edges
  {
    match Get(line.machines, k)
    case None => line
    case Some(m) =>
      var m1 := m.(
        amount := m.amount + n.amount,
        machineCount := AddPositive(m.machineCount, OrZero(n.extras.machineCount)),
        machines := AddPositive(m.machines, OrZero(n.extras.machines)));
      line.(machines := Put(line.machines, k, m1))
  }

  function WithAmount(d: Draft, amount: real): Draft {
    match d
    case ItemDraft(s, t, key, _) => ItemDraft(s, t, key, amount)
    case FluidDraft(s, t, id, unit, _) => FluidDraft(s, t, id, unit, amount)
  }

  /** `addEdge`: a new key gets an edge `e:<key>`; a known key adds the amount to its edge. */
  function AddEdge(edges: seq<Entry<Edge>>, d: Draft): seq<Entry<Edge>> {
    AddKeyed(edges, EdgeKey(d), d)
  }

  /** `addEdge` once the draft's key `k` is computed. */
  function AddKeyed(edges: seq<Entry<Edge>>, k: string, d: Draft): seq<Entry<Edge>> {
    match Get(edges, k)
    case None => Put(edges, k, Edge("e:" + k, d))
    case Some(prev) => Put(edges, k, Edge(prev.id, WithAmount(prev.draft, prev.draft.amount + d.amount)))
  }

  /** The amount an item child asks of its parent's machine. */
  function ChildAmount(c: Node): real
    requires c.ItemNode?
  {
    var needed := OrZero(c.extras.cycleAmountNeeded);
    if c.cycleSeed && needed > 0.0 then needed else c.amount
  }

  /** The input edge from one child of a machine's node into the machine. */
  function ChildDraft(c: Node, machineId: string): Draft {
    match c
    case ItemNode(_, itemKey, _, _, _, _, _, _, _, _, _, _) =>
      ItemDraft(ItemId(ItemKeyHash(itemKey)), machineId, itemKey, ChildAmount(c))
    case FluidNode(_, id, amount, unit) =>
      FluidDraft(FluidId(FluidKey(id, unit)), machineId, id, KeepIfPresent(unit), amount)
  }

  /** The loop over a machine node's children: each child is registered and feeds the machine. */
  function ChildEdges(cfg: Config, cs: seq<Node>, machineId: string, line: Line): (r: Line)
    ensures r.machines == line.machines
    decreases |cs|
  {
    if |cs| == 0 then line
    else
      var c := cs[0];
      var line1 := if c.ItemNode? then EnsureItem(cfg, line, c.itemKey) else EnsureFluid(line, c.id, c.unit);
      var line2 := line1.(edges := AddEdge(line1.edges, ChildDraft(c, machineId)));
      ChildEdges(cfg, cs[1..], machineId, line2)
  }

  /** The seed amount an item node adds to its item, when cycle seeds are counted. */
  function SeedAdded(cfg: Config, n: Node): real
    requires n.ItemNode?
  {
    var seed := OrZero(n.extras.cycleSeedAmount);
    if cfg.includeCycleSeeds && n.cycleSeed && seed > 0.0 then seed else 0.0
  }

  function AddSeed(line: Line, h: string, seed: real): (r: Line)
    ensures r.fluids == line.fluids && r.machines == line.machines && r.edges == line.edges
  {
    match Get(line.items, h)
    case None => line
    case Some(agg) => if seed == 0.0 then line else line.(items := Put(line.items, h, agg.(seedAmount := agg.seedAmount + seed)))
  }

  /** The edge from a node's machine to the node's item. */
  function OutputDraft(n: Node): Draft
    requires BuildsMachine(n)
  {
    ItemDraft(MachineId(MachineKeyOf(n)), ItemId(ItemKeyHash(n.itemKey)), n.itemKey, n.amount)
  }

  /** The machine part of `walk` for a node that builds one: output edge, then one input edge per child. */
  function MachineStep(cfg: Config, n: Node, line: Line): Line
    requires BuildsMachine(n)
  {
    var k := MachineKeyOf(n);
    var line1 := AddToMachine(EnsureMachine(line, n), k, n);
    var line2 := line1.(edges := AddEdge(line1.edges, OutputDraft(n)));
    ChildEdges(cfg, n.children, MachineId(k), line2)
  }

  /** What `walk` does at one node before it walks the node's children. */
  function Visit(cfg: Config, n: Node, line: Line): Line {
    match n
    case FluidNode(_, id, _, unit) => EnsureFluid(line, id, unit)
    case ItemNode(_, itemKey, _, _, _, _, _, _, _, _, _, _) =>
      var line1 := EnsureItem(cfg, line, itemKey);
      var line2 := AddSeed(line1, ItemKeyHash(itemKey), SeedAdded(cfg, n));
      if BuildsMachine(n) then MachineStep(cfg, n, line2) else line2
  }

  /** `walk(node)`: visits the node, then walks its children in order. */
  function Walk(cfg: Config, n: Node, line: Line): Line
    decreases n, 1
  {
    match n
    case FluidNode(_, _, _, _) => Visit(cfg, n, line)
    case ItemNode(_, _, _, _, _, _, _, children, _, _, _, _) => WalkChildren(cfg, children, Visit(cfg, n, line))
  }

  function WalkChildren(cfg: Config, cs: seq<Node>, line: Line): Line
    decreases cs, 0
  {
    if |cs| == 0 then line else WalkChildren(cfg, cs[1..], Walk(cfg, cs[0], line))
  }

  // ---------------------------------------------------------------------------
  // Node amounts and the node list

  /** What one edge adds to a node's amount before the collapse pass. */
  function Credit(d: Draft, id: string): real {
    if d.ItemDraft? then
      if IsMachineId(d.source) then (if d.target == id then d.amount else 0.0)
      else if IsMachineId(d.target) then (if d.source == id then d.amount else 0.0)
      else 0.0
    else if d.source == id then d.amount else 0.0
  }

  /** What one edge adds to a node's amount after the collapse pass. */
  function FinalCredit(d: Draft, id: string): real {
    if d.ItemDraft? then
      if IsMachineId(d.source) && IsItemId(d.target) then (if d.target == id then d.amount else 0.0)
      else if IsItemId(d.source) && IsMachineId(d.target) then (if d.source == id then d.amount else 0.0)
      else 0.0
    else if d.source == id then d.amount else 0.0
  }

  /** The endpoint an edge's amount is credited to, if any. */
  function CreditedId(d: Draft, final: bool): Option<string> {
    if d.ItemDraft? then
      if final then
        if IsMachineId(d.source) && IsItemId(d.target) then Some(d.target)
        else if IsItemId(d.source) && IsMachineId(d.target) then Some(d.source)
        else None
      else if IsMachineId(d.source) then Some(d.target)
      else if IsMachineId(d.target) then Some(d.source)
      else None
    else Some(d.source)
  }

  /** `amountByNodeId`: the edges' amounts added up per credited node, in edge order. */
  function NodeAmounts(edges: seq<Edge>, final: bool, acc: map<string, real>): map<string, real>
    decreases |edges|
  {
    if |edges| == 0 then acc
    else
      var d := edges[0].draft;
      var acc1 := match CreditedId(d, final)
        case None => acc
        case Some(id) => acc[id := AmountAt(acc, id) + d.amount];
      NodeAmounts(edges[1..], final, acc1)
  }

  /** `amountByNodeId.get(id) ?? 0` */
  function AmountAt(amounts: map<string, real>, id: string): real {
    if id in amounts then amounts[id] else 0.0
  }

  function ItemNodes(items: seq<Entry<ItemAgg>>, amounts: map<string, real>): (r: seq<LineNode>)
    ensures |r| == |items|
    ensures forall i :: 0 <= i < |items| ==>
              r[i] == LineItem(ItemId(items[i].k), items[i].v.itemKey, AmountAt(amounts, ItemId(items[i].k)),
                               if items[i].v.seedAmount > 0.0 then Some(items[i].v.seedAmount) else None, items[i].v.isRoot)
  {
    if |items| == 0 then []
    else
      var e := items[0];
      var id := ItemId(e.k);
      [LineItem(id, e.v.itemKey, AmountAt(amounts, id), if e.v.seedAmount > 0.0 then Some(e.v.seedAmount) else None, e.v.isRoot)]
        + ItemNodes(items[1..], amounts)
  }

  function FluidNodes(fluids: seq<Entry<FluidAgg>>, amounts: map<string, real>): (r: seq<LineNode>)
    ensures |r| == |fluids|
    ensures forall i :: 0 <= i < |fluids| ==>
              r[i] == LineFluid(FluidId(fluids[i].k), fluids[i].v.id, KeepIfPresent(fluids[i].v.unit), AmountAt(amounts, FluidId(fluids[i].k)))
  {
    if |fluids| == 0 then []
    else
      var e := fluids[0];
      var id := FluidId(e.k);
      [LineFluid(id, e.v.id, KeepIfPresent(e.v.unit), AmountAt(amounts, id))] + FluidNodes(fluids[1..], amounts)
  }

  function MachineNodes(machines: seq<Entry<MachineAgg>>): (r: seq<LineNode>)
    ensures |r| == |machines|
    ensures forall i :: 0 <= i < |machines| ==>
              r[i].LineMachine? && r[i].nodeId == MachineId(machines[i].k) && r[i].amount == machines[i].v.amount
  {
    if |machines| == 0 then []
    else
      var e := machines[0];
      var m := e.v;
      [LineMachine(MachineId(e.k), m.recipeId, KeepIfPresent(m.recipeTypeKey), m.outputItemKey, m.amount,
                   KeepIfPresent(m.machineItemId), KeepIfPresent(m.machineName), m.machineCount, m.machines)]
        + MachineNodes(machines[1..])
  }

  /** Items, then fluids, then machines, each in the order first met. */
  function LineNodes(line: Line, amounts: map<string, real>): seq<LineNode> {
    ItemNodes(line.items, amounts) + FluidNodes(line.fluids, amounts) + MachineNodes(line.machines)
  }

  // ---------------------------------------------------------------------------
  // The collapse pass

  predicate IsItemEdge(e: Edge) { e.draft.ItemDraft? }

  /** Machine-to-item edges into the item node `id`. */
  function Incoming(edges: seq<Edge>, id: string): (r: seq<Edge>)
    ensures forall i :: 0 <= i < |r| ==> r[i] in edges && IsItemEdge(r[i]) && r[i].draft.target == id && IsMachineId(r[i].draft.source)
    ensures forall e :: e in edges && IsItemEdge(e) && IsItemId(e.draft.target) && e.draft.target == id && IsMachineId(e.draft.source) ==> e in r
  {
    if |edges| == 0 then []
    else
      var e := edges[0];
      (if IsItemEdge(e) && IsItemId(e.draft.target) && e.draft.target == id && IsMachineId(e.draft.source) then [e] else [])
        + Incoming(edges[1..], id)
  }

  /** Item-to-machine edges out of the item node `id`. */
  function Outgoing(edges: seq<Edge>, id: string): (r: seq<Edge>)
    ensures forall i :: 0 <= i < |r| ==> r[i] in edges && IsItemEdge(r[i]) && r[i].draft.source == id && IsMachineId(r[i].draft.target)
    ensures forall e :: e in edges && IsItemEdge(e) && IsItemId(e.draft.source) && e.draft.source == id && IsMachineId(e.draft.target) ==> e in r
  {
    if |edges| == 0 then []
    else
      var e := edges[0];
      (if IsItemEdge(e) && IsItemId(e.draft.source) && e.draft.source == id && IsMachineId(e.draft.target) then [e] else [])
        + Outgoing(edges[1..], id)
  }

  /** The first position of a largest amount. */
  function FirstMax(es: seq<Edge>): (r: nat)
    requires |es| > 0
    ensures r < |es|
    ensures forall i :: 0 <= i < |es| ==> es[i].draft.amount <= es[r].draft.amount
    ensures forall i :: 0 <= i < r ==> es[i].draft.amount < es[r].draft.amount
  {
    if |es| == 1 then 0
    else
      var j := FirstMax(es[1..]) + 1;
      if es[0].draft.amount >= es[j].draft.amount then 0 else j
  }

  /**
   * The first element of `incoming.slice().sort((a, b) => b.amount - a.amount)`: the sort is
   * stable, so this is the first incoming edge of largest amount.
   */
  function Producer(edges: seq<Edge>, id: string): (r: Edge)
    requires |Incoming(edges, id)| > 0
    ensures r in edges && IsItemEdge(r) && r.draft.target == id && IsMachineId(r.draft.source)
    ensures forall e :: e in Incoming(edges, id) ==> e.draft.amount <= r.draft.amount
  {
    var incoming := Incoming(edges, id);
    incoming[FirstMax(incoming)]
  }

  /** An item node stays when it is the root, holds a cycle seed, or lacks a producer or a consumer. */
  predicate Keep(n: LineNode, edges: seq<Edge>)
    requires n.LineItem?
  {
    n.isRoot || OrZero(n.seedAmount) > 0.0 || |Incoming(edges, n.nodeId)| == 0 || |Outgoing(edges, n.nodeId)| == 0
  }

  /** What the scan over item nodes collects: edge ids and node ids to drop, and edges to add. */
  datatype Removal = Removal(edgeIds: set<string>, nodeIds: set<string>, added: seq<Draft>)

  function EdgeIds(es: seq<Edge>): (r: set<string>)
    ensures forall i :: 0 <= i < |es| ==> es[i].id in r
    ensures forall x :: x in r ==> exists i :: 0 <= i < |es| && es[i].id == x
  {
    set i | 0 <= i < |es| :: es[i].id
  }

  /** Each consumer edge re-sourced at the producer's machine, same item and amount. */
  function Rewired(producer: Edge, outgoing: seq<Edge>): (r: seq<Draft>)
    requires forall i :: 0 <= i < |outgoing| ==> outgoing[i].draft.ItemDraft?
    ensures |r| == |outgoing|
    ensures forall i :: 0 <= i < |outgoing| ==> r[i] == ItemDraft(producer.draft.source, outgoing[i].draft.target, outgoing[i].draft.itemKey, outgoing[i].draft.amount)
  {
    if |outgoing| == 0 then []
    else
      [ItemDraft(producer.draft.source, outgoing[0].draft.target, outgoing[0].draft.itemKey, outgoing[0].draft.amount)]
        + Rewired(producer, outgoing[1..])
  }

  /** One item node of the scan. */
  function ScanNode(n: LineNode, edges: seq<Edge>, acc: Removal): Removal
    requires n.LineItem?
  {
    if Keep(n, edges) then acc
    else
      var incoming := Incoming(edges, n.nodeId);
      var outgoing := Outgoing(edges, n.nodeId);
      Removal(
        acc.edgeIds + EdgeIds(incoming) + EdgeIds(outgoing),
        acc.nodeIds + {n.nodeId},
        acc.added + Rewired(Producer(edges, n.nodeId), outgoing))
  }

  /** The scan over the item nodes, in node order. */
  function Scan(nodes: seq<LineNode>, edges: seq<Edge>, acc: Removal): Removal
    decreases |nodes|
  {
    if |nodes| == 0 then acc
    else
      var acc1 := if nodes[0].LineItem? then ScanNode(nodes[0], edges, acc) else acc;
      Scan(nodes[1..], edges, acc1)
  }

  /** An edge that survives the removal: its id is not dropped and neither endpoint is. */
  predicate Survives(e: Edge, rm: Removal) {
    e.id !in rm.edgeIds && e.draft.source !in rm.nodeIds && e.draft.target !in rm.nodeIds
  }

  /** The draft `addMerged` is given for a surviving edge. */
  function Redraft(e: Edge): Draft {
    match e.draft
    case ItemDraft(s, t, key, amount) => ItemDraft(s, t, key, amount)
    case FluidDraft(s, t, id, unit, amount) => FluidDraft(s, t, id, KeepIfPresent(unit), amount)
  }

  function Surviving(edges: seq<Edge>, rm: Removal): (r: seq<Draft>)
    ensures |r| <= |edges|
  {
    if |edges| == 0 then []
    else (if Survives(edges[0], rm) then [Redraft(edges[0])] else []) + Surviving(edges[1..], rm)
  }

  /** `addMerged` over a list of drafts. */
  function MergeAll(m: seq<Entry<Edge>>, ds: seq<Draft>): seq<Entry<Edge>>
    decreases |ds|
  {
    if |ds| == 0 then m else MergeAll(AddEdge(m, ds[0]), ds[1..])
  }

  function NotRemoved(nodes: seq<LineNode>, removed: set<string>): (r: seq<LineNode>)
    ensures forall i :: 0 <= i < |r| ==> r[i] in nodes && r[i].nodeId !in removed
    ensures forall n :: n in nodes && n.nodeId !in removed ==> n in r
  {
    if |nodes| == 0 then []
    else (if nodes[0].nodeId !in removed then [nodes[0]] else []) + NotRemoved(nodes[1..], removed)
  }

  /** Item and fluid nodes take their amounts from the final edges; machines keep theirs. */
  function Reamount(nodes: seq<LineNode>, amounts: map<string, real>): (r: seq<LineNode>)
    ensures |r| == |nodes|
    ensures forall i :: 0 <= i < |nodes| ==> r[i].nodeId == nodes[i].nodeId
    ensures forall i :: 0 <= i < |nodes| ==> (nodes[i].LineMachine? ==> r[i] == nodes[i])
    ensures forall i :: 0 <= i < |nodes| && nodes[i].LineItem? ==>
              r[i] == LineItem(nodes[i].nodeId, nodes[i].itemKey, AmountAt(amounts, nodes[i].nodeId), nodes[i].seedAmount, nodes[i].isRoot)
    ensures forall i :: 0 <= i < |nodes| && nodes[i].LineFluid? ==>
              r[i] == LineFluid(nodes[i].nodeId, nodes[i].id, nodes[i].unit, AmountAt(amounts, nodes[i].nodeId))
  {
    if |nodes| == 0 then []
    else
      var n := nodes[0];
      var n1 := match n
        case LineItem(id, key, _, seed, isRoot) => LineItem(id, key, AmountAt(amounts, id), seed, isRoot)
        case LineFluid(id, fluidId, unit, _) => LineFluid(id, fluidId, unit, AmountAt(amounts, id))
        case LineMachine(_, _, _, _, _, _, _, _, _) => n;
      [n1] + Reamount(nodes[1..], amounts)
  }

  /** The collapse pass over the node list and edge list the walk produced. */
  function Collapse(nodes: seq<LineNode>, edges: seq<Edge>): (seq<LineNode>, seq<Edge>) {
    var rm := Scan(nodes, edges, Removal({}, {}, []));
    var merged := Values(MergeAll(MergeAll([], Surviving(edges, rm)), rm.added));
    var kept := NotRemoved(nodes, rm.nodeIds);
    (Reamount(kept, NodeAmounts(merged, true, map[])), merged)
  }

  // ---------------------------------------------------------------------------
  // The model

  /** `buildProductionLineModel` */
  function BuildProductionLineModel(root: Node, rootItemKey: Option<ItemKey>, includeCycleSeeds: bool, collapseIntermediateItems: bool)
    : (seq<LineNode>, seq<Edge>)
  {
    var rootKey := if rootItemKey.Some? then rootItemKey else if root.ItemNode? then Some(root.itemKey) else None;
    var cfg := Config(if rootKey.Some? then Some(ItemKeyHash(rootKey.value)) else None, includeCycleSeeds);
    var line := Walk(cfg, root, EmptyLine);
    var edges := Values(line.edges);
    var nodes := LineNodes(line, NodeAmounts(edges, false, map[]));
    if collapseIntermediateItems then Collapse(nodes, edges) else (nodes, edges)
  }
}
