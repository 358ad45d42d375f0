// The walk over the requirement tree, seen as one visit per node in preorder: what each
// visit adds to the four maps, and what the whole walk leaves in them.
module LineWalk {
  import opened Wrappers
  import opened Strings
  import opened PackTypes
  import opened Key
  import opened OrderedMaps
  import opened Planner
  import opened ProductionLine
  import opened LineEdges

  // ---------------------------------------------------------------------------
  // The walk is a fold over the preorder

  /** The nodes of a tree in the order `walk` visits them. */
  function Preorder(n: Node): (r: seq<Node>)
    ensures |r| > 0 && r[0] == n
    decreases n, 1
  {
    match n
    case FluidNode(_, _, _, _) => [n]
    case ItemNode(_, _, _, _, _, _, _, children, _, _, _, _) => [n] + PreorderForest(children)
  }

  function PreorderForest(cs: seq<Node>): seq<Node>
    decreases cs, 0
  {
    if |cs| == 0 then [] else Preorder(cs[0]) + PreorderForest(cs[1..])
  }

  /** Visiting a list of nodes one after another. */
  function VisitAll(cfg: Config, ns: seq<Node>, line: Line): Line
    decreases |ns|
  {
    if |ns| == 0 then line else VisitAll(cfg, ns[1..], Visit(cfg, ns[0], line))
  }

  lemma {:induction false} VisitAllAppend(cfg: Config, a: seq<Node>, b: seq<Node>, line: Line)
    ensures VisitAll(cfg, a + b, line) == VisitAll(cfg, b, VisitAll(cfg, a, line))
    decreases |a|
  {
    if |a| > 0 {
      assert (a + b)[0] == a[0] && (a + b)[1..] == a[1..] + b;
      VisitAllAppend(cfg, a[1..], b, Visit(cfg, a[0], line));
    } else {
      assert a + b == b;
    }
  }

  /** `walk(node)` visits exactly the tree's nodes, parents before children, children in order. */
  lemma {:induction false} WalkVisitsPreorder(cfg: Config, n: Node, line: Line)
    ensures Walk(cfg, n, line) == VisitAll(cfg, Preorder(n), line)
    decreases n, 1
  {
    match n
    case FluidNode(_, _, _, _) =>
      assert Preorder(n)[1..] == [];
    case ItemNode(_, _, _, _, _, _, _, children, _, _, _, _) =>
      WalkChildrenVisitsPreorder(cfg, children, Visit(cfg, n, line));
      assert Preorder(n)[1..] == PreorderForest(children);
  }

  lemma {:induction false} WalkChildrenVisitsPreorder(cfg: Config, cs: seq<Node>, line: Line)
    ensures WalkChildren(cfg, cs, line) == VisitAll(cfg, PreorderForest(cs), line)
    decreases cs, 0
  {
    if |cs| > 0 {
      WalkVisitsPreorder(cfg, cs[0], line);
      WalkChildrenVisitsPreorder(cfg, cs[1..], Walk(cfg, cs[0], line));
      VisitAllAppend(cfg, Preorder(cs[0]), PreorderForest(cs[1..]), line);
    }
  }

  // ---------------------------------------------------------------------------
  // Edges

  function ChildDrafts(cs: seq<Node>, machineId: string): seq<Draft> {
    if |cs| == 0 then [] else [ChildDraft(cs[0], machineId)] + ChildDrafts(cs[1..], machineId)
  }

  /** The edges one visit adds: the machine's output edge, then one input edge per child. */
  function VisitDrafts(n: Node): seq<Draft> {
    if BuildsMachine(n) then [OutputDraft(n)] + ChildDrafts(n.children, MachineId(MachineKeyOf(n))) else []
  }

  function AllDrafts(ns: seq<Node>): seq<Draft> {
    if |ns| == 0 then [] else VisitDrafts(ns[0]) + AllDrafts(ns[1..])
  }

  lemma {:induction false} ChildEdgesEdges(cfg: Config, cs: seq<Node>, machineId: string, line: Line)
    ensures ChildEdges(cfg, cs, machineId, line).edges == MergeAll(line.edges, ChildDrafts(cs, machineId))
    decreases |cs|
  {
    if |cs| > 0 {
      var c := cs[0];
      var line1 := if c.ItemNode? then EnsureItem(cfg, line, c.itemKey) else EnsureFluid(line, c.id, c.unit);
      var line2 := line1.(edges := AddEdge(line1.edges, ChildDraft(c, machineId)));
      ChildEdgesEdges(cfg, cs[1..], machineId, line2);
      assert ChildDrafts(cs, machineId)[1..] == ChildDrafts(cs[1..], machineId);
    }
  }

  lemma VisitEdges(cfg: Config, n: Node, line: Line)
    ensures Visit(cfg, n, line).edges == MergeAll(line.edges, VisitDrafts(n))
  {
    if BuildsMachine(n) {
      var k := MachineKeyOf(n);
      var line2 := AddSeed(EnsureItem(cfg, line, n.itemKey), ItemKeyHash(n.itemKey), SeedAdded(cfg, n));
      var line1 := AddToMachine(EnsureMachine(line2, n), k, n);
      var line3 := line1.(edges := AddEdge(line1.edges, OutputDraft(n)));
      ChildEdgesEdges(cfg, n.children, MachineId(k), line3);
      assert VisitDrafts(n)[1..] == ChildDrafts(n.children, MachineId(k));
    }
  }

  /** The walk's edges are the visits' drafts merged by key, in visiting order. */
  lemma {:induction false} VisitAllEdges(cfg: Config, ns: seq<Node>, line: Line)
    ensures VisitAll(cfg, ns, line).edges == MergeAll(line.edges, AllDrafts(ns))
    decreases |ns|
  {
    if |ns| > 0 {
      VisitEdges(cfg, ns[0], line);
      VisitAllEdges(cfg, ns[1..], Visit(cfg, ns[0], line));
      MergeAllAppend(line.edges, VisitDrafts(ns[0]), AllDrafts(ns[1..]));
    }
  }

  // ---------------------------------------------------------------------------
  // Machines

  /** The amount of machine `k`, 0 when there is none. */
  function MachineAmount(m: seq<Entry<MachineAgg>>, k: string): real {
    match Get(m, k)
    case None => 0.0
    case Some(a) => a.amount
  }

  /** The machine keys of the nodes that build a machine. */
  function MachineKeysOf(ns: seq<Node>): set<string> {
    if |ns| == 0 then {}
    else (if BuildsMachine(ns[0]) then {MachineKeyOf(ns[0])} else {}) + MachineKeysOf(ns[1..])
  }

  /** The total amount of the nodes that build machine `k`. */
  function MachineTotal(ns: seq<Node>, k: string): real {
    if |ns| == 0 then 0.0
    else (if BuildsMachine(ns[0]) && MachineKeyOf(ns[0]) == k then ns[0].amount else 0.0) + MachineTotal(ns[1..], k)
  }

  lemma EnsureMachineMachines(line: Line, n: Node, k: string)
    requires BuildsMachine(n)
    ensures Has(EnsureMachine(line, n).machines, k) <==> Has(line.machines, k) || k == MachineKeyOf(n)
    ensures MachineAmount(EnsureMachine(line, n).machines, k) == MachineAmount(line.machines, k)
    ensures DistinctKeys(line.machines) ==> DistinctKeys(EnsureMachine(line, n).machines)
  {
    var key := MachineKeyOf(n);
    var r := EnsureMachine(line, n);
    match Get(line.machines, key)
    case None =>
      var v := MachineAgg(
        n.recipeIdUsed.value, KeepIfPresent(n.recipeTypeKeyUsed), n.itemKey, 0.0,
        KeepIfPresent(n.machineItemId), KeepIfPresent(n.machineName), None, None);
      assert r.machines == Put(line.machines, key, v);
      PutGet(line.machines, key, v, k);
      if DistinctKeys(line.machines) {
        PutDistinct(line.machines, key, v);
      }
    case Some(prev) =>
      var v := r.machines[Find(r.machines, key).value].v;
      assert v.amount == prev.amount;
      assert r.machines == Put(line.machines, key, v);
      PutGet(line.machines, key, v, k);
      if DistinctKeys(line.machines) {
        PutDistinct(line.machines, key, v);
      }
  }

  lemma AddToMachineMachines(line: Line, key: string, n: Node, k: string)
    requires n.ItemNode? && Has(line.machines, key)
    ensures Has(AddToMachine(line, key, n).machines, k) <==> Has(line.machines, k)
    ensures MachineAmount(AddToMachine(line, key, n).machines, k) == MachineAmount(line.machines, k) + (if k == key then n.amount else 0.0)
    ensures DistinctKeys(line.machines) ==> DistinctKeys(AddToMachine(line, key, n).machines)
  {
    var m := Get(line.machines, key).value;
    var m1 := m.(
      amount := m.amount + n.amount,
      machineCount := AddPositive(m.machineCount, OrZero(n.extras.machineCount)),
      machines := AddPositive(m.machines, OrZero(n.extras.machines)));
    assert AddToMachine(line, key, n).machines == Put(line.machines, key, m1);
    PutGet(line.machines, key, m1, k);
    if DistinctKeys(line.machines) {
      PutDistinct(line.machines, key, m1);
    }
  }

  lemma VisitMachines(cfg: Config, n: Node, line: Line, k: string)
    ensures Has(Visit(cfg, n, line).machines, k) <==> Has(line.machines, k) || (BuildsMachine(n) && MachineKeyOf(n) == k)
    ensures MachineAmount(Visit(cfg, n, line).machines, k)
         == MachineAmount(line.machines, k) + (if BuildsMachine(n) && MachineKeyOf(n) == k then n.amount else 0.0)
    ensures DistinctKeys(line.machines) ==> DistinctKeys(Visit(cfg, n, line).machines)
  {
    if BuildsMachine(n) {
      var key := MachineKeyOf(n);
      var line2 := AddSeed(EnsureItem(cfg, line, n.itemKey), ItemKeyHash(n.itemKey), SeedAdded(cfg, n));
      var line0 := EnsureMachine(line2, n);
      EnsureMachineMachines(line2, n, k);
      AddToMachineMachines(line0, key, n, k);
    }
  }

  /** The walk registers the machine of every node that builds one, once. */
  lemma {:induction false} VisitAllMachineKeys(cfg: Config, ns: seq<Node>, line: Line, k: string)
    ensures Has(VisitAll(cfg, ns, line).machines, k) <==> Has(line.machines, k) || k in MachineKeysOf(ns)
    ensures DistinctKeys(line.machines) ==> DistinctKeys(VisitAll(cfg, ns, line).machines)
    decreases |ns|
  {
    if |ns| > 0 {
      VisitMachines(cfg, ns[0], line, k);
      VisitAllMachineKeys(cfg, ns[1..], Visit(cfg, ns[0], line), k);
    }
  }

  /** A machine's amount is the total amount of the nodes that build it. */
  lemma {:induction false} VisitAllMachineAmounts(cfg: Config, ns: seq<Node>, line: Line, k: string)
    ensures MachineAmount(VisitAll(cfg, ns, line).machines, k) == MachineAmount(line.machines, k) + MachineTotal(ns, k)
    decreases |ns|
  {
    if |ns| > 0 {
      VisitMachines(cfg, ns[0], line, k);
      VisitAllMachineAmounts(cfg, ns[1..], Visit(cfg, ns[0], line), k);
    }
  }

  // ---------------------------------------------------------------------------
  // Items

  /** The seed amount recorded for item `h`, 0 when there is none. */
  function ItemSeed(m: seq<Entry<ItemAgg>>, h: string): real {
    match Get(m, h)
    case None => 0.0
    case Some(a) => a.seedAmount
  }

  /** Each item is filed under its own hash, no hash repeats, and exactly the root's hash is marked root. */
  predicate ItemsTagged(cfg: Config, items: seq<Entry<ItemAgg>>) {
    DistinctKeys(items)
    && forall i :: 0 <= i < |items| ==>
         items[i].k == ItemKeyHash(items[i].v.itemKey) && (items[i].v.isRoot <==> cfg.rootKeyHash == Some(items[i].k))
  }

  function ChildItemHashes(cs: seq<Node>): set<string> {
    if |cs| == 0 then {}
    else (if cs[0].ItemNode? then {ItemKeyHash(cs[0].itemKey)} else {}) + ChildItemHashes(cs[1..])
  }

  /** The items one visit registers: the node's own item and, when it builds a machine, its item inputs. */
  function VisitItemHashes(n: Node): set<string> {
    if n.FluidNode? then {}
    else {ItemKeyHash(n.itemKey)} + (if BuildsMachine(n) then ChildItemHashes(n.children) else {})
  }

  function ItemHashesOf(ns: seq<Node>): set<string> {
    if |ns| == 0 then {} else VisitItemHashes(ns[0]) + ItemHashesOf(ns[1..])
  }

  /** The seed amounts the nodes for item `h` contribute. */
  function SeedTotal(cfg: Config, ns: seq<Node>, h: string): real {
    if |ns| == 0 then 0.0
    else (if ns[0].ItemNode? && ItemKeyHash(ns[0].itemKey) == h then SeedAdded(cfg, ns[0]) else 0.0) + SeedTotal(cfg, ns[1..], h)
  }

  lemma EnsureItemItems(cfg: Config, line: Line, key: ItemKey, h: string)
    ensures Has(EnsureItem(cfg, line, key).items, h) <==> Has(line.items, h) || h == ItemKeyHash(key)
    ensures ItemSeed(EnsureItem(cfg, line, key).items, h) == ItemSeed(line.items, h)
    ensures ItemsTagged(cfg, line.items) ==> ItemsTagged(cfg, EnsureItem(cfg, line, key).items)
  {
    var k := ItemKeyHash(key);
    if !Has(line.items, k) {
      var v := ItemAgg(key, 0.0, cfg.rootKeyHash == Some(k));
      PutGet(line.items, k, v, h);
      if ItemsTagged(cfg, line.items) {
        PutDistinct(line.items, k, v);
      }
    }
  }

  lemma AddSeedItems(cfg: Config, line: Line, k: string, seed: real, h: string)
    requires Has(line.items, k)
    ensures Has(AddSeed(line, k, seed).items, h) <==> Has(line.items, h)
    ensures ItemSeed(AddSeed(line, k, seed).items, h) == ItemSeed(line.items, h) + (if h == k then seed else 0.0)
    ensures ItemsTagged(cfg, line.items) ==> ItemsTagged(cfg, AddSeed(line, k, seed).items)
  {
    var agg := Get(line.items, k).value;
    if seed != 0.0 {
      var v := ItemAgg(agg.itemKey, agg.seedAmount + seed, agg.isRoot);
      assert AddSeed(line, k, seed).items == Put(line.items, k, v);
      PutGet(line.items, k, v, h);
      if ItemsTagged(cfg, line.items) {
        PutTagged(cfg, line.items, k, v);
      }
    }
  }

  /** Replacing an item's entry by one with the same item and root mark keeps the items tagged. */
  lemma PutTagged(cfg: Config, items: seq<Entry<ItemAgg>>, k: string, v: ItemAgg)
    requires ItemsTagged(cfg, items) && Has(items, k)
    requires v.itemKey == Get(items, k).value.itemKey && v.isRoot == Get(items, k).value.isRoot
    ensures ItemsTagged(cfg, Put(items, k, v))
  {
    PutDistinct(items, k, v);
    var j := Find(items, k).value;
    assert Get(items, k).value == items[j].v;
  }

  lemma {:induction false} ChildEdgesItems(cfg: Config, cs: seq<Node>, machineId: string, line: Line, h: string)
    ensures Has(ChildEdges(cfg, cs, machineId, line).items, h) <==> Has(line.items, h) || h in ChildItemHashes(cs)
    ensures ItemSeed(ChildEdges(cfg, cs, machineId, line).items, h) == ItemSeed(line.items, h)
    ensures ItemsTagged(cfg, line.items) ==> ItemsTagged(cfg, ChildEdges(cfg, cs, machineId, line).items)
    decreases |cs|
  {
    if |cs| > 0 {
      var c := cs[0];
      var line1 := if c.ItemNode? then EnsureItem(cfg, line, c.itemKey) else EnsureFluid(line, c.id, c.unit);
      var line2 := line1.(edges := AddEdge(line1.edges, ChildDraft(c, machineId)));
      if c.ItemNode? {
        EnsureItemItems(cfg, line, c.itemKey, h);
      }
      ChildEdgesItems(cfg, cs[1..], machineId, line2, h);
    }
  }

  lemma VisitItemKeys(cfg: Config, n: Node, line: Line, h: string)
    ensures Has(Visit(cfg, n, line).items, h) <==> Has(line.items, h) || h in VisitItemHashes(n)
    ensures ItemsTagged(cfg, line.items) ==> ItemsTagged(cfg, Visit(cfg, n, line).items)
  {
    if n.ItemNode? {
      var k := ItemKeyHash(n.itemKey);
      var line1 := EnsureItem(cfg, line, n.itemKey);
      var line2 := AddSeed(line1, k, SeedAdded(cfg, n));
      EnsureItemItems(cfg, line, n.itemKey, h);
      AddSeedItems(cfg, line1, k, SeedAdded(cfg, n), h);
      assert Visit(cfg, n, line) == if BuildsMachine(n) then MachineStep(cfg, n, line2) else line2;
      if BuildsMachine(n) {
        MachineStepItems(cfg, n, line2, h);
      }
    }
  }

  lemma VisitItemSeeds(cfg: Config, n: Node, line: Line, h: string)
    ensures ItemSeed(Visit(cfg, n, line).items, h)
         == ItemSeed(line.items, h) + (if n.ItemNode? && ItemKeyHash(n.itemKey) == h then SeedAdded(cfg, n) else 0.0)
  {
    if n.ItemNode? {
      var k := ItemKeyHash(n.itemKey);
      var line1 := EnsureItem(cfg, line, n.itemKey);
      var line2 := AddSeed(line1, k, SeedAdded(cfg, n));
      EnsureItemItems(cfg, line, n.itemKey, h);
      AddSeedItems(cfg, line1, k, SeedAdded(cfg, n), h);
      assert Visit(cfg, n, line) == if BuildsMachine(n) then MachineStep(cfg, n, line2) else line2;
      if BuildsMachine(n) {
        MachineStepItems(cfg, n, line2, h);
      }
    }
  }

  lemma MachineStepItems(cfg: Config, n: Node, line: Line, h: string)
    requires BuildsMachine(n)
    ensures Has(MachineStep(cfg, n, line).items, h) <==> Has(line.items, h) || h in ChildItemHashes(n.children)
    ensures ItemSeed(MachineStep(cfg, n, line).items, h) == ItemSeed(line.items, h)
    ensures ItemsTagged(cfg, line.items) ==> ItemsTagged(cfg, MachineStep(cfg, n, line).items)
  {
    var key := MachineKeyOf(n);
    var line1 := AddToMachine(EnsureMachine(line, n), key, n);
    var line2 := line1.(edges := AddEdge(line1.edges, OutputDraft(n)));
    ChildEdgesItems(cfg, n.children, MachineId(key), line2, h);
  }

  /** The walk registers every item it meets once, filed under its hash and marked root exactly when it is the root. */
  lemma {:induction false} VisitAllItemKeys(cfg: Config, ns: seq<Node>, line: Line, h: string)
    ensures Has(VisitAll(cfg, ns, line).items, h) <==> Has(line.items, h) || h in ItemHashesOf(ns)
    ensures ItemsTagged(cfg, line.items) ==> ItemsTagged(cfg, VisitAll(cfg, ns, line).items)
    decreases |ns|
  {
    if |ns| > 0 {
      VisitItemKeys(cfg, ns[0], line, h);
      VisitAllItemKeys(cfg, ns[1..], Visit(cfg, ns[0], line), h);
    }
  }

  /** An item's seed amount is the total the item's nodes contribute. */
  lemma {:induction false} VisitAllItemSeeds(cfg: Config, ns: seq<Node>, line: Line, h: string)
    ensures ItemSeed(VisitAll(cfg, ns, line).items, h) == ItemSeed(line.items, h) + SeedTotal(cfg, ns, h)
    decreases |ns|
  {
    if |ns| > 0 {
      VisitItemSeeds(cfg, ns[0], line, h);
      VisitAllItemSeeds(cfg, ns[1..], Visit(cfg, ns[0], line), h);
    }
  }

  // ---------------------------------------------------------------------------
  // Fluids

  function ChildFluidKeys(cs: seq<Node>): set<string> {
    if |cs| == 0 then {}
    else (if cs[0].FluidNode? then {FluidKey(cs[0].id, cs[0].unit)} else {}) + ChildFluidKeys(cs[1..])
  }

  /** The fluids one visit registers: a fluid node's own fluid, or a machine's fluid inputs. */
  function VisitFluidKeys(n: Node): set<string> {
    if n.FluidNode? then {FluidKey(n.id, n.unit)}
    else if BuildsMachine(n) then ChildFluidKeys(n.children)
    else {}
  }

  function FluidKeysOf(ns: seq<Node>): set<string> {
    if |ns| == 0 then {} else VisitFluidKeys(ns[0]) + FluidKeysOf(ns[1..])
  }

  lemma EnsureFluidFluids(line: Line, id: string, unit: Option<string>, k: string)
    ensures Has(EnsureFluid(line, id, unit).fluids, k) <==> Has(line.fluids, k) || k == FluidKey(id, unit)
    ensures DistinctKeys(line.fluids) ==> DistinctKeys(EnsureFluid(line, id, unit).fluids)
  {
    var key := FluidKey(id, unit);
    if !Has(line.fluids, key) {
      PutHas(line.fluids, key, FluidAgg(id, KeepIfPresent(unit)), k);
      if DistinctKeys(line.fluids) {
        PutDistinct(line.fluids, key, FluidAgg(id, KeepIfPresent(unit)));
      }
    }
  }

  lemma {:induction false} ChildEdgesFluids(cfg: Config, cs: seq<Node>, machineId: string, line: Line, k: string)
    ensures Has(ChildEdges(cfg, cs, machineId, line).fluids, k) <==> Has(line.fluids, k) || k in ChildFluidKeys(cs)
    ensures DistinctKeys(line.fluids) ==> DistinctKeys(ChildEdges(cfg, cs, machineId, line).fluids)
    decreases |cs|
  {
    if |cs| > 0 {
      var c := cs[0];
      var line1 := if c.ItemNode? then EnsureItem(cfg, line, c.itemKey) else EnsureFluid(line, c.id, c.unit);
      var line2 := line1.(edges := AddEdge(line1.edges, ChildDraft(c, machineId)));
      if c.FluidNode? {
        EnsureFluidFluids(line, c.id, c.unit, k);
      }
      ChildEdgesFluids(cfg, cs[1..], machineId, line2, k);
    }
  }

  lemma VisitFluids(cfg: Config, n: Node, line: Line, k: string)
    ensures Has(Visit(cfg, n, line).fluids, k) <==> Has(line.fluids, k) || k in VisitFluidKeys(n)
    ensures DistinctKeys(line.fluids) ==> DistinctKeys(Visit(cfg, n, line).fluids)
  {
    if n.FluidNode? {
      EnsureFluidFluids(line, n.id, n.unit, k);
    } else if BuildsMachine(n) {
      var key := MachineKeyOf(n);
      var line2 := AddSeed(EnsureItem(cfg, line, n.itemKey), ItemKeyHash(n.itemKey), SeedAdded(cfg, n));
      var line3 := AddToMachine(EnsureMachine(line2, n), key, n);
      var line4 := line3.(edges := AddEdge(line3.edges, OutputDraft(n)));
      ChildEdgesFluids(cfg, n.children, MachineId(key), line4, k);
    }
  }

  /** The walk registers every fluid it meets once, under `id[:unit]`. */
  lemma {:induction false} VisitAllFluids(cfg: Config, ns: seq<Node>, line: Line, k: string)
    ensures Has(VisitAll(cfg, ns, line).fluids, k) <==> Has(line.fluids, k) || k in FluidKeysOf(ns)
    ensures DistinctKeys(line.fluids) ==> DistinctKeys(VisitAll(cfg, ns, line).fluids)
    decreases |ns|
  {
    if |ns| > 0 {
      VisitFluids(cfg, ns[0], line, k);
      VisitAllFluids(cfg, ns[1..], Visit(cfg, ns[0], line), k);
    }
  }
}
