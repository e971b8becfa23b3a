/** The from-scratch objective: faults of all scoped nodes, computed directly from the placement. */
module Faults {
  import opened Basics
  import opened Sums
  import opened Placement
  import opened Evaluation

  datatype FaultRule =
    | Capacity(capacity: int, faultWeight: int)
    | Drain(faultWeight: int)
  {
    /** Fault of a node with the given value; the capacity fault is stored in an int. */
    function Fault(val: int): int {
      match this
      case Capacity(capacity, faultWeight) => if val > capacity then Narrow((val - capacity) * faultWeight) else 0
      case Drain(faultWeight) => val * faultWeight
    }
  }

  datatype ConstraintSpec = ConstraintSpec(rule: FaultRule, consistency: MovementConsistency, domain: Domain,
                                           scope: set<DomainId>)
  {
    function Op(): Operator {
      match rule
      case Capacity(_, _) => MetricSum(consistency)
      case Drain(_) => ShardCount(consistency)
    }
  }

  /** The fault entries of a constraint: one for every scoped node that was ever touched. */
  ghost function FaultsOf(w: World, spec: ConstraintSpec, cfg: Config): map<DomainId, int> {
    map id | id in spec.scope && Touched(w.forest, Node(spec.domain, id), cfg) ::
      spec.rule.Fault(NodeValue(spec.Op(), w, Node(spec.domain, id), cfg))
  }

  ghost function ConstraintWeight(w: World, spec: ConstraintSpec, cfg: Config): int {
    MapTotal(FaultsOf(w, spec, cfg))
  }

  ghost function BinPart(spec: ConstraintSpec, faults: map<DomainId, int>, bin: DomainId): int {
    if spec.domain == BIN_DOMAIN then ValueOrZero(faults, bin) else 0
  }

  /** Sum of the fault entries of all constraints. */
  ghost function TotalWeight(w: World, specs: seq<ConstraintSpec>, cfg: Config): int {
    if specs == [] then 0
    else TotalWeight(w, specs[..|specs| - 1], cfg) + ConstraintWeight(w, specs[|specs| - 1], cfg)
  }

  /** Sum of a bin's fault entries in the constraints scoped to bins. */
  ghost function BinWeight(w: World, specs: seq<ConstraintSpec>, cfg: Config, bin: DomainId): int {
    if specs == [] then 0
    else
      BinWeight(w, specs[..|specs| - 1], cfg, bin)
      + BinPart(specs[|specs| - 1], FaultsOf(w, specs[|specs| - 1], cfg), bin)
  }

  /** Recorded faults follow recorded node values. */
  ghost predicate Synced(spec: ConstraintSpec, faults: map<DomainId, int>, values: Values) {
    && (forall id :: id in faults <==> Node(spec.domain, id) in values)
    && (forall id :: id in faults ==> faults[id] == spec.rule.Fault(values[Node(spec.domain, id)]))
  }

  lemma SyncedStep(spec: ConstraintSpec, faults: map<DomainId, int>, values: Values, n: Node, val: int)
    requires Synced(spec, faults, values)
    ensures Synced(spec, if n.domain == spec.domain then faults[n.id := spec.rule.Fault(val)]
              else faults, values[n := val])
  {
    hide FaultRule.Fault;
    if n.domain == spec.domain {
      assert forall id :: Node(spec.domain, id) == n <==> id == n.id;
    }
  }

  lemma SyncedFaults(w: World, spec: ConstraintSpec, nodes: set<Node>, faults: map<DomainId, int>, values: Values,
                     cfg: Config)
    requires Synced(spec, faults, values) && values.Keys <= nodes
    requires forall n :: n in nodes ==> NodeOk(spec.Op(), w, n, values, cfg)
    requires forall id: DomainId :: id in spec.scope <==> Node(spec.domain, id) in nodes
    ensures faults == FaultsOf(w, spec, cfg)
  {
    hide NodeValue, Touched;
    forall id
      ensures id in faults <==> id in FaultsOf(w, spec, cfg)
      ensures id in faults ==> faults[id] == FaultsOf(w, spec, cfg)[id]
    {
      assert id in faults <==> Node(spec.domain, id) in values;
    }
  }

  // ----- What a bin weighs -----

  /** The fault that a constraint scoped to bins has at a bin that was ever touched. */
  ghost function BinFault(w: World, cfg: Config, bin: DomainId): ConstraintSpec -> int {
    (spec: ConstraintSpec) =>
      if spec.domain == BIN_DOMAIN && bin in spec.scope && Touched(w.forest, Node(BIN_DOMAIN, bin), cfg)
      then spec.rule.Fault(Narrow(LoadForRule(spec.rule, w, Node(BIN_DOMAIN, bin), cfg)))
      else 0
  }

  /** A bin's weight is the sum, over the constraints scoped to bins, of the fault of its load. */
  lemma {:induction false} BinWeightIsSum(w: World, specs: seq<ConstraintSpec>, cfg: Config, bin: DomainId)
    ensures BinWeight(w, specs, cfg, bin) == SeqSum(specs, BinFault(w, cfg, bin))
  {
    if specs != [] {
      var front, last := specs[..|specs| - 1], specs[|specs| - 1];
      BinWeightIsSum(w, front, cfg, bin);
      BinPartIsFault(w, last, cfg, bin);
    }
  }

  lemma BinPartIsFault(w: World, spec: ConstraintSpec, cfg: Config, bin: DomainId)
    ensures BinPart(spec, FaultsOf(w, spec, cfg), bin) == BinFault(w, cfg, bin)(spec)
  {
    hide Load, Touched, ShardsBelow, Narrow, FaultRule.Fault;
    LoadIsPlain(spec.Op(), w, Node(BIN_DOMAIN, bin), cfg);
  }

  // ----- The plain objective over whole scopes -----

  ghost function NodeFault(w: World, spec: ConstraintSpec, cfg: Config): DomainId -> int {
    (id: DomainId) => spec.rule.Fault(NodeValue(spec.Op(), w, Node(spec.domain, id), cfg))
  }

  /** Faults of all scoped nodes, touched or not. */
  ghost function ScopeFault(w: World, spec: ConstraintSpec, cfg: Config): int {
    SumOver(spec.scope, NodeFault(w, spec, cfg))
  }

  ghost function Objective(w: World, specs: seq<ConstraintSpec>, cfg: Config): int {
    if specs == [] then 0
    else Objective(w, specs[..|specs| - 1], cfg) + ScopeFault(w, specs[|specs| - 1], cfg)
  }

  /** Fault of a load in unbounded integers; the capacity fault is converted to an int. */
  lemma FaultIsPlain(rule: FaultRule, load: int)
    ensures rule.Drain? ==> rule.Fault(load) == PlainFault(rule, load)
    ensures rule.Capacity? ==> rule.Fault(load) == Narrow(PlainFault(rule, load))
  {
    NarrowExact(0);
  }

  /** Fault of a load in unbounded integers. */
  function PlainFault(rule: FaultRule, load: int): int {
    match rule
    case Capacity(capacity, faultWeight) => if load > capacity then (load - capacity) * faultWeight else 0
    case Drain(faultWeight) => load * faultWeight
  }

  /** Capacity constraints add up entries of metric 0, drain constraints count shards. */
  ghost function LoadForRule(rule: FaultRule, w: World, n: Node, cfg: Config): int {
    match rule
    case Capacity(_, _) => SumOver(ShardsBelow(w.forest, n, cfg), Entries(w.metrics, 0))
    case Drain(_) => |ShardsBelow(w.forest, n, cfg)|
  }

  ghost function PlainNodeFault(w: World, spec: ConstraintSpec, cfg: Config): DomainId -> int {
    (id: DomainId) => PlainFault(spec.rule, LoadForRule(spec.rule, w, Node(spec.domain, id), cfg))
  }

  /** The objective without any conversion to machine integers. */
  ghost function PlainObjective(w: World, specs: seq<ConstraintSpec>, cfg: Config): int {
    if specs == [] then 0
    else
      var last := specs[|specs| - 1];
      PlainObjective(w, specs[..|specs| - 1], cfg) + SumOver(last.scope, PlainNodeFault(w, last, cfg))
  }

  ghost function Untouched(w: World, spec: ConstraintSpec, cfg: Config): set<DomainId> {
    set id | id in spec.scope && !Touched(w.forest, Node(spec.domain, id), cfg)
  }

  /** What the ledger misses: the fault that an empty node has, for every node never touched. */
  ghost function Unrecorded(w: World, specs: seq<ConstraintSpec>, cfg: Config): int {
    if specs == [] then 0
    else
      var last := specs[|specs| - 1];
      Unrecorded(w, specs[..|specs| - 1], cfg) + last.rule.Fault(0) * |Untouched(w, last, cfg)|
  }

  lemma ScopeFaultSplit(w: World, spec: ConstraintSpec, cfg: Config)
    ensures ScopeFault(w, spec, cfg) == ConstraintWeight(w, spec, cfg) + spec.rule.Fault(0) * |Untouched(w, spec, cfg)|
  {
    var faults, idle, f := FaultsOf(w, spec, cfg), Untouched(w, spec, cfg), NodeFault(w, spec, cfg);
    forall id | id in idle
      ensures f(id) == spec.rule.Fault(0)
    {
      UntouchedIsEmpty(w.forest, WeightOf(spec.Op(), w), Node(spec.domain, id), cfg);
      NarrowExact(0);
    }
    hide Touched, NodeValue, FaultRule.Fault;
    assert faults.Keys + idle == spec.scope;
    SumUnion(faults.Keys, idle, f);
    SumConstant(idle, f, spec.rule.Fault(0));
    SumExt(faults.Keys, f, (id: DomainId) => ValueOrZero(faults, id));
  }

  /**
   The ledger's total is the from-scratch objective minus the faults of
   untouched nodes; they agree exactly when those faults add up to zero.
   */
  lemma {:induction false} LedgerVersusObjective(w: World, specs: seq<ConstraintSpec>, cfg: Config)
    ensures TotalWeight(w, specs, cfg) + Unrecorded(w, specs, cfg) == Objective(w, specs, cfg)
  {
    if specs != [] {
      LedgerVersusObjective(w, specs[..|specs| - 1], cfg);
      ScopeFaultSplit(w, specs[|specs| - 1], cfg);
    }
  }

  /** Capacities are non-negative; then an empty node has no fault. */
  predicate Ordinary(specs: seq<ConstraintSpec>) {
    forall spec :: spec in specs && spec.rule.Capacity? ==> spec.rule.capacity >= 0
  }

  lemma NothingAtZero(rule: FaultRule)
    requires rule.Capacity? ==> rule.capacity >= 0
    ensures rule.Fault(0) == 0
  {
  }

  lemma {:induction false} OrdinaryObjective(w: World, specs: seq<ConstraintSpec>, cfg: Config)
    requires Ordinary(specs)
    ensures Unrecorded(w, specs, cfg) == 0
    ensures TotalWeight(w, specs, cfg) == Objective(w, specs, cfg)
  {
    hide FaultRule.Fault, Untouched, TotalWeight, Objective;
    if specs != [] {
      var front, last := specs[..|specs| - 1], specs[|specs| - 1];
      assert forall spec :: spec in front ==> spec in specs;
      assert last in specs;
      OrdinaryObjective(w, front, cfg);
      NothingAtZero(last.rule);
      assert last.rule.Fault(0) * |Untouched(w, last, cfg)| == 0;
    }
    LedgerVersusObjective(w, specs, cfg);
  }
}
