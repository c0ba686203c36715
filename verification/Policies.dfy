/**
 Discovery of cpufreq policies and the planning of reversible writes
 (boostlock/sysfs.py).
 */
module Policies {
  import opened Common
  import opened Kernel

  // ---------------------------------------------------------------- data model

  datatype PolicyId = PolicyName(index: nat) | CpuName(cpu: nat)

  /** A directory entry found by discovery: its own name, what it resolves to, and its members. */
  datatype Candidate = Candidate(name: PolicyId, dir: Dir, cpus: seq<nat>)

  datatype Control = Governor | ActiveMin | ActiveMax | Boost | Cpb | Epp | Epb

  datatype Capability = Available | Unavailable | Unusable

  datatype SkipReason =
    | NodeUnavailable | NodeUnusable | PolicyUnusable
    | LimitsUnavailable | GovernorUnavailable | NoConfiguredValue | SharedAlreadyPlanned

  datatype Limits = Limits(
    hardwareMin: Option<int>, hardwareMax: Option<int>,
    activeMin: Option<int>, activeMax: Option<int>)

  datatype Policy = Policy(
    id: PolicyId,
    dir: Dir,
    cpus: seq<nat>,
    governors: seq<Token>,
    limits: Limits,
    capabilities: map<Control, Capability>,
    writable: map<Control, Node>,
    skipped: map<Control, SkipReason>,
    usable: bool) {

    predicate Offers(c: Control) { c in capabilities && capabilities[c] == Available }
  }

  const ALL_CONTROLS: set<Control> := {Governor, ActiveMin, ActiveMax, Boost, Cpb, Epp, Epb}
  const OPTIONAL_CONTROLS: seq<Control> := [Boost, Cpb, Epp, Epb]

  predicate IsOptional(c: Control) { c.Boost? || c.Cpb? || c.Epp? || c.Epb? }

  // ---------------------------------------------------------------- inventory

  /** The node behind a control, when the layout offers one at all. */
  function ControlNode(nodes: Nodes, c: Candidate, control: Control): Option<Node> {
    match control
    case Governor => Some(PolicyFile(c.dir, ScalingGovernor))
    case ActiveMin => Some(PolicyFile(c.dir, ScalingMinFreq))
    case ActiveMax => Some(PolicyFile(c.dir, ScalingMaxFreq))
    case Cpb => Some(PolicyFile(c.dir, LocalCpb))
    case Epp => Some(PolicyFile(c.dir, LocalEpp))
    case Boost =>
      if PolicyFile(c.dir, LocalBoost) in nodes then Some(PolicyFile(c.dir, LocalBoost))
      else if SharedBoost in nodes then Some(SharedBoost)
      else None
    case Epb =>
      if PolicyFile(c.dir, LocalEpb) in nodes then Some(PolicyFile(c.dir, LocalEpb))
      else if c.cpus != [] && PowerEpb(c.cpus[0]) in nodes then Some(PowerEpb(c.cpus[0]))
      else None
  }

  function CapabilityOf(nodes: Nodes, c: Candidate, control: Control): Capability {
    var node := ControlNode(nodes, c, control);
    if node.None? || node.value !in nodes then Unavailable
    else if nodes[node.value].Unreadable? then Unusable
    else if control.ActiveMin? || control.ActiveMax? then
      if ParseInt(nodes[node.value]).Some? then Available else Unusable
    else if nodes[node.value].tokens == [] then Unusable
    else Available
  }

  function SplitWords(nodes: Nodes, node: Node): seq<Token> {
    match Read(nodes, node)
    case Some(v) => if v.Text? then v.tokens else []
    case None => []
  }

  function SkipReasonOf(c: Capability): SkipReason {
    if c.Unavailable? then NodeUnavailable else NodeUnusable
  }

  function Inventory(nodes: Nodes, c: Candidate): Policy {
    var capabilities := map control | control in ALL_CONTROLS :: CapabilityOf(nodes, c, control);
    Policy(
      if c.dir.PolicyDir? then PolicyName(c.dir.index) else c.name,
      c.dir,
      c.cpus,
      SplitWords(nodes, PolicyFile(c.dir, ScalingAvailableGovernors)),
      Limits(
        ReadInt(nodes, PolicyFile(c.dir, CpuinfoMinFreq)),
        ReadInt(nodes, PolicyFile(c.dir, CpuinfoMaxFreq)),
        ReadInt(nodes, PolicyFile(c.dir, ScalingMinFreq)),
        ReadInt(nodes, PolicyFile(c.dir, ScalingMaxFreq))),
      capabilities,
      map control | control in ALL_CONTROLS && ControlNode(nodes, c, control).Some?
                    && ControlNode(nodes, c, control).value in nodes
        :: ControlNode(nodes, c, control).value,
      map control | control in OPTIONAL_CONTROLS && capabilities[control] != Available
        :: SkipReasonOf(capabilities[control]),
      c.cpus != []
      && capabilities[Governor] == Available
      && capabilities[ActiveMin] == Available
      && capabilities[ActiveMax] == Available)
  }

  /** A control is writable exactly when it resolves to a node that exists. */
  lemma InventoryControl(nodes: Nodes, c: Candidate, control: Control)
    ensures var p := Inventory(nodes, c); var node := ControlNode(nodes, c, control);
      && control in p.capabilities
      && p.capabilities[control] == CapabilityOf(nodes, c, control)
      && (control in p.writable <==> node.Some? && node.value in nodes)
      && (control in p.writable ==> p.writable[control] == node.value)
      && (control in p.skipped <==> IsOptional(control) && !p.Offers(control))
      && (p.Offers(control) ==>
            control in p.writable && nodes[p.writable[control]].Text?)
  {
    assert control in ALL_CONTROLS;
    var p := Inventory(nodes, c);
    assert p.capabilities == map k | k in ALL_CONTROLS :: CapabilityOf(nodes, c, k);
    assert control in OPTIONAL_CONTROLS <==> IsOptional(control);
  }

  // ---------------------------------------------------------------- discovery

  /** Candidates in order, dropping every later alias of a directory already seen. */
  function Kept(cs: seq<Candidate>, seen: set<Dir>): seq<Candidate>
    decreases cs
  {
    if cs == [] then []
    else if cs[0].dir in seen then Kept(cs[1..], seen)
    else [cs[0]] + Kept(cs[1..], seen + {cs[0].dir})
  }

  function InventoryAll(nodes: Nodes, cs: seq<Candidate>): seq<Policy> {
    if cs == [] then [] else InventoryAll(nodes, cs[..|cs| - 1]) + [Inventory(nodes, cs[|cs| - 1])]
  }

  lemma {:induction false} InventoryAllLength(nodes: Nodes, cs: seq<Candidate>)
    ensures |InventoryAll(nodes, cs)| == |cs|
  {
    if cs != [] { InventoryAllLength(nodes, cs[..|cs| - 1]); }
  }

  lemma {:induction false} InventoryAllAt(nodes: Nodes, cs: seq<Candidate>, i: nat)
    requires i < |cs|
    ensures |InventoryAll(nodes, cs)| == |cs| && InventoryAll(nodes, cs)[i] == Inventory(nodes, cs[i])
  {
    InventoryAllLength(nodes, cs);
    InventoryAllLength(nodes, cs[..|cs| - 1]);
    if i < |cs| - 1 { InventoryAllAt(nodes, cs[..|cs| - 1], i); }
  }

  function DiscoverPolicies(nodes: Nodes, cs: seq<Candidate>): seq<Policy> {
    InventoryAll(nodes, Kept(cs, {}))
  }

  /**
   Directory entries have distinct names, and an entry whose own name is that of a resolved
   policy directory is that directory: resolving a path is idempotent.
   */
  ghost predicate Coherent(cs: seq<Candidate>) {
    && (forall i, j :: 0 <= i < j < |cs| ==> cs[i].name != cs[j].name)
    && (forall i, j | 0 <= i < |cs| && 0 <= j < |cs| && cs[i].dir.PolicyDir?
          && cs[j].name == PolicyName(cs[i].dir.index) :: cs[j].dir == cs[i].dir)
  }

  ghost predicate DistinctDirs(ps: seq<Policy>) {
    forall k, l :: 0 <= k < l < |ps| ==> ps[k].dir != ps[l].dir
  }

  ghost predicate DistinctPolicyIds(ps: seq<Policy>) {
    forall k, l :: 0 <= k < l < |ps| ==> ps[k].id != ps[l].id
  }

  ghost predicate HasDir(cs: seq<Candidate>, dir: Dir) {
    exists c :: c in cs && c.dir == dir
  }

  ghost predicate DistinctCandidateDirs(cs: seq<Candidate>) {
    forall k, l :: 0 <= k < l < |cs| ==> cs[k].dir != cs[l].dir
  }

  lemma {:induction false} KeptOnce(cs: seq<Candidate>, seen: set<Dir>)
    ensures DistinctCandidateDirs(Kept(cs, seen))
    ensures forall c :: c in Kept(cs, seen) ==> c in cs && c.dir !in seen
    decreases cs
  {
    if cs == [] {
    } else if cs[0].dir in seen {
      KeptOnce(cs[1..], seen);
    } else {
      KeptOnce(cs[1..], seen + {cs[0].dir});
    }
  }

  lemma {:induction false} KeptCovers(cs: seq<Candidate>, seen: set<Dir>, c: Candidate)
    requires c in cs && c.dir !in seen
    ensures HasDir(Kept(cs, seen), c.dir)
    decreases cs
  {
    if cs[0].dir in seen {
      KeptCovers(cs[1..], seen, c);
    } else if cs[0].dir == c.dir {
      assert cs[0] in Kept(cs, seen);
    } else {
      KeptCovers(cs[1..], seen + {cs[0].dir}, c);
      var k :| k in Kept(cs[1..], seen + {cs[0].dir}) && k.dir == c.dir;
      assert k in Kept(cs, seen);
    }
  }

  /** Of the entries that resolve to one directory the first is kept. */
  lemma {:induction false} FirstIsKept(cs: seq<Candidate>, seen: set<Dir>, i: nat)
    requires i < |cs|
    ensures cs[i].dir !in seen && (forall j :: 0 <= j < i ==> cs[j].dir != cs[i].dir) ==> cs[i] in Kept(cs, seen)
    decreases cs
  {
    if i > 0 {
      FirstIsKept(cs[1..], if cs[0].dir in seen then seen else seen + {cs[0].dir}, i - 1);
      assert forall j :: 0 <= j < i - 1 ==> cs[1..][j] == cs[j + 1];
    }
  }

  /** p is what one of the directory entries inventories to. */
  ghost predicate Inventoried(nodes: Nodes, cs: seq<Candidate>, p: Policy) {
    exists c :: c in cs && p == Inventory(nodes, c)
  }

  lemma DistinctIds(nodes: Nodes, cs: seq<Candidate>, a: Candidate, b: Candidate)
    requires Coherent(cs) && a in cs && b in cs && a.dir != b.dir
    ensures Inventory(nodes, a).id != Inventory(nodes, b).id
  {
    var i :| 0 <= i < |cs| && cs[i] == a;
    var j :| 0 <= j < |cs| && cs[j] == b;
    assert i != j;
  }

  /** The discovered policies are the inventories of the kept candidates. */
  lemma DiscoveredFromKept(nodes: Nodes, cs: seq<Candidate>, p: Policy)
    ensures p in DiscoverPolicies(nodes, cs) <==> exists c :: c in Kept(cs, {}) && p == Inventory(nodes, c)
  {
    var kept, ps := Kept(cs, {}), DiscoverPolicies(nodes, cs);
    InventoryAllLength(nodes, kept);
    if p in ps {
      var k :| 0 <= k < |ps| && ps[k] == p;
      InventoryAllAt(nodes, kept, k);
      assert kept[k] in kept;
    }
    if c :| c in kept && p == Inventory(nodes, c) {
      var k :| 0 <= k < |kept| && kept[k] == c;
      InventoryAllAt(nodes, kept, k);
      assert ps[k] == p;
    }
  }

  lemma DiscoveredApart(nodes: Nodes, cs: seq<Candidate>, k: nat, l: nat)
    requires k < l < |DiscoverPolicies(nodes, cs)|
    ensures var ps := DiscoverPolicies(nodes, cs);
      ps[k].dir != ps[l].dir && (Coherent(cs) ==> ps[k].id != ps[l].id)
  {
    var kept := Kept(cs, {});
    KeptOnce(cs, {});
    InventoryAllLength(nodes, kept);
    InventoryAllAt(nodes, kept, k);
    InventoryAllAt(nodes, kept, l);
    assert kept[k].dir != kept[l].dir && kept[k] in kept && kept[l] in kept;
    if Coherent(cs) { DistinctIds(nodes, cs, kept[k], kept[l]); }
  }

  lemma DirDiscovered(nodes: Nodes, cs: seq<Candidate>, c: Candidate)
    requires c in cs
    ensures exists p :: p in DiscoverPolicies(nodes, cs) && p.dir == c.dir
  {
    KeptCovers(cs, {}, c);
    var k :| k in Kept(cs, {}) && k.dir == c.dir;
    var p := Inventory(nodes, k);
    DiscoveredFromKept(nodes, cs, p);
    assert p.dir == c.dir;
  }

  lemma DiscoveredIsInventoried(nodes: Nodes, cs: seq<Candidate>, p: Policy)
    requires p in DiscoverPolicies(nodes, cs)
    ensures Inventoried(nodes, cs, p)
  {
    DiscoveredFromKept(nodes, cs, p);
    var c :| c in Kept(cs, {}) && p == Inventory(nodes, c);
    KeptOnce(cs, {});
  }

  /**
   Deduplication: each resolved directory yields exactly one policy, and under coherent
   directory entries the policy identifiers are pairwise distinct as well.
   */
  lemma DiscoveryIsUnique(nodes: Nodes, cs: seq<Candidate>)
    ensures DistinctDirs(DiscoverPolicies(nodes, cs))
    ensures forall p :: p in DiscoverPolicies(nodes, cs) ==> Inventoried(nodes, cs, p)
    ensures forall c :: c in cs ==> exists p :: p in DiscoverPolicies(nodes, cs) && p.dir == c.dir
    ensures Coherent(cs) ==> DistinctPolicyIds(DiscoverPolicies(nodes, cs))
  {
    var ps := DiscoverPolicies(nodes, cs);
    forall p | p in ps ensures Inventoried(nodes, cs, p) { DiscoveredIsInventoried(nodes, cs, p); }
    forall c | c in cs ensures exists p :: p in ps && p.dir == c.dir { DirDiscovered(nodes, cs, c); }
    forall k, l | 0 <= k < l < |ps| ensures ps[k].dir != ps[l].dir && (Coherent(cs) ==> ps[k].id != ps[l].id) {
      DiscoveredApart(nodes, cs, k, l);
    }
  }
}
