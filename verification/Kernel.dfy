/**
 The part of the machine BoostLock touches: sysfs nodes, the DMA-latency device and
 the outcome of every attempt to open or write one of them.
 */
module Kernel {
  import opened Common

  /** A sysfs file holds whitespace separated tokens; decimal tokens are read as integers. */
  datatype Token = Int(n: int) | Name(s: string)

  /** Unreadable stands for a file that exists and whose read fails. */
  datatype Value = Text(tokens: seq<Token>) | Unreadable

  /** A resolved cpufreq directory: a policyN directory, or a cpuN/cpufreq directory. */
  datatype Dir = PolicyDir(index: nat) | CpuDir(cpu: nat)

  datatype File =
    | ScalingGovernor | ScalingAvailableGovernors
    | ScalingMinFreq | ScalingMaxFreq
    | CpuinfoMinFreq | CpuinfoMaxFreq
    | LocalBoost | LocalCpb | LocalEpp | LocalEpb

  /** Resolved nodes; two paths that resolve to one file are one node. */
  datatype Node =
    | PolicyFile(dir: Dir, file: File)
    | SharedBoost
    | PowerEpb(cpu: nat)
    | CpuIdleDisable(cpu: nat, idleState: nat)
    | DmaDevice

  type Nodes = map<Node, Value>

  function Number(n: int): Value { Text([Int(n)]) }

  function ParseInt(v: Value): Option<int> {
    if v.Text? && |v.tokens| == 1 && v.tokens[0].Int? then Some(v.tokens[0].n) else None
  }

  /** Writing an integer back reproduces the text it was read from. */
  lemma IntegerTextRoundTrips(v: Value)
    ensures ParseInt(v).Some? ==> v == Number(ParseInt(v).value)
  {
    if ParseInt(v).Some? { assert v.tokens == [Int(ParseInt(v).value)]; }
  }

  function Read(nodes: Nodes, node: Node): Option<Value> {
    if node in nodes && nodes[node].Text? then Some(nodes[node]) else None
  }

  function ReadInt(nodes: Nodes, node: Node): Option<int> {
    if node in nodes then ParseInt(nodes[node]) else None
  }

  /** Forward attempts apply a change; undo attempts compensate, release or restore. */
  datatype Phase = Forward | Undo

  datatype Attempt =
    | Preflight(node: Node)
    | Write(node: Node, value: Value)
    | OpenDevice
    | WriteLatency(us: int)
    | CloseDevice

  datatype Entry = Entry(phase: Phase, attempt: Attempt, ok: bool)

  /** Whether the k-th attempt of a run succeeds; arbitrary, one stream for each phase. */
  datatype Oracle = Oracle(forward: nat -> bool, undo: nat -> bool) {
    predicate Grants(phase: Phase, k: nat) {
      if phase.Forward? then forward(k) else undo(k)
    }

    /** Every compensating, releasing or restoring attempt succeeds. */
    ghost predicate UndoWorks() {
      forall k: nat :: undo(k)
    }
  }

  datatype Sys = Sys(nodes: Nodes, log: seq<Entry>)

  datatype Outcome = Outcome(sys: Sys, ok: bool)

  /** One attempt: it is logged, and a write that succeeds replaces an existing node. */
  function Perform(o: Oracle, phase: Phase, sys: Sys, attempt: Attempt): Outcome {
    var ok := o.Grants(phase, |sys.log|) && (attempt.Write? ==> attempt.node in sys.nodes);
    var nodes := if ok && attempt.Write? then sys.nodes[attempt.node := attempt.value] else sys.nodes;
    Outcome(Sys(nodes, sys.log + [Entry(phase, attempt, ok)]), ok)
  }

  /** The nodes after replaying a stretch of the log. */
  function Replay(nodes: Nodes, entries: seq<Entry>): Nodes
    decreases entries
  {
    if entries == [] then nodes else Replay(After(nodes, entries[0]), entries[1..])
  }

  function After(nodes: Nodes, e: Entry): Nodes {
    if e.attempt.Write? && e.ok then nodes[e.attempt.node := e.attempt.value] else nodes
  }

  lemma {:induction false} ReplayAppend(nodes: Nodes, a: seq<Entry>, b: seq<Entry>)
    ensures Replay(nodes, a + b) == Replay(Replay(nodes, a), b)
    decreases a
  {
    if a == [] {
      assert a + b == b;
    } else {
      assert (a + b)[0] == a[0] && (a + b)[1..] == a[1..] + b;
      ReplayAppend(After(nodes, a[0]), a[1..], b);
    }
  }

  /** The live machine: its nodes and its log change with every attempt. */
  class Machine {
    const oracle: Oracle
    var nodes: Nodes
    var log: seq<Entry>

    constructor (oracle: Oracle, nodes: Nodes)
      ensures this.oracle == oracle && View() == Sys(nodes, [])
    {
      this.oracle := oracle;
      this.nodes := nodes;
      this.log := [];
    }

    function View(): Sys reads this { Sys(nodes, log) }

    /** Whatever a restore without an in-memory snapshot leaves behind. */
    method Replace(nodes: Nodes)
      modifies this
      ensures View() == Sys(nodes, old(log))
    {
      this.nodes := nodes;
    }

    method Attempt(phase: Phase, attempt: Attempt) returns (ok: bool)
      modifies this
      ensures Perform(oracle, phase, old(View()), attempt) == Outcome(View(), ok)
    {
      ok := oracle.Grants(phase, |log|) && (attempt.Write? ==> attempt.node in nodes);
      log := log + [Entry(phase, attempt, ok)];
      if ok && attempt.Write? {
        nodes := nodes[attempt.node := attempt.value];
      }
    }
  }
}
