/**
 * Liveness analysis over an abstract flow graph, as `LivenessImplementation` computes it:
 * every node's in- and out-set start empty, then ONE pass over the nodes in graph order
 * computes, for each node, its out-set and then its in-set.  The pass is not iterated to a
 * fixpoint; the lemmas below say exactly what it does compute, and under which ordering
 * condition the result satisfies the dataflow equations.
 */
module Liveness {

  type Temp = nat

  /** A flow-graph node: successors (as positions in the node order), used and defined temps. */
  datatype FlowNode = FlowNode(succ: seq<nat>, use: set<Temp>, def: set<Temp>)

  /** The nodes in `g.nodes()` order; node i is the i-th element. */
  type FlowGraph = seq<FlowNode>

  /** In- and out-sets per node, as the maps `ins` and `outs`. */
  datatype LiveSets = LiveSets(ins: map<nat, set<Temp>>, outs: map<nat, set<Temp>>)

  /** Every successor is a node of the graph. */
  predicate WellFormed(g: FlowGraph) {
    forall i, j :: 0 <= i < |g| && 0 <= j < |g[i].succ| ==> g[i].succ[j] < |g|
  }

  /** The map has an entry for exactly the nodes 0 .. n-1. */
  ghost predicate OnNodes(m: map<nat, set<Temp>>, n: nat) {
    forall i: nat :: i in m <==> i < n
  }

  /** A map that gives each of the nodes 0 .. n-1 an empty set. */
  function Empty(n: nat): (m: map<nat, set<Temp>>)
    ensures OnNodes(m, n)
    ensures forall i :: i in m ==> m[i] == {}
  {
    if n == 0 then map[] else Empty(n - 1)[n - 1 := {}]
  }

  /** Union of `ins[s]` over the successors `succ`, in list order. */
  function UnionIns(ins: map<nat, set<Temp>>, succ: seq<nat>): set<Temp>
    requires forall j :: 0 <= j < |succ| ==> succ[j] in ins
  {
    if succ == [] then {} else UnionIns(ins, succ[..|succ| - 1]) + ins[succ[|succ| - 1]]
  }

  /** Visiting node i: its out-set gains the successors' current in-sets, then its in-set gains
    * `use[i]` and `out[i] - def[i]`. */
  function Visit(g: FlowGraph, l: LiveSets, i: nat): (r: LiveSets)
    requires WellFormed(g) && i < |g|
    requires OnNodes(l.ins, |g|) && OnNodes(l.outs, |g|)
    ensures OnNodes(r.ins, |g|) && OnNodes(r.outs, |g|)
  {
    var out := l.outs[i] + UnionIns(l.ins, g[i].succ);
    var inSet := l.ins[i] + g[i].use + (out - g[i].def);
    LiveSets(l.ins[i := inSet], l.outs[i := out])
  }

  /** The sets after the first k nodes of the single pass have been visited. */
  function Sweep(g: FlowGraph, k: nat): (r: LiveSets)
    requires WellFormed(g) && k <= |g|
    ensures OnNodes(r.ins, |g|) && OnNodes(r.outs, |g|)
    ensures forall j :: k <= j < |g| ==> r.ins[j] == {} && r.outs[j] == {}
  {
    if k == 0 then LiveSets(Empty(|g|), Empty(|g|)) else Visit(g, Sweep(g, k - 1), k - 1)
  }

  /** The result of the analysis: the sets after the one pass over all nodes. */
  function Analysis(g: FlowGraph): LiveSets
    requires WellFormed(g)
  {
    Sweep(g, |g|)
  }

  /** Once a node has been visited, later visits do not touch its sets. */
  lemma SweepStable(g: FlowGraph, k: nat, j: nat)
    requires WellFormed(g) && j < k <= |g|
    ensures Sweep(g, k).ins[j] == Sweep(g, j + 1).ins[j]
    ensures Sweep(g, k).outs[j] == Sweep(g, j + 1).outs[j]
  {
    var m := j + 1;
    while m < k
      invariant j < m <= k
      invariant Sweep(g, m).ins[j] == Sweep(g, j + 1).ins[j]
      invariant Sweep(g, m).outs[j] == Sweep(g, j + 1).outs[j]
    {
      SweepStepElsewhere(g, m + 1, j);
      m := m + 1;
    }
  }

  /** Visiting node k - 1 does not touch the sets of an earlier node j. */
  lemma SweepStepElsewhere(g: FlowGraph, k: nat, j: nat)
    requires WellFormed(g) && j + 1 < k <= |g|
    ensures Sweep(g, k).ins[j] == Sweep(g, k - 1).ins[j]
    ensures Sweep(g, k).outs[j] == Sweep(g, k - 1).outs[j]
  {
    SweepStep(g, k - 1);
    VisitElsewhere(g, Sweep(g, k - 1), k - 1, j);
  }

  /** One more node of the pass is one more visit. */
  lemma SweepStep(g: FlowGraph, k: nat)
    requires WellFormed(g) && k < |g|
    ensures Sweep(g, k + 1) == Visit(g, Sweep(g, k), k)
  {
  }

  /** Visiting node i leaves the sets of every other node as they were. */
  lemma VisitElsewhere(g: FlowGraph, l: LiveSets, i: nat, j: nat)
    requires WellFormed(g) && i < |g| && j < |g| && j != i
    requires OnNodes(l.ins, |g|) && OnNodes(l.outs, |g|)
    ensures j in l.ins && j in l.outs
    ensures Visit(g, l, i).ins[j] == l.ins[j] && Visit(g, l, i).outs[j] == l.outs[j]
  {
  }

  /** Membership in a union of in-sets: some successor's in-set holds the temp. */
  lemma {:induction false} UnionInsMember(ins: map<nat, set<Temp>>, succ: seq<nat>, x: Temp)
    requires forall j :: 0 <= j < |succ| ==> succ[j] in ins
    ensures x in UnionIns(ins, succ) <==> exists j :: 0 <= j < |succ| && x in ins[succ[j]]
  {
    if succ != [] {
      var p := succ[..|succ| - 1];
      UnionInsMember(ins, p, x);
      if x in UnionIns(ins, p) {
        var j :| 0 <= j < |p| && x in ins[p[j]];
        assert succ[j] == p[j];
      }
      if exists j :: 0 <= j < |succ| && x in ins[succ[j]] {
        var j :| 0 <= j < |succ| && x in ins[succ[j]];
        if j < |succ| - 1 {
          assert p[j] == succ[j];
        }
      }
    }
  }

  /** The out-set of node i is the union of the final in-sets of those successors that come
    * BEFORE i in the node order; a successor visited later (and i itself on a self-loop)
    * contributes nothing. */
  lemma LiveOutFromEarlierSuccessors(g: FlowGraph, i: nat)
    requires WellFormed(g) && i < |g|
    ensures forall x :: x in Analysis(g).outs[i] <==>
      exists j :: 0 <= j < |g[i].succ| && g[i].succ[j] < i && x in Analysis(g).ins[g[i].succ[j]]
  {
    var before := Sweep(g, i);
    var succ: seq<nat> := g[i].succ;
    SweepStable(g, |g|, i);
    assert Analysis(g).outs[i] == UnionIns(before.ins, succ);
    forall j | 0 <= j < |succ|
      ensures before.ins[succ[j]] == if succ[j] < i then Analysis(g).ins[succ[j]] else {}
    {
      if succ[j] < i {
        SweepStable(g, |g|, succ[j]);
        SweepStable(g, i, succ[j]);
      }
    }
    forall x
      ensures x in Analysis(g).outs[i] <==>
        exists j :: 0 <= j < |succ| && succ[j] < i && x in Analysis(g).ins[succ[j]]
    {
      UnionInsMember(before.ins, succ, x);
    }
  }

  /** After the pass, every node satisfies the in-equation in[n] = use[n] + (out[n] - def[n]). */
  lemma LiveInEquation(g: FlowGraph, i: nat)
    requires WellFormed(g) && i < |g|
    ensures Analysis(g).ins[i] == g[i].use + (Analysis(g).outs[i] - g[i].def)
  {
    SweepStable(g, |g|, i);
  }

  /** A temp defined at a node is live on entry to it only if the node also uses it. */
  lemma DefinedLiveInOnlyIfUsed(g: FlowGraph, i: nat, x: Temp)
    requires WellFormed(g) && i < |g|
    requires x in g[i].def && x in Analysis(g).ins[i]
    ensures x in g[i].use
  {
    LiveInEquation(g, i);
  }

  /** The two dataflow equations, at every node. */
  predicate IsFixpoint(g: FlowGraph, l: LiveSets)
    requires WellFormed(g) && OnNodes(l.ins, |g|) && OnNodes(l.outs, |g|)
  {
    forall i :: 0 <= i < |g| ==>
      l.outs[i] == UnionIns(l.ins, g[i].succ) && l.ins[i] == g[i].use + (l.outs[i] - g[i].def)
  }

  /** Every successor of every node precedes it in the node order. */
  predicate SuccessorsFirst(g: FlowGraph) {
    forall i, j :: 0 <= i < |g| && 0 <= j < |g[i].succ| ==> g[i].succ[j] < i
  }

  /** When every successor precedes its node, the single pass reaches the fixpoint: both
    * dataflow equations hold at every node. */
  lemma SuccessorsFirstGivesFixpoint(g: FlowGraph)
    requires WellFormed(g) && SuccessorsFirst(g)
    ensures IsFixpoint(g, Analysis(g))
  {
    var a := Analysis(g);
    forall i | 0 <= i < |g|
      ensures a.outs[i] == UnionIns(a.ins, g[i].succ)
      ensures a.ins[i] == g[i].use + (a.outs[i] - g[i].def)
    {
      LiveInEquation(g, i);
      LiveOutFromEarlierSuccessors(g, i);
      forall x ensures x in a.outs[i] <==> x in UnionIns(a.ins, g[i].succ) {
        UnionInsMember(a.ins, g[i].succ, x);
      }
    }
  }

  /** The single pass is not a fixpoint on a graph whose successor comes later: node 0 flows to
    * node 1, which uses temp 7, yet 7 is not live out of node 0. */
  lemma SinglePassMissesLaterSuccessor()
    ensures var g := [FlowNode([1], {}, {}), FlowNode([], {7}, {})];
      WellFormed(g) && 7 in Analysis(g).ins[1] && 7 !in Analysis(g).outs[0]
      && !IsFixpoint(g, Analysis(g))
  {
    var g := [FlowNode([1], {}, {}), FlowNode([], {7}, {})];
    LiveOutFromEarlierSuccessors(g, 0);
    LiveInEquation(g, 1);
    assert UnionIns(Analysis(g).ins, g[0].succ) == Analysis(g).ins[1];
  }

  /** The analysis object: it fills `outs` and `ins` when it is created. */
  class LivenessImplementation {
    const g: FlowGraph
    var outs: map<nat, set<Temp>>
    var ins: map<nat, set<Temp>>

    /** The maps hold exactly the result of the single pass. */
    ghost predicate Valid()
      reads this
    {
      WellFormed(g) && LiveSets(ins, outs) == Analysis(g)
    }

    constructor (graph: FlowGraph)
      requires WellFormed(graph)
      ensures g == graph && Valid()
    {
      g := graph;
      outs := map[];
      ins := map[];
      new;
      CalculateLiveness();
    }

    /** The live-out set of node n. */
    function LiveOut(n: nat): (r: set<Temp>)
      reads this
      requires Valid() && n < |g|
      ensures r == Analysis(g).outs[n]
      ensures forall x :: x in r <==>
        exists j :: 0 <= j < |g[n].succ| && g[n].succ[j] < n && x in Analysis(g).ins[g[n].succ[j]]
    {
      LiveOutFromEarlierSuccessors(g, n);
      outs[n]
    }

    /** The live-in set of node n. */
    function LiveIn(n: nat): (r: set<Temp>)
      reads this
      requires Valid() && n < |g|
      ensures r == Analysis(g).ins[n]
      ensures r == g[n].use + (Analysis(g).outs[n] - g[n].def)
    {
      LiveInEquation(g, n);
      ins[n]
    }

    /** Empty sets for every node, then one pass: out-set, then in-set, node by node. */
    method CalculateLiveness()
      requires WellFormed(g) && outs == map[] && ins == map[]
      modifies this
      ensures Valid()
    {
      for i := 0 to |g|
        invariant outs == Empty(i) && ins == Empty(i)
      {
        outs := outs[i := {}];
        ins := ins[i := {}];
      }
      assert LiveSets(ins, outs) == Sweep(g, 0);
      for i := 0 to |g|
        invariant LiveSets(ins, outs) == Sweep(g, i)
      {
        CalculateLivenessOut(i);
        CalculateLivenessIn(i);
      }
    }

    /** Adds every successor's current in-set into the out-set of node n. */
    method CalculateLivenessOut(n: nat)
      requires WellFormed(g) && n < |g| && OnNodes(ins, |g|) && OnNodes(outs, |g|)
      modifies this
      ensures ins == old(ins)
      ensures outs == old(outs)[n := old(outs)[n] + UnionIns(ins, g[n].succ)]
    {
      var succ: seq<nat> := g[n].succ;
      var out := outs[n];
      for j := 0 to |succ|
        invariant out == old(outs)[n] + UnionIns(ins, succ[..j])
      {
        assert succ[..j + 1][..j] == succ[..j];
        out := out + ins[succ[j]];
      }
      assert succ[..|succ|] == succ;
      outs := outs[n := out];
    }

    /** Adds `use[n]` and then `out[n] - def[n]` into the in-set of node n. */
    method CalculateLivenessIn(n: nat)
      requires WellFormed(g) && n < |g| && OnNodes(ins, |g|) && OnNodes(outs, |g|)
      modifies this
      ensures outs == old(outs)
      ensures ins == old(ins)[n := old(ins)[n] + g[n].use + (outs[n] - g[n].def)]
    {
      ins := ins[n := ins[n] + g[n].use];
      ins := ins[n := ins[n] + (outs[n] - g[n].def)];
    }
  }
}
