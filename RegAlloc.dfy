/**
 * The graph-colouring register allocator `SimpleRegAlloc`: simplify the interference graph into
 * an elimination order, rebuild the graph, then colour the temps in that order, preferring a
 * move partner's colour, then the register palette, then an existing spill slot, and finally a
 * fresh spill slot.
 */
module RegAlloc {
  import opened Util

  type Temp = nat

  /** A colour is a machine register or a stack spill slot. */
  datatype Color = Register(reg: nat) | Spill(slot: nat)

  /** A move instruction `dst <- src` recorded in the interference graph. */
  datatype Move = Move(src: Temp, dst: Temp)

  /** The interference graph: its nodes in `ig.nodes()` order, each node's neighbours, and the
    * recorded moves. */
  datatype InterferenceGraph = InterferenceGraph(nodes: seq<Temp>, adj: map<Temp, set<Temp>>, moves: seq<Move>)

  /** No temp occurs twice. */
  predicate Distinct(s: seq<Temp>) {
    forall i, j :: 0 <= i < j < |s| ==> s[i] != s[j]
  }

  /** An undirected graph without self-edges whose moves join nodes of the graph. */
  ghost predicate WellFormed(g: InterferenceGraph) {
    && Distinct(g.nodes)
    && (forall t :: t in g.adj <==> t in g.nodes)
    && (forall t, u :: t in g.adj && u in g.adj[t] ==> u in g.adj && t in g.adj[u] && u != t)
    && (forall m :: m in g.moves ==> m.src in g.adj && m.dst in g.adj)
  }

  /** The neighbours of t (`nodeFor(t).succ()`). */
  function Succ(g: InterferenceGraph, t: Temp): set<Temp> {
    if t in g.adj then g.adj[t] else {}
  }

  /** The number of neighbours t has in the graph as it now stands. */
  function Degree(g: InterferenceGraph, t: Temp): nat {
    |Succ(g, t)|
  }

  /** The list without the first occurrence of x (`util.List.delete`). */
  function Delete(s: seq<Temp>, x: Temp): (r: seq<Temp>)
    ensures multiset(r) == multiset(s) - multiset{x}
    ensures x in s ==> |r| == |s| - 1
  {
    if s == [] then []
    else if s[0] == x then assert s == [s[0]] + s[1..]; s[1..]
    else assert s == [s[0]] + s[1..]; [s[0]] + Delete(s[1..], x)
  }

  /** Deleting from a list without repetitions leaves a list without repetitions holding every
    * other element. */
  lemma {:induction false} DeleteDistinct(s: seq<Temp>, x: Temp)
    requires Distinct(s)
    ensures Distinct(Delete(s, x))
    ensures forall y :: y in Delete(s, x) <==> y in s && y != x
  {
    if s != [] {
      var tail := s[1..];
      assert Distinct(tail) by {
        forall i, j | 0 <= i < j < |tail| ensures tail[i] != tail[j] {
          assert tail[i] == s[i + 1] && tail[j] == s[j + 1];
        }
      }
      assert s[0] !in tail by {
        forall i | 0 <= i < |tail| ensures tail[i] != s[0] {
          assert tail[i] == s[i + 1];
        }
      }
      if s[0] != x {
        DeleteDistinct(tail, x);
        var r := Delete(s, x);
        assert r == [s[0]] + Delete(tail, x);
        forall i, j | 0 <= i < j < |r| ensures r[i] != r[j] {
          if i == 0 {
            assert r[j] == Delete(tail, x)[j - 1];
            assert r[j] in Delete(tail, x);
          } else {
            assert r[i] == Delete(tail, x)[i - 1] && r[j] == Delete(tail, x)[j - 1];
          }
        }
      }
    }
  }

  /** The graph after `rmNode(n)`: n and every edge at n are gone. */
  function RemoveNode(g: InterferenceGraph, n: Temp): (r: InterferenceGraph)
    ensures n !in r.adj
    ensures forall t :: t in r.adj <==> t in g.adj && t != n
    ensures forall t :: t in r.adj ==> r.adj[t] == g.adj[t] - {n}
    ensures r.nodes == Delete(g.nodes, n) && r.moves == g.moves
  {
    g.(nodes := Delete(g.nodes, n), adj := map t | t in g.adj && t != n :: g.adj[t] - {n})
  }

  /** The colour a temp has: its precolour if it has one, otherwise its entry in the colour map. */
  function ColorOf(pre: map<Temp, nat>, colorMap: map<Temp, Color>, t: Temp): (r: Option<Color>)
    ensures t in pre ==> r == Some(Register(pre[t]))
    ensures t !in pre ==> r == Get(colorMap, t)
  {
    if t in pre then Some(Register(pre[t])) else Get(colorMap, t)
  }

  // ---------------------------------------------------------------------------------------
  // Simplify

  /** The temps of `nodes` that have no colour yet, in order. */
  function Uncolored(nodes: seq<Temp>, pre: map<Temp, nat>, colorMap: map<Temp, Color>): (r: seq<Temp>)
    ensures forall t :: t in r <==> t in nodes && ColorOf(pre, colorMap, t).None?
    ensures Distinct(nodes) ==> Distinct(r)
  {
    if nodes == [] then []
    else if ColorOf(pre, colorMap, nodes[0]).None? then [nodes[0]] + Uncolored(nodes[1..], pre, colorMap)
    else Uncolored(nodes[1..], pre, colorMap)
  }

  /** Position of the first temp with fewer than k neighbours, or |tc| when there is none. */
  function FirstLowDegree(g: InterferenceGraph, tc: seq<Temp>, k: nat): (i: nat)
    ensures i <= |tc|
    ensures forall j :: 0 <= j < i ==> Degree(g, tc[j]) >= k
    ensures i < |tc| ==> Degree(g, tc[i]) < k
  {
    if tc == [] then 0
    else if Degree(g, tc[0]) < k then 0
    else 1 + FirstLowDegree(g, tc[1..], k)
  }

  /** The position of the temp one pass of simplify removes: the first with degree below k,
    * or else the last one. */
  function Pick(g: InterferenceGraph, tc: seq<Temp>, k: nat): nat
    requires |tc| > 0
  {
    var i := FirstLowDegree(g, tc, k);
    if i < |tc| then i else |tc| - 1
  }

  /** The elimination order simplify builds with `cons`: the temp removed last comes first, the
    * temp removed first comes last. */
  function Elimination(g: InterferenceGraph, tc: seq<Temp>, k: nat): seq<Temp>
    decreases |tc|
  {
    if tc == [] then []
    else
      var n := tc[Pick(g, tc, k)];
      Elimination(RemoveNode(g, n), Delete(tc, n), k) + [n]
  }

  /** The graph simplify leaves behind: the graph after every pass has removed its temp. */
  function Residue(g: InterferenceGraph, tc: seq<Temp>, k: nat): InterferenceGraph
    decreases |tc|
  {
    if tc == [] then g
    else
      var n := tc[Pick(g, tc, k)];
      Residue(RemoveNode(g, n), Delete(tc, n), k)
  }

  /** Whatever order the passes pick, the graph left behind has the input's moves and the
    * input's nodes without the listed temps. */
  lemma {:induction false} ResidueNodes(g: InterferenceGraph, tc: seq<Temp>, k: nat)
    requires Distinct(tc) && Distinct(g.nodes)
    ensures var r := Residue(g, tc, k);
      && r.moves == g.moves
      && Distinct(r.nodes)
      && (forall t :: t in r.nodes <==> t in g.nodes && t !in tc)
    decreases |tc|
  {
    if tc != [] {
      var n := tc[Pick(g, tc, k)];
      var g' := RemoveNode(g, n);
      var tc' := Delete(tc, n);
      DeleteDistinct(tc, n);
      DeleteDistinct(g.nodes, n);
      ResidueNodes(g', tc', k);
    }
  }

  /** Whatever order the passes pick, the graph left behind has exactly the nodes of the
    * input that are not listed. */
  lemma {:induction false} ResidueKeys(g: InterferenceGraph, tc: seq<Temp>, k: nat)
    requires Distinct(tc)
    ensures var r := Residue(g, tc, k);
      && (forall t :: t in r.adj <==> t in g.adj && t !in tc)
    decreases |tc|
  {
    if tc != [] {
      var n := tc[Pick(g, tc, k)];
      var g' := RemoveNode(g, n);
      var tc' := Delete(tc, n);
      DeleteDistinct(tc, n);
      ResidueKeys(g', tc', k);
      var r := Residue(g', tc', k);
      assert Residue(g, tc, k) == r;
      forall t ensures t in r.adj <==> t in g.adj && t !in tc {
        assert t in r.adj <==> t in g'.adj && t !in tc';
        assert t in g'.adj <==> t in g.adj && t != n;
        assert t in tc' <==> t in tc && t != n;
      }
    }
  }

  /** Whatever order the passes pick, a node left behind keeps exactly its neighbours that are
    * not listed. */
  lemma {:induction false} ResidueEdge(g: InterferenceGraph, tc: seq<Temp>, k: nat, t: Temp, u: Temp)
    requires Distinct(tc) && t in g.adj && t !in tc
    ensures t in Residue(g, tc, k).adj
    ensures u in Residue(g, tc, k).adj[t] <==> u in g.adj[t] && u !in tc
    decreases |tc|
  {
    if tc != [] {
      var n := tc[Pick(g, tc, k)];
      var g' := RemoveNode(g, n);
      var tc' := Delete(tc, n);
      DeleteDistinct(tc, n);
      assert Residue(g, tc, k) == Residue(g', tc', k);
      assert t in g'.adj && t !in tc';
      ResidueEdge(g', tc', k, t, u);
      assert g'.adj[t] == g.adj[t] - {n};
    }
  }

  /** Simplify's leftover graph: the input without the listed temps and every edge at them. */
  lemma ResidueEdges(g: InterferenceGraph, tc: seq<Temp>, k: nat)
    requires Distinct(tc)
    ensures var r := Residue(g, tc, k);
      && (forall t :: t in r.adj <==> t in g.adj && t !in tc)
      && (forall t :: t in r.adj ==> r.adj[t] == g.adj[t] - (set u | u in tc))
  {
    ResidueKeys(g, tc, k);
    var r := Residue(g, tc, k);
    forall t | t in r.adj
      ensures r.adj[t] == g.adj[t] - (set u | u in tc)
    {
      forall v ensures v in r.adj[t] <==> v in g.adj[t] - (set u | u in tc) {
        ResidueEdge(g, tc, k, t, v);
      }
    }
  }

  /** Each pass removes one temp, so the order has exactly the temps it started from, each as
    * often as it occurred. */
  lemma {:induction false} EliminationIsPermutation(g: InterferenceGraph, tc: seq<Temp>, k: nat)
    ensures multiset(Elimination(g, tc, k)) == multiset(tc)
    decreases |tc|
  {
    if tc != [] {
      var n := tc[Pick(g, tc, k)];
      EliminationIsPermutation(RemoveNode(g, n), Delete(tc, n), k);
      assert n in multiset(tc);
    }
  }

  /** A permutation of a list without repetitions has no repetitions. */
  lemma PermutationKeepsDistinct(a: seq<Temp>, b: seq<Temp>)
    requires multiset(a) == multiset(b) && Distinct(b)
    ensures Distinct(a)
  {
    forall i, j | 0 <= i < j < |a| ensures a[i] != a[j] {
      if a[i] == a[j] {
        var x := a[i];
        assert multiset(b)[x] == multiset(a)[x];
        DistinctCount(b, x);
        TwoOccurrences(a, i, j);
      }
    }
  }

  /** In a list without repetitions every element occurs at most once. */
  lemma {:induction false} DistinctCount(s: seq<Temp>, x: Temp)
    requires Distinct(s)
    ensures multiset(s)[x] <= 1
  {
    if s != [] {
      assert s == [s[0]] + s[1..];
      DistinctCount(s[1..], x);
      if s[0] == x {
        assert x !in s[1..];
      }
    }
  }

  /** Two positions holding x mean x occurs at least twice. */
  lemma {:induction false} TwoOccurrences(s: seq<Temp>, i: nat, j: nat)
    requires i < j < |s| && s[i] == s[j]
    ensures multiset(s)[s[i]] >= 2
  {
    assert s == s[..j] + s[j..];
    assert s[i] in s[..j];
    assert s[j..] == [s[j]] + s[j + 1..];
  }

  /** The elimination order of the uncoloured nodes holds every node without a colour exactly
    * once, and no precoloured node. */
  lemma SimplifyOrdersUncolored(g: InterferenceGraph, pre: map<Temp, nat>, k: nat)
    requires WellFormed(g)
    ensures var ordering := Elimination(g, Uncolored(g.nodes, pre, map[]), k);
      && Distinct(ordering)
      && |ordering| == |Uncolored(g.nodes, pre, map[])|
      && (forall t :: t in ordering <==> t in g.nodes && t !in pre)
  {
    var tc := Uncolored(g.nodes, pre, map[]);
    var ordering := Elimination(g, tc, k);
    EliminationIsPermutation(g, tc, k);
    PermutationKeepsDistinct(ordering, tc);
    PermutationSameMembers(ordering, tc);
    forall t ensures t in tc <==> t in g.nodes && t !in pre {
      assert ColorOf(pre, map[], t).None? <==> t !in pre;
    }
  }

  /** Two lists that are permutations of each other have the same length and members. */
  lemma PermutationSameMembers(a: seq<Temp>, b: seq<Temp>)
    requires multiset(a) == multiset(b)
    ensures |a| == |b|
    ensures forall t :: t in a <==> t in b
  {
    assert |a| == |multiset(a)| == |multiset(b)| == |b|;
    forall t ensures t in a <==> t in b {
      assert t in a <==> t in multiset(a);
      assert t in b <==> t in multiset(b);
    }
  }

  // ---------------------------------------------------------------------------------------
  // Select

  /** The allocator's colouring state: `colorMap`, `spilled` and `spillColors`. */
  datatype Alloc = Alloc(colorMap: map<Temp, Color>, spilled: seq<Temp>, spillColors: seq<Color>)

  /** No neighbour of t currently has colour c (`isColorOK`). */
  predicate ColorOK(g: InterferenceGraph, pre: map<Temp, nat>, colorMap: map<Temp, Color>, t: Temp, c: Color) {
    forall u :: u in Succ(g, t) ==> ColorOf(pre, colorMap, u) != Some(c)
  }

  /** The colour a move offers t: its source's colour when t is the destination and the source
    * is coloured, else its destination's colour when t is the source and that is coloured. */
  function MoveCandidate(pre: map<Temp, nat>, colorMap: map<Temp, Color>, t: Temp, m: Move): Option<Color> {
    if t == m.dst && ColorOf(pre, colorMap, m.src).Some? then ColorOf(pre, colorMap, m.src)
    else if t == m.src && ColorOf(pre, colorMap, m.dst).Some? then ColorOf(pre, colorMap, m.dst)
    else None
  }

  /** The first acceptable colour offered by the moves, in move order. */
  function MoveColor(g: InterferenceGraph, pre: map<Temp, nat>, colorMap: map<Temp, Color>, t: Temp, moves: seq<Move>): Option<Color> {
    if moves == [] then None
    else
      var c := MoveCandidate(pre, colorMap, t, moves[0]);
      if c.Some? && ColorOK(g, pre, colorMap, t, c.value) then c
      else MoveColor(g, pre, colorMap, t, moves[1..])
  }

  /** The first acceptable colour of the list, in list order. */
  function FirstOK(g: InterferenceGraph, pre: map<Temp, nat>, colorMap: map<Temp, Color>, t: Temp, colors: seq<Color>): Option<Color> {
    if colors == [] then None
    else if ColorOK(g, pre, colorMap, t, colors[0]) then Some(colors[0])
    else FirstOK(g, pre, colorMap, t, colors[1..])
  }

  /** The colour `tryToColor(t, colors)` gives t: a move partner's, or else one from `colors`. */
  function TryColor(g: InterferenceGraph, pre: map<Temp, nat>, colorMap: map<Temp, Color>, t: Temp, colors: seq<Color>): Option<Color> {
    var m := MoveColor(g, pre, colorMap, t, g.moves);
    if m.Some? then m else FirstOK(g, pre, colorMap, t, colors)
  }

  /** One step of `color`: registers first; on failure t is recorded as spilled and takes an
    * existing spill slot, or else a fresh one put at the front of the slot list. */
  function Step(g: InterferenceGraph, pre: map<Temp, nat>, palette: seq<Color>, st: Alloc, t: Temp): Alloc {
    var reg := TryColor(g, pre, st.colorMap, t, palette);
    if reg.Some? then st.(colorMap := st.colorMap[t := reg.value])
    else
      var spilled := st.spilled + [t];
      var slot := TryColor(g, pre, st.colorMap, t, st.spillColors);
      if slot.Some? then Alloc(st.colorMap[t := slot.value], spilled, st.spillColors)
      else
        var newSlot := Spill(|st.spillColors|);
        Alloc(st.colorMap[t := newSlot], spilled, [newSlot] + st.spillColors)
  }

  /** `color(toColor)`: one step per temp, head of the list first. */
  function ColorAll(g: InterferenceGraph, pre: map<Temp, nat>, palette: seq<Color>, st: Alloc, ts: seq<Temp>): Alloc
    decreases |ts|
  {
    if ts == [] then st else ColorAll(g, pre, palette, Step(g, pre, palette, st, ts[0]), ts[1..])
  }

  /** `FirstOK` returns the first acceptable colour of the list, and None only when no colour
    * of the list is acceptable. */
  lemma {:induction false} FirstOKIsFirst(g: InterferenceGraph, pre: map<Temp, nat>, colorMap: map<Temp, Color>, t: Temp, colors: seq<Color>)
    ensures var r := FirstOK(g, pre, colorMap, t, colors);
      && (r.None? <==> forall i :: 0 <= i < |colors| ==> !ColorOK(g, pre, colorMap, t, colors[i]))
      && (r.Some? ==> exists i :: 0 <= i < |colors| && colors[i] == r.value
                        && ColorOK(g, pre, colorMap, t, colors[i])
                        && forall j :: 0 <= j < i ==> !ColorOK(g, pre, colorMap, t, colors[j]))
  {
    if colors != [] && !ColorOK(g, pre, colorMap, t, colors[0]) {
      FirstOKIsFirst(g, pre, colorMap, t, colors[1..]);
      var r := FirstOK(g, pre, colorMap, t, colors[1..]);
      if r.Some? {
        var i :| 0 <= i < |colors[1..]| && colors[1..][i] == r.value
                 && ColorOK(g, pre, colorMap, t, colors[1..][i])
                 && forall j :: 0 <= j < i ==> !ColorOK(g, pre, colorMap, t, colors[1..][j]);
        assert colors[i + 1] == r.value;
        forall j | 0 <= j < i + 1 ensures !ColorOK(g, pre, colorMap, t, colors[j]) {
          if j > 0 { assert colors[j] == colors[1..][j - 1]; }
        }
      } else {
        forall i | 0 <= i < |colors| ensures !ColorOK(g, pre, colorMap, t, colors[i]) {
          if i > 0 { assert colors[i] == colors[1..][i - 1]; }
        }
      }
    }
  }

  /** A move offers t a colour only if some recorded move joins t to a partner that has that
    * colour, and the offered colour is acceptable. */
  lemma {:induction false} MoveColorSound(g: InterferenceGraph, pre: map<Temp, nat>, colorMap: map<Temp, Color>, t: Temp, moves: seq<Move>)
    ensures var r := MoveColor(g, pre, colorMap, t, moves);
      r.Some? ==> (ColorOK(g, pre, colorMap, t, r.value)
        && exists m :: m in moves && ((m.dst == t && ColorOf(pre, colorMap, m.src) == r)
                                      || (m.src == t && ColorOf(pre, colorMap, m.dst) == r)))
  {
    if moves != [] {
      var c := MoveCandidate(pre, colorMap, t, moves[0]);
      if !(c.Some? && ColorOK(g, pre, colorMap, t, c.value)) {
        MoveColorSound(g, pre, colorMap, t, moves[1..]);
        var r := MoveColor(g, pre, colorMap, t, moves);
        if r.Some? {
          var m :| m in moves[1..] && ((m.dst == t && ColorOf(pre, colorMap, m.src) == r)
                                       || (m.src == t && ColorOf(pre, colorMap, m.dst) == r));
          assert m in moves;
        }
      }
    }
  }

  /** Move m offers t a colour that is acceptable for t. */
  predicate Offers(g: InterferenceGraph, pre: map<Temp, nat>, colorMap: map<Temp, Color>, t: Temp, m: Move) {
    var c := MoveCandidate(pre, colorMap, t, m);
    c.Some? && ColorOK(g, pre, colorMap, t, c.value)
  }

  /** The move loop takes the colour of the first move, in move order, that offers an acceptable
    * colour, and finds none only when no move does. */
  lemma {:induction false} MoveColorIsFirst(g: InterferenceGraph, pre: map<Temp, nat>, colorMap: map<Temp, Color>, t: Temp, moves: seq<Move>)
    ensures var r := MoveColor(g, pre, colorMap, t, moves);
      && (r.None? <==> forall i :: 0 <= i < |moves| ==> !Offers(g, pre, colorMap, t, moves[i]))
      && (r.Some? ==> exists i :: 0 <= i < |moves| && Offers(g, pre, colorMap, t, moves[i])
                        && r == MoveCandidate(pre, colorMap, t, moves[i])
                        && forall j :: 0 <= j < i ==> !Offers(g, pre, colorMap, t, moves[j]))
  {
    if moves != [] && !Offers(g, pre, colorMap, t, moves[0]) {
      MoveColorIsFirst(g, pre, colorMap, t, moves[1..]);
      var r := MoveColor(g, pre, colorMap, t, moves[1..]);
      if r.Some? {
        var i :| 0 <= i < |moves[1..]| && Offers(g, pre, colorMap, t, moves[1..][i])
                 && r == MoveCandidate(pre, colorMap, t, moves[1..][i])
                 && forall j :: 0 <= j < i ==> !Offers(g, pre, colorMap, t, moves[1..][j]);
        assert moves[i + 1] == moves[1..][i];
        forall j | 0 <= j < i + 1 ensures !Offers(g, pre, colorMap, t, moves[j]) {
          if j > 0 { assert moves[j] == moves[1..][j - 1]; }
        }
      } else {
        forall i | 0 <= i < |moves| ensures !Offers(g, pre, colorMap, t, moves[i]) {
          if i > 0 { assert moves[i] == moves[1..][i - 1]; }
        }
      }
    }
  }

  /** `tryToColor` prefers a move partner's colour, and fails exactly when no move offers an
    * acceptable colour and no colour of the list is acceptable. */
  lemma TryColorOrder(g: InterferenceGraph, pre: map<Temp, nat>, colorMap: map<Temp, Color>, t: Temp, colors: seq<Color>)
    ensures MoveColor(g, pre, colorMap, t, g.moves).Some? ==>
      TryColor(g, pre, colorMap, t, colors) == MoveColor(g, pre, colorMap, t, g.moves)
    ensures TryColor(g, pre, colorMap, t, colors).None? <==>
      && (forall i :: 0 <= i < |g.moves| ==> !Offers(g, pre, colorMap, t, g.moves[i]))
      && (forall i :: 0 <= i < |colors| ==> !ColorOK(g, pre, colorMap, t, colors[i]))
  {
    MoveColorIsFirst(g, pre, colorMap, t, g.moves);
    FirstOKIsFirst(g, pre, colorMap, t, colors);
  }

  /** Whatever colour `tryToColor` picks is acceptable: no neighbour already has it. */
  lemma TryColorIsOK(g: InterferenceGraph, pre: map<Temp, nat>, colorMap: map<Temp, Color>, t: Temp, colors: seq<Color>)
    ensures var r := TryColor(g, pre, colorMap, t, colors);
      r.Some? ==> ColorOK(g, pre, colorMap, t, r.value)
  {
    MoveColorSound(g, pre, colorMap, t, g.moves);
    FirstOKIsFirst(g, pre, colorMap, t, colors);
  }

  /** The spill slots created so far are Spill(n-1), ..., Spill(0), newest first. */
  predicate SlotsNumbered(spillColors: seq<Color>) {
    forall i :: 0 <= i < |spillColors| ==> spillColors[i] == Spill(|spillColors| - 1 - i)
  }

  /** The invariant the colouring keeps: coloured temps are not precoloured, every spill colour
    * in use is one of the created slots, the palette holds only registers, and no edge with a
    * colour-map end joins two temps of the same colour. */
  predicate Inv(g: InterferenceGraph, pre: map<Temp, nat>, palette: seq<Color>, st: Alloc) {
    && SlotsNumbered(st.spillColors)
    && (forall c :: c in palette ==> c.Register?)
    && (forall t :: t in st.colorMap ==> t !in pre)
    && (forall t :: t in st.colorMap && st.colorMap[t].Spill? ==> st.colorMap[t].slot < |st.spillColors|)
    && (forall t, u :: t in st.colorMap && u in Succ(g, t) && ColorOf(pre, st.colorMap, u).Some?
          ==> ColorOf(pre, st.colorMap, u) != Some(st.colorMap[t]))
  }

  /** A colour offered by a move is a register or one of the spill slots created so far. */
  lemma MoveColorInSlots(g: InterferenceGraph, pre: map<Temp, nat>, palette: seq<Color>, st: Alloc, t: Temp)
    requires Inv(g, pre, palette, st)
    ensures var r := MoveColor(g, pre, st.colorMap, t, g.moves);
      r.Some? && r.value.Spill? ==> r.value.slot < |st.spillColors|
  {
    MoveColorSound(g, pre, st.colorMap, t, g.moves);
  }

  /** A brand-new spill slot is acceptable for any temp. */
  lemma FreshSlotIsOK(g: InterferenceGraph, pre: map<Temp, nat>, palette: seq<Color>, st: Alloc, t: Temp)
    requires Inv(g, pre, palette, st)
    ensures ColorOK(g, pre, st.colorMap, t, Spill(|st.spillColors|))
  {
  }

  /** A spill slot reused from the slot list is a spill colour. */
  lemma {:induction false} FirstOKFromSlots(g: InterferenceGraph, pre: map<Temp, nat>, colorMap: map<Temp, Color>, t: Temp, slots: seq<Color>)
    requires SlotsNumbered(slots)
    ensures var r := FirstOK(g, pre, colorMap, t, slots);
      r.Some? ==> r.value.Spill? && r.value.slot < |slots|
  {
    FirstOKIsFirst(g, pre, colorMap, t, slots);
  }

  /** One step keeps the invariant, colours exactly t, and records t as spilled exactly when
    * register colouring failed; a spilled t always ends in a spill slot. */
  lemma StepKeepsInv(g: InterferenceGraph, pre: map<Temp, nat>, palette: seq<Color>, st: Alloc, t: Temp)
    requires WellFormed(g) && Inv(g, pre, palette, st)
    requires t in g.adj && t !in pre && t !in st.colorMap
    ensures var st' := Step(g, pre, palette, st, t);
      && Inv(g, pre, palette, st')
      && st'.colorMap.Keys == st.colorMap.Keys + {t}
      && (forall u :: u in st.colorMap ==> st'.colorMap[u] == st.colorMap[u])
      && st'.spilled == st.spilled + (if TryColor(g, pre, st.colorMap, t, palette).None? then [t] else [])
      && (TryColor(g, pre, st.colorMap, t, palette).None? ==> st'.colorMap[t].Spill?)
  {
    var st' := Step(g, pre, palette, st, t);
    var reg := TryColor(g, pre, st.colorMap, t, palette);
    var c := st'.colorMap[t];
    TryColorIsOK(g, pre, st.colorMap, t, palette);
    TryColorIsOK(g, pre, st.colorMap, t, st.spillColors);
    if reg.None? {
      assert MoveColor(g, pre, st.colorMap, t, g.moves).None?;
      FirstOKFromSlots(g, pre, st.colorMap, t, st.spillColors);
    } else {
      assert c == reg.value;
      var m := MoveColor(g, pre, st.colorMap, t, g.moves);
      if m.Some? {
        MoveColorInSlots(g, pre, palette, st, t);
      } else {
        FirstOKIsFirst(g, pre, st.colorMap, t, palette);
        assert c in palette;
      }
    }
    assert ColorOK(g, pre, st.colorMap, t, c);
    assert c.Spill? ==> c.slot < |st'.spillColors|;
    forall a, b | a in st'.colorMap && b in Succ(g, a) && ColorOf(pre, st'.colorMap, b).Some?
      ensures ColorOf(pre, st'.colorMap, b) != Some(st'.colorMap[a])
    {
      if a == t {
        assert b != t;
        assert ColorOf(pre, st'.colorMap, b) == ColorOf(pre, st.colorMap, b);
      } else if b == t {
        assert a in Succ(g, t);
      } else {
        assert ColorOf(pre, st'.colorMap, b) == ColorOf(pre, st.colorMap, b);
      }
    }
  }

  /** Colouring a list of uncoloured temps keeps the invariant, colours exactly those temps and
    * leaves every earlier colour as it was. */
  lemma {:induction false} ColorAllKeepsInv(g: InterferenceGraph, pre: map<Temp, nat>, palette: seq<Color>, st: Alloc, ts: seq<Temp>)
    requires WellFormed(g) && Inv(g, pre, palette, st) && Distinct(ts)
    requires forall t :: t in ts ==> t in g.adj && t !in pre && t !in st.colorMap
    ensures var st' := ColorAll(g, pre, palette, st, ts);
      && Inv(g, pre, palette, st')
      && st'.colorMap.Keys == st.colorMap.Keys + (set t | t in ts)
      && (forall u :: u in st.colorMap ==> st'.colorMap[u] == st.colorMap[u])
    decreases |ts|
  {
    if ts != [] {
      var t := ts[0];
      var mid := Step(g, pre, palette, st, t);
      StepKeepsInv(g, pre, palette, st, t);
      TailDistinct(ts);
      ColorAllKeepsInv(g, pre, palette, mid, ts[1..]);
      assert (set u | u in ts) == {t} + (set u | u in ts[1..]);
    }
  }

  /** The tail of a list without repetitions has none and lacks the head. */
  lemma TailDistinct(ts: seq<Temp>)
    requires Distinct(ts) && ts != []
    ensures Distinct(ts[1..]) && ts[0] !in ts[1..]
    ensures forall u :: u in ts[1..] ==> u in ts
  {
    var tail := ts[1..];
    forall i, j | 0 <= i < j < |tail| ensures tail[i] != tail[j] {
      assert tail[i] == ts[i + 1] && tail[j] == ts[j + 1];
    }
    forall i | 0 <= i < |tail| ensures tail[i] != ts[0] {
      assert tail[i] == ts[i + 1];
    }
  }

  /** Colouring a list extends `spilled` by temps of the list only, and each of them ends in a
    * spill slot. */
  lemma {:induction false} ColorAllSpills(g: InterferenceGraph, pre: map<Temp, nat>, palette: seq<Color>, st: Alloc, ts: seq<Temp>)
    requires WellFormed(g) && Inv(g, pre, palette, st) && Distinct(ts)
    requires forall t :: t in ts ==> t in g.adj && t !in pre && t !in st.colorMap
    ensures var st' := ColorAll(g, pre, palette, st, ts);
      && |st.spilled| <= |st'.spilled|
      && st'.spilled[..|st.spilled|] == st.spilled
      && (forall i :: |st.spilled| <= i < |st'.spilled| ==>
            st'.spilled[i] in ts && st'.spilled[i] in st'.colorMap && st'.colorMap[st'.spilled[i]].Spill?)
    decreases |ts|
  {
    if ts != [] {
      var t := ts[0];
      var mid := Step(g, pre, palette, st, t);
      StepKeepsInv(g, pre, palette, st, t);
      TailDistinct(ts);
      ColorAllSpills(g, pre, palette, mid, ts[1..]);
      ColorAllKeepsInv(g, pre, palette, mid, ts[1..]);
      var st' := ColorAll(g, pre, palette, mid, ts[1..]);
      assert st' == ColorAll(g, pre, palette, st, ts);
      assert st'.spilled[..|mid.spilled|][..|st.spilled|] == st'.spilled[..|st.spilled|];
      forall i | |st.spilled| <= i < |st'.spilled|
        ensures st'.spilled[i] in ts && st'.spilled[i] in st'.colorMap && st'.colorMap[st'.spilled[i]].Spill?
      {
        if i < |mid.spilled| {
          assert st'.spilled[i] == st'.spilled[..|mid.spilled|][i] == mid.spilled[i] == t;
        }
      }
    }
  }

  /** The colours of the register temps, in register order. */
  function Palette(pre: map<Temp, nat>, registers: seq<Temp>): (r: seq<Color>)
    requires forall t :: t in registers ==> t in pre
    ensures |r| == |registers|
    ensures forall i :: 0 <= i < |r| ==> r[i] == Register(pre[registers[i]])
  {
    if registers == [] then [] else [Register(pre[registers[0]])] + Palette(pre, registers[1..])
  }

  /** A proper colouring of the whole graph: every node has a colour, and the two ends of every
    * edge that is not between two precoloured temps have different colours. */
  predicate ProperColoring(g: InterferenceGraph, pre: map<Temp, nat>, colorMap: map<Temp, Color>) {
    && (forall t :: t in g.nodes ==> ColorOf(pre, colorMap, t).Some?)
    && (forall t, u :: t in g.adj && u in g.adj[t] && !(t in pre && u in pre)
          ==> ColorOf(pre, colorMap, t) != ColorOf(pre, colorMap, u))
  }

  /** The end result of the allocator: simplify, then colour the elimination order. */
  function Allocate(g: InterferenceGraph, pre: map<Temp, nat>, registers: seq<Temp>): Alloc
    requires forall t :: t in registers ==> t in pre
  {
    ColorAll(g, pre, Palette(pre, registers), Alloc(map[], [], []),
             Elimination(g, Uncolored(g.nodes, pre, map[]), |registers|))
  }

  /** An invariant-keeping state that colours every node without a precolour is a proper
    * colouring of the graph. */
  lemma InvGivesProper(g: InterferenceGraph, pre: map<Temp, nat>, palette: seq<Color>, st: Alloc)
    requires WellFormed(g) && Inv(g, pre, palette, st)
    requires forall t :: t in g.nodes && t !in pre ==> t in st.colorMap
    ensures ProperColoring(g, pre, st.colorMap)
  {
    forall t, u | t in g.adj && u in g.adj[t] && !(t in pre && u in pre)
      ensures ColorOf(pre, st.colorMap, t) != ColorOf(pre, st.colorMap, u)
    {
      if t in st.colorMap {
        assert u in Succ(g, t);
      } else {
        assert u in g.nodes && u in st.colorMap;
        assert t in Succ(g, u);
      }
    }
  }

  /** The allocation colours every node, and colours the ends of every edge differently unless
    * both are precoloured; the colour map holds exactly the nodes without a precolour; every
    * spilled temp is such a node and sits in a spill slot. */
  lemma AllocateIsProper(g: InterferenceGraph, pre: map<Temp, nat>, registers: seq<Temp>)
    requires WellFormed(g) && forall t :: t in registers ==> t in pre
    ensures var st := Allocate(g, pre, registers);
      && ProperColoring(g, pre, st.colorMap)
      && (forall t :: t in st.colorMap <==> t in g.nodes && t !in pre)
      && (forall t :: t in st.spilled ==> t in g.nodes && t !in pre && st.colorMap[t].Spill?)
  {
    AllocateKeepsInv(g, pre, registers);
    AllocateSpills(g, pre, registers);
    InvGivesProper(g, pre, Palette(pre, registers), Allocate(g, pre, registers));
  }

  /** The allocation keeps the colouring invariant and colours exactly the nodes without a
    * precolour. */
  lemma AllocateKeepsInv(g: InterferenceGraph, pre: map<Temp, nat>, registers: seq<Temp>)
    requires WellFormed(g) && forall t :: t in registers ==> t in pre
    ensures var st := Allocate(g, pre, registers);
      && Inv(g, pre, Palette(pre, registers), st)
      && (forall t :: t in st.colorMap <==> t in g.nodes && t !in pre)
  {
    var palette := Palette(pre, registers);
    var ordering := Elimination(g, Uncolored(g.nodes, pre, map[]), |registers|);
    var st0 := Alloc(map[], [], []);
    SimplifyOrdersUncolored(g, pre, |registers|);
    assert Inv(g, pre, palette, st0);
    ColorAllKeepsInv(g, pre, palette, st0, ordering);
    var st := ColorAll(g, pre, palette, st0, ordering);
    assert st == Allocate(g, pre, registers);
    forall t ensures t in st.colorMap <==> t in g.nodes && t !in pre {
      assert t in st.colorMap <==> t in (set u | u in ordering);
    }
  }

  /** Every temp the allocation spills is a node without a precolour and sits in a spill slot. */
  lemma AllocateSpills(g: InterferenceGraph, pre: map<Temp, nat>, registers: seq<Temp>)
    requires WellFormed(g) && forall t :: t in registers ==> t in pre
    ensures var st := Allocate(g, pre, registers);
      forall t :: t in st.spilled ==> t in g.nodes && t !in pre && t in st.colorMap && st.colorMap[t].Spill?
  {
    var palette := Palette(pre, registers);
    var ordering := Elimination(g, Uncolored(g.nodes, pre, map[]), |registers|);
    var st0 := Alloc(map[], [], []);
    SimplifyOrdersUncolored(g, pre, |registers|);
    assert Inv(g, pre, palette, st0);
    ColorAllSpills(g, pre, palette, st0, ordering);
    var st := Allocate(g, pre, registers);
    assert st == ColorAll(g, pre, palette, st0, ordering);
    forall t | t in st.spilled ensures t in g.nodes && t !in pre && st.colorMap[t].Spill? {
      var i :| 0 <= i < |st.spilled| && st.spilled[i] == t;
    }
  }


  /** The allocator object; `ig` is the graph the current phase works on, `graph` the graph
    * `build()` constructs from the procedure body each time it runs. */
  class SimpleRegAlloc {
    const graph: InterferenceGraph
    const pre: map<Temp, nat>
    const registers: seq<Temp>
    var ig: InterferenceGraph
    var colors: seq<Color>
    var colorMap: map<Temp, Color>
    var spilled: seq<Temp>
    var spillColors: seq<Color>

    /** The colouring state as a value. */
    function State(): Alloc
      reads this`colorMap, this`spilled, this`spillColors
    {
      Alloc(colorMap, spilled, spillColors)
    }

    /** Runs the whole allocation: build, simplify, build again, colour the elimination order. */
    constructor (g: InterferenceGraph, precolors: map<Temp, nat>, regs: seq<Temp>)
      requires WellFormed(g)
      requires forall t :: t in regs ==> t in precolors
      ensures graph == g && pre == precolors && registers == regs
      ensures colors == Palette(pre, registers)
      ensures State() == Allocate(graph, pre, registers)
      ensures ProperColoring(graph, pre, colorMap)
      ensures forall t :: t in colorMap <==> t in graph.nodes && t !in pre
      ensures forall t :: t in spilled ==> t in graph.nodes && t !in pre && colorMap[t].Spill?
    {
      graph := g;
      pre := precolors;
      registers := regs;
      ig := g;
      colors := [];
      colorMap := map[];
      spilled := [];
      spillColors := [];
      new;
      for i := 0 to |registers|
        invariant ig == graph && colorMap == map[] && spilled == [] && spillColors == []
        invariant |colors| == i
        invariant forall j :: 0 <= j < i ==> colors[j] == Register(pre[registers[j]])
      {
        colors := colors + [Register(pre[registers[i]])];
      }
      assert colors == Palette(pre, registers);
      ghost var st0 := State();
      assert st0 == Alloc(map[], [], []);
      Build();
      var ordering := Simplify();
      assert ordering == Elimination(graph, Uncolored(graph.nodes, pre, map[]), |registers|);
      Build();
      SimplifyOrdersUncolored(graph, pre, |registers|);
      assert State() == st0;
      Color(ordering);
      assert State() == ColorAll(graph, pre, colors, st0, ordering);
      AllocateIsProper(graph, pre, registers);
    }

    /** Builds the interference graph of the procedure body afresh. */
    method Build()
      modifies this`ig
      ensures ig == graph
    {
      ig := graph;
    }

    /** The colour of t: its precolour whenever it has one, otherwise its colour-map entry. */
    function GetColor(t: Temp): (r: Option<Color>)
      reads this`colorMap
      ensures t in pre ==> r == Some(Register(pre[t]))
      ensures t !in pre ==> r == Get(colorMap, t)
    {
      ColorOf(pre, colorMap, t)
    }

    /** Whether t already has a colour. */
    function IsColored(t: Temp): (r: bool)
      reads this`colorMap
      ensures r <==> t in pre || t in colorMap
    {
      GetColor(t).Some?
    }

    /** Records colour c for t, which must not have a colour yet. */
    method SetColor(t: Temp, c: Color)
      requires GetColor(t).None?
      modifies this`colorMap
      ensures colorMap == old(colorMap)[t := c]
    {
      colorMap := colorMap[t := c];
    }

    /** Whether no neighbour of t in the current graph has colour c. */
    method IsColorOK(t: Temp, c: Color) returns (ok: bool)
      ensures ok == ColorOK(ig, pre, colorMap, t, c)
    {
      var rest := Succ(ig, t);
      while rest != {}
        invariant rest <= Succ(ig, t)
        invariant forall u :: u in Succ(ig, t) && u !in rest ==> ColorOf(pre, colorMap, u) != Some(c)
        decreases rest
      {
        var u :| u in rest;
        if Some(c) == GetColor(u) {
          return false;
        }
        rest := rest - {u};
      }
      return true;
    }

    /** Takes uncoloured temps out of the graph one per pass, each time the first with fewer
      * than |registers| neighbours or else the last, and returns them, last removed first. */
    method Simplify() returns (ordering: seq<Temp>)
      requires Distinct(ig.nodes)
      modifies this`ig
      ensures ordering == Elimination(old(ig), Uncolored(old(ig).nodes, pre, colorMap), |registers|)
      ensures ig == Residue(old(ig), Uncolored(old(ig).nodes, pre, colorMap), |registers|)
    {
      var k := |registers|;
      var toColor := UncoloredNodes();
      ordering := [];
      ghost var g0 := ig;
      ghost var tc0 := toColor;
      assert g0 == old(ig);
      while |toColor| > 0
        invariant Distinct(toColor)
        invariant Elimination(g0, tc0, k) == Elimination(ig, toColor, k) + ordering
        invariant Residue(g0, tc0, k) == Residue(ig, toColor, k)
        decreases |toColor|
      {
        ghost var before := Elimination(ig, toColor, k);
        var node;
        toColor, node := SimplifyPass(toColor);
        ghost var after := Elimination(ig, toColor, k);
        ConcatAssoc(after, [node], ordering);
        ordering := [node] + ordering;
      }
      assert Elimination(ig, toColor, k) == [];
      assert Elimination(g0, tc0, k) == [] + ordering == ordering;
      assert Residue(ig, toColor, k) == ig;
    }

    /** The nodes of the current graph that have no colour yet, in node order. */
    method UncoloredNodes() returns (toColor: seq<Temp>)
      ensures toColor == Uncolored(ig.nodes, pre, colorMap)
    {
      toColor := [];
      var nodes := ig.nodes;
      for i := 0 to |nodes|
        invariant toColor == Uncolored(nodes[..i], pre, colorMap)
      {
        UncoloredSnoc(nodes[..i], nodes[i], pre, colorMap);
        assert nodes[..i + 1] == nodes[..i] + [nodes[i]];
        if !IsColored(nodes[i]) {
          toColor := toColor + [nodes[i]];
        }
      }
      assert nodes[..|nodes|] == nodes;
    }

    /** One pass of simplify: takes the picked temp out of the list and the graph. */
    method SimplifyPass(toColor: seq<Temp>) returns (rest: seq<Temp>, node: Temp)
      requires |toColor| > 0 && Distinct(toColor)
      modifies this`ig
      ensures Distinct(rest) && |rest| < |toColor|
      ensures node == toColor[Pick(old(ig), toColor, |registers|)]
      ensures rest == Delete(toColor, node)
      ensures ig == RemoveNode(old(ig), node)
      ensures Elimination(old(ig), toColor, |registers|) == Elimination(ig, rest, |registers|) + [node]
    {
      var j := ScanPass(toColor);
      node := toColor[j];
      EliminationStep(ig, toColor, |registers|);
      DeleteDistinct(toColor, node);
      rest := Delete(toColor, node);
      ig := RemoveNode(ig, node);
    }

    /** The scan of one simplify pass: the position of the first temp with fewer than
      * |registers| neighbours, or else of the last temp. */
    method ScanPass(pass: seq<Temp>) returns (j: nat)
      requires |pass| > 0 && Distinct(pass)
      ensures j == Pick(ig, pass, |registers|)
    {
      var k := |registers|;
      ghost var low := FirstLowDegree(ig, pass, k);
      j := 0;
      while Degree(ig, pass[j]) >= k && pass[j] != pass[|pass| - 1]
        invariant 0 <= j < |pass| && j <= low
        decreases |pass| - j
      {
        j := j + 1;
      }
      if Degree(ig, pass[j]) >= k {
        DistinctLast(pass, j);
      }
    }

    /** Colours t from a move partner, else from `cands`; reports whether it did. */
    method TryToColor(t: Temp, cands: seq<Color>) returns (success: bool)
      requires GetColor(t).None?
      modifies this`colorMap
      ensures var r := TryColor(ig, pre, old(colorMap), t, cands);
        && success == r.Some?
        && colorMap == if r.Some? then old(colorMap)[t := r.value] else old(colorMap)
    {
      var moves := ig.moves;
      for i := 0 to |moves|
        invariant colorMap == old(colorMap)
        invariant MoveColor(ig, pre, colorMap, t, moves) == MoveColor(ig, pre, colorMap, t, moves[i..])
      {
        var move := moves[i];
        assert moves[i..][1..] == moves[i + 1..];
        if t == move.dst && GetColor(move.src).Some? {
          var ok := IsColorOK(t, GetColor(move.src).value);
          if ok {
            SetColor(t, GetColor(move.src).value);
            return true;
          }
        } else if t == move.src && GetColor(move.dst).Some? {
          var ok := IsColorOK(t, GetColor(move.dst).value);
          if ok {
            SetColor(t, GetColor(move.dst).value);
            return true;
          }
        }
      }
      for i := 0 to |cands|
        invariant colorMap == old(colorMap)
        invariant FirstOK(ig, pre, colorMap, t, cands) == FirstOK(ig, pre, colorMap, t, cands[i..])
      {
        assert cands[i..][1..] == cands[i + 1..];
        var ok := IsColorOK(t, cands[i]);
        if ok {
          SetColor(t, cands[i]);
          return true;
        }
      }
      return false;
    }

    /** Colours the temps of `toColor`, head first. */
    method Color(toColor: seq<Temp>)
      requires Distinct(toColor)
      requires forall t :: t in toColor ==> GetColor(t).None?
      modifies this`colorMap, this`spilled, this`spillColors
      ensures State() == ColorAll(ig, pre, colors, old(State()), toColor)
      decreases |toColor|
    {
      if |toColor| == 0 {
        return;
      }
      var t := toColor[0];
      var success := TryToColor(t, colors);
      if !success {
        spilled := spilled + [t];
        success := TryToColor(t, spillColors);
      }
      if !success {
        var color := Spill(|spillColors|);
        spillColors := [color] + spillColors;
        SetColor(t, color);
      }
      assert State() == Step(ig, pre, colors, old(State()), t);
      TailDistinct(toColor);
      assert colorMap.Keys == old(colorMap).Keys + {t};
      Color(toColor[1..]);
    }
  }

  /** One pass of the elimination: the picked temp goes last, after the order of what remains. */
  lemma EliminationStep(g: InterferenceGraph, tc: seq<Temp>, k: nat)
    requires |tc| > 0
    ensures var n := tc[Pick(g, tc, k)];
      Elimination(g, tc, k) == Elimination(RemoveNode(g, n), Delete(tc, n), k) + [n]
  {
  }

  /** Concatenation of temp lists is associative; a hint for the solver, not a property of
    * the allocator. */
  lemma ConcatAssoc(a: seq<Temp>, b: seq<Temp>, c: seq<Temp>)
    ensures (a + b) + c == a + (b + c)
  {
  }

  /** In a list without repetitions only the last position holds the last element. */
  lemma DistinctLast(s: seq<Temp>, j: nat)
    requires Distinct(s) && j < |s| && s[j] == s[|s| - 1]
    ensures j == |s| - 1
  {
  }

  /** Extending the scanned prefix by one node extends the uncoloured list accordingly. */
  lemma {:induction false} UncoloredSnoc(s: seq<Temp>, x: Temp, pre: map<Temp, nat>, colorMap: map<Temp, Color>)
    ensures Uncolored(s + [x], pre, colorMap)
      == Uncolored(s, pre, colorMap) + (if ColorOf(pre, colorMap, x).None? then [x] else [])
  {
    if s != [] {
      assert (s + [x])[1..] == s[1..] + [x];
      UncoloredSnoc(s[1..], x, pre, colorMap);
    } else {
      assert Uncolored([x][1..], pre, colorMap) == [];
    }
  }

}
