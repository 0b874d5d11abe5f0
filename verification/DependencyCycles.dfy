/**
 Cycle detection on the package graph: a depth-first visit that reports a cycle for every edge back to a package
 on the stack.  Everything it reports is a cycle, and every cycle of the graph shares an edge with a reported one.
 */
module DependencyCycles {
  import opened StringOrder

  /** Each package with its sorted list of imported packages. */
  type Graph = map<string, seq<string>>

  ghost predicate Closed(graph: Graph) {
    forall name | name in graph :: forall target | target in graph[name] :: target in graph
  }

  predicate Edge(graph: Graph, source: string, target: string) {
    source in graph && target in graph[source]
  }

  ghost predicate IsPath(graph: Graph, nodes: seq<string>) {
    forall i | 0 <= i < |nodes| - 1 :: Edge(graph, nodes[i], nodes[i + 1])
  }

  /** A closed walk: the first package is repeated at the end. */
  ghost predicate IsCycle(graph: Graph, cycle: seq<string>) {
    |cycle| >= 2 && cycle[0] == cycle[|cycle| - 1] && IsPath(graph, cycle)
  }

  // ----- the key of a cycle

  const ARROW := " -> "

  function Join(nodes: seq<string>): string {
    if nodes == [] then "" else if |nodes| == 1 then nodes[0] else nodes[0] + ARROW + Join(nodes[1..])
  }

  function Rotate(nodes: seq<string>, k: nat): (rotated: seq<string>)
    requires k <= |nodes|
    ensures |rotated| == |nodes|
  {
    nodes[k..] + nodes[..k]
  }

  /** The first of the strings in sorted order. */
  function First(strings: seq<string>): (first: string)
    requires strings != []
  {
    if |strings| == 1 then strings[0]
    else
      var rest := First(strings[1..]);
      if Leq(strings[0], rest) then strings[0] else rest
  }

  lemma {:induction false} FirstIsLeast(strings: seq<string>)
    requires strings != []
    ensures First(strings) in strings && forall s | s in strings :: Leq(First(strings), s)
  {
    LeqTotal(strings[0], strings[0]);
    if |strings| > 1 {
      FirstIsLeast(strings[1..]);
      var rest := First(strings[1..]);
      LeqTotal(strings[0], rest);
      forall s | s in strings ensures Leq(First(strings), s) {
        if s != strings[0] {
          assert s in strings[1..];
          if Leq(strings[0], rest) { LeqTransitive(strings[0], rest, s); }
        }
      }
    }
  }

  function Rotations(nodes: seq<string>): (joined: seq<string>)
    ensures |joined| == |nodes|
  {
    seq(|nodes|, k requires 0 <= k < |nodes| => Join(Rotate(nodes, k)))
  }

  /** The key under which a closed walk is reported. */
  function CanonicalCycle(cycle: seq<string>): string
    requires |cycle| >= 2
  {
    First(Rotations(cycle[..|cycle| - 1]))
  }

  /** The closed walk that starts `k` packages further on. */
  function RotateCycle(cycle: seq<string>, k: nat): (rotated: seq<string>)
    requires |cycle| >= 2 && k < |cycle| - 1
    ensures |rotated| == |cycle|
  {
    Rotate(cycle[..|cycle| - 1], k) + [cycle[k]]
  }

  lemma RotateTwice(nodes: seq<string>, j: nat, k: nat)
    requires j < |nodes| && k < |nodes|
    ensures var sum: nat := if j + k < |nodes| then j + k else j + k - |nodes|;
      sum < |nodes| && Rotate(Rotate(nodes, j), k) == Rotate(nodes, sum)
  {
  }

  /** Every rotation of the rotated nodes is a rotation of the nodes. */
  lemma RotationsWithin(nodes: seq<string>, j: nat)
    requires j < |nodes|
    ensures forall s | s in Rotations(Rotate(nodes, j)) :: s in Rotations(nodes)
  {
    forall s | s in Rotations(Rotate(nodes, j)) ensures s in Rotations(nodes) {
      var k :| 0 <= k < |nodes| && Rotations(Rotate(nodes, j))[k] == s;
      RotateTwice(nodes, j, k);
      var sum := if j + k < |nodes| then j + k else j + k - |nodes|;
      assert Rotations(nodes)[sum] == s;
    }
  }

  lemma SameRotationsSameFirst(left: seq<string>, right: seq<string>)
    requires left != [] && right != []
    requires (forall s | s in left :: s in right) && (forall s | s in right :: s in left)
    ensures First(left) == First(right)
  {
    FirstIsLeast(left);
    FirstIsLeast(right);
    LeqAntisymmetric(First(left), First(right));
  }

  /** All rotations of a cycle have one key, so a cycle is reported once wherever the visit enters it. */
  lemma RotationsShareKey(cycle: seq<string>, k: nat)
    requires |cycle| >= 2 && k < |cycle| - 1
    ensures CanonicalCycle(RotateCycle(cycle, k)) == CanonicalCycle(cycle)
  {
    var nodes := cycle[..|cycle| - 1];
    var rotated := Rotate(nodes, k);
    assert RotateCycle(cycle, k)[..|cycle| - 1] == rotated;
    RotationsWithin(nodes, k);
    var back := if k == 0 then 0 else |nodes| - k;
    RotateTwice(nodes, k, back);
    assert Rotate(rotated, back) == nodes;
    RotationsWithin(rotated, back);
    SameRotationsSameFirst(Rotations(rotated), Rotations(nodes));
  }

  ghost predicate NoSpaces(nodes: seq<string>) {
    forall i | 0 <= i < |nodes| :: ' ' !in nodes[i]
  }

  /** Names without spaces can be read back from a joined list. */
  lemma {:induction false} JoinInjective(left: seq<string>, right: seq<string>)
    requires left != [] && right != [] && NoSpaces(left) && NoSpaces(right) && Join(left) == Join(right)
    ensures left == right
    decreases |left|
  {
    FirstNameAgrees(left, right);
    FirstNameAgrees(right, left);
    assert left[0] == right[0];
    JoinStart(left);
    JoinStart(right);
    if |left| > 1 && |right| > 1 {
      var x := left[0];
      assert Join(left) == x + (ARROW + Join(left[1..])) && Join(right) == x + (ARROW + Join(right[1..]));
      assert Join(left)[|x| + 4..] == Join(left[1..]) && Join(right)[|x| + 4..] == Join(right[1..]);
      JoinInjective(left[1..], right[1..]);
      assert left == [x] + left[1..] && right == [x] + right[1..];
    }
  }

  /** Only a space can follow the first name. */
  lemma JoinStart(nodes: seq<string>)
    requires nodes != []
    ensures |Join(nodes)| >= |nodes[0]| && Join(nodes)[..|nodes[0]|] == nodes[0]
    ensures |Join(nodes)| == |nodes[0]| <==> |nodes| == 1
    ensures |Join(nodes)| > |nodes[0]| ==> Join(nodes)[|nodes[0]|] == ' '
    ensures ' ' !in nodes[0] ==> forall k | 0 <= k < |nodes[0]| :: Join(nodes)[k] != ' '
  {
    assert forall k | 0 <= k < |nodes[0]| :: Join(nodes)[k] == nodes[0][k];
  }

  lemma FirstNameAgrees(left: seq<string>, right: seq<string>)
    requires left != [] && right != [] && NoSpaces(left) && NoSpaces(right) && Join(left) == Join(right)
    ensures |left[0]| >= |right[0]| && left[0][..|right[0]|] == right[0]
  {
    JoinStart(left);
    JoinStart(right);
    assert |left[0]| >= |right[0]|;
    assert left[0][..|right[0]|] == Join(left)[..|left[0]|][..|right[0]|];
  }

  /** Cycles with one key are rotations of one another: no cycle hides another. */
  lemma SharedKeyMeansRotation(left: seq<string>, right: seq<string>)
    requires |left| >= 2 && left[0] == left[|left| - 1] && |right| >= 2 && right[0] == right[|right| - 1]
    requires NoSpaces(left) && NoSpaces(right) && CanonicalCycle(left) == CanonicalCycle(right)
    ensures exists k: nat :: k < |right| - 1 && left == RotateCycle(right, k)
  {
    var a, b := left[..|left| - 1], right[..|right| - 1];
    var j := LeastRotation(a);
    var k := LeastRotation(b);
    JoinInjective(Rotate(a, j), Rotate(b, k));
    var sum := CommonRotation(a, b, j, k);
    assert left == a + [a[0]];
    assert left == RotateCycle(right, sum);
  }

  /** The key of a cycle is one of its rotations, joined. */
  lemma LeastRotation(nodes: seq<string>) returns (k: nat)
    requires nodes != []
    ensures k < |nodes| && Join(Rotate(nodes, k)) == First(Rotations(nodes))
  {
    FirstIsLeast(Rotations(nodes));
    k :| k < |nodes| && Rotations(nodes)[k] == First(Rotations(nodes));
  }

  /** Sequences with a common rotation are rotations of one another. */
  lemma CommonRotation(left: seq<string>, right: seq<string>, j: nat, k: nat) returns (sum: nat)
    requires j < |left| && k < |right| && Rotate(left, j) == Rotate(right, k)
    ensures sum < |right| && left == Rotate(right, sum)
  {
    var back := if j == 0 then 0 else |left| - j;
    RotateTwice(left, j, back);
    RotateTwice(right, k, back);
    sum := if k + back < |right| then k + back else k + back - |right|;
    assert left == Rotate(left, 0);
  }

  // ----- edges of a cycle

  /** The walk takes the edge. */
  predicate Takes(walk: seq<string>, edge: (string, string)) {
    exists k | 0 <= k < |walk| - 1 :: walk[k] == edge.0 && walk[k + 1] == edge.1
  }

  /** No package is called anything with a space in it. */
  ghost predicate PlainNames(graph: Graph) {
    forall name | name in graph :: ' ' !in name
  }

  lemma RotationTakes(cycle: seq<string>, k: nat, edge: (string, string))
    requires |cycle| >= 2 && cycle[0] == cycle[|cycle| - 1] && k < |cycle| - 1 && Takes(RotateCycle(cycle, k), edge)
    ensures Takes(cycle, edge)
  {
    var n, rotated := |cycle| - 1, RotateCycle(cycle, k);
    assert forall i | 0 <= i < n :: rotated[i] == if i + k < n then cycle[i + k] else cycle[i + k - n];
    var i :| 0 <= i < |rotated| - 1 && rotated[i] == edge.0 && rotated[i + 1] == edge.1;
    var at := if i + k < n then i + k else i + k - n;
    assert rotated[n] == cycle[k];
    assert cycle[at] == edge.0 && cycle[at + 1] == edge.1;
  }

  lemma CyclesArePlain(graph: Graph, cycle: seq<string>)
    requires Closed(graph) && PlainNames(graph) && IsCycle(graph, cycle)
    ensures NoSpaces(cycle)
  {
    forall i | 0 <= i < |cycle| ensures ' ' !in cycle[i] {
      var k := if i < |cycle| - 1 then i else 0;
      assert Edge(graph, cycle[k], cycle[k + 1]);
    }
  }

  // ----- the visit

  datatype Color = OnStack | Done

  type Edges = set<(string, string)>

  ghost predicate Distinct(nodes: seq<string>) {
    forall i, j | 0 <= i < j < |nodes| :: nodes[i] != nodes[j]
  }

  /** Packages on the stack, and only they, are marked so; the stack is a path. */
  ghost predicate StackFits(graph: Graph, state: map<string, Color>, stack: seq<string>) {
    && Distinct(stack) && IsPath(graph, stack)
    && (forall name | name in stack :: name in state && state[name] == OnStack)
    && (forall name | name in state :: name in graph && (state[name] == OnStack ==> name in stack))
  }

  /** But for the edges that closed a cycle, finished packages import only packages finished before them. */
  ghost predicate Ordered(graph: Graph, state: map<string, Color>, finished: seq<string>, closing: Edges) {
    && (forall name | name in state && state[name] == Done :: name in finished)
    && OrderedImports(graph, finished, closing)
  }

  ghost predicate OrderedImports(graph: Graph, finished: seq<string>, closing: Edges) {
    forall i | 0 <= i < |finished| :: finished[i] in graph && ImportsWithin(graph, finished[i], finished[..i], closing)
  }

  ghost predicate ImportsWithin(graph: Graph, name: string, earlier: seq<string>, closing: Edges)
    requires name in graph
  {
    forall target | target in graph[name] :: target in earlier || (name, target) in closing
  }

  ghost predicate ReportsFit(graph: Graph, cycles: map<string, seq<string>>) {
    forall key | key in cycles :: IsCycle(graph, cycles[key]) && key == CanonicalCycle(cycles[key])
  }

  ghost predicate Reported(cycles: map<string, seq<string>>, edge: (string, string)) {
    exists key :: key in cycles && Takes(cycles[key], edge)
  }

  /** The closing edges are on reported cycles; only a name with a space could make two cycles share a key. */
  ghost predicate ClosingReported(graph: Graph, cycles: map<string, seq<string>>, closing: Edges) {
    && (cycles == map[] ==> closing == {})
    && (PlainNames(graph) ==> forall edge | edge in closing :: Reported(cycles, edge))
  }

  /** A walk inside finished packages that takes no closing edge goes strictly down the order, so it never closes. */
  lemma {:induction false} WalksGoDown(graph: Graph, finished: seq<string>, closing: Edges, walk: seq<string>, i: nat)
    requires OrderedImports(graph, finished, closing)
    requires |walk| >= 2 && IsPath(graph, walk) && i < |finished| && finished[i] == walk[0]
    requires forall edge | edge in closing :: !Takes(walk, edge)
    ensures walk[|walk| - 1] in finished[..i]
    decreases |walk|
  {
    assert Edge(graph, walk[0], walk[1]);
    assert Takes(walk, (walk[0], walk[1]));
    assert ImportsWithin(graph, finished[i], finished[..i], closing);
    assert walk[1] in finished[..i];
    var j :| 0 <= j < i && finished[j] == walk[1];
    if |walk| > 2 {
      var rest := walk[1..];
      forall k | 0 <= k < |rest| - 1 ensures Edge(graph, rest[k], rest[k + 1]) {
        assert Edge(graph, walk[k + 1], walk[k + 2]);
      }
      forall edge | edge in closing ensures !Takes(rest, edge) { TailTakes(walk, edge); }
      WalksGoDown(graph, finished, closing, rest, j);
      assert finished[..j] <= finished[..i];
    }
  }

  lemma TailTakes(walk: seq<string>, edge: (string, string))
    requires |walk| >= 2
    ensures Takes(walk[1..], edge) ==> Takes(walk, edge)
  {
    if Takes(walk[1..], edge) {
      var k :| 0 <= k < |walk[1..]| - 1 && walk[1..][k] == edge.0 && walk[1..][k + 1] == edge.1;
      assert walk[k + 1] == edge.0 && walk[k + 2] == edge.1;
    }
  }

  function IndexOf(nodes: seq<string>, name: string): (index: nat)
    requires name in nodes
    ensures index < |nodes| && nodes[index] == name && name !in nodes[..index]
  {
    if nodes[0] == name then 0 else IndexOf(nodes[1..], name) + 1
  }

  /** Every cycle among finished packages takes a closing edge. */
  lemma CyclesTakeClosing(graph: Graph, finished: seq<string>, closing: Edges, cycle: seq<string>)
    requires OrderedImports(graph, finished, closing) && IsCycle(graph, cycle) && cycle[0] in finished
    ensures exists edge :: edge in closing && Takes(cycle, edge)
  {
    var i := IndexOf(finished, cycle[0]);
    if forall edge | edge in closing :: !Takes(cycle, edge) {
      WalksGoDown(graph, finished, closing, cycle, i);
      assert false;
    }
  }

  /** The part of the stack from a package on it, closed by the edge just seen, is a cycle that takes this edge. */
  lemma BackEdgeCloses(graph: Graph, stack: seq<string>, target: string)
    requires stack != [] && IsPath(graph, stack) && target in stack && Edge(graph, stack[|stack| - 1], target)
    ensures var cycle := stack[IndexOf(stack, target)..] + [target];
      IsCycle(graph, cycle) && Takes(cycle, (stack[|stack| - 1], target))
  {
    var i := IndexOf(stack, target);
    var cycle := stack[i..] + [target];
    forall k | 0 <= k < |cycle| - 1 ensures Edge(graph, cycle[k], cycle[k + 1]) {
      if k + 1 < |stack[i..]| {
        assert Edge(graph, stack[i + k], stack[i + k + 1]);
      } else {
        assert cycle[k] == stack[|stack| - 1];
      }
    }
    assert cycle[|cycle| - 2] == stack[|stack| - 1] && cycle[|cycle| - 1] == target;
  }

  /** A report replaces at most a rotation of itself, so no edge is lost. */
  lemma ReportKeepsEdges(graph: Graph, cycles: map<string, seq<string>>, closing: Edges, cycle: seq<string>, edge: (string, string))
    requires Closed(graph) && ReportsFit(graph, cycles) && ClosingReported(graph, cycles, closing)
    requires IsCycle(graph, cycle) && Takes(cycle, edge)
    ensures ClosingReported(graph, cycles[CanonicalCycle(cycle) := cycle], closing + {edge})
  {
    var key := CanonicalCycle(cycle);
    var after := cycles[key := cycle];
    assert key in after;
    if PlainNames(graph) {
      forall e | e in closing + {edge} ensures Reported(after, e) {
        if e == edge {
          assert Takes(after[key], e);
        } else {
          var k :| k in cycles && Takes(cycles[k], e);
          if k == key { SameKeySameEdges(graph, cycles[key], cycle, e); }
          assert k in after && Takes(after[k], e);
        }
      }
    }
  }

  lemma SameKeySameEdges(graph: Graph, left: seq<string>, right: seq<string>, edge: (string, string))
    requires Closed(graph) && PlainNames(graph) && IsCycle(graph, left) && IsCycle(graph, right)
    requires CanonicalCycle(left) == CanonicalCycle(right) && Takes(left, edge)
    ensures Takes(right, edge)
  {
    CyclesArePlain(graph, left);
    CyclesArePlain(graph, right);
    SharedKeyMeansRotation(left, right);
    var k: nat :| k < |right| - 1 && left == RotateCycle(right, k);
    RotationTakes(right, k, edge);
  }

  lemma PushFits(graph: Graph, state: map<string, Color>, stack: seq<string>, name: string)
    requires StackFits(graph, state, stack) && name in graph && name !in state
    requires stack == [] || Edge(graph, stack[|stack| - 1], name)
    ensures StackFits(graph, state[name := OnStack], stack + [name])
  {
  }

  lemma PopFits(graph: Graph, state: map<string, Color>, stack: seq<string>, name: string)
    requires StackFits(graph, state, stack + [name])
    ensures StackFits(graph, state[name := Done], stack)
  {
    var pushed := stack + [name];
    assert pushed[|stack|] == name;
    forall i | 0 <= i < |stack| - 1 ensures Edge(graph, stack[i], stack[i + 1]) {
      assert Edge(graph, pushed[i], pushed[i + 1]);
    }
    forall other | other in stack ensures other in state && state[name := Done][other] == OnStack {
      var i :| 0 <= i < |stack| && stack[i] == other;
      assert pushed[i] == other && other in pushed;
    }
    assert Distinct(stack) by { assert forall i | 0 <= i < |stack| :: pushed[i] == stack[i]; }
  }

  lemma FinishOrdered(graph: Graph, state: map<string, Color>, finished: seq<string>, closing: Edges, name: string)
    requires Ordered(graph, state, finished, closing) && name in graph && name in state
    requires ImportsSettled(graph, state, closing, name, |graph[name]|)
    ensures Ordered(graph, state[name := Done], finished + [name], closing)
  {
    forall target | target in graph[name] ensures target in finished || (name, target) in closing {
      var k :| 0 <= k < |graph[name]| && graph[name][k] == target;
      assert Settled(state, closing, name, graph[name][k]);
    }
    var after := finished + [name];
    forall i | 0 <= i < |after| ensures after[i] in graph && ImportsWithin(graph, after[i], after[..i], closing) {
      if i < |finished| {
        assert after[..i] == finished[..i];
      } else {
        assert after[..i] == finished;
      }
    }
  }

  lemma MoreClosingOrdered(graph: Graph, state: map<string, Color>, finished: seq<string>, closing: Edges, edge: (string, string))
    requires Ordered(graph, state, finished, closing)
    ensures Ordered(graph, state, finished, closing + {edge})
  {
    forall i | 0 <= i < |finished| ensures ImportsWithin(graph, finished[i], finished[..i], closing + {edge}) {
      assert ImportsWithin(graph, finished[i], finished[..i], closing);
    }
  }

  /** The imported package is finished, or the import has closed a cycle. */
  predicate Settled(state: map<string, Color>, closing: Edges, name: string, target: string) {
    (target in state && state[target] == Done) || (name, target) in closing
  }

  /** The first `n` imports of a package are settled. */
  ghost predicate ImportsSettled(graph: Graph, state: map<string, Color>, closing: Edges, name: string, n: nat)
    requires name in graph && n <= |graph[name]|
  {
    forall k | 0 <= k < n :: Settled(state, closing, name, graph[name][k])
  }

  lemma ImportsStaySettled(graph: Graph, before: map<string, Color>, after: map<string, Color>, closing: Edges, more: Edges,
                           name: string, n: nat)
    requires name in graph && n <= |graph[name]| && ImportsSettled(graph, before, closing, name, n)
    requires Grown(before, after) && closing <= more
    ensures ImportsSettled(graph, after, more, name, n)
  {
    forall k | 0 <= k < n ensures Settled(after, more, name, graph[name][k]) {
      assert Settled(before, closing, name, graph[name][k]);
    }
  }

  /** Marks are kept and every new mark is final. */
  ghost predicate Grown(before: map<string, Color>, after: map<string, Color>) {
    && (forall name | name in before :: name in after && after[name] == before[name])
    && (forall name | name in after && after[name] == OnStack :: name in before)
  }

  lemma GrownTransitive(first: map<string, Color>, second: map<string, Color>, third: map<string, Color>)
    requires Grown(first, second) && Grown(second, third)
    ensures Grown(first, third)
  {
  }

  lemma StillFewer(graph: Graph, before: map<string, Color>, after: map<string, Color>)
    requires Grown(before, after)
    ensures graph.Keys - after.Keys <= graph.Keys - before.Keys
  {
    assert before.Keys <= after.Keys;
  }

  lemma GrownByVisit(before: map<string, Color>, visited: map<string, Color>, name: string)
    requires name !in before && Grown(before[name := OnStack], visited)
    ensures Grown(before, visited[name := Done])
  {
  }

  /** A reported cycle and the given one take a common edge, so they lie in one strongly connected component. */
  ghost predicate Witnessed(cycles: map<string, seq<string>>, cycle: seq<string>) {
    exists edge :: Takes(cycle, edge) && Reported(cycles, edge)
  }

  ghost predicate Fits(graph: Graph, state: map<string, Color>, stack: seq<string>, cycles: map<string, seq<string>>,
                       finished: seq<string>, closing: Edges)
  {
    && Closed(graph) && StackFits(graph, state, stack) && ReportsFit(graph, cycles)
    && Ordered(graph, state, finished, closing) && ClosingReported(graph, cycles, closing)
  }

  /** When every package was visited, every cycle shares an edge with a reported one. */
  lemma ReportsAreExact(graph: Graph, state: map<string, Color>, cycles: map<string, seq<string>>, finished: seq<string>, closing: Edges)
    requires Fits(graph, state, [], cycles, finished, closing) && forall name | name in graph :: name in state
    ensures cycles != map[] <==> exists cycle :: IsCycle(graph, cycle)
    ensures PlainNames(graph) ==> forall cycle | IsCycle(graph, cycle) :: Witnessed(cycles, cycle)
  {
    forall cycle | IsCycle(graph, cycle) ensures cycles != map[] && (PlainNames(graph) ==> Witnessed(cycles, cycle)) {
      assert Edge(graph, cycle[0], cycle[1]);
      CyclesTakeClosing(graph, finished, closing, cycle);
      var edge :| edge in closing && Takes(cycle, edge);
    }
    if cycles != map[] {
      var key :| key in cycles;
      assert IsCycle(graph, cycles[key]);
    }
  }

  class Analysis {
    const graph: Graph
    var state: map<string, Color>
    var stack: seq<string>
    var cycles: map<string, seq<string>>
    ghost var finished: seq<string>
    ghost var closing: Edges

    ghost predicate Valid()
      reads this
    {
      Fits(graph, state, stack, cycles, finished, closing)
    }

    constructor (graph: Graph)
      requires Closed(graph)
      ensures this.graph == graph && Valid() && stack == [] && state == map[] && cycles == map[]
    {
      this.graph := graph;
      state, stack, cycles, finished, closing := map[], [], map[], [], {};
    }

    method Visit(name: string)
      requires Valid() && name in graph && name !in state
      requires stack == [] || Edge(graph, stack[|stack| - 1], name)
      modifies this
      ensures Valid() && stack == old(stack) && Grown(old(state), state) && name in state && state[name] == Done
      ensures old(closing) <= closing
      decreases graph.Keys - state.Keys, 0
    {
      Push(name);
      FollowImports(name);
      ghost var visited := state;
      Pop(name);
      GrownByVisit(old(state), visited, name);
    }

    method Push(name: string)
      requires Valid() && name in graph && name !in state
      requires stack == [] || Edge(graph, stack[|stack| - 1], name)
      modifies this`state, this`stack
      ensures Valid() && stack == old(stack) + [name] && state == old(state)[name := OnStack]
    {
      PushFits(graph, state, stack, name);
      state, stack := state[name := OnStack], stack + [name];
    }

    method Pop(name: string)
      requires Valid() && stack != [] && stack[|stack| - 1] == name
      requires name in graph && ImportsSettled(graph, state, closing, name, |graph[name]|)
      modifies this`state, this`stack, this`finished
      ensures Valid() && stack == old(stack)[..|old(stack)| - 1] && state == old(state)[name := Done]
    {
      assert stack == stack[..|stack| - 1] + [name];
      PopFits(graph, state, stack[..|stack| - 1], name);
      FinishOrdered(graph, state, finished, closing, name);
      finished := finished + [name];
      state, stack := state[name := Done], stack[..|stack| - 1];
    }

    /** The imports of the package on top of the stack, in order. */
    method FollowImports(name: string)
      requires Valid() && stack != [] && stack[|stack| - 1] == name && name in graph
      modifies this
      ensures Valid() && stack == old(stack) && Grown(old(state), state) && old(closing) <= closing
      ensures ImportsSettled(graph, state, closing, name, |graph[name]|)
      decreases graph.Keys - state.Keys, 3
    {
      for i := 0 to |graph[name]|
        invariant Valid() && stack == old(stack) && Grown(old(state), state) && old(closing) <= closing
        invariant ImportsSettled(graph, state, closing, name, i)
      {
        ghost var before := state;
        StillFewer(graph, old(state), state);
        FollowNext(name, i);
        GrownTransitive(old(state), before, state);
      }
    }

    /** One more import is settled, and those settled before stay so. */
    method FollowNext(name: string, i: nat)
      requires Valid() && stack != [] && stack[|stack| - 1] == name && name in graph && i < |graph[name]|
      requires ImportsSettled(graph, state, closing, name, i)
      modifies this
      ensures Valid() && stack == old(stack) && Grown(old(state), state) && old(closing) <= closing
      ensures ImportsSettled(graph, state, closing, name, i + 1)
      decreases graph.Keys - state.Keys, 2
    {
      Follow(name, graph[name][i]);
      ImportsStaySettled(graph, old(state), state, old(closing), closing, name, i);
    }

    /** One imported package: visited when new, reported when on the stack. */
    method Follow(name: string, target: string)
      requires Valid() && stack != [] && stack[|stack| - 1] == name && Edge(graph, name, target)
      modifies this
      ensures Valid() && stack == old(stack) && Grown(old(state), state) && old(closing) <= closing
      ensures Settled(state, closing, name, target)
      decreases graph.Keys - state.Keys, 1
    {
      if target !in state {
        Visit(target);
      } else if state[target] == OnStack {
        Report(target);
      }
    }

    /** Records the part of the stack that the edge closes. */
    method Report(target: string)
      requires Valid() && target in stack && Edge(graph, stack[|stack| - 1], target)
      modifies this`cycles, this`closing
      ensures Valid() && closing == old(closing) + {(stack[|stack| - 1], target)}
    {
      BackEdgeCloses(graph, stack, target);
      var cycle := stack[IndexOf(stack, target)..] + [target];
      ReportKeepsEdges(graph, cycles, closing, cycle, (stack[|stack| - 1], target));
      MoreClosingOrdered(graph, state, finished, closing, (stack[|stack| - 1], target));
      cycles := cycles[CanonicalCycle(cycle) := cycle];
      closing := closing + {(stack[|stack| - 1], target)};
    }

    /** Visits every package. */
    method Analyze(names: seq<string>)
      requires Valid() && stack == [] && state == map[] && cycles == map[]
      requires forall name :: name in names <==> name in graph
      modifies this
      ensures forall key | key in cycles :: IsCycle(graph, cycles[key]) && key == CanonicalCycle(cycles[key])
      ensures cycles != map[] <==> exists cycle :: IsCycle(graph, cycle)
      ensures PlainNames(graph) ==> forall cycle | IsCycle(graph, cycle) :: Witnessed(cycles, cycle)
    {
      for i := 0 to |names|
        invariant Valid() && stack == []
        invariant forall k | 0 <= k < i :: names[k] in state
      {
        if names[i] !in state { Visit(names[i]); }
      }
      ReportsAreExact(graph, state, cycles, finished, closing);
    }
  }
}
