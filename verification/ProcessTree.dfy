/** Process trees by parent links: the closure taken when a tree is terminated on Windows
    (src/process/tree.rs), and the resource sum shown for a process (src/process/manager.rs). */
module ProcessTree {
  import opened Wrappers

  type Pid = nat

  /** A process and its parent. */
  type Links = seq<(Pid, Pid)>

  // ---- Reachability ----

  /** A chain of links from `path[0]` down to its last process. */
  ghost predicate Path(links: Links, path: seq<Pid>) {
    path != [] && forall i :: 0 <= i < |path| - 1 ==> (path[i + 1], path[i]) in links
  }

  ghost predicate Connects(links: Links, a: Pid, b: Pid, path: seq<Pid>) {
    Path(links, path) && path[0] == a && path[|path| - 1] == b
  }

  ghost predicate Descends(links: Links, a: Pid, b: Pid) {
    exists path :: Connects(links, a, b, path)
  }

  /** Reached by at least one link. */
  ghost predicate ProperlyDescends(links: Links, a: Pid, b: Pid) {
    exists path :: Connects(links, a, b, path) && |path| > 1
  }

  lemma SelfDescends(links: Links, a: Pid)
    ensures Descends(links, a, a)
  {
    assert Connects(links, a, a, [a]);
  }

  lemma DescendToChild(links: Links, a: Pid, b: Pid, c: Pid)
    requires Descends(links, a, b) && (c, b) in links
    ensures Descends(links, a, c) && ProperlyDescends(links, a, c)
  {
    var path :| Connects(links, a, b, path);
    var longer := path + [c];
    assert forall i :: 0 <= i < |longer| - 1 ==> (longer[i + 1], longer[i]) in links;
    assert Connects(links, a, c, longer);
  }

  /** The first step of a proper descent. */
  lemma FirstChild(links: Links, a: Pid, b: Pid) returns (c: Pid)
    requires ProperlyDescends(links, a, b)
    ensures (c, a) in links && (c == b || ProperlyDescends(links, c, b))
  {
    var path :| Connects(links, a, b, path) && |path| > 1;
    c := path[1];
    assert (path[0 + 1], path[0]) in links;
    var rest := path[1..];
    assert forall i :: 0 <= i < |rest| - 1 ==> (rest[i + 1], rest[i]) == (path[i + 1 + 1], path[i + 1]);
    assert Connects(links, c, b, rest);
  }

  ghost predicate Closed(links: Links, s: set<Pid>) {
    forall link :: link in links && link.1 in s ==> link.0 in s
  }

  lemma {:induction false} ClosedHoldsPath(links: Links, s: set<Pid>, path: seq<Pid>)
    requires Closed(links, s) && Path(links, path) && path[0] in s
    ensures path[|path| - 1] in s
  {
    if |path| > 1 {
      var before := path[..|path| - 1];
      assert forall i :: 0 <= i < |before| - 1 ==> (before[i + 1], before[i]) in links;
      ClosedHoldsPath(links, s, before);
      var i := |path| - 2;
      assert (path[i + 1], path[i]) in links;
      assert (path[i + 1], path[i]).1 in s;
    }
  }

  lemma ClosedHoldsDescendants(links: Links, s: set<Pid>, a: Pid)
    requires Closed(links, s) && a in s
    ensures forall b :: Descends(links, a, b) ==> b in s
  {
    forall b | Descends(links, a, b)
      ensures b in s
    {
      var path :| Connects(links, a, b, path);
      ClosedHoldsPath(links, s, path);
    }
  }

  // ---- windows_descendants ----

  lemma SameSize(a: set<Pid>, b: set<Pid>)
    requires a <= b && |a| == |b|
    ensures a == b
  {
    assert b == a + (b - a);
  }

  method WindowsDescendants(root: Pid, processes: Links) returns (owned: set<Pid>)
    ensures forall pid :: pid in owned <==> Descends(processes, root, pid)
  {
    ghost var all := {root} + set link | link in processes :: link.0;
    owned := {root};
    SelfDescends(processes, root);
    while true
      invariant root in owned && owned <= all
      invariant forall pid :: pid in owned ==> Descends(processes, root, pid)
      decreases all - owned
    {
      ghost var start := owned;
      var before := |owned|;
      for i := 0 to |processes|
        invariant start <= owned <= all
        invariant forall pid :: pid in owned ==> Descends(processes, root, pid)
        invariant forall j :: 0 <= j < i && processes[j].1 in start ==> processes[j].0 in owned
      {
        var (pid, parent) := processes[i];
        if parent in owned {
          assert (pid, parent) in processes;
          DescendToChild(processes, root, parent, pid);
          owned := owned + {pid};
        }
      }
      if |owned| == before {
        SameSize(start, owned);
        ClosedHoldsDescendants(processes, owned, root);
        return;
      }
      assert owned <= start ==> owned == start;
      ghost var pid :| pid in owned && pid !in start;
      assert pid in all - start;
    }
  }

  // ---- sum_process_tree ----

  datatype Usage = Usage(cpu: real, memory: nat)

  datatype Process = Process(pid: Pid, parent: Option<Pid>, usage: Usage)

  function Plus(a: Usage, b: Usage): Usage {
    Usage(a.cpu + b.cpu, a.memory + b.memory)
  }

  const NOTHING := Usage(0.0, 0)

  function LinksOf(processes: seq<Process>): Links {
    if processes == [] then []
    else (if processes[0].parent.Some? then [(processes[0].pid, processes[0].parent.value)] else [])
         + LinksOf(processes[1..])
  }

  lemma {:induction false} LinkIsParent(processes: seq<Process>, child: Pid, parent: Pid)
    ensures (child, parent) in LinksOf(processes)
      <==> exists p :: p in processes && p.pid == child && p.parent == Some(parent)
  {
    if processes != [] {
      LinkIsParent(processes[1..], child, parent);
      assert processes == [processes[0]] + processes[1..];
    }
  }

  /** A table of processes has one entry for each. */
  ghost predicate Distinct(processes: seq<Process>) {
    forall i, j :: 0 <= i < j < |processes| ==> processes[i].pid != processes[j].pid
  }

  function Children(processes: seq<Process>, parent: Pid): seq<Pid> {
    if processes == [] then []
    else (if processes[0].parent == Some(parent) then [processes[0].pid] else []) + Children(processes[1..], parent)
  }

  lemma {:induction false} ChildrenAreLinked(processes: seq<Process>, parent: Pid)
    requires Distinct(processes)
    ensures forall c :: c in Children(processes, parent) <==> (c, parent) in LinksOf(processes)
    ensures forall i, j :: 0 <= i < j < |Children(processes, parent)| ==>
      Children(processes, parent)[i] != Children(processes, parent)[j]
    ensures forall c :: c in Children(processes, parent) ==> exists p :: p in processes && p.pid == c
  {
    if processes != [] {
      ChildrenAreLinked(processes[1..], parent);
      assert processes == [processes[0]] + processes[1..];
    }
  }

  /** The usage of the processes in the set, each once. */
  function SumOf(processes: seq<Process>, s: set<Pid>): Usage {
    if processes == [] then NOTHING
    else Plus(SumOf(processes[..|processes| - 1], s),
              if processes[|processes| - 1].pid in s then processes[|processes| - 1].usage else NOTHING)
  }

  function UsageOf(processes: seq<Process>, pid: Pid): Usage {
    SumOf(processes, {pid})
  }

  lemma PlusRegroups(a: Usage, b: Usage, c: Usage, d: Usage)
    ensures Plus(Plus(a, b), Plus(c, d)) == Plus(Plus(a, c), Plus(b, d))
  {
  }

  lemma {:induction false} SumAdds(processes: seq<Process>, s: set<Pid>, pid: Pid)
    requires pid !in s
    ensures SumOf(processes, s + {pid}) == Plus(SumOf(processes, s), UsageOf(processes, pid))
  {
    if processes != [] {
      var before, last := processes[..|processes| - 1], processes[|processes| - 1];
      SumAdds(before, s, pid);
      var x := if last.pid in s then last.usage else NOTHING;
      var y := if last.pid in {pid} then last.usage else NOTHING;
      assert (if last.pid in s + {pid} then last.usage else NOTHING) == Plus(x, y);
      PlusRegroups(SumOf(before, s), UsageOf(before, pid), x, y);
    }
  }

  lemma {:induction false} SumOfNone(processes: seq<Process>)
    ensures SumOf(processes, {}) == NOTHING
  {
    if processes != [] {
      SumOfNone(processes[..|processes| - 1]);
    }
  }

  /** What the sum means: `n` processes that use the same use `n` times as much. */
  lemma {:induction false} EqualUsagesMultiply(processes: seq<Process>, s: set<Pid>, cpu: real, memory: nat)
    requires forall p :: p in processes ==> p.pid in s && p.usage == Usage(cpu, memory)
    ensures SumOf(processes, s) == Usage(|processes| as real * cpu, |processes| * memory)
  {
    if processes != [] {
      var before, last := processes[..|processes| - 1], processes[|processes| - 1];
      assert last in processes && forall p :: p in before ==> p in processes;
      EqualUsagesMultiply(before, s, cpu, memory);
      var n := |before|;
      assert (n + 1) as real == n as real + 1.0;
      assert (n + 1) * memory == n * memory + memory;
      assert (n as real + 1.0) * cpu == n as real * cpu + cpu;
    }
  }

  function Pids(processes: seq<Process>): set<Pid> {
    set p | p in processes :: p.pid
  }

  /** The processes of the tree. */
  ghost function Tree(processes: seq<Process>, root: Pid): set<Pid> {
    set pid | pid in {root} + Pids(processes) && Descends(LinksOf(processes), root, pid)
  }

  ghost predicate Unrepeated(stack: seq<Pid>, counted: set<Pid>) {
    && (forall i, j :: 0 <= i < j < |stack| ==> stack[i] != stack[j])
    && (forall i :: 0 <= i < |stack| ==> stack[i] !in counted)
  }

  /** A process of the tree that is the root or whose parent is counted. */
  ghost predicate Reached(processes: seq<Process>, root: Pid, counted: set<Pid>, pid: Pid) {
    && pid in Tree(processes, root)
    && (pid == root || exists parent :: parent in counted && (pid, parent) in LinksOf(processes))
  }

  ghost predicate AllReached(processes: seq<Process>, root: Pid, stack: seq<Pid>, counted: set<Pid>) {
    && (forall i :: 0 <= i < |stack| ==> Reached(processes, root, counted, stack[i]))
    && (forall pid :: pid in counted ==> Reached(processes, root, counted, pid))
  }

  ghost predicate NoneMissed(processes: seq<Process>, root: Pid, stack: seq<Pid>, counted: set<Pid>) {
    && (forall link :: link in LinksOf(processes) && link.1 in counted ==> link.0 in counted || link.0 in stack)
    && (root in counted || root in stack)
  }

  /** Nothing is ever on the stack twice: what was put there is the root or a child of a
      process already counted, and a process has one parent. */
  ghost predicate Walk(processes: seq<Process>, root: Pid, stack: seq<Pid>, counted: set<Pid>) {
    && Unrepeated(stack, counted)
    && AllReached(processes, root, stack, counted)
    && NoneMissed(processes, root, stack, counted)
  }

  lemma OneParent(processes: seq<Process>, child: Pid, a: Pid, b: Pid)
    requires Distinct(processes) && (child, a) in LinksOf(processes) && (child, b) in LinksOf(processes)
    ensures a == b
  {
    LinkIsParent(processes, child, a);
    LinkIsParent(processes, child, b);
    var i :| 0 <= i < |processes| && processes[i].pid == child && processes[i].parent == Some(a);
    var j :| 0 <= j < |processes| && processes[j].pid == child && processes[j].parent == Some(b);
  }

  lemma WalkBegins(processes: seq<Process>, root: Pid)
    ensures Walk(processes, root, [root], {})
  {
    SelfDescends(LinksOf(processes), root);
    assert Reached(processes, root, {}, root);
  }

  /** The children of the process on top are new. */
  lemma ChildrenAreNew(processes: seq<Process>, root: Pid, stack: seq<Pid>, counted: set<Pid>, c: Pid)
    requires Distinct(processes) && !ProperlyDescends(LinksOf(processes), root, root)
    requires Walk(processes, root, stack, counted) && stack != []
    requires (c, stack[|stack| - 1]) in LinksOf(processes)
    ensures c !in stack && c !in counted
    ensures Reached(processes, root, counted + {stack[|stack| - 1]}, c)
  {
    var top := stack[|stack| - 1];
    assert Reached(processes, root, counted, top);
    DescendToChild(LinksOf(processes), root, top, c);
    LinkIsParent(processes, c, top);
    assert top in counted + {top};
    if c in stack || c in counted {
      assert Reached(processes, root, counted, c) && c != root;
      var parent :| parent in counted && (c, parent) in LinksOf(processes);
      OneParent(processes, c, parent, top);
    }
  }

  lemma PushKeepsUnrepeated(rest: seq<Pid>, top: Pid, children: seq<Pid>, counted: set<Pid>)
    requires Unrepeated(rest + [top], counted)
    requires forall i, j :: 0 <= i < j < |children| ==> children[i] != children[j]
    requires forall i :: 0 <= i < |children| ==> children[i] !in rest + [top] && children[i] !in counted
    ensures Unrepeated(rest + children, counted + {top})
  {
    var before, after := rest + [top], rest + children;
    assert before[|rest|] == top && forall i :: 0 <= i < |rest| ==> before[i] == rest[i];
    forall i | 0 <= i < |after|
      ensures after[i] !in counted + {top}
      ensures forall j :: i < j < |after| ==> after[i] != after[j]
    {
      if i < |rest| {
        assert after[i] == before[i];
      } else {
        assert after[i] == children[i - |rest|];
      }
    }
  }

  lemma PushKeepsReached(processes: seq<Process>, root: Pid, rest: seq<Pid>, top: Pid, children: seq<Pid>,
      counted: set<Pid>)
    requires AllReached(processes, root, rest + [top], counted)
    requires forall i :: 0 <= i < |children| ==> Reached(processes, root, counted + {top}, children[i])
    ensures AllReached(processes, root, rest + children, counted + {top})
  {
    hide Tree, LinksOf;
    var before, after := rest + [top], rest + children;
    forall pid | Reached(processes, root, counted, pid)
      ensures Reached(processes, root, counted + {top}, pid)
    {
      if pid != root {
        var parent :| parent in counted && (pid, parent) in LinksOf(processes);
        assert parent in counted + {top};
      }
    }
    assert Reached(processes, root, counted, before[|rest|]);
    forall i | 0 <= i < |after|
      ensures Reached(processes, root, counted + {top}, after[i])
    {
      if i < |rest| {
        assert Reached(processes, root, counted, before[i]);
      } else {
        assert after[i] == children[i - |rest|];
      }
    }
  }

  lemma PushMissesNone(processes: seq<Process>, root: Pid, rest: seq<Pid>, top: Pid, counted: set<Pid>)
    requires Distinct(processes) && NoneMissed(processes, root, rest + [top], counted)
    ensures NoneMissed(processes, root, rest + Children(processes, top), counted + {top})
  {
    hide LinksOf, Children, Distinct;
    ChildrenAreLinked(processes, top);
    var children := Children(processes, top);
    assert forall pid :: pid in rest + [top] <==> pid in rest || pid == top;
    assert forall pid :: pid in rest + children <==> pid in rest || pid in children;
    forall link | link in LinksOf(processes) && link.1 in counted + {top}
      ensures link.0 in counted + {top} || link.0 in rest + children
    {
      if link.1 == top {
        assert link == (link.0, top);
      }
    }
  }

  lemma WalkStep(processes: seq<Process>, root: Pid, stack: seq<Pid>, counted: set<Pid>)
    requires Distinct(processes) && !ProperlyDescends(LinksOf(processes), root, root)
    requires Walk(processes, root, stack, counted) && stack != []
    ensures var top := stack[|stack| - 1];
      && top !in counted && top in Tree(processes, root)
      && Walk(processes, root, stack[..|stack| - 1] + Children(processes, top), counted + {top})
  {
    hide LinksOf, Children, Distinct, ProperlyDescends, Tree, NoneMissed;
    var rest, top := stack[..|stack| - 1], stack[|stack| - 1];
    var children := Children(processes, top);
    assert stack == rest + [top];
    assert Reached(processes, root, counted, top);
    ChildrenAreLinked(processes, top);
    forall i | 0 <= i < |children|
      ensures children[i] !in stack && children[i] !in counted
      ensures Reached(processes, root, counted + {top}, children[i])
    {
      assert children[i] in children;
      ChildrenAreNew(processes, root, stack, counted, children[i]);
    }
    PushKeepsUnrepeated(rest, top, children, counted);
    PushKeepsReached(processes, root, rest, top, children, counted);
    PushMissesNone(processes, root, rest, top, counted);
  }

  lemma WalkEnds(processes: seq<Process>, root: Pid, counted: set<Pid>)
    requires Walk(processes, root, [], counted)
    ensures counted == Tree(processes, root)
  {
    assert forall pid :: pid in counted ==> Reached(processes, root, counted, pid);
    ClosedHoldsDescendants(LinksOf(processes), counted, root);
  }

  /** The stack walk counts every process of the tree exactly once. It is called on tables in
      which the root is not its own descendant; otherwise it does not return. */
  method SumProcessTree(processes: seq<Process>, root: Pid) returns (total: Usage)
    requires Distinct(processes) && !ProperlyDescends(LinksOf(processes), root, root)
    ensures total == SumOf(processes, Tree(processes, root))
  {
    hide Walk, Tree, SumOf, Distinct, ProperlyDescends, LinksOf, Children;
    total := NOTHING;
    var stack := [root];
    ghost var counted: set<Pid> := {};
    WalkBegins(processes, root);
    SumOfNone(processes);
    while stack != []
      invariant Walk(processes, root, stack, counted)
      invariant total == SumOf(processes, counted)
      decreases Tree(processes, root) - counted
    {
      WalkStep(processes, root, stack, counted);
      var pid := stack[|stack| - 1];
      stack := stack[..|stack| - 1];
      SumAdds(processes, counted, pid);
      total := Plus(total, UsageOf(processes, pid));
      stack := stack + Children(processes, pid);
      counted := counted + {pid};
    }
    WalkEnds(processes, root, counted);
  }

  // ---- When the walk ends ----

  function Step(processes: seq<Process>, stack: seq<Pid>): seq<Pid> {
    if stack == [] then [] else stack[..|stack| - 1] + Children(processes, stack[|stack| - 1])
  }

  function Steps(processes: seq<Process>, stack: seq<Pid>, n: nat): seq<Pid>
    decreases n
  {
    if n == 0 then stack else Steps(processes, Step(processes, stack), n - 1)
  }

  lemma CycleStays(processes: seq<Process>, root: Pid, stack: seq<Pid>)
    requires Distinct(processes) && ProperlyDescends(LinksOf(processes), root, root)
    requires exists pid :: pid in stack && ProperlyDescends(LinksOf(processes), pid, root)
    ensures exists pid :: pid in Step(processes, stack) && ProperlyDescends(LinksOf(processes), pid, root)
  {
    var links := LinksOf(processes);
    var pid :| pid in stack && ProperlyDescends(links, pid, root);
    var top := stack[|stack| - 1];
    if pid == top {
      var c := FirstChild(links, pid, root);
      ChildrenAreLinked(processes, top);
      assert c in Step(processes, stack) && ProperlyDescends(links, c, root);
    } else {
      assert stack == stack[..|stack| - 1] + [top];
      assert pid in Step(processes, stack);
    }
  }

  lemma {:induction false} CycleNeverEnds(processes: seq<Process>, root: Pid, stack: seq<Pid>, n: nat)
    requires Distinct(processes) && ProperlyDescends(LinksOf(processes), root, root)
    requires exists pid :: pid in stack && ProperlyDescends(LinksOf(processes), pid, root)
    ensures Steps(processes, stack, n) != []
    decreases n
  {
    if n > 0 {
      CycleStays(processes, root, stack);
      CycleNeverEnds(processes, root, Step(processes, stack), n - 1);
    }
  }

  lemma {:induction false} WalkFinishes(processes: seq<Process>, root: Pid, stack: seq<Pid>, counted: set<Pid>)
    returns (n: nat)
    requires Distinct(processes) && !ProperlyDescends(LinksOf(processes), root, root)
    requires Walk(processes, root, stack, counted)
    ensures Steps(processes, stack, n) == []
    decreases Tree(processes, root) - counted
  {
    hide Walk, Tree, Distinct, ProperlyDescends, LinksOf, Children;
    if stack == [] {
      n := 0;
    } else {
      WalkStep(processes, root, stack, counted);
      n := WalkFinishes(processes, root, Step(processes, stack), counted + {stack[|stack| - 1]});
      n := n + 1;
    }
  }

  /** With one parent for each process, the walk ends if and only if the root is not its own
      descendant. */
  lemma EndsIffRootIsNotItsDescendant(processes: seq<Process>, root: Pid)
    requires Distinct(processes)
    ensures (exists n :: Steps(processes, [root], n) == []) <==> !ProperlyDescends(LinksOf(processes), root, root)
  {
    if ProperlyDescends(LinksOf(processes), root, root) {
      assert root in [root];
      forall n
        ensures Steps(processes, [root], n) != []
      {
        CycleNeverEnds(processes, root, [root], n);
      }
    } else {
      WalkBegins(processes, root);
      var n := WalkFinishes(processes, root, [root], {});
    }
  }

  /** The tables: two processes, each the parent of the other, as a reused parent PID can make
      it look. The walk from either of them never ends. */
  lemma TwoParentsNeverEnd(a: Process, b: Process)
    requires a.pid != b.pid && a.parent == Some(b.pid) && b.parent == Some(a.pid)
    ensures Distinct([a, b]) && forall n :: Steps([a, b], [a.pid], n) != []
  {
    var links := LinksOf([a, b]);
    LinkIsParent([a, b], b.pid, a.pid);
    LinkIsParent([a, b], a.pid, b.pid);
    var path := [a.pid, b.pid, a.pid];
    assert (path[0 + 1], path[0]) in links && (path[1 + 1], path[1]) in links;
    assert Connects(links, a.pid, a.pid, path);
    EndsIffRootIsNotItsDescendant([a, b], a.pid);
  }
}
