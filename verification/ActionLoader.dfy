/** The local-action loader of tools/check-workflows/main.go: a depth-first walk over
    `uses: ./` references that must terminate on cycles, report them, and check each
    action file once. Path resolution and the rules for single steps are left open. */
module ActionLoader {
  import opened Basics

  /** A canonical action file. */
  type File = string

  datatype Issue = LocalActionCycle(file: File) | Other(text: string)

  /** A step: the issues found in it, and the action file its local `uses` resolves to. */
  datatype Step = Step(issues: seq<Issue>, target: Option<File>)

  /** An action file: not readable, not parsable, or parsed; only composite actions have steps. */
  datatype Meta = Unreadable | Unparsable(issue: Issue) | Parsed(issues: seq<Issue>, steps: seq<Step>)

  type Graph = map<File, Meta>

  predicate Quiet(issues: seq<Issue>) { forall i :: 0 <= i < |issues| ==> !issues[i].LocalActionCycle? }

  lemma QuietAppend(a: seq<Issue>, b: seq<Issue>)
    ensures Quiet(a + b) <==> Quiet(a) && Quiet(b)
  {
    if Quiet(a + b) {
      assert forall i :: 0 <= i < |a| ==> a[i] == (a + b)[i];
      assert forall i :: 0 <= i < |b| ==> b[i] == (a + b)[|a| + i];
    }
  }

  /** Every reference resolves into the graph, and only the loader reports cycles. */
  predicate StepsOk(g: Graph, steps: seq<Step>)
  {
    forall i :: 0 <= i < |steps| ==> Quiet(steps[i].issues) && (steps[i].target.Some? ==> steps[i].target.value in g)
  }

  predicate GraphOk(g: Graph)
  {
    forall f :: f in g ==> match g[f]
                           case Unreadable => true
                           case Unparsable(i) => Quiet([i])
                           case Parsed(found, steps) => Quiet(found) && StepsOk(g, steps)
  }

  predicate Targets(steps: seq<Step>, f: File)
  {
    exists i :: 0 <= i < |steps| && steps[i].target == Some(f)
  }

  predicate Edge(g: Graph, a: File, b: File)
  {
    a in g && g[a].Parsed? && Targets(g[a].steps, b)
  }

  ghost predicate IsWalk(g: Graph, p: seq<File>)
  {
    forall i :: 0 <= i < |p| - 1 ==> Edge(g, p[i], p[i + 1])
  }

  /** A walk that starts at a root and comes back to a file it has passed. */
  ghost predicate Loops(g: Graph, roots: iset<File>, p: seq<File>)
  {
    && |p| >= 2 && p[0] in roots && IsWalk(g, p)
    && exists i :: 0 <= i < |p| - 1 && p[i] == p[|p| - 1]
  }

  ghost predicate CycleReachable(g: Graph, roots: iset<File>)
  {
    exists p :: Loops(g, roots, p)
  }

  // ---------------------------------------------------------------------------
  // Finish order
  // ---------------------------------------------------------------------------

  predicate Settled(g: Graph, order: seq<File>, f: File)
  {
    f in order || (f in g && g[f].Unreadable?)
  }

  /** Files finish after everything they refer to. */
  ghost predicate Topological(g: Graph, order: seq<File>)
  {
    forall i, b :: 0 <= i < |order| && Edge(g, order[i], b) ==> Settled(g, order[..i], b)
  }

  /** The walk from an ordered file stays in ever shorter prefixes of the order. */
  lemma {:induction false} WalkDescends(g: Graph, order: seq<File>, p: seq<File>, k: nat, n: nat)
    requires Topological(g, order) && IsWalk(g, p) && k < |p| && n <= |order|
    requires p[0] in order[..n] && k > 0 && !(p[k] in g && g[p[k]].Unreadable?)
    ensures exists m :: 0 <= m < n && p[k] in order[..m]
    decreases k
  {
    if k == 1 {
      var i :| 0 <= i < n && order[i] == p[0];
      assert Edge(g, p[0], p[1]) && Settled(g, order[..i], p[1]);
    } else {
      assert Edge(g, p[k - 1], p[k]);
      WalkDescends(g, order, p, k - 1, n);
      var m :| 0 <= m < n && p[k - 1] in order[..m];
      var i :| 0 <= i < m && order[i] == p[k - 1];
      assert Settled(g, order[..i], p[k]);
      assert i < n;
    }
  }

  /** An ordered file lies on no cycle. */
  lemma {:induction false} NoReturn(g: Graph, order: seq<File>, p: seq<File>, n: nat)
    requires Topological(g, order) && IsWalk(g, p) && |p| >= 2 && n <= |order|
    requires p[0] in order[..n] && p[0] == p[|p| - 1]
    ensures false
    decreases n
  {
    assert Edge(g, p[0], p[1]);
    WalkDescends(g, order, p, |p| - 1, n);
    var m :| 0 <= m < n && p[|p| - 1] in order[..m];
    NoReturn(g, order, p, m);
  }

  /** A walk that leaves a file passes only ordered files before it ends. */
  lemma PassesOrdered(g: Graph, order: seq<File>, p: seq<File>, i: nat)
    requires Topological(g, order) && IsWalk(g, p) && i < |p| - 1
    requires Settled(g, order, p[0])
    ensures p[i] in order[..|order|]
  {
    assert Edge(g, p[0], p[0 + 1]);
    assert order[..|order|] == order;
    if i > 0 {
      assert Edge(g, p[i], p[i + 1]);
      WalkDescends(g, order, p, i, |order|);
    }
  }

  lemma SuffixIsWalk(g: Graph, p: seq<File>, i: nat)
    requires IsWalk(g, p) && i < |p|
    ensures IsWalk(g, p[i..])
  {
    forall j | 0 <= j < |p| - i - 1 ensures Edge(g, p[i..][j], p[i..][j + 1]) {
      assert Edge(g, p[i + j], p[i + j + 1]);
    }
  }

  lemma SettledDoesNotLoop(g: Graph, order: seq<File>, roots: iset<File>, p: seq<File>)
    requires Topological(g, order)
    requires forall f :: f in roots ==> Settled(g, order, f)
    ensures !Loops(g, roots, p)
  {
    if Loops(g, roots, p) {
      var i :| 0 <= i < |p| - 1 && p[i] == p[|p| - 1];
      PassesOrdered(g, order, p, i);
      SuffixIsWalk(g, p, i);
      NoReturn(g, order, p[i..], |order|);
    }
  }

  /** Nothing reachable from a settled set of roots loops. */
  lemma TopologicalHasNoCycle(g: Graph, order: seq<File>, roots: iset<File>)
    requires Topological(g, order)
    requires forall f :: f in roots ==> Settled(g, order, f)
    ensures !CycleReachable(g, roots)
  {
    forall p ensures !Loops(g, roots, p) { SettledDoesNotLoop(g, order, roots, p); }
  }

  lemma TopologicalPush(g: Graph, order: seq<File>, f: File)
    requires Topological(g, order)
    requires forall b :: Edge(g, f, b) ==> Settled(g, order, b)
    ensures Topological(g, order + [f])
  {
    var longer := order + [f];
    forall i, b | 0 <= i < |longer| && Edge(g, longer[i], b) ensures Settled(g, longer[..i], b) {
      assert longer[..i] == order[..i];
      if i == |order| { assert order[..i] == order; }
    }
  }

  // ---------------------------------------------------------------------------
  // Reachability
  // ---------------------------------------------------------------------------

  ghost predicate IsPath(g: Graph, roots: iset<File>, p: seq<File>, f: File)
  {
    |p| >= 1 && p[0] in roots && IsWalk(g, p) && p[|p| - 1] == f
  }

  ghost predicate Reachable(g: Graph, roots: iset<File>, f: File)
  {
    exists p :: IsPath(g, roots, p, f)
  }

  predicate Readable(g: Graph, f: File) { f in g && !g[f].Unreadable? }

  /** Coming back to a file of the trail closes a loop. */
  lemma BackToTrailLoops(g: Graph, roots: iset<File>, trail: seq<File>, f: File)
    requires IsPath(g, roots, trail + [f], f) && f in trail
    ensures CycleReachable(g, roots)
  {
    var p := trail + [f];
    var i :| 0 <= i < |trail| && trail[i] == f;
    assert p[i] == p[|p| - 1];
    assert Loops(g, roots, p);
  }

  lemma PathGrows(g: Graph, roots: iset<File>, p: seq<File>, a: File, b: File)
    requires IsPath(g, roots, p, a) && Edge(g, a, b)
    ensures IsPath(g, roots, p + [b], b)
  {
    var q := p + [b];
    forall i | 0 <= i < |q| - 1 ensures Edge(g, q[i], q[i + 1]) {
      if i < |p| - 1 { assert Edge(g, p[i], p[i + 1]); }
    }
  }

  /** Every reference of a finished file leads to a finished or open file, or to an unreadable one. */
  ghost predicate Closed(g: Graph, done: set<File>, stack: set<File>)
  {
    forall a, b :: a in done && Edge(g, a, b) ==> Covered(g, done, stack, b)
  }

  predicate Covered(g: Graph, done: set<File>, stack: set<File>, f: File)
  {
    f in done || f in stack || (f in g && g[f].Unreadable?)
  }

  /** The targets of the first `n` steps are covered. */
  ghost predicate CoveredSteps(g: Graph, done: set<File>, stack: set<File>, steps: seq<Step>, n: nat)
    requires n <= |steps|
  {
    forall i :: 0 <= i < n && steps[i].target.Some? ==> Covered(g, done, stack, steps[i].target.value)
  }

  ghost predicate SettledSteps(g: Graph, order: seq<File>, steps: seq<Step>, n: nat)
    requires n <= |steps|
  {
    forall i :: 0 <= i < n && steps[i].target.Some? ==> Settled(g, order, steps[i].target.value)
  }

  lemma FinishCloses(g: Graph, done: set<File>, stack: set<File>, f: File, steps: seq<Step>)
    requires Closed(g, done, stack) && f in stack
    requires forall b :: Edge(g, f, b) ==> Targets(steps, b)
    requires CoveredSteps(g, done, stack, steps, |steps|)
    ensures Closed(g, done + {f}, stack - {f})
  {
    forall a, b | a in done + {f} && Edge(g, a, b) ensures Covered(g, done + {f}, stack - {f}, b) {
      if a == f {
        var i :| 0 <= i < |steps| && steps[i].target == Some(b);
        assert Covered(g, done, stack, steps[i].target.value);
      } else {
        assert Covered(g, done, stack, b);
      }
    }
  }

  lemma {:induction false} PathStaysCovered(g: Graph, roots: iset<File>, done: set<File>, p: seq<File>, f: File)
    requires Closed(g, done, {}) && IsPath(g, roots, p, f) && Readable(g, f)
    requires forall r :: r in roots ==> Covered(g, done, {}, r)
    ensures f in done
    decreases |p|
  {
    if |p| > 1 {
      var q := p[..|p| - 1];
      var a := p[|p| - 2];
      assert Edge(g, p[|p| - 2], p[|p| - 2 + 1]);
      forall i | 0 <= i < |q| - 1 ensures Edge(g, q[i], q[i + 1]) { assert Edge(g, p[i], p[i + 1]); }
      PathStaysCovered(g, roots, done, q, a);
      assert Covered(g, done, {}, f);
    }
  }

  /** With nothing open, the finished files are exactly the readable reachable ones. */
  lemma DoneIsReachable(g: Graph, roots: iset<File>, done: set<File>)
    requires Closed(g, done, {})
    requires forall r :: r in roots ==> Covered(g, done, {}, r)
    requires forall f :: f in done ==> Readable(g, f) && Reachable(g, roots, f)
    ensures forall f :: f in done <==> Readable(g, f) && Reachable(g, roots, f)
  {
    forall f | Readable(g, f) && Reachable(g, roots, f) ensures f in done {
      var p :| IsPath(g, roots, p, f);
      PathStaysCovered(g, roots, done, p, f);
    }
  }

  // ---------------------------------------------------------------------------
  // The loader
  // ---------------------------------------------------------------------------

  class Loader {
    const graph: Graph
    /** Files being loaded: a repeat is a cycle. */
    var stack: set<File>
    /** Files that finished: a repeat is a diamond. */
    var done: set<File>
    /** Files in the order they were opened and checked. */
    ghost var checked: seq<File>
    /** Files in the order they finished. */
    ghost var order: seq<File>

    constructor (graph: Graph)
      requires GraphOk(graph)
      ensures this.graph == graph && stack == {} && done == {} && checked == [] && order == []
      ensures Valid() && Topological(graph, order) && Closed(graph, done, stack)
    {
      this.graph := graph;
      stack, done, checked, order := {}, {}, [], [];
    }

    ghost predicate Valid()
      reads this
    {
      && GraphOk(graph)
      && stack <= graph.Keys && done <= graph.Keys && stack !! done
      && Elements(order) == done
      && Distinct(checked) && Elements(checked) == done + stack
    }

    /** What every call keeps: nothing is reopened or forgotten, and what is open stays open. */
    twostate predicate Kept()
      reads this
    {
      && stack == old(stack) && old(done) <= done
      && old(checked) <= checked && old(order) <= order
    }

    /** Everything that has been checked can be reached and read. */
    ghost predicate Justified(roots: iset<File>)
      reads this
    {
      forall f :: f in done + stack ==> Readable(graph, f) && Reachable(graph, roots, f)
    }

    /** A finding means a loop; none means that the order stays topological and `settled` holds. */
    twostate predicate Finds(roots: iset<File>, issues: seq<Issue>, settled: bool)
      reads this
    {
      && (!Quiet(issues) ==> CycleReachable(graph, roots))
      && (Quiet(issues) && old(Topological(graph, order)) ==> Topological(graph, order) && settled)
    }

    /** loadActionDir, from the point where the action file is known. A file that cannot be
        read is pushed and popped at once, which leaves no trace. */
    method Load(from: File, f: File, ghost roots: iset<File>, ghost trail: seq<File>) returns (issues: seq<Issue>)
      requires Valid() && Closed(graph, done, stack) && Justified(roots)
      requires f in graph && Elements(trail) == stack && IsPath(graph, roots, trail + [f], f)
      modifies this`stack, this`done, this`checked, this`order
      ensures Valid() && Closed(graph, done, stack) && Justified(roots) && Kept()
      ensures Covered(graph, done, stack, f)
      ensures Finds(roots, issues, Settled(graph, order, f))
      decreases graph.Keys - stack - done, 2
    {
      if f in stack {
        BackToTrailLoops(graph, roots, trail, f);
        issues := [LocalActionCycle(from)];
        assert issues[0].LocalActionCycle?;
        return;
      }
      if f in done || graph[f].Unreadable? {
        return if f in done then [] else [Other("action file is missing")];
      }
      issues := Open(f, roots, trail);
    }

    /** The rest of loadActionDir, with checkAction and checkComposite: a file neither open nor
        finished is checked. One that cannot be parsed counts as a file without steps. */
    method Open(f: File, ghost roots: iset<File>, ghost trail: seq<File>) returns (issues: seq<Issue>)
      requires Valid() && Closed(graph, done, stack) && Justified(roots)
      requires Readable(graph, f) && f !in stack && f !in done
      requires Elements(trail) == stack && IsPath(graph, roots, trail + [f], f)
      modifies this`stack, this`done, this`checked, this`order
      ensures Valid() && Closed(graph, done, stack) && Justified(roots) && Kept()
      ensures f in done
      ensures Finds(roots, issues, Settled(graph, order, f))
      decreases graph.Keys - stack - done, 1
    {
      ghost var open := graph.Keys - stack - done;
      stack := stack + {f};
      checked := checked + [f];
      assert f in open && graph.Keys - stack - done == open - {f};
      var steps := [];
      match graph[f] {
        case Unparsable(issue) =>
          issues := [issue];
        case Parsed(found, s) =>
          steps := s;
          issues := found;
      }
      forall b | Targets(steps, b) ensures IsPath(graph, roots, trail + [f] + [b], b) {
        PathGrows(graph, roots, trail + [f], f, b);
      }
      assert Elements(trail + [f]) == Elements(trail) + {f};
      var more := CheckSteps(f, steps, roots, trail + [f]);
      QuietAppend(issues, more);
      issues := issues + more;
      Finish(f, steps);
    }

    /** Moves a file from the stack to `done`. */
    method Finish(f: File, ghost steps: seq<Step>)
      requires Valid() && Closed(graph, done, stack) && f in stack
      requires forall b :: Edge(graph, f, b) ==> Targets(steps, b)
      requires CoveredSteps(graph, done, stack, steps, |steps|)
      modifies this`stack, this`done, this`order
      ensures stack == old(stack) - {f} && done == old(done) + {f} && order == old(order) + [f]
      ensures Valid() && Closed(graph, done, stack)
      ensures old(Topological(graph, order)) && old(SettledSteps(graph, order, steps, |steps|)) ==> Topological(graph, order)
    {
      if Topological(graph, order) && SettledSteps(graph, order, steps, |steps|) {
        TopologicalPush(graph, order, f);
      }
      FinishCloses(graph, done, stack, f, steps);
      stack := stack - {f};
      done := done + {f};
      order := order + [f];
    }

    /** checkStepList. */
    method CheckSteps(from: File, steps: seq<Step>, ghost roots: iset<File>, ghost trail: seq<File>) returns (issues: seq<Issue>)
      requires Valid() && Closed(graph, done, stack) && Justified(roots)
      requires StepsOk(graph, steps) && Elements(trail) == stack
      requires forall f :: Targets(steps, f) ==> IsPath(graph, roots, trail + [f], f)
      modifies this`stack, this`done, this`checked, this`order
      ensures Valid() && Closed(graph, done, stack) && Justified(roots) && Kept()
      ensures CoveredSteps(graph, done, stack, steps, |steps|)
      ensures Finds(roots, issues, SettledSteps(graph, order, steps, |steps|))
      decreases graph.Keys - stack - done, 3
    {
      issues := [];
      for i := 0 to |steps|
        invariant Valid() && Closed(graph, done, stack) && Justified(roots) && Kept()
        invariant CoveredSteps(graph, done, stack, steps, i)
        invariant Finds(roots, issues, SettledSteps(graph, order, steps, i))
      {
        QuietAppend(issues, steps[i].issues);
        issues := issues + steps[i].issues;
        if steps[i].target.Some? {
          assert Targets(steps, steps[i].target.value);
          var more := Load(from, steps[i].target.value, roots, trail);
          QuietAppend(issues, more);
          issues := issues + more;
        }
      }
    }
  }

  // ---------------------------------------------------------------------------
  // All workflows, one loader
  // ---------------------------------------------------------------------------

  datatype Workflow = Workflow(file: File, steps: seq<Step>)

  ghost function Roots(workflows: seq<Workflow>): (r: iset<File>)
  {
    iset f, i | 0 <= i < |workflows| && Targets(workflows[i].steps, f) :: f
  }

  /** What the loader knows after the first `n` workflows. */
  ghost predicate Progress(g: Graph, workflows: seq<Workflow>, n: nat, done: set<File>, order: seq<File>, issues: seq<Issue>)
    requires n <= |workflows|
  {
    && Closed(g, done, {})
    && (forall i :: 0 <= i < n ==> CoveredSteps(g, done, {}, workflows[i].steps, |workflows[i].steps|))
    && (!Quiet(issues) ==> CycleReachable(g, Roots(workflows)))
    && (Quiet(issues) ==> Topological(g, order))
    && (Quiet(issues) ==> forall i :: 0 <= i < n ==> SettledSteps(g, order, workflows[i].steps, |workflows[i].steps|))
  }

  lemma Complete(g: Graph, workflows: seq<Workflow>, done: set<File>, order: seq<File>, issues: seq<Issue>)
    requires Progress(g, workflows, |workflows|, done, order, issues)
    requires forall f :: f in done ==> Readable(g, f) && Reachable(g, Roots(workflows), f)
    ensures !Quiet(issues) <==> CycleReachable(g, Roots(workflows))
    ensures forall f :: f in done <==> Readable(g, f) && Reachable(g, Roots(workflows), f)
  {
    var roots := Roots(workflows);
    forall f | f in roots ensures Covered(g, done, {}, f) && (Quiet(issues) ==> Settled(g, order, f)) {
      var i :| 0 <= i < |workflows| && Targets(workflows[i].steps, f);
      var j :| 0 <= j < |workflows[i].steps| && workflows[i].steps[j].target == Some(f);
      assert CoveredSteps(g, done, {}, workflows[i].steps, |workflows[i].steps|);
    }
    DoneIsReachable(g, roots, done);
    if Quiet(issues) { TopologicalHasNoCycle(g, order, roots); }
  }

  /** checkRoot: the loader is shared, so a file is checked once for all workflows. */
  method CheckRoot(g: Graph, workflows: seq<Workflow>) returns (issues: seq<Issue>, done: set<File>, ghost checked: seq<File>)
    requires GraphOk(g) && forall i :: 0 <= i < |workflows| ==> StepsOk(g, workflows[i].steps)
    ensures !Quiet(issues) <==> CycleReachable(g, Roots(workflows))
    ensures forall f :: f in done <==> Readable(g, f) && Reachable(g, Roots(workflows), f)
    ensures Distinct(checked) && Elements(checked) == done
  {
    var loader := new Loader(g);
    ghost var roots := Roots(workflows);
    issues := [];
    for i := 0 to |workflows|
      invariant loader.graph == g && loader.Valid() && loader.stack == {} && loader.Justified(roots)
      invariant Progress(g, workflows, i, loader.done, loader.order, issues)
    {
      var steps := workflows[i].steps;
      forall f | Targets(steps, f) ensures IsPath(g, roots, [] + [f], f) {}
      var more := loader.CheckSteps(workflows[i].file, steps, roots, []);
      QuietAppend(issues, more);
      issues := issues + more;
    }
    Complete(g, workflows, loader.done, loader.order, issues);
    done, checked := loader.done, loader.checked;
  }
}
