/** The Python visitors of the code-size checker: complexity, nesting and one metric per function. */
module CodeShape {
  import opened Common

  datatype Kind =
    | FunctionDef(name: string, lineno: int, endLineno: Option<int>, decoratorLines: seq<int>)
    | ClassDef(className: string)
    | If | For | While | IfExp
    | Try(handlers: nat)
    | Match(cases: nat)
    | BoolOp(values: nat)
    | Comprehension(ifs: nat)
    | Plain

  /** A syntax tree node with its children in field order. */
  datatype Node = Node(kind: Kind, children: seq<Node>)

  datatype Metric = Metric(path: string, symbol: string, category: string, lines: int, complexity: int, maxNesting: nat)

  predicate IsScope(k: Kind) {
    k.FunctionDef? || k.ClassDef?
  }

  predicate IsControl(k: Kind) {
    k.If? || k.For? || k.While? || k.IfExp? || k.Try? || k.Match?
  }

  /** What a node adds to the complexity of the function it belongs to. */
  function OwnWeight(k: Kind): nat {
    match k
    case If => 1
    case For => 1
    case While => 1
    case IfExp => 1
    case Try(handlers) => Max(1, handlers)
    case Match(cases) => Max(1, cases)
    case BoolOp(values) => Max(0, values - 1)
    case Comprehension(ifs) => 1 + ifs
    case _ => 0
  }

  // ---------------------------------------------------------------- the reference: functions of the tree

  /** Total weight below and at `n`, cut off at nested functions and classes. */
  function Weight(n: Node): nat {
    if IsScope(n.kind) then 0 else OwnWeight(n.kind) + WeightAll(n.children)
  }

  function WeightAll(ns: seq<Node>): nat {
    if ns == [] then 0 else WeightAll(ns[..|ns| - 1]) + Weight(ns[|ns| - 1])
  }

  /** Deepest nesting of control nodes below and at `n`, cut off at nested functions and classes. */
  function Nesting(n: Node): nat {
    if IsScope(n.kind) then 0 else NestingAll(n.children) + if IsControl(n.kind) then 1 else 0
  }

  function NestingAll(ns: seq<Node>): nat {
    if ns == [] then 0 else Max(NestingAll(ns[..|ns| - 1]), Nesting(ns[|ns| - 1]))
  }

  function MinLine(line: int, others: seq<int>): int
    decreases |others|
  {
    if others == [] then line else MinLine(if others[0] < line then others[0] else line, others[1..])
  }

  function Lines(k: Kind): int
    requires k.FunctionDef?
  {
    k.endLineno.GetOr(k.lineno) - MinLine(k.lineno, k.decoratorLines) + 1
  }

  function Join(names: seq<string>): string {
    if names == [] then "" else if |names| == 1 then names[0]
    else Join(names[..|names| - 1]) + "." + names[|names| - 1]
  }

  function MetricOf(path: string, category: string, parents: seq<string>, n: Node): Metric
    requires n.kind.FunctionDef?
  {
    Metric(path, Join(parents + [n.kind.name]), category, Lines(n.kind), 1 + WeightAll(n.children),
           NestingAll(n.children))
  }

  function Metrics(path: string, category: string, parents: seq<string>, n: Node): seq<Metric>
    decreases n, 1
  {
    if n.kind.FunctionDef? then
      [MetricOf(path, category, parents, n)] + MetricsAll(path, category, parents + [n.kind.name], n.children)
    else if n.kind.ClassDef? then
      MetricsAll(path, category, parents + [n.kind.className], n.children)
    else
      MetricsAll(path, category, parents, n.children)
  }

  function MetricsAll(path: string, category: string, parents: seq<string>, ns: seq<Node>): seq<Metric>
    decreases ns, 0
  {
    if ns == [] then []
    else MetricsAll(path, category, parents, ns[..|ns| - 1]) + Metrics(path, category, parents, ns[|ns| - 1])
  }

  // ---------------------------------------------------------------- nodes are told apart from the root

  function Size(n: Node): nat {
    1 + SizeAll(n.children)
  }

  function SizeAll(ns: seq<Node>): nat {
    if ns == [] then 0 else SizeAll(ns[..|ns| - 1]) + Size(ns[|ns| - 1])
  }

  lemma {:induction false} ChildIsSmaller(ns: seq<Node>, i: nat)
    requires i < |ns|
    ensures Size(ns[i]) <= SizeAll(ns)
  {
    if i < |ns| - 1 {
      ChildIsSmaller(ns[..|ns| - 1], i);
    }
  }

  // ---------------------------------------------------------------- the visitors

  /** Measures one function: visits its tree and stops at every function or class that is not the root. */
  class PythonShape {
    const root: Node
    var complexity: nat
    var depth: nat
    var maxNesting: nat

    constructor (root: Node)
      ensures this.root == root && complexity == 1 && depth == 0 && maxNesting == 0
    {
      this.root, complexity, depth, maxNesting := root, 1, 0, 0;
    }

    /** Visits the root or a proper part of it; `node is self.root` is equality here, which no proper
        part of the root satisfies. */
    method Visit(node: Node)
      requires depth <= maxNesting && IsScope(root.kind)
      requires node == root || Size(node) < Size(root)
      modifies this
      ensures depth == old(depth)
      ensures complexity == old(complexity) + if node == root then WeightAll(node.children) else Weight(node)
      ensures maxNesting
        == Max(old(maxNesting), depth + if node == root then NestingAll(node.children) else Nesting(node))
      decreases node, 2
    {
      var k := node.kind;
      if IsScope(k) {
        if node == root {
          GenericVisit(node);
        }
      } else if IsControl(k) {
        Control(node, OwnWeight(k));
      } else {
        complexity := complexity + OwnWeight(k);
        GenericVisit(node);
      }
    }

    method Control(node: Node, extraComplexity: nat)
      requires depth <= maxNesting && IsScope(root.kind) && Size(node) < Size(root)
      modifies this
      ensures depth == old(depth)
      ensures complexity == old(complexity) + extraComplexity + WeightAll(node.children)
      ensures maxNesting == Max(old(maxNesting), depth + 1 + NestingAll(node.children))
      decreases node, 1
    {
      complexity := complexity + extraComplexity;
      depth := depth + 1;
      maxNesting := Max(maxNesting, depth);
      GenericVisit(node);
      depth := depth - 1;
    }

    method GenericVisit(node: Node)
      requires depth <= maxNesting && IsScope(root.kind) && Size(node) <= Size(root)
      modifies this
      ensures depth == old(depth)
      ensures complexity == old(complexity) + WeightAll(node.children)
      ensures maxNesting == Max(old(maxNesting), depth + NestingAll(node.children))
      decreases node, 0
    {
      var ns := node.children;
      for i := 0 to |ns|
        invariant depth == old(depth) && depth <= maxNesting
        invariant complexity == old(complexity) + WeightAll(ns[..i])
        invariant maxNesting == Max(old(maxNesting), depth + NestingAll(ns[..i]))
      {
        ChildIsSmaller(ns, i);
        Visit(ns[i]);
        assert ns[..i + 1][..i] == ns[..i];
      }
      assert ns[..|ns|] == ns;
    }
  }

  /** Collects one metric per function, nested ones included, with the enclosing names as its symbol. */
  class PythonCallables {
    const relative: string
    const category: string
    var parents: seq<string>
    var metrics: seq<Metric>

    constructor (relative: string, category: string)
      ensures this.relative == relative && this.category == category && parents == [] && metrics == []
    {
      this.relative, this.category, parents, metrics := relative, category, [], [];
    }

    method Visit(node: Node)
      modifies this
      ensures parents == old(parents)
      ensures metrics == old(metrics) + Metrics(relative, category, parents, node)
      decreases node, 2
    {
      if node.kind.FunctionDef? {
        VisitCallable(node);
      } else if node.kind.ClassDef? {
        parents := parents + [node.kind.className];
        GenericVisit(node);
        parents := parents[..|parents| - 1];
      } else {
        GenericVisit(node);
      }
    }

    method VisitCallable(node: Node)
      requires node.kind.FunctionDef?
      modifies this
      ensures parents == old(parents)
      ensures metrics == old(metrics) + Metrics(relative, category, parents, node)
      decreases node, 1
    {
      var symbol := Join(parents + [node.kind.name]);
      var shape := new PythonShape(node);
      shape.Visit(node);
      metrics := metrics + [Metric(relative, symbol, category, Lines(node.kind), shape.complexity, shape.maxNesting)];
      parents := parents + [node.kind.name];
      GenericVisit(node);
      parents := parents[..|parents| - 1];
    }

    method GenericVisit(node: Node)
      modifies this
      ensures parents == old(parents)
      ensures metrics == old(metrics) + MetricsAll(relative, category, parents, node.children)
      decreases node, 0
    {
      var ns := node.children;
      for i := 0 to |ns|
        invariant parents == old(parents)
        invariant metrics == old(metrics) + MetricsAll(relative, category, parents, ns[..i])
      {
        Visit(ns[i]);
        assert ns[..i + 1][..i] == ns[..i];
      }
      assert ns[..|ns|] == ns;
    }
  }

  // ---------------------------------------------------------------- what the metrics say

  lemma {:induction false} NestingBelowWeight(n: Node)
    ensures Nesting(n) <= Weight(n)
    decreases n, 1
  {
    if !IsScope(n.kind) {
      NestingAllBelowWeight(n.children);
    }
  }

  lemma {:induction false} NestingAllBelowWeight(ns: seq<Node>)
    ensures NestingAll(ns) <= WeightAll(ns)
    decreases ns, 0
  {
    if ns != [] {
      NestingAllBelowWeight(ns[..|ns| - 1]);
      NestingBelowWeight(ns[|ns| - 1]);
    }
  }

  /** The function definitions of a tree in pre-order. */
  ghost function Functions(n: Node): seq<Node> {
    (if n.kind.FunctionDef? then [n] else []) + FunctionsAll(n.children)
  }

  ghost function FunctionsAll(ns: seq<Node>): seq<Node> {
    if ns == [] then [] else FunctionsAll(ns[..|ns| - 1]) + Functions(ns[|ns| - 1])
  }

  /** Metric `m` measures function `f`, and its nesting stays below its complexity. */
  ghost predicate Measures(m: Metric, f: Node) {
    && f.kind.FunctionDef?
    && m.lines == Lines(f.kind)
    && m.complexity == 1 + WeightAll(f.children)
    && m.maxNesting == NestingAll(f.children)
    && m.maxNesting <= m.complexity - 1
  }

  ghost predicate MeasureAll(ms: seq<Metric>, fs: seq<Node>) {
    |ms| == |fs| && forall i :: 0 <= i < |ms| ==> Measures(ms[i], fs[i])
  }

  /** One metric per function definition, in pre-order. */
  lemma {:induction false} OneMetricPerFunction(path: string, category: string, parents: seq<string>, n: Node)
    ensures MeasureAll(Metrics(path, category, parents, n), Functions(n))
    decreases n, 1
  {
    hide Measures;
    if n.kind.FunctionDef? {
      MetricMeasures(path, category, parents, n);
      OneMetricPerFunctionAll(path, category, parents + [n.kind.name], n.children);
    } else if n.kind.ClassDef? {
      OneMetricPerFunctionAll(path, category, parents + [n.kind.className], n.children);
    } else {
      OneMetricPerFunctionAll(path, category, parents, n.children);
    }
  }

  lemma MetricMeasures(path: string, category: string, parents: seq<string>, n: Node)
    requires n.kind.FunctionDef?
    ensures Measures(MetricOf(path, category, parents, n), n)
  {
    NestingAllBelowWeight(n.children);
  }

  lemma {:induction false} OneMetricPerFunctionAll(path: string, category: string, parents: seq<string>, ns: seq<Node>)
    ensures MeasureAll(MetricsAll(path, category, parents, ns), FunctionsAll(ns))
    decreases ns, 0
  {
    hide Measures;
    if ns != [] {
      OneMetricPerFunctionAll(path, category, parents, ns[..|ns| - 1]);
      OneMetricPerFunction(path, category, parents, ns[|ns| - 1]);
    }
  }

  /** Total weight of the nodes whose nearest enclosing function or class is a function; `inFunction`
      says whether that is so for `n` itself. */
  ghost function Owned(n: Node, inFunction: bool): nat {
    if n.kind.FunctionDef? then OwnedAll(n.children, true)
    else if n.kind.ClassDef? then OwnedAll(n.children, false)
    else (if inFunction then OwnWeight(n.kind) else 0) + OwnedAll(n.children, inFunction)
  }

  ghost function OwnedAll(ns: seq<Node>, inFunction: bool): nat {
    if ns == [] then 0 else OwnedAll(ns[..|ns| - 1], inFunction) + Owned(ns[|ns| - 1], inFunction)
  }

  ghost function Decisions(ms: seq<Metric>): int {
    if ms == [] then 0 else Decisions(ms[..|ms| - 1]) + ms[|ms| - 1].complexity - 1
  }

  lemma {:induction false} DecisionsAppend(a: seq<Metric>, b: seq<Metric>)
    ensures Decisions(a + b) == Decisions(a) + Decisions(b)
  {
    if b == [] {
      assert a + b == a;
    } else {
      assert (a + b)[..|a + b| - 1] == a + b[..|b| - 1];
      DecisionsAppend(a, b[..|b| - 1]);
    }
  }

  lemma {:induction false} DecisionsAreConserved(path: string, category: string, parents: seq<string>, n: Node, inFunction: bool)
    ensures Decisions(Metrics(path, category, parents, n)) + (if inFunction then Weight(n) else 0)
      == Owned(n, inFunction)
    decreases n, 1
  {
    if n.kind.FunctionDef? {
      var m := MetricOf(path, category, parents, n);
      DecisionsAreConservedAll(path, category, parents + [n.kind.name], n.children, true);
      DecisionsAppend([m], MetricsAll(path, category, parents + [n.kind.name], n.children));
      assert Decisions([m]) == m.complexity - 1;
    } else if n.kind.ClassDef? {
      DecisionsAreConservedAll(path, category, parents + [n.kind.className], n.children, false);
    } else {
      DecisionsAreConservedAll(path, category, parents, n.children, inFunction);
    }
  }

  lemma {:induction false} DecisionsAreConservedAll(path: string, category: string, parents: seq<string>, ns: seq<Node>,
                                                    inFunction: bool)
    ensures Decisions(MetricsAll(path, category, parents, ns)) + (if inFunction then WeightAll(ns) else 0)
      == OwnedAll(ns, inFunction)
    decreases ns, 0
  {
    if ns != [] {
      var n := |ns| - 1;
      DecisionsAreConservedAll(path, category, parents, ns[..n], inFunction);
      DecisionsAreConserved(path, category, parents, ns[n], inFunction);
      DecisionsAppend(MetricsAll(path, category, parents, ns[..n]), Metrics(path, category, parents, ns[n]));
    }
  }

  /** Over a whole module, the complexities less one add up to the weight of the nodes that belong to a
      function: no decision is lost and none is counted twice. */
  lemma ModuleDecisions(path: string, category: string, tree: Node)
    requires !IsScope(tree.kind)
    ensures Decisions(Metrics(path, category, [], tree)) == Owned(tree, false)
  {
    DecisionsAreConserved(path, category, [], tree, false);
  }
}
