/** The metrics of the code-size checker without its visitors: decisions are summed over the nodes of a
    function's own body, nesting is measured along paths, and symbols are the names on the way down. */
module CodeShapeRows {
  import opened Common
  import opened CodeShape

  // ---------------------------------------------------------------- decisions

  /** The kinds of the nodes at and below `n` that no nested function or class encloses. */
  ghost function OwnKinds(n: Node): seq<Kind> {
    if n.kind.FunctionDef? || n.kind.ClassDef? then [] else [n.kind] + OwnKindsAll(n.children)
  }

  ghost function OwnKindsAll(ns: seq<Node>): seq<Kind> {
    if ns == [] then [] else OwnKindsAll(ns[..|ns| - 1]) + OwnKinds(ns[|ns| - 1])
  }

  /** Arms beyond straight-line code: one for a branch or loop, one for each handler or case but at least one,
      one for each operand but the first, one for a comprehension and for each of its conditions. */
  ghost function Arms(ks: seq<Kind>): nat {
    if ks == [] then 0
    else
      var k := ks[|ks| - 1];
      Arms(ks[..|ks| - 1]) +
        if k == If || k == For || k == While || k == IfExp then 1
        else if k.Try? then (if k.handlers == 0 then 1 else k.handlers)
        else if k.Match? then (if k.cases == 0 then 1 else k.cases)
        else if k.BoolOp? then (if k.values == 0 then 0 else k.values - 1)
        else if k.Comprehension? then 1 + k.ifs
        else 0
  }

  lemma {:induction false} ArmsAppend(a: seq<Kind>, b: seq<Kind>)
    ensures Arms(a + b) == Arms(a) + Arms(b)
  {
    if b == [] {
      assert a + b == a;
    } else {
      assert (a + b)[..|a + b| - 1] == a + b[..|b| - 1];
      ArmsAppend(a, b[..|b| - 1]);
    }
  }

  lemma OneKind(k: Kind)
    requires !IsScope(k)
    ensures Arms([k]) == OwnWeight(k)
  {
    assert [k][..0] == [];
  }

  /** The weight of a tree is the number of arms of its own nodes. */
  lemma {:induction false} WeightIsArms(n: Node)
    ensures Weight(n) == Arms(OwnKinds(n))
    decreases n, 1
  {
    if !IsScope(n.kind) {
      WeightAllIsArms(n.children);
      OneKind(n.kind);
      ArmsAppend([n.kind], OwnKindsAll(n.children));
    }
  }

  lemma {:induction false} WeightAllIsArms(ns: seq<Node>)
    ensures WeightAll(ns) == Arms(OwnKindsAll(ns))
    decreases ns, 0
  {
    if ns != [] {
      WeightAllIsArms(ns[..|ns| - 1]);
      WeightIsArms(ns[|ns| - 1]);
      ArmsAppend(OwnKindsAll(ns[..|ns| - 1]), OwnKinds(ns[|ns| - 1]));
    }
  }

  // ---------------------------------------------------------------- nesting

  /** The kinds along a way down from one of the nodes, child by child, without entering a function or class. */
  ghost predicate IsPath(ns: seq<Node>, ks: seq<Kind>)
    decreases ks
  {
    ks == [] || exists n | n in ns :: n.kind == ks[0] && !n.kind.FunctionDef? && !n.kind.ClassDef? && IsPath(n.children, ks[1..])
  }

  /** How many branches, loops, tries and matches are on the path. */
  ghost function Controls(ks: seq<Kind>): nat {
    if ks == [] then 0
    else
      var k := ks[0];
      (if k == If || k == For || k == While || k == IfExp || k.Try? || k.Match? then 1 else 0) + Controls(ks[1..])
  }

  lemma {:induction false} ChildNesting(ns: seq<Node>, n: Node)
    requires n in ns
    ensures Nesting(n) <= NestingAll(ns)
  {
    if n != ns[|ns| - 1] {
      assert n in ns[..|ns| - 1];
      ChildNesting(ns[..|ns| - 1], n);
    }
  }

  lemma {:induction false} PathsAreShallow(ns: seq<Node>, ks: seq<Kind>)
    requires IsPath(ns, ks)
    ensures Controls(ks) <= NestingAll(ns)
    decreases ks
  {
    if ks != [] {
      var n :| n in ns && n.kind == ks[0] && !n.kind.FunctionDef? && !n.kind.ClassDef? && IsPath(n.children, ks[1..]);
      PathsAreShallow(n.children, ks[1..]);
      ChildNesting(ns, n);
    }
  }

  lemma {:induction false} DeepestChild(ns: seq<Node>) returns (n: Node)
    requires ns != []
    ensures n in ns && Nesting(n) == NestingAll(ns)
  {
    var rest, last := ns[..|ns| - 1], ns[|ns| - 1];
    n := last;
    if rest != [] && NestingAll(rest) > Nesting(last) {
      n := DeepestChild(rest);
    }
  }

  lemma {:induction false} DeepestPath(ns: seq<Node>) returns (ks: seq<Kind>)
    ensures IsPath(ns, ks) && Controls(ks) == NestingAll(ns)
  {
    ks := [];
    if ns != [] && NestingAll(ns) > 0 {
      var n := DeepestChild(ns);
      var below := DeepestPath(n.children);
      ks := [n.kind] + below;
      assert ks[1..] == below;
    }
  }

  /** The nesting of a function body is the largest number of control nodes on one way down. */
  lemma NestingIsDeepestPath(ns: seq<Node>)
    ensures exists ks :: IsPath(ns, ks) && Controls(ks) == NestingAll(ns)
    ensures forall ks | IsPath(ns, ks) :: Controls(ks) <= NestingAll(ns)
  {
    var deepest := DeepestPath(ns);
    forall ks | IsPath(ns, ks) ensures Controls(ks) <= NestingAll(ns) {
      PathsAreShallow(ns, ks);
    }
  }

  // ---------------------------------------------------------------- lines and symbols

  /** The first line of a definition with its decorators. */
  ghost predicate FirstLine(k: Kind, line: int)
    requires k.FunctionDef?
  {
    && line <= k.lineno && (forall d | d in k.decoratorLines :: line <= d)
    && (line == k.lineno || line in k.decoratorLines)
  }

  lemma {:induction false} MinIsFirst(line: int, others: seq<int>)
    ensures var m := MinLine(line, others);
      m <= line && (forall d | d in others :: m <= d) && (m == line || m in others)
    decreases |others|
  {
    if others != [] {
      MinIsFirst(if others[0] < line then others[0] else line, others[1..]);
      assert others == [others[0]] + others[1..];
    }
  }

  lemma LinesAreSpanned(k: Kind)
    requires k.FunctionDef?
    ensures exists first :: FirstLine(k, first) && Lines(k) == (if k.endLineno.Some? then k.endLineno.value else k.lineno) - first + 1
  {
    MinIsFirst(k.lineno, k.decoratorLines);
    assert FirstLine(k, MinLine(k.lineno, k.decoratorLines));
  }

  /** The names separated by dots. */
  ghost function Dotted(names: seq<string>): string {
    if names == [] then "" else if |names| == 1 then names[0] else names[0] + "." + Dotted(names[1..])
  }

  lemma {:induction false} JoinIsDotted(names: seq<string>)
    ensures Join(names) == Dotted(names)
  {
    if |names| > 1 {
      var n := |names| - 1;
      JoinIsDotted(names[..n]);
      DottedSnoc(names[..n], names[n]);
      assert names == names[..n] + [names[n]];
    }
  }

  lemma {:induction false} DottedSnoc(names: seq<string>, last: string)
    requires names != []
    ensures Dotted(names + [last]) == Dotted(names) + "." + last
  {
    assert (names + [last])[1..] == names[1..] + [last];
    if |names| > 1 {
      DottedSnoc(names[1..], last);
    }
  }

  /** The function definitions in pre-order, each with the names of the functions and classes around it. */
  ghost function Defined(around: seq<string>, n: Node): seq<(seq<string>, Node)>
    decreases n, 1
  {
    if n.kind.FunctionDef? then [(around, n)] + DefinedAll(around + [n.kind.name], n.children)
    else DefinedAll(if n.kind.ClassDef? then around + [n.kind.className] else around, n.children)
  }

  ghost function DefinedAll(around: seq<string>, ns: seq<Node>): seq<(seq<string>, Node)>
    decreases ns, 0
  {
    if ns == [] then [] else DefinedAll(around, ns[..|ns| - 1]) + Defined(around, ns[|ns| - 1])
  }

  /** The metric of a definition, from its lines, its own nodes and the paths through them. */
  ghost predicate IsMetric(path: string, category: string, d: (seq<string>, Node), m: Metric) {
    && d.1.kind.FunctionDef?
    && m.path == path && m.category == category && m.symbol == Dotted(d.0 + [d.1.kind.name])
    && (exists first :: FirstLine(d.1.kind, first) &&
          m.lines == (if d.1.kind.endLineno.Some? then d.1.kind.endLineno.value else d.1.kind.lineno) - first + 1)
    && m.complexity == 1 + Arms(OwnKindsAll(d.1.children))
    && (exists ks :: IsPath(d.1.children, ks) && Controls(ks) == m.maxNesting)
    && (forall ks | IsPath(d.1.children, ks) :: Controls(ks) <= m.maxNesting)
  }

  ghost predicate AreMetrics(path: string, category: string, ds: seq<(seq<string>, Node)>, ms: seq<Metric>) {
    |ms| == |ds| && forall i | 0 <= i < |ms| :: IsMetric(path, category, ds[i], ms[i])
  }

  lemma MetricIs(path: string, category: string, around: seq<string>, n: Node)
    requires n.kind.FunctionDef?
    ensures IsMetric(path, category, (around, n), MetricOf(path, category, around, n))
  {
    JoinIsDotted(around + [n.kind.name]);
    LinesAreSpanned(n.kind);
    WeightAllIsArms(n.children);
    NestingIsDeepestPath(n.children);
    hide Join, Dotted, Lines, FirstLine, WeightAll, Arms, NestingAll, Controls, IsPath;
  }

  /** The collected metrics are those of the definitions, in pre-order. */
  lemma {:induction false} MetricsAreDefined(path: string, category: string, around: seq<string>, n: Node)
    ensures AreMetrics(path, category, Defined(around, n), Metrics(path, category, around, n))
    decreases n, 1
  {
    hide IsMetric;
    if n.kind.FunctionDef? {
      MetricIs(path, category, around, n);
      MetricsAllAreDefined(path, category, around + [n.kind.name], n.children);
    } else if n.kind.ClassDef? {
      MetricsAllAreDefined(path, category, around + [n.kind.className], n.children);
    } else {
      MetricsAllAreDefined(path, category, around, n.children);
    }
  }

  lemma {:induction false} MetricsAllAreDefined(path: string, category: string, around: seq<string>, ns: seq<Node>)
    ensures AreMetrics(path, category, DefinedAll(around, ns), MetricsAll(path, category, around, ns))
    decreases ns, 0
  {
    hide IsMetric;
    if ns != [] {
      MetricsAllAreDefined(path, category, around, ns[..|ns| - 1]);
      MetricsAreDefined(path, category, around, ns[|ns| - 1]);
    }
  }
}
