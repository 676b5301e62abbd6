/** The static evaluator of string sets in the worker contract checker. */
module StaticStrings {
  import opened Common

  /** A syntax tree node as the evaluator tells them apart; `Call` is a call of a plain name. */
  datatype Node =
    | Str(value: string)
    | Name(id: string)
    | Starred(inner: Node)
    | Display(elts: seq<Node>)
    | Call(func: string, args: seq<Node>)
    | Other

  datatype Error = NotStatic | NoArgument

  type Names = map<string, Node>

  lemma RemoveOne(names: Names, x: string)
    requires x in names
    ensures |names - {x}| == |names| - 1
  {
    assert (names - {x}).Keys == names.Keys - {x};
    assert |names - {x}| == |(names - {x}).Keys| == |names.Keys| - 1;
  }

  // ---------------------------------------------------------------- the evaluator

  /** The strings of a node; each name is looked up at most once on the way down, so that the number of
      names left, then the node, decreases. */
  function Strings(n: Node, names: Names): Result<set<string>, Error>
    decreases |names|, n, 1
  {
    match n
    case Str(s) => Ok({s})
    case Name(x) =>
      if x !in names then Err(NotStatic)
      else
        RemoveOne(names, x);
        Strings(names[x], names - {x})
    case Starred(inner) => Strings(inner, names)
    case Display(elts) => UnionOf(elts, names)
    case Call(func, args) =>
      if func != "frozenset" then Err(NotStatic)
      else if args == [] then Err(NoArgument)
      else Strings(args[0], names)
    case Other => Err(NotStatic)
  }

  function UnionOf(ns: seq<Node>, names: Names): Result<set<string>, Error>
    decreases |names|, ns, 0
  {
    if ns == [] then Ok({})
    else
      var first := Strings(ns[0], names);
      if first.Err? then first
      else
        var rest := UnionOf(ns[1..], names);
        if rest.Err? then rest else Ok(first.value + rest.value)
  }

  // ---------------------------------------------------------------- putting removed names back

  /** A result found with some names removed is the same with them put back. */
  lemma {:induction false} MoreNamesSameResult(n: Node, fewer: Names, more: Names)
    requires forall x :: x in fewer ==> x in more && more[x] == fewer[x]
    requires Strings(n, fewer).Ok?
    ensures Strings(n, more) == Strings(n, fewer)
    decreases |fewer|, n, 1
  {
    match n {
      case Name(x) =>
        RemoveOne(fewer, x);
        MoreNamesSameResult(fewer[x], fewer - {x}, more - {x});
      case Starred(inner) => MoreNamesSameResult(inner, fewer, more);
      case Display(elts) => MoreNamesSameUnion(elts, fewer, more);
      case Call(_, args) => MoreNamesSameResult(args[0], fewer, more);
      case _ =>
    }
  }

  lemma {:induction false} MoreNamesSameUnion(ns: seq<Node>, fewer: Names, more: Names)
    requires forall x :: x in fewer ==> x in more && more[x] == fewer[x]
    requires UnionOf(ns, fewer).Ok?
    ensures UnionOf(ns, more) == UnionOf(ns, fewer)
    decreases |fewer|, ns, 0
  {
    if ns != [] {
      MoreNamesSameResult(ns[0], fewer, more);
      MoreNamesSameUnion(ns[1..], fewer, more);
    }
  }

  // ---------------------------------------------------------------- removing names loses nothing

  /** The evaluator without removal of names: every look-up sees all names and costs one unit of fuel. */
  ghost function Unrolled(n: Node, names: Names, fuel: nat): Result<set<string>, Error>
    decreases fuel, n, 1
  {
    match n
    case Str(s) => Ok({s})
    case Name(x) => if x in names && fuel > 0 then Unrolled(names[x], names, fuel - 1) else Err(NotStatic)
    case Starred(inner) => Unrolled(inner, names, fuel)
    case Display(elts) => UnrolledUnion(elts, names, fuel)
    case Call(func, args) =>
      if func != "frozenset" then Err(NotStatic)
      else if args == [] then Err(NoArgument)
      else Unrolled(args[0], names, fuel)
    case Other => Err(NotStatic)
  }

  ghost function UnrolledUnion(ns: seq<Node>, names: Names, fuel: nat): Result<set<string>, Error>
    decreases fuel, ns, 0
  {
    if ns == [] then Ok({})
    else
      var first := Unrolled(ns[0], names, fuel);
      if first.Err? then first
      else
        var rest := UnrolledUnion(ns[1..], names, fuel);
        if rest.Err? then rest else Ok(first.value + rest.value)
  }

  lemma {:induction false} MoreFuelSameResult(n: Node, names: Names, fuel: nat, more: nat)
    requires fuel <= more && Unrolled(n, names, fuel).Ok?
    ensures Unrolled(n, names, more) == Unrolled(n, names, fuel)
    decreases fuel, n, 1
  {
    match n {
      case Name(x) => MoreFuelSameResult(names[x], names, fuel - 1, more - 1);
      case Starred(inner) => MoreFuelSameResult(inner, names, fuel, more);
      case Display(elts) => MoreFuelSameUnion(elts, names, fuel, more);
      case Call(_, args) => MoreFuelSameResult(args[0], names, fuel, more);
      case _ =>
    }
  }

  lemma {:induction false} MoreFuelSameUnion(ns: seq<Node>, names: Names, fuel: nat, more: nat)
    requires fuel <= more && UnrolledUnion(ns, names, fuel).Ok?
    ensures UnrolledUnion(ns, names, more) == UnrolledUnion(ns, names, fuel)
    decreases fuel, ns, 0
  {
    if ns != [] {
      MoreFuelSameResult(ns[0], names, fuel, more);
      MoreFuelSameUnion(ns[1..], names, fuel, more);
    }
  }

  ghost predicate Within(left: Names, names: Names) {
    forall x :: x in left ==> x in names && names[x] == left[x]
  }

  lemma StillWithin(left: Names, names: Names, x: string)
    requires Within(left, names) && x in left
    ensures Within(left - {x}, names) && x in names && names[x] == left[x]
  {
  }

  /** A result of the evaluator unrolls, with no more look-ups in a row than there are names. */
  lemma {:induction false} ResultUnrolls(n: Node, left: Names, names: Names)
    requires Within(left, names)
    requires Strings(n, left).Ok?
    ensures Unrolled(n, names, |left|) == Strings(n, left)
    decreases |left|, n, 1
  {
    match n {
      case Name(x) =>
        RemoveOne(left, x);
        StillWithin(left, names, x);
        hide Within;
        ResultUnrolls(left[x], left - {x}, names);
        assert Unrolled(n, names, |left|) == Unrolled(left[x], names, |left| - 1);
      case Starred(inner) => ResultUnrolls(inner, left, names);
      case Display(elts) => UnionUnrolls(elts, left, names);
      case Call(_, args) => ResultUnrolls(args[0], left, names);
      case _ =>
    }
  }

  lemma {:induction false} UnionUnrolls(ns: seq<Node>, left: Names, names: Names)
    requires Within(left, names)
    requires UnionOf(ns, left).Ok?
    ensures UnrolledUnion(ns, names, |left|) == UnionOf(ns, left)
    decreases |left|, ns, 0
  {
    if ns != [] {
      ResultUnrolls(ns[0], left, names);
      UnionUnrolls(ns[1..], left, names);
    }
  }

  /** None of the removed names can be evaluated with the fuel at hand. */
  ghost predicate OutOfReach(removed: set<string>, names: Names, fuel: nat) {
    forall x :: x in removed ==> !Unrolled(Name(x), names, fuel).Ok?
  }

  /** The least fuel with which a name can be evaluated. */
  lemma {:induction false} LeastFuel(x: string, names: Names, fuel: nat) returns (least: nat)
    requires Unrolled(Name(x), names, fuel).Ok?
    ensures 0 < least <= fuel && Unrolled(Name(x), names, least).Ok?
    ensures !Unrolled(Name(x), names, least - 1).Ok?
  {
    least := fuel;
    while Unrolled(Name(x), names, least - 1).Ok?
      invariant 0 < least <= fuel && Unrolled(Name(x), names, least).Ok?
      decreases least
    {
      least := least - 1;
    }
  }

  /** What unrolls is found by the evaluator, even without the names that are out of reach: looking a
      name up again below itself never helps. */
  lemma {:induction false} UnrolledIsFound(n: Node, names: Names, fuel: nat, removed: set<string>)
    requires Unrolled(n, names, fuel).Ok? && OutOfReach(removed, names, fuel)
    ensures Strings(n, names - removed) == Unrolled(n, names, fuel)
    decreases fuel, n, 1
  {
    match n {
      case Name(x) =>
        var least := LeastFuel(x, names, fuel);
        var again := removed + {x};
        forall y | y in again ensures !Unrolled(Name(y), names, least - 1).Ok? {
          if y in removed && Unrolled(Name(y), names, least - 1).Ok? {
            MoreFuelSameResult(Name(y), names, least - 1, fuel);
          }
        }
        UnrolledIsFound(names[x], names, least - 1, again);
        assert (names - removed) - {x} == names - again;
        MoreFuelSameResult(names[x], names, least - 1, fuel - 1);
      case Starred(inner) => UnrolledIsFound(inner, names, fuel, removed);
      case Display(elts) => UnrolledUnionIsFound(elts, names, fuel, removed);
      case Call(_, args) => UnrolledIsFound(args[0], names, fuel, removed);
      case _ =>
    }
  }

  lemma {:induction false} UnrolledUnionIsFound(ns: seq<Node>, names: Names, fuel: nat, removed: set<string>)
    requires UnrolledUnion(ns, names, fuel).Ok? && OutOfReach(removed, names, fuel)
    ensures UnionOf(ns, names - removed) == UnrolledUnion(ns, names, fuel)
    decreases fuel, ns, 0
  {
    if ns != [] {
      UnrolledIsFound(ns[0], names, fuel, removed);
      UnrolledUnionIsFound(ns[1..], names, fuel, removed);
    }
  }

  /** Removing names on the way down makes the evaluator terminate and loses no result: it returns a set
      exactly when unrolling the assignments to some depth returns that set. */
  lemma RemovalIsComplete(n: Node, names: Names, found: set<string>)
    ensures Strings(n, names) == Ok(found) <==> exists fuel: nat :: Unrolled(n, names, fuel) == Ok(found)
  {
    if Strings(n, names) == Ok(found) {
      ResultUnrolls(n, names, names);
    }
    if fuel: nat :| Unrolled(n, names, fuel) == Ok(found) {
      UnrolledIsFound(n, names, fuel, {});
      assert names - {} == names;
    }
  }

  // ---------------------------------------------------------------- what the program computes

  /** A run-time value: a string, or a set, list or tuple of values. */
  datatype Value = Text(text: string) | Collection(items: seq<Value>)

  /** Iterating over a value; a string yields its characters. */
  ghost function Items(v: Value): seq<Value> {
    match v
    case Text(s) => seq(|s|, i requires 0 <= i < |s| => Text([s[i]]))
    case Collection(items) => items
  }

  /** The strings a value holds, at any depth. */
  ghost function Leaves(v: Value): set<string> {
    match v
    case Text(s) => {s}
    case Collection(items) => LeavesOf(items)
  }

  ghost function LeavesOf(vs: seq<Value>): set<string> {
    if vs == [] then {} else Leaves(vs[0]) + LeavesOf(vs[1..])
  }

  type Environment = map<string, Value>

  /** The value of an expression; None where the program raises or has no such expression. */
  ghost function ValueOf(n: Node, env: Environment): Option<Value>
    decreases n, 0
  {
    match n
    case Str(s) => Some(Text(s))
    case Name(x) => if x in env then Some(env[x]) else None
    case Display(elts) =>
      var items := ItemsOf(elts, env);
      if items.None? then None else Some(Collection(items.value))
    case Call(func, args) =>
      if func != "frozenset" || |args| != 1 then None
      else
        var v := ValueOf(args[0], env);
        if v.None? then None else Some(Collection(Items(v.value)))
    case _ => None
  }

  /** What an element adds to a display: its value, or the items of a starred one. */
  ghost function SpreadOf(n: Node, env: Environment): Option<seq<Value>>
    decreases n, 1
  {
    if n.Starred? then
      var v := ValueOf(n.inner, env);
      if v.None? then None else Some(Items(v.value))
    else
      var v := ValueOf(n, env);
      if v.None? then None else Some([v.value])
  }

  ghost function ItemsOf(ns: seq<Node>, env: Environment): Option<seq<Value>>
    decreases ns, 0
  {
    if ns == [] then Some([])
    else
      var first, rest := SpreadOf(ns[0], env), ItemsOf(ns[1..], env);
      if first.None? || rest.None? then None else Some(first.value + rest.value)
  }

  /** Every assignment holds in the environment. */
  ghost predicate Satisfies(env: Environment, names: Names) {
    forall x :: x in names ==> x in env && ValueOf(names[x], env) == Some(env[x])
  }

  // ---------------------------------------------------------------- strings that are iterated over

  /** The text an expression is, as far as literals and assigned names show. */
  function TextOf(n: Node, names: Names): Option<string>
    decreases |names|, n
  {
    match n
    case Str(s) => Some(s)
    case Name(x) =>
      if x !in names then None
      else
        RemoveOne(names, x);
        TextOf(names[x], names - {x})
    case _ => None
  }

  /** What the evaluator visits of an expression, in two parts: the strings that are elements, and the texts,
      of other than one character, that are iterated over. */
  datatype Visited = Visited(kept: set<string>, spelt: set<string>) {
    function Plus(other: Visited): Visited {
      Visited(kept + other.kept, spelt + other.spelt)
    }

    function Found(): set<string> {
      kept + spelt
    }

    /** The strings of the value: an iterated text contributes its characters. */
    function Elements(): set<string> {
      kept + Chars(spelt)
    }
  }

  function Chars(texts: set<string>): set<string> {
    set s, c | s in texts && c in s :: [c]
  }

  function Visit(n: Node, names: Names): Visited
    decreases |names|, n, 1
  {
    match n
    case Str(s) => Visited({s}, {})
    case Name(x) =>
      if x !in names then Visited({}, {})
      else
        RemoveOne(names, x);
        Visit(names[x], names - {x})
    case Starred(inner) => Iterate(TextOf(inner, names), Visit(inner, names))
    case Display(elts) => VisitAll(elts, names)
    case Call(_, args) =>
      if args == [] then Visited({}, {}) else Iterate(TextOf(args[0], names), Visit(args[0], names))
    case Other => Visited({}, {})
  }

  function VisitAll(ns: seq<Node>, names: Names): Visited
    decreases |names|, ns, 0
  {
    if ns == [] then Visited({}, {}) else Visit(ns[0], names).Plus(VisitAll(ns[1..], names))
  }

  /** Iterating over what has been visited, which is a text or a collection. */
  function Iterate(text: Option<string>, visited: Visited): Visited {
    if text.None? then visited
    else if |text.value| == 1 then Visited({text.value}, {})
    else Visited({}, {text.value})
  }

  // ---------------------------------------------------------------- exactly when the set found is right

  lemma {:induction false} LeavesAppend(a: seq<Value>, b: seq<Value>)
    ensures LeavesOf(a + b) == LeavesOf(a) + LeavesOf(b)
  {
    if a == [] {
      assert a + b == b;
    } else {
      assert (a + b)[1..] == a[1..] + b;
      LeavesAppend(a[1..], b);
    }
  }

  /** Iterating keeps the strings of a value, unless it takes a string apart. */
  lemma ItemsKeepLeaves(v: Value)
    requires v.Text? ==> |v.text| == 1
    ensures LeavesOf(Items(v)) == Leaves(v)
  {
    if v.Text? {
      assert [v.text[0]] == v.text;
      assert Items(v) == [Text(v.text)];
      assert LeavesOf([Text(v.text)]) == Leaves(Text(v.text)) + LeavesOf([]);
    }
  }

  lemma {:induction false} CharsOfText(t: string)
    ensures LeavesOf(Items(Text(t))) == Chars({t})
  {
    if t == [] {
      assert Items(Text(t)) == [];
      assert Chars({t}) == {};
    } else {
      var items, rest := Items(Text(t)), Items(Text(t[1..]));
      assert items[1..] == rest && items[0] == Text([t[0]]);
      assert t == [t[0]] + t[1..];
      CharsCons(t[0], t[1..]);
      hide Chars, Items;
      CharsOfText(t[1..]);
    }
  }

  lemma CharsCons(c: char, rest: string)
    ensures Chars({[c] + rest}) == {[c]} + Chars({rest})
  {
    assert forall x :: x in [c] + rest <==> x == c || x in rest;
  }

  /** What an expression with a text is found as, and what its value is. */
  lemma {:induction false} TextIsFound(n: Node, names: Names, env: Environment)
    requires Satisfies(env, names) && Strings(n, names).Ok? && ValueOf(n, env).Some?
    ensures ValueOf(n, env).value.Text? <==> TextOf(n, names).Some?
    ensures TextOf(n, names).Some? ==>
      ValueOf(n, env).value == Text(TextOf(n, names).value) && Strings(n, names).value == {TextOf(n, names).value}
    decreases |names|, n
  {
    if n.Name? {
      RemoveOne(names, n.id);
      hide Items;
      TextIsFound(names[n.id], names - {n.id}, env);
    } else if !n.Str? {
      OthersAreCollections(n, env);
    }
  }

  lemma OthersAreCollections(n: Node, env: Environment)
    requires ValueOf(n, env).Some? && !n.Str? && !n.Name?
    ensures ValueOf(n, env).value.Collection?
  {
    hide Items, ItemsOf;
  }

  ghost predicate Splits(visited: Visited, found: set<string>, strings: set<string>) {
    found == visited.Found() && strings == visited.Elements()
  }

  lemma CharsUnion(a: set<string>, b: set<string>)
    ensures Chars(a + b) == Chars(a) + Chars(b)
  {
  }

  lemma SplitsPlus(a: Visited, b: Visited, found: set<string>, more: set<string>, strings: set<string>, others: set<string>)
    requires Splits(a, found, strings) && Splits(b, more, others)
    ensures Splits(a.Plus(b), found + more, strings + others)
  {
    hide Chars;
    CharsUnion(a.spelt, b.spelt);
  }

  /** The set found and the strings of the value, in terms of what is visited. */
  lemma {:induction false} FoundSplits(n: Node, names: Names, env: Environment)
    requires Satisfies(env, names) && Strings(n, names).Ok? && !n.Starred? && ValueOf(n, env).Some?
    ensures Splits(Visit(n, names), Strings(n, names).value, Leaves(ValueOf(n, env).value))
    decreases |names|, n, 1
  {
    hide Chars, Items, Splits, Iterate;
    match n {
      case Str(_) => TextSplits(n.value);
      case Name(x) =>
        RemoveOne(names, x);
        FoundSplits(names[x], names - {x}, env);
      case Display(elts) => FoundSplitsAll(elts, names, env);
      case Call(_, args) =>
        FoundSplits(args[0], names, env);
        FoundIterates(args[0], names, env);
      case _ =>
    }
  }

  lemma TextSplits(s: string)
    ensures Splits(Visited({s}, {}), {s}, Leaves(Text(s)))
  {
    NoChars();
  }

  lemma NoChars()
    ensures Chars({}) == {}
  {
  }

  /** Iterating over the value of an expression. */
  lemma FoundIterates(n: Node, names: Names, env: Environment)
    requires Satisfies(env, names) && Strings(n, names).Ok? && ValueOf(n, env).Some?
    requires Splits(Visit(n, names), Strings(n, names).value, Leaves(ValueOf(n, env).value))
    ensures Splits(Iterate(TextOf(n, names), Visit(n, names)), Strings(n, names).value, LeavesOf(Items(ValueOf(n, env).value)))
  {
    TextIsFound(n, names, env);
    if TextOf(n, names).Some? {
      var t := TextOf(n, names).value;
      CharsOfText(t);
      NoChars();
      if |t| == 1 {
        ItemsKeepLeaves(Text(t));
      }
      hide Strings, ValueOf, Satisfies, Items, LeavesOf, Chars;
    }
  }

  lemma {:induction false} FoundSplitsAll(ns: seq<Node>, names: Names, env: Environment)
    requires Satisfies(env, names) && UnionOf(ns, names).Ok? && ItemsOf(ns, env).Some?
    ensures Splits(VisitAll(ns, names), UnionOf(ns, names).value, LeavesOf(ItemsOf(ns, env).value))
    decreases |names|, ns, 0
  {
    hide Chars, Splits;
    if ns == [] {
      NothingSplits();
    } else {
      FoundSplitsAll(ns[1..], names, env);
      FoundSplitsSpread(ns[0], names, env);
      LeavesAppend(SpreadOf(ns[0], env).value, ItemsOf(ns[1..], env).value);
      SplitsPlus(Visit(ns[0], names), VisitAll(ns[1..], names), Strings(ns[0], names).value, UnionOf(ns[1..], names).value,
                 LeavesOf(SpreadOf(ns[0], env).value), LeavesOf(ItemsOf(ns[1..], env).value));
    }
  }

  lemma OneLeaf(v: Value)
    ensures LeavesOf([v]) == Leaves(v)
  {
    assert LeavesOf([v]) == Leaves(v) + LeavesOf([]);
  }

  lemma NothingSplits()
    ensures Splits(Visited({}, {}), {}, {})
  {
    NoChars();
  }

  lemma {:induction false} FoundSplitsSpread(n: Node, names: Names, env: Environment)
    requires Satisfies(env, names) && Strings(n, names).Ok? && SpreadOf(n, env).Some?
    ensures Splits(Visit(n, names), Strings(n, names).value, LeavesOf(SpreadOf(n, env).value))
    decreases |names|, n, 2
  {
    hide Chars, Splits;
    if n.Starred? {
      FoundSplits(n.inner, names, env);
      FoundIterates(n.inner, names, env);
    } else {
      FoundSplits(n, names, env);
      OneLeaf(ValueOf(n, env).value);
    }
  }

  lemma {:induction false} SpeltAreLong(n: Node, names: Names)
    ensures forall t | t in Visit(n, names).spelt :: |t| != 1
    decreases |names|, n, 1
  {
    match n {
      case Name(x) =>
        if x in names {
          RemoveOne(names, x);
          SpeltAreLong(names[x], names - {x});
        }
      case Starred(inner) => SpeltAreLong(inner, names);
      case Display(elts) => AllSpeltAreLong(elts, names);
      case Call(_, args) =>
        if args != [] {
          SpeltAreLong(args[0], names);
        }
      case _ =>
    }
  }

  lemma {:induction false} AllSpeltAreLong(ns: seq<Node>, names: Names)
    ensures forall t | t in VisitAll(ns, names).spelt :: |t| != 1
    decreases |names|, ns, 0
  {
    if ns != [] {
      SpeltAreLong(ns[0], names);
      AllSpeltAreLong(ns[1..], names);
    }
  }

  /** In every environment that satisfies the assignments, the set found is the set of strings in the value
      the program computes if and only if the texts that are iterated over, and their characters, are
      elements anyway. */
  lemma FoundIsTheValueIff(n: Node, names: Names, env: Environment)
    requires Satisfies(env, names) && Strings(n, names).Ok? && !n.Starred? && ValueOf(n, env).Some?
    ensures var visited := Visit(n, names);
      Strings(n, names).value == Leaves(ValueOf(n, env).value) <==> visited.spelt + Chars(visited.spelt) <= visited.kept
  {
    hide Visit, Strings, ValueOf, Leaves, Satisfies;
    FoundSplits(n, names, env);
    SpeltAreLong(n, names);
    CharsAreShort(Visit(n, names).spelt);
    hide Chars;
  }

  lemma CharsAreShort(texts: set<string>)
    ensures forall s | s in Chars(texts) :: |s| == 1
  {
  }

  /** When no string is iterated over, other than one of a single character, the set found is right. */
  lemma FoundIsTheValue(n: Node, names: Names, env: Environment)
    requires Satisfies(env, names) && Visit(n, names).spelt == {}
    requires Strings(n, names).Ok? && !n.Starred? && ValueOf(n, env).Some?
    ensures Strings(n, names).value == Leaves(ValueOf(n, env).value)
  {
    hide Visit, Strings, ValueOf, Leaves, Satisfies;
    FoundIsTheValueIff(n, names, env);
    NoChars();
  }

  /** For a string literal, `frozenset(s)` and the set the evaluator finds agree exactly when the string has
      one character. */
  lemma FrozensetOfText(s: string, names: Names, env: Environment)
    ensures var n := Call("frozenset", [Str(s)]);
      && Strings(n, names) == Ok({s})
      && ValueOf(n, env) == Some(Collection(Items(Text(s))))
      && ({s} == Leaves(Collection(Items(Text(s)))) <==> |s| == 1)
  {
    var n := Call("frozenset", [Str(s)]);
    assert Strings(n, names) == Strings(Str(s), names);
    assert ValueOf(Str(s), env) == Some(Text(s));
    FoundIsTheValueIff(n, map[], env);
    assert Strings(n, map[]) == Strings(Str(s), map[]);
    assert Visit(n, map[]) == Iterate(Some(s), Visit(Str(s), map[]));
    NoChars();
    assert s in {s};
  }
}
