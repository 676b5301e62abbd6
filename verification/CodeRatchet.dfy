/** The code-size policy and its ratchet over chains of commits. */
module CodeRatchet {
  import opened Common

  datatype Category = Migration | Production | Test

  datatype Limit = Limit(target: int, soft: int, hard: int)

  /** A loaded policy gives a limit to exactly these categories. */
  datatype Limits = Limits(migration: Limit, production: Limit, test: Limit) {
    function For(c: Category): Limit {
      match c
      case Migration => migration
      case Production => production
      case Test => test
    }
  }

  datatype Exclusions = Exclusions(paths: set<string>, prefixes: set<string>)

  /** `debt` are the paths a version 1 policy lists in its debt and entry point tables, `listed` the
      frozen_files of a later one. */
  datatype Policy = Policy(
    version: int, baseline: string, exclusions: Exclusions,
    files: Limits, callables: Limits,
    complexityTarget: int, complexityHard: int, nestingTarget: int,
    debt: set<string>, listed: set<string>)

  datatype Callable = Callable(path: string, symbol: string, category: Category, lines: int)

  /** The files of a commit with their line counts, its callables, and its policy. */
  datatype Commit = Commit(policy: Policy, files: map<string, nat>, callables: seq<Callable>)

  const CATEGORIES: seq<Category> := [Migration, Production, Test]

  datatype Error =
    | BaselineChanged | ExclusionsChanged
    | LimitRaised(group: string, category: Category, name: string)
    | TargetRaised(group: string, name: string)
    | NewFrozenFile(path: string)
    | OverHard(what: string)
    | FrozenFileGrew(path: string)
    | NewCallableOverHard(what: string)

  function FrozenFiles(p: Policy): set<string> {
    if p.version == 1 then p.debt else p.listed
  }

  // ---------------------------------------------------------------- which files count

  predicate StartsWith(s: string, prefix: string) {
    |prefix| <= |s| && s[..|prefix|] == prefix
  }

  predicate EndsWith(s: string, suffix: string) {
    |suffix| <= |s| && s[|s| - |suffix|..] == suffix
  }

  predicate Contains(s: string, part: string) {
    StartsWith(s, part) || (s != "" && Contains(s[1..], part))
  }

  /** The last component of a path. */
  function BaseName(path: string): string {
    if path == "" then ""
    else if path[|path| - 1] == '/' then ""
    else BaseName(path[..|path| - 1]) + [path[|path| - 1]]
  }

  const SOURCE_SUFFIXES: set<string> :=
    {".cjs", ".css", ".js", ".jsx", ".mjs", ".py", ".sh", ".ts", ".tsx"}

  predicate IsSource(path: string) {
    exists suffix :: suffix in SOURCE_SUFFIXES && |suffix| < |BaseName(path)| && EndsWith(Lower(BaseName(path)), suffix)
  }

  predicate IsExcluded(path: string, e: Exclusions) {
    path in e.paths || exists prefix :: prefix in e.prefixes && StartsWith(path, prefix)
  }

  function FileCategory(path: string): Category {
    if StartsWith(path, "tests/") || StartsWith(path, "frontend/e2e/")
       || Contains(BaseName(path), ".test.") || Contains(BaseName(path), ".spec.") then Test
    else if StartsWith(path, "scripts/migrate_") || Contains(path, "/migrations/") then Migration
    else Production
  }

  predicate Measured(c: Commit, path: string) {
    path in c.files && IsSource(path) && !IsExcluded(path, c.policy.exclusions)
  }

  // ---------------------------------------------------------------- the three checks

  ghost predicate NoLarger(a: Limit, b: Limit) {
    a.target <= b.target && a.soft <= b.soft && a.hard <= b.hard
  }

  /** `p` is nowhere looser than `previous`. */
  ghost predicate Tightens(p: Policy, previous: Policy)
  {
    && p.baseline == previous.baseline
    && p.exclusions == previous.exclusions
    && (forall c: Category :: NoLarger(p.files.For(c), previous.files.For(c)))
    && (forall c: Category :: NoLarger(p.callables.For(c), previous.callables.For(c)))
    && p.complexityTarget <= previous.complexityTarget
    && p.complexityHard <= previous.complexityHard
    && p.nestingTarget <= previous.nestingTarget
    && FrozenFiles(p) <= FrozenFiles(previous)
  }

  method CompareLimits(group: string, current: Limits, before: Limits) returns (errors: seq<Error>)
    ensures errors == [] <==> forall c: Category :: NoLarger(current.For(c), before.For(c))
  {
    errors := [];
    for i := 0 to |CATEGORIES|
      invariant errors == [] <==> forall j :: 0 <= j < i ==> NoLarger(current.For(CATEGORIES[j]), before.For(CATEGORIES[j]))
    {
      var c := CATEGORIES[i];
      if current.For(c).target > before.For(c).target {
        errors := errors + [LimitRaised(group, c, "target")];
      }
      if current.For(c).soft > before.For(c).soft {
        errors := errors + [LimitRaised(group, c, "soft")];
      }
      if current.For(c).hard > before.For(c).hard {
        errors := errors + [LimitRaised(group, c, "hard")];
      }
    }
    EveryCategory(current, before);
    assert CATEGORIES[0] == Migration && CATEGORIES[1] == Production && CATEGORIES[2] == Test;
  }

  lemma EveryCategory(a: Limits, b: Limits)
    ensures (forall c: Category :: NoLarger(a.For(c), b.For(c)))
      <==> NoLarger(a.For(Migration), b.For(Migration)) && NoLarger(a.For(Production), b.For(Production))
           && NoLarger(a.For(Test), b.For(Test))
  {
    assert forall c: Category {:trigger a.For(c)} :: c.Migration? || c.Production? || c.Test?;
  }

  method ComparePolicy(p: Policy, previous: Policy) returns (errors: seq<Error>)
    ensures errors == [] <==> Tightens(p, previous)
  {
    errors := [];
    if p.baseline != previous.baseline {
      errors := errors + [BaselineChanged];
    }
    if p.exclusions != previous.exclusions {
      errors := errors + [ExclusionsChanged];
    }
    var files := CompareLimits("files", p.files, previous.files);
    var callables := CompareLimits("callables", p.callables, previous.callables);
    errors := errors + files + callables;
    if p.complexityTarget > previous.complexityTarget {
      errors := errors + [TargetRaised("complexity", "target")];
    }
    if p.complexityHard > previous.complexityHard {
      errors := errors + [TargetRaised("complexity", "future_hard")];
    }
    if p.nestingTarget > previous.nestingTarget {
      errors := errors + [TargetRaised("nesting", "target")];
    }
    var added := FrozenFiles(p) - FrozenFiles(previous);
    assert added == {} ==> forall path :: path in FrozenFiles(p) ==> path !in added;
    var left := added;
    ghost var soFar := errors;
    while left != {}
      invariant left <= added
      invariant errors == [] <==> soFar == [] && left == added
      decreases left
    {
      var path :| path in left;
      errors := errors + [NewFrozenFile(path)];
      left := left - {path};
    }
    assert added == {} <==> FrozenFiles(p) <= FrozenFiles(previous);
  }

  /** The file is over its hard limit and not frozen. */
  predicate Oversized(c: Commit, path: string) {
    && path in c.files
    && c.files[path] > c.policy.files.For(FileCategory(path)).hard
    && path !in FrozenFiles(c.policy)
  }

  predicate OversizedCallable(c: Commit, m: Callable) {
    m.lines > c.policy.callables.For(m.category).hard && m.path !in FrozenFiles(c.policy)
  }

  ghost predicate WithinLimits(c: Commit) {
    && (forall path :: Measured(c, path) ==> !Oversized(c, path))
    && (forall m :: m in c.callables ==> !OversizedCallable(c, m))
  }

  /** `evaluate`: `paths` are the measured files. Only the first 20 errors are shown, all decide. */
  method Evaluate(c: Commit, paths: seq<string>) returns (passed: bool, shown: seq<Error>)
    requires Enumerates(paths, set path | path in c.files && Measured(c, path))
    ensures passed <==> WithinLimits(c)
    ensures passed <==> shown == []
    ensures |shown| <= 20
  {
    hide Oversized, OversizedCallable, Measured;
    var errors: seq<Error> := [];
    for i := 0 to |paths|
      invariant errors == [] <==> forall j :: 0 <= j < i ==> !Oversized(c, paths[j])
    {
      if Oversized(c, paths[i]) {
        errors := errors + [OverHard(paths[i])];
      }
    }
    ghost var filesPass := errors == [];
    MeasuredPaths(c, paths);
    for i := 0 to |c.callables|
      invariant errors == [] <==> filesPass && forall j :: 0 <= j < i ==> !OversizedCallable(c, c.callables[j])
    {
      var m := c.callables[i];
      if OversizedCallable(c, m) {
        errors := errors + [OverHard(m.path + "::" + m.symbol)];
      }
    }
    passed := errors == [];
    shown := if |errors| <= 20 then errors else errors[..20];
  }

  lemma MeasuredPaths(c: Commit, paths: seq<string>)
    requires Enumerates(paths, set path | path in c.files && Measured(c, path))
    ensures (forall j :: 0 <= j < |paths| ==> !Oversized(c, paths[j]))
      <==> (forall path :: Measured(c, path) ==> !Oversized(c, path))
  {
    assert forall path :: Measured(c, path) ==> path in c.files;
    hide Oversized, Measured;
    assert forall j :: 0 <= j < |paths| ==> paths[j] in paths;
    assert forall path :: Measured(c, path) ==> path in paths;
  }

  predicate SameKey(a: Callable, b: Callable) {
    a.path == b.path && a.symbol == b.symbol && a.category == b.category
  }

  /** No frozen file has more lines than in the base, and none has an oversized callable the base lacks. */
  ghost predicate FrozenHolds(base: Commit, c: Commit)
  {
    && (forall path :: path in FrozenFiles(c.policy) && path in base.files && path in c.files ==>
          c.files[path] <= base.files[path])
    && (forall m :: m in c.callables && m.path in FrozenFiles(c.policy)
                    && m.lines > c.policy.callables.For(m.category).hard ==>
          exists b :: b in base.callables && b.path in FrozenFiles(c.policy) && SameKey(m, b))
  }

  method CompareFrozenMetrics(base: Commit, c: Commit, paths: seq<string>) returns (errors: seq<Error>)
    requires Enumerates(paths, FrozenFiles(c.policy))
    ensures errors == [] <==> FrozenHolds(base, c)
  {
    errors := [];
    for i := 0 to |paths|
      invariant errors == [] <==> forall j :: 0 <= j < i ==>
        (paths[j] in base.files && paths[j] in c.files ==> c.files[paths[j]] <= base.files[paths[j]])
    {
      if paths[i] in base.files && paths[i] in c.files && c.files[paths[i]] > base.files[paths[i]] {
        errors := errors + [FrozenFileGrew(paths[i])];
      }
    }
    assert forall path :: path in FrozenFiles(c.policy) <==> path in paths;
    ghost var filesPass := errors == [];
    for i := 0 to |c.callables|
      invariant errors == [] <==> filesPass && forall j :: 0 <= j < i ==> !NewAndOversized(base, c, c.callables[j])
    {
      var m := c.callables[i];
      var known := exists b :: b in base.callables && b.path in FrozenFiles(c.policy) && SameKey(m, b);
      if m.path in FrozenFiles(c.policy) && m.lines > c.policy.callables.For(m.category).hard && !known {
        errors := errors + [NewCallableOverHard(m.path + "::" + m.symbol)];
      }
    }
    assert (forall m :: m in c.callables ==> !NewAndOversized(base, c, m))
      <==> forall j :: 0 <= j < |c.callables| ==> !NewAndOversized(base, c, c.callables[j]);
  }

  ghost predicate NewAndOversized(base: Commit, c: Commit, m: Callable)
  {
    && m.path in FrozenFiles(c.policy)
    && m.lines > c.policy.callables.For(m.category).hard
    && !(exists b :: b in base.callables && b.path in FrozenFiles(c.policy) && SameKey(m, b))
  }

  // ---------------------------------------------------------------- chains of commits

  /** Every commit after the first passes policy comparison, evaluation and frozen-file comparison
      against the one before it. */
  ghost predicate Passing(chain: seq<Commit>) {
    && (forall i :: 1 <= i < |chain| ==>
          && Tightens(chain[i].policy, chain[i - 1].policy)
          && WithinLimits(chain[i])
          && FrozenHolds(chain[i - 1], chain[i]))
  }

  /** No limit ever rises, and neither baseline nor exclusions change, between any two commits. */
  lemma {:induction false} LimitsNeverRise(chain: seq<Commit>, i: nat, j: nat)
    requires Passing(chain) && i <= j < |chain|
    ensures Tightens(chain[j].policy, chain[i].policy)
    decreases j - i
  {
    if i < j {
      LimitsNeverRise(chain, i, j - 1);
      var p, q, r := chain[i].policy, chain[j - 1].policy, chain[j].policy;
      assert Tightens(r, q) && Tightens(q, p);
      forall c: Category
        ensures NoLarger(r.files.For(c), p.files.For(c)) && NoLarger(r.callables.For(c), p.callables.For(c))
      {
        assert NoLarger(r.files.For(c), q.files.For(c)) && NoLarger(q.files.For(c), p.files.For(c));
        assert NoLarger(r.callables.For(c), q.callables.For(c)) && NoLarger(q.callables.For(c), p.callables.For(c));
      }
    }
  }

  /** Every measured file or callable over its hard limit at the head, even over the limit of the first
      policy, lies in a file the first policy froze. */
  lemma OversizedWasFrozen(chain: seq<Commit>)
    requires Passing(chain) && |chain| >= 2
    ensures var head, first := chain[|chain| - 1], chain[0];
      && (forall path :: Measured(head, path) && head.files[path] > head.policy.files.For(FileCategory(path)).hard ==>
            path in FrozenFiles(first.policy))
      && (forall m :: m in head.callables && m.lines > first.policy.callables.For(m.category).hard ==>
            m.path in FrozenFiles(first.policy))
  {
    LimitsNeverRise(chain, 0, |chain| - 1);
    var head, first := chain[|chain| - 1], chain[0];
    forall m | m in head.callables && m.lines > first.policy.callables.For(m.category).hard
      ensures m.path in FrozenFiles(first.policy)
    {
      assert NoLarger(head.policy.callables.For(m.category), first.policy.callables.For(m.category));
    }
  }

  /** A file frozen at `j` and present in every commit from `i` to `j` has no more lines than at `i`. */
  lemma {:induction false} FrozenFilesOnlyShrink(chain: seq<Commit>, i: nat, j: nat, path: string)
    requires Passing(chain) && i <= j < |chain|
    requires path in FrozenFiles(chain[j].policy)
    requires forall k :: i <= k <= j ==> path in chain[k].files
    ensures chain[j].files[path] <= chain[i].files[path]
    decreases j - i
  {
    if i < j {
      LimitsNeverRise(chain, j - 1, j);
      FrozenFilesOnlyShrink(chain, i, j - 1, path);
      assert FrozenHolds(chain[j - 1], chain[j]);
    }
  }

  // ---------------------------------------------------------------- what the ratchet does not stop

  ghost function SamplePolicy(frozen: set<string>): Policy {
    var limits := Limits(Limit(1, 2, 3), Limit(1, 2, 3), Limit(1, 2, 3));
    Policy(2, "", Exclusions({}, {}), limits, limits, 1, 1, 1, {}, frozen)
  }

  /** The file is in exactly the commits that the pattern marks. */
  ghost predicate Follows(chain: seq<Commit>, path: string, present: seq<bool>) {
    |chain| == |present| && forall k | 0 <= k < |chain| :: present[k] <==> path in chain[k].files
  }

  /** No passing chain with this pattern of presence ends with a frozen file larger than it was at its start. */
  ghost predicate NeverGrows(path: string, present: seq<bool>)
    requires present != [] && present[0] && present[|present| - 1]
  {
    forall chain: seq<Commit> | Passing(chain) && Follows(chain, path, present) &&
                                path in FrozenFiles(chain[|chain| - 1].policy) ::
      chain[|chain| - 1].files[path] <= chain[0].files[path]
  }

  /** Whether frozen files only shrink is decided by the pattern of presence: a file that starts and ends
      present can never grow if and only if it is present throughout. */
  lemma NeverGrowsIffNoGap(path: string, present: seq<bool>)
    requires present != [] && present[0] && present[|present| - 1]
    ensures NeverGrows(path, present) <==> forall k | 0 <= k < |present| :: present[k]
  {
    if forall k | 0 <= k < |present| :: present[k] {
      forall chain: seq<Commit> | Passing(chain) && Follows(chain, path, present) &&
                                  path in FrozenFiles(chain[|chain| - 1].policy)
        ensures chain[|chain| - 1].files[path] <= chain[0].files[path]
      {
        FrozenFilesOnlyShrink(chain, 0, |chain| - 1, path);
      }
    } else {
      var gap :| 0 <= gap < |present| && !present[gap];
      var chain := GrowsOverGap(path, present, gap);
    }
  }

  /** A passing chain with the given pattern in which the file comes back larger after the gap. */
  lemma GrowsOverGap(path: string, present: seq<bool>, gap: nat) returns (chain: seq<Commit>)
    requires gap < |present| && !present[gap] && present[0] && present[|present| - 1]
    ensures Passing(chain) && Follows(chain, path, present)
    ensures path in FrozenFiles(chain[|chain| - 1].policy)
    ensures chain[|chain| - 1].files[path] > chain[0].files[path]
  {
    var p := SamplePolicy({path});
    chain := seq(|present|, k requires 0 <= k < |present| =>
      Commit(p, if !present[k] then map[] else if k < gap then map[path := 5] else map[path := 9], []));
    forall k | 1 <= k < |chain|
      ensures Tightens(chain[k].policy, chain[k - 1].policy) && WithinLimits(chain[k]) && FrozenHolds(chain[k - 1], chain[k])
    {
      OnlyFrozenPasses(path, chain[k].files);
    }
  }

  lemma OnlyFrozenPasses(path: string, files: map<string, nat>)
    requires files.Keys <= {path}
    ensures WithinLimits(Commit(SamplePolicy({path}), files, []))
    ensures Tightens(SamplePolicy({path}), SamplePolicy({path}))
  {
    hide IsSource, IsExcluded, FileCategory;
  }

  /** The shortest such pattern: a frozen file that is deleted may come back with more lines. */
  lemma DeletedFileMayComeBackLarger()
    ensures exists chain: seq<Commit> ::
      && Passing(chain) && |chain| == 3
      && "a.py" in FrozenFiles(chain[2].policy)
      && "a.py" in chain[0].files && "a.py" in chain[2].files
      && chain[2].files["a.py"] > chain[0].files["a.py"]
  {
    hide Passing;
    var present := [true, false, true];
    var chain := GrowsOverGap("a.py", present, 1);
    assert present[0] && present[2];
  }

  // ---------------------------------------------------------------- how an oversized callable gets in

  /** The commit has a callable of the same path, symbol and category. */
  ghost predicate HasKey(c: Commit, m: Callable) {
    exists b | b in c.callables :: SameKey(m, b)
  }

  ghost predicate OverHardLimit(c: Commit, m: Callable) {
    m.lines > c.policy.callables.For(m.category).hard
  }

  /** The key enters with this commit, and everything that bears it is within the hard limit. */
  ghost predicate EntersWithin(base: Commit, c: Commit, m: Callable) {
    && !HasKey(base, m) && HasKey(c, m)
    && forall b | b in c.callables && SameKey(m, b) :: !OverHardLimit(c, b)
  }

  lemma SameKeyHeld(c: Commit, m: Callable, b: Callable)
    requires SameKey(m, b)
    ensures HasKey(c, m) <==> HasKey(c, b)
  {
  }

  /** Whatever is in a frozen file at `j` under a key the chain did not start with entered within the
      limit of some commit on the way. */
  lemma {:induction false} KeyEnteredWithin(chain: seq<Commit>, j: nat, m: Callable) returns (i: nat)
    requires Passing(chain) && j < |chain| && m.path in FrozenFiles(chain[j].policy)
    requires HasKey(chain[j], m) && !HasKey(chain[0], m)
    ensures 1 <= i <= j && EntersWithin(chain[i - 1], chain[i], m)
    decreases j
  {
    LimitsNeverRise(chain, j - 1, j);
    if HasKey(chain[j - 1], m) {
      i := KeyEnteredWithin(chain, j - 1, m);
    } else {
      i := j;
      assert FrozenHolds(chain[j - 1], chain[j]);
      forall b | b in chain[j].callables && SameKey(m, b) ensures !OverHardLimit(chain[j], b) {
        SameKeyHeld(chain[j - 1], m, b);
      }
    }
  }

  /** The commit with one more callable and nothing else changed. */
  ghost function WithCallable(c: Commit, m: Callable): Commit {
    c.(callables := c.callables + [m])
  }

  /** Every such entry is allowed: a passing chain goes on with a commit that brings the key in within the
      limit, and then with one in which the callable has any size. */
  lemma EntryIsAllowed(chain: seq<Commit>, small: Callable, large: Callable)
    requires chain != [] && Passing(chain) && WithinLimits(chain[|chain| - 1])
    requires SameKey(small, large) && small.path in FrozenFiles(chain[|chain| - 1].policy)
    requires !OverHardLimit(chain[|chain| - 1], small)
    ensures var head := chain[|chain| - 1];
      Passing(chain + [WithCallable(head, small), WithCallable(head, large)])
  {
    var head := chain[|chain| - 1];
    var one, two := WithCallable(head, small), WithCallable(head, large);
    hide Measured, FileCategory;
    SelfHolds(head, small, head);
    assert one.callables[|head.callables|] == small && SameKey(large, small);
    SelfHolds(head, large, one);
    hide WithinLimits, FrozenHolds, Tightens, WithCallable;
    var longer := chain + [one, two];
    forall i | 1 <= i < |longer|
      ensures Tightens(longer[i].policy, longer[i - 1].policy) && WithinLimits(longer[i]) && FrozenHolds(longer[i - 1], longer[i])
    {
      if i < |chain| {
        assert longer[i] == chain[i] && longer[i - 1] == chain[i - 1];
      }
    }
  }

  /** Adding a callable to a frozen file passes against any base that has the same files and policy and all
      old callables, if it is within the limit or its key is known. */
  lemma SelfHolds(head: Commit, m: Callable, base: Commit)
    requires WithinLimits(head) && m.path in FrozenFiles(head.policy)
    requires base.files == head.files && base.policy == head.policy
    requires forall b | b in head.callables :: b in base.callables
    requires OverHardLimit(head, m) ==> HasKey(base, m)
    ensures WithinLimits(WithCallable(head, m)) && FrozenHolds(base, WithCallable(head, m))
    ensures Tightens(head.policy, base.policy) && Tightens(head.policy, head.policy)
  {
    hide IsSource, IsExcluded, FileCategory;
    var c := WithCallable(head, m);
    assert forall path :: Measured(c, path) == Measured(head, path);
    forall b | b in c.callables && b.path in FrozenFiles(c.policy) && OverHardLimit(c, b)
      ensures exists k :: k in base.callables && k.path in FrozenFiles(c.policy) && SameKey(b, k)
    {
      if b in head.callables {
        assert b in base.callables && SameKey(b, b);
      }
    }
    assert forall b :: b in c.callables ==> b in head.callables || b == m;
  }

  /** A passing chain of `n` commits from the base to a commit that has the callable. */
  ghost predicate Brings(chain: seq<Commit>, n: nat, base: Commit, m: Callable) {
    |chain| == n > 0 && Passing(chain) && chain[0] == base && m in chain[n - 1].callables
  }

  /** A callable over the limit whose key is new gets into a frozen file in three commits, counting the base,
      or in any larger number, and never in fewer. */
  lemma OversizedNeedsTwoCommits(base: Commit, m: Callable, n: nat)
    requires WithinLimits(base) && m.path in FrozenFiles(base.policy) && OverHardLimit(base, m) && !HasKey(base, m)
    ensures (exists chain :: Brings(chain, n, base, m)) <==> n >= 3
  {
    if n >= 3 {
      var waiting := seq(n - 2, _ => base);
      var small := m.(lines := base.policy.callables.For(m.category).hard);
      WaitingPasses(base, n - 2);
      EntryIsAllowed(waiting, small, m);
      var chain := waiting + [WithCallable(base, small), WithCallable(base, m)];
      assert chain[n - 1].callables[|base.callables|] == m;
      assert Brings(chain, n, base, m);
    }
    if chain: seq<Commit> :| Brings(chain, n, base, m) {
      assert SameKey(m, m) && n != 1;
      if n == 2 {
        assert NoLarger(chain[1].policy.callables.For(m.category), base.policy.callables.For(m.category));
        assert OverHardLimit(chain[1], m) && FrozenHolds(chain[0], chain[1]) && WithinLimits(chain[1]);
      }
    }
  }

  lemma WaitingPasses(base: Commit, n: nat)
    requires WithinLimits(base)
    ensures Passing(seq(n, _ => base))
  {
    assert Tightens(base.policy, base.policy);
    forall m | m in base.callables ensures SameKey(m, m) {
    }
  }

  /** The frozen-file check looks one commit back only: an oversized callable enters a frozen file in two
      commits, first within the limit and then grown. Comparing the last commit with the first would
      have refused it. */
  lemma CallableGrowsInTwoCommits()
    ensures exists chain: seq<Commit> ::
      Passing(chain) && |chain| == 3 && !FrozenHolds(chain[0], chain[2])
  {
    var base := Commit(SamplePolicy({"a.py"}), map["a.py" := 9], []);
    var small, large := Callable("a.py", "f", Production, 2), Callable("a.py", "f", Production, 8);
    OnlyFrozenPasses("a.py", base.files);
    EntryIsAllowed([base], small, large);
    var chain := [base] + [WithCallable(base, small), WithCallable(base, large)];
    assert chain[2].callables == [large] && large in chain[2].callables;
    hide WithinLimits, Tightens, Passing;
    assert !FrozenHolds(chain[0], chain[2]);
  }
}
