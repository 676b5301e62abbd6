/** The three checks of the code-size ratchet, read off paths, limits and callables. */
module CodeRatchetRows {
  import opened Common
  import opened CodeRatchet

  // ---------------------------------------------------------------- paths

  /** The last component of the path begins here. */
  ghost predicate NameStart(path: string, cut: nat) {
    && cut <= |path| && (cut == 0 || path[cut - 1] == '/') && forall i | cut <= i < |path| :: path[i] != '/'
  }

  /** The text is the word but for capital letters. */
  ghost predicate Spells(text: string, word: string) {
    |text| == |word| &&
    forall i | 0 <= i < |text| ::
      if 'A' <= text[i] <= 'Z' then text[i] as int + 32 == word[i] as int else text[i] == word[i]
  }

  /** The last component has more than the suffix and ends in it. */
  ghost predicate HasSuffix(path: string, suffix: string) {
    exists cut :: NameStart(path, cut) && |suffix| < |path| - cut && Spells(path[|path| - |suffix|..], suffix)
  }

  ghost predicate IsSourceFile(path: string) {
    || HasSuffix(path, ".cjs") || HasSuffix(path, ".css") || HasSuffix(path, ".js") || HasSuffix(path, ".jsx")
    || HasSuffix(path, ".mjs") || HasSuffix(path, ".py") || HasSuffix(path, ".sh") || HasSuffix(path, ".ts")
    || HasSuffix(path, ".tsx")
  }

  ghost predicate Begins(path: string, prefix: string) {
    exists rest :: path == prefix + rest
  }

  ghost predicate IsAt(text: string, part: string, i: nat) {
    i + |part| <= |text| && text[i..i + |part|] == part
  }

  /** The part occurs in the text at the place or after it. */
  ghost predicate Occurs(text: string, part: string, from: nat) {
    exists i :: from <= i && IsAt(text, part, i)
  }

  ghost predicate InName(path: string, part: string) {
    exists cut :: NameStart(path, cut) && Occurs(path, part, cut)
  }

  ghost predicate IsTestFile(path: string) {
    Begins(path, "tests/") || Begins(path, "frontend/e2e/") || InName(path, ".test.") || InName(path, ".spec.")
  }

  ghost predicate IsMigrationFile(path: string) {
    !IsTestFile(path) && (Begins(path, "scripts/migrate_") || Occurs(path, "/migrations/", 0))
  }

  lemma {:induction false} NameIsLast(path: string, cut: nat)
    requires NameStart(path, cut)
    ensures BaseName(path) == path[cut..]
  {
    if path != "" && path[|path| - 1] != '/' {
      var shorter := path[..|path| - 1];
      assert cut < |path|;
      assert NameStart(shorter, cut);
      NameIsLast(shorter, cut);
      assert path[cut..] == shorter[cut..] + [path[|path| - 1]];
    }
  }

  lemma {:induction false} SomeNameStart(path: string) returns (cut: nat)
    ensures NameStart(path, cut)
  {
    if path == "" || path[|path| - 1] == '/' {
      cut := |path|;
    } else {
      cut := SomeNameStart(path[..|path| - 1]);
    }
  }

  lemma BeginsIs(path: string, prefix: string)
    ensures StartsWith(path, prefix) <==> Begins(path, prefix)
  {
    if StartsWith(path, prefix) {
      assert path == prefix + path[|prefix|..];
    }
  }

  lemma Shifted(text: string, cut: nat, part: string, i: nat)
    requires cut <= |text|
    ensures IsAt(text[cut..], part, i) <==> IsAt(text, part, cut + i)
  {
    if cut + i + |part| <= |text| {
      assert text[cut..][i..i + |part|] == text[cut + i..cut + i + |part|];
    }
  }

  lemma ShiftedOccurs(text: string, cut: nat, part: string)
    requires cut <= |text|
    ensures Occurs(text[cut..], part, 0) <==> Occurs(text, part, cut)
  {
    forall i: nat {
      Shifted(text, cut, part, i);
    }
    hide IsAt;
    if Occurs(text, part, cut) {
      var i :| cut <= i && IsAt(text, part, i);
      Shifted(text, cut, part, i - cut);
      assert IsAt(text[cut..], part, i - cut);
    }
    if Occurs(text[cut..], part, 0) {
      var i :| 0 <= i && IsAt(text[cut..], part, i);
      assert IsAt(text, part, cut + i);
    }
  }

  lemma {:induction false} ContainsIs(s: string, part: string)
    requires part != ""
    ensures Contains(s, part) <==> Occurs(s, part, 0)
  {
    assert StartsWith(s, part) <==> IsAt(s, part, 0);
    if s != "" {
      ContainsIs(s[1..], part);
      ShiftedOccurs(s, 1, part);
      hide StartsWith, IsAt;
    }
  }

  lemma ContainsInName(path: string, part: string)
    requires part != ""
    ensures Contains(BaseName(path), part) <==> InName(path, part)
  {
    var cut := SomeNameStart(path);
    NameIsLast(path, cut);
    ContainsIs(path[cut..], part);
    ShiftedOccurs(path, cut, part);
    OneNameStart(path, cut);
    hide Contains, BaseName, Occurs, NameStart;
  }

  lemma OneNameStart(path: string, cut: nat)
    requires NameStart(path, cut)
    ensures forall other: nat | NameStart(path, other) :: other == cut
  {
  }

  lemma CategoryIs(path: string)
    ensures FileCategory(path) == if IsTestFile(path) then Test else if IsMigrationFile(path) then Migration else Production
  {
    BeginsIs(path, "tests/");
    BeginsIs(path, "frontend/e2e/");
    BeginsIs(path, "scripts/migrate_");
    ContainsInName(path, ".test.");
    ContainsInName(path, ".spec.");
    ContainsIs(path, "/migrations/");
    hide StartsWith, Contains, BaseName, Begins, InName, Occurs;
  }

  lemma SpellsIs(text: string, word: string)
    requires |text| == |word|
    ensures Lower(text) == word <==> Spells(text, word)
  {
    if Lower(text) == word {
      forall i | 0 <= i < |text| ensures Lower(text)[i] == LowerChar(text[i]) {
      }
    }
  }

  lemma SuffixIs(path: string, suffix: string)
    ensures |suffix| < |BaseName(path)| && EndsWith(Lower(BaseName(path)), suffix) <==> HasSuffix(path, suffix)
  {
    var cut := SomeNameStart(path);
    NameIsLast(path, cut);
    OneNameStart(path, cut);
    var name := path[cut..];
    hide BaseName, NameStart, Spells;
    if |suffix| < |name| {
      var end := name[|name| - |suffix|..];
      assert end == path[|path| - |suffix|..];
      SpellsIs(end, suffix);
      LowerEnd(name, |name| - |suffix|);
      hide Lower;
    }
  }

  lemma LowerEnd(s: string, i: nat)
    requires i <= |s|
    ensures Lower(s)[i..] == Lower(s[i..])
  {
  }

  lemma SourceIs(path: string)
    ensures IsSource(path) <==> IsSourceFile(path)
  {
    forall suffix ensures |suffix| < |BaseName(path)| && EndsWith(Lower(BaseName(path)), suffix) <==> HasSuffix(path, suffix) {
      SuffixIs(path, suffix);
    }
    hide BaseName, EndsWith, HasSuffix, Lower;
    assert forall suffix :: suffix in SOURCE_SUFFIXES <==>
      || suffix == ".cjs" || suffix == ".css" || suffix == ".js" || suffix == ".jsx" || suffix == ".mjs"
      || suffix == ".py" || suffix == ".sh" || suffix == ".ts" || suffix == ".tsx";
    hide SOURCE_SUFFIXES;
  }

  // ---------------------------------------------------------------- the checks

  /** Debt and entry points of a version 1 policy, and the listed files of a later one, are frozen. */
  ghost predicate Frozen(p: Policy, path: string) {
    (p.version == 1 && path in p.debt) || (p.version != 1 && path in p.listed)
  }

  ghost predicate Excluded(e: Exclusions, path: string) {
    path in e.paths || exists prefix | prefix in e.prefixes :: Begins(path, prefix)
  }

  ghost function FileLimit(p: Policy, path: string): int {
    if IsTestFile(path) then p.files.test.hard
    else if IsMigrationFile(path) then p.files.migration.hard
    else p.files.production.hard
  }

  ghost function CallableLimit(p: Policy, c: Category): int {
    if c == Test then p.callables.test.hard
    else if c == Migration then p.callables.migration.hard
    else p.callables.production.hard
  }

  lemma FrozenIs(p: Policy)
    ensures forall path :: path in FrozenFiles(p) <==> Frozen(p, path)
  {
  }

  lemma MeasuredIs(c: Commit, path: string)
    ensures Measured(c, path) <==> path in c.files && IsSourceFile(path) && !Excluded(c.policy.exclusions, path)
  {
    SourceIs(path);
    forall prefix ensures StartsWith(path, prefix) <==> Begins(path, prefix) {
      BeginsIs(path, prefix);
    }
    hide IsSource, IsSourceFile, StartsWith, Begins;
  }

  lemma OversizedIs(c: Commit, path: string)
    requires path in c.files
    ensures Oversized(c, path) <==> !Frozen(c.policy, path) && c.files[path] > FileLimit(c.policy, path)
  {
    CategoryIs(path);
    FrozenIs(c.policy);
    hide FileCategory, IsTestFile, IsMigrationFile;
  }

  lemma OversizedCallableIs(c: Commit, m: Callable)
    ensures OversizedCallable(c, m) <==> !Frozen(c.policy, m.path) && m.lines > CallableLimit(c.policy, m.category)
  {
    FrozenIs(c.policy);
  }

  /** A commit is within its limits exactly when every source file that is neither excluded nor frozen has at most
      the lines its place allows, and so has every callable outside frozen files. */
  lemma WithinLimitsIff(c: Commit)
    ensures WithinLimits(c) <==>
      && (forall path | path in c.files && IsSourceFile(path) && !Excluded(c.policy.exclusions, path) && !Frozen(c.policy, path) ::
            c.files[path] <= FileLimit(c.policy, path))
      && (forall m | m in c.callables && !Frozen(c.policy, m.path) :: m.lines <= CallableLimit(c.policy, m.category))
  {
    forall path | path in c.files
      ensures Measured(c, path) <==> IsSourceFile(path) && !Excluded(c.policy.exclusions, path)
      ensures Oversized(c, path) <==> !Frozen(c.policy, path) && c.files[path] > FileLimit(c.policy, path)
    {
      MeasuredIs(c, path);
      OversizedIs(c, path);
    }
    forall m | m in c.callables
      ensures OversizedCallable(c, m) <==> !Frozen(c.policy, m.path) && m.lines > CallableLimit(c.policy, m.category)
    {
      OversizedCallableIs(c, m);
    }
    assert forall path :: Measured(c, path) ==> path in c.files;
    hide Measured, Oversized, OversizedCallable, IsSourceFile, Excluded, Frozen, FileLimit, CallableLimit;
  }

  ghost predicate AtMost(a: Limit, b: Limit) {
    a.target <= b.target && a.soft <= b.soft && a.hard <= b.hard
  }

  /** A policy is nowhere looser than another exactly when these parts are. */
  lemma TightensIff(p: Policy, q: Policy)
    ensures Tightens(p, q) <==>
      && p.baseline == q.baseline && p.exclusions.paths == q.exclusions.paths && p.exclusions.prefixes == q.exclusions.prefixes
      && AtMost(p.files.migration, q.files.migration) && AtMost(p.files.production, q.files.production)
      && AtMost(p.files.test, q.files.test) && AtMost(p.callables.migration, q.callables.migration)
      && AtMost(p.callables.production, q.callables.production) && AtMost(p.callables.test, q.callables.test)
      && p.complexityTarget <= q.complexityTarget && p.complexityHard <= q.complexityHard
      && p.nestingTarget <= q.nestingTarget
      && forall path | Frozen(p, path) :: Frozen(q, path)
  {
    EveryCategory(p.files, q.files);
    EveryCategory(p.callables, q.callables);
    FrozenIs(p);
    FrozenIs(q);
    hide FrozenFiles, Frozen;
  }

  /** The comparison with the base passes exactly when no frozen file that is in both has grown, and every
      oversized callable in a frozen file was there under the same path, symbol and category. */
  lemma FrozenHoldsIff(base: Commit, c: Commit)
    ensures FrozenHolds(base, c) <==>
      && (forall path | Frozen(c.policy, path) && path in base.files && path in c.files :: c.files[path] <= base.files[path])
      && (forall m | m in c.callables && Frozen(c.policy, m.path) && m.lines > CallableLimit(c.policy, m.category) ::
            exists b | b in base.callables :: b.path == m.path && b.symbol == m.symbol && b.category == m.category)
  {
    FrozenIs(c.policy);
    hide FrozenFiles, Frozen;
  }
}
