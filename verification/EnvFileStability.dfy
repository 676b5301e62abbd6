/** What an update of the environment file leaves alone, and why updating twice is updating once. */
module EnvFileStability {
  import opened Common
  import opened EnvFile
  import opened EnvFileTheorems

  // ---------------------------------------------------------------- each key once

  /** How many of the lines assign the key. */
  ghost function Count(lines: seq<string>, key: string): nat {
    if lines == [] then 0 else (if Assigns(lines[0], key) then 1 else 0) + Count(lines[1..], key)
  }

  lemma CountCons(line: string, rest: seq<string>, key: string)
    ensures Count([line] + rest, key) == (if Assigns(line, key) then 1 else 0) + Count(rest, key)
  {
    hide Assigns;
    assert ([line] + rest)[1..] == rest;
  }

  lemma {:induction false} CountAppend(a: seq<string>, b: seq<string>, key: string)
    ensures Count(a + b, key) == Count(a, key) + Count(b, key)
  {
    hide Assigns;
    if a == [] {
      assert a + b == b;
    } else {
      CountAppend(a[1..], b, key);
      assert a + b == [a[0]] + (a[1..] + b);
      CountCons(a[0], a[1..] + b, key);
    }
  }

  lemma {:induction false} CountedAreRead(lines: seq<string>, key: string)
    ensures Count(lines, key) > 0 <==> key in Values(lines)
  {
    hide Effect, Match;
    if lines != [] {
      EffectKeys(lines[0]);
      CountedAreRead(lines[1..], key);
    }
  }

  lemma {:induction false} CountRewritten(lines: seq<string>, updates: Updates, seen: set<string>, key: string)
    requires WellFormed(updates) && key in updates
    ensures Count(Rewritten(lines, updates, seen), key) == if key in seen || Count(lines, key) == 0 then 0 else 1
  {
    hide Match, Line, Count;
    NoCount(key);
    if lines != [] {
      var rest := lines[1..];
      assert lines == [lines[0]] + rest;
      CountCons(lines[0], rest, key);
      if !Managed(lines[0], updates) {
        CountRewritten(rest, updates, seen, key);
        CountCons(lines[0], Rewritten(rest, updates, seen), key);
      } else {
        var first := Match(lines[0]).value.key;
        if first in seen {
          CountRewritten(rest, updates, seen, key);
        } else {
          CountRewritten(rest, updates, seen + {first}, key);
          LineAssigns(first, updates[first]);
          CountCons(Line(first, updates[first]), Rewritten(rest, updates, seen + {first}), key);
        }
      }
    }
  }

  lemma NoCount(key: string)
    ensures Count([], key) == 0
  {
  }

  ghost predicate Distinct(keys: seq<string>) {
    forall i, j :: 0 <= i < j < |keys| ==> keys[i] != keys[j]
  }

  lemma {:induction false} CountNewLines(keys: seq<string>, updates: Updates, key: string)
    requires WellFormed(updates) && forall k | k in keys :: k in updates
    requires Distinct(keys)
    ensures Count(NewLines(keys, updates), key) == if key in keys then 1 else 0
  {
    hide Match, Line, Count;
    NoCount(key);
    if keys != [] {
      CountNewLines(keys[1..], updates, key);
      LineAssigns(keys[0], updates[keys[0]]);
      CountCons(Line(keys[0], updates[keys[0]]), NewLines(keys[1..], updates), key);
    }
  }

  lemma {:induction false} MissingAreDistinct(order: seq<string>, seen: set<string>)
    requires Distinct(order)
    ensures Distinct(Missing(order, seen))
  {
    if order != [] {
      MissingAreDistinct(order[1..], seen);
      assert order[0] !in order[1..];
      assert order[0] !in Missing(order[1..], seen);
    }
  }

  lemma {:induction false} CountTrimmed(lines: seq<string>, key: string)
    ensures Count(TrimEnd(lines), key) == Count(lines, key)
  {
    hide Match, RStrip;
    if lines != [] {
      var rest := TrimEnd(lines[1..]);
      CountTrimmed(lines[1..], key);
      if rest != [] {
        CountCons(lines[0], rest, key);
      } else {
        TrimmedAssignsSame(lines[0]);
        if RStrip(lines[0]) == [] {
          BlankAssignsNothing(lines[0]);
        }
      }
    }
  }

  lemma CountReread(lines: seq<string>, key: string)
    ensures Count(Reread(lines), key) == Count(lines, key)
  {
    hide TrimEnd;
    CountTrimmed(lines, key);
    BlankAssignsNothing("");
  }

  lemma CountHeading(output: seq<string>, key: string)
    ensures Count(Heading(output), key) == 0
  {
    hide Heading, Values;
    HeadingAssignsNothing(output);
    CountedAreRead(Heading(output), key);
  }

  lemma CountUpdated(lines: seq<string>, order: seq<string>, updates: Updates, key: string)
    requires WellFormed(updates) && Enumerates(order, updates.Keys) && key in updates
    ensures Count(UpdatedLines(lines, order, updates), key) == 1
  {
    hide Match, Count, Rewritten, Heading, NewLines, Values;
    var missing := Missing(order, Seen(lines, updates));
    var rewritten := Rewritten(lines, updates, {});
    CountRewritten(lines, updates, {}, key);
    CountedAreRead(lines, key);
    CountHeading(rewritten, key);
    assert Distinct(order);
    MissingAreDistinct(order, Seen(lines, updates));
    CountNewLines(missing, updates, key);
    CountAppend(Heading(rewritten), NewLines(missing, updates), key);
    CountAppend(rewritten, Added(lines, order, updates), key);
    NoCount(key);
  }

  /** After an update exactly one line assigns each key of the updates. */
  lemma EachKeyOnce(text: string, order: seq<string>, updates: Updates, key: string)
    requires WellFormed(updates) && Enumerates(order, updates.Keys) && key in updates
    ensures Count(SplitLines(Updated(text, order, updates)), key) == 1
  {
    hide SplitLines, Join, RStrip, Count, UpdatedLines, Reread;
    var lines := SplitLines(text);
    UpdatedAreLines(lines, order, updates);
    WrittenText(UpdatedLines(lines, order, updates));
    CountReread(UpdatedLines(lines, order, updates), key);
    CountUpdated(lines, order, updates, key);
  }

  // ---------------------------------------------------------------- the other lines

  /** The lines that assign no key of the updates, in their order. */
  ghost function Others(lines: seq<string>, updates: Updates): seq<string> {
    if lines == [] then []
    else (if Managed(lines[0], updates) then [] else [lines[0]]) + Others(lines[1..], updates)
  }

  lemma OthersCons(line: string, rest: seq<string>, updates: Updates)
    ensures Others([line] + rest, updates) ==
      (if Managed(line, updates) then [] else [line]) + Others(rest, updates)
  {
    hide Managed;
    assert ([line] + rest)[1..] == rest;
  }

  lemma NoOthers(updates: Updates)
    ensures Others([], updates) == []
  {
  }

  lemma {:induction false} OthersAppend(a: seq<string>, b: seq<string>, updates: Updates)
    ensures Others(a + b, updates) == Others(a, updates) + Others(b, updates)
  {
    hide Managed, Others;
    if a == [] {
      NoOthers(updates);
      assert a + b == b;
    } else {
      OthersAppend(a[1..], b, updates);
      assert a + b == [a[0]] + (a[1..] + b) && a == [a[0]] + a[1..];
      OthersCons(a[0], a[1..] + b, updates);
      OthersCons(a[0], a[1..], updates);
    }
  }

  lemma {:induction false} OthersRewritten(lines: seq<string>, updates: Updates, seen: set<string>)
    requires WellFormed(updates)
    ensures Others(Rewritten(lines, updates, seen), updates) == Others(lines, updates)
  {
    hide Match, Line, Others;
    if lines != [] {
      var rest := lines[1..];
      assert lines == [lines[0]] + rest;
      OthersCons(lines[0], rest, updates);
      if !Managed(lines[0], updates) {
        OthersRewritten(rest, updates, seen);
        OthersCons(lines[0], Rewritten(rest, updates, seen), updates);
      } else {
        var first := Match(lines[0]).value.key;
        if first in seen {
          OthersRewritten(rest, updates, seen);
        } else {
          OthersRewritten(rest, updates, seen + {first});
          LineAssigns(first, updates[first]);
          OthersCons(Line(first, updates[first]), Rewritten(rest, updates, seen + {first}), updates);
        }
      }
    }
  }

  lemma {:induction false} NewLinesAreManaged(keys: seq<string>, updates: Updates)
    requires WellFormed(updates) && forall k | k in keys :: k in updates
    ensures Others(NewLines(keys, updates), updates) == []
  {
    hide Match, Line, Others;
    NoOthers(updates);
    if keys != [] {
      NewLinesAreManaged(keys[1..], updates);
      LineAssigns(keys[0], updates[keys[0]]);
      OthersCons(Line(keys[0], updates[keys[0]]), NewLines(keys[1..], updates), updates);
    }
  }

  lemma HeadingIsOther(output: seq<string>, updates: Updates)
    ensures Others(Heading(output), updates) == Heading(output)
  {
    hide Match, Strip, MANAGED_COMMENT;
    CommentIsOneLine();
    CommentAssignsNothing(MANAGED_COMMENT);
    BlankAssignsNothing("");
    OthersAppend([""], [MANAGED_COMMENT], updates);
  }

  /** Trimming a list depends on its first line and on the trimmed rest. */
  lemma TrimCons(line: string, rest: seq<string>)
    ensures TrimEnd([line] + rest) ==
      if TrimEnd(rest) != [] then [line] + TrimEnd(rest)
      else if RStrip(line) != [] then [RStrip(line)]
      else []
  {
    hide RStrip;
    assert ([line] + rest)[1..] == rest;
  }

  lemma {:induction false} OthersTrimmed(lines: seq<string>, updates: Updates)
    ensures TrimEnd(Others(TrimEnd(lines), updates)) == TrimEnd(Others(lines, updates))
  {
    hide Match, RStrip, TrimEnd, Others;
    NoOthers(updates);
    if lines == [] {
      assert TrimEnd([]) == [] by { NothingToTrim(); }
    } else {
      var first, rest := lines[0], lines[1..];
      OthersTrimmed(rest, updates);
      assert lines == [first] + rest;
      TrimCons(first, rest);
      OthersCons(first, rest, updates);
      OthersCons(first, TrimEnd(rest), updates);
      TrimCons(first, Others(rest, updates));
      TrimCons(first, Others(TrimEnd(rest), updates));
      assert TrimEnd([]) == [] by { NothingToTrim(); }
      assert [] + Others(rest, updates) == Others(rest, updates);
      assert [] + Others(TrimEnd(rest), updates) == Others(TrimEnd(rest), updates);
      if TrimEnd(rest) == [] {
        TrimmedAssignsSame(first);
        RStripTwice(first);
        assert TrimEnd(Others(rest, updates)) == [];
        if RStrip(first) == [] {
          BlankAssignsNothing(first);
        } else {
          OthersCons(RStrip(first), [], updates);
          TrimCons(RStrip(first), []);
          assert [RStrip(first)] + [] == [RStrip(first)];
        }
      }
    }
  }

  lemma NothingToTrim()
    ensures TrimEnd([]) == [] && TrimEnd([""]) == []
  {
  }

  lemma OthersReread(lines: seq<string>, updates: Updates)
    ensures TrimEnd(Others(Reread(lines), updates)) == TrimEnd(Others(lines, updates))
  {
    hide TrimEnd, Others;
    OthersTrimmed(lines, updates);
    NoOthers(updates);
    NothingToTrim();
    BlankAssignsNothing("");
    OthersCons("", [], updates);
    assert [""] + [] == [""];
  }

  /** Lines that assign no key of the updates keep their text and their order, but for the space that
      ends the file; only a heading is added to them, and only when keys were missing. */
  lemma OtherLinesStay(text: string, order: seq<string>, updates: Updates)
    requires WellFormed(updates) && Enumerates(order, updates.Keys)
    ensures var lines := SplitLines(text);
      var heading := if updates.Keys <= Values(lines).Keys then [] else Heading(Rewritten(lines, updates, {}));
      TrimEnd(Others(SplitLines(Updated(text, order, updates)), updates)) ==
      TrimEnd(Others(lines, updates) + heading)
  {
    hide SplitLines, Join, RStrip, TrimEnd, Others, Reread, Values, Rewritten, NewLines, Heading, MANAGED_COMMENT;
    var lines := SplitLines(text);
    var rewritten, added := Rewritten(lines, updates, {}), Added(lines, order, updates);
    UpdatedAreLines(lines, order, updates);
    WrittenText(UpdatedLines(lines, order, updates));
    OthersReread(UpdatedLines(lines, order, updates), updates);
    OthersAppend(rewritten, added, updates);
    OthersRewritten(lines, updates, {});
    OthersOfAdded(lines, order, updates);
  }

  lemma {:induction false} MissingNone(order: seq<string>, seen: set<string>)
    ensures Missing(order, seen) == [] <==> forall k | k in order :: k in seen
  {
    if order != [] {
      MissingNone(order[1..], seen);
    }
  }

  lemma OthersOfAdded(lines: seq<string>, order: seq<string>, updates: Updates)
    requires WellFormed(updates) && Enumerates(order, updates.Keys)
    ensures Others(Added(lines, order, updates), updates) ==
      if updates.Keys <= Values(lines).Keys then [] else Heading(Rewritten(lines, updates, {}))
  {
    hide Others, Values, Rewritten, NewLines, Heading, WellFormed;
    var missing := Missing(order, Seen(lines, updates));
    var heading := Heading(Rewritten(lines, updates, {}));
    NoOthers(updates);
    NewLinesAreManaged(missing, updates);
    HeadingIsOther(Rewritten(lines, updates, {}), updates);
    OthersAppend(heading, NewLines(missing, updates), updates);
    MissingNone(order, Seen(lines, updates));
  }

  // ---------------------------------------------------------------- updating twice

  /** Every line that assigns a key of the updates is the line the updater writes. */
  ghost predicate Settled(lines: seq<string>, updates: Updates) {
    forall line | line in lines && Managed(line, updates) ::
      line == Line(Match(line).value.key, updates[Match(line).value.key])
  }

  lemma {:induction false} RewrittenIsSettled(lines: seq<string>, updates: Updates, seen: set<string>)
    requires WellFormed(updates)
    ensures Settled(Rewritten(lines, updates, seen), updates)
  {
    hide Match, Line;
    if lines != [] {
      if !Managed(lines[0], updates) {
        RewrittenIsSettled(lines[1..], updates, seen);
      } else {
        var key := Match(lines[0]).value.key;
        LineAssigns(key, updates[key]);
        RewrittenIsSettled(lines[1..], updates, seen);
        RewrittenIsSettled(lines[1..], updates, seen + {key});
      }
    }
  }

  lemma {:induction false} NewLinesAreSettled(keys: seq<string>, updates: Updates)
    requires WellFormed(updates) && forall k | k in keys :: k in updates
    ensures Settled(NewLines(keys, updates), updates)
  {
    hide Match, Line;
    if keys != [] {
      LineAssigns(keys[0], updates[keys[0]]);
      NewLinesAreSettled(keys[1..], updates);
    }
  }

  lemma UpdatedIsSettled(lines: seq<string>, order: seq<string>, updates: Updates)
    requires WellFormed(updates) && Enumerates(order, updates.Keys)
    ensures Settled(UpdatedLines(lines, order, updates), updates)
  {
    hide Match, Line, Rewritten, NewLines, Seen, Missing, Strip, MANAGED_COMMENT;
    RewrittenIsSettled(lines, updates, {});
    NewLinesAreSettled(Missing(order, Seen(lines, updates)), updates);
    CommentIsOneLine();
    CommentAssignsNothing(MANAGED_COMMENT);
    BlankAssignsNothing("");
  }

  /** Rewriting the trimmed form of settled lines restores the one line that trimming changed. */
  lemma {:induction false} RewriteTrimmed(lines: seq<string>, updates: Updates, seen: set<string>)
    requires Settled(lines, updates)
    requires forall k | k in updates :: Count(lines, k) <= if k in seen then 0 else 1
    ensures TrimEnd(Rewritten(TrimEnd(lines), updates, seen)) == TrimEnd(lines)
  {
    hide Match, RStrip, Line, TrimEnd, Rewritten;
    NothingToTrim();
    NothingToRewrite(updates, seen);
    if lines != [] {
      var first, rest := lines[0], lines[1..];
      assert lines == [first] + rest;
      assert forall k :: Count(lines, k) == (if Assigns(first, k) then 1 else 0) + Count(rest, k);
      TrimCons(first, rest);
      if TrimEnd(rest) != [] {
        RewriteCons(first, TrimEnd(rest), updates, seen);
        if Managed(first, updates) {
          var key := Match(first).value.key;
          assert Assigns(first, key);
          RewriteTrimmed(rest, updates, seen + {key});
          TrimCons(first, Rewritten(TrimEnd(rest), updates, seen + {key}));
        } else {
          RewriteTrimmed(rest, updates, seen);
          TrimCons(first, Rewritten(TrimEnd(rest), updates, seen));
        }
      } else if RStrip(first) != [] {
        RewriteLast(first, updates, seen);
      }
    }
  }

  lemma NothingToRewrite(updates: Updates, seen: set<string>)
    ensures Rewritten([], updates, seen) == []
  {
  }

  lemma RewriteCons(line: string, rest: seq<string>, updates: Updates, seen: set<string>)
    ensures Rewritten([line] + rest, updates, seen) ==
      if !Managed(line, updates) then [line] + Rewritten(rest, updates, seen)
      else
        var key := Match(line).value.key;
        if key in seen then Rewritten(rest, updates, seen)
        else [Line(key, updates[key])] + Rewritten(rest, updates, seen + {key})
  {
    hide Match, Line;
    assert ([line] + rest)[1..] == rest;
  }

  lemma RewriteLast(line: string, updates: Updates, seen: set<string>)
    requires Settled([line], updates) && RStrip(line) != []
    requires Managed(line, updates) ==> Match(line).value.key !in seen
    ensures TrimEnd(Rewritten([RStrip(line)], updates, seen)) == [RStrip(line)]
  {
    hide Match, RStrip, Line, TrimEnd, Rewritten;
    NothingToTrim();
    TrimmedAssignsSame(line);
    RStripTwice(line);
    RewriteCons(RStrip(line), [], updates, seen);
    NothingToRewrite(updates, seen);
    assert [RStrip(line)] + [] == [RStrip(line)];
    TrimCons(RStrip(line), []);
    if Managed(line, updates) {
      assert line in [line];
      NothingToRewrite(updates, seen + {Match(line).value.key});
      TrimCons(line, []);
    }
  }

  lemma RewriteReread(lines: seq<string>, updates: Updates)
    requires Settled(lines, updates) && forall k | k in updates :: Count(lines, k) == 1
    ensures TrimEnd(Rewritten(Reread(lines), updates, {})) == TrimEnd(lines)
  {
    hide Settled, Count, TrimEnd, Rewritten, Match;
    RewriteTrimmed(lines, updates, {});
    NothingToTrim();
    BlankAssignsNothing("");
    RewriteCons("", [], updates, {});
    NothingToRewrite(updates, {});
    assert [""] + [] == [""];
  }

  /** Updating an updated file with the same values changes nothing. */
  lemma UpdateTwice(text: string, order: seq<string>, updates: Updates)
    requires WellFormed(updates) && Enumerates(order, updates.Keys)
    ensures Updated(Updated(text, order, updates), order, updates) == Updated(text, order, updates)
  {
    hide SplitLines, Join, RStrip, TrimEnd, Count, Settled, Rewritten, Reread, Values, WellFormed;
    var lines := UpdatedLines(SplitLines(text), order, updates);
    var again := Reread(lines);
    UpdatedAreLines(SplitLines(text), order, updates);
    WrittenText(lines);
    forall k | k in updates ensures Count(lines, k) == 1 && k in Values(again) {
      CountUpdated(SplitLines(text), order, updates, k);
      CountReread(lines, k);
      CountedAreRead(again, k);
    }
    NothingMissing(again, order, updates);
    UpdatedIsSettled(SplitLines(text), order, updates);
    RewriteReread(lines, updates);
    TrimmedText(lines);
    TrimmedText(Rewritten(again, updates, {}));
  }

  lemma NothingMissing(lines: seq<string>, order: seq<string>, updates: Updates)
    requires Enumerates(order, updates.Keys) && forall k | k in updates :: k in Values(lines)
    ensures UpdatedLines(lines, order, updates) == Rewritten(lines, updates, {})
  {
    hide Rewritten, Values, NewLines, Heading;
    MissingNone(order, Seen(lines, updates));
  }
}
