/** What the parser of the environment file reads from the text that the updater writes. */
module EnvFileTheorems {
  import opened Common
  import opened EnvFile

  // ---------------------------------------------------------------- stripping

  ghost predicate Spaces(s: string) {
    forall c | c in s :: IsSpace(c)
  }

  lemma {:induction false} RStripAppend(a: string, b: string)
    ensures RStrip(a + b) == if RStrip(b) == [] then RStrip(a) else a + RStrip(b)
  {
    if b == [] {
      assert a + b == a;
    } else {
      assert (a + b)[..|a + b| - 1] == a + b[..|b| - 1];
      if IsSpace(b[|b| - 1]) {
        RStripAppend(a, b[..|b| - 1]);
      }
    }
  }

  lemma {:induction false} RStripTwice(s: string)
    ensures RStrip(RStrip(s)) == RStrip(s)
  {
    if s != [] && IsSpace(s[|s| - 1]) {
      RStripTwice(s[..|s| - 1]);
    }
  }

  lemma {:induction false} RStripSplits(s: string) returns (w: string)
    ensures s == RStrip(s) + w && Spaces(w)
  {
    if s != [] && IsSpace(s[|s| - 1]) {
      w := RStripSplits(s[..|s| - 1]);
      w := w + [s[|s| - 1]];
    } else {
      w := [];
    }
  }

  lemma {:induction false} RStripSpaces(w: string)
    requires Spaces(w)
    ensures RStrip(w) == []
  {
    if w != [] {
      RStripSpaces(w[..|w| - 1]);
    }
  }

  lemma {:induction false} LStripSpaces(w: string)
    requires Spaces(w)
    ensures LStrip(w) == []
  {
    if w != [] {
      LStripSpaces(w[1..]);
    }
  }

  lemma {:induction false} LStripAppend(s: string, w: string)
    requires Spaces(w)
    ensures LStrip(s + w) == if LStrip(s) == [] then [] else LStrip(s) + w
  {
    if s == [] {
      assert s + w == w;
      LStripSpaces(w);
    } else {
      assert (s + w)[1..] == s[1..] + w;
      if IsSpace(s[0]) {
        LStripAppend(s[1..], w);
      }
    }
  }

  // ---------------------------------------------------------------- one line

  lemma {:induction false} TailLengthAppend(s: string, w: string)
    requires w != [] ==> !IsNameChar(w[0])
    ensures TailLength(s + w) == TailLength(s)
  {
    if s == [] {
      assert s + w == w;
    } else {
      assert (s + w)[1..] == s[1..] + w;
      TailLengthAppend(s[1..], w);
    }
  }

  lemma NameLengthAppend(s: string, w: string)
    requires w != [] ==> !IsNameChar(w[0])
    ensures NameLength(s + w) == NameLength(s)
  {
    if s == [] {
      assert s + w == w;
    } else {
      assert (s + w)[1..] == s[1..] + w;
      TailLengthAppend(s[1..], w);
    }
  }

  lemma {:induction false} TailIsAll(s: string)
    requires forall c | c in s :: IsNameChar(c)
    ensures TailLength(s) == |s|
  {
    if s != [] {
      assert forall c | c in s[1..] :: c in s;
      TailIsAll(s[1..]);
    }
  }

  /** Spaces at the end of a line go to the end of the value. */
  lemma MatchAppend(line: string, w: string)
    requires Spaces(w)
    ensures Match(line + w) ==
      if Match(line).None? then None
      else Some(Assignment(Match(line).value.key, Match(line).value.value + w))
  {
    hide LStrip, NameLength;
    var s := LStrip(line);
    LStripAppend(line, w);
    if s == [] {
      assert NameLength([]) == 0 by { NoName(); }
    } else {
      var n := NameLength(s);
      assert w != [] ==> IsSpace(w[0]);
      NameLengthAppend(s, w);
      assert (s + w)[..n] == s[..n] && (s + w)[n..] == s[n..] + w;
      LStripAppend(s[n..], w);
      var t := LStrip(s[n..]);
      if t != [] {
        assert (t + w)[1..] == t[1..] + w;
      }
    }
  }

  lemma NoName()
    ensures NameLength([]) == 0
  {
  }

  /** Trimming a line on the right changes neither its key nor the value it assigns. */
  lemma TrimmedAssignsSame(line: string)
    ensures Entry(RStrip(line)) == Entry(line)
    ensures Match(RStrip(line)).Some? <==> Match(line).Some?
    ensures Match(line).Some? ==> Match(RStrip(line)).value.key == Match(line).value.key
  {
    hide Match, RStrip, LStrip, Unquote;
    var w := RStripSplits(line);
    MatchAppend(RStrip(line), w);
    if Match(RStrip(line)).Some? {
      RStripSpaces(w);
      RStripAppend(Match(RStrip(line)).value.value, w);
    }
  }

  lemma BlankAssignsNothing(line: string)
    requires RStrip(line) == []
    ensures Entry(line) == None && Match(line) == None
  {
    TrimmedAssignsSame(line);
    assert Match([]) == None;
  }

  /** A written line assigns its key, if that is a name. */
  lemma LineAssigns(key: string, value: string)
    requires IsName(key)
    ensures Match(Line(key, value)) == Some(Assignment(key, value))
    ensures Entry(Line(key, value)) == Some(Assignment(key, Unquote(Strip(value))))
    ensures RStrip(Line(key, value)) != []
  {
    var line := Line(key, value);
    assert line == key + ("=" + value) && line[0] == key[0];
    assert LStrip(line) == line;
    TailIsAll(key[1..]);
    NameLengthAppend(key, "=" + value);
    assert line[..|key|] == key && line[|key|..] == "=" + value && ("=" + value)[1..] == value;
    if RStrip(line) == [] {
      BlankAssignsNothing(line);
    }
  }

  /** A line that starts with a number sign is no assignment. */
  lemma CommentAssignsNothing(line: string)
    requires line != [] && line[0] == '#'
    ensures Match(line) == None
  {
    assert LStrip(line) == line;
  }

  lemma CommentIsOneLine()
    ensures OneLine(MANAGED_COMMENT) && MANAGED_COMMENT != [] && MANAGED_COMMENT[0] == '#'
  {
    hide OneLine;
    PrintableIsOneLine("# OpenClaw local setup ");
    PrintableIsOneLine("(managed by scripts/");
    PrintableIsOneLine("setup_openclaw_local.py)");
    OneLineAppend("# OpenClaw local setup ", "(managed by scripts/");
    OneLineAppend("# OpenClaw local setup " + "(managed by scripts/", "setup_openclaw_local.py)");
  }

  lemma PrintableIsOneLine(s: string)
    requires forall c | c in s :: ' ' <= c <= 'z'
    ensures OneLine(s)
  {
  }

  lemma OneLineAppend(a: string, b: string)
    requires OneLine(a) && OneLine(b)
    ensures OneLine(a + b)
  {
  }

  // ---------------------------------------------------------------- text and lines

  /** The lines that stay when a text is trimmed on the right. */
  ghost function TrimEnd(lines: seq<string>): (r: seq<string>)
    ensures r != [] ==> r[|r| - 1] != []
  {
    if lines == [] then []
    else
      var rest := TrimEnd(lines[1..]);
      if rest != [] then [lines[0]] + rest
      else if RStrip(lines[0]) != [] then [RStrip(lines[0])]
      else []
  }

  lemma JoinNotEmpty(lines: seq<string>)
    requires lines != [] && lines[|lines| - 1] != []
    ensures Join(lines) != []
  {
  }

  lemma {:induction false} TrimmedText(lines: seq<string>)
    ensures RStrip(Join(lines)) == Join(TrimEnd(lines))
  {
    if |lines| == 1 {
      assert TrimEnd(lines[1..]) == [];
    } else if lines != [] {
      var rest := TrimEnd(lines[1..]);
      TrimmedText(lines[1..]);
      RStripAppend(lines[0] + "\n", Join(lines[1..]));
      if rest == [] {
        RStripAppend(lines[0], "\n");
        RStripSpaces("\n");
      } else {
        JoinNotEmpty(rest);
        assert ([lines[0]] + rest)[1..] == rest;
      }
    }
  }

  lemma {:induction false} LineLengthIs(a: string, b: string)
    requires OneLine(a) && (b != [] ==> IsBreak(b[0]))
    ensures LineLength(a + b) == |a|
  {
    if a == [] {
      assert a + b == b;
    } else {
      assert (a + b)[1..] == a[1..] + b;
      LineLengthIs(a[1..], b);
    }
  }

  lemma SplitOff(first: string, rest: string)
    requires OneLine(first)
    ensures SplitLines(first + "\n" + rest) == [first] + SplitLines(rest)
  {
    hide OneLine, IsBreak;
    var text := first + "\n" + rest;
    assert text == first + ("\n" + rest);
    assert LineLength(text) == |first| by {
      assert IsBreak('\n') by { LineFeedBreaks(); }
      LineLengthIs(first, "\n" + rest);
    }
    assert text[..|first|] == first && text[|first| + 1..] == rest && text[|first|] == '\n';
  }

  lemma LineFeedBreaks()
    ensures IsBreak('\n')
  {
  }

  /** Lines joined and closed by a line feed are read back as they were. */
  lemma {:induction false} SplitJoined(lines: seq<string>)
    requires lines != [] && forall line | line in lines :: OneLine(line)
    ensures SplitLines(Join(lines) + "\n") == lines
  {
    hide OneLine, LineLength;
    if |lines| > 1 {
      var rest := Join(lines[1..]) + "\n";
      assert Join(lines) + "\n" == lines[0] + "\n" + rest;
      SplitOff(lines[0], rest);
      SplitJoined(lines[1..]);
    } else {
      SplitOff(lines[0], "");
      assert Join(lines) + "\n" == lines[0] + "\n" + "";
      assert SplitLines("") == [];
    }
  }

  lemma {:induction false} TrimKeepsLines(lines: seq<string>)
    requires forall line | line in lines :: OneLine(line)
    ensures forall line | line in TrimEnd(lines) :: OneLine(line)
  {
    if lines != [] {
      assert forall line | line in lines[1..] :: line in lines;
      TrimKeepsLines(lines[1..]);
      assert OneLine(lines[0]);
      assert OneLine(RStrip(lines[0])) by {
        var w := RStripSplits(lines[0]);
        assert forall c | c in RStrip(lines[0]) :: c in lines[0];
      }
    }
  }

  /** The lines of a text written from a list of lines. */
  ghost function Reread(lines: seq<string>): seq<string> {
    if TrimEnd(lines) == [] then [""] else TrimEnd(lines)
  }

  lemma WrittenText(lines: seq<string>)
    requires forall line | line in lines :: OneLine(line)
    ensures SplitLines(RStrip(Join(lines)) + "\n") == Reread(lines)
  {
    TrimmedText(lines);
    TrimKeepsLines(lines);
    if TrimEnd(lines) == [] {
      SplitJoined([""]);
      assert Join(TrimEnd(lines)) == Join([""]);
    } else {
      SplitJoined(TrimEnd(lines));
    }
  }

  // ---------------------------------------------------------------- keys that can be written

  /** Every key is a name and no value holds a line break. */
  ghost predicate WellFormed(updates: Updates) {
    forall k | k in updates :: IsName(k) && OneLine(updates[k])
  }

  lemma {:induction false} NameIsOneLine(key: string)
    requires IsName(key)
    ensures OneLine(key)
  {
    forall c | c in key ensures !IsBreak(c) {
      assert IsNameChar(c);
    }
  }

  lemma WrittenLineIsOneLine(key: string, value: string)
    requires IsName(key) && OneLine(value)
    ensures OneLine(Line(key, value))
  {
    NameIsOneLine(key);
  }

  lemma {:induction false} RewrittenAreLines(lines: seq<string>, updates: Updates, seen: set<string>)
    requires WellFormed(updates) && forall line | line in lines :: OneLine(line)
    ensures forall line | line in Rewritten(lines, updates, seen) :: OneLine(line)
  {
    hide Match, OneLine, Line;
    if lines != [] {
      assert forall line | line in lines[1..] :: line in lines;
      if Managed(lines[0], updates) {
        var key := Match(lines[0]).value.key;
        WrittenLineIsOneLine(key, updates[key]);
        RewrittenAreLines(lines[1..], updates, seen);
        RewrittenAreLines(lines[1..], updates, seen + {key});
      } else {
        RewrittenAreLines(lines[1..], updates, seen);
      }
    }
  }

  lemma {:induction false} NewAreLines(keys: seq<string>, updates: Updates)
    requires WellFormed(updates) && forall k | k in keys :: k in updates
    ensures forall line | line in NewLines(keys, updates) :: OneLine(line)
  {
    hide OneLine, Line;
    if keys != [] {
      WrittenLineIsOneLine(keys[0], updates[keys[0]]);
      NewAreLines(keys[1..], updates);
    }
  }

  lemma UpdatedAreLines(lines: seq<string>, order: seq<string>, updates: Updates)
    requires WellFormed(updates) && forall k | k in order :: k in updates
    requires forall line | line in lines :: OneLine(line)
    ensures forall line | line in UpdatedLines(lines, order, updates) :: OneLine(line)
  {
    hide Match, Rewritten, Seen, Line, NewLines, Strip, MANAGED_COMMENT;
    RewrittenAreLines(lines, updates, {});
    NewAreLines(Missing(order, Seen(lines, updates)), updates);
    CommentIsOneLine();
    assert OneLine("");
  }

  // ---------------------------------------------------------------- values

  lemma ValuesCons(line: string, rest: seq<string>)
    ensures Values([line] + rest) == Effect(line) + Values(rest)
  {
    hide Effect;
    assert ([line] + rest)[1..] == rest;
  }

  lemma {:induction false} ValuesAppend(a: seq<string>, b: seq<string>)
    ensures Values(a + b) == Values(a) + Values(b)
  {
    hide Effect, Values;
    if a == [] {
      NoValues();
      assert a + b == b;
    } else {
      ValuesAppend(a[1..], b);
      ValuesCons(a[0], a[1..]);
      ValuesCons(a[0], a[1..] + b);
      assert a + b == [a[0]] + (a[1..] + b) && a == [a[0]] + a[1..];
    }
  }

  /** Trimming a text on the right does not change the values it assigns. */
  lemma {:induction false} ValuesOfTrimmed(lines: seq<string>)
    ensures Values(TrimEnd(lines)) == Values(lines)
  {
    hide Entry, RStrip;
    if lines != [] {
      var rest := TrimEnd(lines[1..]);
      ValuesOfTrimmed(lines[1..]);
      if rest != [] {
        assert ([lines[0]] + rest)[1..] == rest;
      } else {
        TrimmedAssignsSame(lines[0]);
        if RStrip(lines[0]) == [] {
          BlankAssignsNothing(lines[0]);
        }
      }
    }
  }

  lemma ValuesOfReread(lines: seq<string>)
    ensures Values(Reread(lines)) == Values(lines)
  {
    ValuesOfTrimmed(lines);
    assert Values([""]) == Values([]);
  }

  /** What the parser reads for a key that the updates write. */
  ghost function Wanted(updates: Updates): map<string, string> {
    map k | k in updates :: Unquote(Strip(updates[k]))
  }

  type Env = map<string, string>

  /** The values of the rewritten lines, key by key. */
  ghost predicate RewrittenValues(before: Env, after: Env, wanted: Env, seen: set<string>) {
    && (forall k :: k in after <==> k in before && !(k in wanted && k in seen))
    && (forall k | k in after :: after[k] == if k in wanted then wanted[k] else before[k])
  }

  lemma KeptValues(e: Env, before: Env, after: Env, wanted: Env, seen: set<string>)
    requires RewrittenValues(before, after, wanted, seen) && e.Keys !! wanted.Keys
    ensures RewrittenValues(e + before, e + after, wanted, seen)
  {
  }

  lemma DroppedValue(key: string, e: Env, before: Env, after: Env, wanted: Env, seen: set<string>)
    requires RewrittenValues(before, after, wanted, seen) && e.Keys == {key} && key in wanted && key in seen
    ensures RewrittenValues(e + before, after, wanted, seen)
  {
  }

  lemma WrittenValue(key: string, e: Env, before: Env, after: Env, wanted: Env, seen: set<string>)
    requires RewrittenValues(before, after, wanted, seen + {key})
    requires e.Keys == {key} && key in wanted && key !in seen
    ensures RewrittenValues(e + before, map[key := wanted[key]] + after, wanted, seen)
  {
  }

  lemma EffectKeys(line: string)
    ensures Match(line).None? ==> Effect(line) == map[]
    ensures Match(line).Some? ==> Effect(line).Keys == {Match(line).value.key}
  {
  }

  lemma LineEffect(key: string, updates: Updates)
    requires WellFormed(updates) && key in updates
    ensures Effect(Line(key, updates[key])) == map[key := Wanted(updates)[key]]
  {
    hide Line, Match, Unquote, Strip;
    LineAssigns(key, updates[key]);
  }

  lemma {:induction false} ValuesOfRewritten(lines: seq<string>, updates: Updates, seen: set<string>)
    requires WellFormed(updates)
    ensures RewrittenValues(Values(lines), Values(Rewritten(lines, updates, seen)), Wanted(updates), seen)
  {
    hide Match, Line, Effect, Values, RewrittenValues, WellFormed;
    if lines == [] {
      assert Values([]) == map[] by { NoValues(); }
      NothingRewritten(Wanted(updates), seen);
    } else {
      var rest, e, wanted := lines[1..], Effect(lines[0]), Wanted(updates);
      ValuesCons(lines[0], rest);
      assert lines == [lines[0]] + rest;
      EffectKeys(lines[0]);
      if !Managed(lines[0], updates) {
        var r := Rewritten(rest, updates, seen);
        ValuesOfRewritten(rest, updates, seen);
        ValuesCons(lines[0], r);
        KeptValues(e, Values(rest), Values(r), wanted, seen);
      } else {
        var key := Match(lines[0]).value.key;
        if key in seen {
          ValuesOfRewritten(rest, updates, seen);
          DroppedValue(key, e, Values(rest), Values(Rewritten(rest, updates, seen)), wanted, seen);
        } else {
          var r := Rewritten(rest, updates, seen + {key});
          ValuesOfRewritten(rest, updates, seen + {key});
          ValuesCons(Line(key, updates[key]), r);
          LineEffect(key, updates);
          WrittenValue(key, e, Values(rest), Values(r), wanted, seen);
        }
      }
    }
  }

  lemma NothingRewritten(wanted: Env, seen: set<string>)
    ensures RewrittenValues(map[], map[], wanted, seen)
  {
  }

  lemma {:induction false} ValuesOfNewLines(keys: seq<string>, updates: Updates)
    requires WellFormed(updates) && forall k | k in keys :: k in updates
    ensures Values(NewLines(keys, updates)) == map k | k in keys :: Wanted(updates)[k]
  {
    hide Line, Unquote, Strip, Effect;
    if keys != [] {
      ValuesOfNewLines(keys[1..], updates);
      LineEffect(keys[0], updates);
      ValuesCons(Line(keys[0], updates[keys[0]]), NewLines(keys[1..], updates));
    }
  }

  lemma HeadingAssignsNothing(output: seq<string>)
    ensures Values(Heading(output)) == map[]
  {
    hide Match, Strip, MANAGED_COMMENT;
    CommentIsOneLine();
    CommentAssignsNothing(MANAGED_COMMENT);
    BlankAssignsNothing("");
    ValuesAppend([""], [MANAGED_COMMENT]);
  }

  lemma ValuesOfAdded(lines: seq<string>, order: seq<string>, updates: Updates)
    requires WellFormed(updates) && Enumerates(order, updates.Keys)
    ensures Values(Added(lines, order, updates)) == map k | k in updates && k !in Values(lines) :: Wanted(updates)[k]
  {
    hide Heading, Rewritten, NewLines, Values, Missing, Unquote, Strip, WellFormed;
    var missing := Missing(order, Seen(lines, updates));
    var heading := Heading(Rewritten(lines, updates, {}));
    assert forall k :: k in missing <==> k in updates && k !in Values(lines);
    if missing == [] {
      NoValues();
      assert forall k | k in updates :: k !in missing;
    } else {
      HeadingAssignsNothing(Rewritten(lines, updates, {}));
      ValuesOfNewLines(missing, updates);
      ValuesAppend(heading, NewLines(missing, updates));
    }
  }

  lemma ValuesOfUpdated(lines: seq<string>, order: seq<string>, updates: Updates)
    requires WellFormed(updates) && Enumerates(order, updates.Keys)
    ensures Values(UpdatedLines(lines, order, updates)) == Values(lines) + Wanted(updates)
  {
    hide Rewritten, Added, Values, Unquote, Strip;
    ValuesOfRewritten(lines, updates, {});
    ValuesOfAdded(lines, order, updates);
    ValuesAppend(Rewritten(lines, updates, {}), Added(lines, order, updates));
  }

  /** Reading the updated file gives the old values overridden by the updates, stripped and unquoted. */
  lemma UpdateThenParse(text: string, order: seq<string>, updates: Updates)
    requires WellFormed(updates) && Enumerates(order, updates.Keys)
    ensures Values(SplitLines(Updated(text, order, updates))) == Values(SplitLines(text)) + Wanted(updates)
  {
    hide SplitLines, Join, RStrip, Values, UpdatedLines, Wanted, Reread;
    var lines := SplitLines(text);
    UpdatedAreLines(lines, order, updates);
    WrittenText(UpdatedLines(lines, order, updates));
    ValuesOfReread(UpdatedLines(lines, order, updates));
    ValuesOfUpdated(lines, order, updates);
  }
}
