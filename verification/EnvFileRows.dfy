/** The environment file character by character: white space, line breaks, assignments and written lines. */
module EnvFileRows {
  import opened Common
  import opened EnvFile
  import opened EnvFileTheorems

  // ---------------------------------------------------------------- white space and line breaks

  /** The white space of the language's string methods, by code point. */
  lemma SpacesAre(c: char)
    ensures IsSpace(c) <==> c as int in {
      9, 10, 11, 12, 13, 28, 29, 30, 31, 32, 133, 160, 5760, 8192, 8193, 8194, 8195, 8196, 8197, 8198, 8199, 8200, 8201, 8202,
      8232, 8233, 8239, 8287, 12288}
  {
  }

  /** The line boundaries, by code point; every one is white space. */
  lemma BreaksAre(c: char)
    ensures IsBreak(c) <==> c as int in {10, 11, 12, 13, 28, 29, 30, 133, 8232, 8233}
    ensures IsBreak(c) ==> IsSpace(c)
  {
  }

  /** A line end: one boundary, or carriage return and line feed together. */
  ghost predicate IsEnd(end: string) {
    end == "\r\n" || (|end| == 1 && IsBreak(end[0]))
  }

  /** The lines, each with its end. */
  ghost function Glue(lines: seq<string>, ends: seq<string>): string
    requires |ends| == |lines|
  {
    if lines == [] then "" else lines[0] + (ends[0] + Glue(lines[1..], ends[1..]))
  }

  /** The end is complete: a carriage return would take a line feed behind it along. */
  ghost predicate Complete(end: string, rest: string) {
    IsEnd(end) && !(end == "\r" && rest != [] && rest[0] == '\n')
  }

  /** Every line has no boundary inside and a complete end; only the last may lack it, when it is not empty. */
  ghost predicate AreLines(lines: seq<string>, ends: seq<string>)
    requires |ends| == |lines|
  {
    lines == [] ||
    (&& OneLine(lines[0])
     && (Complete(ends[0], Glue(lines[1..], ends[1..])) || (ends[0] == [] && lines[0] != [] && |lines| == 1))
     && AreLines(lines[1..], ends[1..]))
  }

  lemma EndIsBreak(end: string)
    requires IsEnd(end)
    ensures end != [] && IsBreak(end[0]) && |end| <= 2 && (|end| == 2 ==> end == "\r\n")
  {
  }

  /** How far the end reaches, as the splitter sees it. */
  lemma EndReaches(end: string, rest: string)
    requires Complete(end, rest)
    ensures var tail := end + rest;
      && tail != [] && IsBreak(tail[0]) && tail[|end|..] == rest
      && |end| == if tail[0] == '\r' && 1 < |tail| && tail[1] == '\n' then 2 else 1
  {
    EndIsBreak(end);
    hide IsBreak;
  }

  /** One step of the splitter. */
  lemma SplitStep(text: string, n: nat, width: nat)
    requires LineLength(text) == n < |text|
    requires width == if text[n] == '\r' && n + 1 < |text| && text[n + 1] == '\n' then 2 else 1
    ensures n + width <= |text| && SplitLines(text) == [text[..n]] + SplitLines(text[n + width..])
  {
    hide OneLine, IsBreak, LineLength;
  }

  lemma CutOff(line: string, end: string, rest: string)
    requires OneLine(line) && Complete(end, rest)
    ensures SplitLines(line + (end + rest)) == [line] + SplitLines(rest)
  {
    hide OneLine, IsBreak, Complete, LineLength, SplitLines;
    var text, tail := line + (end + rest), end + rest;
    var n := |line|;
    EndReaches(end, rest);
    LineLengthIs(line, tail);
    assert text[n] == tail[0] && (1 < |tail| ==> text[n + 1] == tail[1]);
    SplitStep(text, n, |end|);
    assert text[..n] == line && text[n + |end|..] == rest;
  }

  lemma {:induction false} GluedIsSplit(lines: seq<string>, ends: seq<string>)
    requires |ends| == |lines| && AreLines(lines, ends)
    ensures SplitLines(Glue(lines, ends)) == lines
  {
    if lines != [] {
      var rest := Glue(lines[1..], ends[1..]);
      GluedIsSplit(lines[1..], ends[1..]);
      if ends[0] == [] {
        assert lines[0] + ([] + rest) == lines[0] + [] == lines[0];
        LineLengthIs(lines[0], []);
      } else {
        CutOff(lines[0], ends[0], rest);
      }
    }
  }

  lemma NextEnd(text: string, n: nat, width: nat)
    requires n < |text| && IsBreak(text[n])
    requires width == if text[n] == '\r' && n + 1 < |text| && text[n + 1] == '\n' then 2 else 1
    ensures n + width <= |text| && Complete(text[n..n + width], text[n + width..])
  {
    hide IsBreak;
    if width == 2 {
      assert text[n..n + 2] == [text[n], text[n + 1]] == "\r\n";
    } else {
      assert text[n..n + 1] == [text[n]];
    }
  }

  lemma NextLine(text: string) returns (line: string, end: string, rest: string)
    requires LineLength(text) < |text|
    ensures text == line + (end + rest) && OneLine(line) && Complete(end, rest) && |rest| < |text|
    ensures SplitLines(text) == [line] + SplitLines(rest)
  {
    var n := LineLength(text);
    var width := if text[n] == '\r' && n + 1 < |text| && text[n + 1] == '\n' then 2 else 1;
    NextEnd(text, n, width);
    line, end, rest := text[..n], text[n..n + width], text[n + width..];
    hide OneLine, IsBreak, Complete, LineLength;
    assert text == line + (end + rest);
  }

  lemma {:induction false} SplitIsGlued(text: string) returns (ends: seq<string>)
    ensures |ends| == |SplitLines(text)| && AreLines(SplitLines(text), ends) && Glue(SplitLines(text), ends) == text
    decreases |text|
  {
    if text == [] {
      ends := [];
    } else if LineLength(text) == |text| {
      ends := [[]];
      assert text + ([] + []) == text;
      assert text[..|text|] == text;
    } else {
      var line, end, rest := NextLine(text);
      var more := SplitIsGlued(rest);
      ends := [end] + more;
      hide SplitLines, OneLine, Complete;
      assert ends[1..] == more && ([line] + SplitLines(rest))[1..] == SplitLines(rest);
    }
  }

  ghost predicate SplitsInto(text: string, lines: seq<string>, ends: seq<string>) {
    |ends| == |lines| && AreLines(lines, ends) && Glue(lines, ends) == text
  }

  /** The lines read are the one way to cut the text at its line boundaries. */
  lemma SplitLinesIff(text: string, lines: seq<string>)
    ensures SplitLines(text) == lines <==> exists ends :: SplitsInto(text, lines, ends)
  {
    if SplitLines(text) == lines {
      var ends := SplitIsGlued(text);
      assert SplitsInto(text, lines, ends);
    }
    forall ends | SplitsInto(text, lines, ends) ensures SplitLines(text) == lines {
      GluedIsSplit(lines, ends);
    }
  }

  // ---------------------------------------------------------------- an assignment

  ghost predicate IsLetter(c: char) {
    'A' <= c <= 'Z' || 'a' <= c <= 'z' || c == '_'
  }

  /** Letters, digits and underscores, not beginning with a digit. */
  ghost predicate IsKey(key: string) {
    key != [] && IsLetter(key[0]) && forall c | c in key :: IsLetter(c) || '0' <= c <= '9'
  }

  /** White space, a key, white space, an equals sign and the rest. */
  ghost predicate Reads(line: string, a: string, key: string, b: string, raw: string) {
    line == a + (key + (b + ("=" + raw))) && Spaces(a) && IsKey(key) && Spaces(b)
  }

  lemma {:induction false} LStripSplits(s: string) returns (w: string)
    ensures s == w + LStrip(s) && Spaces(w)
  {
    if s != [] && IsSpace(s[0]) {
      w := LStripSplits(s[1..]);
      w := [s[0]] + w;
    } else {
      w := [];
    }
  }

  lemma {:induction false} LStripTo(w: string, s: string)
    requires Spaces(w) && (s != [] ==> !IsSpace(s[0]))
    ensures LStrip(w + s) == s
  {
    if w == [] {
      assert w + s == s;
    } else {
      assert (w + s)[1..] == w[1..] + s;
      LStripTo(w[1..], s);
    }
  }

  lemma {:induction false} RStripTo(s: string, w: string)
    requires Spaces(w) && (s != [] ==> !IsSpace(s[|s| - 1]))
    ensures RStrip(s + w) == s
  {
    RStripAppend(s, w);
    RStripSpaces(w);
  }

  lemma {:induction false} TailIsKey(s: string)
    ensures forall c | c in s[..TailLength(s)] :: IsLetter(c) || '0' <= c <= '9'
    ensures TailLength(s) < |s| ==> !(IsLetter(s[TailLength(s)]) || '0' <= s[TailLength(s)] <= '9')
  {
    if s != [] && IsNameChar(s[0]) {
      TailIsKey(s[1..]);
      var n := TailLength(s[1..]);
      assert s[..n + 1] == [s[0]] + s[1..][..n];
    }
  }

  lemma NameIsKey(s: string)
    requires NameLength(s) > 0
    ensures IsKey(s[..NameLength(s)])
  {
    TailIsKey(s[1..]);
    var n := TailLength(s[1..]);
    assert s[..n + 1] == [s[0]] + s[1..][..n];
  }

  lemma KeyIsName(key: string, rest: string)
    requires IsKey(key) && rest != [] && (IsSpace(rest[0]) || rest[0] == '=')
    ensures NameLength(key + rest) == |key| && !IsSpace(key[0])
  {
    assert key[0] in key;
    assert !IsNameChar(rest[0]);
    assert forall c | c in key[1..] :: c in key;
    TailIsAll(key[1..]);
    NameLengthAppend(key, rest);
  }

  lemma MatchReads(line: string) returns (a: string, b: string)
    requires Match(line).Some?
    ensures Reads(line, a, Match(line).value.key, b, Match(line).value.value)
  {
    hide LStrip, NameLength, Spaces, IsKey;
    a := LStripSplits(line);
    var s := LStrip(line);
    var n := NameLength(s);
    NameIsKey(s);
    b := LStripSplits(s[n..]);
    var t := LStrip(s[n..]);
    assert t == "=" + t[1..];
    assert s == s[..n] + s[n..];
  }

  lemma ReadsMatch(line: string, a: string, key: string, b: string, raw: string)
    requires Reads(line, a, key, b, raw)
    ensures Match(line) == Some(Assignment(key, raw))
  {
    var rest := b + ("=" + raw);
    assert rest != [] && (IsSpace(rest[0]) || rest[0] == '=') by {
      if b != [] {
        assert rest[0] == b[0];
      }
    }
    KeyIsName(key, rest);
    assert !IsSpace('=');
    LStripTo(a, key + rest);
    LStripTo(b, "=" + raw);
    hide LStrip, NameLength, Spaces, IsKey;
    assert (key + rest)[..|key|] == key && (key + rest)[|key|..] == rest && ("=" + raw)[1..] == raw;
  }

  /** The text between white space. */
  ghost predicate Trims(raw: string, l: string, text: string, r: string) {
    raw == l + (text + r) && Spaces(l) && Spaces(r) && (text != [] ==> !IsSpace(text[0]) && !IsSpace(text[|text| - 1]))
  }

  /** The text in one pair of equal quotes, or the text itself when it is not quoted. */
  ghost predicate Unquotes(text: string, value: string) {
    || text == "\"" + value + "\"" || text == "'" + value + "'"
    || (text == value && !(|text| >= 2 && text[0] == text[|text| - 1] && (text[0] == '"' || text[0] == '\'')))
  }

  lemma StripTrims(raw: string) returns (l: string, r: string)
    ensures Trims(raw, l, Strip(raw), r)
  {
    r := RStripSplits(raw);
    l := LStripSplits(RStrip(raw));
    StripEnds(raw);
    hide Strip, Spaces, RStrip, LStrip;
    assert l + Strip(raw) + r == l + (Strip(raw) + r);
  }

  lemma {:induction false} RStripEnds(s: string)
    ensures RStrip(s) != [] ==> !IsSpace(RStrip(s)[|RStrip(s)| - 1])
  {
    if s != [] && IsSpace(s[|s| - 1]) {
      RStripEnds(s[..|s| - 1]);
    }
  }

  lemma {:induction false} LStripEnds(s: string)
    ensures var t := LStrip(s);
      && (t != [] ==> !IsSpace(t[0]) && t[|t| - 1] == s[|s| - 1])
      && |t| <= |s|
  {
    if s != [] && IsSpace(s[0]) {
      LStripEnds(s[1..]);
    }
  }

  lemma StripEnds(raw: string)
    ensures Strip(raw) == LStrip(RStrip(raw))
    ensures var text := Strip(raw);
      text != [] ==> !IsSpace(text[0]) && !IsSpace(text[|text| - 1])
  {
    RStripEnds(raw);
    LStripEnds(RStrip(raw));
  }

  lemma TrimsStrip(raw: string, l: string, text: string, r: string)
    requires Trims(raw, l, text, r)
    ensures Strip(raw) == text
  {
    assert raw == (l + text) + r;
    if text == [] {
      assert raw == l + r;
      RStripSpaces(raw);
    } else {
      RStripTo(l + text, r);
      LStripTo(l, text);
    }
  }

  lemma UnquoteIff(text: string, value: string)
    ensures Unquote(text) == value <==> Unquotes(text, value)
  {
    if Unquote(text) == value && text != value {
      assert text == [text[0]] + value + [text[0]];
    }
    if text == "\"" + value + "\"" {
      assert text[1..|text| - 1] == value;
    }
    if text == "'" + value + "'" {
      assert text[1..|text| - 1] == value;
    }
  }

  /** A line assigns a value to a key exactly when it is white space, the key, white space, an equals sign and a
      text that trims and unquotes to the value. */
  lemma EntryIff(line: string, key: string, value: string)
    ensures Entry(line) == Some(Assignment(key, value)) <==>
      exists a, b, raw, l, text, r :: Reads(line, a, key, b, raw) && Trims(raw, l, text, r) && Unquotes(text, value)
  {
    hide Match, Strip, Unquote, Reads, Trims, Unquotes;
    if Entry(line) == Some(Assignment(key, value)) {
      var raw := Match(line).value.value;
      var a, b := MatchReads(line);
      var l, r := StripTrims(raw);
      UnquoteIff(Strip(raw), value);
      assert Reads(line, a, key, b, raw) && Trims(raw, l, Strip(raw), r) && Unquotes(Strip(raw), value);
    }
    forall a, b, raw, l, text, r | Reads(line, a, key, b, raw) && Trims(raw, l, text, r) && Unquotes(text, value)
      ensures Entry(line) == Some(Assignment(key, value))
    {
      ReadsMatch(line, a, key, b, raw);
      TrimsStrip(raw, l, text, r);
      UnquoteIff(text, value);
    }
  }

  // ---------------------------------------------------------------- the written lines

  /** What the line at this place becomes: itself if it assigns no key of the updates, the new assignment where
      its key comes first, and nothing where it comes again. */
  ghost function Piece(lines: seq<string>, updates: Updates, i: nat): seq<string>
    requires i < |lines|
  {
    var m := Match(lines[i]);
    if m.None? || m.value.key !in updates then [lines[i]]
    else if exists j | 0 <= j < i :: Assigns(lines[j], m.value.key) then []
    else [m.value.key + "=" + updates[m.value.key]]
  }

  ghost function Pieces(lines: seq<string>, updates: Updates, n: nat): seq<string>
    requires n <= |lines|
  {
    if n == 0 then [] else Pieces(lines, updates, n - 1) + Piece(lines, updates, n - 1)
  }

  ghost function SeenBefore(lines: seq<string>, updates: Updates, n: nat): set<string>
    requires n <= |lines|
  {
    set j | 0 <= j < n && Managed(lines[j], updates) :: Match(lines[j]).value.key
  }

  lemma SeenNext(lines: seq<string>, updates: Updates, n: nat)
    requires n < |lines|
    ensures SeenBefore(lines, updates, n + 1) ==
      SeenBefore(lines, updates, n) + if Managed(lines[n], updates) then {Match(lines[n]).value.key} else {}
    ensures Managed(lines[n], updates) ==>
      (Match(lines[n]).value.key in SeenBefore(lines, updates, n)
       <==> exists j | 0 <= j < n :: Assigns(lines[j], Match(lines[n]).value.key))
  {
    hide Match;
  }

  lemma {:induction false} RewrittenIsPieces(lines: seq<string>, updates: Updates, n: nat)
    requires n <= |lines|
    ensures Rewritten(lines, updates, {}) ==
      Pieces(lines, updates, n) + Rewritten(lines[n..], updates, SeenBefore(lines, updates, n))
  {
    hide Match, Rewritten;
    if n == 0 {
      assert SeenBefore(lines, updates, 0) == {} && lines[0..] == lines;
    } else {
      RewrittenIsPieces(lines, updates, n - 1);
      RewrittenStep(lines, n - 1, updates, SeenBefore(lines, updates, n - 1));
      SeenNext(lines, updates, n - 1);
      var key := if Managed(lines[n - 1], updates) then {Match(lines[n - 1]).value.key} else {};
      if key <= SeenBefore(lines, updates, n - 1) {
        assert SeenBefore(lines, updates, n) == SeenBefore(lines, updates, n - 1);
      }
    }
  }

  /** The rewritten lines, place by place. */
  lemma RewrittenLines(lines: seq<string>, updates: Updates)
    ensures Rewritten(lines, updates, {}) == Pieces(lines, updates, |lines|)
  {
    RewrittenIsPieces(lines, updates, |lines|);
    assert lines[|lines|..] == [];
    NoLines(updates, SeenBefore(lines, updates, |lines|));
    hide Rewritten, Pieces;
  }

  /** The heading: a blank line behind a line with text, and the comment unless it is there. */
  lemma HeadingRows(output: seq<string>)
    ensures var comment := "# OpenClaw local setup " + "(managed by scripts/" + "setup_openclaw_local.py)";
      var last := if output == [] then "" else output[|output| - 1];
      Heading(output) ==
        (if exists c | c in last :: !IsSpace(c) then [""] else []) + (if comment in output then [] else [comment])
  {
    if output != [] {
      var last := output[|output| - 1];
      if Strip(last) == [] {
        var l, r := StripTrims(last);
        assert last == l + r;
      } else {
        var l, r := StripTrims(last);
        assert Strip(last)[0] in last;
      }
    }
    hide Strip;
  }
}
