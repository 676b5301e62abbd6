/** The environment file that setup manages: its parser and its updater. */
module EnvFile {
  import opened Common

  const MANAGED_COMMENT := "# OpenClaw local setup " + "(managed by scripts/" + "setup_openclaw_local.py)"

  // ---------------------------------------------------------------- text

  /** The characters at which `str.splitlines` ends a line; carriage return and line feed make one break. */
  predicate IsBreak(c: char) {
    var n := c as int;
    0x0A <= n <= 0x0D || 0x1C <= n <= 0x1E || n == 0x85 || n == 0x2028 || n == 0x2029
  }

  predicate OneLine(s: string) {
    forall c | c in s :: !IsBreak(c)
  }

  function LineLength(s: string): (n: nat)
    ensures n <= |s| && OneLine(s[..n]) && (n < |s| ==> IsBreak(s[n]))
  {
    if s == [] || IsBreak(s[0]) then 0 else 1 + LineLength(s[1..])
  }

  function SplitLines(s: string): (lines: seq<string>)
    ensures forall line | line in lines :: OneLine(line)
    decreases |s|
  {
    if s == [] then []
    else
      var n := LineLength(s);
      if n == |s| then [s]
      else
        var width := if s[n] == '\r' && n + 1 < |s| && s[n + 1] == '\n' then 2 else 1;
        [s[..n]] + SplitLines(s[n + width..])
  }

  function Join(lines: seq<string>): string {
    if lines == [] then ""
    else if |lines| == 1 then lines[0]
    else lines[0] + "\n" + Join(lines[1..])
  }

  // ---------------------------------------------------------------- one line

  predicate IsNameStart(c: char) {
    'A' <= c <= 'Z' || 'a' <= c <= 'z' || c == '_'
  }

  predicate IsNameChar(c: char) {
    IsNameStart(c) || '0' <= c <= '9'
  }

  function TailLength(s: string): (n: nat)
    ensures n <= |s|
  {
    if s == [] || !IsNameChar(s[0]) then 0 else 1 + TailLength(s[1..])
  }

  /** The length of the longest name at the start of the text, zero if there is none. */
  function NameLength(s: string): (n: nat)
    ensures n <= |s|
  {
    if s == [] || !IsNameStart(s[0]) then 0 else 1 + TailLength(s[1..])
  }

  predicate IsName(s: string) {
    s != [] && IsNameStart(s[0]) && forall c | c in s :: IsNameChar(c)
  }

  datatype Assignment = Assignment(key: string, value: string)

  /** The key and the rest of the line after the equals sign, if the line is an assignment. */
  function Match(line: string): Option<Assignment> {
    var s := LStrip(line);
    var n := NameLength(s);
    var t := LStrip(s[n..]);
    if n > 0 && t != [] && t[0] == '=' then Some(Assignment(s[..n], t[1..])) else None
  }

  function Unquote(value: string): string {
    if |value| >= 2 && value[0] == value[|value| - 1] && (value[0] == '"' || value[0] == '\'')
    then value[1..|value| - 1] else value
  }

  /** What a line assigns. */
  function Entry(line: string): Option<Assignment> {
    var m := Match(line);
    if m.None? then None else Some(Assignment(m.value.key, Unquote(Strip(m.value.value))))
  }

  // ---------------------------------------------------------------- the parser

  /** What a line adds to the values read so far. */
  function Effect(line: string): map<string, string> {
    var e := Entry(line);
    if e.None? then map[] else map[e.value.key := e.value.value]
  }

  /** The values a list of lines assigns; a later assignment of a key overrides an earlier one. */
  function Values(lines: seq<string>): map<string, string> {
    if lines == [] then map[] else Effect(lines[0]) + Values(lines[1..])
  }

  lemma NoValues()
    ensures Values([]) == map[]
  {
  }

  lemma ValuesStep(values: map<string, string>, lines: seq<string>, i: nat)
    requires i < |lines|
    ensures values + Values(lines[i..]) == values + Effect(lines[i]) + Values(lines[i + 1..])
  {
    hide Effect;
    assert lines[i..][0] == lines[i] && lines[i..][1..] == lines[i + 1..];
  }

  method ParseEnvValues(text: string) returns (values: map<string, string>)
    ensures values == Values(SplitLines(text))
  {
    hide SplitLines, Match, Strip, Unquote, Values;
    values := map[];
    var lines := SplitLines(text);
    for i := 0 to |lines|
      invariant values + Values(lines[i..]) == Values(lines)
    {
      ValuesStep(values, lines, i);
      var m := Match(lines[i]);
      if m.Some? {
        values := values + map[m.value.key := Unquote(Strip(m.value.value))];
      } else {
        assert values + Effect(lines[i]) == values;
      }
    }
    assert lines[|lines|..] == [];
    assert values + Values([]) == values by {
      NoValues();
    }
  }

  // ---------------------------------------------------------------- the updater

  type Updates = map<string, string>

  function Line(key: string, value: string): string {
    key + "=" + value
  }

  predicate Assigns(line: string, key: string) {
    Match(line).Some? && Match(line).value.key == key
  }

  /** The line assigns a key of the updates. */
  predicate Managed(line: string, updates: Updates) {
    Match(line).Some? && Match(line).value.key in updates
  }

  /** The old lines, each managed key rewritten where it comes first and dropped where it comes again. */
  function Rewritten(lines: seq<string>, updates: Updates, seen: set<string>): seq<string> {
    if lines == [] then []
    else if !Managed(lines[0], updates) then [lines[0]] + Rewritten(lines[1..], updates, seen)
    else
      var key := Match(lines[0]).value.key;
      if key in seen then Rewritten(lines[1..], updates, seen)
      else [Line(key, updates[key])] + Rewritten(lines[1..], updates, seen + {key})
  }

  function Missing(order: seq<string>, seen: set<string>): (keys: seq<string>)
    ensures forall k :: k in keys <==> k in order && k !in seen
  {
    if order == [] then []
    else (if order[0] in seen then [] else [order[0]]) + Missing(order[1..], seen)
  }

  function NewLines(keys: seq<string>, updates: Updates): seq<string>
    requires forall k | k in keys :: k in updates
  {
    if keys == [] then [] else [Line(keys[0], updates[keys[0]])] + NewLines(keys[1..], updates)
  }

  /** What precedes the keys that are added: a blank line after text, and the comment once. */
  function Heading(output: seq<string>): seq<string> {
    var blank := if output != [] && Strip(output[|output| - 1]) != [] then [""] else [];
    blank + if MANAGED_COMMENT in output + blank then [] else [MANAGED_COMMENT]
  }

  /** The keys of the updates that the lines assign. */
  function Seen(lines: seq<string>, updates: Updates): set<string> {
    Values(lines).Keys * updates.Keys
  }

  function Added(lines: seq<string>, order: seq<string>, updates: Updates): seq<string>
    requires forall k | k in order :: k in updates
  {
    var missing := Missing(order, Seen(lines, updates));
    if missing == [] then []
    else Heading(Rewritten(lines, updates, {})) + NewLines(missing, updates)
  }

  function UpdatedLines(lines: seq<string>, order: seq<string>, updates: Updates): seq<string>
    requires forall k | k in order :: k in updates
  {
    Rewritten(lines, updates, {}) + Added(lines, order, updates)
  }

  /** The updated text; `order` is the order in which the updates list their keys. */
  function Updated(text: string, order: seq<string>, updates: Updates): string
    requires forall k | k in order :: k in updates
  {
    RStrip(Join(UpdatedLines(SplitLines(text), order, updates))) + "\n"
  }

  lemma RewrittenStep(lines: seq<string>, i: nat, updates: Updates, seen: set<string>)
    requires i < |lines|
    ensures var now, rest := Rewritten(lines[i..], updates, seen), lines[i + 1..];
      if !Managed(lines[i], updates) then now == [lines[i]] + Rewritten(rest, updates, seen)
      else
        var key := Match(lines[i]).value.key;
        if key in seen then now == Rewritten(rest, updates, seen)
        else now == [Line(key, updates[key])] + Rewritten(rest, updates, seen + {key})
  {
    assert lines[i..][0] == lines[i] && lines[i..][1..] == lines[i + 1..];
  }

  lemma SeenStep(lines: seq<string>, i: nat, updates: Updates)
    requires i < |lines|
    ensures Seen(lines[i..], updates) == Seen(lines[i + 1..], updates) +
      if Managed(lines[i], updates) then {Match(lines[i]).value.key} else {}
  {
    assert lines[i..][0] == lines[i] && lines[i..][1..] == lines[i + 1..];
  }

  method RewriteLines(lines: seq<string>, updates: Updates) returns (output: seq<string>, seen: set<string>)
    ensures output == Rewritten(lines, updates, {}) && seen == Seen(lines, updates)
  {
    hide Match, Rewritten, Seen;
    output, seen := [], {};
    for i := 0 to |lines|
      invariant output + Rewritten(lines[i..], updates, seen) == Rewritten(lines, updates, {})
      invariant seen + Seen(lines[i..], updates) == Seen(lines, updates)
    {
      RewrittenStep(lines, i, updates, seen);
      SeenStep(lines, i, updates);
      var m := Match(lines[i]);
      if m.None? || m.value.key !in updates {
        output := output + [lines[i]];
        continue;
      }
      var key := m.value.key;
      if key in seen { continue; }
      output := output + [Line(key, updates[key])];
      seen := seen + {key};
    }
    assert lines[|lines|..] == [];
    assert Rewritten([], updates, seen) == [] && Seen([], updates) == {} by {
      NoLines(updates, seen);
    }
  }

  lemma NoLines(updates: Updates, seen: set<string>)
    ensures Rewritten([], updates, seen) == [] && Seen([], updates) == {}
  {
  }

  method AddHeading(lines: seq<string>) returns (output: seq<string>)
    ensures output == lines + Heading(lines)
  {
    hide Strip, MANAGED_COMMENT;
    output := lines;
    if output != [] && Strip(output[|output| - 1]) != [] {
      output := output + [""];
    }
    if MANAGED_COMMENT !in output {
      output := output + [MANAGED_COMMENT];
    }
  }

  method UpdateEnvText(text: string, order: seq<string>, updates: Updates) returns (r: string)
    requires Enumerates(order, updates.Keys)
    ensures r == Updated(text, order, updates)
  {
    hide SplitLines, Rewritten, Seen, RStrip, Join, Missing, Heading, NewLines;
    var lines := SplitLines(text);
    var output, seen := RewriteLines(lines, updates);
    var missing := Missing(order, seen);
    if missing != [] {
      output := AddHeading(output);
      output := output + NewLines(missing, updates);
    }
    assert output == UpdatedLines(lines, order, updates);
    r := RStrip(Join(output)) + "\n";
  }
}
