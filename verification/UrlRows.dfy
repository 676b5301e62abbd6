/** URLs character by character: how they split, which paths name a UID, and which bases are accepted. */
module UrlRows {
  import opened Common
  import opened Encodings
  import opened FeedRoutes
  import opened BaseUrls

  // ---------------------------------------------------------------- the parts of a URL

  ghost predicate IsSplit(url: string, p: Parts) {
    && url == p.scheme + ("://" + (p.authority + (p.path + p.tail)))
    && ':' !in p.scheme
    && '/' !in p.authority && '?' !in p.authority && '#' !in p.authority
    && '?' !in p.path && '#' !in p.path && (p.path != "" ==> p.path[0] == '/')
    && (p.tail != "" ==> p.tail[0] == '?' || p.tail[0] == '#')
  }

  lemma SplitRestTail(authority: string, path: string, tail: string)
    requires '/' !in authority && '?' !in authority && '#' !in authority
    requires '?' !in path && '#' !in path && (path != "" ==> path[0] == '/')
    requires tail != "" ==> tail[0] == '?' || tail[0] == '#'
    ensures var rest := authority + (path + tail);
      && Find(rest, {'/', '?', '#'}) == |authority| && Find(rest[|authority|..], {'?', '#'}) == |path|
      && rest[..|authority|] == authority && rest[|authority|..|authority| + |path|] == path
      && rest[|authority| + |path|..] == tail
  {
    hide Find;
    var rest := authority + (path + tail);
    FindAt(authority, path + tail, {'/', '?', '#'});
    FindAt(path, tail, {'?', '#'});
    assert rest[|authority|..] == path + tail;
  }

  /** The first of the characters at which a search stops. */
  lemma FindCuts(s: string, stops: set<char>)
    ensures var n := Find(s, stops);
      && s == s[..n] + s[n..] && (forall c | c in s[..n] :: c !in stops) && (s[n..] != "" ==> s[n..][0] in stops)
  {
    hide Find;
  }

  lemma FirstOf(s: string, c: char)
    ensures var n := Find(s, {c});
      c !in s[..n] && (n < |s| <==> c in s) && (n < |s| ==> s[n] == c)
  {
    hide Find;
  }

  lemma InThree(s: string, a: nat, q: nat)
    requires a <= q <= |s|
    ensures s == s[..a] + (s[a..q] + s[q..])
  {
  }

  lemma TailStarts(rest: string, a: nat)
    requires a <= |rest|
    ensures var q := a + Find(rest[a..], {'?', '#'});
      q <= |rest| && (rest[q..] != "" ==> rest[q..][0] == '?' || rest[q..][0] == '#')
  {
    var n := Find(rest[a..], {'?', '#'});
    hide Find;
    assert n < |rest[a..]| ==> rest[a..][n] == rest[a + n];
  }

  lemma RestParts(rest: string) returns (authority: string, path: string, tail: string)
    ensures rest == authority + (path + tail)
    ensures '/' !in authority && '?' !in authority && '#' !in authority
    ensures '?' !in path && '#' !in path && (path != "" ==> path[0] == '/')
    ensures tail != "" ==> tail[0] == '?' || tail[0] == '#'
  {
    hide Find;
    var a := Find(rest, {'/', '?', '#'});
    var q := a + Find(rest[a..], {'?', '#'});
    RestFits(rest);
    TailStarts(rest, a);
    InThree(rest, a, q);
    authority, path, tail := rest[..a], rest[a..q], rest[q..];
  }

  lemma SchemeIs(url: string) returns (scheme: string, rest: string)
    requires Split(url).Some?
    ensures url == scheme + ("://" + rest) && ':' !in scheme
  {
    hide Find, SplitRest;
    var n := Find(url, {':'});
    FirstOf(url, ':');
    scheme, rest := url[..n], url[n + 3..];
    InThree(url, n, n + 3);
  }

  lemma SplitIsSplit(url: string)
    requires Split(url).Some?
    ensures IsSplit(url, Split(url).value)
  {
    hide Find, Split, SplitRest;
    var scheme, rest := SchemeIs(url);
    var authority, path, tail := RestParts(rest);
    IsSplitSplits(url, Parts(scheme, authority, path, tail));
  }

  lemma RestIsSplit(p: Parts)
    requires '/' !in p.authority && '?' !in p.authority && '#' !in p.authority
    requires '?' !in p.path && '#' !in p.path && (p.path != "" ==> p.path[0] == '/')
    requires p.tail != "" ==> p.tail[0] == '?' || p.tail[0] == '#'
    ensures SplitRest(p.scheme, p.authority + (p.path + p.tail)) == p
  {
    hide Find;
    SplitRestTail(p.authority, p.path, p.tail);
  }

  lemma SchemeIsSplit(scheme: string, rest: string)
    requires ':' !in scheme
    ensures Split(scheme + ("://" + rest)) == Some(SplitRest(scheme, rest))
  {
    hide Find, SplitRest;
    SplitScheme(scheme, rest);
  }

  lemma IsSplitSplits(url: string, p: Parts)
    requires IsSplit(url, p)
    ensures Split(url) == Some(p)
  {
    hide Find, Split, SplitRest;
    RestIsSplit(p);
    SchemeIsSplit(p.scheme, p.authority + (p.path + p.tail));
  }

  /** A URL with an authority splits in one way. */
  lemma SplitIff(url: string, p: Parts)
    ensures Split(url) == Some(p) <==> IsSplit(url, p)
  {
    hide Split, IsSplit;
    if Split(url) == Some(p) {
      SplitIsSplit(url);
    }
    if IsSplit(url, p) {
      IsSplitSplits(url, p);
    }
  }

  // ---------------------------------------------------------------- paths that name a UID

  /** One to nineteen digits that do not begin with zero. */
  ghost predicate IsNumeral(uid: string) {
    1 <= |uid| <= 19 && uid[0] != '0' && forall c | c in uid :: '0' <= c <= '9'
  }

  ghost predicate NamesUid(path: string, uid: string) {
    && IsNumeral(uid)
    && var start := "/bilibili/user/video/" + uid;
       path == start || path == start + "/" || path == start + "/1" || path == start + "/1/"
  }

  /** A path is recognized as a UID exactly when it has one of four forms. */
  lemma RecognizedForms(path: string, uid: string)
    ensures Recognize(path) == Some(uid) <==> NamesUid(path, uid)
  {
    RecognizedIff(path, uid);
    var start := "/bilibili/user/video/" + uid;
    assert PREFIX + uid == start && start + "" == start;
    assert forall e :: e in ENDINGS <==> e == "" || e == "/" || e == "/1" || e == "/1/";
    hide Recognize;
    assert IsUid(uid) <==> IsNumeral(uid);
    if NamesUid(path, uid) {
      assert "" in ENDINGS && "/" in ENDINGS && "/1" in ENDINGS && "/1/" in ENDINGS;
    }
  }

  /** A text is normalized to a UID exactly when it is, but for white space around it, one to twenty digits of a
      number from 1 to the largest signed one of 64 bits, and the UID is that number without leading zeros. */
  lemma NormalUidIff(value: string, uid: string)
    ensures NormalizeUid(value) == Ok(uid) <==>
      var digits := Strip(value);
      && 1 <= |digits| <= 20 && (forall c | c in digits :: '0' <= c <= '9')
      && uid != "" && uid[0] != '0' && (forall c | c in uid :: '0' <= c <= '9')
      && AllDigits(digits) && AllDigits(uid)
      && ReadNat(uid) == ReadNat(digits) <= 9_223_372_036_854_775_807
  {
    hide PrintNat, ReadNat, Strip;
    var digits := Strip(value);
    if AllDigits(digits) {
      PrintThenRead(ReadNat(digits));
    }
    if uid != "" && uid[0] != '0' && AllDigits(uid) {
      ReadThenPrint(uid);
    }
  }

  // ---------------------------------------------------------------- path prefixes

  /** The piece stands in the path between slashes or ends. */
  ghost predicate StandsIn(path: string, a: string, piece: string, b: string) {
    path == a + (piece + b) && '/' !in piece && (a == "" || a[|a| - 1] == '/') && (b == "" || b[0] == '/')
  }

  ghost predicate HasPiece(path: string, piece: string) {
    exists a, b :: StandsIn(path, a, piece, b)
  }

  ghost predicate DoubleSlash(path: string) {
    exists a, b :: path == a + ("//" + b)
  }

  ghost predicate UnfitPath(path: string) {
    || '\\' in path || '%' in path || DoubleSlash(path) || HasPiece(path, ".") || HasPiece(path, "..")
    || exists c | c in path :: IsSpace(c) || c as int <= 31 || c as int == 127
  }

  lemma FirstPiece(path: string, piece: string, b: string)
    requires StandsIn(path, "", piece, b)
    ensures Segments(path)[0] == piece && Find(path, {'/'}) == |piece|
  {
    hide Find;
    assert path == piece + b;
    FindAt(piece, b, {'/'});
    assert path[..|piece|] == piece;
  }

  lemma StandsBehind(path: string, n: nat, a: string, piece: string, b: string)
    requires n < |path| && path[n] == '/' && StandsIn(path[n + 1..], a, piece, b)
    ensures StandsIn(path, path[..n + 1] + a, piece, b)
  {
    assert path == path[..n + 1] + path[n + 1..];
    assert path[..n + 1] + (a + (piece + b)) == (path[..n + 1] + a) + (piece + b);
  }

  lemma {:induction false} SegmentsStand(path: string, piece: string)
    requires piece in Segments(path)
    ensures HasPiece(path, piece)
    decreases |path|
  {
    var n := Find(path, {'/'});
    FindCuts(path, {'/'});
    hide StandsIn, Find;
    if piece == path[..n] {
      assert StandsIn(path, "", piece, path[n..]) by {
        StandsFirst(path, n);
      }
    } else {
      assert n < |path|;
      SegmentsStand(path[n + 1..], piece);
      var a, b :| StandsIn(path[n + 1..], a, piece, b);
      StandsBehind(path, n, a, piece, b);
    }
  }

  lemma StandsFirst(path: string, n: nat)
    requires n <= |path| && '/' !in path[..n] && (n < |path| ==> path[n] == '/')
    ensures StandsIn(path, "", path[..n], path[n..])
  {
    assert path == path[..n] + path[n..];
    assert "" + (path[..n] + path[n..]) == path[..n] + path[n..];
  }

  lemma {:induction false} StandsInSegments(path: string, a: string, piece: string, b: string)
    requires StandsIn(path, a, piece, b)
    ensures piece in Segments(path)
    decreases |path|
  {
    if a == "" {
      FirstPiece(path, piece, b);
    } else {
      var n := Find(path, {'/'});
      assert path[|a| - 1] == a[|a| - 1] == '/';
      assert n < |a|;
      assert path[n + 1..] == a[n + 1..] + (piece + b);
      StandsInSegments(path[n + 1..], a[n + 1..], piece, b);
    }
  }

  lemma PieceIff(path: string, piece: string)
    ensures piece in Segments(path) <==> HasPiece(path, piece)
  {
    hide Segments, StandsIn;
    if piece in Segments(path) {
      SegmentsStand(path, piece);
    }
    forall a, b | StandsIn(path, a, piece, b) ensures piece in Segments(path) {
      StandsInSegments(path, a, piece, b);
    }
  }

  lemma DoubleSlashIff(path: string)
    ensures (exists i | 0 <= i < |path| - 1 :: path[i] == '/' && path[i + 1] == '/') <==> DoubleSlash(path)
  {
    if i :| 0 <= i < |path| - 1 && path[i] == '/' && path[i + 1] == '/' {
      assert path == path[..i] + ("//" + path[i + 2..]);
    }
    if DoubleSlash(path) {
      var a, b :| path == a + ("//" + b);
      assert path[|a|] == '/' && path[|a| + 1] == '/';
    }
  }

  lemma BadPathIff(path: string)
    ensures BadPath(path) <==> UnfitPath(path)
  {
    PieceIff(path, ".");
    PieceIff(path, "..");
    DoubleSlashIff(path);
    hide Segments, HasPiece, DoubleSlash, IsSpace;
  }

  /** The text without the slashes at its end. */
  lemma {:induction false} TrimmedIs(path: string) returns (slashes: string)
    ensures path == TrimSlashes(path) + slashes && forall c | c in slashes :: c == '/'
  {
    if path != [] && path[|path| - 1] == '/' {
      slashes := TrimmedIs(path[..|path| - 1]);
      slashes := slashes + "/";
    } else {
      slashes := "";
    }
  }

  // ---------------------------------------------------------------- authorities

  /** The text behind the first colon. */
  ghost predicate PortAfter(rest: string, port: string) {
    (':' !in rest && port == "") || exists a :: ':' !in a && rest == a + (":" + port)
  }

  /** The host in the first brackets; what follows them is empty if they are not closed. */
  ghost predicate Bracketed(authority: string, a: string, host: string, rest: string, closed: bool) {
    && authority == a + ("[" + (host + if closed then "]" + rest else ""))
    && '[' !in a && ']' !in host && (!closed ==> rest == "")
  }

  /** The host up to the first colon and the text behind it; in brackets, if the authority has any, with the
      colon looked for behind them. */
  ghost predicate HostIs(authority: string, host: string, port: string) {
    if '[' in authority then
      exists a, rest, closed :: Bracketed(authority, a, host, rest, closed) && PortAfter(rest, port)
    else
      ':' !in host && ((authority == host && port == "") || authority == host + (":" + port))
  }

  lemma ColonIs(s: string)
    ensures var n := Find(s, {':'});
      && ':' !in s[..n]
      && (if ':' in s then s == s[..n] + (":" + AfterColon(s)) else s == s[..n] && AfterColon(s) == "")
  {
    FindCuts(s, {':'});
    hide Find;
    var n := Find(s, {':'});
    if n < |s| {
      assert s[n..] == ":" + s[n + 1..];
      assert s[n] in s;
    }
  }

  lemma ClosedIs(inner: string)
    ensures var close := Find(inner, {']'});
      var rest := if close < |inner| then inner[close + 1..] else "";
      inner == inner[..close] + (if close < |inner| then "]" + rest else "") && ']' !in inner[..close]
  {
    FirstOf(inner, ']');
    hide Find;
    var close := Find(inner, {']'});
    if close < |inner| {
      InThree(inner, close, close + 1);
      assert inner[close..close + 1] == "]";
    }
  }

  lemma OpenIs(authority: string)
    requires '[' in authority
    ensures var open := Find(authority, {'['});
      open < |authority| && authority == authority[..open] + ("[" + authority[open..][1..]) && '[' !in authority[..open]
  {
    FirstOf(authority, '[');
    hide Find;
    var open := Find(authority, {'['});
    InThree(authority, open, open + 1);
    assert authority[open..open + 1] == "[" && authority[open..][1..] == authority[open + 1..];
  }

  lemma InBracketsIs(authority: string)
    requires '[' in authority
    ensures var inner := authority[Find(authority, {'['})..][1..];
      var close := Find(inner, {']'});
      InBrackets(authority) == (inner[..close], if close < |inner| then inner[close + 1..] else "")
  {
    hide Find;
  }

  lemma BracketIs(authority: string)
    requires '[' in authority
    ensures exists a, closed :: Bracketed(authority, a, InBrackets(authority).0, InBrackets(authority).1, closed)
  {
    hide Find, InBrackets;
    var open := Find(authority, {'['});
    OpenIs(authority);
    var inner := authority[open..][1..];
    ClosedIs(inner);
    InBracketsIs(authority);
    var a, closed := authority[..open], Find(inner, {']'}) < |inner|;
    assert authority == a + ("[" + inner);
    assert Bracketed(authority, a, InBrackets(authority).0, InBrackets(authority).1, closed);
  }

  lemma HostRows(authority: string)
    ensures var (host, port) := HostAndPort(authority);
      HostIs(authority, host, port)
  {
    hide Find, InBrackets, AfterColon, Bracketed;
    if '[' in authority {
      BracketIs(authority);
      ColonIs(InBrackets(authority).1);
    } else {
      ColonIs(authority);
    }
  }

  // ---------------------------------------------------------------- accepted bases

  /** The second text is the first with its ASCII capitals in lower case. */
  ghost predicate LowerCase(text: string, low: string) {
    |low| == |text| &&
    forall i | 0 <= i < |text| ::
      if 'A' <= text[i] <= 'Z' then low[i] as int == text[i] as int + 32 else low[i] == text[i]
  }

  ghost predicate PortIs(text: string, port: Option<nat>) {
    || (text == "" && port == None)
    || (text != "" && AllDigits(text) && ReadNat(text) <= 65535 && port == Some(ReadNat(text)))
  }

  ghost predicate PortFits(text: string) {
    AllDigits(text) && ReadNat(text) <= 65535
  }

  ghost predicate BracketsFit(authority: string, accepts: string -> bool) {
    if '[' in authority then ']' in authority && accepts(authority) else ']' !in authority
  }

  ghost predicate IsTrimmed(path: string, trimmed: string) {
    (trimmed != "" ==> trimmed[|trimmed| - 1] != '/')
    && exists slashes :: path == trimmed + slashes && forall c | c in slashes :: c == '/'
  }

  ghost predicate PlainText(raw: string) {
    raw != "" && |raw| <= 2048 && forall c | c in raw :: c != '\\' && c as int > 31 && c as int != 127
  }

  ghost predicate IsHttp(scheme: string) {
    LowerCase(scheme, "http") || LowerCase(scheme, "https")
  }

  ghost predicate PlainTail(tail: string) {
    tail == "" || tail == "?" || tail == "#" || tail == "?#"
  }

  /** The parts of an accepted text, and what becomes of them. */
  ghost predicate Accepted(p: Parts, accepts: string -> bool, b: Base) {
    var (host, port) := HostAndPort(p.authority);
    && IsHttp(p.scheme) && LowerCase(p.scheme, b.scheme) && PlainTail(p.tail)
    && BracketsFit(p.authority, accepts) && '@' !in p.authority
    && host != "" && LowerCase(host, b.host) && PortIs(port, b.port)
    && IsTrimmed(p.path, b.path) && !UnfitPath(b.path)
  }

  lemma LowerIs(text: string, low: string)
    ensures Lower(text) == low <==> LowerCase(text, low)
  {
    if Lower(text) == low {
      assert forall i | 0 <= i < |text| :: low[i] == LowerChar(text[i]);
    }
  }

  lemma HttpIs(scheme: string)
    ensures Lower(scheme) in {"http", "https"} <==> IsHttp(scheme)
  {
    LowerIs(scheme, "http");
    LowerIs(scheme, "https");
    hide Lower, LowerCase;
  }

  lemma {:induction false} TrimIsUnique(trimmed: string, slashes: string)
    requires (trimmed != "" ==> trimmed[|trimmed| - 1] != '/') && forall c | c in slashes :: c == '/'
    ensures TrimSlashes(trimmed + slashes) == trimmed
  {
    var n := |slashes| - 1;
    if slashes == "" {
      assert trimmed + slashes == trimmed;
    } else {
      assert slashes[n] in slashes;
      assert (trimmed + slashes)[..|trimmed| + n] == trimmed + slashes[..n];
      assert forall c | c in slashes[..n] :: c in slashes;
      TrimIsUnique(trimmed, slashes[..n]);
    }
  }

  lemma TrimIff(path: string, trimmed: string)
    ensures TrimSlashes(path) == trimmed <==> IsTrimmed(path, trimmed)
  {
    if TrimSlashes(path) == trimmed {
      var slashes := TrimmedIs(path);
    }
    hide TrimSlashes;
    if IsTrimmed(path, trimmed) {
      var slashes :| path == trimmed + slashes && forall c | c in slashes :: c == '/';
      TrimIsUnique(trimmed, slashes);
    }
  }

  lemma PortRows(text: string)
    ensures ReadPort(text).Ok? <==> PortFits(text)
    ensures forall port :: ReadPort(text) == Ok(port) <==> PortIs(text, port)
    ensures ReadPort(text).Err? ==> ReadPort(text).error == Invalid
  {
  }

  lemma AuthorityIff(scheme: string, p: Parts, accepts: string -> bool, b: Base)
    ensures var (host, port) := HostAndPort(p.authority);
      ReadAuthority(scheme, p.authority, p.path, accepts) == Ok(b) <==>
        && BracketsFit(p.authority, accepts) && '@' !in p.authority && host != "" && PortIs(port, b.port)
        && b.scheme == scheme && LowerCase(host, b.host) && IsTrimmed(p.path, b.path) && !UnfitPath(b.path)
  {
    var (host, port) := HostAndPort(p.authority);
    PortRows(port);
    LowerIs(host, b.host);
    TrimIff(p.path, b.path);
    BadPathIff(TrimSlashes(p.path));
    hide HostAndPort, ReadPort, Lower, TrimSlashes, BadPath, UnfitPath, PortIs, PortFits, LowerCase, IsTrimmed;
  }

  lemma PlainIs(raw: string)
    ensures PlainText(raw) <==> raw != [] && !(|raw| > 2048 || '\\' in raw || exists c | c in raw :: IsControl(c))
  {
  }

  lemma PartsIff(p: Parts, accepts: string -> bool, b: Base)
    ensures ReadParts(p, accepts) == Ok(b) <==> Accepted(p, accepts, b)
  {
    AuthorityIff(Lower(p.scheme), p, accepts, b);
    LowerIs(p.scheme, b.scheme);
    HttpIs(p.scheme);
    hide ReadAuthority, Lower, HostAndPort, IsHttp, LowerCase, BracketsFit, PortIs, IsTrimmed, UnfitPath;
  }

  /** A stripped text is read as a base if and only if it is plain and splits into accepted parts. */
  lemma ReadBaseIff(raw: string, accepts: string -> bool, b: Base)
    ensures ReadBase(raw, accepts) == Ok(b) <==>
      PlainText(raw) && Split(raw).Some? && Accepted(Split(raw).value, accepts, b)
  {
    PlainIs(raw);
    if Split(raw).Some? {
      PartsIff(Split(raw).value, accepts, b);
    }
    hide Split, ReadParts, Accepted, PlainText, IsControl;
  }

  lemma AuthorityErrors(scheme: string, p: Parts, accepts: string -> bool)
    ensures var (host, port) := HostAndPort(p.authority);
      var r := ReadAuthority(scheme, p.authority, p.path, accepts);
      && (r == Err(Invalid) <==> !BracketsFit(p.authority, accepts) || !PortFits(port))
      && (r == Err(NotPlainHttp) <==>
            BracketsFit(p.authority, accepts) && PortFits(port) && (host == "" || '@' in p.authority))
      && r != Err(Required)
  {
    PortRows(HostAndPort(p.authority).1);
    hide HostAndPort, ReadPort, Lower, TrimSlashes, BadPath, PortFits;
  }

  /** The library cannot read the brackets or the port. */
  ghost predicate Unreadable(p: Parts, accepts: string -> bool) {
    !BracketsFit(p.authority, accepts) || !PortFits(HostAndPort(p.authority).1)
  }

  ghost predicate Foreign(p: Parts) {
    !IsHttp(p.scheme) || !PlainTail(p.tail) || HostAndPort(p.authority).0 == "" || '@' in p.authority
  }

  /** Which error a refused text gives; the one about the path is left for the rest. */
  lemma ErrorsIff(raw: string, accepts: string -> bool)
    ensures ReadBase(raw, accepts) == Err(Required) <==> raw == ""
    ensures ReadBase(raw, accepts) == Err(Invalid) <==>
      raw != "" && (!PlainText(raw) || (Split(raw).Some? && Unreadable(Split(raw).value, accepts)))
    ensures ReadBase(raw, accepts) == Err(NotPlainHttp) <==>
      PlainText(raw) && (Split(raw).None? || (!Unreadable(Split(raw).value, accepts) && Foreign(Split(raw).value)))
  {
    PlainIs(raw);
    if Split(raw).Some? {
      PartsErrors(Split(raw).value, accepts);
    }
    hide Split, ReadParts, PlainText, IsControl, Unreadable, Foreign;
  }

  lemma PartsErrors(p: Parts, accepts: string -> bool)
    ensures ReadParts(p, accepts) != Err(Required)
    ensures ReadParts(p, accepts) == Err(Invalid) <==> Unreadable(p, accepts)
    ensures ReadParts(p, accepts) == Err(NotPlainHttp) <==> !Unreadable(p, accepts) && Foreign(p)
  {
    AuthorityErrors(Lower(p.scheme), p, accepts);
    HttpIs(p.scheme);
    hide ReadAuthority, Lower, HostAndPort, IsHttp, BracketsFit, PortFits;
  }

  /** A URL is a candidate for a UID if and only if it is plain HTTP with a host and its path names the UID. */
  lemma CandidateIff(url: string, accepts: string -> bool, uid: string)
    ensures CandidateUid(url, accepts) == Some(uid) <==>
      Split(Strip(url)).Some? &&
      var p := Split(Strip(url)).value;
      && BracketsFit(p.authority, accepts) && IsHttp(p.scheme) && HostAndPort(p.authority).0 != "" && '@' !in p.authority
      && PlainTail(p.tail) && NamesUid(p.path, uid)
  {
    if Split(Strip(url)).Some? {
      var p := Split(Strip(url)).value;
      HttpIs(p.scheme);
      RecognizedForms(p.path, uid);
    }
    hide Split, Strip, Lower, HostAndPort, IsHttp, Recognize, NamesUid, Find;
  }
}
