/** Normalizing the base URL of an RSSHub service, and when doing it twice is doing it once. */
module BaseUrls {
  import opened Common
  import opened Encodings
  import opened FeedRoutes

  datatype Error = Required | Invalid | NotPlainHttp | BadPrefix

  // ---------------------------------------------------------------- texts

  predicate IsControl(c: char) {
    c as int <= 0x1F || c as int == 0x7F
  }

  function TrimSlashes(s: string): (r: string)
    ensures r <= s && (r != [] ==> r[|r| - 1] != '/')
  {
    if s != [] && s[|s| - 1] == '/' then TrimSlashes(s[..|s| - 1]) else s
  }

  /** The pieces of a path between its slashes. */
  function Segments(s: string): seq<string>
    decreases |s|
  {
    var n := Find(s, {'/'});
    if n == |s| then [s] else [s[..n]] + Segments(s[n + 1..])
  }

  predicate BadPath(path: string) {
    || '\\' in path || '%' in path
    || (exists i | 0 <= i < |path| - 1 :: path[i] == '/' && path[i + 1] == '/')
    || (exists s | s in Segments(path) :: s == "." || s == "..")
    || (exists c | c in path :: IsSpace(c) || IsControl(c))
  }

  // ---------------------------------------------------------------- host and port

  function AfterColon(s: string): string {
    var colon := Find(s, {':'});
    if colon < |s| then s[colon + 1..] else ""
  }

  /** The text in the first brackets, and what follows them. */
  function InBrackets(authority: string): (string, string)
    requires '[' in authority
  {
    var inner := authority[Find(authority, {'['})..][1..];
    var close := Find(inner, {']'});
    (inner[..close], if close < |inner| then inner[close + 1..] else "")
  }

  /** The host of an authority and the text after its colon: inside brackets if there are any, otherwise
      up to the first colon. */
  function HostAndPort(authority: string): (string, string) {
    if '[' in authority then (InBrackets(authority).0, AfterColon(InBrackets(authority).1))
    else (authority[..Find(authority, {':'})], AfterColon(authority))
  }

  function ReadPort(text: string): Result<Option<nat>, Error> {
    if text == [] then Ok(None)
    else if !AllDigits(text) || ReadNat(text) > 65535 then Err(Invalid)
    else Ok(Some(ReadNat(text)))
  }

  /** Brackets come in pairs, and an authority with brackets passes the library's own check of it. */
  predicate BracketsPass(authority: string, accepts: string -> bool) {
    && ('[' in authority <==> ']' in authority)
    && ('[' in authority ==> accepts(authority))
  }

  // ---------------------------------------------------------------- the normalization

  datatype Base = Base(scheme: string, host: string, port: Option<nat>, path: string)

  function PortText(port: Option<nat>): string {
    if port.None? then "" else ":" + PrintNat(port.value)
  }

  function HostText(host: string): string {
    if ':' in host && host[0] != '[' then "[" + host + "]" else host
  }

  function Print(b: Base): string {
    b.scheme + ("://" + ((HostText(b.host) + PortText(b.port)) + b.path))
  }

  /** What stands after the path holds neither a query nor a fragment. */
  predicate NoQuery(tail: string) {
    tail == "" || tail == "?" || tail == "#" || tail == "?#"
  }

  function ReadAuthority(scheme: string, authority: string, path: string, accepts: string -> bool): Result<Base, Error> {
    if !BracketsPass(authority, accepts) then Err(Invalid)
    else
      var (host, portText) := HostAndPort(authority);
      var port := ReadPort(portText);
      if port.Err? then Err(port.error)
      else if host == [] || '@' in authority then Err(NotPlainHttp)
      else if BadPath(TrimSlashes(path)) then Err(BadPrefix)
      else Ok(Base(scheme, Lower(host), port.value, TrimSlashes(path)))
  }

  /** The library's own errors about brackets and ports come first. */
  function ReadParts(p: Parts, accepts: string -> bool): Result<Base, Error> {
    var b := ReadAuthority(Lower(p.scheme), p.authority, p.path, accepts);
    if b == Err(Invalid) then b
    else if Lower(p.scheme) !in {"http", "https"} || !NoQuery(p.tail) then Err(NotPlainHttp)
    else b
  }

  /** A stripped text, split and checked. */
  function ReadBase(raw: string, accepts: string -> bool): Result<Base, Error> {
    if raw == [] then Err(Required)
    else if |raw| > 2048 || '\\' in raw || exists c | c in raw :: IsControl(c) then Err(Invalid)
    else
      var parts := Split(raw);
      if parts.None? then Err(NotPlainHttp) else ReadParts(parts.value, accepts)
  }

  function NormalizeBase(value: string, accepts: string -> bool): Result<string, Error> {
    var b := ReadBase(Strip(value), accepts);
    if b.Err? then Err(b.error) else Ok(Print(b.value))
  }

  // ---------------------------------------------------------------- lower case

  lemma LowerTwice(h: string)
    ensures Lower(Lower(h)) == Lower(h)
  {
  }

  /** Lowering neither adds nor removes a character that is no letter. */
  lemma LowerKeeps(h: string, c: char)
    requires !('A' <= c <= 'Z') && !('a' <= c <= 'z')
    ensures c in Lower(h) <==> c in h
  {
    forall i | 0 <= i < |h| ensures Lower(h)[i] == c <==> h[i] == c {
    }
  }

  // ---------------------------------------------------------------- what a normalized base looks like

  ghost predicate Reaccepts(accepts: string -> bool, host: string) {
    forall port: Option<nat> :: accepts("[" + host + "]" + PortText(port))
  }

  /** What holds of the library's check: the host of an accepted authority is not empty, does not begin with
      a bracket, and is accepted again between brackets in lower case, whatever the port. */
  ghost predicate LibraryCheck(accepts: string -> bool) {
    forall a | '[' in a && '@' !in a && accepts(a) ::
      var host := HostAndPort(a).0;
      host != [] && host[0] != '[' && Reaccepts(accepts, Lower(host))
  }

  predicate PlainChar(c: char) {
    !IsControl(c) && c != '\\' && c as int < 128
  }

  predicate HostChar(c: char) {
    PlainChar(c) && c !in {'/', '?', '#', '@', ']'}
  }

  predicate FairHost(h: string) {
    h != [] && h[0] != '[' && forall c | c in h :: HostChar(c)
  }

  /** A host that is printed so that it can be read again. */
  ghost predicate GoodHost(h: string, accepts: string -> bool) {
    && FairHost(h) && Lower(h) == h
    && ('[' in h ==> ':' in h)
    && (':' in h ==> Reaccepts(accepts, h))
  }

  ghost predicate GoodPath(path: string) {
    && (path != [] ==> path[0] == '/') && TrimSlashes(path) == path && !BadPath(path)
    && forall c | c in path :: PlainChar(c) && c !in {'?', '#'}
  }

  ghost predicate FairBase(b: Base) {
    && b.scheme in {"http", "https"}
    && FairHost(b.host) && (b.port.Some? ==> b.port.value <= 65535) && GoodPath(b.path)
  }

  ghost predicate GoodBase(b: Base, accepts: string -> bool) {
    FairBase(b) && GoodHost(b.host, accepts)
  }

  // ---------------------------------------------------------------- what is read is good, and no longer than the text

  lemma {:induction false} ReadNatBound(s: string)
    requires AllDigits(s)
    ensures ReadNat(s) < Pow10(|s|)
  {
    if s != [] {
      assert s == s[..|s| - 1] + [s[|s| - 1]];
      DigitsSplit(s[..|s| - 1], s[|s| - 1]);
      PrintedDigit(s[|s| - 1]);
      ReadNatBound(s[..|s| - 1]);
    }
  }

  lemma PortIsNoLonger(text: string)
    requires ReadPort(text).Ok?
    ensures |PortText(ReadPort(text).value)| <= if text == [] then 0 else 1 + |text|
  {
    if text != [] {
      ReadNatBound(text);
      PrintedLength(ReadNat(text), |text|);
    }
  }

  /** The length of a colon and the text after it. */
  function ColonLength(port: string): nat {
    if port == [] then 0 else 1 + |port|
  }

  lemma AfterColonFits(s: string)
    ensures Find(s, {':'}) + ColonLength(AfterColon(s)) <= |s|
  {
  }

  lemma InBracketsFits(authority: string)
    requires '[' in authority && ']' in authority
    ensures var (host, after) := InBrackets(authority);
      |host| + 2 + |after| <= |authority| && ']' !in host && forall c | c in host :: c in authority
  {
    var open := Find(authority, {'['});
    var inner := authority[open..][1..];
    var close := Find(inner, {']'});
    if close == |inner| {
      assert ']' in authority[..open] by {
        assert authority == authority[..open] + [authority[open]] + inner;
      }
    }
  }

  /** Host and port fit into the authority, with their brackets and colon. */
  lemma HostAndPortFit(authority: string)
    requires '[' in authority <==> ']' in authority
    ensures var (host, port) := HostAndPort(authority);
      && (forall c | c in host :: c in authority)
      && |host| + (if '[' in authority then 2 else 0) + ColonLength(port) <= |authority|
      && (if '[' in authority then ']' !in host else ':' !in host && '[' !in host && ']' !in host)
  {
    hide Find, AfterColon, InBrackets;
    if '[' in authority {
      InBracketsFits(authority);
      AfterColonFits(InBrackets(authority).1);
    } else {
      AfterColonFits(authority);
    }
  }

  /** Where authority and path stand in what follows the scheme. */
  lemma RestFits(rest: string)
    ensures var a := Find(rest, {'/', '?', '#'});
      var p := a + Find(rest[a..], {'?', '#'});
      && (forall c | c in rest[..a] :: c in rest && c !in {'/', '?', '#'})
      && (forall c | c in rest[a..p] :: c in rest && c !in {'?', '#'})
      && (rest[a..p] != [] ==> rest[a..p][0] == '/')
  {
    hide Find;
    var a := Find(rest, {'/', '?', '#'});
    var p := a + Find(rest[a..], {'?', '#'});
    assert forall i | 0 <= i < p - a :: rest[a..p][i] == rest[a..][i] == rest[a + i];
  }

  /** Where the parts of a URL stand. */
  lemma SplitFits(url: string)
    requires Split(url).Some?
    ensures var p := Split(url).value;
      && |p.scheme| + 3 + |p.authority| + |p.path| <= |url|
      && (forall c | c in p.authority :: c in url && c !in {'/', '?', '#'})
      && (forall c | c in p.path :: c in url && c !in {'?', '#'})
      && (p.path != [] ==> p.path[0] == '/')
  {
    hide Find;
    var rest := url[Find(url, {':'}) + 3..];
    RestFits(rest);
    assert forall c | c in rest :: c in url;
  }

  lemma LowerHostChars(h: string)
    requires forall c | c in h :: HostChar(c)
    ensures forall c | c in Lower(h) :: HostChar(c)
  {
    forall i | 0 <= i < |h| ensures HostChar(Lower(h)[i]) {
      assert h[i] in h && HostChar(h[i]) && HostChar(LowerChar(h[i]));
    }
  }

  lemma ReadHostFits(authority: string)
    requires ('[' in authority <==> ']' in authority) && HostAndPort(authority).0 != []
    ensures var (host, port) := HostAndPort(authority);
      |HostText(Lower(host))| + ColonLength(port) <= |authority|
  {
    hide HostAndPort, Lower;
    HostAndPortFit(authority);
    LowerKeeps(HostAndPort(authority).0, ':');
  }

  lemma ReadHostIsFair(authority: string, accepts: string -> bool)
    requires LibraryCheck(accepts) && BracketsPass(authority, accepts) && HostAndPort(authority).0 != []
    requires forall c | c in authority :: PlainChar(c) && c !in {'/', '?', '#', '@'}
    ensures var host := Lower(HostAndPort(authority).0);
      && FairHost(host) && Lower(host) == host && (':' in host ==> Reaccepts(accepts, host))
  {
    hide HostAndPort, Lower, PlainChar, Reaccepts;
    var host := HostAndPort(authority).0;
    HostAndPortFit(authority);
    LowerTwice(host);
    LowerKeeps(host, ':');
    assert forall c | c in host :: HostChar(c);
    LowerHostChars(host);
    assert host[0] in host;
    LowerFirst(host);
  }

  lemma LowerFirst(h: string)
    requires h != []
    ensures Lower(h)[0] == '[' <==> h[0] == '['
  {
  }

  lemma TrimmedSlashes(path: string)
    ensures TrimSlashes(TrimSlashes(path)) == TrimSlashes(path)
  {
  }

  lemma ReadPathIsGood(path: string)
    requires !BadPath(TrimSlashes(path)) && (path != [] ==> path[0] == '/')
    requires forall c | c in path :: PlainChar(c) && c !in {'?', '#'}
    ensures GoodPath(TrimSlashes(path)) && |TrimSlashes(path)| <= |path|
  {
    hide BadPath, PlainChar;
    TrimmedSlashes(path);
    var r := TrimSlashes(path);
    assert r == path[..|r|];
    assert forall c | c in r :: c in path;
  }

  lemma ReadAuthorityFits(scheme: string, authority: string, path: string, accepts: string -> bool)
    requires ReadAuthority(scheme, authority, path, accepts).Ok?
    ensures |Print(ReadAuthority(scheme, authority, path, accepts).value)| <= |scheme| + 3 + |authority| + |path|
  {
    hide HostAndPort, Lower, BadPath, TrimSlashes, HostText, PortText;
    ReadHostFits(authority);
    PortIsNoLonger(HostAndPort(authority).1);
  }

  lemma ReadAuthorityIsFair(scheme: string, authority: string, path: string, accepts: string -> bool)
    requires LibraryCheck(accepts) && ReadAuthority(scheme, authority, path, accepts).Ok? && scheme in {"http", "https"}
    requires forall c | c in authority :: PlainChar(c) && c !in {'/', '?', '#'}
    requires forall c | c in path :: PlainChar(c) && c !in {'?', '#'}
    requires path != [] ==> path[0] == '/'
    ensures var b := ReadAuthority(scheme, authority, path, accepts).value;
      FairBase(b) && Lower(b.host) == b.host && (':' in b.host ==> Reaccepts(accepts, b.host))
  {
    hide HostAndPort, Lower, PlainChar, FairHost, GoodPath, BadPath, TrimSlashes, BracketsPass, LibraryCheck, Reaccepts;
    ReadHostIsFair(authority, accepts);
    ReadPathIsGood(path);
    ReadPortRange(HostAndPort(authority).1);
  }

  lemma ReadPortRange(text: string)
    requires ReadPort(text).Ok?
    ensures ReadPort(text).value.Some? ==> ReadPort(text).value.value <= 65535
  {
  }

  /** What is read prints no longer than the text. */
  lemma ReadFits(raw: string, accepts: string -> bool)
    requires ReadBase(raw, accepts).Ok?
    ensures |Print(ReadBase(raw, accepts).value)| <= |raw|
  {
    hide Split, ReadAuthority, Print, IsControl;
    SplitFits(raw);
    var p := Split(raw).value;
    ReadAuthorityFits(Lower(p.scheme), p.authority, p.path, accepts);
  }

  lemma ReadIsFair(raw: string, accepts: string -> bool)
    requires LibraryCheck(accepts) && ReadBase(raw, accepts).Ok? && forall c | c in raw :: c as int < 128
    ensures var b := ReadBase(raw, accepts).value;
      FairBase(b) && Lower(b.host) == b.host && (':' in b.host ==> Reaccepts(accepts, b.host))
  {
    hide Split, ReadAuthority, FairBase, LibraryCheck, Reaccepts, IsControl;
    SplitFits(raw);
    var p := Split(raw).value;
    ReadAuthorityIsFair(Lower(p.scheme), p.authority, p.path, accepts);
  }

  /** The host is to be printed without its brackets and holds one. */
  predicate StrayBracket(b: Base) {
    ':' !in b.host && '[' in b.host
  }

  /** What is read from an ASCII text is a good base, but for a stray bracket in its host. */
  lemma ReadIsGood(raw: string, accepts: string -> bool)
    requires LibraryCheck(accepts) && ReadBase(raw, accepts).Ok? && forall c | c in raw :: c as int < 128
    ensures GoodBase(ReadBase(raw, accepts).value, accepts) <==> !StrayBracket(ReadBase(raw, accepts).value)
  {
    hide ReadBase, FairBase, LibraryCheck, Reaccepts, Lower;
    ReadIsFair(raw, accepts);
    FairBaseHost(ReadBase(raw, accepts).value);
  }

  lemma FairBaseHost(b: Base)
    requires FairBase(b)
    ensures FairHost(b.host)
  {
  }

  // ---------------------------------------------------------------- a good base is read back

  lemma PortIsReadBack(port: Option<nat>)
    requires port.Some? ==> port.value <= 65535
    ensures var text := PortText(port);
      && (text != [] ==> text[0] == ':') && ReadPort(AfterColon(text)) == Ok(port)
      && forall c | c in text :: c == ':' || IsDigit(c)
  {
    hide PrintNat, ReadNat;
    if port.Some? {
      PrintThenRead(port.value);
      FindAt("", PortText(port), {':'});
      assert "" + PortText(port) == PortText(port);
      assert PortText(port)[1..] == PrintNat(port.value);
    }
  }

  lemma InBracketsOf(host: string, rest: string)
    requires ']' !in host
    ensures InBrackets("[" + host + "]" + rest) == (host, rest)
  {
    hide Find;
    var text := "[" + host + "]" + rest;
    FindAt("", text, {'['});
    assert "" + text == text;
    assert text[0..][1..] == host + ("]" + rest);
    FindAt(host, "]" + rest, {']'});
    assert (host + ("]" + rest))[|host| + 1..] == rest;
  }

  lemma AfterColonOf(host: string, port: string)
    requires ':' !in host && (port != [] ==> port[0] == ':')
    ensures Find(host + port, {':'}) == |host| && AfterColon(host + port) == AfterColon(port)
  {
    hide Find;
    FindAt(host, port, {':'});
    FindAt("", port, {':'});
    assert "" + port == port;
    ColonBehind(host, port);
  }

  lemma ColonBehind(host: string, port: string)
    ensures port != [] ==> (host + port)[|host| + 1..] == port[1..]
  {
  }

  lemma AuthorityIsReadBack(host: string, port: string)
    requires host != [] && host[0] != '[' && ']' !in host && ('[' in host ==> ':' in host)
    requires '[' !in port && (port != [] ==> port[0] == ':')
    ensures HostAndPort(HostText(host) + port) == (host, AfterColon(port))
  {
    hide Find, AfterColon, InBrackets;
    if ':' in host {
      assert host[0] in host;
      InBracketsOf(host, port);
    } else {
      AfterColonOf(host, port);
    }
  }

  lemma GoodAuthority(host: string, port: Option<nat>, accepts: string -> bool)
    requires GoodHost(host, accepts) && (port.Some? ==> port.value <= 65535)
    ensures var authority := HostText(host) + PortText(port);
      && BracketsPass(authority, accepts)
      && HostAndPort(authority) == (host, AfterColon(PortText(port)))
      && ReadPort(AfterColon(PortText(port))) == Ok(port)
      && forall c | c in authority :: PlainChar(c) && c !in {'/', '?', '#', '@'}
  {
    hide HostAndPort, AfterColon, ReadPort, PortText, Lower;
    PortIsReadBack(port);
    AuthorityIsReadBack(host, PortText(port));
    forall c | c in PortText(port) ensures PlainChar(c) && c !in {'/', '?', '#', '@', '[', ']'} {
    }
    assert host[0] in host;
  }

  lemma GoodAuthorityIsRead(b: Base, accepts: string -> bool)
    requires GoodBase(b, accepts)
    ensures ReadAuthority(b.scheme, HostText(b.host) + PortText(b.port), b.path, accepts) == Ok(b)
  {
    hide HostAndPort, AfterColon, ReadPort, PortText, HostText, BracketsPass, Lower, BadPath, TrimSlashes, PlainChar;
    GoodAuthority(b.host, b.port, accepts);
  }

  lemma SchemesAreLower()
    ensures Lower("http") == "http" && Lower("https") == "https"
    ensures forall c | c in "http" || c in "https" :: PlainChar(c) && c != ':' && c != ' '
  {
  }

  lemma PrintedCharsArePlain(b: Base, accepts: string -> bool)
    requires GoodBase(b, accepts)
    ensures forall c | c in Print(b) :: PlainChar(c)
  {
    hide Lower, BadPath, TrimSlashes, PlainChar, HostText, PortText;
    GoodAuthority(b.host, b.port, accepts);
    SchemesAreLower();
    assert forall c | c in "://" :: PlainChar(c) by { SeparatorIsPlain(); }
  }

  lemma SeparatorIsPlain()
    ensures forall c | c in "://" :: PlainChar(c)
  {
  }

  /** A good base of at most 2048 characters is read back from its text. */
  lemma GoodIsRead(b: Base, accepts: string -> bool)
    requires GoodBase(b, accepts) && |Print(b)| <= 2048
    ensures ReadBase(Print(b), accepts) == Ok(b)
  {
    hide Split, ReadAuthority, Lower, BadPath, TrimSlashes, HostText, PortText;
    SchemesAreLower();
    GoodAuthority(b.host, b.port, accepts);
    SplitUrl(b.scheme, HostText(b.host) + PortText(b.port), b.path);
    PrintedCharsArePlain(b, accepts);
    GoodAuthorityIsRead(b, accepts);
  }

  // ---------------------------------------------------------------- recognizing a feed URL

  /** `_candidate_uid` of a URL text: scheme, host, credentials, query and fragment are checked, then the
      path is matched. The port is not looked at. */
  function CandidateUid(url: string, accepts: string -> bool): Option<string> {
    var parts := Split(Strip(url));
    if parts.None? || !BracketsPass(parts.value.authority, accepts) then None
    else if Lower(parts.value.scheme) !in {"http", "https"} || HostAndPort(parts.value.authority).0 == []
      || '@' in parts.value.authority || !NoQuery(parts.value.tail) then None
    else Recognize(parts.value.path)
  }

  lemma FeedPathIsPlain(uid: string)
    requires AllDigits(uid)
    ensures forall c | c in FeedPath(uid) :: c !in {'?', '#'}
    ensures FeedPath(uid)[0] == '/' && FeedPath(uid)[|FeedPath(uid)| - 1] == '1'
  {
    PathHasNoStops(uid);
  }

  lemma PrintThenAppend(b: Base, tail: string)
    ensures Print(b) + tail == b.scheme + ("://" + ((HostText(b.host) + PortText(b.port)) + (b.path + tail)))
  {
    hide HostText, PortText;
  }

  lemma FeedIsSolid(b: Base, accepts: string -> bool, uid: string)
    requires GoodBase(b, accepts) && AllDigits(uid)
    ensures Strip(Print(b) + FeedPath(uid)) == Print(b) + FeedPath(uid)
  {
    hide Print, Strip, Lower, TrimSlashes, BadPath;
    var url := Print(b) + FeedPath(uid);
    assert Print(b) != [] && Print(b)[0] == 'h' by { LastCharacter(b); }
    assert url[0] == 'h' && url[|url| - 1] == '1';
    StripSolid(url);
  }

  /** A feed URL splits into the authority of its base and the path behind it. */
  lemma FeedSplits(b: Base, accepts: string -> bool, uid: string)
    requires GoodBase(b, accepts) && AllDigits(uid)
    ensures Split(Print(b) + FeedPath(uid)) ==
      Some(Parts(b.scheme, HostText(b.host) + PortText(b.port), b.path + FeedPath(uid), ""))
  {
    hide Split, Lower, HostText, PortText, TrimSlashes, BadPath, FeedPath, Print;
    var authority, path := HostText(b.host) + PortText(b.port), b.path + FeedPath(uid);
    GoodAuthority(b.host, b.port, accepts);
    SchemesAreLower();
    FeedPathIsPlain(uid);
    SplitUrl(b.scheme, authority, path);
    PrintThenAppend(b, FeedPath(uid));
  }

  lemma StripSolid(s: string)
    requires s != [] && !IsSpace(s[0]) && !IsSpace(s[|s| - 1])
    ensures Strip(s) == s
  {
    assert RStrip(s) == s;
  }

  /** A path with something before the prefix is no feed path: its letters would stand where a feed path
      has digits and slashes. */
  lemma PrefixedIsNotRecognized(before: string, uid: string)
    requires before != []
    ensures Recognize(before + FeedPath(uid)).None?
  {
    var path := before + FeedPath(uid);
    if Recognize(path).Some? {
      var u := Recognize(path).value;
      RecognizedIff(path, u);
      var e :| e in ENDINGS && path == PREFIX + u + e;
      var n := |before| + 19;
      assert path[n] == PREFIX[19] == 'o';
      assert n >= |PREFIX| - 1;
      TailHasNoLetter(u, e, n);
    }
  }

  lemma TailHasNoLetter(u: string, e: string, n: nat)
    requires IsUid(u) && e in ENDINGS && |PREFIX| - 1 <= n < |PREFIX + u + e|
    ensures (PREFIX + u + e)[n] != 'o'
  {
    var path := PREFIX + u + e;
    if n == |PREFIX| - 1 {
      assert path[n] == PREFIX[n] == '/';
    } else if n < |PREFIX| + |u| {
      assert path[n] == u[n - |PREFIX|] && u[n - |PREFIX|] in u;
    } else {
      assert path[n] == e[n - |PREFIX| - |u|];
    }
  }

  /** The feed URL of a UID on a normalized base is recognized as that UID if and only if the base has no
      path. */
  lemma FeedIsRecognizedIff(b: Base, accepts: string -> bool, n: nat)
    requires GoodBase(b, accepts) && 1 <= n <= MAX_UID
    ensures var found := CandidateUid(Print(b) + FeedPath(PrintNat(n)), accepts);
      (found == Some(PrintNat(n)) <==> b.path == []) && (found.None? <==> b.path != [])
  {
    hide Split, Strip, Lower, HostAndPort, HostText, PortText, PrintNat, Recognize, TrimSlashes, BadPath, BracketsPass, FeedPath;
    var uid := PrintNat(n);
    PrintThenRead(n);
    PrintedUidIsRecognized(n);
    FeedSplits(b, accepts, uid);
    FeedIsSolid(b, accepts, uid);
    GoodAuthority(b.host, b.port, accepts);
    SchemesAreLower();
    if b.path == [] {
      assert b.path + FeedPath(uid) == FeedPath(uid);
    } else {
      PrefixedIsNotRecognized(b.path, uid);
    }
  }

  // ---------------------------------------------------------------- twice

  lemma StripUnlessSpace(s: string)
    requires s != [] && !IsSpace(s[0])
    ensures IsSpace(s[|s| - 1]) ==> |Strip(s)| < |s|
    ensures !IsSpace(s[|s| - 1]) ==> Strip(s) == s
  {
    StripShortens(s);
  }

  lemma {:induction false} RStripShortens(s: string)
    ensures RStrip(s) <= s
  {
    if s != [] && IsSpace(s[|s| - 1]) {
      RStripShortens(s[..|s| - 1]);
    }
  }

  lemma {:induction false} LStripShortens(s: string)
    ensures |LStrip(s)| <= |s| && forall c | c in LStrip(s) :: c in s
  {
    if s != [] && IsSpace(s[0]) {
      LStripShortens(s[1..]);
    }
  }

  lemma StripShortens(s: string)
    ensures |Strip(s)| <= |RStrip(s)| <= |s| && forall c | c in Strip(s) :: c in s
    ensures s != [] && IsSpace(s[|s| - 1]) ==> |RStrip(s)| < |s|
  {
    RStripShortens(s);
    LStripShortens(RStrip(s));
    if s != [] && IsSpace(s[|s| - 1]) {
      RStripShortens(s[..|s| - 1]);
    }
  }

  /** The base ends in its host, and that in a space. */
  predicate EndsInSpace(b: Base) {
    b.port.None? && b.path == [] && b.host != [] && ':' !in b.host && b.host[|b.host| - 1] == ' '
  }

  lemma PlainSpace(c: char)
    requires PlainChar(c)
    ensures IsSpace(c) <==> c == ' '
  {
  }

  lemma LastOfPath(b: Base)
    requires FairBase(b) && b.path != []
    ensures !IsSpace(Print(b)[|Print(b)| - 1])
  {
    hide HostText, PortText, Lower, TrimSlashes;
    assert Print(b)[|Print(b)| - 1] == b.path[|b.path| - 1];
    assert b.path[|b.path| - 1] in b.path;
  }

  lemma LastOfPort(b: Base)
    requires b.path == [] && b.port.Some?
    ensures !IsSpace(Print(b)[|Print(b)| - 1])
  {
    hide HostText, PrintNat;
    var digits := PrintNat(b.port.value);
    PrintThenRead(b.port.value);
    assert digits[|digits| - 1] in digits;
    assert Print(b)[|Print(b)| - 1] == digits[|digits| - 1];
  }

  lemma LastOfHost(b: Base)
    requires FairBase(b) && b.path == [] && b.port.None?
    ensures IsSpace(Print(b)[|Print(b)| - 1]) <==> ':' !in b.host && b.host[|b.host| - 1] == ' '
  {
    hide Lower;
    assert b.host[0] in b.host;
    var last := b.host[|b.host| - 1];
    assert last in b.host;
    PlainSpace(last);
  }

  /** The text of a base ends in a space exactly when its host does and nothing follows it. */
  lemma LastCharacter(b: Base)
    requires FairBase(b)
    ensures Print(b) != [] && Print(b)[0] == 'h'
    ensures IsSpace(Print(b)[|Print(b)| - 1]) <==> EndsInSpace(b)
  {
    hide HostText, PortText, Lower, TrimSlashes, BadPath;
    if b.path != [] {
      LastOfPath(b);
    } else if b.port.Some? {
      LastOfPort(b);
    } else {
      LastOfHost(b);
    }
  }

  /** The host of the text has no colon, and it holds a bracket, or ends in a space with no port behind it
      and a path of slashes only. */
  predicate ChangesAgain(raw: string) {
    var parts := Split(raw);
    parts.Some? &&
    var (host, port) := HostAndPort(parts.value.authority);
    && ':' !in host && host != []
    && ('[' in host
        || (host[|host| - 1] == ' ' && port == "" && forall c | c in parts.value.path :: c == '/'))
  }

  lemma {:induction false} OnlySlashes(path: string)
    ensures TrimSlashes(path) == [] <==> forall c | c in path :: c == '/'
  {
    if path != [] {
      var rest, last := path[..|path| - 1], path[|path| - 1];
      OnlySlashes(rest);
      assert path == rest + [last] && last in path;
      assert forall c | c in rest :: c in path;
    }
  }

  lemma ReadChangesAgain(raw: string, accepts: string -> bool)
    requires ReadBase(raw, accepts).Ok?
    ensures var b := ReadBase(raw, accepts).value;
      ChangesAgain(raw) <==> StrayBracket(b) || EndsInSpace(b)
  {
    hide Split, BadPath, TrimSlashes, HostAndPort, IsControl, BracketsPass, Lower;
    var p := Split(raw).value;
    var (host, port) := HostAndPort(p.authority);
    OnlySlashes(p.path);
    LowerKeeps(host, ':');
    LowerKeeps(host, '[');
    LowerLast(host);
  }

  lemma LowerLast(h: string)
    requires h != []
    ensures Lower(h)[|h| - 1] == ' ' <==> h[|h| - 1] == ' '
  {
  }

  /** A host with a stray bracket is refused when its text is read again. */
  lemma StrayIsRefused(b: Base, accepts: string -> bool)
    requires FairBase(b) && StrayBracket(b)
    ensures ReadBase(Print(b), accepts).Err?
  {
    hide Split, Lower, PortText, BadPath, TrimSlashes, IsControl, HostAndPort;
    var authority := HostText(b.host) + PortText(b.port);
    PortIsReadBack(b.port);
    assert '[' in authority && ']' !in authority;
    FairAuthority(b);
    SchemesAreLower();
    SplitUrl(b.scheme, authority, b.path);
  }

  lemma FairAuthority(b: Base)
    requires FairBase(b)
    ensures forall c | c in HostText(b.host) + PortText(b.port) :: PlainChar(c) && c !in {'/', '?', '#', '@'}
  {
    hide PortText, Lower;
    PortIsReadBack(b.port);
    forall c | c in PortText(b.port) ensures PlainChar(c) && c !in {'/', '?', '#', '@'} {
    }
  }

  /** Normalizing an ASCII base URL twice is normalizing it once, unless its host has no colon and either
      holds a bracket, which the second pass refuses, or ends the result in a space, which it strips. */
  lemma NormalizeTwice(value: string, accepts: string -> bool)
    requires LibraryCheck(accepts) && forall c | c in value :: c as int < 128
    requires NormalizeBase(value, accepts).Ok?
    ensures var u := NormalizeBase(value, accepts).value;
      NormalizeBase(u, accepts) == Ok(u) <==> !ChangesAgain(Strip(value))
  {
    hide ReadBase, Print, Strip, FairBase, GoodBase, EndsInSpace, StrayBracket, ChangesAgain, LibraryCheck, Reaccepts;
    StripShortens(value);
    ReadChangesAgain(Strip(value), accepts);
    var b := ReadBase(Strip(value), accepts).value;
    ReadIsFair(Strip(value), accepts);
    ReadIsGood(Strip(value), accepts);
    ReadIsShort(Strip(value), accepts);
    ReadFits(Strip(value), accepts);
    LastCharacter(b);
    var u := Print(b);
    StripUnlessSpace(u);
    if EndsInSpace(b) {
      ResultIsShorter(u, accepts);
    } else if StrayBracket(b) {
      StrayIsRefused(b, accepts);
    } else {
      GoodIsRead(b, accepts);
    }
  }

  lemma ReadIsShort(raw: string, accepts: string -> bool)
    requires ReadBase(raw, accepts).Ok?
    ensures |raw| <= 2048
  {
    hide Split, ReadAuthority;
  }

  /** A second result is no longer than the stripped first one. */
  lemma ResultIsShorter(u: string, accepts: string -> bool)
    ensures NormalizeBase(u, accepts).Ok? ==> |NormalizeBase(u, accepts).value| <= |Strip(u)|
  {
    hide ReadBase, Print, Strip;
    if NormalizeBase(u, accepts).Ok? {
      ReadFits(Strip(u), accepts);
    }
  }

  lemma SampleHost()
    ensures Lower("a ") == "a " && HostAndPort("a ") == ("a ", "")
  {
    FindAt("a ", "", {':'});
    assert "a " + "" == "a " == "a "[..2] && '[' !in "a ";
  }

  lemma EmptyPath()
    ensures TrimSlashes("/") == "" && !BadPath("")
  {
    assert Segments("") == [""];
  }

  lemma SampleAuthority(accepts: string -> bool)
    ensures ReadAuthority("http", "a ", "/", accepts) == Ok(Base("http", "a ", None, ""))
  {
    hide HostAndPort, Lower, TrimSlashes, BadPath;
    SampleHost();
    EmptyPath();
  }

  lemma SampleText()
    ensures var raw := "http" + ("://" + ("a " + "/"));
      && Strip(raw) == raw && Split(raw) == Some(Parts("http", "a ", "/", ""))
      && (forall c | c in raw :: PlainChar(c))
  {
    hide Split, IsSpace;
    var raw := "http" + ("://" + ("a " + "/"));
    SplitUrl("http", "a ", "/");
    SchemesAreLower();
    SeparatorIsPlain();
    assert !IsSpace('h') && !IsSpace('/') by { SolidChars(); }
    assert raw[0] == 'h' && raw[|raw| - 1] == '/';
    assert RStrip(raw) == raw;
  }

  lemma SolidChars()
    ensures !IsSpace('h') && !IsSpace('/') && !IsSpace(']') && !IsSpace('x')
  {
  }

  /** Such a base exists, whatever the check of brackets: with a space before the path of the root, a second
      pass changes the result. */
  lemma SpaceBeforeRootPath(accepts: string -> bool)
    ensures var raw, b := "http" + ("://" + ("a " + "/")), Base("http", "a ", None, "");
      NormalizeBase(raw, accepts) == Ok(Print(b)) && NormalizeBase(Print(b), accepts) != Ok(Print(b))
  {
    hide Split, ReadAuthority, Strip;
    SampleText();
    SchemesAreLower();
    SampleAuthority(accepts);
    var u := Print(Base("http", "a ", None, ""));
    assert u != [] && !IsSpace(u[0]) && IsSpace(u[|u| - 1]);
    StripUnlessSpace(u);
    ResultIsShorter(u, accepts);
  }

  lemma BracketSample(accepts: string -> bool)
    requires accepts("[v1.[x]")
    ensures ReadAuthority("http", "[v1.[x]", "", accepts) == Ok(Base("http", "v1.[x", None, ""))
  {
    hide BadPath, InBrackets, AfterColon, Lower;
    assert "[" + "v1.[x" + "]" + "" == "[v1.[x]";
    InBracketsOf("v1.[x", "");
    assert AfterColon("") == "" by { NothingAfterColon(); }
    assert Lower("v1.[x") == "v1.[x" by { SampleIsLower(); }
    EmptyPath();
  }

  lemma NothingAfterColon()
    ensures AfterColon("") == ""
  {
  }

  lemma SampleIsLower()
    ensures Lower("v1.[x") == "v1.[x"
  {
  }

  lemma BracketText()
    ensures var raw := "http" + ("://" + ("[v1.[x]" + ""));
      && Strip(raw) == raw && Split(raw) == Some(Parts("http", "[v1.[x]", "", ""))
      && (forall c | c in raw :: PlainChar(c))
  {
    hide Split, IsSpace;
    var raw := "http" + ("://" + ("[v1.[x]" + ""));
    SplitUrl("http", "[v1.[x]", "");
    SchemesAreLower();
    SeparatorIsPlain();
    assert raw[0] == 'h' && raw[|raw| - 1] == ']';
    assert !IsSpace('h') && !IsSpace(']') by { SolidChars(); }
    StripSolid(raw);
  }

  /** And with a bracketed host that holds a bracket and no colon, which the library accepts as an address of a
      later version, the second pass refuses the result of the first. */
  lemma BracketInHost(accepts: string -> bool)
    requires LibraryCheck(accepts) && accepts("[v1.[x]")
    ensures var raw, b := "http" + ("://" + ("[v1.[x]" + "")), Base("http", "v1.[x", None, "");
      NormalizeBase(raw, accepts) == Ok(Print(b)) && NormalizeBase(Print(b), accepts).Err?
  {
    hide Split, ReadAuthority, Strip, LibraryCheck, FairBase, StrayBracket, Lower;
    BracketText();
    SchemesAreLower();
    BracketSample(accepts);
    var raw, b := "http" + ("://" + ("[v1.[x]" + "")), Base("http", "v1.[x", None, "");
    ReadIsFair(raw, accepts);
    assert StrayBracket(b) by { StraySample(); }
    StrayIsRefused(b, accepts);
    var u := Print(b);
    assert u != [] && u[0] == 'h' && u[|u| - 1] == 'x';
    assert !IsSpace('h') && !IsSpace('x') by { SolidChars(); }
    StripSolid(u);
  }

  lemma StraySample()
    ensures StrayBracket(Base("http", "v1.[x", None, ""))
  {
    assert "v1.[x"[3] == '[';
  }
}
