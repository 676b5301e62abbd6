/** The managed RSSHub feed of a Bilibili user: printing its path, and recognizing it again. */
module FeedRoutes {
  import opened Common
  import opened Encodings

  const MAX_UID := 9_223_372_036_854_775_807
  const PREFIX := "/bilibili/user/video/"

  datatype Error = InvalidUid

  /** `_normalize_bilibili_uid` of a text. */
  function NormalizeUid(value: string): Result<string, Error> {
    var uid := Strip(value);
    if !(AllDigits(uid) && 1 <= |uid| <= 20) then Err(InvalidUid)
    else if ReadNat(uid) == 0 || ReadNat(uid) > MAX_UID then Err(InvalidUid)
    else Ok(PrintNat(ReadNat(uid)))
  }

  /** The path of the route, which disables embedded video. */
  function FeedPath(uid: string): string {
    PREFIX + uid + "/1"
  }

  /** A service root without a path, and the path that a URL splitter finds behind it. */
  function FeedUrl(scheme: string, authority: string, uid: string): string {
    scheme + ("://" + (authority + FeedPath(uid)))
  }

  function Find(s: string, stops: set<char>): (n: nat)
    ensures n <= |s| && (n < |s| ==> s[n] in stops) && forall i | 0 <= i < n :: s[i] !in stops
  {
    if s == [] || s[0] in stops then 0 else 1 + Find(s[1..], stops)
  }

  datatype Parts = Parts(scheme: string, authority: string, path: string, tail: string)

  /** Scheme, authority and path of a URL; `tail` is its query and fragment. */
  function Split(url: string): Option<Parts> {
    var n := Find(url, {':'});
    if n + 3 <= |url| && url[n..n + 3] == "://" then Some(SplitRest(url[..n], url[n + 3..])) else None
  }

  /** The parts of what follows the scheme. */
  function SplitRest(scheme: string, rest: string): Parts {
    var a := Find(rest, {'/', '?', '#'});
    var p := a + Find(rest[a..], {'?', '#'});
    Parts(scheme, rest[..a], rest[a..p], rest[p..])
  }

  function LeadingDigits(s: string): (n: nat)
    ensures n <= |s| && AllDigits(s[..n]) && (n < |s| ==> !IsDigit(s[n]))
  {
    if s == [] || !IsDigit(s[0]) then 0 else 1 + LeadingDigits(s[1..])
  }

  const ENDINGS := {"", "/", "/1", "/1/"}

  /** `^/bilibili/user/video/([1-9][0-9]{0,18})(?:/1)?/?$` on the whole path. */
  function Recognize(path: string): Option<string> {
    if !(PREFIX <= path) then None
    else
      var rest := path[|PREFIX|..];
      var n := LeadingDigits(rest);
      if 1 <= n <= 19 && rest[0] != '0' && rest[n..] in ENDINGS then Some(rest[..n]) else None
  }

  /** The texts the pattern captures. */
  predicate IsUid(uid: string) {
    AllDigits(uid) && 1 <= |uid| <= 19 && uid[0] != '0'
  }

  lemma {:induction false} LeadingDigitsOf(digits: string, rest: string)
    requires AllDigits(digits) && (rest != [] ==> !IsDigit(rest[0]))
    ensures LeadingDigits(digits + rest) == |digits|
  {
    if digits == [] {
      assert digits + rest == rest;
    } else {
      assert (digits + rest)[1..] == digits[1..] + rest;
      assert digits[0] in digits;
      LeadingDigitsOf(digits[1..], rest);
    }
  }

  /** A path is recognized as a UID exactly when it is that UID behind the prefix, with one of four endings. */
  lemma RecognizedIff(path: string, uid: string)
    ensures Recognize(path) == Some(uid) <==> IsUid(uid) && exists e | e in ENDINGS :: path == PREFIX + uid + e
  {
    if IsUid(uid) {
      forall e | e in ENDINGS && path == PREFIX + uid + e ensures Recognize(path) == Some(uid) {
        RecognizeEnding(uid, e);
      }
    }
    if Recognize(path) == Some(uid) {
      var rest := path[|PREFIX|..];
      var n := LeadingDigits(rest);
      assert path == PREFIX + rest[..n] + rest[n..];
      assert uid == rest[..n] && rest[n..] in ENDINGS;
    }
  }

  lemma RecognizeEnding(uid: string, e: string)
    requires IsUid(uid) && e in ENDINGS
    ensures Recognize(PREFIX + uid + e) == Some(uid)
  {
    var path := PREFIX + uid + e;
    assert path[|PREFIX|..] == uid + e && path[..|PREFIX|] == PREFIX;
    LeadingDigitsOf(uid, e);
    assert (uid + e)[..|uid|] == uid && (uid + e)[|uid|..] == e;
  }

  lemma MaxUidHasNineteenDigits()
    ensures MAX_UID + 1 < Pow10(19)
  {
    assert Pow10(5) == 100_000;
    assert Pow10(10) == 10_000_000_000;
    assert Pow10(15) == 1_000_000_000_000_000;
    assert Pow10(19) == 10_000_000_000_000_000_000;
  }

  lemma DigitsAreStripped(s: string)
    requires AllDigits(s)
    ensures Strip(s) == s
  {
    if s != [] {
      assert s[0] in s && s[|s| - 1] in s;
      assert RStrip(s) == s && LStrip(s) == s;
    }
  }

  /** Every printed UID is normal, fits the pattern, and its feed path is recognized as that UID. */
  lemma PrintedUidIsRecognized(n: nat)
    requires 1 <= n <= MAX_UID
    ensures NormalizeUid(PrintNat(n)) == Ok(PrintNat(n))
    ensures IsUid(PrintNat(n)) && Recognize(FeedPath(PrintNat(n))) == Some(PrintNat(n))
  {
    hide PrintNat, ReadNat, Strip, Recognize, Pow10;
    PrintThenRead(n);
    MaxUidHasNineteenDigits();
    PrintedLength(n, 19);
    DigitsAreStripped(PrintNat(n));
    RecognizeEnding(PrintNat(n), "/1");
  }

  /** Normalizing is idempotent, and its results are the printed numbers from 1 to the maximum. */
  lemma NormalUids(value: string, uid: string)
    requires NormalizeUid(value) == Ok(uid)
    ensures NormalizeUid(uid) == Ok(uid) && Recognize(FeedPath(uid)) == Some(uid)
    ensures 1 <= ReadNat(uid) <= MAX_UID && ReadNat(uid) == ReadNat(Strip(value))
  {
    hide PrintNat, ReadNat, Strip, Recognize;
    var n := ReadNat(Strip(value));
    PrintThenRead(n);
    PrintedUidIsRecognized(n);
  }

  /** A recognized UID is kept by normalization exactly when it does not exceed the maximum; the pattern
      also lets larger numbers of nineteen digits through. */
  lemma RecognizedIsNormalIff(path: string, uid: string)
    requires Recognize(path) == Some(uid)
    ensures NormalizeUid(uid) == Ok(uid) <==> ReadNat(uid) <= MAX_UID
    ensures NormalizeUid(uid).Err? <==> ReadNat(uid) > MAX_UID
  {
    hide PrintNat, ReadNat, Strip, Recognize;
    RecognizedIff(path, uid);
    DigitsAreStripped(uid);
    ReadThenPrint(uid);
  }

  /** Such a number exists: one more than the maximum is recognized and then refused. */
  lemma TooLargeUidIsRecognized()
    ensures Recognize(FeedPath(PrintNat(MAX_UID + 1))) == Some(PrintNat(MAX_UID + 1))
    ensures NormalizeUid(PrintNat(MAX_UID + 1)).Err?
  {
    hide PrintNat, ReadNat, Strip, Recognize, Pow10;
    var n := MAX_UID + 1;
    PrintThenRead(n);
    MaxUidHasNineteenDigits();
    PrintedLength(n, 19);
    DigitsAreStripped(PrintNat(n));
    RecognizeEnding(PrintNat(n), "/1");
  }

  lemma {:induction false} FindAt(a: string, b: string, stops: set<char>)
    requires (forall c | c in a :: c !in stops) && (b != [] ==> b[0] in stops)
    ensures Find(a + b, stops) == |a|
  {
    if a == [] {
      assert a + b == b;
    } else {
      assert (a + b)[1..] == a[1..] + b;
      FindAt(a[1..], b, stops);
    }
  }

  lemma PathHasNoStops(uid: string)
    requires AllDigits(uid)
    ensures forall c | c in FeedPath(uid) :: c !in {'?', '#'}
  {
    forall c | c in PREFIX ensures '/' <= c <= 'z' && c != '?' {
    }
  }

  lemma RestSplits(authority: string, path: string)
    requires forall c | c in authority :: c !in {'/', '?', '#'}
    requires (path != [] ==> path[0] == '/') && forall c | c in path :: c !in {'?', '#'}
    ensures var rest := authority + path;
      Find(rest, {'/', '?', '#'}) == |authority| && Find(rest[|authority|..], {'?', '#'}) == |path|
      && rest[..|authority|] == authority && rest[|authority|..] == path
  {
    hide Find;
    FindAt(authority, path, {'/', '?', '#'});
    FindAt(path, "", {'?', '#'});
    assert path + "" == path;
  }

  lemma SplitScheme(scheme: string, rest: string)
    requires forall c | c in scheme :: c != ':'
    ensures var url := scheme + ("://" + rest);
      Find(url, {':'}) == |scheme| && url[..|scheme|] == scheme
      && url[|scheme|..|scheme| + 3] == "://" && url[|scheme| + 3..] == rest
  {
    hide Find;
    FindAt(scheme, "://" + rest, {':'});
  }

  /** A URL is split into the parts it was put together from. */
  lemma SplitUrl(scheme: string, authority: string, path: string)
    requires forall c | c in scheme :: c != ':'
    requires forall c | c in authority :: c !in {'/', '?', '#'}
    requires (path != [] ==> path[0] == '/') && forall c | c in path :: c !in {'?', '#'}
    ensures Split(scheme + ("://" + (authority + path))) == Some(Parts(scheme, authority, path, ""))
  {
    hide Find;
    var rest := authority + path;
    SplitScheme(scheme, rest);
    RestSplits(authority, path);
    assert rest[|authority|..|rest|] == path && rest[|rest|..] == "";
  }

  /** The feed URL on a service root without a path is split into that root and the path of the UID. */
  lemma FeedUrlIsRecognized(scheme: string, authority: string, n: nat)
    requires 1 <= n <= MAX_UID
    requires forall c | c in scheme :: c != ':'
    requires forall c | c in authority :: c !in {'/', '?', '#'}
    ensures var uid := PrintNat(n);
      Split(FeedUrl(scheme, authority, uid)) == Some(Parts(scheme, authority, FeedPath(uid), ""))
      && Recognize(FeedPath(uid)) == Some(uid)
  {
    hide PrintNat, Recognize, Split;
    var uid := PrintNat(n);
    PrintThenRead(n);
    PrintedUidIsRecognized(n);
    PathHasNoStops(uid);
    SplitUrl(scheme, authority, FeedPath(uid));
  }
}
