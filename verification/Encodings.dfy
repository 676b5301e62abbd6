/** Decimal numbers and unpadded base64url, printed and read back. */
module Encodings {
  import opened Common

  // ---------------------------------------------------------------- decimal numbers

  predicate IsDigit(c: char) {
    '0' <= c <= '9'
  }

  predicate AllDigits(s: string) {
    forall c | c in s :: IsDigit(c)
  }

  function DigitChar(d: nat): char
    requires d < 10
  {
    (d + '0' as int) as char
  }

  function DigitValue(c: char): nat
    requires IsDigit(c)
  {
    c as int - '0' as int
  }

  function PrintNat(n: nat): string {
    if n < 10 then [DigitChar(n)] else PrintNat(n / 10) + [DigitChar(n % 10)]
  }

  function PrintInt(i: int): string {
    if i < 0 then "-" + PrintNat(-i) else PrintNat(i)
  }

  function ReadNat(s: string): nat
    requires AllDigits(s)
  {
    if s == [] then 0 else ReadNat(s[..|s| - 1]) * 10 + DigitValue(s[|s| - 1])
  }

  /** Digits with single underscores between them, as `int` accepts them. */
  function ReadGrouped(s: string): Option<nat>
    decreases |s|
  {
    if s == [] || !IsDigit(s[|s| - 1]) then None
    else if |s| == 1 then Some(DigitValue(s[0]))
    else
      var rest := s[..|s| - 1];
      var high := ReadGrouped(if rest[|rest| - 1] == '_' then rest[..|rest| - 1] else rest);
      if high.None? then None else Some(high.value * 10 + DigitValue(s[|s| - 1]))
  }

  /** `int(text)`: an optional sign and ASCII digits, with space around. */
  function ReadInt(text: string): Option<int> {
    var s := Strip(text);
    var negative := s != [] && s[0] == '-';
    var n := ReadGrouped(if s != [] && (s[0] == '-' || s[0] == '+') then s[1..] else s);
    if n.None? then None
    else
      var value: int := n.value;
      Some(if negative then -value else value)
  }

  /** A printed number has digits only, no leading zero, and reads back as itself. */
  lemma {:induction false} PrintThenRead(n: nat)
    ensures PrintNat(n) != [] && AllDigits(PrintNat(n))
    ensures n > 0 ==> PrintNat(n)[0] != '0'
    ensures ReadNat(PrintNat(n)) == n
    ensures ReadGrouped(PrintNat(n)) == Some(n)
  {
    if n >= 10 {
      PrintThenRead(n / 10);
      var high := PrintNat(n / 10);
      assert PrintNat(n)[..|high|] == high;
      assert IsDigit(high[|high| - 1]);
    } else {
      assert PrintNat(n)[..0] == [];
    }
  }

  lemma DigitsSplit(high: string, last: char)
    requires AllDigits(high + [last])
    ensures AllDigits(high) && IsDigit(last)
  {
    assert last in high + [last];
  }

  lemma PrintedDigit(c: char)
    requires IsDigit(c)
    ensures DigitValue(c) < 10 && DigitChar(DigitValue(c)) == c && (c != '0' ==> DigitValue(c) > 0)
  {
  }

  /** Digits without a leading zero are the text of the number they read as. */
  lemma {:induction false} ReadThenPrint(s: string)
    requires s != [] && AllDigits(s) && s[0] != '0'
    ensures ReadNat(s) > 0 && PrintNat(ReadNat(s)) == s
  {
    hide AllDigits, IsDigit;
    var high, last := s[..|s| - 1], s[|s| - 1];
    assert s == high + [last];
    DigitsSplit(high, last);
    PrintedDigit(last);
    if high == [] {
      assert ReadNat(s) == DigitValue(last);
    } else {
      ReadThenPrint(high);
      assert ReadNat(s) / 10 == ReadNat(high) && ReadNat(s) % 10 == DigitValue(last);
    }
  }

  lemma PrintIntThenRead(i: int)
    ensures ReadInt(PrintInt(i)) == Some(i) && forall c | c in PrintInt(i) :: c == '-' || IsDigit(c)
  {
    hide ReadGrouped, PrintNat;
    var s := PrintInt(i);
    var digits := PrintNat(if i < 0 then -i else i);
    PrintThenRead(if i < 0 then -i else i);
    assert digits[0] in digits && digits[|digits| - 1] in digits;
    assert s[|s| - 1] == digits[|digits| - 1] && (s[0] == '-' || IsDigit(s[0]));
    assert Strip(s) == s by {
      assert RStrip(s) == s && LStrip(s) == s;
    }
    hide Strip, RStrip, LStrip;
    if i < 0 {
      assert s[1..] == digits;
    } else {
      assert s == digits;
    }
  }

  function Pow10(k: nat): nat {
    if k == 0 then 1 else 10 * Pow10(k - 1)
  }

  lemma {:induction false} PrintedLength(n: nat, k: nat)
    requires 0 < k && n < Pow10(k)
    ensures |PrintNat(n)| <= k
  {
    if n >= 10 {
      assert k > 1;
      PrintedLength(n / 10, k - 1);
    }
  }

  // ---------------------------------------------------------------- unpadded base64url

  type byte = n: nat | n < 256

  function Symbol(v: nat): char
    requires v < 64
  {
    if v < 26 then (v + 'A' as int) as char
    else if v < 52 then (v - 26 + 'a' as int) as char
    else if v < 62 then (v - 52 + '0' as int) as char
    else if v == 62 then '-'
    else '_'
  }

  /** The value of a character; plus and slash keep their meaning in the standard alphabet. */
  function SymbolValue(c: char): (v: Option<nat>)
    ensures v.Some? ==> v.value < 64
  {
    if 'A' <= c <= 'Z' then Some(c as int - 'A' as int)
    else if 'a' <= c <= 'z' then Some(c as int - 'a' as int + 26)
    else if '0' <= c <= '9' then Some(c as int - '0' as int + 52)
    else if c == '-' || c == '+' then Some(62)
    else if c == '_' || c == '/' then Some(63)
    else None
  }

  lemma SymbolsAreRead(v: nat)
    requires v < 64
    ensures SymbolValue(Symbol(v)) == Some(v)
  {
  }

  /** `base64.urlsafe_b64encode`. */
  function Padded(raw: seq<byte>): string {
    if raw == [] then ""
    else if |raw| == 1 then [Symbol(raw[0] / 4), Symbol(raw[0] % 4 * 16)] + "=="
    else if |raw| == 2 then
      [Symbol(raw[0] / 4), Symbol(raw[0] % 4 * 16 + raw[1] / 16), Symbol(raw[1] % 16 * 4)] + "="
    else
      [Symbol(raw[0] / 4), Symbol(raw[0] % 4 * 16 + raw[1] / 16), Symbol(raw[1] % 16 * 4 + raw[2] / 64),
       Symbol(raw[2] % 64)] + Padded(raw[3..])
  }

  function DropPadding(s: string): string {
    if s != [] && s[|s| - 1] == '=' then DropPadding(s[..|s| - 1]) else s
  }

  function Encode(raw: seq<byte>): string {
    DropPadding(Padded(raw))
  }

  predicate Held(quad: nat, left: nat) {
    (quad == 0 && left == 0) || (quad == 1 && left < 64) || (quad == 2 && left < 16) || (quad == 3 && left < 4)
  }

  function Emit(b: byte, rest: Option<seq<byte>>): Option<seq<byte>> {
    if rest.None? then None else Some([b] + rest.value)
  }

  /** The standard decoder: `quad` symbols of a group are read, `left` holds their bits that are in no
      byte yet. It skips characters outside the alphabet and stops at the padding that closes a group. */
  function Scan(s: string, quad: nat, left: nat, pads: nat): Option<seq<byte>>
    requires Held(quad, left)
  {
    if s == [] then if quad == 0 then Some([]) else None
    else if s[0] == '=' then
      if quad < 2 then Scan(s[1..], quad, left, pads)
      else if quad + pads + 1 >= 4 then Some([])
      else Scan(s[1..], quad, left, pads + 1)
    else
      var v := SymbolValue(s[0]);
      if v.None? then Scan(s[1..], quad, left, pads)
      else if quad == 0 then Scan(s[1..], 1, v.value, 0)
      else if quad == 1 then Emit(left * 4 + v.value / 16, Scan(s[1..], 2, v.value % 16, 0))
      else if quad == 2 then Emit(left * 16 + v.value / 4, Scan(s[1..], 3, v.value % 4, 0))
      else Emit(left * 64 + v.value, Scan(s[1..], 0, 0, 0))
  }

  function Repeat(c: char, n: nat): string {
    seq(n, _ => c)
  }

  /** How many characters are missing to a multiple of four. */
  function Padding(n: nat): nat {
    (4 - n % 4) % 4
  }

  /** None where the decoder raises: for text that is not ASCII, or that ends within a group. */
  function Decode(value: string): Option<seq<byte>> {
    if exists c | c in value :: c as int >= 128 then None
    else Scan(value + Repeat('=', Padding(|value|)), 0, 0, 0)
  }

  predicate IsSymbol(c: char) {
    'A' <= c <= 'Z' || 'a' <= c <= 'z' || '0' <= c <= '9' || c == '-' || c == '_'
  }

  lemma {:induction false} DropPaddingAppend(s: string, n: nat)
    requires s != [] ==> s[|s| - 1] != '='
    ensures DropPadding(s + Repeat('=', n)) == s
  {
    var text := s + Repeat('=', n);
    if n == 0 {
      assert text == s;
    } else {
      assert text[..|text| - 1] == s + Repeat('=', n - 1);
      DropPaddingAppend(s, n - 1);
    }
  }

  ghost function Group(a: byte, b: byte, c: byte): string {
    [Symbol(a / 4), Symbol(a % 4 * 16 + b / 16), Symbol(b % 16 * 4 + c / 64), Symbol(c % 64)]
  }

  /** The symbols of a byte string, without padding. */
  ghost function Symbols(raw: seq<byte>): string {
    if raw == [] then ""
    else if |raw| == 1 then Group(raw[0], 0, 0)[..2]
    else if |raw| == 2 then Group(raw[0], raw[1], 0)[..3]
    else Group(raw[0], raw[1], raw[2]) + Symbols(raw[3..])
  }

  lemma GroupHasSymbols(a: byte, b: byte, c: byte)
    ensures forall x | x in Group(a, b, c) :: IsSymbol(x)
  {
  }

  lemma {:induction false} OnlySymbols(raw: seq<byte>)
    ensures forall c | c in Symbols(raw) :: IsSymbol(c)
  {
    hide Symbol, IsSymbol, Group;
    if raw != [] {
      GroupHasSymbols(raw[0], if |raw| > 1 then raw[1] else 0, if |raw| > 2 then raw[2] else 0);
      if |raw| > 2 {
        OnlySymbols(raw[3..]);
      }
    }
  }

  lemma PaddedShort(raw: seq<byte>)
    requires |raw| <= 2
    ensures Padded(raw) == Symbols(raw) + Repeat('=', Padding(|Symbols(raw)|))
  {
    hide Symbol;
  }

  lemma PaddedGroup(raw: seq<byte>)
    requires |raw| > 2
    ensures Padded(raw) == Group(raw[0], raw[1], raw[2]) + Padded(raw[3..])
    ensures |Symbols(raw)| == 4 + |Symbols(raw[3..])|
  {
    hide Symbol;
  }

  lemma PaddingRepeats(n: nat)
    ensures Padding(n + 4) == Padding(n)
  {
  }

  /** The padded text is the symbols and a padding that fills the last group of four. */
  lemma {:induction false} PaddedSplits(raw: seq<byte>)
    ensures Padded(raw) == Symbols(raw) + Repeat('=', Padding(|Symbols(raw)|))
  {
    hide Padded, Padding, Repeat, Group;
    if |raw| <= 2 {
      PaddedShort(raw);
    } else {
      PaddedSplits(raw[3..]);
      PaddedGroup(raw);
      PaddingRepeats(|Symbols(raw[3..])|);
    }
  }

  lemma EncodeIsSymbols(raw: seq<byte>)
    ensures Encode(raw) == Symbols(raw)
  {
    hide Padded, Symbols;
    PaddedSplits(raw);
    OnlySymbols(raw);
    var text := Symbols(raw);
    assert text != [] ==> IsSymbol(text[|text| - 1]);
    DropPaddingAppend(text, Padding(|text|));
  }

  lemma ScanSymbol(v: nat, s: string, quad: nat, left: nat)
    requires v < 64 && Held(quad, left)
    ensures Scan([Symbol(v)] + s, quad, left, 0) ==
      if quad == 0 then Scan(s, 1, v, 0)
      else if quad == 1 then Emit(left * 4 + v / 16, Scan(s, 2, v % 16, 0))
      else if quad == 2 then Emit(left * 16 + v / 4, Scan(s, 3, v % 4, 0))
      else Emit(left * 64 + v, Scan(s, 0, 0, 0))
  {
    SymbolsAreRead(v);
    assert ([Symbol(v)] + s)[1..] == s;
  }

  lemma ScanPadding(left: nat)
    ensures Held(2, left) ==> Scan("==", 2, left, 0) == Some([])
    ensures Held(3, left) ==> Scan("=", 3, left, 0) == Some([])
  {
    assert "=="[1..] == "=";
  }

  lemma ScanLastByte(a: byte)
    ensures Scan(Padded([a]), 0, 0, 0) == Some([a])
  {
    hide Symbol, Scan;
    var v0, v1 := a / 4, a % 4 * 16;
    assert Padded([a]) == [Symbol(v0)] + ([Symbol(v1)] + "==");
    ScanSymbol(v0, [Symbol(v1)] + "==", 0, 0);
    ScanSymbol(v1, "==", 1, v0);
    ScanPadding(v1 % 16);
    assert [a] + [] == [a];
  }

  lemma ScanLastBytes(a: byte, b: byte)
    ensures Scan(Padded([a, b]), 0, 0, 0) == Some([a, b])
  {
    hide Symbol, Scan;
    var v0, v1, v2 := a / 4, a % 4 * 16 + b / 16, b % 16 * 4;
    assert Padded([a, b]) == [Symbol(v0)] + ([Symbol(v1)] + ([Symbol(v2)] + "="));
    ScanSymbol(v0, [Symbol(v1)] + ([Symbol(v2)] + "="), 0, 0);
    ScanSymbol(v1, [Symbol(v2)] + "=", 1, v0);
    ScanSymbol(v2, "=", 2, v1 % 16);
    ScanPadding(v2 % 4);
    assert [a] + ([b] + []) == [a, b];
  }

  lemma {:induction false} ScanPadded(raw: seq<byte>)
    ensures Scan(Padded(raw), 0, 0, 0) == Some(raw)
  {
    hide Symbol, Scan;
    if raw == [] {
      ScanNothing();
    } else if |raw| == 1 {
      assert raw == [raw[0]];
      ScanLastByte(raw[0]);
    } else if |raw| == 2 {
      assert raw == [raw[0], raw[1]];
      ScanLastBytes(raw[0], raw[1]);
    } else {
      ScanGroup(raw[0], raw[1], raw[2], Padded(raw[3..]));
      ScanPadded(raw[3..]);
      assert Padded(raw) == Group(raw[0], raw[1], raw[2]) + Padded(raw[3..]);
      assert raw == [raw[0]] + ([raw[1]] + ([raw[2]] + raw[3..]));
    }
  }

  lemma ScanNothing()
    ensures Scan("", 0, 0, 0) == Some([])
  {
  }

  lemma ScanGroup(a: byte, b: byte, c: byte, s: string)
    ensures Scan(Group(a, b, c) + s, 0, 0, 0) == Emit(a, Emit(b, Emit(c, Scan(s, 0, 0, 0))))
  {
    hide Symbol, Scan, Emit;
    var v0, v1, v2, v3 := a / 4, a % 4 * 16 + b / 16, b % 16 * 4 + c / 64, c % 64;
    var s3 := [Symbol(v3)] + s;
    var s2 := [Symbol(v2)] + s3;
    var s1 := [Symbol(v1)] + s2;
    assert Group(a, b, c) + s == [Symbol(v0)] + s1;
    ScanSymbol(v0, s1, 0, 0);
    ScanSymbol(v1, s2, 1, v0);
    ScanSymbol(v2, s3, 2, v1 % 16);
    ScanSymbol(v3, s, 3, v2 % 4);
    assert v0 * 4 + v1 / 16 == a && v1 % 16 * 16 + v2 / 4 == b && v2 % 4 * 64 + v3 == c;
  }

  /** Decoding what was encoded gives the bytes back, for every byte string. */
  lemma EncodeThenDecode(raw: seq<byte>)
    ensures Decode(Encode(raw)) == Some(raw)
    ensures forall c | c in Encode(raw) :: IsSymbol(c)
  {
    hide Encode, Padded, Scan;
    EncodeIsSymbols(raw);
    OnlySymbols(raw);
    PaddedSplits(raw);
    ScanPadded(raw);
  }
}
