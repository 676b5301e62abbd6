/** Encoded texts symbol by symbol: base64url groups, and the fields of a stored password hash. */
module EncodedRows {
  import opened Common
  import opened Encodings
  import opened Passwords

  // ---------------------------------------------------------------- base64url

  /** The URL and filename safe alphabet, table 2 in section 5 of RFC 4648. */
  const ALPHABET: string := "ABCDEFGHIJKLMNOPQRSTUVWXYZ" + "abcdefghijklmnopqrstuvwxyz" + "0123456789-_"

  lemma SymbolIs(v: nat)
    requires v < 64
    ensures |ALPHABET| == 64 && Symbol(v) == ALPHABET[v]
  {
    var upper, lower, other := "ABCDEFGHIJKLMNOPQRSTUVWXYZ", "abcdefghijklmnopqrstuvwxyz", "0123456789-_";
    assert |upper| == 26 && |lower| == 26 && |other| == 12;
    assert forall i | 0 <= i < 26 :: upper[i] == (i + 'A' as int) as char;
    assert forall i | 0 <= i < 26 :: lower[i] == (i + 'a' as int) as char;
    assert forall i | 0 <= i < 10 :: other[i] == (i + '0' as int) as char;
    assert other[10] == '-' && other[11] == '_';
  }

  /** The symbols are the alphabet's characters at these places. */
  ghost predicate Spelt(text: string, places: seq<nat>) {
    |ALPHABET| == 64 && |text| == |places| && forall i | 0 <= i < |text| :: places[i] < 64 && text[i] == ALPHABET[places[i]]
  }

  /** Three bytes, and four places, as one number of 24 bits. */
  ghost function OfBytes(a: nat, b: nat, c: nat): nat {
    a * 65536 + b * 256 + c
  }

  ghost function OfPlaces(w: nat, x: nat, y: nat, z: nat): nat {
    w * 262144 + x * 4096 + y * 64 + z
  }

  /** The bits of the bytes, padded with zeros to a multiple of six, are the bits of the places. */
  ghost predicate SameBits(bytes: seq<byte>, places: seq<nat>) {
    || (bytes == [] && places == [])
    || (|bytes| == 1 && |places| == 2 && OfBytes(bytes[0], 0, 0) == OfPlaces(places[0], places[1], 0, 0))
    || (|bytes| == 2 && |places| == 3 && OfBytes(bytes[0], bytes[1], 0) == OfPlaces(places[0], places[1], places[2], 0))
    || (|bytes| >= 3 && |places| >= 4
        && OfBytes(bytes[0], bytes[1], bytes[2]) == OfPlaces(places[0], places[1], places[2], places[3])
        && SameBits(bytes[3..], places[4..]))
  }

  ghost function GroupPlaces(a: byte, b: byte, c: byte): seq<nat> {
    [a / 4, a % 4 * 16 + b / 16, b % 16 * 4 + c / 64, c % 64]
  }

  lemma GroupIsSpelt(a: byte, b: byte, c: byte)
    ensures Spelt(Group(a, b, c), GroupPlaces(a, b, c))
    ensures var p := GroupPlaces(a, b, c);
      OfBytes(a, b, c) == OfPlaces(p[0], p[1], p[2], p[3])
  {
    SymbolIs(a / 4);
    SymbolIs(a % 4 * 16 + b / 16);
    SymbolIs(b % 16 * 4 + c / 64);
    SymbolIs(c % 64);
    hide Symbol, ALPHABET;
  }

  lemma SpeltAppend(x: string, p: seq<nat>, y: string, q: seq<nat>)
    requires Spelt(x, p) && Spelt(y, q)
    ensures Spelt(x + y, p + q)
  {
    hide ALPHABET;
  }

  lemma SpeltPrefix(x: string, p: seq<nat>, n: nat)
    requires Spelt(x, p) && n <= |x|
    ensures Spelt(x[..n], p[..n])
  {
    hide ALPHABET;
  }

  /** An encoded text spells the bits of its bytes, six at a time, in the alphabet. */
  lemma {:induction false} EncodedBits(raw: seq<byte>) returns (places: seq<nat>)
    ensures Spelt(Encode(raw), places) && SameBits(raw, places)
  {
    EncodeIsSymbols(raw);
    places := SymbolBits(raw);
    hide Encode, Spelt, SameBits;
  }

  lemma {:induction false} SymbolBits(raw: seq<byte>) returns (places: seq<nat>)
    ensures Spelt(Symbols(raw), places) && SameBits(raw, places)
  {
    hide Group, Spelt, ALPHABET;
    if raw == [] {
      places := [];
      assert Spelt("", []) by { SpeltNothing(); }
    } else {
      var a, b, c := raw[0], if |raw| > 1 then raw[1] else 0, if |raw| > 2 then raw[2] else 0;
      var group := GroupPlaces(a, b, c);
      GroupIsSpelt(a, b, c);
      if |raw| <= 2 {
        places := group[..|raw| + 1];
        assert |Group(a, b, c)| == 4 by { GroupLength(a, b, c); }
        SpeltPrefix(Group(a, b, c), group, |raw| + 1);
      } else {
        var rest := SymbolBits(raw[3..]);
        places := group + rest;
        SpeltAppend(Group(a, b, c), group, Symbols(raw[3..]), rest);
        assert places[4..] == rest;
      }
    }
  }

  lemma GroupLength(a: byte, b: byte, c: byte)
    ensures |Group(a, b, c)| == 4
  {
  }

  lemma SpeltNothing()
    ensures Spelt("", [])
  {
    SymbolIs(0);
  }

  // ---------------------------------------------------------------- stored password hashes

  /** Algorithm, iterations, salt and digest between dollar signs. */
  ghost predicate StoredFields(stored: string, iterations: string, salt: string, digest: string) {
    && stored == "pbkdf2_sha256" + ("$" + (iterations + ("$" + (salt + ("$" + digest)))))
    && '$' !in iterations && '$' !in salt
  }

  lemma {:induction false} CutSplits(s: string)
    ensures Cut(s).Some? ==> var (a, b) := Cut(s).value; '$' !in a && s == a + ("$" + b)
  {
    if s != [] && s[0] != '$' {
      CutSplits(s[1..]);
      if Cut(s).Some? {
        var (a, b) := Cut(s[1..]).value;
        assert s == [s[0]] + (a + ("$" + b));
      }
    }
  }

  lemma CutIff(s: string, a: string, b: string)
    ensures Cut(s) == Some((a, b)) <==> '$' !in a && s == a + ("$" + b)
  {
    CutSplits(s);
    if '$' !in a && s == a + ("$" + b) {
      assert s == a + "$" + b;
      CutAt(a, b);
    }
  }

  lemma StoredIsCut(stored: string) returns (iterations: string, salt: string, digest: string)
    requires ReadStored(stored).Some?
    ensures StoredFields(stored, iterations, salt, digest)
    ensures var f := ReadStored(stored).value;
      ReadInt(iterations) == Some(f.iterations) && Decode(salt) == Some(f.salt) && Decode(digest) == Some(f.digest)
  {
    hide ReadInt, Decode, Cut;
    var first := Cut(stored).value;
    var second := Cut(first.1).value;
    var third := Cut(second.1).value;
    CutSplits(stored);
    CutSplits(first.1);
    CutSplits(second.1);
    iterations, salt, digest := second.0, third.0, third.1;
  }

  lemma FieldsAreRead(stored: string, iterations: string, salt: string, digest: string)
    requires StoredFields(stored, iterations, salt, digest)
    ensures ReadStored(stored) ==
      if ReadInt(iterations).Some? && Decode(salt).Some? && Decode(digest).Some? then
        Some(Stored(ReadInt(iterations).value, Decode(salt).value, Decode(digest).value))
      else None
  {
    hide ReadInt, Decode, Cut;
    var third := salt + ("$" + digest);
    var second := iterations + ("$" + third);
    CutIff(stored, "pbkdf2_sha256", "$"[1..] + second);
    assert "$"[1..] + second == second;
    CutIff(second, iterations, third);
    CutIff(third, salt, digest);
  }

  /** A stored text verifies a password if and only if it has the four fields, names the algorithm, and the key
      derived with its iteration count and salt is its digest. */
  lemma VerifiesIff(derive: Derivation, password: string, stored: string)
    ensures VerifyPasswordHash(derive, password, stored) == Ok(true) <==>
      exists iterations, salt, digest ::
        && StoredFields(stored, iterations, salt, digest)
        && ReadInt(iterations).Some? && Decode(salt).Some? && Decode(digest).Some?
        && derive(password, Decode(salt).value, ReadInt(iterations).value) == Decode(digest)
  {
    hide ReadInt, Decode, ReadStored, StoredFields;
    if ReadStored(stored).Some? {
      var iterations, salt, digest := StoredIsCut(stored);
    }
    forall iterations, salt, digest | StoredFields(stored, iterations, salt, digest)
      ensures ReadStored(stored) ==
        if ReadInt(iterations).Some? && Decode(salt).Some? && Decode(digest).Some? then
          Some(Stored(ReadInt(iterations).value, Decode(salt).value, Decode(digest).value))
        else None
    {
      FieldsAreRead(stored, iterations, salt, digest);
    }
  }
}
