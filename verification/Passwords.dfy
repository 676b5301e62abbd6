/** Stored password hashes: how they are printed, and how they are verified. */
module Passwords {
  import opened Common
  import opened Encodings

  const HASH_ALGORITHM := "pbkdf2_sha256"

  /** The key derivation of a password, a salt and an iteration count; None where the library raises. */
  type Derivation = (string, seq<byte>, int) -> Option<seq<byte>>

  datatype Error = EmptyPassword | DerivationRaised

  function HashPassword(derive: Derivation, password: string, iterations: int, salt: seq<byte>): Result<string, Error> {
    if password == [] then Err(EmptyPassword)
    else
      var digest := derive(password, salt, iterations);
      if digest.None? then Err(DerivationRaised)
      else Ok(HASH_ALGORITHM + "$" + (PrintInt(iterations) + "$" + (Encode(salt) + "$" + Encode(digest.value))))
  }

  /** The text before and after the first dollar sign. */
  function Cut(s: string): Option<(string, string)> {
    if s == [] then None
    else if s[0] == '$' then Some(("", s[1..]))
    else
      var rest := Cut(s[1..]);
      if rest.None? then None else Some(([s[0]] + rest.value.0, rest.value.1))
  }

  datatype Stored = Stored(iterations: int, salt: seq<byte>, digest: seq<byte>)

  /** The fields of a stored hash; None for another algorithm and for every text that cannot be read. The
      last field may hold further dollar signs, which its decoder skips. */
  function ReadStored(stored: string): Option<Stored> {
    var first := Cut(stored);
    if first.None? then None
    else
      var second := Cut(first.value.1);
      if second.None? then None
      else
        var third := Cut(second.value.1);
        if third.None? || first.value.0 != HASH_ALGORITHM then None
        else
          var iterations := ReadInt(second.value.0);
          var salt := Decode(third.value.0);
          var digest := Decode(third.value.1);
          if iterations.None? || salt.None? || digest.None? then None
          else Some(Stored(iterations.value, salt.value, digest.value))
  }

  /** The derivation is outside the guarded block: an iteration count it refuses raises. */
  function VerifyPasswordHash(derive: Derivation, password: string, stored: string): Result<bool, Error> {
    var fields := ReadStored(stored);
    if fields.None? then Ok(false)
    else
      var actual := derive(password, fields.value.salt, fields.value.iterations);
      if actual.None? then Err(DerivationRaised) else Ok(actual.value == fields.value.digest)
  }

  lemma {:induction false} CutAt(a: string, b: string)
    requires forall c | c in a :: c != '$'
    ensures Cut(a + "$" + b) == Some((a, b))
  {
    var s := a + "$" + b;
    if a == [] {
      assert s[1..] == b;
    } else {
      assert s[1..] == a[1..] + "$" + b;
      assert s[0] == a[0] && a == [a[0]] + a[1..];
      assert a[0] in a && forall c | c in a[1..] :: c in a;
      CutAt(a[1..], b);
    }
  }

  /** A printed hash is read as the fields it was printed from. */
  lemma PrintedHashIsRead(derive: Derivation, password: string, iterations: int, salt: seq<byte>)
    requires HashPassword(derive, password, iterations, salt).Ok?
    ensures ReadStored(HashPassword(derive, password, iterations, salt).value) ==
      Some(Stored(iterations, salt, derive(password, salt, iterations).value))
  {
    hide ReadInt, PrintInt, Decode, Encode, Cut;
    var digest := derive(password, salt, iterations).value;
    var third := Encode(salt) + "$" + Encode(digest);
    var second := PrintInt(iterations) + "$" + third;
    PrintIntThenRead(iterations);
    EncodeThenDecode(salt);
    EncodeThenDecode(digest);
    CutAt(HASH_ALGORITHM, second);
    CutAt(PrintInt(iterations), third);
    CutAt(Encode(salt), Encode(digest));
  }

  /** A password passes against a printed hash exactly when it derives the same key. */
  lemma PassesIffSameKey(derive: Derivation, password: string, iterations: int, salt: seq<byte>, other: string)
    requires HashPassword(derive, password, iterations, salt).Ok?
    ensures VerifyPasswordHash(derive, other, HashPassword(derive, password, iterations, salt).value) == Ok(true)
      <==> derive(other, salt, iterations) == derive(password, salt, iterations)
  {
    hide ReadStored, HashPassword;
    PrintedHashIsRead(derive, password, iterations, salt);
    HashedIsDerived(derive, password, iterations, salt);
  }

  lemma HashedIsDerived(derive: Derivation, password: string, iterations: int, salt: seq<byte>)
    requires HashPassword(derive, password, iterations, salt).Ok?
    ensures derive(password, salt, iterations).Some?
  {
  }

  /** Every printed hash verifies its own password. */
  lemma HashVerifiesItsPassword(derive: Derivation, password: string, iterations: int, salt: seq<byte>)
    requires HashPassword(derive, password, iterations, salt).Ok?
    ensures VerifyPasswordHash(derive, password, HashPassword(derive, password, iterations, salt).value) == Ok(true)
  {
    hide HashPassword, VerifyPasswordHash;
    PassesIffSameKey(derive, password, iterations, salt, password);
  }
}
