/**
 * Symbolic stand-ins for the two foreign libraries the backend calls: bcrypt
 * (password hashing) and jsonwebtoken (token signing and verification).
 * Each is a concrete function that has exactly the properties the handlers rely
 * on, proved below as lemmas. Of the real algorithms only bcrypt's key
 * material is modelled (the password, a terminator, read cyclically for 72 units);
 * the cipher, the cost factor and the token format are not.
 */
module Crypto {
  import opened Wrappers
  import opened Strings

  /** bcrypt's key schedule reads exactly this many units of key material. */
  const PasswordLimit: nat := 72

  /** The terminator bcrypt appends to a password (for `$2a$` and `$2b$` salts) before reading it. */
  const Nul: char := '\0'

  /** A string holds no terminator character. */
  predicate NulFree(s: string) {
    forall i :: 0 <= i < |s| ==> s[i] != Nul
  }

  /** `n` units read cyclically from `key`, starting over at its first unit. */
  function Cycle(key: string, n: nat): (r: string)
    requires key != []
    ensures |r| == n
    ensures n <= |key| ==> r == key[..n]
    ensures |key| <= n ==> r[..|key|] == key
    decreases n
  {
    if n <= |key| then key[..n] else key + Cycle(key, n - |key|)
  }

  /**
   * The key material bcrypt derives from a password: the password followed by the
   * terminator, read cyclically for `PasswordLimit` units.
   */
  function Significant(password: string): (r: string)
    ensures |r| == PasswordLimit
    ensures |password| >= PasswordLimit ==> r == password[..PasswordLimit]
    ensures |password| < PasswordLimit ==> r[..|password|] == password && r[|password|] == Nul
  {
    var key := password + [Nul];
    assert |password| < PasswordLimit ==> key[|password|] == Nul;
    Cycle(key, PasswordLimit)
  }

  /**
   * A bcrypt digest, kept symbolic: a hash is a free constructor of the salt and
   * the key material of the secret, so it is observable only through `Compare`.
   */
  datatype Digest = Digest(salt: string, preimage: string)

  /** `bcrypt.hash(password, salt)`; the salt comes from `bcrypt.genSalt`, a random source. */
  function Hash(password: string, salt: string): (d: Digest)
    ensures d.salt == salt
    ensures |d.preimage| == PasswordLimit
  {
    Digest(salt, Significant(password))
  }

  /** `bcrypt.compare(password, digest)`: the password's key material is the one hashed. */
  predicate Compare(password: string, d: Digest): (r: bool)
    ensures r <==> d == Hash(password, d.salt)
  {
    d.preimage == Significant(password)
  }

  /**
   * A password matches its own hash, whatever the salt; another password matches
   * it exactly when the two give the same key material.
   */
  lemma CompareHash(password: string, other: string, salt: string)
    ensures Compare(password, Hash(password, salt))
    ensures Compare(other, Hash(password, salt)) <==> Significant(other) == Significant(password)
  {
  }

  /** Within a key without terminators, the terminator's position gives the password's length. */
  lemma {:induction false} SignificantNulFree(password: string, other: string)
    requires NulFree(password) && NulFree(other)
    requires |password| <= |other| <= PasswordLimit
    requires Significant(password) == Significant(other)
    ensures password == other
  {
    if |password| < PasswordLimit {
      assert password == Significant(password)[..|password|];
    }
  }

  /**
   * Passwords of at most 72 characters and no terminator are told apart exactly;
   * long ones sharing their first 72 characters collide.
   */
  lemma {:induction false} PasswordTruncation(password: string, other: string, salt: string)
    ensures (|password| <= PasswordLimit && |other| <= PasswordLimit && NulFree(password) && NulFree(other)) ==>
      (Compare(other, Hash(password, salt)) <==> other == password)
    ensures (|password| >= PasswordLimit && |other| >= PasswordLimit
             && password[..PasswordLimit] == other[..PasswordLimit]) ==> Compare(other, Hash(password, salt))
  {
    if |password| <= PasswordLimit && |other| <= PasswordLimit && NulFree(password) && NulFree(other)
       && Compare(other, Hash(password, salt)) {
      if |password| <= |other| {
        SignificantNulFree(password, other);
      } else {
        SignificantNulFree(other, password);
      }
    }
  }

  /** Reading a doubled key cyclically is reading the key cyclically. */
  lemma {:induction false} CycleDoubled(key: string, n: nat)
    requires key != []
    ensures Cycle(key + key, n) == Cycle(key, n)
    decreases n
  {
    if n > 2 * |key| {
      CycleDoubled(key, n - 2 * |key|);
      assert Cycle(key, n) == key + (key + Cycle(key, n - 2 * |key|));
    } else if n > |key| {
      assert Cycle(key, n) == key + key[..n - |key|];
      assert (key + key)[..n] == key + key[..n - |key|];
    }
  }

  /**
   * Because the key is the password and its terminator repeated, a password,
   * a terminator and the password again give the same key material as the
   * password alone, so each matches the other's digest; the empty password and
   * the one-terminator password are an instance.
   */
  lemma {:induction false} TerminatorCollision(password: string, salt: string)
    ensures Compare(password + [Nul] + password, Hash(password, salt))
    ensures Compare(password, Hash(password + [Nul] + password, salt))
    ensures Compare([Nul], Hash("", salt)) && Compare("", Hash([Nul], salt))
  {
    var q := password + [Nul];
    assert password + [Nul] + password + [Nul] == q + q;
    CycleDoubled(q, PasswordLimit);
    CycleDoubled([Nul], PasswordLimit);
    assert [Nul] + [Nul] == [Nul, Nul] && "" + [Nul] == [Nul];
  }

  /** Hashing one password under two salts gives two different digests that both match it. */
  lemma SaltsGiveDistinctDigests(password: string, salt1: string, salt2: string)
    requires salt1 != salt2
    ensures Hash(password, salt1) != Hash(password, salt2)
    ensures Compare(password, Hash(password, salt1)) && Compare(password, Hash(password, salt2))
  {
  }

  /** The fixed leading text of every token this service signs. */
  const TokenPrefix: string := "jwt."

  /**
   * `jwt.sign({ id }, secret, { expiresIn: '1h' })`, kept symbolic: the token is
   * the prefix followed by the id in decimal. The secret and expiry are not modelled.
   */
  function Sign(id: nat): (token: string)
    ensures token != "" && ' ' !in token
  {
    var digits := NatToDecimal(id);
    assert forall i :: 0 <= i < |digits| ==> digits[i] != ' ';
    TokenPrefix + digits
  }

  /** `jwt.verify(token, secret)`: the id of a token this service signed, or a failure (the library throws). */
  function Verify(token: string): (id: Option<nat>)
    ensures token == "" ==> id == None
  {
    if StartsWith(token, TokenPrefix) && IsCanonicalDecimal(token[|TokenPrefix|..])
    then Some(DecimalToNat(token[|TokenPrefix|..]))
    else None
  }

  /** A signed token verifies to the id it was signed for. */
  lemma VerifySign(id: nat)
    ensures Verify(Sign(id)) == Some(id)
  {
    StartsWithConcat(TokenPrefix, NatToDecimal(id));
    DecimalToNatOfNatToDecimal(id);
  }

  /** Only signed tokens verify: a token that verifies to `id` is the token signed for `id`. */
  lemma VerifyOnlySigned(token: string)
    ensures Verify(token).Some? ==> token == Sign(Verify(token).value)
  {
    if Verify(token).Some? {
      var digits := token[|TokenPrefix|..];
      NatToDecimalOfDecimalToNat(digits);
      assert token == TokenPrefix + digits;
    }
  }
}
