/**
 * Salted password derivation (`UserExtensions.Encrypt` in Models/User.cs).
 * PBKDF2 and the base64 codec are library code; the model takes them as
 * function parameters and relies only on the facts `Lawful` lists.
 */
module Credentials {
  import opened Wrappers

  newtype uint8 = x: int | 0 <= x < 256

  /** Bytes drawn for a fresh salt (128 bits). */
  const SALT_LENGTH: nat := 16
  /** Bytes of derived key (256 bits). */
  const KEY_LENGTH: nat := 32
  /** PBKDF2 iteration count. */
  const ITERATIONS: nat := 10000

  datatype HashAlgorithmName = MD5 | SHA1 | SHA256 | SHA384 | SHA512

  /**
   * `Rfc2898DeriveBytes.Pbkdf2(password, salt, iterations, algorithm, length)`,
   * `Convert.ToBase64String` and `Convert.FromBase64String` (None where it
   * throws a format exception).
   */
  datatype Primitives = Primitives(
    pbkdf2: (string, seq<uint8>, nat, HashAlgorithmName, nat) -> seq<uint8>,
    toBase64: seq<uint8> -> string,
    fromBase64: string -> Option<seq<uint8>>)
  {
    /** Facts of the library the model relies on. */
    ghost predicate Lawful() {
      && fromBase64("") == Some([])
      && toBase64([]) == ""
      && (forall b :: fromBase64(toBase64(b)) == Some(b))
      && (forall pw, s, n, h, len :: |pbkdf2(pw, s, n, h, len)| == len)
    }
  }

  /** What `Encrypt` returns: `(Password, Salt)`, the encoded hash and the encoded salt. */
  datatype Credential = Credential(password: string, salt: string)

  /** The exception `Encrypt` can throw: the supplied salt is not base64. */
  datatype EncryptError = MalformedSalt

  /** The 32-byte PBKDF2 key, HMAC-SHA1 with 10000 iterations over the salt bytes. */
  function DerivedKey(c: Primitives, password: string, salt: seq<uint8>): seq<uint8> {
    c.pbkdf2(password, salt, ITERATIONS, SHA1, KEY_LENGTH)
  }

  /** The stored hash text: the derived key in base64. */
  function Hash(c: Primitives, password: string, salt: seq<uint8>): string {
    c.toBase64(DerivedKey(c, password, salt))
  }

  /**
   * What `Encrypt(password, salt)` computes, with `entropy` standing for the
   * bytes the random generator yields: a null salt is replaced by the
   * encoding of 16 fresh bytes; any other salt is decoded, used, and returned
   * as given.
   */
  function Encrypted(c: Primitives, password: string, salt: Option<string>, entropy: seq<uint8>)
    : Result<Credential, EncryptError>
  {
    match salt
    case None => Ok(Credential(Hash(c, password, entropy), c.toBase64(entropy)))
    case Some(s) =>
      match c.fromBase64(s)
      case None => Err(MalformedSalt)
      case Some(bytes) => Ok(Credential(Hash(c, password, bytes), s))
  }

  /**
   * `Encrypt`, step by step: the salt buffer is 16 zero bytes for a null
   * salt and the decoded salt otherwise; when the salt is null or empty the
   * generator fills the buffer and the salt becomes its encoding.
   */
  method Encrypt(c: Primitives, password: string, salt: Option<string>, entropy: seq<uint8>)
    returns (r: Result<Credential, EncryptError>)
    requires c.Lawful()
    requires |entropy| == SALT_LENGTH
    ensures r == Encrypted(c, password, salt, entropy)
  {
    var salted: array<uint8>;
    if salt.None? {
      salted := new uint8[SALT_LENGTH];
    } else {
      var decoded := c.fromBase64(salt.value);
      if decoded.None? {
        return Err(MalformedSalt);
      }
      var bytes := decoded.value;
      salted := new uint8[|bytes|](i requires 0 <= i < |bytes| => bytes[i]);
      assert salted[..] == bytes;
    }
    var saltText := salt;
    if IsNullOrEmpty(salt) {
      // rng.GetBytes(salted): the empty salt decodes to an empty buffer, so it draws nothing
      assert salted.Length <= |entropy|;
      forall i | 0 <= i < salted.Length {
        salted[i] := entropy[i];
      }
      assert salted[..] == entropy[..salted.Length];
      assert salt.None? ==> salted[..] == entropy;
      assert salt.Some? ==> salted[..] == c.fromBase64(salt.value).value;
      saltText := Some(c.toBase64(salted[..]));
    }
    var hashed := c.toBase64(c.pbkdf2(password, salted[..], ITERATIONS, SHA1, KEY_LENGTH));
    return Ok(Credential(hashed, saltText.value));
  }

  /** The derived key is always 32 bytes. */
  lemma DerivedKeyLength(c: Primitives, password: string, salt: seq<uint8>)
    requires c.Lawful()
    ensures |DerivedKey(c, password, salt)| == KEY_LENGTH
  {
  }

  /**
   * A supplied, well-formed salt comes back unchanged and the result does
   * not depend on the generator: `Encrypt` is a function of (password, salt),
   * which is what lets the sign-in handler compare hashes for equality.
   */
  lemma SuppliedSaltIsKept(c: Primitives, password: string, s: string, e1: seq<uint8>, e2: seq<uint8>)
    requires c.fromBase64(s).Some?
    ensures Encrypted(c, password, Some(s), e1) == Encrypted(c, password, Some(s), e2)
    ensures Encrypted(c, password, Some(s), e1) == Ok(Credential(Hash(c, password, c.fromBase64(s).value), s))
  {
  }

  /** A supplied salt that is not base64 makes `Encrypt` throw, whatever the password. */
  lemma MalformedSaltThrows(c: Primitives, password: string, s: string, entropy: seq<uint8>)
    requires c.fromBase64(s).None?
    ensures Encrypted(c, password, Some(s), entropy) == Err(MalformedSalt)
  {
  }

  /** A null salt yields the encoding of exactly the 16 generated bytes, and the hash is taken over them. */
  lemma FreshSalt(c: Primitives, password: string, entropy: seq<uint8>)
    requires c.Lawful() && |entropy| == SALT_LENGTH
    ensures Encrypted(c, password, None, entropy).Ok?
    ensures c.fromBase64(Encrypted(c, password, None, entropy).value.salt) == Some(entropy)
    ensures Encrypted(c, password, None, entropy).value.password == Hash(c, password, entropy)
  {
  }

  /**
   * A credential created with a fresh salt is reproduced when the same
   * password is derived again with the stored salt.
   */
  lemma ProvisionThenDerive(c: Primitives, password: string, e1: seq<uint8>, e2: seq<uint8>)
    requires c.Lawful()
    ensures Encrypted(c, password, Some(Encrypted(c, password, None, e1).value.salt), e2)
            == Encrypted(c, password, None, e1)
  {
  }
}
