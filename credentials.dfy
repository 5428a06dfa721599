/**
 * The credential manager's rules, stated on the contents of the key/value
 * store. Only a salt (`auth.salt`) and a verifier digest (`auth.hash`) are
 * ever persisted; the password and the derived key never are.
 *
 * The two cryptographic steps are foreign calls and stay uninterpreted: a
 * key-derivation function (PBKDF2 with HMAC-SHA-256, 100000 iterations,
 * section 5.2 of RFC 8018, giving a 256-bit AES-GCM key, taken here as its
 * raw exported bytes) and a digest (SHA-256 of FIPS 180-4). Being Dafny
 * function values they are deterministic, which is all the rules rely on.
 */
module Credentials {
  import opened Wrappers
  import opened Codec
  import opened Compare

  const SaltKey: string := "auth.salt"
  const HashKey: string := "auth.hash"

  /** Length of a freshly generated salt, in bytes. */
  const SaltLength: nat := 16

  /** The contents of the key/value store: key to persisted JSON number array. */
  type Entries = map<string, Numbers>

  /** `deriveKey` followed by the raw export that `hashKey` performs. */
  type Kdf = (string, Bytes) -> Bytes

  /** The digest `hashKey` takes of the exported key. */
  type Digest = Bytes -> Bytes

  /** The read half of `getStoreValue` once the store is loaded: absent key gives null. */
  function Lookup(entries: Entries, key: string): (r: Option<Bytes>)
    ensures r.None? <==> key !in entries
    ensures r.Some? ==> |r.value| == |entries[key]|
  {
    if key in entries then Some(FromNumbers(entries[key])) else None
  }

  /** The verifier digest of `password` under `salt`. */
  function Verifier(derive: Kdf, digest: Digest, password: string, salt: Bytes): Bytes
  {
    digest(derive(password, salt))
  }

  /** The salt `setupPassword` uses: the stored one if any (even an empty one), else `generated`. */
  function SetupSalt(entries: Entries, generated: Bytes): Bytes
  {
    match Lookup(entries, SaltKey)
    case Some(salt) => salt
    case None => generated
  }

  /** The store after `setupPassword(password)`, `generated` being the salt it would generate. */
  function AfterSetup(entries: Entries, derive: Kdf, digest: Digest, password: string, generated: Bytes): (r: Entries)
    ensures SaltKey in r && HashKey in r
    ensures forall k :: k != SaltKey && k != HashKey ==> (k in r <==> k in entries)
    ensures forall k :: k in entries && k != SaltKey && k != HashKey ==> r[k] == entries[k]
  {
    var salt := SetupSalt(entries, generated);
    entries[SaltKey := ToNumbers(salt)][HashKey := ToNumbers(Verifier(derive, digest, password, salt))]
  }

  /** What `verifyPassword(password)` answers once the store is loaded. */
  function Accepts(entries: Entries, derive: Kdf, digest: Digest, password: string): (r: bool)
    ensures r <==>
      SaltKey in entries && HashKey in entries &&
      Verifier(derive, digest, password, FromNumbers(entries[SaltKey])) == FromNumbers(entries[HashKey])
  {
    match Lookup(entries, SaltKey)
    case None => false
    case Some(salt) =>
      var hash := Verifier(derive, digest, password, salt);
      match Lookup(entries, HashKey)
      case None => false
      case Some(stored) =>
        MatchesIsEquality(hash, stored);
        Matches(hash, stored)
  }

  /** Store round trip: a read after a write of `v` under `k` gives `v`, and other keys read as before. */
  lemma LookupAfterWrite(entries: Entries, k: string, v: Bytes, key: string)
    ensures Lookup(entries[k := ToNumbers(v)], key) == if key == k then Some(v) else Lookup(entries, key)
  {
    RoundTrip(v);
  }

  /** Salt reuse: an existing salt is kept, and a generated one is stored only when none was there. */
  lemma SetupSaltRule(entries: Entries, derive: Kdf, digest: Digest, password: string, generated: Bytes)
    ensures SaltKey in entries ==>
      Lookup(AfterSetup(entries, derive, digest, password, generated), SaltKey) == Lookup(entries, SaltKey)
    ensures SaltKey !in entries ==>
      Lookup(AfterSetup(entries, derive, digest, password, generated), SaltKey) == Some(generated)
  {
    var salt := SetupSalt(entries, generated);
    var e1 := entries[SaltKey := ToNumbers(salt)];
    LookupAfterWrite(entries, SaltKey, salt, SaltKey);
    LookupAfterWrite(e1, HashKey, Verifier(derive, digest, password, salt), SaltKey);
  }

  /** After setup the stored digest is the verifier of the password under the stored salt. */
  lemma SetupStoresVerifier(entries: Entries, derive: Kdf, digest: Digest, password: string, generated: Bytes)
    ensures var salt := SetupSalt(entries, generated);
      var after := AfterSetup(entries, derive, digest, password, generated);
      Lookup(after, SaltKey) == Some(salt) &&
      Lookup(after, HashKey) == Some(Verifier(derive, digest, password, salt))
  {
    var salt := SetupSalt(entries, generated);
    var e1 := entries[SaltKey := ToNumbers(salt)];
    LookupAfterWrite(entries, SaltKey, salt, SaltKey);
    LookupAfterWrite(e1, HashKey, Verifier(derive, digest, password, salt), SaltKey);
    LookupAfterWrite(e1, HashKey, Verifier(derive, digest, password, salt), HashKey);
  }

  /**
   * After setup with `password`, a check of `candidate` succeeds exactly when
   * the two have the same verifier under the salt setup used.
   */
  lemma AcceptsAfterSetupIff(entries: Entries, derive: Kdf, digest: Digest, password: string, generated: Bytes, candidate: string)
    ensures Accepts(AfterSetup(entries, derive, digest, password, generated), derive, digest, candidate) <==>
      Verifier(derive, digest, candidate, SetupSalt(entries, generated)) == Verifier(derive, digest, password, SetupSalt(entries, generated))
  {
    SetupStoresVerifier(entries, derive, digest, password, generated);
  }

  /** Round trip: right after setup with a password, checking that password succeeds. */
  lemma SetupThenVerify(entries: Entries, derive: Kdf, digest: Digest, password: string, generated: Bytes)
    ensures Accepts(AfterSetup(entries, derive, digest, password, generated), derive, digest, password)
  {
    AcceptsAfterSetupIff(entries, derive, digest, password, generated, password);
  }

  /**
   * A second setup keeps the first setup's salt, ignores the salt it would
   * generate, and makes the new password check.
   */
  lemma SecondSetup(entries: Entries, derive: Kdf, digest: Digest, p: string, q: string, generated1: Bytes, generated2: Bytes, generated3: Bytes)
    ensures var first := AfterSetup(entries, derive, digest, p, generated1);
      var second := AfterSetup(first, derive, digest, q, generated2);
      Lookup(second, SaltKey) == Lookup(first, SaltKey) &&
      second == AfterSetup(first, derive, digest, q, generated3) &&
      Accepts(second, derive, digest, q)
  {
    var first := AfterSetup(entries, derive, digest, p, generated1);
    SetupSaltRule(first, derive, digest, q, generated2);
    SetupThenVerify(first, derive, digest, q, generated2);
  }
}
