/**
 * The credential manager as the program runs it: a handle on the key/value
 * store that is absent until it is loaded, the persisted entries behind it,
 * and the session's "authenticated" flag. Reading or writing before the
 * store is loaded throws; that is the `StoreNotInitialised` error here.
 */
module Auth {
  import opened Wrappers
  import opened Codec
  import opened Credentials

  datatype Error = StoreNotInitialised

  /** `generateSalt`: 16 bytes from the platform's random source, of which nothing else is known. */
  method GenerateSalt() returns (salt: Bytes)
    ensures |salt| == SaltLength
  {
    ghost var zeros := seq(SaltLength, _ => 0 as Byte);
    assert |zeros| == SaltLength;
    salt :| |salt| == SaltLength;
  }

  class AuthManager {
    /** The key derivation and digest the manager was given; see module Credentials. */
    const derive: Kdf
    const digest: Digest

    /** The entries of the loaded store; meaningful only once `initialised`. */
    var store: Entries
    /** Whether the store handle has been loaded (it is null before). */
    var initialised: bool
    /** The session flag `isAuthenticated`. */
    var authenticated: bool

    constructor (derive: Kdf, digest: Digest)
      ensures this.derive == derive && this.digest == digest
      ensures !initialised && !authenticated
    {
      this.derive := derive;
      this.digest := digest;
      store := map[];
      initialised := false;
      authenticated := false;
    }

    /** `initialiseStore`: load the store; `persisted` is what the store file holds. */
    method InitialiseStore(persisted: Entries)
      modifies this
      ensures initialised && store == persisted
      ensures authenticated == old(authenticated)
    {
      store := persisted;
      initialised := true;
    }

    /** `getStoreValue`: throws before the store is loaded; a missing key reads as null. */
    function GetStoreValue(key: string): (r: Result<Option<Bytes>, Error>)
      reads this
      ensures r == Failure(StoreNotInitialised) <==> !initialised
      ensures r == Success(None) <==> initialised && key !in store
      ensures r.Success? && r.value.Some? ==>
        key in store && |r.value.value| == |store[key]| &&
        forall i :: 0 <= i < |store[key]| ==> r.value.value[i] as int == store[key][i] % 256
    {
      if !initialised then Failure(StoreNotInitialised)
      else
        Success(Lookup(store, key))
    }

    /** `setStoreValue`: throws before the store is loaded, otherwise stores `Array.from(value)`. */
    method SetStoreValue(key: string, value: Bytes) returns (r: Outcome<Error>)
      modifies this`store
      ensures r == Fail(StoreNotInitialised) <==> !initialised
      ensures initialised ==> store == old(store)[key := ToNumbers(value)]
      ensures !initialised ==> store == old(store)
      ensures initialised ==> GetStoreValue(key) == Success(Some(value))
      ensures forall k :: k != key ==> Lookup(store, k) == Lookup(old(store), k)
    {
      if !initialised {
        return Fail(StoreNotInitialised);
      }
      store := store[key := ToNumbers(value)];
      LookupAfterWrite(old(store), key, value, key);
      forall k | k != key
        ensures Lookup(store, k) == Lookup(old(store), k)
      {
        LookupAfterWrite(old(store), key, value, k);
      }
      r := Pass;
    }

    /**
     * `setupPassword`: reuse the stored salt or generate one, store the salt
     * and the verifier digest, and mark the session authenticated. `salt` is
     * the salt it used.
     */
    method SetupPassword(password: string) returns (r: Outcome<Error>, ghost salt: Bytes)
      modifies this
      ensures r == Fail(StoreNotInitialised) <==> !old(initialised)
      ensures !old(initialised) ==> store == old(store) && authenticated == old(authenticated)
      ensures old(initialised) ==>
        && (SaltKey in old(store) ==> Lookup(old(store), SaltKey) == Some(salt))
        && (SaltKey !in old(store) ==> |salt| == SaltLength)
        && store == AfterSetup(old(store), derive, digest, password, salt)
        && authenticated
      ensures old(initialised) ==> Accepts(store, derive, digest, password)
      ensures initialised == old(initialised)
    {
      var stored := GetStoreValue(SaltKey);
      if stored.Failure? {
        return Fail(stored.error), [];
      }
      var used: Bytes;
      match stored.value {
        case Some(s) => used := s;
        case None => used := GenerateSalt();
      }
      var key := derive(password, used);
      var hash := digest(key);
      var written := SetStoreValue(SaltKey, used);
      written := SetStoreValue(HashKey, hash);
      authenticated := true;
      SetupThenVerify(old(store), derive, digest, password, used);
      r, salt := Pass, used;
    }

    /**
     * `verifyPassword`: false when the salt or the digest is missing; otherwise
     * recompute the verifier and compare; raise the flag only on a match.
     */
    method VerifyPassword(password: string) returns (r: Result<bool, Error>)
      modifies this`authenticated
      ensures r == Failure(StoreNotInitialised) <==> !initialised
      ensures initialised ==> r == Success(Accepts(store, derive, digest, password))
      ensures SaltKey !in store ==> r != Success(true)
      ensures HashKey !in store ==> r != Success(true)
      ensures authenticated == (old(authenticated) || r == Success(true))
    {
      var storedSalt := GetStoreValue(SaltKey);
      if storedSalt.Failure? {
        return Failure(storedSalt.error);
      }
      if storedSalt.value.None? {
        return Success(false);
      }
      var key := derive(password, storedSalt.value.value);
      var hash := digest(key);
      var storedHash := GetStoreValue(HashKey);
      if storedHash.value.None? {
        return Success(false);
      }
      var hashView := hash;
      var storedView := storedHash.value.value;
      var matched := Compare.Matches(hashView, storedView);
      Compare.MatchesIsEquality(hashView, storedView);
      if matched {
        authenticated := true;
      }
      r := Success(matched);
    }
  }

  /**
   * A session from start to finish: a check before the store is loaded throws;
   * once loaded, setting a password makes it check; setting a second password
   * keeps the salt and makes the second one check.
   */
  method PasswordLifecycle(derive: Kdf, digest: Digest, persisted: Entries, p: string, q: string)
    returns (early: Result<bool, Error>, first: Result<bool, Error>, second: Result<bool, Error>,
             saltBefore: Result<Option<Bytes>, Error>, saltAfter: Result<Option<Bytes>, Error>)
    ensures early == Failure(StoreNotInitialised)
    ensures first == Success(true) && second == Success(true)
    ensures saltBefore.Success? && saltBefore.value.Some? && saltAfter == saltBefore
    ensures SaltKey !in persisted ==> |saltBefore.value.value| == SaltLength
  {
    var m := new AuthManager(derive, digest);
    early := m.VerifyPassword(p);
    assert early == Failure(StoreNotInitialised);
    m.InitialiseStore(persisted);
    var _, salt1 := m.SetupPassword(p);
    ghost var afterFirst := m.store;
    SetupStoresVerifier(persisted, derive, digest, p, salt1);
    first := m.VerifyPassword(p);
    saltBefore := m.GetStoreValue(SaltKey);
    assert saltBefore == Success(Lookup(afterFirst, SaltKey));
    var _, salt2 := m.SetupPassword(q);
    SetupSaltRule(afterFirst, derive, digest, q, salt2);
    second := m.VerifyPassword(q);
    saltAfter := m.GetStoreValue(SaltKey);
    assert saltAfter == Success(Lookup(m.store, SaltKey));
  }
}
