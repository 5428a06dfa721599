# Credential manager of the secure file-sharing app

This project models the credential manager of a desktop file-sharing application, written in TypeScript over Tauri. The manager never stores a password or a key. It stores only two entries in a key/value store: a 16-byte salt under `auth.salt`, and under `auth.hash` the SHA-256 digest of the AES-GCM key that PBKDF2 derives from the password and that salt. It also keeps a session flag, `isAuthenticated`.

Files:

- `wrappers.dfy`: `Option`, `Result` and `Outcome`, used for a missing entry (JavaScript `null`) and for a thrown error.
- `codec.dfy`: how a byte array goes into the store and comes back. A write uses `Array.from` and stores a JSON array of numbers. A read uses `Object.values` and then the `Uint8Array` constructor, which reduces every number modulo 256.
- `compare.dfy`: the check that the digests match. It first compares `byteLength`, then runs `every` over the fresh digest. It is proved equal to sequence equality.
- `credentials.dfy`: the rules as pure functions over the store's entries, with the lemmas about them:
  - `Lookup`: a read.
  - `AfterSetup`: the store after `setupPassword`.
  - `Accepts`: the answer of `verifyPassword`.
- `auth.dfy`: the module itself as a class `AuthManager`. Its fields are the loaded entries, whether the store handle is loaded, and the session flag. Each method is proved against the functions of `credentials.dfy`. The file also holds `GenerateSalt` and a whole-session client, `PasswordLifecycle`.

The two WebCrypto steps are injected into the class as Dafny function values and are not interpreted:
- key derivation: PBKDF2 with HMAC-SHA-256 and 100000 iterations (section 5.2 of RFC 8018), producing a 256-bit AES-GCM key that is then exported raw;
- the SHA-256 digest (FIPS 180-4).

Because they are Dafny functions, both are deterministic, and the round-trip properties rely on nothing else. `GenerateSalt` is nondeterministic: all that is known of its result is its length.

The comparison is not constant-time: `every` stops at the first differing byte, and `&&` skips the scan entirely when the lengths differ. `Compare.ComparisonStopsAtFirstMismatch` states how many bytes are examined. A check succeeds iff the candidate has the same digest under the stored salt as the password last set up, which is weaker than being that password; `Credentials.AcceptsAfterSetupIff` states exactly that.

## Model

| member | source | states |
|---|---|---|
| Codec.ToNumbers | src/lib/+AuthManager.ts:23 | `Array.from` yields one number per byte |
| Codec.FromNumbers | src/lib/+AuthManager.ts:18 | reading a stored array yields one byte per number |
| Codec.RoundTrip | src/lib/+AuthManager.ts:18-23 | reading back what a write stored gives the same bytes |
| Codec.RewriteKeepsIff | src/lib/+AuthManager.ts:18-23 | a stored array is unchanged by a read followed by a write iff all of its numbers are bytes |
| Compare.EveryAgrees | src/lib/+AuthManager.ts:79 | `every` from an index holds iff the stored view has the same byte at every later index of the fresh digest |
| Compare.MatchesIsEquality | src/lib/+AuthManager.ts:78-79 | the length check plus `every` holds iff the two byte sequences are equal |
| Compare.EveryAloneAcceptsExtensions | src/lib/+AuthManager.ts:78-79 | without the length check, `every` would accept any stored array that extends the digest |
| Compare.ProbesUpToMismatch | src/lib/+AuthManager.ts:79 | `every` calls its callback once per index up to and including the first mismatch |
| Compare.ProbesOfAgreement | src/lib/+AuthManager.ts:79 | on equal digests `every` examines every byte |
| Compare.ComparisonStopsAtFirstMismatch | src/lib/+AuthManager.ts:78-79 | on equal lengths, with the first difference at index k, the comparison examines exactly k + 1 bytes and stops there |
| Credentials.Lookup | src/lib/+AuthManager.ts:17-18 | a read of a loaded store gives null exactly when the key is absent; a present entry, even an empty one, yields bytes |
| Credentials.AfterSetup | src/lib/+AuthManager.ts:57-64 | setup leaves both auth entries present and every other key unchanged |
| Credentials.Accepts | src/lib/+AuthManager.ts:67-81 | a check succeeds iff salt and digest are both stored and the digest of the key derived from the password and the stored salt equals the stored digest; a missing entry gives false |
| Credentials.LookupAfterWrite | src/lib/+AuthManager.ts:15-25 | after a write of `v` under `k`, a read of `k` gives `v` and a read of any other key gives what it gave before |
| Credentials.SetupSaltRule | src/lib/+AuthManager.ts:58-62 | setup keeps an existing salt and stores a generated one only when none was stored |
| Credentials.SetupStoresVerifier | src/lib/+AuthManager.ts:58-63 | after setup the stored digest is the digest of the key derived from the password and the stored salt |
| Credentials.AcceptsAfterSetupIff | src/lib/+AuthManager.ts:57-81 | after setup with `p`, a check of `q` succeeds iff `q` and `p` have the same digest under that salt |
| Credentials.SetupThenVerify | src/lib/+AuthManager.ts:57-81 | right after setup with a password, checking that password succeeds |
| Credentials.SecondSetup | src/lib/+AuthManager.ts:57-65 | a second setup keeps the salt, does not depend on the salt it would generate, and makes the new password check |
| Auth.GenerateSalt | src/lib/+AuthManager.ts:27-30 | a generated salt is 16 bytes |
| Auth.AuthManager.constructor | src/lib/+AuthManager.ts:4-9 | the store handle starts unloaded and the session unauthenticated |
| Auth.AuthManager.InitialiseStore | src/lib/+AuthManager.ts:11-13 | loading makes the handle available with the persisted entries and leaves the flag alone |
| Auth.AuthManager.GetStoreValue | src/lib/+AuthManager.ts:15-19 | throws iff the store is not loaded; null iff the key is absent; otherwise each stored number modulo 256 |
| Auth.AuthManager.SetStoreValue | src/lib/+AuthManager.ts:21-25 | throws iff the store is not loaded, and then writes nothing; otherwise the key reads back as the value and no other key changes |
| Auth.AuthManager.SetupPassword | src/lib/+AuthManager.ts:57-65 | throws and changes nothing when the store is not loaded; otherwise reuses the stored salt or uses a 16-byte fresh one, leaves the store as `AfterSetup` says, raises the flag, and the password then checks |
| Auth.AuthManager.VerifyPassword | src/lib/+AuthManager.ts:67-82 | throws iff the store is not loaded; otherwise answers `Accepts` and never throws for a missing salt or digest; writes nothing to the store; the flag afterwards is its old value or the match, so it is never lowered |
| Auth.PasswordLifecycle | src/lib/+AuthManager.ts:11-82 | a check before loading throws; after loading, setup then check succeeds; a second setup keeps the salt and the second password checks |

## Left out

- The insides of PBKDF2, SHA-256, AES-GCM key export and the `TextEncoder` step are foreign WebCrypto calls. They are function values supplied to the class. Nothing is assumed about them beyond being functions, not even the 32-byte key and digest lengths.
- `Auth.GenerateSalt`: randomness is not modelled; only the 16-byte length of the result is stated.
- The Svelte `writable` flag is modelled as a plain boolean; its subscribers are not modelled.
- The store file (`authentication.json`) is not modelled: `Store.load` is given its contents as a parameter, and the durability of `save()` after each write is left out.
- Values under the auth keys other than JSON arrays of integers are not modelled. These could only come from a hand-edited store file: plain objects, strings, fractional numbers, or falsy scalars that would read as null.
- Codec.FromNumbers: stored integers are exact here, but the program reads each number as a double. An integer of magnitude above 2^53 is rounded before the modulo-256 reduction, so such an entry can read as a different byte than the model gives.
- Auth.AuthManager.GetStoreValue: its "each stored number modulo 256" holds only for integers of magnitude up to 2^53, for the reason given for Codec.FromNumbers.
- Failures thrown by WebCrypto or by the store plugin are not modelled. The only error modelled is the "Store not initialised" throw.
- Interleaving of concurrent async calls between their `await`s is not modelled; every operation runs to completion.
- `encrypt_file` and `run` in src-tauri/src/lib.rs are not part of this model: file I/O, a foreign AES-256-GCM sealing call, a random nonce, a random UUID, and application wiring.
- src-tauri/src/main.rs is not part of this model: it is only an entry point.
- src/lib/+FileManger.ts is not part of this model: a file dialog and an IPC call.
- src/lib/+NetworkUtils.ts is not part of this model: an IPC call with a loopback-address fallback.
- The older src/+AuthManager.ts is not part of this model: unused store wrappers and a duplicate salt generator.
- The share-code lifecycle (creation, redemption, expiry, single use, network fallback) is not part of this model.
