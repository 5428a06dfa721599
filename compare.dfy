/**
 * The byte comparison that decides a password check: the freshly computed
 * digest and the stored one must have the same byteLength, and then `every`
 * index of the fresh digest must hold the same byte as the stored one.
 */
module Compare {
  import opened Wrappers
  import opened Codec

  /** `storedView[idx]`: past its end a typed array yields undefined, which no byte equals. */
  function At(s: Bytes, i: nat): Option<Byte>
  {
    if i < |s| then Some(s[i]) else None
  }

  /** `h.every((val, idx) => val === s[idx])`, restricted to the indices from `from` on. */
  function Every(h: Bytes, s: Bytes, from: nat): bool
    requires from <= |h|
    decreases |h| - from
  {
    from == |h| || (Some(h[from]) == At(s, from) && Every(h, s, from + 1))
  }

  /** The whole comparison: equal byteLength, and then `every`. */
  function Matches(h: Bytes, s: Bytes): bool
  {
    |h| == |s| && Every(h, s, 0)
  }

  /** How many times `every` calls its callback from `from` on: it stops after the first false. */
  function Probes(h: Bytes, s: Bytes, from: nat): nat
    requires from <= |h|
    decreases |h| - from
  {
    if from == |h| then 0
    else if Some(h[from]) == At(s, from) then 1 + Probes(h, s, from + 1)
    else 1
  }

  /** Callback calls made by the whole comparison; none when the lengths differ, as `&&` short-circuits. */
  function ComparisonProbes(h: Bytes, s: Bytes): nat
  {
    if |h| == |s| then Probes(h, s, 0) else 0
  }

  /** `s` holds the byte of `h` at each index of `h` from `from` on. */
  ghost predicate AgreeFrom(h: Bytes, s: Bytes, from: nat)
  {
    forall i :: from <= i < |h| ==> At(s, i) == Some(h[i])
  }

  /** `every` from `from` holds exactly when `s` holds the byte of `h` at each index from `from` on. */
  lemma {:induction false} EveryAgrees(h: Bytes, s: Bytes, from: nat)
    requires from <= |h|
    ensures Every(h, s, from) <==> AgreeFrom(h, s, from)
    decreases |h| - from
  {
    if from < |h| {
      EveryAgrees(h, s, from + 1);
      if AgreeFrom(h, s, from) {
        assert At(s, from) == Some(h[from]);
        assert AgreeFrom(h, s, from + 1);
      }
    }
  }

  /** The length check plus `every` is exactly equality of the two byte sequences. */
  lemma MatchesIsEquality(h: Bytes, s: Bytes)
    ensures Matches(h, s) <==> h == s
  {
    EveryAgrees(h, s, 0);
    if |h| == |s| && AgreeFrom(h, s, 0) {
      forall i | 0 <= i < |h|
        ensures h[i] == s[i]
      {
        assert At(s, i) == Some(h[i]);
      }
    }
  }

  /** Without the length check, `every` alone would accept any stored array that extends the digest. */
  lemma EveryAloneAcceptsExtensions(h: Bytes, t: Bytes)
    ensures Every(h, h + t, 0)
  {
    EveryAgrees(h, h + t, 0);
  }

  lemma {:induction false} ProbesUpToMismatch(h: Bytes, s: Bytes, from: nat, k: nat)
    requires from <= k < |h| && k < |s| && h[k] != s[k]
    requires forall i :: from <= i < k ==> h[i] == s[i]
    ensures Probes(h, s, from) == k - from + 1
    decreases k - from
  {
    if from < k {
      ProbesUpToMismatch(h, s, from + 1, k);
    }
  }

  lemma {:induction false} ProbesOfAgreement(h: Bytes, from: nat)
    requires from <= |h|
    ensures Probes(h, h, from) == |h| - from
    decreases |h| - from
  {
    if from < |h| {
      ProbesOfAgreement(h, from + 1);
    }
  }

  /**
   * The comparison is not a full scan: on equal lengths it stops right after
   * the first differing byte.
   */
  lemma ComparisonStopsAtFirstMismatch(h: Bytes, s: Bytes, k: nat)
    requires |h| == |s| && k < |h| && h[k] != s[k]
    requires forall i :: 0 <= i < k ==> h[i] == s[i]
    ensures ComparisonProbes(h, s) == k + 1
  {
    ProbesUpToMismatch(h, s, 0, k);
  }
}
