/**
 * How the credential store persists a byte array. On write the bytes are
 * turned into a JSON array of numbers (`Array.from` on a Uint8Array); on read
 * the values of that array are fed back to the Uint8Array constructor, which
 * converts each number with ToUint8 (the integer modulo 2^8).
 */
module Codec {

  /** One element of a Uint8Array. */
  newtype Byte = x: int | 0 <= x < 256

  type Bytes = seq<Byte>

  /** A JSON array of integers, as the key/value store keeps it. */
  type Numbers = seq<int>

  /** ToUint8 of the ECMAScript typed-array constructor, for an integer argument. */
  function ToUint8(n: int): Byte
  {
    (n % 256) as Byte
  }

  /** `Array.from(value)`: what a write puts into the store. */
  function ToNumbers(b: Bytes): (a: Numbers)
    ensures |a| == |b|
  {
    seq(|b|, i requires 0 <= i < |b| => b[i] as int)
  }

  /** `new Uint8Array(Object.values(result))`: what a read makes of a stored array. */
  function FromNumbers(a: Numbers): (b: Bytes)
    ensures |b| == |a|
  {
    seq(|a|, i requires 0 <= i < |a| => ToUint8(a[i]))
  }

  /** Every element of the array is a number a byte can hold. */
  predicate InByteRange(a: Numbers)
  {
    forall i :: 0 <= i < |a| ==> 0 <= a[i] < 256
  }

  /** Reading back what was written gives the same bytes. */
  lemma RoundTrip(b: Bytes)
    ensures FromNumbers(ToNumbers(b)) == b
  {
  }

  /**
   * A stored array survives a read followed by a write exactly when all of
   * its numbers are bytes; any other number is wrapped modulo 256 by the read.
   */
  lemma RewriteKeepsIff(a: Numbers)
    ensures ToNumbers(FromNumbers(a)) == a <==> InByteRange(a)
  {
  }
}
