/** SHA-256 as an uninterpreted, deterministic function, and its hex form.

    Every member that hashes takes a `Runtime` value: the raw digest function
    (`hashlib.sha256(s.encode()).digest()`) and Python's formatting of an amount.
    Nothing is assumed about either, so every property proved here holds for
    every hash function and every formatting. */
module Hashing {

  newtype Byte = x: int | 0 <= x < 256

  type Bytes = seq<Byte>

  datatype Runtime = Runtime(sha256: string -> Bytes, formatAmount: int -> string)

  /** A lower-case hexadecimal digit. */
  function HexChar(d: int): (c: char)
    requires 0 <= d < 16
    ensures ('0' <= c <= '9') || ('a' <= c <= 'f')
  {
    if d < 10 then (48 + d) as char else (87 + d) as char
  }

  predicate IsHexString(s: string)
  {
    forall i :: 0 <= i < |s| ==> ('0' <= s[i] <= '9') || ('a' <= s[i] <= 'f')
  }

  /** `bytes.hex()`: two lower-case hex digits per byte. */
  function Hex(b: Bytes): (s: string)
    ensures |s| == 2 * |b|
    ensures IsHexString(s)
  {
    if |b| == 0 then ""
    else [HexChar(b[0] as int / 16), HexChar(b[0] as int % 16)] + Hex(b[1..])
  }

  lemma {:induction false} HexInjective(a: Bytes, b: Bytes)
    ensures Hex(a) == Hex(b) ==> a == b
    decreases |a|
  {
    if Hex(a) == Hex(b) && |a| > 0 {
      var x, y := a[0] as int, b[0] as int;
      assert HexChar(x / 16) == Hex(a)[0] == HexChar(y / 16);
      assert HexChar(x % 16) == Hex(a)[1] == HexChar(y % 16);
      assert x == y;
      assert Hex(a)[2..] == Hex(a[1..]) && Hex(b)[2..] == Hex(b[1..]);
      HexInjective(a[1..], b[1..]);
      assert a == [a[0]] + a[1..];
      assert b == [b[0]] + b[1..];
    }
  }

  /** `hashlib.sha256(s.encode()).hexdigest()`. */
  function HexDigest(rt: Runtime, s: string): (h: string)
    ensures |h| == 2 * |rt.sha256(s)| && IsHexString(h)
  {
    Hex(rt.sha256(s))
  }

  /** Hex digests of two strings agree exactly when their raw digests do. */
  lemma HexDigestAgreesWithDigest(rt: Runtime, s: string, t: string)
    ensures HexDigest(rt, s) == HexDigest(rt, t) <==> rt.sha256(s) == rt.sha256(t)
  {
    HexInjective(rt.sha256(s), rt.sha256(t));
  }
}
