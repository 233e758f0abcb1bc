/** Fixed-width integers and the little-endian byte order used on both wires. */
module Bytes {

  type Byte = x: int | 0 <= x < 0x100
  type U16 = x: int | 0 <= x < 0x1_0000
  type U32 = x: int | 0 <= x < 0x1_0000_0000
  type I32 = x: int | -0x8000_0000 <= x < 0x8000_0000

  datatype Option<+T> = None | Some(value: T)

  /** The bytes of an ASCII literal. */
  function Ascii(s: string): (b: seq<Byte>)
    ensures |b| == |s| && forall i | 0 <= i < |s| && s[i] as int < 0x80 :: b[i] == s[i] as int
  {
    seq(|s|, i requires 0 <= i < |s| => s[i] as int % 0x100)
  }

  function Zeros(n: nat): (b: seq<Byte>)
    ensures |b| == n && forall i | 0 <= i < n :: b[i] == 0
  {
    seq(n, _ => 0)
  }

  lemma {:induction false} Assoc<T>(a: seq<T>, b: seq<T>, c: seq<T>)
    ensures a + (b + c) == a + b + c
  {
  }

  lemma {:induction false} PrefixAndRest<T>(s: seq<T>, n: nat)
    requires n <= |s|
    ensures s[..n] + s[n..] == s
  {
  }

  function Min(a: int, b: int): int {
    if a < b then a else b
  }

  /** How much a call moves of len offered: any count from one to all of it. */
  function Taken(n: nat, len: nat): (k: nat)
    requires len > 0
    ensures 1 <= k <= len && (1 <= n <= len ==> k == n)
  {
    if n < 1 then 1 else if n > len then len else n
  }

  function Le32(v: U32): (b: seq<Byte>)
    ensures |b| == 4
  {
    [v % 0x100, v / 0x100 % 0x100, v / 0x1_0000 % 0x100, v / 0x100_0000]
  }

  function FromLe32(b: seq<Byte>): U32
    requires |b| == 4
  {
    var b0: int, b1: int, b2: int, b3: int := b[0], b[1], b[2], b[3];
    b0 + b1 * 0x100 + b2 * 0x1_0000 + b3 * 0x100_0000
  }

  lemma {:induction false} Le32RoundTrip(v: U32)
    ensures FromLe32(Le32(v)) == v
  {
    var x: int := v;
    var high := x / 0x1_0000;
    assert x == x % 0x1_0000 + high * 0x1_0000;
    assert x % 0x1_0000 == x % 0x100 + x / 0x100 % 0x100 * 0x100;
    assert high == high % 0x100 + high / 0x100 * 0x100;
    assert high / 0x100 == x / 0x100_0000;
  }

  /** The first byte is the least significant one: each byte counts 256 times its predecessor. */
  lemma {:induction false} Le32IsLittleEndian(v: U32)
    ensures var b0: int, b1: int, b2: int, b3: int := Le32(v)[0], Le32(v)[1], Le32(v)[2], Le32(v)[3];
            v == b0 + 0x100 * b1 + 0x1_0000 * b2 + 0x100_0000 * b3
  {
    Le32RoundTrip(v);
  }

  /** A signed 32-bit value reinterpreted as unsigned, and back. */
  function AsU32(i: I32): U32 {
    if i < 0 then i + 0x1_0000_0000 else i
  }

  function AsI32(u: U32): I32 {
    if u < 0x8000_0000 then u else u - 0x1_0000_0000
  }

  /** Both numbers are the same modulo 2^32, which leaves no other choice. */
  lemma {:induction false} SameModulo(i: I32, u: U32)
    ensures u == AsU32(i) <==> (u - i) % 0x1_0000_0000 == 0
    ensures i == AsI32(u) <==> (u - i) % 0x1_0000_0000 == 0
  {
    var d: int := u - i;
    assert d % 0x1_0000_0000 == 0 <==> d == 0 || d == 0x1_0000_0000;
  }
}
