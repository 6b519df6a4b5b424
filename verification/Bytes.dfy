/** Byte strings, 32-byte digests and a hash function that is left uninterpreted. */
module Bytes {

  type byte = x: int | 0 <= x < 0x100
  type u32 = x: int | 0 <= x < 0x1_0000_0000

  /** The zero digest, which is also the root of an empty tree. */
  const ZERO_DIGEST: seq<byte> :=
    [0, 0, 0, 0, 0, 0, 0, 0, 0, 0, 0, 0, 0, 0, 0, 0, 0, 0, 0, 0, 0, 0, 0, 0, 0, 0, 0, 0, 0, 0, 0, 0]

  type Digest = d: seq<byte> | |d| == 32 witness seq(32, _ => 0)

  /** Two digests, one after the other. */
  function Join(x: Digest, y: Digest): (b: seq<byte>)
    ensures |b| == 64 && b[..32] == x && b[32..] == y
  {
    var left: seq<byte>, right: seq<byte> := x, y;
    left + right
  }

  /** SHA-256 as any function from byte strings to digests; nothing else is assumed of it. */
  type Sha256 = seq<byte> -> Digest

  ghost predicate IsCollision(h: Sha256, c: (seq<byte>, seq<byte>)) {
    c.0 != c.1 && h(c.0) == h(c.1)
  }

  const NO_COLLISION: (seq<byte>, seq<byte>) := ([], [])

  // ---------------------------------------------------------------- little-endian words

  function ToLe32(x: u32): (b: seq<byte>)
    ensures |b| == 4
  {
    [x % 0x100, x / 0x100 % 0x100, x / 0x1_0000 % 0x100, x / 0x100_0000]
  }

  function FromLe32(b: seq<byte>): (x: u32)
    requires |b| == 4
  {
    var b0: int, b1: int, b2: int, b3: int := b[0], b[1], b[2], b[3];
    b0 + 0x100 * b1 + 0x1_0000 * b2 + 0x100_0000 * b3
  }

  /** The lowest byte first. */
  lemma LowestByteFirst(b0: byte, b1: byte, b2: byte, b3: byte)
    ensures ToLe32(b0 as int + 0x100 * (b1 as int + 0x100 * (b2 as int + 0x100 * (b3 as int)))) == [b0, b1, b2, b3]
  {
    assert FromLe32([b0, b1, b2, b3]) == b0 as int + 0x100 * (b1 as int + 0x100 * (b2 as int + 0x100 * (b3 as int)));
    LeRoundTripBack([b0, b1, b2, b3]);
  }

  lemma LeRoundTrip(x: u32)
    ensures FromLe32(ToLe32(x)) == x
  {
    assert x / 0x1_0000 == x / 0x100 / 0x100 && x / 0x100_0000 == x / 0x1_0000 / 0x100;
  }

  lemma LeRoundTripBack(b: seq<byte>)
    requires |b| == 4
    ensures ToLe32(FromLe32(b)) == b
  {
    var x := FromLe32(b);
    var b1: int, b2: int, b3: int := b[1], b[2], b[3];
    assert x / 0x100 == b1 + 0x100 * b2 + 0x1_0000 * b3;
    assert x / 0x1_0000 == b2 + 0x100 * b3;
    assert x / 0x100_0000 == b3;
  }

  // ---------------------------------------------------------------- lists of digests

  function Concat(ds: seq<Digest>): (b: seq<byte>)
    ensures |b| == 32 * |ds|
  {
    if ds == [] then [] else Concat(ds[..|ds| - 1]) + ds[|ds| - 1]
  }

  lemma {:induction false} ConcatIsInjective(ds: seq<Digest>, es: seq<Digest>)
    requires Concat(ds) == Concat(es)
    ensures ds == es
  {
    assert |ds| == |es|;
    if ds != [] {
      var n := 32 * (|ds| - 1);
      assert Concat(ds)[..n] == Concat(ds[..|ds| - 1]) && Concat(es)[..n] == Concat(es[..|es| - 1]);
      assert Concat(ds)[n..] == ds[|ds| - 1] && Concat(es)[n..] == es[|es| - 1];
      ConcatIsInjective(ds[..|ds| - 1], es[..|es| - 1]);
      assert ds == ds[..|ds| - 1] + [ds[|ds| - 1]] && es == es[..|es| - 1] + [es[|es| - 1]];
    }
  }
}
