/** Bytes, little-endian integers and the two text decodings the format uses. */
module Bytes {

  type byte = b: int | 0 <= b < 256

  /** A 32-bit word. IEEE-754 single-precision samples are kept as these
      opaque words: the reader copies, pads and reorders them, and never
      computes with them. */
  type Word = w: int | 0 <= w < 0x1_0000_0000

  function Pow256(n: nat): (r: nat)
    ensures r >= 1
  {
    if n == 0 then 1 else 256 * Pow256(n - 1)
  }

  lemma Pow256Values()
    ensures Pow256(4) == 0x1_0000_0000
    ensures Pow256(8) == 0x1_0000_0000_0000_0000
  {
    assert Pow256(2) == 0x1_0000;
    assert Pow256(4) == 0x1_0000_0000;
    assert Pow256(6) == 0x1_0000_0000_0000;
  }

  /** `int.from_bytes(b, 'little')`; for exactly 4 or 8 bytes it is also what
      `struct.unpack('<I')` and `struct.unpack('<Q')` return. */
  function LE(b: seq<byte>): (r: nat)
    ensures r < Pow256(|b|)
  {
    if b == [] then 0 else b[0] + 256 * LE(b[1..])
  }

  /** The `n`-byte little-endian encoding of `x`, reduced modulo 256^n. */
  function EncodeLE(x: nat, n: nat): (r: seq<byte>)
    ensures |r| == n
  {
    if n == 0 then [] else [x % 256] + EncodeLE(x / 256, n - 1)
  }

  lemma {:induction false} DecodeEncodeLE(x: nat, n: nat)
    requires x < Pow256(n)
    ensures LE(EncodeLE(x, n)) == x
  {
    if n > 0 {
      DecodeEncodeLE(x / 256, n - 1);
      var e := EncodeLE(x, n);
      assert e[1..] == EncodeLE(x / 256, n - 1);
    }
  }

  lemma {:induction false} EncodeDecodeLE(b: seq<byte>)
    ensures EncodeLE(LE(b), |b|) == b
  {
    if b != [] {
      EncodeDecodeLE(b[1..]);
      assert (b[0] + 256 * LE(b[1..])) / 256 == LE(b[1..]);
    }
  }

  /** One sample word from exactly four bytes. */
  function U32(b: seq<byte>): Word
    requires |b| == 4
  {
    Pow256Values();
    LE(b)
  }

  /** `np.frombuffer(b, '<f4')` / `struct.unpack('<ff…f')`: consecutive
      4-byte groups as words. */
  function Words(b: seq<byte>): (r: seq<Word>)
    requires |b| % 4 == 0
    ensures |r| == |b| / 4
    ensures forall k :: 0 <= k < |r| ==> r[k] == U32(b[4 * k..4 * k + 4])
  {
    seq(|b| / 4, k requires 0 <= k < |b| / 4 => U32(b[4 * k..4 * k + 4]))
  }

  function EncodeWords(ws: seq<Word>): (r: seq<byte>)
    ensures |r| == 4 * |ws|
  {
    if ws == [] then [] else EncodeLE(ws[0], 4) + EncodeWords(ws[1..])
  }

  lemma {:induction false} WordsEncodeWords(ws: seq<Word>)
    ensures Words(EncodeWords(ws)) == ws
  {
    if ws != [] {
      WordsEncodeWords(ws[1..]);
      var b := EncodeWords(ws);
      var rest := EncodeWords(ws[1..]);
      assert b == EncodeLE(ws[0], 4) + rest;
      var w := Words(b);
      forall k | 0 <= k < |ws| ensures w[k] == ws[k] {
        if k == 0 {
          assert b[0..4] == EncodeLE(ws[0], 4);
          Pow256Values();
          DecodeEncodeLE(ws[0], 4);
        } else {
          assert b[4 * k..4 * k + 4] == rest[4 * (k - 1)..4 * (k - 1) + 4];
          assert Words(rest)[k - 1] == ws[1..][k - 1];
        }
      }
    }
  }

  /** ASCII decoding succeeds exactly when no byte is 128 or above. */
  predicate IsAscii(b: seq<byte>) {
    forall k :: 0 <= k < |b| ==> b[k] < 128
  }

  /** Latin-1 decoding (`decode('latin-1')`, `''.join(map(chr, b))`): one
      character per byte, with the byte's value as code point. ASCII decoding
      of an ASCII byte string gives the same characters. */
  function Chars(b: seq<byte>): (r: string)
    ensures |r| == |b|
    ensures forall k :: 0 <= k < |b| ==> r[k] as int == b[k]
  {
    seq(|b|, k requires 0 <= k < |b| => b[k] as char)
  }

  /** Latin-1 encoding of a string whose code points are all below 256. */
  function Latin1(s: string): (r: seq<byte>)
    requires forall k :: 0 <= k < |s| ==> s[k] as int < 256
    ensures |r| == |s|
    ensures Chars(r) == s
  {
    seq(|s|, k requires 0 <= k < |s| => s[k] as int)
  }
}
