/**
  * Byte strings as Node's Buffer sees them: little-endian integers, big-endian 32-bit words,
  * clamped slices, and the rounding that Number() applies to a 64-bit integer.
  */
module Bytes {
  import opened Wrappers

  type byte = b: int | 0 <= b < 0x100
  type u32 = w: int | 0 <= w < 0x1_0000_0000

  const MAX_SAFE: nat := 0x20_0000_0000_0000  // 2^53
  const U64: nat := 0x1_0000_0000_0000_0000

  /** A 32-byte digest, and the same digest as eight big-endian words. */
  type Hash256 = h: seq<byte> | |h| == 32 witness seq(32, _ => 0)
  type Words = w: seq<u32> | |w| == 8 witness seq(8, _ => 0)

  /** Errors thrown while proof data is read or searched. */
  datatype DataError = OutOfRange | BadLength(len: nat) | NoVaultOutput

  function Zeros(n: nat): (z: seq<byte>)
    ensures |z| == n
  {
    seq(n, _ => 0)
  }

  // ---------------------------------------------------------------- slices

  function Min(a: int, b: int): int {
    if a < b then a else b
  }

  /** Buffer.slice: both ends are clamped to the buffer, and an inverted range is empty. */
  function Slice(buf: seq<byte>, from: nat, to: nat): (s: seq<byte>)
    ensures from <= to <= |buf| ==> s == buf[from..to]
    ensures from <= |buf| < to ==> s == buf[from..]
    ensures from > |buf| || to < from ==> s == []
    ensures from <= to ==> |s| == Min(to, |buf|) - Min(from, |buf|)
  {
    var hi := Min(to, |buf|);
    if from < hi then buf[from..hi] else []
  }

  lemma SliceJoin(buf: seq<byte>, from: nat, mid: nat, to: nat)
    requires from <= mid <= to <= |buf|
    ensures Slice(buf, from, mid) + Slice(buf, mid, to) == Slice(buf, from, to)
  {
  }

  /** `s` stands in `buf` at offset `off`. */
  ghost predicate At(buf: seq<byte>, off: nat, s: seq<byte>) {
    off + |s| <= |buf| && forall k :: 0 <= k < |s| ==> s[k] == buf[off + k]
  }

  lemma AtSlice(buf: seq<byte>, off: nat, s: seq<byte>)
    ensures At(buf, off, s) <==> off + |s| <= |buf| && Slice(buf, off, off + |s|) == s
  {
  }

  lemma AtConcat(buf: seq<byte>, off: nat, a: seq<byte>, b: seq<byte>)
    ensures At(buf, off, a + b) <==> At(buf, off, a) && At(buf, off + |a|, b)
  {
    if At(buf, off, a + b) {
      assert forall k :: 0 <= k < |a| ==> (a + b)[k] == a[k];
      assert forall k :: 0 <= k < |b| ==> (a + b)[|a| + k] == b[k];
    }
  }

  // ---------------------------------------------------------------- little endian

  function Pow256(k: nat): (p: nat)
    ensures p > 0
  {
    if k == 0 then 1 else 256 * Pow256(k - 1)
  }

  function LE(n: nat, width: nat): (s: seq<byte>)
    ensures |s| == width
  {
    if width == 0 then [] else [n % 256] + LE(n / 256, width - 1)
  }

  /** The number the `width` bytes from `off` on denote. */
  function FromLE(buf: seq<byte>, off: nat, width: nat): nat
    requires off + width <= |buf|
    decreases width
  {
    if width == 0 then 0 else buf[off] + 256 * FromLE(buf, off + 1, width - 1)
  }

  lemma {:induction false} FromLEOfLE(buf: seq<byte>, off: nat, n: nat, width: nat)
    requires n < Pow256(width) && At(buf, off, LE(n, width))
    ensures FromLE(buf, off, width) == n
    decreases width
  {
    if width > 0 {
      AtConcat(buf, off, [n % 256], LE(n / 256, width - 1));
      FromLEOfLE(buf, off + 1, n / 256, width - 1);
      assert [n % 256][0] == buf[off];
    }
  }

  lemma {:induction false} LEOfFromLE(buf: seq<byte>, off: nat, width: nat)
    requires off + width <= |buf|
    ensures At(buf, off, LE(FromLE(buf, off, width), width))
    decreases width
  {
    if width > 0 {
      LEOfFromLE(buf, off + 1, width - 1);
      var n := FromLE(buf, off, width);
      assert n / 256 == FromLE(buf, off + 1, width - 1) && n % 256 == buf[off];
      AtConcat(buf, off, [n % 256], LE(n / 256, width - 1));
    }
  }

  /** The first byte counts least. */
  lemma FromLEPlaces(buf: seq<byte>, off: nat)
    ensures off + 1 <= |buf| ==> FromLE(buf, off, 1) == buf[off]
    ensures off + 2 <= |buf| ==> FromLE(buf, off, 2) == buf[off] + 0x100 * (buf[off + 1] as int)
    ensures off + 4 <= |buf| ==>
              FromLE(buf, off, 4)
              == buf[off] + 0x100 * (buf[off + 1] as int) + 0x1_0000 * (buf[off + 2] as int)
                 + 0x100_0000 * (buf[off + 3] as int)
    ensures off + 8 <= |buf| ==> FromLE(buf, off, 8) == FromLE(buf, off, 4) + 0x1_0000_0000 * FromLE(buf, off + 4, 4)
  {
    if off + 8 <= |buf| {
      assert FromLE(buf, off + 3, 5) == buf[off + 3] + 0x100 * FromLE(buf, off + 4, 4);
      assert FromLE(buf, off + 2, 6) == buf[off + 2] + 0x100 * FromLE(buf, off + 3, 5);
      assert FromLE(buf, off + 1, 7) == buf[off + 1] + 0x100 * FromLE(buf, off + 2, 6);
      FromLEPlaces4(buf, off);
    } else if off + 4 <= |buf| {
      FromLEPlaces4(buf, off);
    }
    if off + 2 <= |buf| {
      assert FromLE(buf, off + 1, 1) == buf[off + 1] + 0x100 * FromLE(buf, off + 2, 0);
    }
  }

  lemma FromLEPlaces4(buf: seq<byte>, off: nat)
    requires off + 4 <= |buf|
    ensures FromLE(buf, off, 4)
         == buf[off] + 0x100 * (buf[off + 1] as int) + 0x1_0000 * (buf[off + 2] as int)
            + 0x100_0000 * (buf[off + 3] as int)
  {
    assert FromLE(buf, off + 4, 0) == 0;
    assert FromLE(buf, off + 3, 1) == buf[off + 3];
    assert FromLE(buf, off + 2, 2) == buf[off + 2] + 0x100 * FromLE(buf, off + 3, 1);
    assert FromLE(buf, off + 1, 3) == buf[off + 1] + 0x100 * FromLE(buf, off + 2, 2);
  }

  lemma Widths()
    ensures Pow256(1) == 0x100 && Pow256(2) == 0x1_0000 && Pow256(4) == 0x1_0000_0000 && Pow256(8) == U64
  {
    assert Pow256(3) == 0x100_0000;
    assert Pow256(5) == 0x100_0000_0000;
    assert Pow256(6) == 0x1_0000_0000_0000;
    assert Pow256(7) == 0x100_0000_0000_0000;
  }

  /** readUIntLE for 1, 2, 4 and 8 bytes: throws when the field does not lie inside the buffer. */
  function ReadLE(buf: seq<byte>, off: nat, width: nat): (r: Result<nat, DataError>) {
    if off + width <= |buf| then Ok(FromLE(buf, off, width)) else Err(OutOfRange)
  }

  lemma ReadLEAt(buf: seq<byte>, off: nat, n: nat, width: nat)
    requires n < Pow256(width) && At(buf, off, LE(n, width))
    ensures ReadLE(buf, off, width) == Ok(n)
  {
    FromLEOfLE(buf, off, n, width);
  }

  // ---------------------------------------------------------------- Number()

  /** Distance between neighbouring doubles around n. */
  function Spacing(n: nat): (u: nat)
    ensures u > 0
    ensures n < MAX_SAFE ==> u == 1
    ensures n >= MAX_SAFE ==> u <= n
  {
    if n < MAX_SAFE then 1 else 2 * Spacing(n / 2)
  }

  /** Number(bigint): round to a 53-bit significand, ties to even. */
  function ToNumber(n: nat): (r: nat)
    ensures n < MAX_SAFE ==> r == n
  {
    if n < MAX_SAFE then n
    else
      var u := Spacing(n);
      var rest: nat := n % u;
      if 2 * rest < u || (2 * rest == u && n / u % 2 == 0) then n - rest else n - rest + u
  }

  predicate PowerOfTwo(u: nat) {
    u == 1 || (u > 1 && u % 2 == 0 && PowerOfTwo(u / 2))
  }

  lemma {:induction false} SpacingMeans(n: nat)
    requires n >= 0x10_0000_0000_0000
    ensures PowerOfTwo(Spacing(n))
    ensures Spacing(n) * 0x10_0000_0000_0000 <= n < Spacing(n) * 0x20_0000_0000_0000
  {
    if n >= MAX_SAFE {
      SpacingMeans(n / 2);
      assert Spacing(n) / 2 == Spacing(n / 2);
    }
  }

  /** Rounding to a multiple of u: the nearest one, and of two equally near ones the even one. */
  lemma RoundMeans(n: nat, u: nat, r: nat) returns (q: nat)
    requires u > 0
    requires r == if 2 * (n % u) < u || (2 * (n % u) == u && n / u % 2 == 0) then n - n % u else n - n % u + u
    ensures r == u * q && 0 - u <= 2 * (r - n) <= u
    ensures 2 * (r - n) == u || 2 * (n - r) == u ==> q % 2 == 0
  {
    var rest, low := n % u, n / u;
    assert n == u * low + rest;
    q := if 2 * rest < u || (2 * rest == u && low % 2 == 0) then low else low + 1;
    assert u * (low + 1) == u * low + u;
  }

  /** Up to 2^53 a number is exact. From there on it is the nearest multiple of the power of two that leaves 53
      significant bits, and of two equally near ones the even multiple. */
  lemma ToNumberMeans(n: nat) returns (u: nat, q: nat)
    ensures n < 0x20_0000_0000_0000 ==> ToNumber(n) == n
    ensures n >= 0x20_0000_0000_0000 ==>
              && PowerOfTwo(u) && 0x10_0000_0000_0000 * u <= n < 0x20_0000_0000_0000 * u
              && ToNumber(n) == u * q
              && 0 - u <= 2 * (ToNumber(n) - n) <= u
              && (2 * (ToNumber(n) - n) == u || 2 * (n - ToNumber(n)) == u ==> q % 2 == 0)
  {
    u, q := 1, n;
    if n >= 0x20_0000_0000_0000 {
      u := Spacing(n);
      SpacingMeans(n);
      q := RoundMeans(n, u, ToNumber(n));
      hide ToNumber, Spacing;
    }
  }

  // ---------------------------------------------------------------- big-endian words

  function Word(s: seq<byte>): u32
    requires |s| == 4
  {
    ((s[0] as int * 256 + s[1]) * 256 + s[2]) * 256 + s[3]
  }

  function WordBytes(w: u32): (s: seq<byte>)
    ensures |s| == 4
  {
    var high := w / 0x100;
    var higher := high / 0x100;
    [higher / 0x100, higher % 0x100, high % 0x100, w % 0x100]
  }

  lemma WordOfBytes(s: seq<byte>)
    requires |s| == 4
    ensures WordBytes(Word(s)) == s
  {
    var high := (s[0] as int * 256 + s[1]) * 256 + s[2];
    DivStep(high, s[3]);
    DivStep(s[0] as int * 256 + s[1], s[2]);
    DivStep(s[0], s[1]);
  }

  lemma DivStep(n: nat, b: byte)
    ensures (n * 256 + b) / 256 == n && (n * 256 + b) % 256 == b
  {
  }

  lemma BytesOfWord(w: u32)
    ensures Word(WordBytes(w)) == w
  {
  }

  function BytesToWords(s: seq<byte>): (ws: seq<u32>)
    requires |s| % 4 == 0
    ensures 4 * |ws| == |s|
  {
    if s == [] then [] else [Word(s[..4])] + BytesToWords(s[4..])
  }

  function WordsToBytes(ws: seq<u32>): (s: seq<byte>)
    ensures |s| == 4 * |ws|
  {
    if ws == [] then [] else WordBytes(ws[0]) + WordsToBytes(ws[1..])
  }

  lemma {:induction false} WordsOfBytes(s: seq<byte>)
    requires |s| % 4 == 0
    ensures WordsToBytes(BytesToWords(s)) == s
  {
    if s != [] {
      WordOfBytes(s[..4]);
      WordsOfBytes(s[4..]);
      assert BytesToWords(s)[1..] == BytesToWords(s[4..]);
    }
  }

  lemma {:induction false} BytesOfWords(ws: seq<u32>)
    ensures BytesToWords(WordsToBytes(ws)) == ws
  {
    if ws != [] {
      BytesOfWord(ws[0]);
      BytesOfWords(ws[1..]);
      assert WordsToBytes(ws)[..4] == WordBytes(ws[0]);
      assert WordsToBytes(ws)[4..] == WordsToBytes(ws[1..]);
    }
  }

  lemma {:induction false} WordsSnoc(s: seq<byte>, last: seq<byte>)
    requires |s| % 4 == 0 && |last| == 4
    ensures BytesToWords(s + last) == BytesToWords(s) + [Word(last)]
  {
    if s == [] {
      assert s + last == last && last[..4] == last;
    } else {
      WordsSnoc(s[4..], last);
      assert (s + last)[..4] == s[..4] && (s + last)[4..] == s[4..] + last;
    }
  }

  /** Word k is made of bytes 4k to 4k + 3, the first of which counts most. */
  lemma {:induction false} WordsAt(s: seq<byte>, k: nat)
    requires |s| % 4 == 0 && 4 * k < |s|
    ensures BytesToWords(s)[k]
         == 0x100_0000 * (s[4 * k] as int) + 0x1_0000 * (s[4 * k + 1] as int) + 0x100 * (s[4 * k + 2] as int)
            + s[4 * k + 3]
  {
    if k > 0 {
      WordsAt(s[4..], k - 1);
      assert BytesToWords(s)[k] == BytesToWords(s[4..])[k - 1];
    }
  }

  /** The readUInt32BE loop over a 32-byte buffer. */
  method ReadWordsBE(buf: seq<byte>) returns (words: Words)
    requires |buf| == 32
    ensures words == ToWords(buf)
  {
    var read: seq<u32> := [];
    var i := 0;
    while i < 32
      invariant 0 <= i <= 32 && i % 4 == 0
      invariant read == BytesToWords(buf[..i])
    {
      WordsSnoc(buf[..i], buf[i..i + 4]);
      assert buf[..i] + buf[i..i + 4] == buf[..i + 4];
      read := read + [Word(buf[i..i + 4])];
      i := i + 4;
    }
    assert buf[..32] == buf;
    return read;
  }

  function ToWords(h: Hash256): Words {
    BytesToWords(h)
  }

  function FromWords(w: Words): Hash256 {
    WordsToBytes(w)
  }

  function Reverse(s: seq<byte>): (r: seq<byte>)
    ensures |r| == |s|
    ensures forall k :: 0 <= k < |s| ==> r[k] == s[|s| - 1 - k]
  {
    seq(|s|, k requires 0 <= k < |s| => s[|s| - 1 - k])
  }

  /** Buffer.reverse(), in place. */
  method ReverseInPlace(b: array<byte>)
    modifies b
    ensures b[..] == Reverse(old(b[..]))
  {
    var n, i := b.Length, 0;
    while i < n / 2
      invariant 0 <= i <= n / 2
      invariant forall k :: 0 <= k < i ==> b[k] == old(b[n - 1 - k]) && b[n - 1 - k] == old(b[k])
      invariant forall k :: i <= k < n - i ==> b[k] == old(b[k])
    {
      b[i], b[n - 1 - i] := b[n - 1 - i], b[i];
      i := i + 1;
    }
  }

  lemma ReverseTwice(s: seq<byte>)
    ensures Reverse(Reverse(s)) == s
  {
  }
}
