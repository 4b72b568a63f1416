/** CompactSize integers of the Bitcoin wire format, and the reader the proof service uses. */
module CompactSize {
  import opened Wrappers
  import opened Bytes

  function Encode(n: nat): (s: seq<byte>)
    requires n < U64
    ensures 1 <= |s| <= 9
  {
    if n < 0xfd then [n]
    else if n <= 0xffff then [0xfd] + LE(n, 2)
    else if n <= 0xffff_ffff then [0xfe] + LE(n, 4)
    else [0xff] + LE(n, 8)
  }

  /** The four forms: one byte, or a mark and two, four or eight bytes, the lowest first. */
  lemma EncodeBytes(n: nat)
    requires n < U64
    ensures n < 0xfd ==> Encode(n) == [n]
    ensures 0xfd <= n < 0x1_0000 ==> Encode(n) == [0xfd, n % 0x100, n / 0x100]
    ensures 0x1_0000 <= n < 0x1_0000_0000 ==>
              Encode(n) == [0xfe, n % 0x100, n / 0x100 % 0x100, n / 0x1_0000 % 0x100, n / 0x100_0000]
    ensures n >= 0x1_0000_0000 ==> |Encode(n)| == 9 && Encode(n)[0] == 0xff && FromLE(Encode(n), 1, 8) == n
  {
    if n < 0xfd {
    } else if n < 0x1_0000 {
      LEOfTwo(n);
    } else if n < 0x1_0000_0000 {
      LEOfFour(n);
    } else {
      Widths();
      assert At(Encode(n), 1, LE(n, 8));
      FromLEOfLE(Encode(n), 1, n, 8);
    }
  }

  lemma LEOfTwo(n: nat)
    requires n < 0x1_0000
    ensures LE(n, 2) == [n % 0x100, n / 0x100]
  {
    assert LE(n / 0x100, 1) == [n / 0x100 % 0x100] + LE(n / 0x100 / 0x100, 0);
  }

  lemma LEOfFour(n: nat)
    requires n < 0x1_0000_0000
    ensures LE(n, 4) == [n % 0x100, n / 0x100 % 0x100, n / 0x1_0000 % 0x100, n / 0x100_0000]
  {
    var a := n / 0x100;
    var b := a / 0x100;
    assert b == n / 0x1_0000 && b / 0x100 == n / 0x100_0000;
    assert LE(b, 2) == [b % 0x100, b / 0x100] by {
      LEOfTwo(b);
    }
    assert LE(a, 3) == [a % 0x100] + LE(b, 2);
  }

  datatype VarInt = VarInt(value: nat, size: nat)

  /** Reading past the end throws, also for the first byte: `undefined` falls through to the 64-bit read. */
  function ReadVarInt(buf: seq<byte>, off: nat): (r: Result<VarInt, DataError>)
    ensures r.Ok? ==> off + r.value.size <= |buf| && r.value.size >= 1
    ensures r.Ok? <==> off < |buf| && off + Width(buf[off]) <= |buf|
  {
    if off >= |buf| then Err(OutOfRange)
    else if buf[off] < 0xfd then Ok(VarInt(buf[off], 1))
    else if buf[off] == 0xfd then
      var v :- ReadLE(buf, off + 1, 2);
      Ok(VarInt(v, 3))
    else if buf[off] == 0xfe then
      var v :- ReadLE(buf, off + 1, 4);
      Ok(VarInt(v, 5))
    else
      var v :- ReadLE(buf, off + 1, 8);
      Ok(VarInt(ToNumber(v), 9))
  }

  function Width(first: byte): nat {
    if first < 0xfd then 1 else if first == 0xfd then 3 else if first == 0xfe then 5 else 9
  }

  /** The reader inverts the encoder whatever bytes follow; from 2^53 on it returns the nearest double. */
  lemma ReadEncoded(buf: seq<byte>, off: nat, n: nat)
    requires n < U64 && At(buf, off, Encode(n))
    ensures ReadVarInt(buf, off) == Ok(VarInt(ToNumber(n), |Encode(n)|))
    ensures n < MAX_SAFE ==> ReadVarInt(buf, off) == Ok(VarInt(n, |Encode(n)|))
  {
    Widths();
    if n < 0xfd {
      assert Encode(n)[0] == buf[off];
    } else {
      var width := |Encode(n)| - 1;
      AtConcat(buf, off, Encode(n)[..1], LE(n, width));
      assert Encode(n)[0] == buf[off];
      ReadLEAt(buf, off + 1, n, width);
    }
  }
}
