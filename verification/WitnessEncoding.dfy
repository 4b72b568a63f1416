/** The covenant service's two CompactSize writers and its witness-stack encoder. */
module WitnessEncoding {
  import opened Wrappers
  import opened Bytes
  import CompactSize
  import T = Transactions
  import P = BitcoinProof

  /** writeUIntLE of `width` bytes at `off`. */
  method WriteLE(b: array<byte>, n: nat, off: nat, width: nat)
    requires off + width <= b.Length && n < Pow256(width)
    modifies b
    ensures b[..off] == old(b[..off]) && b[off + width..] == old(b[off + width..])
    ensures b[off..off + width] == LE(n, width)
  {
    var rest, i := n, 0;
    while i < width
      invariant 0 <= i <= width
      invariant b[..off] == old(b[..off]) && b[off + width..] == old(b[off + width..])
      invariant b[off..off + i] + LE(rest, width - i) == LE(n, width)
    {
      ghost var done := b[off..off + i];
      b[off + i] := rest % 256;
      assert b[off..off + i + 1] == done + [rest % 256];
      rest := rest / 256;
      i := i + 1;
    }
    assert LE(rest, 0) == [];
  }

  /** varInt: three branches, so a length of 2^32 or more makes writeUInt32LE throw. */
  method VarInt(n: nat) returns (r: Result<seq<byte>, DataError>)
    requires n < U64
    ensures r == if n < 0x1_0000_0000 then Ok(CompactSize.Encode(n)) else Err(OutOfRange)
  {
    Widths();
    if n < 0xfd {
      return Ok([n]);
    }
    if n <= 0xffff {
      var b := new byte[3](_ => 0);
      b[0] := 0xfd;
      WriteLE(b, n, 1, 2);
      assert b[..] == b[..1] + b[1..3] && b[..1] == [0xfd];
      return Ok(b[..]);
    }
    if n >= 0x1_0000_0000 {
      return Err(OutOfRange);
    }
    var b := new byte[5](_ => 0);
    b[0] := 0xfe;
    WriteLE(b, n, 1, 4);
    assert b[..] == b[..1] + b[1..5] && b[..1] == [0xfe];
    return Ok(b[..]);
  }

  /** The encoder's own writer covers all four widths. */
  method VarIntOfStack(n: nat) returns (s: seq<byte>)
    requires n < U64
    ensures s == CompactSize.Encode(n)
  {
    Widths();
    if n < 0xfd {
      return [n];
    }
    var width := if n < 0x1_0000 then 2 else if n < 0x1_0000_0000 then 4 else 8;
    var b := new byte[1 + width](_ => 0);
    b[0] := if n < 0x1_0000 then 0xfd else if n < 0x1_0000_0000 then 0xfe else 0xff;
    WriteLE(b, n, 1, width);
    assert b[..] == b[..1] + b[1..1 + width] + b[1 + width..];
    return b[..];
  }

  lemma {:induction false} ItemsSnoc(items: seq<seq<byte>>, last: seq<byte>)
    requires (forall item :: item in items ==> |item| < MAX_SAFE) && |last| < MAX_SAFE
    ensures T.Items(items + [last]) == T.Items(items) + (CompactSize.Encode(|last|) + last)
  {
    hide CompactSize.Encode;
    if items == [] {
      assert items + [last] == [last];
      assert T.Items([last]) == (CompactSize.Encode(|last|) + last) + T.Items([]);
    } else {
      ItemsSnoc(items[1..], last);
      assert (items + [last])[0] == items[0] && (items + [last])[1..] == items[1..] + [last];
      var first, end := CompactSize.Encode(|items[0]|) + items[0], CompactSize.Encode(|last|) + last;
      assert first + (T.Items(items[1..]) + end) == first + T.Items(items[1..]) + end;
    }
  }

  method EncodeWitnessStack(stack: seq<seq<byte>>) returns (buf: seq<byte>)
    requires T.ValidStack(stack)
    ensures buf == T.Stack(stack)
  {
    hide CompactSize.Encode;
    buf := [];
    var count := VarIntOfStack(|stack|);
    buf := buf + count;
    for i := 0 to |stack|
      invariant buf == CompactSize.Encode(|stack|) + T.Items(stack[..i])
    {
      var len := VarIntOfStack(|stack[i]|);
      ItemsSnoc(stack[..i], stack[i]);
      assert stack[..i + 1] == stack[..i] + [stack[i]];
      buf := buf + (len + stack[i]);
    }
    assert stack[..|stack|] == stack;
  }

  /** Encoding a stack and skipping it again with the stripper's loop moves the cursor by the encoded length,
      wherever the encoding stands. */
  method EncodeThenSkip(before: seq<byte>, stack: seq<seq<byte>>, after: seq<byte>) returns (r: Result<nat, DataError>)
    requires T.ValidStack(stack)
    ensures r == Ok(|before| + |T.Stack(stack)|)
  {
    hide CompactSize.Encode, CompactSize.ReadVarInt, At;
    var encoded := EncodeWitnessStack(stack);
    var buf := before + encoded + after;
    assert At(buf, |before|, encoded) by {
      AtSlice(buf, |before|, encoded);
    }
    assert T.Stacks([stack]) == encoded + [] == encoded;
    P.StacksEndAt(buf, |before|, [stack]);
    r := P.SkipWitness(buf, |before|, 1);
  }
}
