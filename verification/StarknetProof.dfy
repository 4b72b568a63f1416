/**
  * Burn proofs: the fixed 112-byte layout, its chunks, and the cache, where a proof's integers pass
  * through JSON as decimal text.
  */
module StarknetProof {
  import opened Wrappers
  import opened Bytes
  import Decimal
  import Hex

  /** A bigint, or the string that JSON keeps of one. */
  datatype JsInt = Big(n: int) | Text(s: string)
  datatype BurnProof = BurnProof(txHash: string, amount: JsInt, nullifier: string, recipientBtc: string,
                                 blockNumber: JsInt, signature: string, timestamp: int)
  datatype ProofError = NotAnInteger | OutOfRange64 | AuthorizationNotFound | CannotGenerate

  // ---------------------------------------------------------------- fields

  /** s.replace('0x', ''): the first occurrence, wherever it is. */
  function Without0x(s: string): string {
    if |s| < 2 then s
    else if s[0] == '0' && s[1] == 'x' then s[2..]
    else [s[0]] + Without0x(s[1..])
  }

  function PadStart(s: string, n: nat): (r: string)
    ensures |r| == if |s| < n then n else |s|
  {
    if |s| < n then seq(n - |s|, _ => '0') + s else s
  }

  /** The bytes a hash string denotes, left-padded to 32. */
  function HashBytes(hash: string): seq<byte> {
    Hex.Decode(PadStart(Without0x(hash), 64))
  }

  /** The address placeholder: the characters after the fourth read as hex, at most 20 bytes. */
  function ScriptHash(address: string): (h: seq<byte>)
    ensures |h| <= 20
  {
    var decoded := Hex.Decode(if |address| < 4 then "" else address[4..]);
    decoded[..Min(|decoded|, 20)]
  }

  /** The first n bytes, with zeros behind them where there are fewer. */
  function Fit(s: seq<byte>, n: nat): (r: seq<byte>)
    ensures |r| == n
  {
    if |s| < n then s + Zeros(n - |s|) else s[..n]
  }

  function IntOf(v: JsInt): Result<int, ProofError> {
    match v
    case Big(n) => Ok(n)
    case Text(s) => (match Decimal.ParseBigInt(s) case Some(n) => Ok(n) case None => Err(NotAnInteger))
  }

  /** The value that writeBigUInt64LE accepts. */
  function U64Of(v: JsInt): (r: Result<nat, ProofError>)
    ensures r.Ok? ==> r.value < U64
  {
    var n :- IntOf(v);
    if 0 <= n < U64 then Ok(n) else Err(OutOfRange64)
  }

  // ---------------------------------------------------------------- writing the buffer

  /** src.copy(buffer, off): clipped at the end of the buffer. */
  function Overlay(buf: seq<byte>, off: nat, src: seq<byte>): (r: seq<byte>)
    requires off <= |buf|
    ensures |r| == |buf|
  {
    var n := Min(|src|, |buf| - off);
    buf[..off] + src[..n] + buf[off + n..]
  }

  /** The buffer after the five writes, in their order; the first integer that cannot be written throws. */
  function Serialized(p: BurnProof): (r: Result<seq<byte>, ProofError>)
    ensures r.Ok? ==> |r.value| == 112
  {
    var b0 := Overlay(Zeros(112), 0, HashBytes(p.txHash));
    var amount :- U64Of(p.amount);
    var b1 := Overlay(b0, 32, LE(amount, 8));
    var b2 := Overlay(b1, 40, HashBytes(p.nullifier));
    var b3 := Overlay(b2, 72, ScriptHash(p.recipientBtc));
    var block :- U64Of(p.blockNumber);
    Ok(Overlay(b3, 92, LE(block, 8)))
  }

  method Copy(src: seq<byte>, buffer: array<byte>, off: nat)
    requires off <= buffer.Length
    modifies buffer
    ensures buffer[..] == Overlay(old(buffer[..]), off, src)
  {
    var n := Min(|src|, buffer.Length - off);
    forall k | 0 <= k < n {
      buffer[off + k] := src[k];
    }
  }

  lemma TwoChunks(chunks: seq<seq<byte>>)
    requires |chunks| >= 2
    ensures |Concat(chunks)| >= |chunks[|chunks| - 2]| + |chunks[|chunks| - 1]|
  {
    var front := chunks[..|chunks| - 1];
    assert Concat(front) == Concat(front[..|front| - 1]) + chunks[|chunks| - 2];
  }

  lemma OnlyChunk(chunk: seq<byte>)
    ensures Concat([chunk]) == chunk
  {
    assert [chunk][..0] == [];
  }

  /** A buffer no longer than a chunk is one chunk. */
  lemma OneChunk(chunks: seq<seq<byte>>, buffer: seq<byte>, chunkSize: nat)
    requires Concat(chunks) == buffer && 0 < |buffer| <= chunkSize
    requires forall k :: 0 <= k < |chunks| ==> 0 < |chunks[k]| <= chunkSize
    requires forall k :: 0 <= k < |chunks| - 1 ==> |chunks[k]| == chunkSize
    ensures chunks == [buffer]
  {
    if |chunks| >= 2 {
      TwoChunks(chunks);
    }
    assert |chunks| == 1;
    OnlyChunk(chunks[0]);
    assert chunks == [chunks[0]];
  }

  method SerializeProofData(p: BurnProof) returns (r: Result<(seq<byte>, seq<seq<byte>>), ProofError>)
    ensures match Serialized(p)
            case Ok(buf) => r == Ok((buf, [buf]))
            case Err(e) => r == Err(e)
  {
    hide Overlay, HashBytes, ScriptHash, LE, U64Of;
    var buffer := new byte[112](_ => 0);
    assert buffer[..] == Zeros(112);
    var offset := 0;
    Copy(HashBytes(p.txHash), buffer, offset);
    offset := offset + 32;
    var amount :- U64Of(p.amount);
    Copy(LE(amount, 8), buffer, offset);
    offset := offset + 8;
    Copy(HashBytes(p.nullifier), buffer, offset);
    offset := offset + 32;
    Copy(ScriptHash(p.recipientBtc), buffer, offset);
    offset := offset + 20;
    var block :- U64Of(p.blockNumber);
    Copy(LE(block, 8), buffer, offset);
    var chunks := SplitIntoChunks(buffer[..], 420);
    OneChunk(chunks, buffer[..], 420);
    return Ok((buffer[..], chunks));
  }

  // ---------------------------------------------------------------- chunks

  function Concat(chunks: seq<seq<byte>>): seq<byte> {
    if chunks == [] then [] else Concat(chunks[..|chunks| - 1]) + chunks[|chunks| - 1]
  }

  lemma ConcatSnoc(chunks: seq<seq<byte>>, chunk: seq<byte>)
    ensures Concat(chunks + [chunk]) == Concat(chunks) + chunk
  {
    assert (chunks + [chunk])[..|chunks|] == chunks;
  }

  /** The chunks put together are the buffer; all but the last are full, and none is empty. */
  method SplitIntoChunks(buffer: seq<byte>, chunkSize: nat) returns (chunks: seq<seq<byte>>)
    requires chunkSize > 0
    ensures Concat(chunks) == buffer
    ensures forall k :: 0 <= k < |chunks| ==> 0 < |chunks[k]| <= chunkSize
    ensures forall k :: 0 <= k < |chunks| - 1 ==> |chunks[k]| == chunkSize
  {
    chunks := [];
    assert Concat([]) == Slice(buffer, 0, 0);
    hide Concat, Slice;
    var i := 0;
    while i < |buffer|
      invariant 0 <= i
      invariant Concat(chunks) == Slice(buffer, 0, Min(i, |buffer|))
      invariant forall k :: 0 <= k < |chunks| - 1 ==> |chunks[k]| == chunkSize
      invariant chunks != [] ==> 0 < |chunks[|chunks| - 1]| <= chunkSize
      invariant chunks != [] && i <= |buffer| ==> |chunks[|chunks| - 1]| == chunkSize
    {
      var end := Min(i + chunkSize, |buffer|);
      var chunk := Slice(buffer, i, end);
      ConcatSnoc(chunks, chunk);
      SliceJoin(buffer, 0, i, end);
      chunks := chunks + [chunk];
      i := i + chunkSize;
    }
  }

  // ---------------------------------------------------------------- the layout

  /** What byte k holds: the last of the five writes that reach it. A hash that is too long spills to the right
      until a later write covers it. */
  function LastWritten(tx: seq<byte>, amount: seq<byte>, nullifier: seq<byte>, script: seq<byte>, block: seq<byte>,
                       k: nat): byte
    requires |amount| == |block| == 8
  {
    if 92 <= k < 100 then block[k - 92]
    else if 72 <= k < 72 + |script| then script[k - 72]
    else if 40 <= k < 40 + |nullifier| then nullifier[k - 40]
    else if 32 <= k < 40 then amount[k - 32]
    else if k < |tx| then tx[k]
    else 0
  }

  lemma OverlayAt(buf: seq<byte>, off: nat, src: seq<byte>, k: nat)
    requires off <= |buf| && k < |buf|
    ensures Overlay(buf, off, src)[k] == if off <= k < off + |src| then src[k - off] else buf[k]
  {
  }

  /** Every byte of every buffer that is written. */
  lemma SerializedLayout(p: BurnProof, k: nat)
    requires Serialized(p).Ok? && k < 112
    ensures Serialized(p).value[k] == LastWritten(HashBytes(p.txHash), LE(U64Of(p.amount).value, 8),
                                                  HashBytes(p.nullifier), ScriptHash(p.recipientBtc),
                                                  LE(U64Of(p.blockNumber).value, 8), k)
  {
    hide Overlay, HashBytes, ScriptHash, LE, U64Of;
    var amount, block := LE(U64Of(p.amount).value, 8), LE(U64Of(p.blockNumber).value, 8);
    var b0 := Overlay(Zeros(112), 0, HashBytes(p.txHash));
    var b1 := Overlay(b0, 32, amount);
    var b2 := Overlay(b1, 40, HashBytes(p.nullifier));
    var b3 := Overlay(b2, 72, ScriptHash(p.recipientBtc));
    OverlayAt(Zeros(112), 0, HashBytes(p.txHash), k);
    OverlayAt(b0, 32, amount, k);
    OverlayAt(b1, 40, HashBytes(p.nullifier), k);
    OverlayAt(b2, 72, ScriptHash(p.recipientBtc), k);
    OverlayAt(b3, 92, block, k);
  }

  datatype Fields = Fields(txHash: seq<byte>, amount: nat, nullifier: seq<byte>, recipient: seq<byte>,
                           blockNumber: nat, reserved: seq<byte>)

  /** The fields at their offsets. */
  function Deserialize(buf: seq<byte>): Fields
    requires |buf| == 112
  {
    Fields(buf[..32], FromLE(buf, 32, 8), buf[40..72], buf[72..92], FromLE(buf, 92, 8), buf[100..])
  }

  function Layout(f: Fields): seq<byte> {
    f.txHash + LE(f.amount, 8) + f.nullifier + f.recipient + LE(f.blockNumber, 8) + f.reserved
  }

  /** Nothing in a buffer is outside its fields. */
  lemma LayoutOfFields(buf: seq<byte>)
    requires |buf| == 112
    ensures Layout(Deserialize(buf)) == buf
  {
    hide At, FromLE, LE;
    LEOfFromLE(buf, 32, 8);
    LEOfFromLE(buf, 92, 8);
    AtSlice(buf, 32, LE(FromLE(buf, 32, 8), 8));
    AtSlice(buf, 92, LE(FromLE(buf, 92, 8), 8));
    assert buf[..32] + buf[32..40] == buf[..40];
    assert buf[..40] + buf[40..72] == buf[..72];
    assert buf[..72] + buf[72..92] == buf[..92];
    assert buf[..92] + buf[92..100] == buf[..100];
    assert buf[..100] + buf[100..] == buf;
  }

  function FieldsOf(p: BurnProof): Fields
    requires U64Of(p.amount).Ok? && U64Of(p.blockNumber).Ok?
  {
    Fields(HashBytes(p.txHash), U64Of(p.amount).value, HashBytes(p.nullifier), Fit(ScriptHash(p.recipientBtc), 20),
           U64Of(p.blockNumber).value, Zeros(12))
  }

  /** The integer whose eight bytes were written last at `off`. */
  lemma IntegerRead(buf: seq<byte>, off: nat, n: nat)
    requires off + 8 <= |buf| && n < U64
    requires forall k :: 0 <= k < 8 ==> buf[off + k] == LE(n, 8)[k]
    ensures FromLE(buf, off, 8) == n
  {
    Widths();
    FromLEOfLE(buf, off, n, 8);
  }

  /** What can be read from the buffer of any proof. Both integers come back whatever the hashes are, and so do the
      first 32 bytes of the transaction hash; the other fields do unless a hash is long enough to spill into them. */
  lemma FieldsRead(p: BurnProof)
    requires Serialized(p).Ok?
    ensures var f := Deserialize(Serialized(p).value);
            var tx, nullifier, script := HashBytes(p.txHash), HashBytes(p.nullifier), ScriptHash(p.recipientBtc);
            && f.txHash == Fit(tx, 32)
            && f.amount == U64Of(p.amount).value && f.blockNumber == U64Of(p.blockNumber).value
            && (|tx| <= 40 || |nullifier| >= 32 ==> f.nullifier == Fit(nullifier, 32))
            && (|tx| <= 72 && |nullifier| <= 32 ==> f.recipient == Fit(script, 20))
            && (|tx| <= 100 && |nullifier| <= 60 ==> f.reserved == Zeros(12))
  {
    hide Serialized, HashBytes, ScriptHash, LE, FromLE, U64Of;
    AmountsWritten(p);
    var buf := Serialized(p).value;
    var amount, block := LE(U64Of(p.amount).value, 8), LE(U64Of(p.blockNumber).value, 8);
    var tx, nullifier, script := HashBytes(p.txHash), HashBytes(p.nullifier), ScriptHash(p.recipientBtc);
    forall k | 0 <= k < 112
      ensures buf[k] == LastWritten(tx, amount, nullifier, script, block, k)
    {
      SerializedLayout(p, k);
    }
    IntegerRead(buf, 32, U64Of(p.amount).value);
    IntegerRead(buf, 92, U64Of(p.blockNumber).value);
  }

  lemma AmountsWritten(p: BurnProof)
    requires Serialized(p).Ok?
    ensures U64Of(p.amount).Ok? && U64Of(p.blockNumber).Ok?
  {
  }

  /** Both hashes denote 32 bytes: at most 64 hex digits after the prefix. */
  predicate GoodHash(hash: string) {
    |HashBytes(hash)| == 32
  }

  /** The fields of a proof come back from its buffer exactly when both hashes are 32 bytes long. */
  lemma RoundTripIffGoodHashes(p: BurnProof)
    requires Serialized(p).Ok?
    ensures Deserialize(Serialized(p).value) == FieldsOf(p) <==> GoodHash(p.txHash) && GoodHash(p.nullifier)
  {
    hide Serialized, HashBytes, ScriptHash, FromLE, U64Of;
    AmountsWritten(p);
    FieldsRead(p);
  }

  /** Equal buffers mean equal fields for hashes of 32 bytes, and equal integers whatever the hashes. */
  lemma CodecInjective(p: BurnProof, q: BurnProof)
    requires Serialized(p).Ok? && Serialized(q).Ok?
    ensures GoodHash(p.txHash) && GoodHash(p.nullifier) && GoodHash(q.txHash) && GoodHash(q.nullifier) ==>
              (Serialized(p) == Serialized(q) <==> FieldsOf(p) == FieldsOf(q))
    ensures Serialized(p) == Serialized(q) ==>
              && U64Of(p.amount) == U64Of(q.amount) && U64Of(p.blockNumber) == U64Of(q.blockNumber)
              && Fit(HashBytes(p.txHash), 32) == Fit(HashBytes(q.txHash), 32)
  {
    hide Serialized, HashBytes, ScriptHash, FromLE, U64Of, Layout, Deserialize, GoodHash, Fit;
    AmountsWritten(p);
    AmountsWritten(q);
    RoundTripIffGoodHashes(p);
    RoundTripIffGoodHashes(q);
    FieldsRead(p);
    FieldsRead(q);
    LayoutOfFields(Serialized(p).value);
    LayoutOfFields(Serialized(q).value);
  }

  /** Beyond 32 bytes the codec is not injective: up to eight more bytes of a transaction hash are lost under the
      amount. */
  lemma LongHashesClash(p: BurnProof, digits: string, tail: string)
    requires |digits| == 64 && |tail| <= 16 && forall k :: 0 <= k < |digits| ==> Hex.IsHexDigit(digits[k])
    ensures Serialized(p.(txHash := "0x" + digits + tail)) == Serialized(p.(txHash := "0x" + digits))
  {
    var long, short := p.(txHash := "0x" + digits + tail), p.(txHash := "0x" + digits);
    assert ("0x" + digits + tail)[2..] == digits + tail && ("0x" + digits)[2..] == digits;
    Hex.DecodeConcat(digits, tail);
    LongHashBytes(long, short);
  }

  lemma LongHashBytes(p: BurnProof, q: BurnProof)
    requires q == p.(txHash := q.txHash)
    requires |HashBytes(p.txHash)| <= 40 && |HashBytes(q.txHash)| == 32 && HashBytes(q.txHash) <= HashBytes(p.txHash)
    ensures Serialized(p) == Serialized(q)
  {
    hide Overlay, HashBytes, ScriptHash, LE, U64Of;
    if Serialized(p).Ok? {
      forall k | 0 <= k < 112
        ensures Serialized(p).value[k] == Serialized(q).value[k]
      {
        SerializedLayout(p, k);
        SerializedLayout(q, k);
      }
      assert Serialized(p).value == Serialized(q).value;
    }
  }

  predicate Has0xAt(s: string, k: nat) {
    k + 2 <= |s| && s[k] == '0' && s[k + 1] == 'x'
  }

  /** Only the first 0x goes, wherever it stands. */
  lemma {:induction false} Without0xMeans(s: string, at: nat)
    requires Has0xAt(s, at) && forall k :: 0 <= k < at ==> !Has0xAt(s, k)
    ensures Without0x(s) == s[..at] + s[at + 2..]
    decreases at
  {
    if at > 0 {
      assert !Has0xAt(s, 0);
      forall k | 0 <= k < at - 1
        ensures !Has0xAt(s[1..], k)
      {
        assert !Has0xAt(s, k + 1);
      }
      Without0xMeans(s[1..], at - 1);
      assert [s[0]] + (s[1..][..at - 1] + s[1..][at + 1..]) == s[..at] + s[at + 2..];
    }
  }

  /** The number that hex digits denote, and the one that bytes denote with the first counting most. */
  function HexNumber(digits: string): nat
    requires forall k :: 0 <= k < |digits| ==> Hex.IsHexDigit(digits[k])
  {
    if digits == "" then 0
    else
      var n := |digits| - 1;
      16 * HexNumber(digits[..n]) + Hex.DigitValue(digits[n])
  }

  function BytesNumber(s: seq<byte>): nat {
    if s == [] then 0 else 256 * BytesNumber(s[..|s| - 1]) + s[|s| - 1]
  }

  lemma {:induction false} DecodedNumber(digits: string)
    requires |digits| % 2 == 0 && forall k :: 0 <= k < |digits| ==> Hex.IsHexDigit(digits[k])
    ensures 2 * |Hex.Decode(digits)| == |digits| && BytesNumber(Hex.Decode(digits)) == HexNumber(digits)
    decreases |digits|
  {
    if digits != "" {
      var n := |digits| - 2;
      var front, pair := digits[..n], digits[n..];
      DecodedNumber(front);
      assert digits == front + pair && pair + "" == pair;
      Hex.DecodeConcat(front, pair);
      Hex.DecodePair(pair, "");
      var last: seq<byte> := [16 * Hex.DigitValue(pair[0]) + Hex.DigitValue(pair[1])];
      assert Hex.Decode(pair) == last by {
        Hex.DecodeNothing();
      }
      hide Hex.Decode, Hex.DigitValue, Hex.IsHexDigit;
      assert (Hex.Decode(front) + last)[..|Hex.Decode(front)|] == Hex.Decode(front);
      TwoMoreDigits(digits);
    }
  }

  lemma TwoMoreDigits(digits: string)
    requires |digits| >= 2 && forall k :: 0 <= k < |digits| ==> Hex.IsHexDigit(digits[k])
    ensures var n := |digits| - 2;
            HexNumber(digits)
            == 256 * HexNumber(digits[..n]) + (16 * Hex.DigitValue(digits[n]) + Hex.DigitValue(digits[n + 1]))
  {
    hide Hex.DigitValue, Hex.IsHexDigit;
    var n := |digits| - 2;
    assert digits[..n + 1][..n] == digits[..n];
    assert HexNumber(digits[..n + 1]) == 16 * HexNumber(digits[..n]) + Hex.DigitValue(digits[n]);
  }

  lemma {:induction false} LeadingZerosCountNothing(n: nat, digits: string)
    requires forall k :: 0 <= k < |digits| ==> Hex.IsHexDigit(digits[k])
    ensures var padded := seq(n, _ => '0') + digits;
            (forall k :: 0 <= k < |padded| ==> Hex.IsHexDigit(padded[k])) && HexNumber(padded) == HexNumber(digits)
    decreases n + |digits|
  {
    var zeros: string := seq(n, _ => '0');
    var padded := zeros + digits;
    if digits != "" {
      LeadingZerosCountNothing(n, digits[..|digits| - 1]);
      assert padded[..|padded| - 1] == zeros + digits[..|digits| - 1];
    } else if n > 0 {
      LeadingZerosCountNothing(n - 1, "");
      assert padded[..n - 1] == seq(n - 1, _ => '0') + "";
    } else {
      assert padded == "";
    }
  }

  /** The 32 bytes of a felt denote the number that its digits denote. */
  lemma FeltNumber(digits: string)
    requires |digits| <= 64 && forall k :: 0 <= k < |digits| ==> Hex.IsHexDigit(digits[k])
    ensures |HashBytes("0x" + digits)| == 32 && BytesNumber(HashBytes("0x" + digits)) == HexNumber(digits)
  {
    assert ("0x" + digits)[2..] == digits;
    LeadingZerosCountNothing(64 - |digits|, digits);
    assert PadStart(digits, 64) == seq(64 - |digits|, _ => '0') + digits;
    hide PadStart, Hex.Decode, BytesNumber, HexNumber, Hex.IsHexDigit;
    DecodedNumber(PadStart(digits, 64));
  }

  /** The recipient field: what follows the fourth character, read as hex, as far as twenty bytes. */
  lemma ScriptHashMeans(prefix: string, rest: string)
    requires |prefix| == 4
    ensures ScriptHash(prefix + rest) <= Hex.Decode(rest)
    ensures |ScriptHash(prefix + rest)| == if |Hex.Decode(rest)| < 20 then |Hex.Decode(rest)| else 20
  {
    assert (prefix + rest)[4..] == rest;
  }

  /** Integers below 2^64 are written, as bigints or as their decimal text; the amount is looked at first. */
  lemma IntegersMean(p: BurnProof, n: int, m: int)
    requires p.amount == Big(n) || p.amount == Text(Decimal.ToString(n))
    requires p.blockNumber == Big(m) || p.blockNumber == Text(Decimal.ToString(m))
    ensures U64Of(p.amount) == if 0 <= n < 0x1_0000_0000_0000_0000 then Ok(n) else Err(OutOfRange64)
    ensures U64Of(p.blockNumber) == if 0 <= m < 0x1_0000_0000_0000_0000 then Ok(m) else Err(OutOfRange64)
    ensures Serialized(p).Ok? <==> 0 <= n < 0x1_0000_0000_0000_0000 && 0 <= m < 0x1_0000_0000_0000_0000
  {
    hide Overlay, HashBytes, ScriptHash, LE, Zeros, Decimal.ToString, Decimal.ParseBigInt;
    Decimal.PrintParse(n);
    Decimal.PrintParse(m);
  }

  /** A felt in hex, at most 64 digits after 0x, fills its 32-byte field. */
  lemma FeltsAreGood(digits: string)
    requires |digits| <= 64 && forall k :: 0 <= k < |digits| ==> Hex.IsHexDigit(digits[k])
    ensures GoodHash("0x" + digits)
  {
    assert ("0x" + digits)[2..] == digits;
    Hex.DecodeConcat(PadStart(digits, 64), "");
  }

  /** Leading zeros do not change the field: the digits are right-aligned. */
  lemma LeadingZeros(digits: string)
    requires |digits| < 64
    ensures HashBytes("0x0" + digits) == HashBytes("0x" + digits)
  {
    assert ("0x0" + digits)[2..] == "0" + digits && ("0x" + digits)[2..] == digits;
    assert PadStart("0" + digits, 64) == PadStart(digits, 64);
  }

  // ---------------------------------------------------------------- the cache

  /** The JSON replacer: bigints become decimal strings. */
  function Cached(p: BurnProof): BurnProof {
    p.(amount := AsText(p.amount), blockNumber := AsText(p.blockNumber))
  }

  function AsText(v: JsInt): JsInt {
    match v
    case Big(n) => Text(Decimal.ToString(n))
    case Text(_) => v
  }

  /** Through the cache only the integers change, into their decimal text. */
  lemma CachedMeans(p: BurnProof, n: int, m: int)
    ensures Cached(p).(amount := p.amount, blockNumber := p.blockNumber) == p
    ensures Cached(p.(amount := Big(n))).amount == Text(Decimal.ToString(n))
    ensures Cached(p.(blockNumber := Big(m))).blockNumber == Text(Decimal.ToString(m))
  {
  }

  /** A proof read back from the cache serializes like the fresh one, and fails where it fails. */
  lemma CachedSerializesAlike(p: BurnProof)
    ensures Serialized(Cached(p)) == Serialized(p)
  {
    hide Overlay, HashBytes, ScriptHash, LE, Zeros, Decimal.ToString, Decimal.ParseBigInt;
    AsTextSameValue(p.amount);
    AsTextSameValue(p.blockNumber);
  }

  lemma AsTextSameValue(v: JsInt)
    ensures U64Of(AsText(v)) == U64Of(v)
  {
    if v.Big? {
      Decimal.PrintParse(v.n);
    }
  }

  class ProofCache {
    /** The starknet_proofs table, with proof_data parsed. */
    var proofs: map<string, BurnProof>

    constructor ()
      ensures proofs == map[]
    {
      proofs := map[];
    }

    /** `authorized`: the authorization exists. `generated`: what generating a proof would give. A failure to
        read or write the table is swallowed. */
    method GetProofForAuthorization(id: string, authorized: bool, readFails: bool,
                                    generated: Result<BurnProof, ProofError>, writeFails: bool)
      returns (r: Result<BurnProof, ProofError>)
      modifies this
      ensures !authorized ==> r == Err(AuthorizationNotFound) && proofs == old(proofs)
      ensures authorized && id in old(proofs) && !readFails ==> r == Ok(old(proofs)[id]) && proofs == old(proofs)
      ensures authorized && (id !in old(proofs) || readFails) ==>
                && r == generated
                && proofs == if generated.Ok? && !writeFails then old(proofs)[id := Cached(generated.value)]
                             else old(proofs)
    {
      if !authorized {
        return Err(AuthorizationNotFound);
      }
      if !readFails && id in proofs {
        return Ok(proofs[id]);
      }
      var proof :- generated;
      if !writeFails {
        proofs := proofs[id := Cached(proof)];
      }
      return Ok(proof);
    }

    /** Asking twice gives the same 112 bytes, from the generator first and from the table later. */
    method AskTwice(id: string, generated: BurnProof, later: Result<BurnProof, ProofError>)
      returns (made: BurnProof, kept: BurnProof)
      requires id !in proofs
      modifies this
      ensures made == generated && Serialized(kept) == Serialized(made)
    {
      var first := GetProofForAuthorization(id, true, false, Ok(generated), false);
      var second := GetProofForAuthorization(id, true, false, later, false);
      made, kept := first.value, second.value;
      CachedSerializesAlike(generated);
    }
  }
}
