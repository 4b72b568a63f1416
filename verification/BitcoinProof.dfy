/**
  * The SPV proof builder: it walks a raw transaction with one cursor to strip the witness and to
  * find the output paying the vault, and turns display-order sibling hashes into words.
  */
module BitcoinProof {
  import opened Wrappers
  import opened Bytes
  import Hex
  import CompactSize
  import T = Transactions

  datatype VaultOutput = VaultOutput(voutIndex: nat, amountSats: nat)
  datatype MerkleData = MerkleData(blockHeight: nat, pos: nat, merkle: seq<string>)
  datatype SpvProof = SpvProof(blockHeight: nat, txPos: nat, rawTxHex: string, merkleProof: seq<Words>,
                               voutIndex: nat, amountSats: nat)

  // ---------------------------------------------------------------- where the parts of a transaction end

  predicate IsSegWit(buf: seq<byte>) {
    |buf| >= 6 && buf[4] == 0x00 && buf[5] == 0x01
  }

  function InputsEnd(buf: seq<byte>, cursor: nat, count: nat): (r: Result<nat, DataError>)
    ensures r.Ok? ==> cursor <= r.value
    decreases count
  {
    if count == 0 then Ok(cursor)
    else
      var len :- CompactSize.ReadVarInt(buf, cursor + 36);
      InputsEnd(buf, cursor + 36 + len.size + len.value + 4, count - 1)
  }

  function OutputsEnd(buf: seq<byte>, cursor: nat, count: nat): (r: Result<nat, DataError>)
    ensures r.Ok? ==> cursor <= r.value
    decreases count
  {
    if count == 0 then Ok(cursor)
    else
      var len :- CompactSize.ReadVarInt(buf, cursor + 8);
      OutputsEnd(buf, cursor + 8 + len.size + len.value, count - 1)
  }

  function ItemsEnd(buf: seq<byte>, cursor: nat, count: nat): (r: Result<nat, DataError>)
    ensures r.Ok? ==> cursor <= r.value
    decreases count
  {
    if count == 0 then Ok(cursor)
    else
      var len :- CompactSize.ReadVarInt(buf, cursor);
      ItemsEnd(buf, cursor + len.size + len.value, count - 1)
  }

  function StacksEnd(buf: seq<byte>, cursor: nat, count: nat): (r: Result<nat, DataError>)
    ensures r.Ok? ==> cursor <= r.value
    decreases count
  {
    if count == 0 then Ok(cursor)
    else
      var items :- CompactSize.ReadVarInt(buf, cursor);
      var next :- ItemsEnd(buf, cursor + items.size, items.value);
      StacksEnd(buf, next, count - 1)
  }

  method SkipInputs(buf: seq<byte>, start: nat, count: nat) returns (r: Result<nat, DataError>)
    ensures r == InputsEnd(buf, start, count)
  {
    var cursor: nat, i := start, 0;
    while i < count
      invariant i <= count
      invariant InputsEnd(buf, start, count) == InputsEnd(buf, cursor, count - i)
    {
      cursor := cursor + 36;
      var len :- CompactSize.ReadVarInt(buf, cursor);
      cursor := cursor + (len.size + len.value + 4);
      i := i + 1;
    }
    return Ok(cursor);
  }

  method SkipOutputs(buf: seq<byte>, start: nat, count: nat) returns (r: Result<nat, DataError>)
    ensures r == OutputsEnd(buf, start, count)
  {
    var cursor: nat, i := start, 0;
    while i < count
      invariant i <= count
      invariant OutputsEnd(buf, start, count) == OutputsEnd(buf, cursor, count - i)
    {
      cursor := cursor + 8;
      var len :- CompactSize.ReadVarInt(buf, cursor);
      cursor := cursor + (len.size + len.value);
      i := i + 1;
    }
    return Ok(cursor);
  }

  method SkipWitness(buf: seq<byte>, start: nat, count: nat) returns (r: Result<nat, DataError>)
    ensures r == StacksEnd(buf, start, count)
  {
    hide CompactSize.ReadVarInt;
    var cursor: nat, i := start, 0;
    while i < count
      invariant i <= count
      invariant StacksEnd(buf, start, count) == StacksEnd(buf, cursor, count - i)
    {
      var items :- CompactSize.ReadVarInt(buf, cursor);
      ghost var first := cursor + items.size;
      cursor := cursor + items.size;
      var j := 0;
      while j < items.value
        invariant j <= items.value
        invariant ItemsEnd(buf, first, items.value) == ItemsEnd(buf, cursor, items.value - j)
      {
        var len :- CompactSize.ReadVarInt(buf, cursor);
        cursor := cursor + (len.size + len.value);
        j := j + 1;
      }
      i := i + 1;
    }
    return Ok(cursor);
  }

  // ---------------------------------------------------------------- stripping the witness

  /** The bytes kept of a marked transaction. */
  function Strip(buf: seq<byte>): Result<seq<byte>, DataError> {
    var ins :- CompactSize.ReadVarInt(buf, 6);
    var inputsStart := 6 + ins.size;
    var outputsStart :- InputsEnd(buf, inputsStart, ins.value);
    var outs :- CompactSize.ReadVarInt(buf, outputsStart);
    var outputsEnd :- OutputsEnd(buf, outputsStart + outs.size, outs.value);
    var locktime :- StacksEnd(buf, outputsEnd, ins.value);
    Ok(Slice(buf, 0, 4) + Slice(buf, 6, inputsStart) + Slice(buf, inputsStart, outputsStart)
       + Slice(buf, outputsStart, outputsEnd) + Slice(buf, locktime, locktime + 4))
  }

  function Stripped(rawTxHex: string): Result<string, DataError> {
    var buf := Hex.Decode(rawTxHex);
    if !IsSegWit(buf) then Ok(rawTxHex)
    else
      var kept :- Strip(buf);
      Ok(Hex.Encode(kept))
  }

  method StripWitnessData(rawTxHex: string) returns (r: Result<string, DataError>)
    ensures r == Stripped(rawTxHex)
    ensures forall tx: T.Tx | T.Valid(tx) && Hex.Decode(rawTxHex) == T.WitnessForm(tx) ::
              r == Ok(Hex.Encode(T.LegacyForm(tx)))
  {
    hide CompactSize.ReadVarInt, InputsEnd, OutputsEnd, StacksEnd, Slice, Hex.Encode, Hex.Decode,
      T.Valid, T.WitnessForm, T.LegacyForm;
    forall tx: T.Tx | T.Valid(tx) && Hex.Decode(rawTxHex) == T.WitnessForm(tx)
      ensures Stripped(rawTxHex) == Ok(Hex.Encode(T.LegacyForm(tx)))
    {
      StripTransaction(tx, rawTxHex);
    }
    var buf := Hex.Decode(rawTxHex);
    var cursor := 0;
    var version := Slice(buf, cursor, cursor + 4);
    cursor := cursor + 4;
    if !IsSegWit(buf) {
      return Ok(rawTxHex);
    }
    cursor := cursor + 2;
    var ins :- CompactSize.ReadVarInt(buf, cursor);
    var inputCountBytes := Slice(buf, cursor, cursor + ins.size);
    cursor := cursor + ins.size;
    var inputsStart := cursor;
    cursor :- SkipInputs(buf, cursor, ins.value);
    var inputs := Slice(buf, inputsStart, cursor);
    var outputsStart := cursor;
    var outs :- CompactSize.ReadVarInt(buf, cursor);
    cursor :- SkipOutputs(buf, cursor + outs.size, outs.value);
    var outputs := Slice(buf, outputsStart, cursor);
    cursor :- SkipWitness(buf, cursor, ins.value);
    var locktime := Slice(buf, cursor, cursor + 4);
    return Ok(Hex.Encode(version + inputCountBytes + inputs + outputs + locktime));
  }

  // ---------------------------------------------------------------- the cursor follows the BIP 144 layout

  lemma {:induction false} InputsEndAt(buf: seq<byte>, cursor: nat, ins: seq<T.TxIn>)
    requires forall i :: i in ins ==> |i.outpoint| == 36 && |i.script| < MAX_SAFE && |i.sequence| == 4
    requires At(buf, cursor, T.Inputs(ins))
    ensures InputsEnd(buf, cursor, |ins|) == Ok(cursor + |T.Inputs(ins)|)
    decreases |ins|
  {
    hide CompactSize.ReadVarInt, CompactSize.Encode, At;
    if ins != [] {
      var i := ins[0];
      AtConcat(buf, cursor, T.Input(i), T.Inputs(ins[1..]));
      AtConcat(buf, cursor, i.outpoint, CompactSize.Encode(|i.script|) + (i.script + i.sequence));
      AtConcat(buf, cursor + 36, CompactSize.Encode(|i.script|), i.script + i.sequence);
      CompactSize.ReadEncoded(buf, cursor + 36, |i.script|);
      InputsEndAt(buf, cursor + |T.Input(i)|, ins[1..]);
    }
  }

  lemma OutputAt(buf: seq<byte>, cursor: nat, o: T.TxOut, rest: seq<byte>)
    requires o.value < U64 && |o.script| < MAX_SAFE
    requires At(buf, cursor, T.Output(o) + rest)
    ensures ReadLE(buf, cursor, 8) == Ok(o.value)
    ensures CompactSize.ReadVarInt(buf, cursor + 8)
         == Ok(CompactSize.VarInt(|o.script|, |CompactSize.Encode(|o.script|)|))
    ensures At(buf, cursor + 8 + |CompactSize.Encode(|o.script|)|, o.script)
    ensures At(buf, cursor + |T.Output(o)|, rest)
    ensures |T.Output(o)| == 8 + |CompactSize.Encode(|o.script|)| + |o.script|
  {
    hide CompactSize.ReadVarInt, At;
    Widths();
    AtConcat(buf, cursor, T.Output(o), rest);
    AtConcat(buf, cursor, LE(o.value, 8), CompactSize.Encode(|o.script|) + o.script);
    AtConcat(buf, cursor + 8, CompactSize.Encode(|o.script|), o.script);
    ReadLEAt(buf, cursor, o.value, 8);
    CompactSize.ReadEncoded(buf, cursor + 8, |o.script|);
  }

  lemma {:induction false} OutputsEndAt(buf: seq<byte>, cursor: nat, outs: seq<T.TxOut>)
    requires forall o :: o in outs ==> o.value < U64 && |o.script| < MAX_SAFE
    requires At(buf, cursor, T.Outputs(outs))
    ensures OutputsEnd(buf, cursor, |outs|) == Ok(cursor + |T.Outputs(outs)|)
    decreases |outs|
  {
    hide CompactSize.ReadVarInt, At, CompactSize.Encode;
    if outs != [] {
      OutputAt(buf, cursor, outs[0], T.Outputs(outs[1..]));
      OutputsEndAt(buf, cursor + |T.Output(outs[0])|, outs[1..]);
    }
  }

  lemma {:induction false} ItemsEndAt(buf: seq<byte>, cursor: nat, items: seq<seq<byte>>)
    requires forall item :: item in items ==> |item| < MAX_SAFE
    requires At(buf, cursor, T.Items(items))
    ensures ItemsEnd(buf, cursor, |items|) == Ok(cursor + |T.Items(items)|)
    decreases |items|
  {
    hide CompactSize.ReadVarInt, At, CompactSize.Encode;
    if items != [] {
      var item := items[0];
      AtConcat(buf, cursor, CompactSize.Encode(|item|) + item, T.Items(items[1..]));
      AtConcat(buf, cursor, CompactSize.Encode(|item|), item);
      CompactSize.ReadEncoded(buf, cursor, |item|);
      ItemsEndAt(buf, cursor + |CompactSize.Encode(|item|) + item|, items[1..]);
    }
  }

  /** Skipping encoded witness stacks moves the cursor by exactly their encoded length. */
  lemma {:induction false} StacksEndAt(buf: seq<byte>, cursor: nat, stacks: seq<seq<seq<byte>>>)
    requires forall stack :: stack in stacks ==> T.ValidStack(stack)
    requires At(buf, cursor, T.Stacks(stacks))
    ensures StacksEnd(buf, cursor, |stacks|) == Ok(cursor + |T.Stacks(stacks)|)
    decreases |stacks|
  {
    hide CompactSize.ReadVarInt, CompactSize.Encode, At, ItemsEnd, T.Items;
    if stacks != [] {
      var stack := stacks[0];
      AtConcat(buf, cursor, T.Stack(stack), T.Stacks(stacks[1..]));
      AtConcat(buf, cursor, CompactSize.Encode(|stack|), T.Items(stack));
      CompactSize.ReadEncoded(buf, cursor, |stack|);
      ItemsEndAt(buf, cursor + |CompactSize.Encode(|stack|)|, stack);
      StacksEndAt(buf, cursor + |T.Stack(stack)|, stacks[1..]);
    }
  }

  /** What reading counts, inputs and outputs from offset `at` yields where a transaction body stands. */
  lemma BodyAt(buf: seq<byte>, at: nat, tx: T.Tx)
    requires T.Valid(tx) && At(buf, at, T.Body(tx))
    ensures var ins := |CompactSize.Encode(|tx.ins|)|;
            var outs := |CompactSize.Encode(|tx.outs|)|;
            var mid := at + ins + |T.Inputs(tx.ins)|;
            && CompactSize.ReadVarInt(buf, at) == Ok(CompactSize.VarInt(|tx.ins|, ins))
            && InputsEnd(buf, at + ins, |tx.ins|) == Ok(mid)
            && CompactSize.ReadVarInt(buf, mid) == Ok(CompactSize.VarInt(|tx.outs|, outs))
            && At(buf, mid + outs, T.Outputs(tx.outs))
            && OutputsEnd(buf, mid + outs, |tx.outs|) == Ok(at + |T.Body(tx)|)
  {
    hide CompactSize.ReadVarInt, CompactSize.Encode, At;
    var ins := CompactSize.Encode(|tx.ins|);
    var outs := CompactSize.Encode(|tx.outs|);
    AtConcat(buf, at, ins, T.Inputs(tx.ins) + (outs + T.Outputs(tx.outs)));
    AtConcat(buf, at + |ins|, T.Inputs(tx.ins), outs + T.Outputs(tx.outs));
    var mid := at + |ins| + |T.Inputs(tx.ins)|;
    AtConcat(buf, mid, outs, T.Outputs(tx.outs));
    CompactSize.ReadEncoded(buf, at, |tx.ins|);
    InputsEndAt(buf, at + |ins|, tx.ins);
    CompactSize.ReadEncoded(buf, mid, |tx.outs|);
    OutputsEndAt(buf, mid + |outs|, tx.outs);
  }

  lemma AtWhole(buf: seq<byte>)
    ensures At(buf, 0, buf)
  {
  }

  lemma MarkerAt(buf: seq<byte>)
    requires At(buf, 4, [0x00, 0x01])
    ensures IsSegWit(buf)
  {
    var marker: seq<byte> := [0x00, 0x01];
    assert marker[0] == buf[4] && marker[1] == buf[5];
  }

  lemma WitnessFormLayout(tx: T.Tx)
    requires T.Valid(tx)
    ensures var buf := T.WitnessForm(tx);
            var rest := 6 + |T.Body(tx)|;
            && IsSegWit(buf) && At(buf, 0, tx.version)
            && At(buf, 6, T.Body(tx)) && At(buf, rest, T.Stacks(tx.stacks))
            && At(buf, rest + |T.Stacks(tx.stacks)|, tx.locktime)
  {
    hide At, IsSegWit, T.Body, T.Stacks;
    var buf := T.WitnessForm(tx);
    var body, tail := T.Body(tx), T.Stacks(tx.stacks) + tx.locktime;
    AtWhole(buf);
    AtConcat(buf, 0, tx.version, [0x00, 0x01] + (body + tail));
    AtConcat(buf, 4, [0x00, 0x01], body + tail);
    MarkerAt(buf);
    AtConcat(buf, 6, body, tail);
    AtConcat(buf, 6 + |body|, T.Stacks(tx.stacks), tx.locktime);
  }

  lemma LegacyFormLayout(tx: T.Tx)
    requires T.Valid(tx)
    ensures At(T.LegacyForm(tx), 4, T.Body(tx))
    ensures IsSegWit(T.LegacyForm(tx)) <==> |tx.ins| == 0 && |tx.outs| == 1
  {
    var buf := T.LegacyForm(tx);
    assert At(buf, 0, buf);
    AtConcat(buf, 0, tx.version, T.Body(tx) + tx.locktime);
    AtConcat(buf, 4, T.Body(tx), tx.locktime);
    BodyFirstBytes(buf, 4, tx);
  }

  /** The first byte of a body tells whether there are inputs; without any, the second whether there is one output. */
  lemma BodyFirstBytes(buf: seq<byte>, at: nat, tx: T.Tx)
    requires T.Valid(tx) && At(buf, at, T.Body(tx))
    ensures at + 2 <= |buf|
    ensures buf[at] == 0 <==> |tx.ins| == 0
    ensures |tx.ins| == 0 ==> (buf[at + 1] == 1 <==> |tx.outs| == 1)
  {
    var ins, outs := CompactSize.Encode(|tx.ins|), CompactSize.Encode(|tx.outs|);
    AtConcat(buf, at, ins, T.Inputs(tx.ins) + (outs + T.Outputs(tx.outs)));
    assert ins[0] == buf[at];
    if |tx.ins| == 0 {
      assert T.Inputs(tx.ins) + (outs + T.Outputs(tx.outs)) == outs + T.Outputs(tx.outs);
      AtConcat(buf, at + 1, outs, T.Outputs(tx.outs));
      assert outs[0] == buf[at + 1];
    }
  }

  /** Stripping the witness serialization of any transaction gives its legacy serialization. */
  lemma StripWitnessForm(tx: T.Tx)
    requires T.Valid(tx)
    ensures IsSegWit(T.WitnessForm(tx))
    ensures Strip(T.WitnessForm(tx)) == Ok(T.LegacyForm(tx))
  {
    hide CompactSize.ReadVarInt, CompactSize.Encode, InputsEnd, OutputsEnd, StacksEnd, At, Slice, T.Inputs, T.Outputs,
      T.Stacks, T.Body, IsSegWit, T.WitnessForm;
    var buf := T.WitnessForm(tx);
    WitnessFormLayout(tx);
    BodyAt(buf, 6, tx);
    var rest := 6 + |T.Body(tx)|;
    StacksEndAt(buf, rest, tx.stacks);
    var inputsStart := 6 + |CompactSize.Encode(|tx.ins|)|;
    var outputsStart := inputsStart + |T.Inputs(tx.ins)|;
    AtSlice(buf, 6, T.Body(tx));
    SliceJoin(buf, 6, inputsStart, outputsStart);
    SliceJoin(buf, 6, outputsStart, rest);
    AtSlice(buf, 0, tx.version);
    AtSlice(buf, rest + |T.Stacks(tx.stacks)|, tx.locktime);
    var a, b, c := Slice(buf, 6, inputsStart), Slice(buf, inputsStart, outputsStart), Slice(buf, outputsStart, rest);
    assert tx.version + a + b + c + tx.locktime == tx.version + (a + b + c + tx.locktime);
  }

  /** Stripping returns its argument exactly when the marker is absent, whatever the bytes are. */
  lemma StripIsIdentityIffUnmarked(rawTxHex: string)
    ensures Stripped(rawTxHex) == Ok(rawTxHex) <==> !IsSegWit(Hex.Decode(rawTxHex))
  {
    var buf := Hex.Decode(rawTxHex);
    if IsSegWit(buf) && Strip(buf).Ok? {
      assert |Strip(buf).value| <= |buf| - 2;
    }
  }

  lemma SliceHead(buf: seq<byte>, from: nat, to: nat)
    requires from < to && from < |buf|
    ensures Slice(buf, from, to) == [buf[from]] + Slice(buf, from + 1, to)
  {
  }

  /** Where the parts of a stripped transaction come from, as far as the first bytes of its body tell. */
  lemma StripParts(buf: seq<byte>) returns (inputsStart: nat, outputsStart: nat, outputsEnd: nat, rest: seq<byte>)
    requires Strip(buf).Ok?
    ensures 6 < inputsStart <= outputsStart < outputsEnd && |buf| >= 8
    ensures buf[6] == 0x00 ==> inputsStart == outputsStart == 7
    ensures Strip(buf).value == Slice(buf, 0, 4) + Slice(buf, 6, inputsStart) + Slice(buf, inputsStart, outputsStart)
                                + Slice(buf, outputsStart, outputsEnd) + rest
  {
    hide ReadLE, Slice, StacksEnd;
    var ins := CompactSize.ReadVarInt(buf, 6).value;
    inputsStart := 6 + ins.size;
    outputsStart := InputsEnd(buf, inputsStart, ins.value).value;
    var outs := CompactSize.ReadVarInt(buf, outputsStart).value;
    outputsEnd := OutputsEnd(buf, outputsStart + outs.size, outs.value).value;
    var locktime := StacksEnd(buf, outputsEnd, ins.value).value;
    rest := Slice(buf, locktime, locktime + 4);
  }

  /** A stripped transaction is marked again exactly when it had no inputs and one byte 01 for its output count. */
  lemma StrippedMarker(buf: seq<byte>)
    requires IsSegWit(buf) && Strip(buf).Ok?
    ensures |buf| >= 8
    ensures IsSegWit(Strip(buf).value) <==> buf[6] == 0x00 && buf[7] == 0x01
  {
    var inputsStart, outputsStart, outputsEnd, rest := StripParts(buf);
    var head, counts := Slice(buf, 0, 4), Slice(buf, 6, inputsStart);
    var ins, outs := Slice(buf, inputsStart, outputsStart), Slice(buf, outputsStart, outputsEnd);
    SliceHead(buf, 6, inputsStart);
    SliceHead(buf, 7, outputsEnd);
    SliceNothing(buf, 7);
    hide Strip, Slice;
    FifthAndSixth(head, counts, ins, outs, rest);
  }

  lemma FifthAndSixth(head: seq<byte>, counts: seq<byte>, ins: seq<byte>, outs: seq<byte>, rest: seq<byte>)
    requires |head| == 4 && counts != []
    ensures var kept := head + counts + ins + outs + rest;
            kept[4] == counts[0] && (|counts| == 1 && ins == [] && outs != [] ==> kept[5] == outs[0])
    ensures |counts| > 1 || outs != [] ==> |head + counts + ins + outs + rest| >= 6
  {
  }

  lemma SliceNothing(buf: seq<byte>, at: nat)
    ensures Slice(buf, at, at) == []
  {
  }

  /** Stripping is idempotent on every input it accepts, except where the stripped form looks marked again. */
  lemma StripTwice(rawTxHex: string)
    requires Stripped(rawTxHex).Ok?
    ensures var buf := Hex.Decode(rawTxHex);
            Stripped(Stripped(rawTxHex).value) == Stripped(rawTxHex)
            <==> !(IsSegWit(buf) && |buf| >= 8 && buf[6] == 0x00 && buf[7] == 0x01)
  {
    var buf := Hex.Decode(rawTxHex);
    if IsSegWit(buf) {
      var kept := Strip(buf).value;
      StrippedMarker(buf);
      Hex.DecodeEncode(kept);
      StripIsIdentityIffUnmarked(Hex.Encode(kept));
    }
  }

  /** On transactions: the witness form always strips to the legacy form, which is a fixed point
      exactly when it is not the form of a transaction with no input and one output. */
  lemma StripTransaction(tx: T.Tx, rawTxHex: string)
    requires T.Valid(tx)
    ensures Hex.Decode(rawTxHex) == T.WitnessForm(tx) ==> Stripped(rawTxHex) == Ok(Hex.Encode(T.LegacyForm(tx)))
    ensures Hex.Decode(rawTxHex) == T.LegacyForm(tx) ==>
              (Stripped(rawTxHex) == Ok(rawTxHex) <==> !(|tx.ins| == 0 && |tx.outs| == 1))
  {
    StripWitnessForm(tx);
    LegacyFormLayout(tx);
    StripIsIdentityIffUnmarked(rawTxHex);
  }

  /** On transactions: stripping a serialization twice is stripping it once unless there is no input and one output. */
  lemma StripTransactionTwice(tx: T.Tx, rawTxHex: string)
    requires T.Valid(tx)
    requires Hex.Decode(rawTxHex) == T.WitnessForm(tx)
          || (Hex.Decode(rawTxHex) == T.LegacyForm(tx) && !(|tx.ins| == 0 && |tx.outs| == 1))
    ensures Stripped(rawTxHex).Ok?
    ensures Stripped(Stripped(rawTxHex).value) == Stripped(rawTxHex) <==> !(|tx.ins| == 0 && |tx.outs| == 1)
  {
    hide Stripped, T.LegacyForm, T.WitnessForm, Hex.Decode, Hex.Encode;
    StripTransaction(tx, rawTxHex);
    Hex.DecodeEncode(T.LegacyForm(tx));
    StripTransaction(tx, Hex.Encode(T.LegacyForm(tx)));
  }

  /** The smallest transaction of that kind: nothing in, nothing out, to an empty script. */
  function EmptyPayment(): (tx: T.Tx)
    ensures T.Valid(tx)
  {
    T.Tx(Zeros(4), [], [T.TxOut(0, [])], [], Zeros(4))
  }

  /** A marked buffer that announces neither inputs nor outputs. */
  lemma StripNothing(buf: seq<byte>)
    requires |buf| >= 8 && buf[6] == 0 && buf[7] == 0
    ensures Strip(buf) == Ok(Slice(buf, 0, 4) + [0, 0] + Slice(buf, 8, 12))
  {
    hide ReadLE;
    assert CompactSize.ReadVarInt(buf, 6) == Ok(CompactSize.VarInt(0, 1));
    assert CompactSize.ReadVarInt(buf, 7) == Ok(CompactSize.VarInt(0, 1));
    hide CompactSize.ReadVarInt;
    assert Slice(buf, 6, 7) == [0] && Slice(buf, 7, 7) == [] && Slice(buf, 7, 8) == [0];
    hide Slice;
    assert Slice(buf, 0, 4) + [0] + [] + [0] == Slice(buf, 0, 4) + [0, 0];
  }

  /** Its witness form of 21 bytes strips to the legacy form of 19, and that to 10 bytes that are neither. */
  lemma EmptyPaymentStripsTwice()
    ensures Strip(T.WitnessForm(EmptyPayment())) == Ok(T.LegacyForm(EmptyPayment()))
    ensures |T.LegacyForm(EmptyPayment())| == 19 && Strip(T.LegacyForm(EmptyPayment())) == Ok(Zeros(10))
  {
    hide Strip, T.WitnessForm, T.LegacyForm, EmptyPayment;
    StripWitnessForm(EmptyPayment());
    EmptyPaymentBytes();
    var buf: seq<byte> := Zeros(5) + [1] + Zeros(13);
    StripNothing(buf);
    assert Slice(buf, 0, 4) + [0, 0] + Slice(buf, 8, 12) == Zeros(10);
  }

  lemma EmptyPaymentBytes()
    ensures T.LegacyForm(EmptyPayment()) == Zeros(5) + [1] + Zeros(13)
  {
    var tx := EmptyPayment();
    ZerosLE(8);
    hide LE;
    assert T.Output(tx.outs[0]) == Zeros(9);
    assert T.Outputs(tx.outs) == T.Output(tx.outs[0]) + T.Outputs([]);
    hide T.Output, T.Outputs;
    assert T.Outputs([]) == [] && T.Inputs([]) == [] by {
      NoPuts();
    }
    assert T.Body(tx) == [0] + ([] + ([1] + Zeros(9)));
  }

  lemma NoPuts()
    ensures T.Outputs([]) == [] && T.Inputs([]) == []
  {
  }

  lemma {:induction false} ZerosLE(width: nat)
    ensures LE(0, width) == Zeros(width)
  {
    if width > 0 {
      ZerosLE(width - 1);
    }
  }

  // ---------------------------------------------------------------- finding the vault output

  function SearchOutputs(buf: seq<byte>, cursor: nat, vout: nat, count: nat, scriptHex: string)
    : Result<VaultOutput, DataError>
    decreases count - vout
  {
    if vout >= count then Err(NoVaultOutput)
    else
      var amount :- ReadLE(buf, cursor, 8);
      var len :- CompactSize.ReadVarInt(buf, cursor + 8);
      var start := cursor + 8 + len.size;
      if Hex.Encode(Slice(buf, start, start + len.value)) == scriptHex then Ok(VaultOutput(vout, ToNumber(amount)))
      else SearchOutputs(buf, start + len.value, vout + 1, count, scriptHex)
  }

  function VaultOutputOf(rawTxHex: string, scriptHex: string): Result<VaultOutput, DataError> {
    var buf := Hex.Decode(rawTxHex);
    var start := if IsSegWit(buf) then 6 else 4;
    var ins :- CompactSize.ReadVarInt(buf, start);
    var mid :- InputsEnd(buf, start + ins.size, ins.value);
    var outs :- CompactSize.ReadVarInt(buf, mid);
    SearchOutputs(buf, mid + outs.size, 0, outs.value, scriptHex)
  }

  method ScanOutputs(buf: seq<byte>, start: nat, count: nat, scriptHex: string)
    returns (r: Result<VaultOutput, DataError>)
    ensures r == SearchOutputs(buf, start, 0, count, scriptHex)
  {
    hide CompactSize.ReadVarInt, ReadLE, ToNumber, Slice, Hex.Encode;
    var cursor: nat, vout := start, 0;
    ghost var searched := SearchOutputs(buf, start, 0, count, scriptHex);
    while vout < count
      invariant vout <= count
      invariant searched == SearchOutputs(buf, cursor, vout, count, scriptHex)
    {
      var amount :- ReadLE(buf, cursor, 8);
      cursor := cursor + 8;
      var len :- CompactSize.ReadVarInt(buf, cursor);
      cursor := cursor + len.size;
      var found := Hex.Encode(Slice(buf, cursor, cursor + len.value));
      cursor := cursor + len.value;
      if found == scriptHex {
        return Ok(VaultOutput(vout, ToNumber(amount)));
      }
      vout := vout + 1;
    }
    return Err(NoVaultOutput);
  }

  method FindVaultOutput(rawTxHex: string, vaultScriptPubKeyHex: string) returns (r: Result<VaultOutput, DataError>)
    ensures r == VaultOutputOf(rawTxHex, vaultScriptPubKeyHex)
    ensures forall tx: T.Tx | T.Valid(tx) && Hex.Decode(rawTxHex) == T.WitnessForm(tx) ::
              FirstPaying(tx.outs, vaultScriptPubKeyHex, 0, r)
  {
    hide CompactSize.ReadVarInt, SearchOutputs, InputsEnd, Hex.Decode, T.Valid, T.WitnessForm, FirstPaying;
    forall tx: T.Tx | T.Valid(tx) && Hex.Decode(rawTxHex) == T.WitnessForm(tx)
      ensures FirstPaying(tx.outs, vaultScriptPubKeyHex, 0, VaultOutputOf(rawTxHex, vaultScriptPubKeyHex))
    {
      VaultOutputOnTransaction(tx, rawTxHex, vaultScriptPubKeyHex);
    }
    var buf := Hex.Decode(rawTxHex);
    var cursor: nat := 4;
    if IsSegWit(buf) {
      cursor := cursor + 2;
    }
    var ins :- CompactSize.ReadVarInt(buf, cursor);
    cursor :- SkipInputs(buf, cursor + ins.size, ins.value);
    var outs :- CompactSize.ReadVarInt(buf, cursor);
    r := ScanOutputs(buf, cursor + outs.size, outs.value, vaultScriptPubKeyHex);
  }

  predicate Pays(o: T.TxOut, scriptHex: string) {
    Hex.Encode(o.script) == scriptHex
  }

  /** `r` reports the first of `outs` that pays the script, counting from `base`, or that none does. */
  ghost predicate FirstPaying(outs: seq<T.TxOut>, scriptHex: string, base: nat, r: Result<VaultOutput, DataError>) {
    match r
    case Ok(found) =>
      var k := found.voutIndex - base;
      && 0 <= k < |outs|
      && Pays(outs[k], scriptHex)
      && found.amountSats == ToNumber(outs[k].value)
      && forall j :: 0 <= j < k ==> !Pays(outs[j], scriptHex)
    case Err(e) =>
      e == NoVaultOutput && forall j :: 0 <= j < |outs| ==> !Pays(outs[j], scriptHex)
  }

  lemma FirstPayingTail(outs: seq<T.TxOut>, scriptHex: string, base: nat, r: Result<VaultOutput, DataError>)
    requires outs != [] && !Pays(outs[0], scriptHex)
    requires FirstPaying(outs[1..], scriptHex, base + 1, r)
    ensures FirstPaying(outs, scriptHex, base, r)
  {
    hide Hex.Encode, ToNumber;
    assert forall j :: 1 <= j < |outs| ==> outs[j] == outs[1..][j - 1];
  }

  lemma NothingPays(scriptHex: string, base: nat)
    ensures FirstPaying([], scriptHex, base, Err(NoVaultOutput))
  {
  }

  lemma FirstPayingHead(outs: seq<T.TxOut>, scriptHex: string, base: nat)
    requires outs != [] && Pays(outs[0], scriptHex)
    ensures FirstPaying(outs, scriptHex, base, Ok(VaultOutput(base, ToNumber(outs[0].value))))
  {
  }

  lemma {:induction false} SearchAt(buf: seq<byte>, cursor: nat, outs: seq<T.TxOut>, base: nat, scriptHex: string)
    requires forall o :: o in outs ==> o.value < U64 && |o.script| < MAX_SAFE
    requires At(buf, cursor, T.Outputs(outs))
    ensures FirstPaying(outs, scriptHex, base, SearchOutputs(buf, cursor, base, base + |outs|, scriptHex))
    decreases |outs|
  {
    hide CompactSize.ReadVarInt, At, ReadLE, ToNumber, Hex.Encode, Slice, CompactSize.Encode, FirstPaying, T.Output;
    NothingPays(scriptHex, base);
    if outs != [] {
      var o := outs[0];
      OutputAt(buf, cursor, o, T.Outputs(outs[1..]));
      AtSlice(buf, cursor + 8 + |CompactSize.Encode(|o.script|)|, o.script);
      if Pays(o, scriptHex) {
        FirstPayingHead(outs, scriptHex, base);
      } else {
        var next := cursor + |T.Output(o)|;
        SearchAt(buf, next, outs[1..], base + 1, scriptHex);
        FirstPayingTail(outs, scriptHex, base, SearchOutputs(buf, next, base + 1, base + |outs|, scriptHex));
      }
    }
  }

  /** The search answers for the transaction, from either serialization, unless the legacy form looks marked. */
  lemma VaultOutputOnTransaction(tx: T.Tx, rawTxHex: string, scriptHex: string)
    requires T.Valid(tx)
    requires Hex.Decode(rawTxHex) == T.WitnessForm(tx)
          || (Hex.Decode(rawTxHex) == T.LegacyForm(tx) && !(|tx.ins| == 0 && |tx.outs| == 1))
    ensures FirstPaying(tx.outs, scriptHex, 0, VaultOutputOf(rawTxHex, scriptHex))
  {
    hide CompactSize.ReadVarInt, CompactSize.Encode, InputsEnd, At, SearchOutputs, FirstPaying, Hex.Decode,
      T.Inputs, T.Outputs, T.Stacks, T.Body, T.WitnessForm, T.LegacyForm;
    var buf := Hex.Decode(rawTxHex);
    var start := if IsSegWit(buf) then 6 else 4;
    WitnessFormLayout(tx);
    LegacyFormLayout(tx);
    BodyAt(buf, start, tx);
    var mid := start + |CompactSize.Encode(|tx.ins|)| + |T.Inputs(tx.ins)|;
    SearchAt(buf, mid + |CompactSize.Encode(|tx.outs|)|, tx.outs, 0, scriptHex);
  }

  /** One turn of the search, beside one step over the outputs. */
  lemma SearchTurn(buf: seq<byte>, cursor: nat, vout: nat, count: nat, scriptHex: string)
    requires vout < count
    ensures var len, r := CompactSize.ReadVarInt(buf, cursor + 8), SearchOutputs(buf, cursor, vout, count, scriptHex);
            var outs := OutputsEnd(buf, cursor, count - vout);
            match len
            case Err(_) => r == Err(OutOfRange) && outs.Err?
            case Ok(len) =>
              var next := cursor + 8 + len.size + len.value;
              && outs == OutputsEnd(buf, next, count - vout - 1)
              && ((r.Ok? && r.value.voutIndex == vout) || r == SearchOutputs(buf, next, vout + 1, count, scriptHex))
  {
    ReadErrors(buf, cursor);
    hide ReadLE, CompactSize.ReadVarInt, Slice, Hex.Encode, ToNumber;
  }

  lemma SearchEnds(buf: seq<byte>, cursor: nat, count: nat, scriptHex: string)
    ensures SearchOutputs(buf, cursor, count, count, scriptHex) == Err(NoVaultOutput)
    ensures OutputsEnd(buf, cursor, 0) == Ok(cursor)
  {
  }

  lemma ReadErrors(buf: seq<byte>, cursor: nat)
    ensures CompactSize.ReadVarInt(buf, cursor + 8).Ok? ==> ReadLE(buf, cursor, 8).Ok?
    ensures ReadLE(buf, cursor, 8).Err? ==> ReadLE(buf, cursor, 8) == Err(OutOfRange)
    ensures CompactSize.ReadVarInt(buf, cursor + 8).Err? ==> CompactSize.ReadVarInt(buf, cursor + 8) == Err(OutOfRange)
  {
  }

  /** On any bytes: the search ends without a vault output only if it can read every output, and fails otherwise only
      because it cannot. */
  lemma {:induction false} SearchErrors(buf: seq<byte>, cursor: nat, vout: nat, count: nat, scriptHex: string)
    requires vout <= count
    ensures match SearchOutputs(buf, cursor, vout, count, scriptHex)
            case Ok(found) => vout <= found.voutIndex < count
            case Err(e) =>
              if OutputsEnd(buf, cursor, count - vout).Ok? then e == NoVaultOutput else e == OutOfRange
    decreases count - vout
  {
    hide CompactSize.ReadVarInt, SearchOutputs, OutputsEnd;
    if vout == count {
      SearchEnds(buf, cursor, count, scriptHex);
    } else {
      SearchTurn(buf, cursor, vout, count, scriptHex);
      var len := CompactSize.ReadVarInt(buf, cursor + 8);
      if len.Ok? {
        SearchErrors(buf, cursor + 8 + len.value.size + len.value.value, vout + 1, count, scriptHex);
      }
    }
  }

  /** Both forms of a transaction give the same vault output unless there is no input and one output. */
  lemma VaultOutputSameOnBothForms(tx: T.Tx, witnessHex: string, legacyHex: string, scriptHex: string)
    requires T.Valid(tx) && !(|tx.ins| == 0 && |tx.outs| == 1)
    requires Hex.Decode(witnessHex) == T.WitnessForm(tx) && Hex.Decode(legacyHex) == T.LegacyForm(tx)
    ensures VaultOutputOf(witnessHex, scriptHex) == VaultOutputOf(legacyHex, scriptHex)
  {
    hide VaultOutputOf, ToNumber, Hex.Encode, Hex.Decode, T.WitnessForm, T.LegacyForm;
    VaultOutputOnTransaction(tx, witnessHex, scriptHex);
    VaultOutputOnTransaction(tx, legacyHex, scriptHex);
    var a, b := VaultOutputOf(witnessHex, scriptHex), VaultOutputOf(legacyHex, scriptHex);
    if a.Ok? && b.Ok? {
      assert !(a.value.voutIndex < b.value.voutIndex);
      assert !(b.value.voutIndex < a.value.voutIndex);
    }
  }

  /** There the two forms can differ: in its legacy form the search sees no output. */
  lemma EmptyPaymentFormsDiffer(witnessHex: string, legacyHex: string)
    requires Hex.Decode(witnessHex) == T.WitnessForm(EmptyPayment())
    requires Hex.Decode(legacyHex) == T.LegacyForm(EmptyPayment())
    ensures VaultOutputOf(witnessHex, "") == Ok(VaultOutput(0, 0))
    ensures VaultOutputOf(legacyHex, "") == Err(NoVaultOutput)
  {
    VaultOutputOnTransaction(EmptyPayment(), witnessHex, "");
    assert Pays(EmptyPayment().outs[0], "");
    hide T.WitnessForm, T.LegacyForm, EmptyPayment;
    EmptyPaymentBytes();
    SearchNothing(legacyHex, "");
  }

  lemma SearchNothing(rawTxHex: string, scriptHex: string)
    requires var buf := Hex.Decode(rawTxHex); IsSegWit(buf) && |buf| >= 8 && buf[6] == 0 && buf[7] == 0
    ensures VaultOutputOf(rawTxHex, scriptHex) == Err(NoVaultOutput)
  {
    hide ReadLE;
    var buf := Hex.Decode(rawTxHex);
    assert CompactSize.ReadVarInt(buf, 6) == Ok(CompactSize.VarInt(0, 1));
    assert CompactSize.ReadVarInt(buf, 7) == Ok(CompactSize.VarInt(0, 1));
  }

  // ---------------------------------------------------------------- sibling hashes and the whole proof

  /** Display order to internal order, then eight big-endian words. */
  function HexHashWords(hex: string): Result<Words, DataError> {
    var buf := Hex.Decode(hex);
    if |buf| != 32 then Err(BadLength(|buf|)) else Ok(ToWords(Reverse(buf)))
  }

  method HexHashToWords(hex: string) returns (r: Result<Words, DataError>)
    ensures r == HexHashWords(hex)
    ensures var bytes := Hex.Decode(hex);
            r == if |bytes| == 32 then Ok(ToWords(Reverse(bytes))) else Err(BadLength(|bytes|))
  {
    var bytes := Hex.Decode(hex);
    var buf := new byte[|bytes|](k requires 0 <= k < |bytes| => bytes[k]);
    if buf.Length != 32 {
      return Err(BadLength(buf.Length));
    }
    assert buf[..] == bytes;
    ReverseInPlace(buf);
    var words := ReadWordsBE(buf[..]);
    return Ok(words);
  }

  ghost predicate FirstBadHash(merkle: seq<string>, k: nat, e: DataError) {
    k < |merkle| && HexHashWords(merkle[k]) == Err(e) && forall j :: 0 <= j < k ==> HexHashWords(merkle[j]).Ok?
  }

  /** What buildSpvProof answers for fetched Merkle data and a fetched raw transaction. */
  ghost predicate ProofFor(data: MerkleData, rawTxHex: string, scriptHex: string, r: Result<SpvProof, DataError>) {
    var stripped, found := Stripped(rawTxHex), VaultOutputOf(rawTxHex, scriptHex);
    && (r.Ok? <==> stripped.Ok? && found.Ok? && forall h :: h in data.merkle ==> HexHashWords(h).Ok?)
    && (stripped.Err? ==> r == Err(stripped.error))
    && (stripped.Ok? && found.Err? ==> r == Err(found.error))
    && (stripped.Ok? && found.Ok? && r.Err? ==> exists k :: FirstBadHash(data.merkle, k, r.error))
    && (r.Ok? ==>
          var p := r.value;
          && p.blockHeight == data.blockHeight && p.txPos == data.pos && p.rawTxHex == stripped.value
          && p.voutIndex == found.value.voutIndex && p.amountSats == found.value.amountSats
          && |p.merkleProof| == |data.merkle|
          && forall k :: 0 <= k < |data.merkle| ==> HexHashWords(data.merkle[k]) == Ok(p.merkleProof[k]))
  }

  method BuildSpvProof(data: MerkleData, rawTxHex: string, vaultScriptPubKey: string)
    returns (r: Result<SpvProof, DataError>)
    ensures ProofFor(data, rawTxHex, vaultScriptPubKey, r)
  {
    hide Stripped, VaultOutputOf, HexHashWords;
    var stripped :- StripWitnessData(rawTxHex);
    var found :- FindVaultOutput(rawTxHex, vaultScriptPubKey);
    var merkleProof: seq<Words> := [];
    for i := 0 to |data.merkle|
      invariant |merkleProof| == i
      invariant forall k :: 0 <= k < i ==> HexHashWords(data.merkle[k]) == Ok(merkleProof[k])
    {
      var words := HexHashToWords(data.merkle[i]);
      if words.Err? {
        assert FirstBadHash(data.merkle, i, words.error);
        return Err(words.error);
      }
      merkleProof := merkleProof + [words.value];
    }
    return Ok(SpvProof(data.blockHeight, data.pos, stripped, merkleProof, found.voutIndex, found.amountSats));
  }

  /** The calldata arrays: the transaction bytes and the sibling words. */
  function EncodeSpvProofAsCalldata(proof: SpvProof): (seq<byte>, seq<Words>) {
    (Hex.Decode(proof.rawTxHex), proof.merkleProof)
  }
}
