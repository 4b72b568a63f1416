/**
  * Bitcoin transactions and their two serializations, as laid down in the
  * "Serialization" section of BIP 144.
  */
module Transactions {
  import opened Bytes
  import CompactSize

  datatype TxIn = TxIn(outpoint: seq<byte>, script: seq<byte>, sequence: seq<byte>)
  datatype TxOut = TxOut(value: nat, script: seq<byte>)
  datatype Tx = Tx(version: seq<byte>, ins: seq<TxIn>, outs: seq<TxOut>, stacks: seq<seq<seq<byte>>>,
                   locktime: seq<byte>)

  ghost predicate ValidStack(stack: seq<seq<byte>>) {
    |stack| < MAX_SAFE && forall item :: item in stack ==> |item| < MAX_SAFE
  }

  /** Field widths are those of the format; nothing is longer than a JavaScript array can be. */
  ghost predicate Valid(tx: Tx) {
    && |tx.version| == 4 && |tx.locktime| == 4
    && |tx.ins| < MAX_SAFE && |tx.outs| < MAX_SAFE
    && (forall i :: i in tx.ins ==> |i.outpoint| == 36 && |i.script| < MAX_SAFE && |i.sequence| == 4)
    && (forall o :: o in tx.outs ==> o.value < U64 && |o.script| < MAX_SAFE)
    && |tx.stacks| == |tx.ins|
    && (forall stack :: stack in tx.stacks ==> ValidStack(stack))
  }

  function Input(i: TxIn): seq<byte>
    requires |i.script| < MAX_SAFE
  {
    i.outpoint + (CompactSize.Encode(|i.script|) + (i.script + i.sequence))
  }

  function Inputs(ins: seq<TxIn>): seq<byte>
    requires forall i :: i in ins ==> |i.script| < MAX_SAFE
  {
    if ins == [] then [] else Input(ins[0]) + Inputs(ins[1..])
  }

  function Output(o: TxOut): seq<byte>
    requires |o.script| < MAX_SAFE
  {
    LE(o.value, 8) + (CompactSize.Encode(|o.script|) + o.script)
  }

  function Outputs(outs: seq<TxOut>): seq<byte>
    requires forall o :: o in outs ==> |o.script| < MAX_SAFE
  {
    if outs == [] then [] else Output(outs[0]) + Outputs(outs[1..])
  }

  function Items(items: seq<seq<byte>>): seq<byte>
    requires forall item :: item in items ==> |item| < MAX_SAFE
  {
    if items == [] then [] else (CompactSize.Encode(|items[0]|) + items[0]) + Items(items[1..])
  }

  function Stack(stack: seq<seq<byte>>): seq<byte>
    requires ValidStack(stack)
  {
    CompactSize.Encode(|stack|) + Items(stack)
  }

  function Stacks(stacks: seq<seq<seq<byte>>>): seq<byte>
    requires forall stack :: stack in stacks ==> ValidStack(stack)
  {
    if stacks == [] then [] else Stack(stacks[0]) + Stacks(stacks[1..])
  }

  /** Input count, inputs, output count, outputs: the part both serializations share. */
  function Body(tx: Tx): seq<byte>
    requires Valid(tx)
  {
    CompactSize.Encode(|tx.ins|) + (Inputs(tx.ins) + (CompactSize.Encode(|tx.outs|) + Outputs(tx.outs)))
  }

  function LegacyForm(tx: Tx): seq<byte>
    requires Valid(tx)
  {
    tx.version + (Body(tx) + tx.locktime)
  }

  function WitnessForm(tx: Tx): seq<byte>
    requires Valid(tx)
  {
    tx.version + ([0x00, 0x01] + (Body(tx) + (Stacks(tx.stacks) + tx.locktime)))
  }
}
