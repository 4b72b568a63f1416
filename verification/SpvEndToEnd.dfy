/**
  * The proof builder, the Merkle verifier and the header relay agree on every byte order: a proof
  * built for a transaction of a block is accepted against the root cut from the block's header,
  * and an accepted proof is for a transaction of that block unless it exposes a hash collision.
  */
module SpvEndToEnd {
  import opened Wrappers
  import opened Bytes
  import Hex
  import T = Transactions
  import M = Merkle
  import P = BitcoinProof
  import BlockHeader
  import Relay = HeaderRelay

  /** A transaction's id is the double hash of its legacy serialization. */
  function TxId(H: M.Digest, tx: T.Tx): Hash256
    requires T.Valid(tx)
  {
    H(T.LegacyForm(tx))
  }

  function TxIds(H: M.Digest, txs: seq<T.Tx>): (ids: seq<Hash256>)
    requires forall tx :: tx in txs ==> T.Valid(tx)
    ensures |ids| == |txs|
  {
    seq(|txs|, k requires 0 <= k < |txs| => TxId(H, txs[k]))
  }

  /** The header commits to the transactions of its block. */
  ghost predicate HeaderOf(H: M.Digest, txs: seq<T.Tx>, headerHex: string) {
    && txs != [] && (forall tx :: tx in txs ==> T.Valid(tx))
    && |headerHex| == 160 && |Hex.Decode(headerHex)| == 80
    && Hex.Decode(headerHex)[36..68] == M.Root(H, TxIds(H, txs))
  }

  /** The Merkle data lists the branch of position i, every hash in display order. */
  ghost predicate BranchOf(H: M.Digest, txs: seq<T.Tx>, i: nat, data: P.MerkleData)
    requires txs != [] && forall tx :: tx in txs ==> T.Valid(tx)
  {
    var branch := M.Branch(H, TxIds(H, txs), i);
    && data.pos == i && |data.merkle| == |branch|
    && forall k :: 0 <= k < |branch| ==> Hex.Decode(data.merkle[k]) == Reverse(branch[k])
  }

  /** The raw transaction is a serialization of `tx` that the parser tells apart. */
  ghost predicate RawOf(tx: T.Tx, rawTxHex: string)
    requires T.Valid(tx)
  {
    || Hex.Decode(rawTxHex) == T.WitnessForm(tx)
    || (Hex.Decode(rawTxHex) == T.LegacyForm(tx) && !(|tx.ins| == 0 && |tx.outs| == 1))
  }

  lemma SiblingWords(branch: seq<Hash256>, merkle: seq<string>)
    requires |merkle| == |branch|
    requires forall k :: 0 <= k < |branch| ==> Hex.Decode(merkle[k]) == Reverse(branch[k])
    ensures forall k :: 0 <= k < |branch| ==> P.HexHashWords(merkle[k]) == Ok(M.AllWords(branch)[k])
  {
    forall k | 0 <= k < |branch|
      ensures P.HexHashWords(merkle[k]) == Ok(M.AllWords(branch)[k])
    {
      ReverseTwice(branch[k]);
    }
  }

  lemma StrippedIsLegacy(tx: T.Tx, rawTxHex: string)
    requires T.Valid(tx) && RawOf(tx, rawTxHex)
    ensures P.Stripped(rawTxHex).Ok? && Hex.Decode(P.Stripped(rawTxHex).value) == T.LegacyForm(tx)
  {
    P.StripTransaction(tx, rawTxHex);
    Hex.DecodeEncode(T.LegacyForm(tx));
  }

  /** There is a header for every block, and Merkle data and a raw transaction for each of its positions. */
  lemma EveryBlockCanBePublished(H: M.Digest, txs: seq<T.Tx>, i: nat)
    returns (headerHex: string, data: P.MerkleData, rawTxHex: string)
    requires i < |txs| && forall tx :: tx in txs ==> T.Valid(tx)
    ensures HeaderOf(H, txs, headerHex) && BranchOf(H, txs, i, data) && RawOf(txs[i], rawTxHex)
  {
    hide M.Branch, M.Root, T.Valid, T.WitnessForm, T.LegacyForm;
    var root := M.Root(H, TxIds(H, txs));
    var header: seq<byte> := Zeros(36) + root + Zeros(12);
    headerHex := Hex.Encode(header);
    Hex.DecodeEncode(header);
    assert header[36..68] == root;
    var branch := M.Branch(H, TxIds(H, txs), i);
    data := P.MerkleData(0, i, seq(|branch|, k requires 0 <= k < |branch| => Hex.Encode(Reverse(branch[k]))));
    forall k | 0 <= k < |branch|
      ensures Hex.Decode(data.merkle[k]) == Reverse(branch[k])
    {
      Hex.DecodeEncode(Reverse(branch[k]));
    }
    rawTxHex := Hex.Encode(T.WitnessForm(txs[i]));
    Hex.DecodeEncode(T.WitnessForm(txs[i]));
  }

  /** The proof exists exactly when an output pays the vault; it then names the first such output, carries
      the legacy bytes, and folds to the root of the header. */
  lemma BuiltProofIsAccepted(H: M.Digest, txs: seq<T.Tx>, i: nat, headerHex: string, data: P.MerkleData,
                             rawTxHex: string, scriptHex: string, r: Result<P.SpvProof, DataError>)
    requires HeaderOf(H, txs, headerHex) && i < |txs| && BranchOf(H, txs, i, data) && RawOf(txs[i], rawTxHex)
    requires P.ProofFor(data, rawTxHex, scriptHex, r)
    ensures r.Ok? <==> exists o :: o in txs[i].outs && P.Pays(o, scriptHex)
    ensures r.Err? ==> r == Err(NoVaultOutput)
    ensures r.Ok? ==>
              var p := r.value;
              && P.FirstPaying(txs[i].outs, scriptHex, 0, Ok(P.VaultOutput(p.voutIndex, p.amountSats)))
              && P.EncodeSpvProofAsCalldata(p).0 == T.LegacyForm(txs[i])
              && BlockHeader.HeaderWords(headerHex)
                 == Ok(M.Fold(H, ToWords(H(Hex.Decode(p.rawTxHex))), p.merkleProof, p.txPos))
  {
    hide P.Stripped, P.VaultOutputOf, P.HexHashWords, M.Branch, M.Root, M.Fold, Hex.Decode, Hex.Encode, T.LegacyForm,
      T.WitnessForm, ToNumber, Reverse, BlockHeader.RootWords;
    var ids := TxIds(H, txs);
    var branch := M.Branch(H, ids, i);
    SiblingWords(branch, data.merkle);
    StrippedIsLegacy(txs[i], rawTxHex);
    P.VaultOutputOnTransaction(txs[i], rawTxHex, scriptHex);
    BlockHeader.RootOfHeader(headerHex);
    if r.Ok? {
      var p := r.value;
      assert p.merkleProof == M.AllWords(branch) by {
        assert forall k :: 0 <= k < |branch| ==> P.HexHashWords(data.merkle[k]) == Ok(p.merkleProof[k]);
      }
      M.SlotInRange(|ids|, i);
      M.BranchClimbsToRoot(H, ids, i);
      M.FoldIsClimb(H, ids[i], branch, i);
      var k := p.voutIndex;
      assert P.Pays(txs[i].outs[k], scriptHex);
    } else {
      assert forall h :: h in data.merkle ==> P.HexHashWords(h).Ok?;
    }
  }

  /** With the relay: after any run that fetched the headers of `chain`, the proof of a deposit in any block between the
      first cursor and the current one folds to the words that the header store holds at the proof's height. */
  lemma RelayedDepositIsAccepted(H: M.Digest, c0: nat, events: seq<Relay.Event>, chain: int -> string,
                                 txs: seq<T.Tx>, i: nat, data: P.MerkleData, rawTxHex: string, scriptHex: string,
                                 p: P.SpvProof)
    requires Relay.GenuineRun(chain, Relay.Fresh(c0), events)
    requires var cursor := Relay.Run(Relay.Fresh(c0), events).cursor;
             cursor.Some? && c0 < data.blockHeight <= cursor.value
    requires HeaderOf(H, txs, chain(data.blockHeight)) && i < |txs| && BranchOf(H, txs, i, data)
    requires RawOf(txs[i], rawTxHex) && P.ProofFor(data, rawTxHex, scriptHex, Ok(p))
    ensures var stored := Relay.Run(Relay.Fresh(c0), events).stored;
            && p.blockHeight in stored
            && stored[p.blockHeight] == M.Fold(H, ToWords(H(Hex.Decode(p.rawTxHex))), p.merkleProof, p.txPos)
  {
    assert p.blockHeight == data.blockHeight;
    hide HeaderOf, BranchOf, RawOf, P.ProofFor, Relay.Run, Relay.GenuineRun, M.Fold, Hex.Decode;
    Relay.RelayIsGapFree(c0, events, chain);
    BuiltProofIsAccepted(H, txs, i, chain(data.blockHeight), data, rawTxHex, scriptHex, Ok(p));
  }

  /** Two nodes of the block's tree, the children of the node that a proof of that length starts at. */
  ghost predicate InnerPair(H: M.Digest, txs: seq<T.Tx>, length: nat, pos: nat, l: Hash256, r: Hash256)
    requires txs != [] && (forall tx :: tx in txs ==> T.Valid(tx)) && length < M.Depth(|txs|)
  {
    M.InnerPair(H, TxIds(H, txs), M.Depth(|txs|) - length, pos, l, r)
  }

  /** Whatever a proof claims, if it folds to the root of the header then, depending on its length, its bytes are the
      legacy serialization of the transaction its position reaches, or the 64-byte join of two nodes of the tree, or
      a transaction of the block is itself such a join; or two different messages hash alike. */
  lemma AcceptedProofIsInBlock(H: M.Digest, txs: seq<T.Tx>, headerHex: string, p: P.SpvProof)
    returns (a: seq<byte>, b: seq<byte>, l: Hash256, r: Hash256)
    requires HeaderOf(H, txs, headerHex)
    requires BlockHeader.HeaderWords(headerHex)
          == Ok(M.Fold(H, ToWords(H(Hex.Decode(p.rawTxHex))), p.merkleProof, p.txPos))
    ensures M.Collision(H, a, b)
         || var raw, length, depth := Hex.Decode(p.rawTxHex), |p.merkleProof|, M.Depth(|txs|);
            if length == depth then raw == T.LegacyForm(txs[M.Slot(|txs|, p.txPos)])
            else if length < depth then raw == M.Join(l, r) && InnerPair(H, txs, length, p.txPos, l, r)
            else T.LegacyForm(txs[M.Slot(|txs|, M.Shift(p.txPos, length - depth))]) == M.Join(l, r)
  {
    hide M.Root, M.Climb, M.Fold, M.Branch, M.InnerPair, M.Shift, M.Depth, M.Slot, Hex.Decode, T.LegacyForm;
    var ids, raw, proof := TxIds(H, txs), Hex.Decode(p.rawTxHex), M.AllBytes(p.merkleProof);
    FoldReachesRoot(H, txs, headerHex, p);
    var zeros: Hash256 := Zeros(32);
    l, r := zeros, zeros;
    if |proof| == M.Depth(|txs|) {
      a, b := M.ClimbIsBranchOrCollision(H, ids, H(raw), proof, p.txPos);
      if !M.Collision(H, a, b) {
        a, b := raw, T.LegacyForm(txs[M.Slot(|txs|, p.txPos)]);
      }
    } else if |proof| < M.Depth(|txs|) {
      a, b, l, r := M.ShortClimb(H, ids, H(raw), proof, p.txPos);
      if !M.Collision(H, a, b) {
        a, b := raw, M.Join(l, r);
      }
    } else {
      a, b, l, r := M.LongClimb(H, ids, H(raw), proof, p.txPos);
      if !M.Collision(H, a, b) {
        a, b := T.LegacyForm(txs[M.Slot(|txs|, M.Shift(p.txPos, |proof| - M.Depth(|txs|)))]), M.Join(l, r);
      }
    }
  }

  /** A proof folds to the root of the header exactly when its hashes climb to the root of the tree. */
  lemma FoldReachesRoot(H: M.Digest, txs: seq<T.Tx>, headerHex: string, p: P.SpvProof)
    requires HeaderOf(H, txs, headerHex)
    ensures BlockHeader.HeaderWords(headerHex)
         == Ok(M.Fold(H, ToWords(H(Hex.Decode(p.rawTxHex))), p.merkleProof, p.txPos))
      <==> M.Climb(H, H(Hex.Decode(p.rawTxHex)), M.AllBytes(p.merkleProof), p.txPos) == M.Root(H, TxIds(H, txs))
  {
    hide M.Root, M.Climb, M.Fold, Hex.Decode, BlockHeader.HeaderWords;
    var x, proof := H(Hex.Decode(p.rawTxHex)), M.AllBytes(p.merkleProof);
    BlockHeader.RootOfHeader(headerHex);
    M.AllWordsOfBytes(p.merkleProof);
    M.FoldIsClimb(H, x, proof, p.txPos);
    M.ToWordsInjective(M.Climb(H, x, proof, p.txPos), M.Root(H, TxIds(H, txs)));
  }

  lemma BytesOfAllWords(hashes: seq<Hash256>)
    ensures M.AllBytes(M.AllWords(hashes)) == hashes
  {
    forall k | 0 <= k < |hashes|
      ensures FromWords(ToWords(hashes[k])) == hashes[k]
    {
      WordsOfBytes(hashes[k]);
    }
  }

  /** The shorter proofs do occur: in every block, for every level above the leaves and every position, the join of the
      two nodes below is accepted with a proof that is that much shorter. */
  lemma ShorterProofsExist(H: M.Digest, txs: seq<T.Tx>, headerHex: string, length: nat, pos: nat)
    returns (p: P.SpvProof, l: Hash256, r: Hash256)
    requires HeaderOf(H, txs, headerHex) && length < M.Depth(|txs|)
    ensures |p.merkleProof| == length && p.txPos == pos
    ensures Hex.Decode(p.rawTxHex) == M.Join(l, r) && InnerPair(H, txs, length, pos, l, r)
    ensures BlockHeader.HeaderWords(headerHex)
         == Ok(M.Fold(H, ToWords(H(Hex.Decode(p.rawTxHex))), p.merkleProof, p.txPos))
  {
    hide M.Root, M.Climb, M.Fold, M.Branch, M.Level, M.InnerPair, M.Slot, Hex.Decode, Hex.Encode, T.LegacyForm;
    var ids, j := TxIds(H, txs), M.Depth(|txs|) - length;
    var level := M.Level(H, ids, j);
    l, r := M.NodeOfPair(H, ids, j, pos);
    M.LevelBranchClimbsToRoot(H, ids, j, pos);
    var branch := M.Branch(H, level, pos);
    p := P.SpvProof(0, pos, Hex.Encode(M.Join(l, r)), M.AllWords(branch), 0, 0);
    Hex.DecodeEncode(M.Join(l, r));
    BytesOfAllWords(branch);
    FoldReachesRoot(H, txs, headerHex, p);
  }

  /** And so do longer ones, if a transaction of the block is such a join: from bytes that hash to either side, the
      other side and then the branch of that transaction are accepted. */
  lemma LongerProofsExist(H: M.Digest, txs: seq<T.Tx>, headerHex: string, i: nat, rawTxHex: string, other: Hash256,
                          left: bool) returns (p: P.SpvProof)
    requires HeaderOf(H, txs, headerHex) && i < |txs|
    requires var x := H(Hex.Decode(rawTxHex));
             T.LegacyForm(txs[i]) == if left then M.Join(x, other) else M.Join(other, x)
    ensures p.rawTxHex == rawTxHex && |p.merkleProof| == M.Depth(|txs|) + 1
    ensures BlockHeader.HeaderWords(headerHex)
         == Ok(M.Fold(H, ToWords(H(Hex.Decode(p.rawTxHex))), p.merkleProof, p.txPos))
  {
    hide M.Root, M.Fold, M.Branch, M.Slot, Hex.Decode, T.LegacyForm;
    var ids, x := TxIds(H, txs), H(Hex.Decode(rawTxHex));
    var pos := if left then 2 * i else 2 * i + 1;
    assert M.Shift(pos, 1) == i by {
      assert M.Shift(pos / 2, 0) == i;
    }
    M.SlotInRange(|ids|, i);
    assert M.Climb(H, x, [other], pos) == ids[i] by {
      OneSibling(H, x, other, pos);
    }
    hide M.Climb, M.Shift;
    M.ExtendedBranchClimbsToRoot(H, ids, x, [other], pos);
    var whole := [other] + M.Branch(H, ids, i);
    p := P.SpvProof(0, pos, rawTxHex, M.AllWords(whole), 0, 0);
    BytesOfAllWords(whole);
    FoldReachesRoot(H, txs, headerHex, p);
  }

  lemma OneSibling(H: M.Digest, x: Hash256, other: Hash256, pos: nat)
    ensures M.Climb(H, x, [other], pos) == if pos % 2 == 0 then M.Node(H, x, other) else M.Node(H, other, x)
  {
    assert [other][1..] == [];
  }

  /** The debug script packs sibling hashes without reversing them; that agrees with the service
      exactly on hashes that read the same backwards. */
  lemma UnreversedSiblings(hex: string)
    requires |Hex.Decode(hex)| == 32
    ensures P.HexHashWords(hex) == Ok(ToWords(Hex.Decode(hex))) <==> Reverse(Hex.Decode(hex)) == Hex.Decode(hex)
  {
    M.ToWordsInjective(Reverse(Hex.Decode(hex)), Hex.Decode(hex));
  }

  /** The script's own way to the root: header bytes 36 to 68 as numbers. It agrees with the relay's on every header. */
  method FetchedRoot(headerHex: string) returns (r: Result<Words, DataError>)
    ensures r.Ok? <==> |Hex.Decode(headerHex)| >= 68
    ensures |headerHex| == 160 && |Hex.Decode(headerHex)| == 80 ==> r == BlockHeader.HeaderWords(headerHex)
  {
    var headerBuf := Hex.Decode(headerHex);
    if |headerHex| == 160 && |headerBuf| == 80 {
      BlockHeader.RootOfHeader(headerHex);
    }
    r := M.HashToWords(Slice(headerBuf, 36, 68));
  }

  /** Building, packing, cutting and verifying in the order a deposit check runs them. */
  method CheckDeposit(H: M.Digest, data: P.MerkleData, rawTxHex: string, scriptHex: string, headerHex: string,
                      ghost txs: seq<T.Tx>, ghost i: nat) returns (r: Result<bool, DataError>)
    requires HeaderOf(H, txs, headerHex) && i < |txs| && BranchOf(H, txs, i, data) && RawOf(txs[i], rawTxHex)
    ensures r == if exists o :: o in txs[i].outs && P.Pays(o, scriptHex) then Ok(true) else Err(NoVaultOutput)
  {
    hide M.Branch, M.Root, M.Fold, Hex.Decode, T.LegacyForm, BlockHeader.HeaderWords, P.FirstPaying, P.ProofFor,
      T.Valid;
    var built := P.BuildSpvProof(data, rawTxHex, scriptHex);
    BuiltProofIsAccepted(H, txs, i, headerHex, data, rawTxHex, scriptHex, built);
    var proof :- built;
    var (rawTx, siblings) := P.EncodeSpvProofAsCalldata(proof);
    var txid := M.HashToWords(H(rawTx));
    var root := FetchedRoot(headerHex);
    var accepted := M.VerifyMerkleProof(H, txid.value, siblings, proof.txPos, root.value);
    return Ok(accepted);
  }
}
