/** The header helpers of the relay: cutting the Merkle root out of a header and packing it into words. */
module BlockHeader {
  import opened Wrappers
  import opened Bytes
  import Hex

  /** Hex characters 72 to 136 of a 160-character header. */
  function ParseMerkleRootFromHeader(headerHex: string): Result<string, DataError> {
    if |headerHex| != 160 then Err(BadLength(|headerHex|)) else Ok(headerHex[72..136])
  }

  function RootWords(merkleRootHex: string): Result<Words, DataError> {
    var bytes := Hex.Decode(merkleRootHex);
    if |bytes| != 32 then Err(BadLength(|bytes|)) else Ok(ToWords(bytes))
  }

  /** The words posted for a header. */
  function HeaderWords(headerHex: string): Result<Words, DataError> {
    var merkleRoot :- ParseMerkleRootFromHeader(headerHex);
    RootWords(merkleRoot)
  }

  method MerkleRootToU32Array(merkleRootHex: string) returns (r: Result<Words, DataError>)
    ensures r == RootWords(merkleRootHex)
    ensures var bytes := Hex.Decode(merkleRootHex);
            r == if |bytes| == 32 then Ok(ToWords(bytes)) else Err(BadLength(|bytes|))
  {
    var bytes := Hex.Decode(merkleRootHex);
    if |bytes| != 32 {
      return Err(BadLength(|bytes|));
    }
    var words := ReadWordsBE(bytes);
    return Ok(words);
  }

  /** Cutting hex characters and then packing gives the words of header bytes 36 to 68. */
  lemma RootOfHeader(headerHex: string)
    requires |headerHex| == 160 && |Hex.Decode(headerHex)| == 80
    ensures ParseMerkleRootFromHeader(headerHex).Ok?
    ensures HeaderWords(headerHex) == Ok(ToWords(Hex.Decode(headerHex)[36..68]))
  {
    Hex.DecodeSlice(headerHex, 36, 68);
  }
}
