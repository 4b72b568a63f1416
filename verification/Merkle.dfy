/**
  * Merkle branches: the verifier on eight-word hashes, and Bitcoin's tree over 32-byte hashes,
  * where a level of odd length pairs its last node with itself. `H` is double SHA-256.
  */
module Merkle {
  import opened Wrappers
  import opened Bytes

  type Digest = seq<byte> -> Hash256

  // ---------------------------------------------------------------- the verifier

  function PairHash(H: Digest, left: Words, right: Words): Words {
    ToWords(H(FromWords(left) + FromWords(right)))
  }

  /** The hash reached from `current` at position `pos` along the siblings. */
  function Fold(H: Digest, current: Words, proof: seq<Words>, pos: nat): Words
    decreases |proof|
  {
    if proof == [] then current
    else
      var parent := if pos % 2 == 0 then PairHash(H, current, proof[0]) else PairHash(H, proof[0], current);
      Fold(H, parent, proof[1..], pos / 2)
  }

  method HashToWords(hash: seq<byte>) returns (r: Result<Words, DataError>)
    ensures r == if |hash| == 32 then Ok(ToWords(hash)) else Err(BadLength(|hash|))
  {
    if |hash| != 32 {
      return Err(BadLength(|hash|));
    }
    var words := ReadWordsBE(hash);
    return Ok(words);
  }

  method WriteUInt32BE(b: array<byte>, w: u32, off: nat)
    requires off + 4 <= b.Length
    modifies b
    ensures b[..off + 4] == old(b[..off]) + WordBytes(w)
    ensures b[off + 4..] == old(b[off + 4..])
  {
    var value := w;
    b[off + 3] := value % 0x100;
    value := value / 0x100;
    b[off + 2] := value % 0x100;
    value := value / 0x100;
    b[off + 1] := value % 0x100;
    value := value / 0x100;
    b[off] := value;
  }

  lemma {:induction false} BytesSnoc(ws: seq<u32>, w: u32)
    ensures WordsToBytes(ws + [w]) == WordsToBytes(ws) + WordBytes(w)
  {
    if ws == [] {
      assert ws + [w] == [w];
    } else {
      BytesSnoc(ws[1..], w);
      assert (ws + [w])[0] == ws[0] && (ws + [w])[1..] == ws[1..] + [w];
    }
  }

  /** A 32-byte buffer holding the eight words, written one by one. */
  method WordsBuffer(words: Words) returns (b: array<byte>)
    ensures fresh(b) && b[..] == FromWords(words)
  {
    hide WordBytes;
    b := new byte[32](_ => 0);
    for i := 0 to 8
      invariant b[..4 * i] == WordsToBytes(words[..i])
    {
      BytesSnoc(words[..i], words[i]);
      assert words[..i] + [words[i]] == words[..i + 1];
      WriteUInt32BE(b, words[i], i * 4);
    }
    assert words[..8] == words && b[..32] == b[..];
  }

  method HashPair(H: Digest, left: Words, right: Words) returns (parent: Words)
    ensures parent == PairHash(H, left, right) == ToWords(H(FromWords(left) + FromWords(right)))
  {
    var leftBuf := WordsBuffer(left);
    var rightBuf := WordsBuffer(right);
    parent := ReadWordsBE(H(leftBuf[..] + rightBuf[..]));
  }

  method VerifyMerkleProof(H: Digest, txid: Words, proof: seq<Words>, pos: nat, merkleRoot: Words)
    returns (matches: bool)
    ensures matches <==> Fold(H, txid, proof, pos) == merkleRoot
  {
    hide PairHash;
    var current, idx := txid, pos;
    for i := 0 to |proof|
      invariant Fold(H, txid, proof, pos) == Fold(H, current, proof[i..], idx)
    {
      var sibling := proof[i];
      assert proof[i..][0] == sibling && proof[i..][1..] == proof[i + 1..];
      if idx % 2 == 0 {
        current := HashPair(H, current, sibling);
      } else {
        current := HashPair(H, sibling, current);
      }
      idx := idx / 2;
    }
    matches := true;
    for i := 0 to 8
      invariant matches <==> current[..i] == merkleRoot[..i]
    {
      assert current[..i + 1] == current[..i] + [current[i]];
      assert merkleRoot[..i + 1] == merkleRoot[..i] + [merkleRoot[i]];
      matches := matches && current[i] == merkleRoot[i];
    }
    assert current[..8] == current && merkleRoot[..8] == merkleRoot;
  }

  // ---------------------------------------------------------------- Bitcoin's tree

  function Join(left: Hash256, right: Hash256): (both: seq<byte>)
    ensures |both| == 64
  {
    var l: seq<byte>, r: seq<byte> := left, right;
    l + r
  }

  function Node(H: Digest, left: Hash256, right: Hash256): Hash256 {
    H(Join(left, right))
  }

  function Parents(H: Digest, level: seq<Hash256>): (up: seq<Hash256>)
    requires level != []
    ensures |up| == (|level| + 1) / 2
  {
    seq((|level| + 1) / 2, k requires 0 <= k < (|level| + 1) / 2 =>
      Node(H, level[2 * k], level[Min(2 * k + 1, |level| - 1)]))
  }

  function Root(H: Digest, leaves: seq<Hash256>): Hash256
    requires leaves != []
    decreases |leaves|
  {
    if |leaves| == 1 then leaves[0] else Root(H, Parents(H, leaves))
  }

  /** Number of levels above the leaves. */
  function Depth(n: nat): nat
    requires n > 0
  {
    if n == 1 then 0 else 1 + Depth((n + 1) / 2)
  }

  /** The leaf that position `pos` reaches: positions past the end wrap round the tree's width or meet duplicates. */
  function Slot(n: nat, pos: nat): (k: nat)
    requires n > 0
    ensures k < n
  {
    if n == 1 then 0 else Min(2 * Slot((n + 1) / 2, pos / 2) + pos % 2, n - 1)
  }

  /** The node paired with the leaf that `pos` reaches. */
  function Sibling(leaves: seq<Hash256>, pos: nat): Hash256
    requires |leaves| > 1
  {
    var left := 2 * Slot((|leaves| + 1) / 2, pos / 2);
    leaves[if pos % 2 == 0 then Min(left + 1, |leaves| - 1) else left]
  }

  function Branch(H: Digest, leaves: seq<Hash256>, pos: nat): (b: seq<Hash256>)
    requires leaves != []
    ensures |b| == Depth(|leaves|)
    decreases |leaves|
  {
    if |leaves| == 1 then [] else [Sibling(leaves, pos)] + Branch(H, Parents(H, leaves), pos / 2)
  }

  /** The verifier's fold, on 32-byte hashes. */
  function Climb(H: Digest, current: Hash256, proof: seq<Hash256>, pos: nat): Hash256
    decreases |proof|
  {
    if proof == [] then current
    else
      var parent := if pos % 2 == 0 then Node(H, current, proof[0]) else Node(H, proof[0], current);
      Climb(H, parent, proof[1..], pos / 2)
  }

  function AllWords(hashes: seq<Hash256>): (ws: seq<Words>)
    ensures |ws| == |hashes|
  {
    seq(|hashes|, k requires 0 <= k < |hashes| => ToWords(hashes[k]))
  }

  function AllBytes(ws: seq<Words>): (hashes: seq<Hash256>)
    ensures |hashes| == |ws|
  {
    seq(|ws|, k requires 0 <= k < |ws| => FromWords(ws[k]))
  }

  lemma AllWordsOfBytes(ws: seq<Words>)
    ensures AllWords(AllBytes(ws)) == ws
  {
    forall k | 0 <= k < |ws|
      ensures ToWords(FromWords(ws[k])) == ws[k]
    {
      BytesOfWords(ws[k]);
    }
  }

  /** Packing into words commutes with hashing up the branch. */
  lemma {:induction false} FoldIsClimb(H: Digest, current: Hash256, proof: seq<Hash256>, pos: nat)
    ensures Fold(H, ToWords(current), AllWords(proof), pos) == ToWords(Climb(H, current, proof, pos))
    decreases |proof|
  {
    if proof != [] {
      WordsOfBytes(current);
      WordsOfBytes(proof[0]);
      assert AllWords(proof)[1..] == AllWords(proof[1..]);
      var parent := if pos % 2 == 0 then Node(H, current, proof[0]) else Node(H, proof[0], current);
      FoldIsClimb(H, parent, proof[1..], pos / 2);
    }
  }

  lemma ToWordsInjective(a: Hash256, b: Hash256)
    ensures ToWords(a) == ToWords(b) <==> a == b
  {
    WordsOfBytes(a);
    WordsOfBytes(b);
  }

  lemma {:induction false} SlotInRange(n: nat, pos: nat)
    requires pos < n
    ensures Slot(n, pos) == pos
    decreases n
  {
    if n > 1 {
      SlotInRange((n + 1) / 2, pos / 2);
    }
  }

  lemma ParentAt(H: Digest, level: seq<Hash256>, k: nat)
    requires 2 * k < |level|
    ensures k < |Parents(H, level)|
    ensures Parents(H, level)[k] == Node(H, level[2 * k], level[Min(2 * k + 1, |level| - 1)])
  {
  }

  lemma SlotUp(n: nat, pos: nat)
    requires n > 1
    ensures Slot(n, pos) == Min(2 * Slot((n + 1) / 2, pos / 2) + pos % 2, n - 1)
  {
  }

  lemma BranchUp(H: Digest, leaves: seq<Hash256>, pos: nat)
    requires |leaves| > 1
    ensures Branch(H, leaves, pos) == [Sibling(leaves, pos)] + Branch(H, Parents(H, leaves), pos / 2)
  {
    hide Parents, Sibling, Depth;
  }

  lemma SiblingAt(leaves: seq<Hash256>, pos: nat)
    requires |leaves| > 1
    ensures var left := 2 * Slot((|leaves| + 1) / 2, pos / 2);
            Sibling(leaves, pos) == leaves[if pos % 2 == 0 then Min(left + 1, |leaves| - 1) else left]
  {
  }

  /** One level up: the leaf a position reaches and its sibling are the two children of the node above. */
  lemma Fork(H: Digest, leaves: seq<Hash256>, pos: nat)
    requires |leaves| > 1
    ensures var up := Parents(H, leaves);
            var q := Slot(|up|, pos / 2);
            var leaf, branch := leaves[Slot(|leaves|, pos)], Branch(H, leaves, pos);
            && branch[1..] == Branch(H, up, pos / 2)
            && up[q] == (if pos % 2 == 0 then Node(H, leaf, branch[0]) else Node(H, branch[0], leaf))
  {
    hide Node, Parents, Branch, Slot, Sibling;
    var q := Slot((|leaves| + 1) / 2, pos / 2);
    SlotUp(|leaves|, pos);
    BranchUp(H, leaves, pos);
    SiblingAt(leaves, pos);
    ParentAt(H, leaves, q);
  }

  /** Completeness: from the leaf a position reaches, its branch climbs to the root. */
  lemma {:induction false} BranchClimbsToRoot(H: Digest, leaves: seq<Hash256>, pos: nat)
    requires leaves != []
    ensures Climb(H, leaves[Slot(|leaves|, pos)], Branch(H, leaves, pos), pos) == Root(H, leaves)
    decreases |leaves|
  {
    hide Node, Parents, Slot, Branch, Depth;
    if |leaves| > 1 {
      Fork(H, leaves, pos);
      BranchClimbsToRoot(H, Parents(H, leaves), pos / 2);
    }
    BranchLength(H, leaves, pos);
  }

  lemma BranchLength(H: Digest, leaves: seq<Hash256>, pos: nat)
    requires leaves != []
    ensures Branch(H, leaves, pos) == [] <==> |leaves| == 1
    ensures |leaves| == 1 ==> Slot(1, pos) == 0
  {
  }

  predicate Collision(H: Digest, a: seq<byte>, b: seq<byte>) {
    a != b && H(a) == H(b)
  }

  /** Equal parents have equal children, or their 64-byte preimages collide. */
  lemma NodeInjective(H: Digest, a: Hash256, b: Hash256, c: Hash256, d: Hash256)
    requires Node(H, a, b) == Node(H, c, d)
    ensures (a == c && b == d) || Collision(H, Join(a, b), Join(c, d))
  {
    var l, r := Join(a, b), Join(c, d);
    if l == r {
      assert a == l[..32] == r[..32] == c;
      assert b == l[32..] == r[32..] == d;
    }
  }

  /** Soundness, with no assumption on the hash: a full-depth proof that climbs to the root either is the
      branch of the leaf its position reaches, or it hands over two colliding 64-byte messages. */
  lemma {:induction false} ClimbIsBranchOrCollision(H: Digest, leaves: seq<Hash256>, x: Hash256,
                                                    proof: seq<Hash256>, pos: nat)
    returns (a: seq<byte>, b: seq<byte>)
    requires leaves != [] && |proof| == Depth(|leaves|)
    requires Climb(H, x, proof, pos) == Root(H, leaves)
    ensures (x == leaves[Slot(|leaves|, pos)] && proof == Branch(H, leaves, pos))
         || (|a| == |b| == 64 && Collision(H, a, b))
    decreases |leaves|
  {
    hide Node, Collision, Parents, Slot, Branch;
    a, b := [], [];
    BranchLength(H, leaves, pos);
    if |leaves| > 1 {
      Fork(H, leaves, pos);
      var leaf, branch := leaves[Slot(|leaves|, pos)], Branch(H, leaves, pos);
      var l, r := if pos % 2 == 0 then x else proof[0], if pos % 2 == 0 then proof[0] else x;
      var left, right := if pos % 2 == 0 then leaf else branch[0], if pos % 2 == 0 then branch[0] else leaf;
      a, b := ClimbIsBranchOrCollision(H, Parents(H, leaves), Node(H, l, r), proof[1..], pos / 2);
      if !(|a| == |b| == 64 && Collision(H, a, b)) {
        NodeInjective(H, l, r, left, right);
        if l == left && r == right {
          assert proof == [proof[0]] + proof[1..] && branch == [branch[0]] + branch[1..];
        } else {
          a, b := Join(l, r), Join(left, right);
        }
      }
    }
  }

  // ---------------------------------------------------------------- proofs of any length

  /** The nodes j levels above the leaves. */
  function Level(H: Digest, leaves: seq<Hash256>, j: nat): (level: seq<Hash256>)
    requires leaves != [] && j <= Depth(|leaves|)
    ensures level != [] && Depth(|level|) == Depth(|leaves|) - j
    decreases j
  {
    if j == 0 then leaves else Level(H, Parents(H, leaves), j - 1)
  }

  lemma {:induction false} LevelRoot(H: Digest, leaves: seq<Hash256>, j: nat)
    requires leaves != [] && j <= Depth(|leaves|)
    ensures Root(H, Level(H, leaves, j)) == Root(H, leaves)
    decreases j
  {
    hide Parents, Node;
    if j > 0 {
      LevelRoot(H, Parents(H, leaves), j - 1);
    }
  }

  lemma {:induction false} LevelUp(H: Digest, leaves: seq<Hash256>, j: nat)
    requires leaves != [] && 0 < j <= Depth(|leaves|)
    ensures Level(H, leaves, j) == Parents(H, Level(H, leaves, j - 1))
    decreases j
  {
    hide Parents, Node;
    if j > 1 {
      LevelUp(H, Parents(H, leaves), j - 1);
    }
  }

  /** `l` and `r` are the children of the node that `pos` reaches j levels above the leaves. */
  ghost predicate InnerPair(H: Digest, leaves: seq<Hash256>, j: nat, pos: nat, l: Hash256, r: Hash256)
    requires leaves != [] && 0 < j <= Depth(|leaves|)
  {
    var lower, q := Level(H, leaves, j - 1), Slot(|Level(H, leaves, j)|, pos);
    2 * q < |lower| && l == lower[2 * q] && r == lower[Min(2 * q + 1, |lower| - 1)]
  }

  lemma NodeOfPair(H: Digest, leaves: seq<Hash256>, j: nat, pos: nat) returns (l: Hash256, r: Hash256)
    requires leaves != [] && 0 < j <= Depth(|leaves|)
    ensures InnerPair(H, leaves, j, pos, l, r)
    ensures var level := Level(H, leaves, j); level[Slot(|level|, pos)] == Node(H, l, r)
  {
    hide Level, Node, Slot, Parents;
    var lower, level := Level(H, leaves, j - 1), Level(H, leaves, j);
    LevelUp(H, leaves, j);
    var q := Slot(|level|, pos);
    l, r := lower[2 * q], lower[Min(2 * q + 1, |lower| - 1)];
    ParentAt(H, lower, q);
  }

  /** Completeness at every level: the branch of a node above the leaves climbs to the root as well. */
  lemma LevelBranchClimbsToRoot(H: Digest, leaves: seq<Hash256>, j: nat, pos: nat)
    requires leaves != [] && j <= Depth(|leaves|)
    ensures var level := Level(H, leaves, j);
            && |Branch(H, level, pos)| == Depth(|leaves|) - j
            && Climb(H, level[Slot(|level|, pos)], Branch(H, level, pos), pos) == Root(H, leaves)
  {
    hide Level, Climb, Root, Branch, Slot;
    LevelRoot(H, leaves, j);
    BranchClimbsToRoot(H, Level(H, leaves, j), pos);
  }

  /** A proof that is too short starts at a node of the tree: the join of two others. */
  lemma ShortClimb(H: Digest, leaves: seq<Hash256>, x: Hash256, proof: seq<Hash256>, pos: nat)
    returns (a: seq<byte>, b: seq<byte>, l: Hash256, r: Hash256)
    requires leaves != [] && |proof| < Depth(|leaves|)
    requires Climb(H, x, proof, pos) == Root(H, leaves)
    ensures (x == Node(H, l, r) && InnerPair(H, leaves, Depth(|leaves|) - |proof|, pos, l, r)) || Collision(H, a, b)
  {
    hide Level, Node, Slot, Parents, InnerPair, Climb, Root, Collision;
    var j := Depth(|leaves|) - |proof|;
    LevelRoot(H, leaves, j);
    a, b := ClimbIsBranchOrCollision(H, Level(H, leaves, j), x, proof, pos);
    l, r := NodeOfPair(H, leaves, j, pos);
  }

  function Shift(pos: nat, k: nat): nat
    decreases k
  {
    if k == 0 then pos else Shift(pos / 2, k - 1)
  }

  lemma {:induction false} ClimbSplit(H: Digest, x: Hash256, proof: seq<Hash256>, pos: nat, k: nat)
    requires k <= |proof|
    ensures Climb(H, x, proof, pos) == Climb(H, Climb(H, x, proof[..k], pos), proof[k..], Shift(pos, k))
    decreases k
  {
    hide Node;
    if k == 0 {
      assert proof[0..] == proof && proof[..0] == [];
    } else {
      var next := if pos % 2 == 0 then Node(H, x, proof[0]) else Node(H, proof[0], x);
      ClimbSplit(H, next, proof[1..], pos / 2, k - 1);
      assert proof[..k][1..] == proof[1..][..k - 1] && proof[1..][k - 1..] == proof[k..];
    }
  }

  lemma {:induction false} ClimbEndsInNode(H: Digest, x: Hash256, proof: seq<Hash256>, pos: nat)
    returns (l: Hash256, r: Hash256)
    requires proof != []
    ensures Climb(H, x, proof, pos) == Node(H, l, r)
    decreases |proof|
  {
    hide Node;
    l, r := if pos % 2 == 0 then x else proof[0], if pos % 2 == 0 then proof[0] else x;
    if |proof| > 1 {
      l, r := ClimbEndsInNode(H, Node(H, l, r), proof[1..], pos / 2);
    } else {
      assert proof[1..] == [];
    }
  }

  /** Completeness for longer proofs: whatever climbs to a leaf climbs on to the root along that leaf's branch. */
  lemma ExtendedBranchClimbsToRoot(H: Digest, leaves: seq<Hash256>, x: Hash256, start: seq<Hash256>, pos: nat)
    requires leaves != []
    requires Climb(H, x, start, pos) == leaves[Slot(|leaves|, Shift(pos, |start|))]
    ensures var branch := Branch(H, leaves, Shift(pos, |start|));
            Climb(H, x, start + branch, pos) == Root(H, leaves)
  {
    hide Climb, Root, Branch, Slot, Shift;
    var branch := Branch(H, leaves, Shift(pos, |start|));
    var whole := start + branch;
    ClimbSplit(H, x, whole, pos, |start|);
    assert whole[..|start|] == start && whole[|start|..] == branch;
    BranchClimbsToRoot(H, leaves, Shift(pos, |start|));
  }

  /** A proof that is too long passes a leaf on its way, which is then the hash of a join. */
  lemma LongClimb(H: Digest, leaves: seq<Hash256>, x: Hash256, proof: seq<Hash256>, pos: nat)
    returns (a: seq<byte>, b: seq<byte>, l: Hash256, r: Hash256)
    requires leaves != [] && |proof| > Depth(|leaves|)
    requires Climb(H, x, proof, pos) == Root(H, leaves)
    ensures leaves[Slot(|leaves|, Shift(pos, |proof| - Depth(|leaves|)))] == Node(H, l, r) || Collision(H, a, b)
  {
    hide Node, Slot, Climb, Root, Collision, Shift;
    var k := |proof| - Depth(|leaves|);
    ClimbSplit(H, x, proof, pos, k);
    l, r := ClimbEndsInNode(H, x, proof[..k], pos);
    a, b := ClimbIsBranchOrCollision(H, leaves, Climb(H, x, proof[..k], pos), proof[k..], Shift(pos, k));
  }

  // ---------------------------------------------------------------- positions and depth

  function Pow2(k: nat): (p: nat)
    ensures p > 0
  {
    if k == 0 then 1 else 2 * Pow2(k - 1)
  }

  lemma HalfMod(pos: nat, k: nat)
    requires k > 0
    ensures pos % Pow2(k) % 2 == pos % 2
    ensures pos % Pow2(k) / 2 == pos / 2 % Pow2(k - 1)
  {
    var m := Pow2(k - 1);
    var q, r := pos / 2 / m, pos / 2 % m;
    var low := 2 * r + pos % 2;
    assert pos / 2 == q * m + r;
    assert pos == q * (2 * m) + low by {
      assert q * (2 * m) == 2 * (q * m);
    }
    ModUnique(pos, 2 * m, q, low);
  }

  lemma ModUnique(n: nat, m: nat, q: nat, r: nat)
    requires m > 0 && r < m && n == q * m + r
    ensures n % m == r
  {
    var d := n / m - q;
    assert n == n / m * m + n % m;
    assert d * m == r - n % m by {
      assert (n / m - q) * m == n / m * m - q * m;
    }
    MulBound(d, m);
  }

  lemma MulBound(d: int, m: int)
    requires m > 0
    ensures d > 0 ==> d * m >= m
    ensures d < 0 ==> d * m <= -m
  {
  }

  /** Only the low bits of the position count, one for each sibling. */
  lemma {:induction false} OnlyLowBitsCount(H: Digest, current: Words, proof: seq<Words>, pos: nat)
    ensures Fold(H, current, proof, pos) == Fold(H, current, proof, pos % Pow2(|proof|))
    decreases |proof|
  {
    if proof != [] {
      HalfMod(pos, |proof|);
      var parent := if pos % 2 == 0 then PairHash(H, current, proof[0]) else PairHash(H, proof[0], current);
      OnlyLowBitsCount(H, parent, proof[1..], pos / 2);
    }
  }

  /** The depth is the number of doublings that reach the number of leaves. */
  lemma {:induction false} DepthIsLog(n: nat)
    requires n > 0
    ensures n <= Pow2(Depth(n)) < 2 * n
  {
    if n > 1 {
      DepthIsLog((n + 1) / 2);
    }
  }

  /** The verifier accepts exactly the branch of the leaf at `pos`, as long as no collision turns up. */
  lemma VerifierAcceptsExactlyBranches(H: Digest, leaves: seq<Hash256>, x: Words, proof: seq<Words>, pos: nat)
    returns (a: seq<byte>, b: seq<byte>)
    requires leaves != [] && |proof| == Depth(|leaves|)
    ensures (x == ToWords(leaves[Slot(|leaves|, pos)]) && proof == AllWords(Branch(H, leaves, pos)))
              ==> Fold(H, x, proof, pos) == ToWords(Root(H, leaves))
    ensures Fold(H, x, proof, pos) == ToWords(Root(H, leaves)) ==>
              (x == ToWords(leaves[Slot(|leaves|, pos)]) && proof == AllWords(Branch(H, leaves, pos)))
              || (|a| == |b| == 64 && Collision(H, a, b))
  {
    a, b := [], [];
    BranchClimbsToRoot(H, leaves, pos);
    FoldIsClimb(H, leaves[Slot(|leaves|, pos)], Branch(H, leaves, pos), pos);
    var leaf, siblings := FromWords(x), AllBytes(proof);
    BytesOfWords(x);
    AllWordsOfBytes(proof);
    FoldIsClimb(H, leaf, siblings, pos);
    ToWordsInjective(Climb(H, leaf, siblings, pos), Root(H, leaves));
    if Fold(H, x, proof, pos) == ToWords(Root(H, leaves)) {
      a, b := ClimbIsBranchOrCollision(H, leaves, leaf, siblings, pos);
    }
  }
}
