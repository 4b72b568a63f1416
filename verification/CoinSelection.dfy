/**
  * Largest-first coin selection, where the fee grows with the number of inputs. Both selections of
  * the backend are proved to be the best possible ones: they fail only when no choice of coins
  * would do, and otherwise use the fewest coins, and of that many the most valuable.
  */
module CoinSelection {
  import opened Wrappers
  import opened Sorting

  datatype Utxo = Utxo(txid: string, vout: nat, value: nat)
  datatype Selection = Selection(utxos: seq<Utxo>, total: nat)
  datatype SelectionError = NoUtxos | InsufficientFunds

  function Total(coins: seq<Utxo>): nat {
    if coins == [] then 0 else coins[0].value + Total(coins[1..])
  }

  /** Larger values come first. */
  function Rank(u: Utxo): int {
    0 - u.value
  }

  function LargestFirst(utxos: seq<Utxo>): seq<Utxo> {
    Sort(Rank, utxos)
  }

  lemma LargestFirstSpec(utxos: seq<Utxo>)
    ensures var t := LargestFirst(utxos);
            multiset(t) == multiset(utxos) && |t| == |utxos| && SortedBy(Rank, t)
  {
    SortSorted(Rank, utxos);
    assert |multiset(LargestFirst(utxos))| == |multiset(utxos)|;
  }

  // ---------------------------------------------------------------- what a selection should achieve

  /** `coins` are taken from `utxos`, none more often than it is there. */
  ghost predicate From(coins: seq<Utxo>, utxos: seq<Utxo>) {
    multiset(coins) <= multiset(utxos)
  }

  /** Spending `coins` meets the requirement for that many inputs. */
  ghost predicate Covers(coins: seq<Utxo>, need: nat -> int) {
    coins != [] && Total(coins) >= need(|coins|)
  }

  ghost predicate Best(s: Selection, utxos: seq<Utxo>, need: nat -> int) {
    && From(s.utxos, utxos) && Covers(s.utxos, need) && s.total == Total(s.utxos)
    && (forall coins :: From(coins, utxos) && Covers(coins, need) ==> |s.utxos| <= |coins|)
    && (forall coins :: From(coins, utxos) && |coins| == |s.utxos| ==> Total(coins) <= s.total)
  }

  ghost predicate Optimal(r: Result<Selection, SelectionError>, utxos: seq<Utxo>, need: nat -> int) {
    && (r.Ok? <==> exists coins :: From(coins, utxos) && Covers(coins, need))
    && (r.Ok? ==> Best(r.value, utxos, need))
  }

  // ---------------------------------------------------------------- why largest-first achieves it

  lemma {:induction false} TotalConcat(a: seq<Utxo>, b: seq<Utxo>)
    ensures Total(a + b) == Total(a) + Total(b)
  {
    if a == [] {
      assert a + b == b;
    } else {
      assert (a + b)[1..] == a[1..] + b;
      TotalConcat(a[1..], b);
    }
  }

  lemma TotalCons(u: Utxo, s: seq<Utxo>)
    ensures Total([u] + s) == u.value + Total(s)
  {
    assert ([u] + s)[1..] == s;
  }

  lemma TotalWithout(s: seq<Utxo>, k: nat)
    requires k < |s|
    ensures Total(s) == s[k].value + Total(s[..k] + s[k + 1..])
  {
    hide Total;
    var front, back := s[..k], s[k + 1..];
    assert s == front + ([s[k]] + back);
    TotalConcat(front, [s[k]] + back);
    TotalCons(s[k], back);
    TotalConcat(front, back);
  }

  lemma CoinsWithout(s: seq<Utxo>, k: nat)
    requires k < |s|
    ensures multiset(s) == multiset{s[k]} + multiset(s[..k] + s[k + 1..])
  {
    assert s == s[..k] + ([s[k]] + s[k + 1..]);
  }

  lemma TotalSnoc(s: seq<Utxo>, u: Utxo)
    ensures Total(s + [u]) == Total(s) + u.value
  {
    TotalConcat(s, [u]);
    assert Total([u]) == u.value;
  }

  lemma SubsetSize(s: seq<Utxo>, t: seq<Utxo>)
    requires From(s, t)
    ensures |s| <= |t|
  {
    assert |multiset(t)| == |multiset(s)| + |multiset(t) - multiset(s)|;
  }

  lemma FromTail(s: seq<Utxo>, t: seq<Utxo>, k: nat)
    requires t != [] && From(s, t) && k < |s| && s[k] == t[0]
    ensures From(s[..k] + s[k + 1..], t[1..])
  {
    CoinsWithout(s, k);
    assert t == [t[0]] + t[1..];
    var left, rest := multiset(s[..k] + s[k + 1..]), multiset(t[1..]);
    assert multiset(s) == multiset{t[0]} + left && multiset(t) == multiset{t[0]} + rest;
    forall u
      ensures left[u] <= rest[u]
    {
      assert multiset(s)[u] <= multiset(t)[u];
    }
    assert left <= rest;
  }

  lemma FromTailUnused(s: seq<Utxo>, t: seq<Utxo>)
    requires t != [] && From(s, t) && t[0] !in s
    ensures From(s, t[1..])
  {
    assert t == [t[0]] + t[1..];
    var rest := multiset(t[1..]);
    assert multiset(t) == multiset{t[0]} + rest;
    assert forall u :: multiset(s)[u] <= rest[u];
    assert multiset(s) <= rest;
  }

  /** Exchange argument: no choice of coins is worth more than as many coins from the front of the sorted list. */
  lemma {:induction false} FrontIsRichest(s: seq<Utxo>, t: seq<Utxo>)
    requires SortedBy(Rank, t) && From(s, t)
    ensures |s| <= |t| && Total(s) <= Total(t[..|s|])
    decreases |t|
  {
    hide From;
    SubsetSize(s, t);
    if s != [] {
      if t[0] in s {
        var k :| 0 <= k < |s| && s[k] == t[0];
        var rest := s[..k] + s[k + 1..];
        TotalWithout(s, k);
        FromTail(s, t, k);
        FrontIsRichest(rest, t[1..]);
        assert t[..|s|][1..] == t[1..][..|rest|];
      } else {
        FromTailUnused(s, t);
        FrontIsRichest(s, t[1..]);
        ShiftedFront(t, |s|);
      }
    }
  }

  lemma ShiftedFront(t: seq<Utxo>, n: nat)
    requires SortedBy(Rank, t) && 0 < n < |t|
    ensures Total(t[1..][..n]) <= Total(t[..n])
  {
    assert t[..n] == [t[0]] + t[1..n] && t[1..][..n] == t[1..n] + [t[n]];
    TotalConcat([t[0]], t[1..n]);
    TotalSnoc(t[1..n], t[n]);
    assert Total([t[0]]) == t[0].value;
    assert Rank(t[0]) <= Rank(t[n]);
  }

  /** The first length at which the front of the sorted list meets the requirement, if any, is the best selection. */
  lemma FirstFitIsOptimal(utxos: seq<Utxo>, need: nat -> int, n: nat, r: Result<Selection, SelectionError>)
    requires var t := LargestFirst(utxos);
             && n <= |t| && (forall k :: 0 < k < n ==> Total(t[..k]) < need(k))
             && match r
                case Ok(s) => 0 < n && s == Selection(t[..n], Total(t[..n])) && Total(t[..n]) >= need(n)
                case Err(_) => n == |t| && (n > 0 ==> Total(t[..n]) < need(n))
    ensures Optimal(r, utxos, need)
  {
    hide Covers, From, Total, SortedBy, LargestFirst;
    var t := LargestFirst(utxos);
    forall coins | From(coins, utxos)
      ensures |coins| <= |t| && Total(coins) <= Total(t[..|coins|])
    {
      FrontOfSorted(coins, utxos);
    }
    CoversMeaning(need);
    if r.Ok? {
      FrontIsFrom(utxos, n);
    } else {
      LargestFirstSpec(utxos);
    }
  }

  lemma FrontOfSorted(coins: seq<Utxo>, utxos: seq<Utxo>)
    requires From(coins, utxos)
    ensures var t := LargestFirst(utxos);
            |coins| <= |t| && Total(coins) <= Total(t[..|coins|])
  {
    LargestFirstSpec(utxos);
    FrontIsRichest(coins, LargestFirst(utxos));
  }

  lemma FrontIsFrom(utxos: seq<Utxo>, n: nat)
    requires n <= |LargestFirst(utxos)|
    ensures From(LargestFirst(utxos)[..n], utxos)
  {
    LargestFirstSpec(utxos);
    var t := LargestFirst(utxos);
    assert t == t[..n] + t[n..];
  }

  lemma CoversMeaning(need: nat -> int)
    ensures forall coins :: Covers(coins, need) <==> |coins| > 0 && Total(coins) >= need(|coins|)
  {
  }

  // ---------------------------------------------------------------- the covenant's selection

  /** Amount plus a flat fee for every input. */
  function FlatNeed(amount: int, feePerInput: int): nat -> int {
    (n: nat) => amount + feePerInput * n
  }

  method SelectUtxos(utxos: seq<Utxo>, amount: int, feePerInput: int) returns (r: Result<Selection, SelectionError>)
    ensures Optimal(r, utxos, FlatNeed(amount, feePerInput))
    ensures r.Err? ==> r.error == InsufficientFunds
  {
    hide Best, From, Covers, LargestFirst;
    var sorted := LargestFirst(utxos);
    LargestFirstSpec(utxos);
    var selected: seq<Utxo>, total := [], 0;
    for i := 0 to |sorted|
      invariant selected == sorted[..i] && total == Total(selected)
      invariant forall k :: 0 < k <= i ==> Total(sorted[..k]) < FlatNeed(amount, feePerInput)(k)
    {
      TotalSnoc(selected, sorted[i]);
      selected := selected + [sorted[i]];
      assert selected == sorted[..i + 1];
      total := total + sorted[i].value;
      var fee := feePerInput * |selected|;
      if total >= amount + fee {
        r := Ok(Selection(selected, total));
        FirstFitIsOptimal(utxos, FlatNeed(amount, feePerInput), i + 1, r);
        return;
      }
    }
    r := Err(InsufficientFunds);
    FirstFitIsOptimal(utxos, FlatNeed(amount, feePerInput), |sorted|, r);
  }

  // ---------------------------------------------------------------- the sender wallet's selection

  function Ceil(x: real): int {
    -(-x).Floor
  }

  /** 68 virtual bytes an input, two outputs of 31, and 12 more, at `feeRate` satoshis a byte. */
  function WalletFee(inputs: nat, feeRate: real): int {
    Ceil((inputs * 68 + 2 * 31 + 12) as real * feeRate)
  }

  function WalletNeed(amountSats: nat, feeRate: real): nat -> int {
    (n: nat) => amountSats + WalletFee(n, feeRate)
  }

  /** Array.prototype.sort on the fetched coins. */
  method SortInPlace(a: array<Utxo>)
    modifies a
    ensures a[..] == LargestFirst(old(a[..]))
  {
    var sorted := LargestFirst(a[..]);
    LargestFirstSpec(a[..]);
    forall i | 0 <= i < a.Length {
      a[i] := sorted[i];
    }
  }

  /** The loop that both wallet payments run; the array is left sorted. */
  method SelectFromWallet(allUtxos: array<Utxo>, amountSats: nat, feeRate: real)
    returns (r: Result<Selection, SelectionError>, estimatedFee: int)
    modifies allUtxos
    ensures allUtxos[..] == if allUtxos.Length == 0 then [] else LargestFirst(old(allUtxos[..]))
    ensures Optimal(r, old(allUtxos[..]), WalletNeed(amountSats, feeRate))
    ensures r.Ok? ==> estimatedFee == WalletFee(|r.value.utxos|, feeRate)
    ensures r.Err? ==> r.error == if allUtxos.Length == 0 then NoUtxos else InsufficientFunds
  {
    hide Best, From, Covers, WalletFee, LargestFirst;
    LargestFirstSpec(allUtxos[..]);
    ghost var utxos := allUtxos[..];
    ghost var need := WalletNeed(amountSats, feeRate);
    estimatedFee := 0;
    if allUtxos.Length == 0 {
      r := Err(NoUtxos);
      FirstFitIsOptimal(utxos, need, 0, r);
      return;
    }
    SortInPlace(allUtxos);
    ghost var sorted := LargestFirst(utxos);
    var selected: seq<Utxo>, totalInput := [], 0;
    var i := 0;
    while i < allUtxos.Length
      invariant 0 <= i <= allUtxos.Length && allUtxos[..] == sorted
      invariant selected == sorted[..i] && totalInput == Total(selected)
      invariant i > 0 ==> estimatedFee == WalletFee(i, feeRate)
      invariant forall k :: 0 < k <= i ==> Total(sorted[..k]) < need(k)
    {
      TotalSnoc(selected, sorted[i]);
      selected := selected + [allUtxos[i]];
      assert selected == sorted[..i + 1];
      totalInput := totalInput + allUtxos[i].value;
      estimatedFee := WalletFee(|selected|, feeRate);
      i := i + 1;
      if totalInput >= amountSats + estimatedFee {
        break;
      }
    }
    if totalInput < amountSats + estimatedFee {
      r := Err(InsufficientFunds);
    } else {
      r := Ok(Selection(selected, totalInput));
    }
    FirstFitIsOptimal(utxos, need, i, r);
  }
}
