/** The amounts of the transactions the backend builds: inputs, payment, change and miner fee. */
module Payments {
  import opened Wrappers
  import opened CoinSelection

  datatype Output = Output(address: string, sats: nat)
  datatype Plan = Plan(inputs: seq<Utxo>, outputs: seq<Output>)
  datatype PaymentError = AuthorizationNotFound | InvalidRecipient | NoFunds | Insufficient
  datatype Payee = Payee(address: string, amountSats: nat)

  const FEE_PER_INPUT: nat := 2000
  const DUST: nat := 546

  function OutputTotal(outputs: seq<Output>): nat {
    if outputs == [] then 0 else outputs[0].sats + OutputTotal(outputs[1..])
  }

  /** What the miner keeps. */
  function MinerFee(p: Plan): int {
    Total(p.inputs) - OutputTotal(p.outputs)
  }

  /** The payment comes first. What is left after payment and fee comes back as a second output if it is more than 546
      satoshis, and then the miner keeps exactly the fee; otherwise the miner keeps it too. */
  ghost predicate Conserves(p: Plan, payee: Payee, changeAddress: string, fee: int) {
    var change := Total(p.inputs) - payee.amountSats - fee;
    && change >= 0
    && p.outputs == [Output(payee.address, payee.amountSats)]
                    + (if change > 546 then [Output(changeAddress, change)] else [])
    && MinerFee(p) == if change > 546 then fee else fee + change
  }

  /** Coins worth the amount and 2000 satoshis for each of them. */
  ghost predicate CoversCovenant(coins: seq<Utxo>, amountSats: nat) {
    coins != [] && Total(coins) >= amountSats + 2000 * |coins|
  }

  /** What the rate asks for: 68 virtual bytes for each input and 74 more. */
  function Asked(inputs: nat, feeRate: real): real {
    (68 * inputs + 74) as real * feeRate
  }

  /** Coins worth the amount and the rate for 68 virtual bytes for each of them and 74 more. */
  ghost predicate CoversWallet(coins: seq<Utxo>, amountSats: nat, feeRate: real) {
    coins != [] && (Total(coins) - amountSats) as real >= Asked(|coins|, feeRate)
  }

  ghost predicate CovenantFunded(utxos: seq<Utxo>, amountSats: nat) {
    exists coins :: From(coins, utxos) && CoversCovenant(coins, amountSats)
  }

  ghost predicate WalletFunded(utxos: seq<Utxo>, amountSats: nat, feeRate: real) {
    exists coins :: From(coins, utxos) && CoversWallet(coins, amountSats, feeRate)
  }

  /** The fewest coins that will do, and of that many the most valuable. */
  ghost predicate BestForCovenant(inputs: seq<Utxo>, utxos: seq<Utxo>, amountSats: nat) {
    && From(inputs, utxos) && CoversCovenant(inputs, amountSats)
    && (forall coins :: From(coins, utxos) && CoversCovenant(coins, amountSats) ==> |inputs| <= |coins|)
    && (forall coins :: From(coins, utxos) && |coins| == |inputs| ==> Total(coins) <= Total(inputs))
  }

  ghost predicate BestForWallet(inputs: seq<Utxo>, utxos: seq<Utxo>, amountSats: nat, feeRate: real) {
    && From(inputs, utxos) && CoversWallet(inputs, amountSats, feeRate)
    && (forall coins :: From(coins, utxos) && CoversWallet(coins, amountSats, feeRate) ==> |inputs| <= |coins|)
    && (forall coins :: From(coins, utxos) && |coins| == |inputs| ==> Total(coins) <= Total(inputs))
  }

  lemma TwoOutputs(a: Output, b: Output)
    ensures OutputTotal([a, b]) == a.sats + b.sats
  {
    assert [a, b][1..] == [b] && [b][1..] == [];
    assert OutputTotal([b]) == b.sats + OutputTotal([]);
  }

  /** The two outputs of a selection that covers payment and fee. */
  method WithChange(s: Selection, payee: Payee, changeAddress: string, fee: int) returns (p: Plan)
    requires s.total == Total(s.utxos) && s.total >= payee.amountSats + fee
    ensures p.inputs == s.utxos && Conserves(p, payee, changeAddress, fee)
  {
    var outputs := [Output(payee.address, payee.amountSats)];
    var change := s.total - payee.amountSats - fee;
    if change > DUST {
      outputs := outputs + [Output(changeAddress, change)];
      TwoOutputs(outputs[0], outputs[1]);
    } else {
      assert outputs + [] == outputs;
      assert OutputTotal(outputs) == payee.amountSats + OutputTotal(outputs[1..]) == payee.amountSats;
    }
    p := Plan(s.utxos, outputs);
  }

  method CreateCovenantWithdrawal(auth: Option<Payee>, utxos: seq<Utxo>, covenantAddress: string)
    returns (r: Result<Plan, PaymentError>)
    ensures auth.None? ==> r == Err(AuthorizationNotFound)
    ensures auth.Some? ==>
              && (r.Ok? <==> CovenantFunded(utxos, auth.value.amountSats))
              && (r.Err? ==> r.error == if utxos == [] then NoFunds else Insufficient)
    ensures r.Ok? ==>
              var inputs := r.value.inputs;
              && BestForCovenant(inputs, utxos, auth.value.amountSats)
              && Conserves(r.value, auth.value, covenantAddress, 2000 * |inputs|)
  {
    if auth.None? {
      return Err(AuthorizationNotFound);
    }
    hide From, Optimal, BestForCovenant, CovenantFunded, CoversCovenant;
    if |utxos| == 0 {
      NoCoins(auth.value.amountSats, 0.0);
      return Err(NoFunds);
    }
    var selection := SelectUtxos(utxos, auth.value.amountSats, FEE_PER_INPUT);
    CovenantSelection(utxos, auth.value.amountSats, selection);
    if selection.Err? {
      return Err(Insufficient);
    }
    var s := selection.value;
    var plan := WithChange(s, auth.value, covenantAddress, FEE_PER_INPUT * |s.utxos|);
    return Ok(plan);
  }

  lemma NoCoins(amountSats: nat, feeRate: real)
    ensures !CovenantFunded([], amountSats) && !WalletFunded([], amountSats, feeRate)
  {
    forall coins | From(coins, [])
      ensures coins == []
    {
      SubsetSize(coins, []);
    }
  }

  lemma CovenantCovers(amountSats: nat)
    ensures forall coins ::
              Covers(coins, FlatNeed(amountSats, FEE_PER_INPUT)) <==> CoversCovenant(coins, amountSats)
  {
  }

  lemma WalletCovers(amountSats: nat, feeRate: real)
    ensures forall coins ::
              Covers(coins, WalletNeed(amountSats, feeRate)) <==> CoversWallet(coins, amountSats, feeRate)
  {
    forall coins: seq<Utxo>
      ensures Covers(coins, WalletNeed(amountSats, feeRate)) <==> CoversWallet(coins, amountSats, feeRate)
    {
      FeeIsLeast(|coins|, feeRate);
      hide WalletFee;
    }
  }

  /** The selection's requirement, in satoshis. */
  lemma CovenantSelection(utxos: seq<Utxo>, amountSats: nat, r: Result<Selection, SelectionError>)
    requires Optimal(r, utxos, FlatNeed(amountSats, FEE_PER_INPUT))
    ensures r.Ok? <==> CovenantFunded(utxos, amountSats)
    ensures r.Ok? ==> BestForCovenant(r.value.utxos, utxos, amountSats)
    ensures r.Ok? ==> SelectionFor(r.value, amountSats + FEE_PER_INPUT * |r.value.utxos|)
  {
    CovenantCovers(amountSats);
    if r.Ok? {
      assert Covers(r.value.utxos, FlatNeed(amountSats, FEE_PER_INPUT));
    }
    hide From, CoversCovenant;
  }

  lemma WalletSelection(utxos: seq<Utxo>, amountSats: nat, feeRate: real, r: Result<Selection, SelectionError>)
    requires Optimal(r, utxos, WalletNeed(amountSats, feeRate))
    ensures r.Ok? <==> WalletFunded(utxos, amountSats, feeRate)
    ensures r.Ok? ==> BestForWallet(r.value.utxos, utxos, amountSats, feeRate)
    ensures r.Ok? ==> SelectionFor(r.value, amountSats + WalletFee(|r.value.utxos|, feeRate))
  {
    hide WalletFee;
    WalletCovers(amountSats, feeRate);
    if r.Ok? {
      assert Covers(r.value.utxos, WalletNeed(amountSats, feeRate));
    }
    hide From, CoversWallet;
  }

  ghost predicate SelectionFor(s: Selection, need: int) {
    s.total == Total(s.utxos) && s.total >= need
  }

  /** The fee is the least whole number of satoshis that pays the rate. */
  lemma FeeIsLeast(inputs: nat, feeRate: real)
    ensures Asked(inputs, feeRate) <= WalletFee(inputs, feeRate) as real < Asked(inputs, feeRate) + 1.0
  {
    var x := (inputs * 68 + 2 * 31 + 12) as real * feeRate;
    assert inputs * 68 + 2 * 31 + 12 == 68 * inputs + 74;
    CeilBounds(x);
    assert WalletFee(inputs, feeRate) == Ceil(x);
    hide Ceil, WalletFee;
  }

  lemma CeilBounds(x: real)
    ensures Ceil(x) as real >= x && Ceil(x) as real < x + 1.0
  {
  }

  /** Selection and amounts of either wallet payment. */
  method PlanWalletPayment(allUtxos: array<Utxo>, payee: Payee, senderAddress: string, feeRate: real)
    returns (r: Result<Plan, PaymentError>)
    modifies allUtxos
    ensures WalletPlan(old(allUtxos[..]), payee, senderAddress, feeRate, r)
  {
    hide From, Optimal, WalletFee, BestForWallet, WalletFunded, Asked, LargestFirst, Conserves;
    ghost var utxos := allUtxos[..];
    var selection, fee := SelectFromWallet(allUtxos, payee.amountSats, feeRate);
    WalletSelection(utxos, payee.amountSats, feeRate, selection);
    if selection.Err? {
      return Err(if selection.error == NoUtxos then NoFunds else Insufficient);
    }
    var s := selection.value;
    FeeIsLeast(|s.utxos|, feeRate);
    var plan := WithChange(s, payee, senderAddress, fee);
    return Ok(plan);
  }

  /** The best selection for the wallet's fee, or an error exactly when the wallet cannot pay; amounts conserved. */
  ghost predicate WalletPlan(utxos: seq<Utxo>, payee: Payee, senderAddress: string, feeRate: real,
                             r: Result<Plan, PaymentError>) {
    && (r.Ok? <==> WalletFunded(utxos, payee.amountSats, feeRate))
    && (r.Err? ==> r.error == if utxos == [] then NoFunds else Insufficient)
    && (r.Ok? ==>
          var inputs := r.value.inputs;
          var fee, asked := WalletFee(|inputs|, feeRate), Asked(|inputs|, feeRate);
          && BestForWallet(inputs, utxos, payee.amountSats, feeRate)
          && asked <= fee as real < asked + 1.0
          && Conserves(r.value, payee, senderAddress, fee))
  }

  method BroadcastSignetTransaction(allUtxos: array<Utxo>, amountSats: nat, vaultAddress: string,
                                    senderAddress: string, feeRate: real)
    returns (r: Result<Plan, PaymentError>)
    modifies allUtxos
    ensures WalletPlan(old(allUtxos[..]), Payee(vaultAddress, amountSats), senderAddress, feeRate, r)
  {
    r := PlanWalletPayment(allUtxos, Payee(vaultAddress, amountSats), senderAddress, feeRate);
  }

  method SendBitcoinToAddress(allUtxos: array<Utxo>, recipientAddress: string, amountSats: nat,
                              senderAddress: string, feeRate: real)
    returns (r: Result<Plan, PaymentError>)
    modifies allUtxos
    ensures !("tb1" <= recipientAddress) ==> r == Err(InvalidRecipient) && allUtxos[..] == old(allUtxos[..])
    ensures "tb1" <= recipientAddress ==>
              WalletPlan(old(allUtxos[..]), Payee(recipientAddress, amountSats), senderAddress, feeRate, r)
  {
    if !("tb1" <= recipientAddress) {
      return Err(InvalidRecipient);
    }
    r := PlanWalletPayment(allUtxos, Payee(recipientAddress, amountSats), senderAddress, feeRate);
  }

  /** A wallet plan never underpays: the miner gets at least the rate for every virtual byte, and at most one
      satoshi of rounding plus the dust bound more. */
  lemma WalletPaysTheRate(utxos: seq<Utxo>, payee: Payee, senderAddress: string, feeRate: real,
                          r: Result<Plan, PaymentError>)
    requires WalletPlan(utxos, payee, senderAddress, feeRate, r) && r.Ok?
    ensures var asked := (68 * |r.value.inputs| + 74) as real * feeRate;
            asked <= MinerFee(r.value) as real < asked + 1.0 + 546.0
  {
    hide BestForWallet, WalletFunded, WalletFee;
  }
}
