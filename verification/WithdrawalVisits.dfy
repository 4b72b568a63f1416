/**
  * Visits and passes of the withdrawal processor as runs of the protocol: what a visit pays, loses and
  * records for every receipt and every way the send can end, what a pass does, and the runs in which
  * an authorization is paid twice or never.
  */
module WithdrawalVisits {
  import opened Wrappers
  import opened Authorizations
  import opened WithdrawalProtocol

  // ---------------------------------------------------------------- visits

  /** The authorizations that arrive at the awaits of a visit. */
  datatype Waits = Waits(receipt: seq<Event>, before: seq<Event>, between: seq<Event>, after: seq<Event>)

  predicate OnlyArrivals(w: Waits) {
    AllArrivals(w.receipt) && AllArrivals(w.before) && AllArrivals(w.between) && AllArrivals(w.after)
  }

  /** A visit to the first row of the snapshot. */
  function VisitEvents(finalized: bool, o: Outcome, w: Waits, now: int): seq<Event> {
    [Take] + w.receipt + [Verdict(finalized)]
    + if finalized then SendEvents(o, now, w.before, w.between, w.after) else []
  }

  /** What a visit pays: the amount and address of its row, if the receipt is final and the payment is broadcast. */
  function VisitPays(row: Row, finalized: bool, o: Outcome): seq<Payment> {
    if finalized && !o.Declined? then [Payment(row.id, row.bitcoinAddress, row.amountSats, o.txid)] else []
  }

  /** What it loses: a payment whose response does not come back or names no txid. */
  function VisitLoses(row: Row, finalized: bool, o: Outcome): seq<Payment> {
    if Pays(finalized, o) then [] else VisitPays(row, finalized, o)
  }

  /** The visit pays for good. */
  predicate Pays(finalized: bool, o: Outcome) {
    finalized && o.Paid? && o.txid != ""
  }

  lemma RowInHandIsOpen(s: State)
    requires Inv(s) && HasRow(s.phase) && !s.phase.Recorded?
    ensures !IsCompleted(s.rows, s.phase.row.id)
  {
    hide GoodTable, LedgerOk, Settled, SamePayout, Lookup;
  }

  lemma TakeTheFirst(covenants: bool, s: State)
    requires s.phase.Ready? && s.phase.queue != []
    ensures var t := Step(covenants, s, Take);
            t == s.(rows := t.rows, phase := Verifying(s.phase.queue[0], s.phase.queue[1..]))
  {
  }

  /** A receipt that is not final: the visit ends, and nothing is paid. */
  lemma NotFinal(covenants: bool, s: State)
    requires s.phase.Verifying?
    ensures var t := Step(covenants, s, Verdict(false));
            t == s.(rows := t.rows, phase := Ready(s.phase.queue))
  {
  }

  /** Up to the verdict. */
  lemma VisitBegins(covenants: bool, s: State, finalized: bool, receipt: seq<Event>) returns (t: State)
    requires Inv(s) && s.phase.Ready? && s.phase.queue != [] && AllArrivals(receipt)
    ensures Leads(covenants, s, [Take] + receipt + [Verdict(finalized)], t)
    ensures Inv(t) && t.ledger == s.ledger && t.lost == s.lost
    ensures if finalized
            then t.phase.Sending? && SamePayout(t.phase.row, s.phase.queue[0]) && t.phase.queue == s.phase.queue[1..]
            else t.phase == Ready(s.phase.queue[1..])
  {
    hide Inv, Leads, Step, AllArrivals;
    LeadsNowhere(covenants, s);
    LeadsByStep(covenants, s, [], s, Take);
    assert [] + [Take] == [Take];
    TakeTheFirst(covenants, s);
    var u := LeadsByArrivals(covenants, s, [Take], Step(covenants, s, Take), receipt);
    LeadsKeepsInv(covenants, s, [Take] + receipt, u);
    LeadsByStep(covenants, s, [Take] + receipt, u, Verdict(finalized));
    t := Step(covenants, u, Verdict(finalized));
    LeadsKeepsInv(covenants, s, [Take] + receipt + [Verdict(finalized)], t);
    if finalized {
      ValidationNeverRefuses(covenants, u);
    } else {
      NotFinal(covenants, u);
    }
  }

  /** Every visit: what it leads to, what it has paid and what it has lost. */
  lemma VisitEffect(covenants: bool, s: State, finalized: bool, o: Outcome, w: Waits, now: int) returns (t: State)
    requires Inv(s) && s.phase.Ready? && s.phase.queue != [] && OnlyArrivals(w)
    ensures Leads(covenants, s, VisitEvents(finalized, o, w, now), t)
    ensures Inv(t) && CompletedStay(s, t) && t.phase == Ready(s.phase.queue[1..])
    ensures t.ledger == s.ledger + VisitPays(s.phase.queue[0], finalized, o)
    ensures t.lost == s.lost + VisitLoses(s.phase.queue[0], finalized, o)
  {
    hide Inv, Leads, Step, AllArrivals, SendEvents, CompletedStay;
    t := VisitBegins(covenants, s, finalized, w.receipt);
    var begin := [Take] + w.receipt + [Verdict(finalized)];
    if finalized {
      var u := t;
      t := SendEnds(covenants, u, o, now, w.before, w.between, w.after);
      LeadsOn(covenants, s, begin, u, SendEvents(o, now, w.before, w.between, w.after), t);
      assert !o.Declined? ==> PaymentTo(u.phase.row, o.txid) == VisitPays(s.phase.queue[0], true, o)[0];
      assert s.lost + [] == s.lost && s.ledger + [] == s.ledger;
    } else {
      assert begin + [] == begin && s.lost + [] == s.lost && s.ledger + [] == s.ledger;
    }
    LeadsKeepsInv(covenants, s, VisitEvents(finalized, o, w, now), t);
  }

  /** The row of a visit that pays for good is completed, any other goes back to pending. */
  lemma VisitSettles(s: State, t: State, finalized: bool, o: Outcome)
    requires Inv(s) && Inv(t) && s.phase.Ready? && s.phase.queue != [] && t.phase.Ready?
    requires t.ledger == s.ledger + VisitPays(s.phase.queue[0], finalized, o)
    requires t.lost == s.lost + VisitLoses(s.phase.queue[0], finalized, o)
    ensures IsCompleted(t.rows, s.phase.queue[0].id) <==> Pays(finalized, o)
  {
    var id := s.phase.queue[0].id;
    Accounts(s, id);
    Accounts(t, id);
    FirstIsOpen(s);
    hide Inv, IsCompleted, TimesPaid, VisitPays, VisitLoses;
    TimesPaidConcat(s.ledger, VisitPays(s.phase.queue[0], finalized, o), id);
    TimesPaidConcat(s.lost, VisitLoses(s.phase.queue[0], finalized, o), id);
    OnePayment(s.phase.queue[0], finalized, o, id);
  }

  /** Between payments, an authorization is paid as often as it was lost, and once more if it is completed. */
  lemma Accounts(s: State, id: string)
    requires Inv(s) && !Crediting(s.phase)
    ensures TimesPaid(s.ledger, id) == TimesPaid(s.lost, id) + if IsCompleted(s.rows, id) then 1 else 0
  {
    hide GoodTable, PhaseOk, Settled, StrandedOk, TimesPaid, IsCompleted, CompletedSats, PaidSats, AsAuthorized;
  }

  lemma FirstIsOpen(s: State)
    requires Inv(s) && s.phase.Ready? && s.phase.queue != []
    ensures !IsCompleted(s.rows, s.phase.queue[0].id)
  {
    hide GoodTable, Settled, StrandedOk, LedgerOk, Lookup;
    assert Stands(s.rows, s.phase.queue[0], {Pending});
  }

  lemma RowStays(before: seq<Row>, after: seq<Row>, id: string)
    requires GoodTable(after) && Extends(before, after) && Lookup(before, id).Some?
    ensures Lookup(after, id).Some? && SamePayout(Lookup(before, id).value, Lookup(after, id).value)
  {
    hide SamePayout;
    var row := Lookup(before, id).value;
    var k :| 0 <= k < |before| && before[k] == row;
    SamePayoutFacts();
    FindUnique(after, Id, after[k]);
  }

  /** The row that a visit leaves: completed if it was paid for good, pending otherwise. */
  lemma VisitLeaves(covenants: bool, s: State, events: seq<Event>, t: State, finalized: bool, o: Outcome)
    requires Inv(s) && Inv(t) && s.phase.Ready? && s.phase.queue != [] && t.phase.Ready? && t.stranded == s.stranded
    requires Leads(covenants, s, events, t)
    requires t.ledger == s.ledger + VisitPays(s.phase.queue[0], finalized, o)
    requires t.lost == s.lost + VisitLoses(s.phase.queue[0], finalized, o)
    ensures var row := s.phase.queue[0];
            var r := Lookup(t.rows, row.id);
            r.Some? && SamePayout(r.value, row) && r.value.status == if Pays(finalized, o) then Completed else Pending
  {
    hide LedgerOk, Run, AllowedRun, SamePayout, VisitPays, VisitLoses, Pays;
    var row := s.phase.queue[0];
    assert Stands(s.rows, row, {Pending});
    RunExtends(covenants, s, events);
    RowStays(s.rows, t.rows, row.id);
    SamePayoutFacts();
    SamePayoutSymmetric();
    VisitSettles(s, t, finalized, o);
  }

  lemma SamePayoutSymmetric()
    ensures forall a, b :: SamePayout(a, b) ==> SamePayout(b, a)
  {
  }

  lemma {:induction false} TimesPaidConcat(a: seq<Payment>, b: seq<Payment>, id: string)
    ensures TimesPaid(a + b, id) == TimesPaid(a, id) + TimesPaid(b, id)
    decreases |b|
  {
    if b == [] {
      assert a + b == a;
    } else {
      var n := |b| - 1;
      assert a + b == (a + b[..n]) + [b[n]] && b == b[..n] + [b[n]];
      TimesPaidConcat(a, b[..n], id);
      PaidSnoc(a + b[..n], b[n], id);
      PaidSnoc(b[..n], b[n], id);
    }
  }

  /** How often one visit pays and loses an authorization. */
  lemma OnePayment(row: Row, finalized: bool, o: Outcome, id: string)
    ensures TimesPaid(VisitPays(row, finalized, o), id) - TimesPaid(VisitLoses(row, finalized, o), id)
         == if row.id == id && Pays(finalized, o) then 1 else 0
    ensures row.id != id ==> TimesPaid(VisitPays(row, finalized, o), id) == 0
  {
    if finalized && !o.Declined? {
      PaidSnoc([], Payment(row.id, row.bitcoinAddress, row.amountSats, o.txid), id);
      assert [] + VisitPays(row, finalized, o) == VisitPays(row, finalized, o);
    }
  }

  /** The txid and the time that a visit which pays for good leaves in the row. */
  lemma VisitRecords(covenants: bool, s: State, txid: string, w: Waits, now: int)
    requires Inv(s) && s.phase.Ready? && s.phase.queue != [] && OnlyArrivals(w) && txid != ""
    ensures var r := Lookup(Run(covenants, s, VisitEvents(true, Paid(txid), w, now)).rows, s.phase.queue[0].id);
            && r.Some? && SamePayout(r.value, s.phase.queue[0])
            && r.value.status == Completed && r.value.bitcoinTxid == Some(txid) && r.value.confirmedAt == Some(now)
  {
    hide Inv, Leads, Step, AllArrivals, ToResponse, Lookup, SamePayout;
    var o, row := Paid(txid), s.phase.queue[0];
    var u0 := VisitBegins(covenants, s, true, w.receipt);
    var begin, middle := [Take] + w.receipt + [Verdict(true)], ToResponse(o, w.before, w.between);
    var tail := [Resume(now)] + w.after;
    var u1 := SendReaches(covenants, u0, o, w.before, w.between);
    var u2 := SendResponds(covenants, u1, o, now, w.after);
    LeadsOn(covenants, s, begin, u0, middle, u1);
    LeadsOn(covenants, s, begin + middle, u1, tail, u2);
    LeadsKeepsInv(covenants, s, begin + middle + tail, u2);
    LeadsByStep(covenants, s, begin + middle + tail, u2, Finish(now));
    assert begin + middle + tail + [Finish(now)] == VisitEvents(true, o, w, now);
    SamePayoutChain(row, u0.phase.row);
    FinishRecords(covenants, u2, now);
  }

  lemma SamePayoutChain(a: Row, b: Row)
    requires SamePayout(b, a)
    ensures a.id == b.id && forall c :: SamePayout(c, b) ==> SamePayout(c, a)
  {
  }

  lemma FinishRecords(covenants: bool, s: State, now: int)
    requires Inv(s) && s.phase.Recorded? && s.phase.txid != ""
    ensures var r := Lookup(Step(covenants, s, Finish(now)).rows, s.phase.row.id);
            && r.Some? && SamePayout(r.value, s.phase.row) && r.value.status == Completed
            && r.value.bitcoinTxid == Some(s.phase.txid) && r.value.confirmedAt == Some(now)
  {
    hide GoodTable, LedgerOk, Settled, StrandedOk, Lookup, Updated;
    LookupUpdated(s.rows, s.phase.row.id, Completed, now, Some(s.phase.txid), None, s.phase.row.id);
  }

  lemma CompletedStayOn(s: State, t: State, u: State)
    requires CompletedStay(s, t) && CompletedStay(t, u)
    ensures CompletedStay(s, u)
  {
  }

  // ---------------------------------------------------------------- progress

  function GoodPass(n: nat, txids: nat -> string, waits: nat -> Waits, now: int): seq<Event> {
    if n == 0 then [EndPass] else VisitEvents(true, Paid(txids(n)), waits(n), now) + GoodPass(n - 1, txids, waits, now)
  }

  lemma {:induction false} GoodPassCompletes(covenants: bool, s: State, txids: nat -> string, waits: nat -> Waits,
                                             now: int)
    returns (t: State)
    requires Inv(s) && s.phase.Ready? && forall n :: txids(n) != "" && OnlyArrivals(waits(n))
    ensures Leads(covenants, s, GoodPass(|s.phase.queue|, txids, waits, now), t)
    ensures t.phase.Idle? && CompletedStay(s, t) && forall q :: q in s.phase.queue ==> IsCompleted(t.rows, q.id)
    decreases |s.phase.queue|
  {
    hide Inv, Leads, IsCompleted, VisitEvents, OnlyArrivals, VisitPays, VisitLoses;
    var queue := s.phase.queue;
    if queue == [] {
      LeadsNowhere(covenants, s);
      LeadsByStep(covenants, s, [], s, EndPass);
      assert [] + [EndPass] == [EndPass];
      t := Step(covenants, s, EndPass);
    } else {
      var n := |queue|;
      var o := Paid(txids(n));
      var u := VisitEffect(covenants, s, true, o, waits(n), now);
      VisitSettles(s, u, true, o);
      t := GoodPassCompletes(covenants, u, txids, waits, now);
      LeadsOn(covenants, s, VisitEvents(true, o, waits(n), now), u, GoodPass(n - 1, txids, waits, now), t);
      CompletedStayOn(s, u, t);
      assert queue == [queue[0]] + queue[1..];
    }
  }

  lemma PendingOrDone(s: State, pending: seq<Row>)
    requires Inv(s) && s.phase.Idle? && PendingList(s.rows, pending)
    ensures forall r :: r in s.rows && r.id !in s.stranded ==> r in pending || IsCompleted(s.rows, r.id)
  {
    hide LedgerOk, StrandedOk, PhaseOk;
    forall r | r in s.rows && r.status == Completed
      ensures IsCompleted(s.rows, r.id)
    {
      FindUnique(s.rows, Id, r);
    }
  }

  /** If receipts are final and sends succeed, a single pass completes every authorization that was in the table when it
      began, whatever arrives meanwhile, but for those that an exit has stranded. */
  lemma OnePassPaysEveryone(covenants: bool, s: State, pending: seq<Row>, txids: nat -> string, waits: nat -> Waits,
                            now: int)
    requires Inv(s) && s.phase.Idle? && PendingList(s.rows, pending)
    requires forall n :: txids(n) != "" && OnlyArrivals(waits(n))
    ensures var t := Run(covenants, s, [StartPass(pending)] + GoodPass(|pending|, txids, waits, now));
            t.phase.Idle? && forall r :: r in s.rows && r.id !in s.stranded ==> IsCompleted(t.rows, r.id)
  {
    hide Inv, IsCompleted, PendingList, OnlyArrivals, GoodPass;
    var s1 := s.(phase := Ready(pending));
    StartKeeps(s, pending);
    PendingOrDone(s, pending);
    var t := GoodPassCompletes(covenants, s1, txids, waits, now);
    LeadsNowhere(covenants, s);
    LeadsByStep(covenants, s, [], s, StartPass(pending));
    assert [] + [StartPass(pending)] == [StartPass(pending)];
    LeadsOn(covenants, s, [StartPass(pending)], s1, GoodPass(|pending|, txids, waits, now), t);
  }

  // ---------------------------------------------------------------- a run that pays twice

  lemma OneRow(r: Row)
    ensures Lookup([r], r.id) == Some(r)
    ensures r.status == Processing ==> Verify([r], r.nullifierHash) == Valid(r)
    ensures r.status == Pending ==> PendingList([r], [r])
    ensures forall status, message :: Mark([r], r.id, status, message) == [Set(r, status, 0, None, message)]
  {
  }

  lemma EnterOneRow(covenants: bool, s: State, r: Row, row: Row, queue: seq<Row>)
    requires s.rows == [r] && r.status == Processing && row.id == r.id
    ensures EnterSend(covenants, s, row, queue) == s.(phase := Sending(r, queue))
  {
    OneRow(r);
    assert Set(r, Processing, 0, None, None) == r;
  }

  /** A pass over a single pending row, up to the broadcast. */
  lemma PassUpToBroadcast(covenants: bool, s: State, txid: string) returns (events: seq<Event>, t: State)
    requires s.phase.Idle? && |s.rows| == 1 && s.rows[0].status == Pending
    ensures Leads(covenants, s, events, t)
    ensures |t.rows| == 1 && SamePayout(t.rows[0], s.rows[0]) && t.rows[0].status == Processing
    ensures t.phase == Broadcasted(t.rows[0], [], txid)
    ensures t.ledger == s.ledger + [PaymentTo(s.rows[0], txid)]
  {
    var r := s.rows[0];
    assert s.rows == [r];
    var r2 := Set(r, Processing, 0, None, None);
    assert r2.id == r.id && r2.status == Processing && Set(r2, Processing, 0, None, None) == r2;
    OneRow(r);
    OneRow(r2);
    hide Leads, Lookup, Verify, Mark, EnterSend, LeaveSend, Abandon, After, UpdateStatus;
    LeadsNowhere(covenants, s);
    LeadsByStep(covenants, s, [], s, StartPass([r]));
    var s1 := s.(phase := Ready([r]));
    LeadsByStep(covenants, s, [] + [StartPass([r])], s1, Take);
    var s2 := s.(rows := [r2], phase := Verifying(r, []));
    assert [r][1..] == [];
    assert Step(covenants, s1, Take) == s2;
    LeadsByStep(covenants, s, [] + [StartPass([r])] + [Take], s2, Verdict(true));
    var s3 := s.(rows := [r2], phase := Sending(r2, []));
    EnterOneRow(covenants, s2, r2, r, []);
    events := [] + [StartPass([r])] + [Take] + [Verdict(true)];
    LeadsByStep(covenants, s, events, s3, Broadcast(txid));
    events, t := events + [Broadcast(txid)], Step(covenants, s3, Broadcast(txid));
  }

  lemma ThrowOneRow(covenants: bool, s: State, r: Row, message: string)
    requires s.rows == [r] && s.phase.Broadcasted? && s.phase.row == r && r.status == Processing
    ensures var t := Step(covenants, s, SendThrows(message));
            && t.phase == Failing(r, s.phase.queue) && t.ledger == s.ledger
            && |t.rows| == 1 && SamePayout(t.rows[0], r)
  {
    OneRow(r);
  }

  lemma ResetOneRow(covenants: bool, s: State, r: Row, now: int)
    requires |s.rows| == 1 && s.phase.Failing? && s.phase.row == r && SamePayout(s.rows[0], r)
    ensures var t := Step(covenants, s, Finish(now));
            && t.phase == Ready(s.phase.queue) && t.ledger == s.ledger
            && |t.rows| == 1 && SamePayout(t.rows[0], r) && t.rows[0].status == Pending
  {
    var q := s.rows[0];
    assert s.rows == [q];
    OneRow(q);
  }

  /** The response is lost: the row goes back to pending, and the pass ends. */
  lemma LoseResponse(covenants: bool, s: State, message: string, now: int) returns (events: seq<Event>, t: State)
    requires |s.rows| == 1 && s.rows[0].status == Processing && s.phase.Broadcasted?
    requires s.phase.row == s.rows[0] && s.phase.queue == []
    ensures Leads(covenants, s, events, t)
    ensures |t.rows| == 1 && SamePayout(t.rows[0], s.rows[0]) && t.rows[0].status == Pending
    ensures t.phase == Idle && t.ledger == s.ledger
  {
    var r := s.rows[0];
    hide Leads, Mark, LeaveSend, UpdateStatus;
    ThrowOneRow(covenants, s, r, message);
    var s1 := Step(covenants, s, SendThrows(message));
    ResetOneRow(covenants, s1, r, now);
    var s2 := Step(covenants, s1, Finish(now));
    LeadsNowhere(covenants, s);
    LeadsByStep(covenants, s, [], s, SendThrows(message));
    LeadsByStep(covenants, s, [] + [SendThrows(message)], s1, Finish(now));
    events := [] + [SendThrows(message)] + [Finish(now)];
    LeadsByStep(covenants, s, events, s2, EndPass);
    events, t := events + [EndPass], Step(covenants, s2, EndPass);
  }

  /** Any authorization can be paid twice: the first broadcast's response is lost, the next pass pays again. */
  lemma LostResponsePaysTwice(covenants: bool, vaults: set<string>, id: string, now: int, p: Params, message: string)
    returns (events: seq<Event>)
    requires Create([], vaults, id, now, p).Ok?
    ensures AllowedRun(covenants, INIT, events)
    ensures TimesPaid(Run(covenants, INIT, events).ledger, id) == 2
  {
    var arrive := Arrive(vaults, id, now, p);
    LeadsNowhere(covenants, INIT);
    LeadsByStep(covenants, INIT, [], INIT, arrive);
    var s := INIT.(rows := [NewRow(id, now, p)]);
    assert Step(covenants, INIT, arrive) == s;
    var first, s1 := PassUpToBroadcast(covenants, s, "t1");
    var reset, s2 := LoseResponse(covenants, s1, message, now);
    var second, s3 := PassUpToBroadcast(covenants, s2, "t2");
    LeadsOn(covenants, INIT, [] + [arrive], s, first, s1);
    LeadsOn(covenants, INIT, [] + [arrive] + first, s1, reset, s2);
    LeadsOn(covenants, INIT, [] + [arrive] + first + reset, s2, second, s3);
    events := [] + [arrive] + first + reset + second;
    PaidSnoc(s1.ledger, PaymentTo(s2.rows[0], "t2"), id);
    PaidSnoc([], PaymentTo(s.rows[0], "t1"), id);
    assert TimesPaid([], id) == 0;
  }

  /** For instance, 1000 satoshis to tb1q, paid twice. */
  lemma PaidTwice(covenants: bool) returns (events: seq<Event>)
    ensures AllowedRun(covenants, INIT, events)
    ensures TimesPaid(Run(covenants, INIT, events).ledger, "id") == 2
  {
    var p := Params("vault", "nullifier", "0x00000000000000000000000000000000", "tb1q", 1000);
    assert GoodTxHash(p.starknetTxHash) && "tb1" <= p.bitcoinAddress;
    events := LostResponsePaysTwice(covenants, {"vault"}, "id", 0, p, "lost");
  }

  // ---------------------------------------------------------------- a run that never pays

  /** An authorization is created and taken, and the process ends while it waits for the receipt. */
  function LeftBehind(vaults: set<string>, id: string, now: int, p: Params): seq<Event> {
    [Arrive(vaults, id, now, p)] + [StartPass([NewRow(id, now, p)])] + [Take] + [Exit]
  }

  lemma LeftBehindLeads(covenants: bool, vaults: set<string>, id: string, now: int, p: Params)
    requires Create([], vaults, id, now, p).Ok?
    ensures var row := Set(NewRow(id, now, p), Processing, 0, None, None);
            Leads(covenants, INIT, LeftBehind(vaults, id, now, p), State([row], [], [], {id}, Idle))
  {
    var r := NewRow(id, now, p);
    var r2 := Set(r, Processing, 0, None, None);
    OneRow(r);
    OneRow(r2);
    hide Leads, Lookup, Mark;
    LeadsNowhere(covenants, INIT);
    LeadsByStep(covenants, INIT, [], INIT, Arrive(vaults, id, now, p));
    var s := INIT.(rows := [r]);
    assert Step(covenants, INIT, Arrive(vaults, id, now, p)) == s;
    assert [] + [Arrive(vaults, id, now, p)] == [Arrive(vaults, id, now, p)];
    LeadsByStep(covenants, INIT, [Arrive(vaults, id, now, p)], s, StartPass([r]));
    var s1 := s.(phase := Ready([r]));
    LeadsByStep(covenants, INIT, [Arrive(vaults, id, now, p)] + [StartPass([r])], s1, Take);
    var s2 := s.(rows := [r2], phase := Verifying(r, []));
    assert [r][1..] == [];
    assert Step(covenants, s1, Take) == s2;
    LeadsByStep(covenants, INIT, [Arrive(vaults, id, now, p)] + [StartPass([r])] + [Take], s2, Exit);
    assert r.id == r2.id == id && !IsCompleted([r2], id);
    assert {} + {id} == {id};
    assert Step(covenants, s2, Exit) == State([r2], [], [], {id}, Idle);
  }

  /** Any authorization can be stranded: after that, no run pays it or changes its status. */
  lemma ExitStrandsUnpaid(covenants: bool, vaults: set<string>, id: string, now: int, p: Params, later: seq<Event>)
    requires Create([], vaults, id, now, p).Ok?
    requires AllowedRun(covenants, Run(covenants, INIT, LeftBehind(vaults, id, now, p)), later)
    ensures var begin := LeftBehind(vaults, id, now, p);
            var t := Run(covenants, INIT, begin + later);
            && AllowedRun(covenants, INIT, begin + later)
            && TimesPaid(t.ledger, id) == 0 && Lookup(t.rows, id).Some? && Lookup(t.rows, id).value.status == Processing
  {
    hide Run, AllowedRun, Inv, LeftBehind;
    var begin := LeftBehind(vaults, id, now, p);
    LeftBehindLeads(covenants, vaults, id, now, p);
    var s := Run(covenants, INIT, begin);
    InitInv();
    LeadsKeepsInv(covenants, INIT, begin, s);
    StrandedForGood(covenants, s, later, id);
    assert Leads(covenants, s, later, Run(covenants, s, later));
    LeadsOn(covenants, INIT, begin, s, later, Run(covenants, s, later));
    OneRow(s.rows[0]);
  }
}
