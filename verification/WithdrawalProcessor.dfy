/**
  * The polling processor as an object: a pass over the pending rows, each marked, verified, sent and
  * recorded step by step, with a reset when the send throws. What happens outside is an input: the
  * receipt, how the send ends, and the authorizations that arrive while the processor waits. Every
  * method is proved to be a run of the protocol.
  */
module WithdrawalProcessor {
  import opened Wrappers
  import opened Sorting
  import opened Authorizations
  import opened WithdrawalProtocol
  import opened WithdrawalVisits

  datatype Arrival = Arrival(id: string, now: int, p: Params)

  /** What the outside world does during one visit to a row. */
  datatype Visit = Visit(finalized: bool, outcome: Outcome, now: int, duringReceipt: seq<Arrival>,
                         duringSend: seq<Arrival>, afterBroadcast: seq<Arrival>, afterSend: seq<Arrival>)

  /** An await: the creations that happen meanwhile. */
  function Arrivals(vaults: set<string>, a: seq<Arrival>): (events: seq<Event>)
    ensures |events| == |a| && AllArrivals(events)
  {
    seq(|a|, k requires 0 <= k < |a| => Arrive(vaults, a[k].id, a[k].now, a[k].p))
  }

  function WaitsOf(vaults: set<string>, v: Visit): (w: Waits)
    ensures OnlyArrivals(w)
  {
    Waits(Arrivals(vaults, v.duringReceipt), Arrivals(vaults, v.duringSend), Arrivals(vaults, v.afterBroadcast),
          Arrivals(vaults, v.afterSend))
  }

  /** A send up to its response. */
  function SendBegins(vaults: set<string>, v: Visit): seq<Event> {
    ToResponse(v.outcome, Arrivals(vaults, v.duringSend), Arrivals(vaults, v.afterBroadcast))
    + [ResponseTo(v.outcome, v.now)]
  }

  /** The first n visits of a pass: what they pay, in order. */
  function PassPays(pending: seq<Row>, visits: nat -> Visit, n: nat): seq<Payment>
    requires n <= |pending|
  {
    if n == 0 then []
    else PassPays(pending, visits, n - 1) + VisitPays(pending[n - 1], visits(n - 1).finalized, visits(n - 1).outcome)
  }

  function PassLoses(pending: seq<Row>, visits: nat -> Visit, n: nat): seq<Payment>
    requires n <= |pending|
  {
    if n == 0 then []
    else PassLoses(pending, visits, n - 1) + VisitLoses(pending[n - 1], visits(n - 1).finalized, visits(n - 1).outcome)
  }

  /** The row as a visit leaves it. */
  ghost predicate RowLeft(rows: seq<Row>, row: Row, v: Visit) {
    var r := Lookup(rows, row.id);
    && r.Some? && SamePayout(r.value, row)
    && if v.finalized && v.outcome.Paid? && v.outcome.txid != ""
       then r.value.status == Completed && r.value.bitcoinTxid == Some(v.outcome.txid)
            && r.value.confirmedAt == Some(v.now)
       else r.value.status == Pending
  }

  lemma UnfinalVisit(vaults: set<string>, v: Visit)
    requires !v.finalized
    ensures [Take] + Arrivals(vaults, v.duringReceipt) + [Verdict(false)]
         == VisitEvents(v.finalized, v.outcome, WaitsOf(vaults, v), v.now)
  {
  }

  lemma VisitSplits(vaults: set<string>, v: Visit, begun: seq<Event>, events: seq<Event>)
    requires v.finalized
    requires begun == [Take] + Arrivals(vaults, v.duringReceipt) + [Verdict(true)] + SendBegins(vaults, v)
    requires events == begun + Arrivals(vaults, v.afterSend) + [Finish(v.now)]
    ensures events == VisitEvents(v.finalized, v.outcome, WaitsOf(vaults, v), v.now)
  {
    hide Arrivals, ToResponse;
    var w := WaitsOf(vaults, v);
    var begin, e := [Take] + w.receipt + [Verdict(true)], [ResponseTo(v.outcome, v.now)];
    var sent := ToResponse(v.outcome, w.before, w.between);
    assert begin + (sent + e) + w.after + [Finish(v.now)] == begin + (sent + (e + w.after + [Finish(v.now)]));
  }

  /** What the events of a visit come to. */
  lemma VisitDone(covenants: bool, s: State, vaults: set<string>, row: Row, v: Visit, events: seq<Event>, t: State)
    requires s.phase.Ready? && s.phase.queue != [] && s.phase.queue[0] == row && t.stranded == s.stranded
    requires Leads(covenants, s, events, t)
    requires events == VisitEvents(v.finalized, v.outcome, WaitsOf(vaults, v), v.now)
    ensures Inv(s) ==>
              && Inv(t) && CompletedStay(s, t)
              && t.ledger == s.ledger + VisitPays(row, v.finalized, v.outcome)
              && t.lost == s.lost + VisitLoses(row, v.finalized, v.outcome)
              && RowLeft(t.rows, row, v)
    ensures Inv(s) ==>
              if v.finalized && !v.outcome.Declined?
              then t.ledger == s.ledger + [Payment(row.id, row.bitcoinAddress, row.amountSats, v.outcome.txid)]
              else t.ledger == s.ledger
  {
    if Inv(s) {
      hide Inv, CompletedStay, VisitEvents, WaitsOf, AllowedRun, SamePayout, Lookup;
      var u := VisitEffect(covenants, s, v.finalized, v.outcome, WaitsOf(vaults, v), v.now);
      assert t == u;
      VisitLeaves(covenants, s, events, t, v.finalized, v.outcome);
      if PaysForGood(v) {
        VisitRecords(covenants, s, v.outcome.txid, WaitsOf(vaults, v), v.now);
      }
    }
  }

  /** A final receipt, a broadcast, and its txid. */
  predicate PaysForGood(v: Visit) {
    v.finalized && v.outcome.Paid? && v.outcome.txid != ""
  }

  lemma PassOfNone(s: State, visits: nat -> Visit)
    ensures forall pending ::
              s.ledger == s.ledger + PassPays(pending, visits, 0) && s.lost == s.lost + PassLoses(pending, visits, 0)
  {
  }

  lemma PassGrows(s: State, t: State, u: State, pending: seq<Row>, visits: nat -> Visit, i: nat)
    requires i < |pending|
    requires t.ledger == s.ledger + PassPays(pending, visits, i) && t.lost == s.lost + PassLoses(pending, visits, i)
    requires u.ledger == t.ledger + VisitPays(pending[i], visits(i).finalized, visits(i).outcome)
    requires u.lost == t.lost + VisitLoses(pending[i], visits(i).finalized, visits(i).outcome)
    ensures u.ledger == s.ledger + PassPays(pending, visits, i + 1)
    ensures u.lost == s.lost + PassLoses(pending, visits, i + 1)
  {
    hide VisitPays, VisitLoses;
    var pays := VisitPays(pending[i], visits(i).finalized, visits(i).outcome);
    var loses := VisitLoses(pending[i], visits(i).finalized, visits(i).outcome);
    assert PassPays(pending, visits, i + 1) == PassPays(pending, visits, i) + pays;
    assert PassLoses(pending, visits, i + 1) == PassLoses(pending, visits, i) + loses;
    hide PassPays, PassLoses;
    Associative(s.ledger, PassPays(pending, visits, i), pays);
    Associative(s.lost, PassLoses(pending, visits, i), loses);
  }

  /** How often the first n visits pay and lose one of the rows. */
  lemma {:induction false} PassAccounts(pending: seq<Row>, visits: nat -> Visit, n: nat, i: nat)
    requires Distinct(Id, pending) && n <= |pending| && i < |pending|
    ensures TimesPaid(PassPays(pending, visits, n), pending[i].id)
            - TimesPaid(PassLoses(pending, visits, n), pending[i].id)
         == if i < n && PaysForGood(visits(i)) then 1 else 0
  {
    hide TimesPaid, VisitPays, VisitLoses;
    if n == 0 {
      NothingPaid(pending[i].id);
    } else {
      var row, v, id := pending[n - 1], visits(n - 1), pending[i].id;
      PassAccounts(pending, visits, n - 1, i);
      assert i != n - 1 ==> Id(pending[i]) != Id(row);
      OnePayment(row, v.finalized, v.outcome, id);
      TimesPaidConcat(PassPays(pending, visits, n - 1), VisitPays(row, v.finalized, v.outcome), id);
      TimesPaidConcat(PassLoses(pending, visits, n - 1), VisitLoses(row, v.finalized, v.outcome), id);
    }
  }

  lemma NothingPaid(id: string)
    ensures TimesPaid([], id) == 0
  {
  }

  /** After a pass, a row of its snapshot is completed exactly if its visit paid it for good. */
  lemma PassSettles(s: State, t: State, pending: seq<Row>, visits: nat -> Visit, i: nat)
    requires Inv(s) && Inv(t) && s.phase.Idle? && t.phase.Idle? && PendingList(s.rows, pending) && i < |pending|
    requires t.ledger == s.ledger + PassPays(pending, visits, |pending|)
    requires t.lost == s.lost + PassLoses(pending, visits, |pending|)
    ensures IsCompleted(t.rows, pending[i].id) <==> PaysForGood(visits(i))
  {
    hide TimesPaid, CompletedSats, PaidSats, PaysForGood, PassPays, PassLoses, AsAuthorized;
    var id := pending[i].id;
    FindUnique(s.rows, Id, pending[i]);
    assert !IsCompleted(s.rows, id);
    PassAccounts(pending, visits, |pending|, i);
    TimesPaidConcat(s.ledger, PassPays(pending, visits, |pending|), id);
    TimesPaidConcat(s.lost, PassLoses(pending, visits, |pending|), id);
    IdleAccounts(s);
    IdleAccounts(t);
  }

  /** What the passes pay, pass by pass: the snapshot of each, and visits(n)(i) for its i-th row in the n-th pass. */
  function AllPays(snapshots: seq<seq<Row>>, visits: nat -> nat -> Visit): seq<Payment> {
    if snapshots == [] then []
    else
      var n := |snapshots| - 1;
      AllPays(snapshots[..n], visits) + PassPays(snapshots[n], visits(n), |snapshots[n]|)
  }

  function AllLoses(snapshots: seq<seq<Row>>, visits: nat -> nat -> Visit): seq<Payment> {
    if snapshots == [] then []
    else
      var n := |snapshots| - 1;
      AllLoses(snapshots[..n], visits) + PassLoses(snapshots[n], visits(n), |snapshots[n]|)
  }

  /** From that ledger on, exactly what the passes paid has been paid, and what they lost has been lost; every row whose
      visit paid for good is completed. */
  ghost predicate Accounted(t: State, s: State, snapshots: seq<seq<Row>>, visits: nat -> nat -> Visit) {
    && t.ledger == s.ledger + AllPays(snapshots, visits)
    && t.lost == s.lost + AllLoses(snapshots, visits)
    && AllCompleted(t.rows, snapshots, visits)
  }

  ghost predicate AllCompleted(rows: seq<Row>, snapshots: seq<seq<Row>>, visits: nat -> nat -> Visit) {
    snapshots == []
    || var n := |snapshots| - 1;
       AllCompleted(rows, snapshots[..n], visits) && PassCompleted(rows, snapshots[n], visits(n))
  }

  /** Every row of the snapshot whose visit pays for good is completed. */
  ghost predicate PassCompleted(rows: seq<Row>, pending: seq<Row>, visits: nat -> Visit) {
    forall i :: 0 <= i < |pending| && PaysForGood(visits(i)) ==> IsCompleted(rows, pending[i].id)
  }

  lemma AccountedNothing(s: State, visits: nat -> nat -> Visit)
    ensures Accounted(s, s, [], visits)
  {
    assert s.ledger + [] == s.ledger && s.lost + [] == s.lost;
  }

  lemma CompletedAfter(t: State, u: State, pending: seq<Row>, visits: nat -> Visit)
    requires PassCompleted(t.rows, pending, visits) && CompletedStay(t, u)
    ensures PassCompleted(u.rows, pending, visits)
  {
    hide IsCompleted, PaysForGood;
  }

  lemma {:induction false} AllCompletedAfter(t: State, u: State, snapshots: seq<seq<Row>>, visits: nat -> nat -> Visit)
    requires AllCompleted(t.rows, snapshots, visits) && CompletedStay(t, u)
    ensures AllCompleted(u.rows, snapshots, visits)
    decreases |snapshots|
  {
    hide PassCompleted, CompletedStay;
    if snapshots != [] {
      var n := |snapshots| - 1;
      AllCompletedAfter(t, u, snapshots[..n], visits);
      CompletedAfter(t, u, snapshots[n], visits(n));
    }
  }

  lemma {:induction false} FirstCompleted(rows: seq<Row>, snapshots: seq<seq<Row>>, visits: nat -> nat -> Visit)
    requires AllCompleted(rows, snapshots, visits) && snapshots != []
    ensures PassCompleted(rows, snapshots[0], visits(0))
    decreases |snapshots|
  {
    hide PassCompleted;
    if |snapshots| > 1 {
      FirstCompleted(rows, snapshots[..|snapshots| - 1], visits);
    }
  }

  lemma AccountedWait(t: State, u: State, s: State, snapshots: seq<seq<Row>>, visits: nat -> nat -> Visit)
    requires Accounted(t, s, snapshots, visits) && CompletedStay(t, u) && u.ledger == t.ledger && u.lost == t.lost
    ensures Accounted(u, s, snapshots, visits)
  {
    hide AllCompleted, AllPays, AllLoses, CompletedStay;
    AllCompletedAfter(t, u, snapshots, visits);
  }

  lemma AccountedPass(t: State, u: State, s: State, snapshots: seq<seq<Row>>, next: seq<Row>,
                      visits: nat -> nat -> Visit)
    requires Accounted(t, s, snapshots, visits) && CompletedStay(t, u)
    requires u.ledger == t.ledger + PassPays(next, visits(|snapshots|), |next|)
    requires u.lost == t.lost + PassLoses(next, visits(|snapshots|), |next|)
    requires PassCompleted(u.rows, next, visits(|snapshots|))
    ensures Accounted(u, s, snapshots + [next], visits)
  {
    hide PassCompleted, PassPays, PassLoses, CompletedStay;
    AllGrows(snapshots, next, visits);
    AllCompletedAfter(t, u, snapshots, visits);
    CompletedGrows(u.rows, snapshots, next, visits);
    hide AllPays, AllLoses, AllCompleted;
    Associative(s.ledger, AllPays(snapshots, visits), PassPays(next, visits(|snapshots|), |next|));
    Associative(s.lost, AllLoses(snapshots, visits), PassLoses(next, visits(|snapshots|), |next|));
  }

  lemma CompletedGrows(rows: seq<Row>, snapshots: seq<seq<Row>>, next: seq<Row>, visits: nat -> nat -> Visit)
    requires AllCompleted(rows, snapshots, visits) && PassCompleted(rows, next, visits(|snapshots|))
    ensures AllCompleted(rows, snapshots + [next], visits)
  {
    hide PassCompleted;
    assert (snapshots + [next])[..|snapshots|] == snapshots;
  }

  lemma Associative(a: seq<Payment>, b: seq<Payment>, c: seq<Payment>)
    ensures a + b + c == a + (b + c)
  {
  }

  lemma AllGrows(snapshots: seq<seq<Row>>, next: seq<Row>, visits: nat -> nat -> Visit)
    ensures var n: nat, all := |snapshots|, snapshots + [next];
            && AllPays(all, visits) == AllPays(snapshots, visits) + PassPays(next, visits(n), |next|)
            && AllLoses(all, visits) == AllLoses(snapshots, visits) + PassLoses(next, visits(n), |next|)
  {
    assert (snapshots + [next])[..|snapshots|] == snapshots;
  }

  /** Passes with the waits between them. */
  function Polled(vaults: set<string>, between: nat -> seq<Arrival>, passes: seq<seq<Event>>): seq<Event> {
    if passes == [] then []
    else if |passes| == 1 then passes[0]
    else
      var n := |passes| - 1;
      Polled(vaults, between, passes[..n]) + Arrivals(vaults, between(n - 1)) + passes[n]
  }

  lemma PolledOnce(vaults: set<string>, between: nat -> seq<Arrival>, pass: seq<Event>)
    ensures Polled(vaults, between, [pass]) == pass
  {
  }

  lemma PolledAgain(vaults: set<string>, between: nat -> seq<Arrival>, passes: seq<seq<Event>>, pass: seq<Event>)
    requires passes != []
    ensures Polled(vaults, between, passes + [pass])
         == Polled(vaults, between, passes) + Arrivals(vaults, between(|passes| - 1)) + pass
  {
    assert (passes + [pass])[..|passes|] == passes;
  }

  class WithdrawalProcessor {
    const covenants: bool
    const auths: WithdrawalAuthorizationService
    var isRunning: bool
    ghost var ledger: seq<Payment>
    ghost var lost: seq<Payment>
    ghost var phase: Phase
    ghost const stranded: set<string>

    /** The history is what earlier processors over the same table have paid, lost and stranded. */
    constructor (auths: WithdrawalAuthorizationService, covenants: bool, ghost history: State)
      ensures this.auths == auths && this.covenants == covenants && !isRunning
      ensures S() == State(auths.rows, history.ledger, history.lost, history.stranded, Idle)
    {
      this.auths := auths;
      this.covenants := covenants;
      isRunning := false;
      ledger, lost, phase, stranded := history.ledger, history.lost, Idle, history.stranded;
    }

    ghost function S(): State
      reads this, auths
    {
      State(auths.rows, ledger, lost, stranded, phase)
    }

    /** An await: authorizations may be created meanwhile. */
    method Await(arrivals: seq<Arrival>, ghost from: State, ghost before: seq<Event>) returns (ghost events: seq<Event>)
      requires Leads(covenants, from, before, S())
      modifies auths`rows
      ensures Leads(covenants, from, events, S())
      ensures events == before + Arrivals(auths.vaults, arrivals)
    {
      hide Leads, Create;
      ghost var all := Arrivals(auths.vaults, arrivals);
      events := before;
      for i := 0 to |arrivals|
        invariant Leads(covenants, from, events, S())
        invariant events == before + all[..i]
      {
        assert all[..i + 1] == all[..i] + [all[i]];
        var a := arrivals[i];
        ghost var s, e := S(), Arrive(auths.vaults, a.id, a.now, a.p);
        var _ := auths.CreateAuthorization(a.id, a.now, a.p);
        LeadsByStep(covenants, from, events, s, e);
        events := events + [e];
      }
      assert all[..|arrivals|] == all;
    }

    /** Look up, validate and mark; None if one of the first two throws. */
    method Authorize(id: string, ghost from: State, ghost before: seq<Event>)
      returns (auth: Option<Row>, ghost events: seq<Event>)
      requires phase.Verifying? && phase.row.id == id
      requires Leads(covenants, from, before, S())
      modifies this`phase, auths`rows
      ensures Leads(covenants, from, events, S())
      ensures match auth
              case Some(row) => phase == Sending(row, old(phase.queue)) && row.id == id
              case None => phase == old(Failing(phase.row, phase.queue))
      ensures events == before + [Verdict(true)]
      ensures old(Inv(S())) ==> auth.Some?
      ensures if auth.Some? && !covenants
              then SetRows(old(auths.rows), auths.rows, id, Processing, 0, None, None)
              else auths.rows == old(auths.rows)
    {
      hide Leads, Verify, Updated, Inv, SetRows;
      ghost var queue, s := phase.queue, S();
      if Inv(s) {
        ValidationNeverRefuses(covenants, s);
      }
      LeadsByStep(covenants, from, before, S(), Verdict(true));
      events := before + [Verdict(true)];
      auth := Lookup(auths.rows, id);
      if auth.None? {
        phase := Failing(phase.row, queue);
        return;
      }
      if !covenants {
        var validation := Verify(auths.rows, auth.value.nullifierHash);
        if !validation.Valid? {
          phase := Failing(phase.row, queue);
          return None, events;
        }
        var _ := auths.SetStatus(id, Processing, 0, None, None);
      }
      phase := Sending(auth.value, queue);
    }

    /** The network side of a send: the broadcast, if it comes to one, and the response. */
    method SendBitcoinToAddress(auth: Row, v: Visit, ghost from: State, ghost before: seq<Event>)
      returns (r: Result<string, string>, ghost events: seq<Event>)
      requires phase.Sending? && phase.row == auth
      requires Leads(covenants, from, before, S())
      modifies this`ledger, this`lost, this`phase, auths`rows
      ensures Leads(covenants, from, events, S())
      ensures events == before + ToResponse(v.outcome, Arrivals(auths.vaults, v.duringSend),
                                            Arrivals(auths.vaults, v.afterBroadcast))
      ensures match v.outcome
              case Declined(message) => r == Err(message) && phase == old(phase) && lost == old(lost)
              case Paid(txid) =>
                && r == Ok(txid) && phase == Broadcasted(auth, old(phase.queue), txid)
                && lost == if txid == "" then old(lost) + [PaymentTo(auth, txid)] else old(lost)
              case Lost(txid, message) =>
                && r == Err(message) && phase == Broadcasted(auth, old(phase.queue), txid)
                && lost == if txid == "" then old(lost) + [PaymentTo(auth, txid)] else old(lost)
    {
      hide Leads, Updated;
      events := Await(v.duringSend, from, before);
      if v.outcome.Declined? {
        return Err(v.outcome.message), events;
      }
      ghost var payment := PaymentTo(auth, v.outcome.txid);
      LeadsByStep(covenants, from, events, S(), Broadcast(v.outcome.txid));
      events := events + [Broadcast(v.outcome.txid)];
      ledger := ledger + [payment];
      lost := if v.outcome.txid == "" then lost + [payment] else lost;
      phase := Broadcasted(auth, phase.queue, v.outcome.txid);
      events := Await(v.afterBroadcast, from, events);
      r := if v.outcome.Paid? then Ok(v.outcome.txid) else Err(v.outcome.message);
    }

    /** The wallet send returned: its txid is recorded, or the row is marked failed. */
    method RecordSend(auth: Row, sent: Result<string, string>, now: int, ghost from: State, ghost before: seq<Event>)
      returns (r: Result<string, string>, ghost events: seq<Event>)
      requires !covenants && HasRow(phase) && phase.row == auth
      requires if sent.Ok? then phase.Broadcasted? && phase.txid == sent.value else phase.Sending? || phase.Broadcasted?
      requires Leads(covenants, from, before, S())
      modifies this`lost, this`phase, auths`rows
      ensures Leads(covenants, from, events, S())
      ensures phase == if r.Ok? then Recorded(auth, old(phase.queue), r.value) else Failing(auth, old(phase.queue))
      ensures r.Ok? ==> sent.Ok?
      ensures lost == if sent.Err? then GivenUp(old(S())) else old(lost)
      ensures events == before + [if sent.Ok? then Resume(now) else SendThrows(sent.error)]
      ensures r == if sent == Ok("") then Err("Bitcoin TXID required for completed status") else sent
      ensures if r.Ok? then SetRows(old(auths.rows), auths.rows, auth.id, Completed, now, Some(r.value), None)
              else SetRows(old(auths.rows), auths.rows, auth.id, Failed, 0, None, Some(r.error))
    {
      hide Leads, Updated, EnterSend, Abandon, After, IsCompleted, SetRows;
      ghost var queue, e := phase.queue, if sent.Ok? then Resume(now) else SendThrows(sent.error);
      LeadsByStep(covenants, from, before, S(), e);
      events := before + [e];
      if sent.Ok? {
        var recorded := auths.SetStatus(auth.id, Completed, now, Some(sent.value), None);
        if recorded.Ok? {
          phase := Recorded(auth, queue, sent.value);
          return sent, events;
        }
        r := Err("Bitcoin TXID required for completed status");
      } else {
        lost := GivenUp(S());
        r := sent;
      }
      var _ := auths.SetStatus(auth.id, Failed, 0, None, Some(r.error));
      phase := Failing(auth, queue);
    }

    /** Authorize, pay, and record either end of the attempt. */
    method SendBitcoinWithAuthorization(id: string, v: Visit, ghost from: State, ghost before: seq<Event>)
      returns (r: Result<string, string>, ghost events: seq<Event>)
      requires !covenants && phase.Verifying? && phase.row.id == id
      requires Leads(covenants, from, before, S())
      modifies this`ledger, this`lost, this`phase, auths`rows
      ensures Leads(covenants, from, events, S())
      ensures if r.Ok? then phase.Recorded? && phase.txid == r.value else phase.Failing?
      ensures phase.row.id == id && phase.queue == old(phase.queue)
      ensures CleanOutcome(v.outcome) ==> lost == old(lost)
      ensures old(Inv(S())) ==> events == before + [Verdict(true)] + SendBegins(auths.vaults, v)
    {
      hide Leads, Inv;
      var auth;
      auth, events := Authorize(id, from, before);
      if auth.None? {
        return Err("Invalid authorization"), events;
      }
      r, events := SendBitcoinToAddress(auth.value, v, from, events);
      r, events := RecordSend(auth.value, r, v.now, from, events);
    }

    /** The covenant withdrawal pays the authorization it looked up and keeps no status of its own. */
    method ExecuteCovenantWithdrawal(id: string, v: Visit, ghost from: State, ghost before: seq<Event>)
      returns (r: Result<string, string>, ghost events: seq<Event>)
      requires covenants && phase.Verifying? && phase.row.id == id
      requires Leads(covenants, from, before, S())
      modifies this`ledger, this`lost, this`phase, auths`rows
      ensures Leads(covenants, from, events, S())
      ensures if r.Ok? then phase.Recorded? && phase.txid == r.value else phase.Failing?
      ensures phase.row.id == id && phase.queue == old(phase.queue)
      ensures CleanOutcome(v.outcome) ==> lost == old(lost)
      ensures old(Inv(S())) ==> events == before + [Verdict(true)] + SendBegins(auths.vaults, v)
    {
      hide Leads, Updated, Inv;
      ghost var queue := phase.queue;
      var auth;
      auth, events := Authorize(id, from, before);
      if auth.None? {
        return Err("Authorization not found"), events;
      }
      r, events := SendBitcoinToAddress(auth.value, v, from, events);
      ghost var e := if r.Ok? then Resume(v.now) else SendThrows(r.error);
      LeadsByStep(covenants, from, events, S(), e);
      events := events + [e];
      if r.Ok? {
        phase := Recorded(auth.value, queue, r.value);
      } else {
        lost := GivenUp(S());
        phase := Failing(auth.value, queue);
      }
    }

    /** One visit. Nothing is paid unless the receipt is final; then the row's amount goes to the row's address if the
        send gets as far as the broadcast. The row ends completed, with that txid and the time, if it was paid and the
        txid came back, and pending otherwise. */
    method ProcessAuthorization(row: Row, v: Visit) returns (ghost events: seq<Event>)
      requires phase.Ready? && phase.queue != [] && phase.queue[0] == row
      modifies this`ledger, this`lost, this`phase, auths`rows
      ensures Leads(covenants, old(S()), events, S())
      ensures phase == Ready(old(phase.queue)[1..])
      ensures CleanOutcome(v.outcome) ==> lost == old(lost)
      ensures old(Inv(S())) ==>
                && Inv(S()) && CompletedStay(old(S()), S())
                && (!v.finalized || v.outcome.Declined? ==> ledger == old(ledger))
                && (v.finalized && !v.outcome.Declined? ==>
                      ledger == old(ledger) + [Payment(row.id, row.bitcoinAddress, row.amountSats, v.outcome.txid)])
                && ledger == old(ledger) + VisitPays(row, v.finalized, v.outcome)
                && lost == old(lost) + VisitLoses(row, v.finalized, v.outcome)
                && RowLeft(auths.rows, row, v)
    {
      hide Leads, Updated, Inv, CompletedStay, AllArrivals, VisitPays, VisitLoses, RowLeft, VisitEvents, WaitsOf,
        Arrivals, SendBegins, EnterSend, LeaveSend, Abandon, After, IsCompleted;
      ghost var queue, from, vaults := phase.queue[1..], S(), auths.vaults;
      LeadsNowhere(covenants, from);
      LeadsByStep(covenants, from, [], S(), Take);
      var _ := auths.SetStatus(row.id, Processing, 0, None, None);
      phase := Verifying(row, queue);
      assert [] + [Take] == [Take];
      ghost var taken := Await(v.duringReceipt, from, [Take]);
      if Inv(from) {
        LeadsKeepsInv(covenants, from, taken, S());
      }
      if !v.finalized {
        LeadsByStep(covenants, from, taken, S(), Verdict(false));
        var _ := auths.SetStatus(row.id, Pending, 0, None, None);
        phase := Ready(queue);
        events := taken + [Verdict(false)];
        UnfinalVisit(vaults, v);
        VisitDone(covenants, from, vaults, row, v, events, S());
        return;
      }
      var sent;
      if covenants {
        sent, events := ExecuteCovenantWithdrawal(row.id, v, from, taken);
      } else {
        sent, events := SendBitcoinWithAuthorization(row.id, v, from, taken);
      }
      ghost var begun := events;
      events := Await(v.afterSend, from, events);
      events := FinishVisit(row.id, sent, v.now, from, events);
      if Inv(from) {
        VisitSplits(vaults, v, begun, events);
        VisitDone(covenants, from, vaults, row, v, events, S());
      }
    }

    /** The end of a visit: completed with the txid, or back to pending. */
    method FinishVisit(id: string, sent: Result<string, string>, now: int, ghost from: State, ghost before: seq<Event>)
      returns (ghost events: seq<Event>)
      requires HasRow(phase) && phase.row.id == id
      requires if sent.Ok? then phase.Recorded? && phase.txid == sent.value else phase.Failing?
      requires Leads(covenants, from, before, S())
      modifies this`phase, auths`rows
      ensures Leads(covenants, from, events, S())
      ensures phase == Ready(old(phase.queue)) && events == before + [Finish(now)]
      ensures if sent.Ok? && sent.value != ""
              then SetRows(old(auths.rows), auths.rows, id, Completed, now, Some(sent.value), None)
              else SetRows(old(auths.rows), auths.rows, id, Pending, 0, None, None)
    {
      hide Leads, Updated;
      LeadsByStep(covenants, from, before, S(), Finish(now));
      events := before + [Finish(now)];
      if sent.Ok? {
        var completed := auths.SetStatus(id, Completed, now, Some(sent.value), None);
        if completed.Ok? {
          phase := Ready(phase.queue);
          return;
        }
      }
      var _ := auths.SetStatus(id, Pending, 0, None, None);
      phase := Ready(phase.queue);
    }

    /** One pass over the rows that are pending when it begins: it pays and loses what their visits do, in their order,
        and completes exactly the rows whose visits pay for good. */
    method ProcessAuthorizations(visits: nat -> Visit) returns (ghost pending: seq<Row>, ghost events: seq<Event>)
      requires phase.Idle? && Inv(S())
      modifies this`ledger, this`lost, this`phase, auths`rows
      ensures Leads(covenants, old(S()), events, S())
      ensures phase.Idle? && Inv(S()) && CompletedStay(old(S()), S())
      ensures (forall k :: CleanOutcome(visits(k).outcome)) ==> lost == old(lost)
      ensures PendingList(old(auths.rows), pending)
      ensures ledger == old(ledger) + PassPays(pending, visits, |pending|)
      ensures lost == old(lost) + PassLoses(pending, visits, |pending|)
      ensures forall i :: 0 <= i < |pending| ==>
                (IsCompleted(auths.rows, pending[i].id) <==> PaysForGood(visits(i)))
    {
      hide Leads, Inv, CompletedStay, IsCompleted, VisitPays, VisitLoses, RowLeft, PaysForGood, PassPays, PassLoses;
      ghost var s0 := S();
      PassOfNone(s0, visits);
      InvKeys(s0);
      var list := auths.GetPendingAuthorizations();
      pending, events := list, [];
      hide PendingList;
      LeadsNowhere(covenants, s0);
      if |list| == 0 {
        LeadsKeepsInv(covenants, s0, [], s0);
        return;
      }
      LeadsByStep(covenants, s0, [], s0, StartPass(list));
      phase := Ready(list);
      events := [] + [StartPass(list)];
      LeadsKeepsInv(covenants, s0, events, S());
      for i := 0 to |list|
        invariant phase == Ready(list[i..])
        invariant Leads(covenants, s0, events, S()) && Inv(S())
        invariant (forall k :: CleanOutcome(visits(k).outcome)) ==> lost == old(lost)
        invariant ledger == old(ledger) + PassPays(list, visits, i)
        invariant lost == old(lost) + PassLoses(list, visits, i)
      {
        ghost var s := S();
        ghost var visit := ProcessAuthorization(list[i], visits(i));
        PassGrows(s0, s, S(), list, visits, i);
        LeadsOn(covenants, s0, events, s, visit, S());
        events := events + visit;
      }
      LeadsByStep(covenants, s0, events, S(), EndPass);
      phase := Idle;
      events := events + [EndPass];
      LeadsKeepsInv(covenants, s0, events, S());
      forall i | 0 <= i < |list|
        ensures IsCompleted(auths.rows, list[i].id) <==> PaysForGood(visits(i))
      {
        PassSettles(s0, S(), list, visits, i);
      }
    }

    method Stop()
      modifies this`isRunning
      ensures !isRunning
    {
      isRunning := false;
    }

    /** The polls after the first pass: each waits, and makes its pass even if stop() is called meanwhile. `s` is the
        state before the first pass, `first` its snapshot and `begun` its events. */
    method Poll(polls: nat, visits: nat -> nat -> Visit, between: nat -> seq<Arrival>, stopsInPass: nat -> bool,
                stopsInWait: nat -> bool, ghost s: State, ghost first: seq<Row>, ghost begun: seq<Event>)
      returns (ghost snapshots: seq<seq<Row>>, ghost passes: seq<seq<Event>>)
      requires phase.Idle? && Inv(S()) && isRunning == !Stopped(stopsInPass, stopsInWait, 0)
      requires Leads(covenants, s, begun, S()) && Accounted(S(), s, [first], visits)
      modifies this, auths`rows
      ensures |passes| == |snapshots| && Leads(covenants, s, Polled(auths.vaults, between, passes), S())
      ensures phase.Idle? && Inv(S())
      ensures PassesMade(|snapshots|, polls, stopsInPass, stopsInWait)
      ensures isRunning == !Stopped(stopsInPass, stopsInWait, |snapshots| - 1)
      ensures snapshots[0] == first && passes[0] == begun && Accounted(S(), s, snapshots, visits)
      ensures (forall n, k :: CleanOutcome(visits(n)(k).outcome)) ==> lost == old(lost)
    {
      hide Leads, Inv, Accounted, CompletedStay, PassPays, PassLoses, PaysForGood, PendingList, Polled;
      ghost var clean := forall n, k :: CleanOutcome(visits(n)(k).outcome);
      passes, snapshots := [begun], [first];
      PolledOnce(auths.vaults, between, begun);
      var n := 0;
      while n < polls && isRunning
        invariant n <= polls && phase.Idle? && Inv(S()) && (clean ==> lost == old(lost))
        invariant isRunning == !Stopped(stopsInPass, stopsInWait, n)
        invariant n > 0 ==> !Stopped(stopsInPass, stopsInWait, n - 1)
        invariant |passes| == n + 1 && passes[0] == begun
        invariant Leads(covenants, s, Polled(auths.vaults, between, passes), S())
        invariant |snapshots| == n + 1 && snapshots[0] == first && Accounted(S(), s, snapshots, visits)
        decreases polls - n
      {
        ghost var t := S();
        AwaitBetweenPasses(between(n));
        ghost var waited := Arrivals(auths.vaults, between(n));
        LeadsOn(covenants, s, Polled(auths.vaults, between, passes), t, waited, S());
        AccountedWait(t, S(), s, snapshots, visits);
        t := S();
        if stopsInWait(n) {
          Stop();
        }
        n := n + 1;
        ghost var pending, pass := ProcessAuthorizations(visits(n));
        LeadsOn(covenants, s, Polled(auths.vaults, between, passes) + waited, t, pass, S());
        PolledAgain(auths.vaults, between, passes, pass);
        AccountedPass(t, S(), s, snapshots, pending, visits);
        snapshots, passes := snapshots + [pending], passes + [pass];
        if stopsInPass(n) {
          Stop();
        }
      }
    }

    /** The wait of a poll: the authorizations that arrive are created. */
    method AwaitBetweenPasses(arrivals: seq<Arrival>)
      requires phase.Idle? && Inv(S())
      modifies auths`rows
      ensures Leads(covenants, old(S()), Arrivals(auths.vaults, arrivals), S())
      ensures Inv(S()) && CompletedStay(old(S()), S())
    {
      hide Leads, Inv, CompletedStay;
      ghost var s := S();
      LeadsNowhere(covenants, s);
      ghost var waited := Await(arrivals, s, []);
      assert waited == Arrivals(auths.vaults, arrivals);
      LeadsKeepsInv(covenants, s, waited, S());
    }

    /** Starting twice does nothing. Otherwise a first pass is followed by polls until the processor is stopped; the run
        is looked at after at most `polls` of them. It may start over any table that earlier runs have left. Exactly the
        visits with a final receipt and a broadcast pay, and those that pay for good complete their rows. Every payment
        of an authorization is one that was lost or the one of its completion, and every row is pending or completed
        unless an exit has stranded it. */
    method Start(polls: nat, visits: nat -> nat -> Visit, between: nat -> seq<Arrival>, stopsInPass: nat -> bool,
                 stopsInWait: nat -> bool)
      returns (ghost snapshots: seq<seq<Row>>, ghost passes: seq<seq<Event>>)
      requires phase.Idle? && Inv(S())
      modifies this, auths`rows
      ensures phase.Idle? && Inv(S())
      ensures |passes| == |snapshots| && Leads(covenants, old(S()), Polled(auths.vaults, between, passes), S())
      ensures old(isRunning) ==> isRunning && S() == old(S()) && snapshots == []
      ensures !old(isRunning) ==>
                && PassesMade(|snapshots|, polls, stopsInPass, stopsInWait)
                && isRunning == !Stopped(stopsInPass, stopsInWait, |snapshots| - 1)
                && PendingList(old(auths.rows), snapshots[0])
      ensures Accounted(S(), old(S()), snapshots, visits)
      ensures (forall n, k :: !visits(n)(k).finalized) ==> ledger == old(ledger)
      ensures !old(isRunning) && (forall n, k :: PaysForGood(visits(n)(k))) ==>
                forall r :: r in old(auths.rows) && r.id !in stranded ==> IsCompleted(auths.rows, r.id)
      ensures forall id ::
                TimesPaid(ledger, id) == TimesPaid(lost, id) + if IsCompleted(auths.rows, id) then 1 else 0
      ensures PaidSats(ledger) == CompletedSats(auths.rows) + PaidSats(lost)
      ensures (forall n, k :: CleanOutcome(visits(n)(k).outcome)) ==> lost == old(lost)
      ensures Consistent(S()) <==> lost == []
      ensures forall r :: r in auths.rows && r.id !in stranded ==> r.status in {Pending, Completed}
      ensures forall k :: 0 <= k < |ledger| ==> AsAuthorized(auths.rows, ledger[k])
      ensures CompletedStay(old(S()), S())
    {
      hide Leads, Inv, Consistent, TimesPaid, PaidSats, CompletedSats, IsCompleted, AsAuthorized, CompletedStay,
        Accounted, PendingList, Arrivals, PassPays, PassLoses, PaysForGood;
      ghost var s := S();
      LeadsNowhere(covenants, s);
      snapshots, passes := [], [];
      AccountedNothing(s, visits);
      if !isRunning {
        isRunning := true;
        ghost var first, pass := ProcessAuthorizations(visits(0));
        AccountedPass(s, S(), s, [], first, visits);
        assert [] + [first] == [first];
        if stopsInPass(0) {
          Stop();
        }
        snapshots, passes := Poll(polls, visits, between, stopsInPass, stopsInWait, s, first, pass);
      }
      LeadsKeepsInv(covenants, s, Polled(auths.vaults, between, passes), S());
      NothingFinal(s, S(), snapshots, visits);
      if snapshots != [] {
        GoodStart(s, S(), snapshots, visits);
      }
      IdleAccounts(S());
    }
  }

  lemma {:induction false} UnfinalPassPaysNothing(pending: seq<Row>, visits: nat -> Visit, n: nat)
    requires n <= |pending| && forall k :: !visits(k).finalized
    ensures PassPays(pending, visits, n) == []
  {
    if n > 0 {
      UnfinalPassPaysNothing(pending, visits, n - 1);
    }
  }

  lemma {:induction false} UnfinalPassesPayNothing(snapshots: seq<seq<Row>>, visits: nat -> nat -> Visit)
    requires forall n, k :: !visits(n)(k).finalized
    ensures AllPays(snapshots, visits) == []
    decreases |snapshots|
  {
    if snapshots != [] {
      var n := |snapshots| - 1;
      UnfinalPassesPayNothing(snapshots[..n], visits);
      UnfinalPassPaysNothing(snapshots[n], visits(n), |snapshots[n]|);
    }
  }

  lemma NothingFinal(s: State, t: State, snapshots: seq<seq<Row>>, visits: nat -> nat -> Visit)
    requires Accounted(t, s, snapshots, visits)
    ensures (forall n, k :: !visits(n)(k).finalized) ==> t.ledger == s.ledger
  {
    if forall n, k :: !visits(n)(k).finalized {
      UnfinalPassesPayNothing(snapshots, visits);
    }
  }

  /** If the visits of the first pass pay for good, every row that it found is completed in the end. */
  lemma GoodStart(s: State, t: State, snapshots: seq<seq<Row>>, visits: nat -> nat -> Visit)
    requires Inv(s) && s.phase.Idle? && snapshots != [] && PendingList(s.rows, snapshots[0])
    requires Accounted(t, s, snapshots, visits) && CompletedStay(s, t)
    ensures (forall n, k :: PaysForGood(visits(n)(k))) ==>
              forall r :: r in s.rows && r.id !in s.stranded ==> IsCompleted(t.rows, r.id)
  {
    hide IsCompleted, AllPays, AllLoses, PaysForGood, Inv;
    PendingOrDone(s, snapshots[0]);
    FirstCompleted(t.rows, snapshots, visits);
    forall r | (forall n, k :: PaysForGood(visits(n)(k))) && r in snapshots[0]
      ensures IsCompleted(t.rows, r.id)
    {
      var i :| 0 <= i < |snapshots[0]| && snapshots[0][i] == r;
      assert PassCompleted(t.rows, snapshots[0], visits(0)) && PaysForGood(visits(0)(i));
    }
  }

  /** stop() has been called by the end of pass n: in that pass, or in an earlier one, or while a poll waited. */
  predicate Stopped(inPass: nat -> bool, inWait: nat -> bool, n: nat) {
    inPass(n) || (n > 0 && (inWait(n - 1) || Stopped(inPass, inWait, n - 1)))
  }

  /** The first pass is always made, and the last one is the first at whose end the processor was stopped, if it is not
      the one of the last poll looked at. */
  ghost predicate PassesMade(passes: nat, polls: nat, inPass: nat -> bool, inWait: nat -> bool) {
    && 1 <= passes <= polls + 1
    && (passes > 1 ==> !Stopped(inPass, inWait, passes - 2))
    && (passes <= polls ==> Stopped(inPass, inWait, passes - 1))
  }
}
