/**
  * One withdrawal processor as a state machine. Every await is a point where the API server may
  * create authorizations; between two awaits the JavaScript runs alone, so each event below is one
  * such stretch. The ledger is what the Bitcoin network has accepted; `lost` is the part of it that
  * the backend cannot know of, because the response was lost or named no txid. The process may end at
  * any moment and be started again over the same table; `stranded` are the authorizations that it had
  * in hand when it ended.
  */
module WithdrawalProtocol {
  import opened Wrappers
  import opened Sorting
  import opened Authorizations

  datatype Payment = Payment(authId: string, address: string, sats: int, txid: string)

  datatype Phase =
    | Idle                                                       // between passes
    | Ready(queue: seq<Row>)                                     // about to take the next row of the snapshot
    | Verifying(row: Row, queue: seq<Row>)                       // waiting for the Starknet receipt
    | Sending(row: Row, queue: seq<Row>)                         // building the payment, not yet broadcast
    | Broadcasted(row: Row, queue: seq<Row>, txid: string)       // accepted by the network, response under way
    | Recorded(row: Row, queue: seq<Row>, txid: string)          // the send returned the txid
    | Failing(row: Row, queue: seq<Row>)                         // the send threw
  datatype State = State(rows: seq<Row>, ledger: seq<Payment>, lost: seq<Payment>, stranded: set<string>,
                         phase: Phase)

  datatype Event =
    | Arrive(vaults: set<string>, id: string, now: int, p: Params)  // createAuthorization by the API server
    | StartPass(pending: seq<Row>)
    | Take
    | Verdict(finalized: bool)
    | Broadcast(txid: string)
    | SendThrows(message: string)
    | Resume(now: int)
    | Finish(now: int)
    | EndPass
    | Exit                                                          // the process ends, as on a signal

  const INIT := State([], [], [], {}, Idle)

  function PaymentTo(row: Row, txid: string): Payment {
    Payment(row.id, row.bitcoinAddress, row.amountSats, txid)
  }

  /** A status change other than to completed, which never throws. */
  function Mark(rows: seq<Row>, id: string, status: Status, message: Option<string>): seq<Row> {
    Updated(rows, id, status, 0, None, message)
  }

  /** Entering the send: covenant mode only looks the row up; otherwise it is validated and marked again. */
  function EnterSend(covenants: bool, s: State, row: Row, queue: seq<Row>): State {
    match Lookup(s.rows, row.id)
    case None => s.(phase := Failing(row, queue))
    case Some(auth) =>
      if covenants then s.(phase := Sending(auth, queue))
      else if !Verify(s.rows, auth.nullifierHash).Valid? then s.(phase := Failing(row, queue))
      else s.(rows := Mark(s.rows, auth.id, Processing, None), phase := Sending(auth, queue))
  }

  /** The send throws: the broadcast service records the failure, the covenant service does not. */
  function LeaveSend(covenants: bool, s: State, row: Row, queue: seq<Row>, message: string): State {
    s.(rows := if covenants then s.rows else Mark(s.rows, row.id, Failed, Some(message)), phase := Failing(row, queue))
  }

  /** The process ends: nothing is written, and what it was about to write is forgotten. */
  function Abandon(s: State): State {
    if !HasRow(s.phase) || IsCompleted(s.rows, s.phase.row.id) then s.(phase := Idle)
    else State(s.rows, s.ledger, GivenUp(s), s.stranded + {s.phase.row.id}, Idle)
  }

  /** A credit that the backend gives up moves to the lost payments. */
  function GivenUp(s: State): seq<Payment> {
    if Crediting(s.phase) then s.lost + [PaymentTo(s.phase.row, s.phase.txid)] else s.lost
  }

  predicate HasRow(p: Phase) {
    !p.Idle? && !p.Ready?
  }

  /** A payment is under way whose txid the backend has or is about to get. */
  predicate Crediting(p: Phase) {
    (p.Broadcasted? || p.Recorded?) && p.txid != ""
  }

  predicate IsCompleted(rows: seq<Row>, id: string) {
    Lookup(rows, id).Some? && Lookup(rows, id).value.status == Completed
  }

  /** One event; an event that the phase does not allow changes nothing. */
  function Step(covenants: bool, s: State, e: Event): State {
    match (e, s.phase)
    case (Arrive(vaults, id, now, p), _) =>
      s.(rows := After(s.rows, CreateCall(vaults, id, now, p)))
    case (Take, Ready(queue)) =>
      if queue == [] then s
      else s.(rows := Mark(s.rows, queue[0].id, Processing, None), phase := Verifying(queue[0], queue[1..]))
    case (Verdict(finalized), Verifying(row, queue)) =>
      if finalized then EnterSend(covenants, s, row, queue)
      else s.(rows := Mark(s.rows, row.id, Pending, None), phase := Ready(queue))
    case (Broadcast(txid), Sending(row, queue)) =>
      s.(ledger := s.ledger + [PaymentTo(row, txid)],
         lost := if txid == "" then s.lost + [PaymentTo(row, txid)] else s.lost,
         phase := Broadcasted(row, queue, txid))
    case (SendThrows(message), Sending(row, queue)) => LeaveSend(covenants, s, row, queue, message)
    case (SendThrows(message), Broadcasted(row, queue, txid)) =>
      var t := LeaveSend(covenants, s, row, queue, message);
      if txid == "" then t else t.(lost := s.lost + [PaymentTo(row, txid)])
    case (Resume(now), Broadcasted(row, queue, txid)) =>
      if covenants then s.(phase := Recorded(row, queue, txid))
      else (match UpdateStatus(s.rows, row.id, Completed, now, Some(txid), None)
            case Ok(rows) => s.(rows := rows, phase := Recorded(row, queue, txid))
            case Err(_) => LeaveSend(covenants, s, row, queue, "Bitcoin TXID required for completed status"))
    case (Finish(now), Recorded(row, queue, txid)) =>
      (match UpdateStatus(s.rows, row.id, Completed, now, Some(txid), None)
       case Ok(rows) => s.(rows := rows, phase := Ready(queue))
       case Err(_) => s.(rows := Mark(s.rows, row.id, Pending, None), phase := Ready(queue)))
    case (Finish(_), Failing(row, queue)) =>
      s.(rows := Mark(s.rows, row.id, Pending, None), phase := Ready(queue))
    case (EndPass, Ready(queue)) =>
      if queue == [] then s.(phase := Idle) else s
    case (StartPass(pending), Idle) =>
      s.(phase := Ready(pending))
    case (Exit, _) => Abandon(s)
    case _ => s
  }

  /** A pass starts from the pending rows. Everything else is up to the world. */
  ghost predicate Allowed(s: State, e: Event) {
    e.StartPass? ==> PendingList(s.rows, e.pending)
  }

  function Run(covenants: bool, s: State, events: seq<Event>): State
    decreases |events|
  {
    if events == [] then s else Run(covenants, Step(covenants, s, events[0]), events[1..])
  }

  ghost predicate AllowedRun(covenants: bool, s: State, events: seq<Event>)
    decreases |events|
  {
    events == [] || (Allowed(s, events[0]) && AllowedRun(covenants, Step(covenants, s, events[0]), events[1..]))
  }

  // ---------------------------------------------------------------- money

  function TimesPaid(ledger: seq<Payment>, id: string): nat {
    if ledger == [] then 0
    else TimesPaid(ledger[..|ledger| - 1], id) + if ledger[|ledger| - 1].authId == id then 1 else 0
  }

  function PaidSats(ledger: seq<Payment>): int {
    if ledger == [] then 0 else PaidSats(ledger[..|ledger| - 1]) + ledger[|ledger| - 1].sats
  }

  function CompletedSats(rows: seq<Row>): int {
    if rows == [] then 0
    else CompletedSats(rows[..|rows| - 1]) + Owed(rows[|rows| - 1])
  }

  function Owed(r: Row): int {
    if r.status == Completed then r.amountSats else 0
  }

  /** Broadcast but not yet marked completed. */
  predicate InFlight(s: State, id: string) {
    Crediting(s.phase) && s.phase.row.id == id && !IsCompleted(s.rows, id)
  }

  function InFlightSats(s: State): int {
    if Crediting(s.phase) && InFlight(s, s.phase.row.id) then s.phase.row.amountSats else 0
  }

  // ---------------------------------------------------------------- the invariant

  function Waiting(p: Phase): seq<Row> {
    if p.Idle? then [] else p.queue
  }

  /** The table still holds this snapshot's payout, with one of these statuses. */
  predicate Stands(rows: seq<Row>, row: Row, statuses: set<Status>) {
    var r := Lookup(rows, row.id);
    r.Some? && SamePayout(r.value, row) && r.value.status in statuses
  }

  function StatusesOf(p: Phase): set<Status> {
    if p.Recorded? && p.txid != "" then {Processing, Completed}
    else if p.Failing? then {Processing, Failed}
    else {Processing}
  }

  ghost predicate PhaseOk(s: State) {
    && Distinct(Id, Waiting(s.phase))
    && (forall q :: q in Waiting(s.phase) ==> Stands(s.rows, q, {Pending}))
    && (HasRow(s.phase) ==>
          && Stands(s.rows, s.phase.row, StatusesOf(s.phase))
          && forall q :: q in s.phase.queue ==> q.id != s.phase.row.id)
  }

  /** Only the row in hand and the stranded ones are anything but pending or completed. */
  ghost predicate Settled(s: State) {
    forall r :: r in s.rows && !(HasRow(s.phase) && r.id == s.phase.row.id) && r.id !in s.stranded ==>
      r.status in {Pending, Completed}
  }

  /** Stranded rows are open, and none of them is in hand. */
  ghost predicate StrandedOk(s: State) {
    && (forall id :: id in s.stranded ==>
          Lookup(s.rows, id).Some? && Lookup(s.rows, id).value.status in {Processing, Failed})
    && (HasRow(s.phase) ==> s.phase.row.id !in s.stranded)
  }

  ghost predicate LedgerOk(s: State) {
    && (forall id ::
          TimesPaid(s.ledger, id)
          == TimesPaid(s.lost, id) + if IsCompleted(s.rows, id) || InFlight(s, id) then 1 else 0)
    && (forall k :: 0 <= k < |s.ledger| ==> AsAuthorized(s.rows, s.ledger[k]))
    && PaidSats(s.ledger) == CompletedSats(s.rows) + InFlightSats(s) + PaidSats(s.lost)
  }

  /** The payment went to the address and for the amount of its authorization. */
  predicate AsAuthorized(rows: seq<Row>, p: Payment) {
    var r := Lookup(rows, p.authId);
    r.Some? && r.value.bitcoinAddress == p.address && r.value.amountSats == p.sats
  }

  ghost predicate Inv(s: State) {
    GoodTable(s.rows) && PhaseOk(s) && Settled(s) && StrandedOk(s) && LedgerOk(s)
  }

  // ---------------------------------------------------------------- the table under updates

  lemma {:induction false} LookupUpdated(rows: seq<Row>, id: string, status: Status, now: int, txid: Option<string>,
                                         message: Option<string>, k: string)
    ensures Lookup(Updated(rows, id, status, now, txid, message), k)
         == match Lookup(rows, k)
            case None => None
            case Some(r) => Some(if k == id then Set(r, status, now, txid, message) else r)
  {
    hide Set;
    if rows != [] {
      var after := Updated(rows, id, status, now, txid, message);
      assert after[1..] == Updated(rows[1..], id, status, now, txid, message);
      SetKeepsId(rows[0], status, now, txid, message);
      LookupUpdated(rows[1..], id, status, now, txid, message, k);
    }
  }

  lemma SetKeepsId(r: Row, status: Status, now: int, txid: Option<string>, message: Option<string>)
    ensures SamePayout(Set(r, status, now, txid, message), r) && Set(r, status, now, txid, message).status == status
  {
  }

  lemma {:induction false} LookupAppended(rows: seq<Row>, row: Row, k: string)
    ensures Lookup(rows + [row], k)
         == if Lookup(rows, k).Some? then Lookup(rows, k) else if row.id == k then Some(row) else None
  {
    if rows == [] {
      assert rows + [row] == [row];
    } else {
      assert (rows + [row])[1..] == rows[1..] + [row];
      LookupAppended(rows[1..], row, k);
    }
  }

  lemma UpdatedPrefix(rows: seq<Row>, id: string, status: Status, now: int, txid: Option<string>,
                      message: Option<string>)
    requires rows != []
    ensures var n, after := |rows| - 1, Updated(rows, id, status, now, txid, message);
            && |after| == n + 1 && after[..n] == Updated(rows[..n], id, status, now, txid, message)
            && after[n] == if rows[n].id == id then Set(rows[n], status, now, txid, message) else rows[n]
  {
  }

  lemma UpdatedElsewhere(rows: seq<Row>, id: string, status: Status, now: int, txid: Option<string>,
                         message: Option<string>)
    requires forall row :: row in rows ==> row.id != id
    ensures Updated(rows, id, status, now, txid, message) == rows
  {
  }

  lemma {:induction false} CompletedSatsUpdated(rows: seq<Row>, id: string, status: Status, now: int,
                                                txid: Option<string>, message: Option<string>, r: Row)
    requires Distinct(Id, rows) && r in rows && r.id == id
    ensures CompletedSats(Updated(rows, id, status, now, txid, message))
         == CompletedSats(rows) - Owed(r) + Owed(Set(r, status, now, txid, message))
  {
    hide Updated, Set, Owed;
    var n := |rows| - 1;
    UpdatedPrefix(rows, id, status, now, txid, message);
    if rows[n].id == id {
      var k :| 0 <= k < |rows| && rows[k] == r;
      assert Id(rows[k]) == Id(rows[n]);
      assert forall j :: 0 <= j < n ==> Id(rows[j]) != Id(rows[n]);
      UpdatedElsewhere(rows[..n], id, status, now, txid, message);
    } else {
      CompletedSatsUpdated(rows[..n], id, status, now, txid, message, r);
    }
  }

  /** What one status update of an existing row does to everything the invariant looks at. */
  lemma UpdateEffect(rows: seq<Row>, id: string, status: Status, now: int, txid: Option<string>,
                     message: Option<string>)
    requires GoodTable(rows) && UpdateStatus(rows, id, status, now, txid, message).Ok? && Lookup(rows, id).Some?
    ensures var after, was := Updated(rows, id, status, now, txid, message), Lookup(rows, id).value;
            && GoodTable(after)
            && (forall k :: k != id ==> Lookup(after, k) == Lookup(rows, k))
            && Lookup(after, id).Some? && SamePayout(Lookup(after, id).value, was)
            && Lookup(after, id).value.status == status
            && CompletedSats(after) - CompletedSats(rows)
               == (if status == Completed then was.amountSats else 0) - Owed(was)
            && (forall r :: r in after ==> if r.id == id then r.status == status else r in rows)
  {
    hide GoodTable, Set;
    var after, was := Updated(rows, id, status, now, txid, message), Lookup(rows, id).value;
    UpdateKeepsTable(rows, id, status, now, txid, message);
    forall k
      ensures k != id ==> Lookup(after, k) == Lookup(rows, k)
    {
      LookupUpdated(rows, id, status, now, txid, message, k);
    }
    LookupUpdated(rows, id, status, now, txid, message, id);
    SetKeepsId(was, status, now, txid, message);
    KeysDistinct(rows);
    CompletedSatsUpdated(rows, id, status, now, txid, message, was);
    forall r | r in after
      ensures if r.id == id then r.status == status else r in rows
    {
      var k :| 0 <= k < |after| && after[k] == r;
      SetKeepsId(rows[k], status, now, txid, message);
    }
  }

  lemma KeysDistinct(rows: seq<Row>)
    requires GoodTable(rows)
    ensures Distinct(Id, rows)
  {
  }

  // ---------------------------------------------------------------- each event keeps the invariant

  ghost predicate CompletedStay(s: State, t: State) {
    forall id :: IsCompleted(s.rows, id) ==> IsCompleted(t.rows, id)
  }

  lemma PaidSnoc(payments: seq<Payment>, p: Payment, id: string)
    ensures TimesPaid(payments + [p], id) == TimesPaid(payments, id) + if p.authId == id then 1 else 0
    ensures PaidSats(payments + [p]) == PaidSats(payments) + p.sats
  {
    assert (payments + [p])[..|payments|] == payments;
  }

  lemma PaidSnocAll(payments: seq<Payment>, p: Payment)
    ensures forall id ::
              TimesPaid(payments + [p], id) == TimesPaid(payments, id) + if p.authId == id then 1 else 0
    ensures PaidSats(payments + [p]) == PaidSats(payments) + p.sats
  {
    PaidSnoc(payments, p, "");
    forall id
      ensures TimesPaid(payments + [p], id) == TimesPaid(payments, id) + if p.authId == id then 1 else 0
    {
      PaidSnoc(payments, p, id);
    }
  }

  lemma GivenUpEffect(s: State)
    ensures forall id :: TimesPaid(GivenUp(s), id)
                      == TimesPaid(s.lost, id) + if Crediting(s.phase) && s.phase.row.id == id then 1 else 0
    ensures PaidSats(GivenUp(s)) == PaidSats(s.lost) + if Crediting(s.phase) then s.phase.row.amountSats else 0
  {
    if Crediting(s.phase) {
      PaidSnocAll(s.lost, PaymentTo(s.phase.row, s.phase.txid));
    }
  }

  /** The row in hand moves between statuses other than completed; a payment under way is given up. */
  lemma MarkKeeps(s: State, t: State, id: string, status: Status, message: Option<string>)
    requires Inv(s) && status != Completed && Lookup(s.rows, id).Some? && Lookup(s.rows, id).value.status != Completed
    requires t.rows == Mark(s.rows, id, status, message) && t.ledger == s.ledger && t.lost == GivenUp(s)
    requires !Crediting(t.phase) && t.stranded == s.stranded && id !in s.stranded
    requires Distinct(Id, Waiting(t.phase)) && forall q :: q in Waiting(t.phase) ==> q in Waiting(s.phase) && q.id != id
    requires HasRow(s.phase) ==> s.phase.row.id == id
    requires HasRow(t.phase) ==>
               && t.phase.row.id == id && SamePayout(Lookup(s.rows, id).value, t.phase.row)
               && status in StatusesOf(t.phase)
    requires !HasRow(t.phase) ==> status == Pending
    ensures Inv(t) && CompletedStay(s, t)
  {
    hide GoodTable, Distinct, Lookup, SamePayout, CompletedSats, TimesPaid, PaidSats, GivenUp;
    UpdateEffect(s.rows, id, status, 0, None, message);
    GivenUpEffect(s);
    SamePayoutFacts();
  }

  /** The covenant send throws without touching the table. */
  lemma ThrowKeeps(s: State, t: State)
    requires Inv(s) && (s.phase.Sending? || s.phase.Broadcasted?)
    requires t == s.(lost := GivenUp(s), phase := Failing(s.phase.row, s.phase.queue))
    ensures Inv(t)
  {
    hide GoodTable, Distinct, Lookup, SamePayout, CompletedSats, TimesPaid, PaidSats, GivenUp;
    GivenUpEffect(s);
  }

  lemma SamePayoutFacts()
    ensures forall a, b, c :: SamePayout(a, b) && SamePayout(b, c) ==> SamePayout(a, c)
    ensures forall a, b ::
              SamePayout(a, b) ==> a.id == b.id && a.bitcoinAddress == b.bitcoinAddress && a.amountSats == b.amountSats
  {
  }

  /** Recording the txid of a broadcast payment as completed, once or a second time. */
  lemma CompleteKeeps(s: State, t: State, now: int)
    requires Inv(s) && Crediting(s.phase)
    requires t.rows == Updated(s.rows, s.phase.row.id, Completed, now, Some(s.phase.txid), None)
    requires t.ledger == s.ledger && t.lost == s.lost && t.stranded == s.stranded
    requires t.phase == Recorded(s.phase.row, s.phase.queue, s.phase.txid) || t.phase == Ready(s.phase.queue)
    ensures Inv(t) && CompletedStay(s, t) && IsCompleted(t.rows, s.phase.row.id)
  {
    hide GoodTable, Distinct, Lookup, SamePayout, CompletedSats, TimesPaid, PaidSats;
    UpdateEffect(s.rows, s.phase.row.id, Completed, now, Some(s.phase.txid), None);
    SamePayoutFacts();
  }

  lemma BroadcastKeeps(s: State, t: State, txid: string)
    requires Inv(s) && s.phase.Sending?
    requires var p := PaymentTo(s.phase.row, txid);
             t == s.(ledger := s.ledger + [p], lost := if txid == "" then s.lost + [p] else s.lost,
                     phase := Broadcasted(s.phase.row, s.phase.queue, txid))
    ensures Inv(t)
  {
    hide GoodTable, Distinct, Lookup, CompletedSats, TimesPaid, PaidSats;
    PaidSnocAll(s.ledger, PaymentTo(s.phase.row, txid));
    PaidSnocAll(s.lost, PaymentTo(s.phase.row, txid));
  }

  lemma CreateEffect(rows: seq<Row>, vaults: set<string>, id: string, now: int, p: Params)
    requires GoodTable(rows) && Create(rows, vaults, id, now, p).Ok?
    ensures var after, row := Create(rows, vaults, id, now, p).value, NewRow(id, now, p);
            && GoodTable(after) && Lookup(rows, id).None?
            && (forall k :: Lookup(after, k) == if k == id then Some(row) else Lookup(rows, k))
            && CompletedSats(after) == CompletedSats(rows)
            && (forall r :: r in after ==> r == row || r in rows)
  {
    var row := NewRow(id, now, p);
    var after := rows + [row];
    CreateKeepsTable(rows, vaults, id, now, p);
    forall k
      ensures Lookup(after, k) == if k == id then Some(row) else Lookup(rows, k)
    {
      LookupAppended(rows, row, k);
    }
    assert after[..|rows|] == rows;
  }

  /** A new authorization is pending, unpaid, and not in the snapshot. */
  lemma ArriveKeeps(s: State, vaults: set<string>, id: string, now: int, p: Params)
    requires Inv(s)
    ensures var t := s.(rows := After(s.rows, CreateCall(vaults, id, now, p)));
            Inv(t) && CompletedStay(s, t)
  {
    hide GoodTable, Distinct, Lookup, SamePayout, CompletedSats, TimesPaid, PaidSats, Create;
    if Create(s.rows, vaults, id, now, p).Ok? {
      CreateEffect(s.rows, vaults, id, now, p);
    }
  }

  lemma SendEntryKeeps(covenants: bool, s: State, t: State)
    requires Inv(s) && s.phase.Verifying? && t == EnterSend(covenants, s, s.phase.row, s.phase.queue)
    ensures Inv(t) && CompletedStay(s, t)
  {
    hide GoodTable, Distinct, SamePayout, CompletedSats, TimesPaid, PaidSats, Verify;
    SamePayoutFacts();
    SamePayoutSelf(Lookup(s.rows, s.phase.row.id).value);
    if t.phase.Sending? && !covenants {
      MarkKeeps(s, t, s.phase.row.id, Processing, None);
    }
  }

  lemma SamePayoutSelf(r: Row)
    ensures SamePayout(r, r)
  {
  }

  lemma StartKeeps(s: State, pending: seq<Row>)
    requires Inv(s) && s.phase.Idle? && PendingList(s.rows, pending)
    ensures Inv(s.(phase := Ready(pending)))
  {
    hide Distinct, CompletedSats, TimesPaid, PaidSats;
    forall q | q in pending
      ensures Stands(s.rows, q, {Pending})
    {
      FindUnique(s.rows, Id, q);
    }
  }

  lemma TakeKeeps(covenants: bool, s: State)
    requires Inv(s)
    ensures Inv(Step(covenants, s, Take)) && CompletedStay(s, Step(covenants, s, Take))
  {
    hide GoodTable, Distinct, SamePayout, CompletedSats, TimesPaid, PaidSats, Lookup, Updated;
    if s.phase.Ready? && s.phase.queue != [] {
      TailDistinct(s.phase.queue);
      assert Stands(s.rows, s.phase.queue[0], {Pending});
      MarkKeeps(s, Step(covenants, s, Take), s.phase.queue[0].id, Processing, None);
    }
  }

  lemma VerdictKeeps(covenants: bool, s: State, finalized: bool)
    requires Inv(s)
    ensures Inv(Step(covenants, s, Verdict(finalized))) && CompletedStay(s, Step(covenants, s, Verdict(finalized)))
  {
    hide GoodTable, Distinct, SamePayout, CompletedSats, TimesPaid, PaidSats, Lookup, Updated, EnterSend;
    if s.phase.Verifying? {
      var t := Step(covenants, s, Verdict(finalized));
      if finalized {
        SendEntryKeeps(covenants, s, t);
      } else {
        MarkKeeps(s, t, s.phase.row.id, Pending, None);
      }
    }
  }

  lemma SendThrowsKeeps(covenants: bool, s: State, message: string)
    requires Inv(s)
    ensures Inv(Step(covenants, s, SendThrows(message))) && CompletedStay(s, Step(covenants, s, SendThrows(message)))
  {
    hide GoodTable, Distinct, SamePayout, CompletedSats, TimesPaid, PaidSats, Lookup, Updated;
    if s.phase.Sending? || s.phase.Broadcasted? {
      var t := Step(covenants, s, SendThrows(message));
      if covenants {
        ThrowKeeps(s, t);
      } else {
        MarkKeeps(s, t, s.phase.row.id, Failed, Some(message));
      }
    }
  }

  lemma ResumeCovenantKeeps(s: State, t: State)
    requires Inv(s) && s.phase.Broadcasted? && t == s.(phase := Recorded(s.phase.row, s.phase.queue, s.phase.txid))
    ensures Inv(t) && CompletedStay(s, t)
  {
    hide GoodTable, Distinct, SamePayout, CompletedSats, TimesPaid, PaidSats, Lookup;
  }

  /** What resuming does: nothing, or the covenant's bare record, or completion, or the missing-txid failure. */
  lemma ResumeStep(covenants: bool, s: State, now: int)
    ensures var t, p := Step(covenants, s, Resume(now)), s.phase;
            if !p.Broadcasted? then t == s
            else if covenants then t == s.(phase := Recorded(p.row, p.queue, p.txid))
            else if p.txid != ""
            then t == s.(rows := Updated(s.rows, p.row.id, Completed, now, Some(p.txid), None),
                         phase := Recorded(p.row, p.queue, p.txid))
            else t == s.(rows := Mark(s.rows, p.row.id, Failed, Some("Bitcoin TXID required for completed status")),
                         phase := Failing(p.row, p.queue))
  {
    hide Mark, Updated;
  }

  lemma ResumeKeeps(covenants: bool, s: State, now: int)
    requires Inv(s)
    ensures Inv(Step(covenants, s, Resume(now))) && CompletedStay(s, Step(covenants, s, Resume(now)))
  {
    hide GoodTable, Distinct, SamePayout, CompletedSats, TimesPaid, PaidSats, Lookup, Updated, Mark, Step;
    ResumeStep(covenants, s, now);
    var t := Step(covenants, s, Resume(now));
    if !s.phase.Broadcasted? {
    } else if covenants {
      ResumeCovenantKeeps(s, t);
    } else if s.phase.txid != "" {
      CompleteKeeps(s, t, now);
    } else {
      MarkKeeps(s, t, s.phase.row.id, Failed, Some("Bitcoin TXID required for completed status"));
    }
  }

  lemma FinishKeeps(covenants: bool, s: State, now: int)
    requires Inv(s)
    ensures Inv(Step(covenants, s, Finish(now))) && CompletedStay(s, Step(covenants, s, Finish(now)))
  {
    hide GoodTable, Distinct, SamePayout, CompletedSats, TimesPaid, PaidSats, Lookup, Updated;
    var t := Step(covenants, s, Finish(now));
    if s.phase.Recorded? && s.phase.txid != "" {
      CompleteKeeps(s, t, now);
    } else if s.phase.Recorded? || s.phase.Failing? {
      MarkKeeps(s, t, s.phase.row.id, Pending, None);
    }
  }

  /** The heart of the proof: no event that the protocol allows breaks the invariant, and no completed row
      is ever reopened. */
  lemma StepKeeps(covenants: bool, s: State, e: Event)
    requires Inv(s) && Allowed(s, e)
    ensures Inv(Step(covenants, s, e)) && CompletedStay(s, Step(covenants, s, e))
  {
    hide GoodTable, PhaseOk, Settled, StrandedOk, LedgerOk, PendingList, IsCompleted, Mark, EnterSend, LeaveSend,
      UpdateStatus, Abandon;
    match e
    case Arrive(vaults, id, now, p) => ArriveKeeps(s, vaults, id, now, p);
    case StartPass(pending) =>
      if s.phase.Idle? {
        StartKeeps(s, pending);
      }
    case Take => TakeKeeps(covenants, s);
    case Verdict(finalized) => VerdictKeeps(covenants, s, finalized);
    case Broadcast(txid) =>
      if s.phase.Sending? {
        BroadcastKeeps(s, Step(covenants, s, e), txid);
      }
    case SendThrows(message) => SendThrowsKeeps(covenants, s, message);
    case Resume(now) => ResumeKeeps(covenants, s, now);
    case Finish(now) => FinishKeeps(covenants, s, now);
    case EndPass => EndPassKeeps(covenants, s);
    case Exit => ExitKeeps(s);
  }

  lemma ExitKeeps(s: State)
    requires Inv(s)
    ensures Inv(Abandon(s)) && CompletedStay(s, Abandon(s))
  {
    hide GoodTable, CompletedSats, TimesPaid, PaidSats, GivenUp;
    if HasRow(s.phase) && IsCompleted(s.rows, s.phase.row.id) {
      OnlyRowOf(s.rows, s.phase.row.id);
    } else if HasRow(s.phase) {
      GivenUpEffect(s);
      var t, id := Abandon(s), s.phase.row.id;
      assert Stands(s.rows, s.phase.row, StatusesOf(s.phase));
      hide Lookup;
      assert Settled(t);
      assert StrandedOk(t);
      assert PhaseOk(t);
      assert LedgerOk(t);
    }
  }

  lemma OnlyRowOf(rows: seq<Row>, id: string)
    requires GoodTable(rows) && Lookup(rows, id).Some?
    ensures forall r :: r in rows && r.id == id ==> r == Lookup(rows, id).value
  {
    forall r | r in rows && r.id == id
      ensures r == Lookup(rows, id).value
    {
      FindUnique(rows, Id, r);
    }
  }

  lemma EndPassKeeps(covenants: bool, s: State)
    requires Inv(s)
    ensures Inv(Step(covenants, s, EndPass))
  {
    hide GoodTable, Distinct, Lookup, CompletedSats, TimesPaid, PaidSats;
  }

  lemma TailDistinct(queue: seq<Row>)
    requires queue != [] && Distinct(Id, queue)
    ensures Distinct(Id, queue[1..]) && forall q :: q in queue[1..] ==> q in queue && q.id != queue[0].id
  {
    forall k | 0 <= k < |queue| - 1
      ensures queue[1..][k].id != queue[0].id
    {
      assert Id(queue[0]) != Id(queue[k + 1]);
    }
  }

  lemma {:induction false} RunKeeps(covenants: bool, s: State, events: seq<Event>)
    requires Inv(s) && AllowedRun(covenants, s, events)
    ensures Inv(Run(covenants, s, events)) && CompletedStay(s, Run(covenants, s, events))
    decreases |events|
  {
    hide Inv, IsCompleted, Step;
    if events != [] {
      StepKeeps(covenants, s, events[0]);
      RunKeeps(covenants, Step(covenants, s, events[0]), events[1..]);
    }
  }

  // ---------------------------------------------------------------- what a run loses

  /** The payment that the backend loses track of in this event: a broadcast that names no txid, a send that throws
      after its broadcast, or the end of the process before the txid is recorded. */
  function LostBy(s: State, e: Event): seq<Payment> {
    match (e, s.phase)
    case (Broadcast(txid), Sending(row, _)) => if txid == "" then [PaymentTo(row, txid)] else []
    case (SendThrows(_), Broadcasted(row, _, txid)) => if txid != "" then [PaymentTo(row, txid)] else []
    case (Exit, _) =>
      if Crediting(s.phase) && !IsCompleted(s.rows, s.phase.row.id) then [PaymentTo(s.phase.row, s.phase.txid)] else []
    case _ => []
  }

  /** What the events of a run lose, in order. */
  function Losses(covenants: bool, s: State, events: seq<Event>): seq<Payment>
    decreases |events|
  {
    if events == [] then []
    else LostBy(s, events[0]) + Losses(covenants, Step(covenants, s, events[0]), events[1..])
  }

  /** No event of the run loses a payment of this authorization. */
  ghost predicate NeverLoses(covenants: bool, s: State, events: seq<Event>, id: string)
    decreases |events|
  {
    events == []
    || ((forall p :: p in LostBy(s, events[0]) ==> p.authId != id)
        && NeverLoses(covenants, Step(covenants, s, events[0]), events[1..], id))
  }

  /** No event of the run loses a payment. */
  ghost predicate LosesNothing(covenants: bool, s: State, events: seq<Event>)
    decreases |events|
  {
    events == [] || (LostBy(s, events[0]) == [] && LosesNothing(covenants, Step(covenants, s, events[0]), events[1..]))
  }

  lemma StepLost(covenants: bool, s: State, e: Event)
    ensures Step(covenants, s, e).lost == s.lost + LostBy(s, e)
  {
    hide Mark, UpdateStatus, IsCompleted, Create, Lookup, Verify;
    assert s.lost + [] == s.lost;
  }

  lemma {:induction false} RunLost(covenants: bool, s: State, events: seq<Event>)
    ensures Run(covenants, s, events).lost == s.lost + Losses(covenants, s, events)
    decreases |events|
  {
    hide Step, LostBy;
    if events != [] {
      var t := Step(covenants, s, events[0]);
      StepLost(covenants, s, events[0]);
      RunLost(covenants, t, events[1..]);
      assert s.lost + LostBy(s, events[0]) + Losses(covenants, t, events[1..])
          == s.lost + (LostBy(s, events[0]) + Losses(covenants, t, events[1..]));
    }
  }

  lemma {:induction false} NothingLost(covenants: bool, s: State, events: seq<Event>)
    ensures Losses(covenants, s, events) == [] <==> LosesNothing(covenants, s, events)
    decreases |events|
  {
    hide Step, LostBy;
    if events != [] {
      NothingLost(covenants, Step(covenants, s, events[0]), events[1..]);
    }
  }

  lemma {:induction false} NeverPaidIn(payments: seq<Payment>, id: string)
    ensures TimesPaid(payments, id) == 0 <==> forall p :: p in payments ==> p.authId != id
    decreases |payments|
  {
    if payments != [] {
      var front, last := payments[..|payments| - 1], payments[|payments| - 1];
      NeverPaidIn(front, id);
      assert payments == front + [last];
    }
  }

  lemma {:induction false} NeverLost(covenants: bool, s: State, events: seq<Event>, id: string)
    ensures TimesPaid(Losses(covenants, s, events), id) == 0 <==> NeverLoses(covenants, s, events, id)
    decreases |events|
  {
    hide Step, LostBy;
    NeverPaidIn(Losses(covenants, s, events), id);
    if events != [] {
      var t := Step(covenants, s, events[0]);
      NeverPaidIn(Losses(covenants, t, events[1..]), id);
      NeverLost(covenants, t, events[1..], id);
      hide TimesPaid;
    }
  }

  // ---------------------------------------------------------------- every run

  /** Every payment of every run is accounted for, to the address and amount of its authorization: those that an event
      of the run lost, and one more exactly if the authorization is completed or its payment is under way. Nothing is
      left processing or failed but the row in hand and those stranded by an exit. */
  lemma PayoutSafety(covenants: bool, events: seq<Event>)
    requires AllowedRun(covenants, INIT, events)
    ensures var s, losses := Run(covenants, INIT, events), Losses(covenants, INIT, events);
            && (forall id :: TimesPaid(s.ledger, id)
                          == TimesPaid(losses, id) + if IsCompleted(s.rows, id) || InFlight(s, id) then 1 else 0)
            && PaidSats(s.ledger) == CompletedSats(s.rows) + InFlightSats(s) + PaidSats(losses)
            && (forall k :: 0 <= k < |s.ledger| ==> AsAuthorized(s.rows, s.ledger[k]))
            && Settled(s)
  {
    hide Run, AllowedRun, Losses, IsCompleted, InFlight, InFlightSats, CompletedSats, TimesPaid, PaidSats, AsAuthorized,
      GoodTable, PhaseOk, Settled, StrandedOk;
    InitInv();
    RunKeeps(covenants, INIT, events);
    RunLost(covenants, INIT, events);
    assert INIT.lost + Losses(covenants, INIT, events) == Losses(covenants, INIT, events);
  }

  /** An authorization is never paid twice unless some event loses a payment of it; until then, between payments, it is
      paid exactly when it is completed. */
  lemma PaidAtMostOnce(covenants: bool, events: seq<Event>, id: string)
    requires AllowedRun(covenants, INIT, events) && NeverLoses(covenants, INIT, events, id)
    ensures var s := Run(covenants, INIT, events);
            && TimesPaid(s.ledger, id) <= 1
            && (!Crediting(s.phase) ==> (TimesPaid(s.ledger, id) == 1 <==> IsCompleted(s.rows, id)))
  {
    hide Run, AllowedRun, Losses, NeverLoses, IsCompleted, InFlightSats, CompletedSats, TimesPaid, PaidSats, Settled;
    PayoutSafety(covenants, events);
    NeverLost(covenants, INIT, events, id);
  }

  /** And only until then: between payments, paid once if completed and not at all otherwise, if and only if no event
      has lost a payment of it. */
  lemma PaidOnceIffNeverLost(covenants: bool, events: seq<Event>, id: string)
    requires AllowedRun(covenants, INIT, events) && !Crediting(Run(covenants, INIT, events).phase)
    ensures var s := Run(covenants, INIT, events);
            TimesPaid(s.ledger, id) == (if IsCompleted(s.rows, id) then 1 else 0)
            <==> NeverLoses(covenants, INIT, events, id)
  {
    hide Run, AllowedRun, Losses, NeverLoses, IsCompleted, InFlightSats, CompletedSats, TimesPaid, PaidSats, Settled;
    PayoutSafety(covenants, events);
    NeverLost(covenants, INIT, events, id);
  }

  // ---------------------------------------------------------------- who asked for a payment

  /** The row holds what the call that created it asked for. */
  predicate AskedBy(r: Row, e: Event) {
    && e.Arrive? && r.id == e.id && r.createdAt == e.now
    && r.vaultId == e.p.vaultId && r.nullifierHash == e.p.nullifierHash && r.starknetTxHash == e.p.starknetTxHash
    && r.bitcoinAddress == e.p.bitcoinAddress && r.amountSats == e.p.amountSats
  }

  lemma UpdatedKeepsPayouts(rows: seq<Row>, id: string, status: Status, now: int, txid: Option<string>,
                            message: Option<string>)
    ensures var after := Updated(rows, id, status, now, txid, message);
            |after| == |rows| && forall k :: 0 <= k < |rows| ==> SamePayout(rows[k], after[k])
  {
  }

  /** An event appends the row that it asks for, or none, and changes no payout. */
  lemma StepPayouts(covenants: bool, s: State, e: Event)
    ensures var before, after := s.rows, Step(covenants, s, e).rows;
            && Extends(before, after) && |after| <= |before| + 1
            && (|after| > |before| ==> AskedBy(after[|before|], e) && Create(before, e.vaults, e.id, e.now, e.p).Ok?)
  {
    hide Updated, Lookup, Verify, GivenUp, SamePayout, Create;
    SamePayoutAll(s.rows);
    forall x, status, now, txid, message
      ensures Extends(s.rows, Updated(s.rows, x, status, now, txid, message))
      ensures |Updated(s.rows, x, status, now, txid, message)| == |s.rows|
    {
      UpdatedKeepsPayouts(s.rows, x, status, now, txid, message);
    }
    if e.Arrive? {
      CreateMeans(s.rows, e.vaults, e.id, e.now, e.p);
    }
  }

  lemma SamePayoutAll(rows: seq<Row>)
    ensures forall k :: 0 <= k < |rows| ==> SamePayout(rows[k], rows[k])
  {
  }

  /** Every row of a run that was not there before was asked for by an accepted call of the run. */
  lemma {:induction false} RowWasAskedFor(covenants: bool, s: State, events: seq<Event>, k: nat) returns (j: nat)
    requires k < |Run(covenants, s, events).rows|
    ensures |s.rows| <= |Run(covenants, s, events).rows|
    ensures k < |s.rows| ==> SamePayout(s.rows[k], Run(covenants, s, events).rows[k])
    ensures k >= |s.rows| ==>
              && j < |events| && AskedBy(Run(covenants, s, events).rows[k], events[j])
              && Create(Run(covenants, s, events[..j]).rows, events[j].vaults, events[j].id, events[j].now,
                        events[j].p).Ok?
    decreases |events|
  {
    hide Step, SamePayout, AskedBy, Create;
    j := 0;
    if events == [] {
      SamePayoutSelf(s.rows[k]);
    } else {
      var t := Step(covenants, s, events[0]);
      StepPayouts(covenants, s, events[0]);
      var i := RowWasAskedFor(covenants, t, events[1..], k);
      var row := Run(covenants, s, events).rows[k];
      if k < |s.rows| {
        SamePayoutOn(s.rows[k], t.rows[k], row);
      } else if k < |t.rows| {
        AskedStays(t.rows[k], row, events[0]);
        assert events[..0] == [];
      } else {
        j := i + 1;
        assert events[..j][1..] == events[1..][..i];
      }
    }
  }

  lemma SamePayoutOn(a: Row, b: Row, c: Row)
    requires SamePayout(a, b) && SamePayout(b, c)
    ensures SamePayout(a, c)
  {
  }

  lemma AskedStays(a: Row, b: Row, e: Event)
    requires SamePayout(a, b) && AskedBy(a, e)
    ensures AskedBy(b, e)
  {
  }

  lemma RunExtends(covenants: bool, s: State, events: seq<Event>)
    ensures Extends(s.rows, Run(covenants, s, events).rows)
  {
    hide Run, SamePayout;
    var t := Run(covenants, s, events);
    NoRowVanishes(covenants, s, events);
    forall k | 0 <= k < |s.rows|
      ensures SamePayout(s.rows[k], t.rows[k])
    {
      var _ := RowWasAskedFor(covenants, s, events, k);
    }
  }

  lemma {:induction false} NoRowVanishes(covenants: bool, s: State, events: seq<Event>)
    ensures |s.rows| <= |Run(covenants, s, events).rows|
    decreases |events|
  {
    hide Step, SamePayout;
    if events != [] {
      StepPayouts(covenants, s, events[0]);
      NoRowVanishes(covenants, Step(covenants, s, events[0]), events[1..]);
    }
  }

  /** Every payment of every run goes to the address and for the amount that an accepted call of the run asked for under
      its id. */
  lemma PaidAsAsked(covenants: bool, events: seq<Event>, n: nat) returns (j: nat)
    requires AllowedRun(covenants, INIT, events) && n < |Run(covenants, INIT, events).ledger|
    ensures var paid := Run(covenants, INIT, events).ledger[n];
            && j < |events| && events[j].Arrive? && events[j].id == paid.authId
            && events[j].p.bitcoinAddress == paid.address && events[j].p.amountSats == paid.sats
            && Create(Run(covenants, INIT, events[..j]).rows, events[j].vaults, events[j].id, events[j].now,
                      events[j].p).Ok?
  {
    var s := Run(covenants, INIT, events);
    var paid := s.ledger[n];
    PayoutSafety(covenants, events);
    assert AsAuthorized(s.rows, paid);
    var row := Lookup(s.rows, paid.authId).value;
    var k :| 0 <= k < |s.rows| && s.rows[k] == row;
    hide Run, AllowedRun, Losses, TimesPaid, PaidSats, CompletedSats, Create, Lookup;
    j := RowWasAskedFor(covenants, INIT, events, k);
  }

  // ---------------------------------------------------------------- receipts

  /** How often the run finds the receipt of this authorization final. */
  function Finals(covenants: bool, s: State, events: seq<Event>, id: string): nat
    decreases |events|
  {
    if events == [] then 0
    else
      var final := events[0] == Verdict(true) && s.phase.Verifying? && s.phase.row.id == id;
      (if final then 1 else 0) + Finals(covenants, Step(covenants, s, events[0]), events[1..], id)
  }

  /** Cleared to be paid, and not paid yet. */
  function Cleared(s: State, id: string): nat {
    if s.phase.Sending? && s.phase.row.id == id then 1 else 0
  }

  lemma StepNeedsReceipt(covenants: bool, s: State, e: Event, id: string)
    ensures var t := Step(covenants, s, e);
            TimesPaid(t.ledger, id) + Cleared(t, id)
            <= TimesPaid(s.ledger, id) + Cleared(s, id)
               + if e == Verdict(true) && s.phase.Verifying? && s.phase.row.id == id then 1 else 0
  {
    hide Mark, Updated, Verify, TimesPaid, After, GivenUp, IsCompleted;
    if e.Broadcast? && s.phase.Sending? {
      PaidSnoc(s.ledger, PaymentTo(s.phase.row, e.txid), id);
    }
  }

  /** No payment without a receipt: over any run, an authorization is paid at most as often as its receipt was found
      final while it was in hand. */
  lemma {:induction false} PaidOnlyIfFinal(covenants: bool, s: State, events: seq<Event>, id: string)
    ensures var t := Run(covenants, s, events);
            TimesPaid(t.ledger, id) + Cleared(t, id)
            <= TimesPaid(s.ledger, id) + Cleared(s, id) + Finals(covenants, s, events, id)
    decreases |events|
  {
    hide Step, TimesPaid, Cleared;
    if events != [] {
      StepNeedsReceipt(covenants, s, events[0], id);
      PaidOnlyIfFinal(covenants, Step(covenants, s, events[0]), events[1..], id);
    }
  }

  // ---------------------------------------------------------------- what an exit strands

  lemma MarkElsewhere(rows: seq<Row>, x: string, status: Status, message: Option<string>, id: string)
    requires x != id
    ensures Lookup(Mark(rows, x, status, message), id) == Lookup(rows, id)
  {
    hide Lookup, Updated;
    LookupUpdated(rows, x, status, 0, None, message, id);
  }

  /** Entering the send looks up and marks no row but the one in hand. */
  lemma EnterElsewhere(covenants: bool, s: State, row: Row, queue: seq<Row>, id: string)
    requires id != row.id
    ensures var t := EnterSend(covenants, s, row, queue);
            Lookup(t.rows, id) == Lookup(s.rows, id) && t.ledger == s.ledger && t.stranded == s.stranded
  {
    hide Verify, Mark;
    MarkElsewhere(s.rows, row.id, Processing, None, id);
  }

  lemma LeaveElsewhere(covenants: bool, s: State, row: Row, queue: seq<Row>, message: string, id: string)
    requires id != row.id
    ensures var t := LeaveSend(covenants, s, row, queue, message);
            Lookup(t.rows, id) == Lookup(s.rows, id) && t.ledger == s.ledger && t.stranded == s.stranded
  {
    hide Mark, Lookup;
    MarkElsewhere(s.rows, row.id, Failed, Some(message), id);
  }

  lemma ArriveElsewhere(rows: seq<Row>, vaults: set<string>, k: string, now: int, p: Params, id: string)
    requires Lookup(rows, id).Some?
    ensures Lookup(After(rows, CreateCall(vaults, k, now, p)), id) == Lookup(rows, id)
  {
    hide Lookup;
    LookupAppended(rows, NewRow(k, now, p), id);
  }

  /** The row of the next event that marks one. */
  predicate Marks(s: State, id: string) {
    if s.phase.Ready? then s.phase.queue != [] && s.phase.queue[0].id == id else HasRow(s.phase) && s.phase.row.id == id
  }

  lemma StepElsewhere(covenants: bool, s: State, e: Event, id: string)
    requires Lookup(s.rows, id).Some? && !Marks(s, id)
    ensures var t := Step(covenants, s, e);
            && Lookup(t.rows, id) == Lookup(s.rows, id)
            && TimesPaid(t.ledger, id) == TimesPaid(s.ledger, id) && s.stranded <= t.stranded
  {
    hide Lookup, Mark, Updated, TimesPaid, EnterSend, LeaveSend, After, GivenUp;
    var p := s.phase;
    match e
    case Arrive(vaults, k, now, params) => ArriveElsewhere(s.rows, vaults, k, now, params, id);
    case Take =>
      if p.Ready? && p.queue != [] {
        MarkElsewhere(s.rows, p.queue[0].id, Processing, None, id);
      }
    case Verdict(finalized) =>
      if p.Verifying? {
        EnterElsewhere(covenants, s, p.row, p.queue, id);
        MarkElsewhere(s.rows, p.row.id, Pending, None, id);
      }
    case Broadcast(txid) =>
      if p.Sending? {
        PaidSnoc(s.ledger, PaymentTo(p.row, txid), id);
      }
    case SendThrows(message) =>
      if HasRow(p) {
        LeaveElsewhere(covenants, s, p.row, p.queue, message, id);
      }
    case Resume(now) =>
      if p.Broadcasted? {
        LeaveElsewhere(covenants, s, p.row, p.queue, "Bitcoin TXID required for completed status", id);
        LookupUpdated(s.rows, p.row.id, Completed, now, Some(p.txid), None, id);
      }
    case Finish(now) =>
      if HasRow(p) {
        MarkElsewhere(s.rows, p.row.id, Pending, None, id);
        if p.Recorded? {
          LookupUpdated(s.rows, p.row.id, Completed, now, Some(p.txid), None, id);
        }
      }
    case _ =>
  }

  lemma StrandedNotMarked(s: State, id: string)
    requires Inv(s) && id in s.stranded
    ensures Lookup(s.rows, id).Some? && !Marks(s, id)
  {
    hide GoodTable, LedgerOk, Settled, Distinct, SamePayout, Lookup;
    if s.phase.Ready? && s.phase.queue != [] {
      assert Stands(s.rows, s.phase.queue[0], {Pending});
    }
  }

  /** A row in hand when the process ends is left for good: in no later run does its status change, and it is not paid
      again, whether it was paid or not. */
  lemma {:induction false} StrandedForGood(covenants: bool, s: State, events: seq<Event>, id: string)
    requires Inv(s) && AllowedRun(covenants, s, events) && id in s.stranded
    ensures var t := Run(covenants, s, events);
            && id in t.stranded && Lookup(t.rows, id) == Lookup(s.rows, id)
            && TimesPaid(t.ledger, id) == TimesPaid(s.ledger, id)
    decreases |events|
  {
    hide Inv, Step, Lookup, TimesPaid, Marks;
    if events != [] {
      StepKeeps(covenants, s, events[0]);
      StrandedNotMarked(s, id);
      StepElsewhere(covenants, s, events[0], id);
      StrandedForGood(covenants, Step(covenants, s, events[0]), events[1..], id);
    }
  }

  // ---------------------------------------------------------------- what the assumptions are for

  lemma OpenRowValidates(rows: seq<Row>, row: Row)
    requires GoodTable(rows) && Stands(rows, row, {Processing})
    ensures Verify(rows, Lookup(rows, row.id).value.nullifierHash) == Valid(Lookup(rows, row.id).value)
  {
    hide GoodTable, Verify;
    var auth := Lookup(rows, row.id).value;
    VerifyAcceptsOpenRows(rows, auth.nullifierHash, auth);
  }

  /** Inside the processor the validation never refuses: nullifiers are unique and the row is in processing. */
  lemma ValidationNeverRefuses(covenants: bool, s: State)
    requires Inv(s) && s.phase.Verifying?
    ensures var t := Step(covenants, s, Verdict(true));
            t.phase.Sending? && SamePayout(t.phase.row, s.phase.row) && t.phase.queue == s.phase.queue
    ensures var t := Step(covenants, s, Verdict(true));
            t.ledger == s.ledger && t.lost == s.lost
  {
    hide GoodTable, Verify, Updated, SamePayout;
    OpenRowValidates(s.rows, s.phase.row);
  }

  // ---------------------------------------------------------------- composing runs

  /** `events` are allowed and lead from s to t. */
  ghost predicate Leads(covenants: bool, s: State, events: seq<Event>, t: State) {
    Run(covenants, s, events) == t && AllowedRun(covenants, s, events)
  }

  lemma {:induction false} LeadsOn(covenants: bool, s: State, a: seq<Event>, t: State, b: seq<Event>, u: State)
    requires Leads(covenants, s, a, t) && Leads(covenants, t, b, u)
    ensures Leads(covenants, s, a + b, u)
    decreases |a|
  {
    if a == [] {
      assert a + b == b;
    } else {
      assert (a + b)[1..] == a[1..] + b;
      LeadsOn(covenants, Step(covenants, s, a[0]), a[1..], t, b, u);
    }
  }

  lemma LeadsByStep(covenants: bool, s: State, a: seq<Event>, t: State, e: Event)
    requires Leads(covenants, s, a, t) && Allowed(t, e)
    ensures Leads(covenants, s, a + [e], Step(covenants, t, e))
  {
    assert [e][1..] == [];
    var u := Step(covenants, t, e);
    assert Run(covenants, u, []) == u && AllowedRun(covenants, u, []);
    assert Leads(covenants, t, [e], u);
    LeadsOn(covenants, s, a, t, [e], u);
  }

  lemma LeadsNowhere(covenants: bool, s: State)
    ensures Leads(covenants, s, [], s)
  {
  }

  lemma LeadsKeepsInv(covenants: bool, s: State, events: seq<Event>, t: State)
    requires Inv(s) && Leads(covenants, s, events, t)
    ensures Inv(t) && CompletedStay(s, t)
  {
    RunKeeps(covenants, s, events);
  }

  lemma InitInv()
    ensures Inv(INIT)
  {
  }

  lemma InvKeys(s: State)
    requires Inv(s)
    ensures Distinct(Id, s.rows)
  {
  }

  predicate AllArrivals(events: seq<Event>) {
    forall e :: e in events ==> e.Arrive?
  }

  /** Arrivals change neither the money nor what the processor is doing. */
  lemma {:induction false} ArrivalsLead(covenants: bool, s: State, a: seq<Event>) returns (t: State)
    requires AllArrivals(a)
    ensures Leads(covenants, s, a, t) && t == s.(rows := t.rows)
    decreases |a|
  {
    t := s;
    if a != [] {
      t := ArrivalsLead(covenants, Step(covenants, s, a[0]), a[1..]);
    }
  }

  // ---------------------------------------------------------------- the exact condition for consistency

  /** How a send can end: no broadcast, a broadcast whose txid came back, or one whose response was lost. */
  datatype Outcome = Declined(message: string) | Paid(txid: string) | Lost(txid: string, message: string)

  predicate CleanOutcome(o: Outcome) {
    o.Declined? || (o.Paid? && o.txid != "")
  }

  /** Paid once and completed, or neither. */
  ghost predicate Consistent(s: State) {
    forall id :: TimesPaid(s.ledger, id) == if IsCompleted(s.rows, id) then 1 else 0
  }

  lemma ConsistentIffNothingLost(s: State)
    requires Inv(s) && !Crediting(s.phase)
    ensures Consistent(s) <==> s.lost == []
  {
    if s.lost != [] {
      var id := s.lost[|s.lost| - 1].authId;
      assert TimesPaid(s.lost, id) >= 1;
      hide Lookup;
      assert TimesPaid(s.ledger, id) != if IsCompleted(s.rows, id) then 1 else 0;
    }
  }

  /** Between passes the invariant speaks of nothing but the money and the table. */
  lemma IdleAccounts(s: State)
    requires Inv(s) && s.phase.Idle?
    ensures forall id :: TimesPaid(s.ledger, id) == TimesPaid(s.lost, id) + if IsCompleted(s.rows, id) then 1 else 0
    ensures PaidSats(s.ledger) == CompletedSats(s.rows) + PaidSats(s.lost)
    ensures forall r :: r in s.rows && r.id !in s.stranded ==> r.status in {Pending, Completed}
    ensures forall k :: 0 <= k < |s.ledger| ==> AsAuthorized(s.rows, s.ledger[k])
    ensures Consistent(s) <==> s.lost == []
  {
    ConsistentIffNothingLost(s);
    hide IsCompleted, CompletedSats, TimesPaid, PaidSats, AsAuthorized, GoodTable, PhaseOk, StrandedOk, Consistent;
  }

  /** Between payments of any run, payments and completions agree if and only if no event of the run lost a payment. */
  lemma RunConsistentIffNothingLost(covenants: bool, events: seq<Event>)
    requires AllowedRun(covenants, INIT, events) && !Crediting(Run(covenants, INIT, events).phase)
    ensures Consistent(Run(covenants, INIT, events)) <==> LosesNothing(covenants, INIT, events)
  {
    hide Run, AllowedRun, Inv, Consistent, Losses, LosesNothing;
    InitInv();
    RunKeeps(covenants, INIT, events);
    ConsistentIffNothingLost(Run(covenants, INIT, events));
    RunLost(covenants, INIT, events);
    NothingLost(covenants, INIT, events);
    assert INIT.lost + Losses(covenants, INIT, events) == Losses(covenants, INIT, events);
  }

  /** From the send on to the response, if there is one, with whatever arrives before and after the broadcast. */
  function ToResponse(o: Outcome, before: seq<Event>, between: seq<Event>): seq<Event> {
    if o.Declined? then before else before + [Broadcast(o.txid)] + between
  }

  function ResponseTo(o: Outcome, now: int): Event {
    if o.Paid? then Resume(now) else SendThrows(o.message)
  }

  /** The response, or the error, and what arrives before the visit ends. */
  function FromResponse(o: Outcome, now: int, after: seq<Event>): seq<Event> {
    [ResponseTo(o, now)] + after + [Finish(now)]
  }

  /** The rest of a visit from the send on. */
  function SendEvents(o: Outcome, now: int, before: seq<Event>, between: seq<Event>, after: seq<Event>): seq<Event> {
    ToResponse(o, before, between) + FromResponse(o, now, after)
  }

  lemma LeadsByArrivals(covenants: bool, s: State, a: seq<Event>, t: State, arrivals: seq<Event>) returns (u: State)
    requires Leads(covenants, s, a, t) && AllArrivals(arrivals)
    ensures Leads(covenants, s, a + arrivals, u) && u == t.(rows := u.rows)
  {
    u := ArrivalsLead(covenants, t, arrivals);
    LeadsOn(covenants, s, a, t, arrivals, u);
  }

  lemma SendReaches(covenants: bool, s: State, o: Outcome, before: seq<Event>, between: seq<Event>) returns (t: State)
    requires s.phase.Sending? && AllArrivals(before) && AllArrivals(between)
    ensures Leads(covenants, s, ToResponse(o, before, between), t)
    ensures t.phase == if o.Declined? then s.phase else Broadcasted(s.phase.row, s.phase.queue, o.txid)
    ensures t.ledger == if o.Declined? then s.ledger else s.ledger + [PaymentTo(s.phase.row, o.txid)]
    ensures t.lost == if !o.Declined? && o.txid == "" then s.lost + [PaymentTo(s.phase.row, o.txid)] else s.lost
  {
    hide Leads, AllArrivals, Mark, EnterSend, LeaveSend, UpdateStatus;
    LeadsNowhere(covenants, s);
    t := LeadsByArrivals(covenants, s, [], s, before);
    assert [] + before == before;
    if !o.Declined? {
      LeadsByStep(covenants, s, before, t, Broadcast(o.txid));
      t := Step(covenants, t, Broadcast(o.txid));
      t := LeadsByArrivals(covenants, s, before + [Broadcast(o.txid)], t, between);
    }
  }

  /** The response is recorded, or the error given up on. */
  lemma ResponseEffect(covenants: bool, s: State, e: Event)
    requires (e.SendThrows? && (s.phase.Sending? || s.phase.Broadcasted?)) || (e.Resume? && s.phase.Broadcasted?)
    ensures var t := Step(covenants, s, e);
            && (t.phase.Recorded? || t.phase.Failing?)
            && t.phase.row == s.phase.row && t.phase.queue == s.phase.queue
            && t.ledger == s.ledger && (t.lost == if e.SendThrows? then GivenUp(s) else s.lost)
            && (e.Resume? && s.phase.txid != "" ==> t.phase == Recorded(s.phase.row, s.phase.queue, s.phase.txid))
  {
    hide Mark, Updated;
  }

  lemma FinishEffect(covenants: bool, s: State, now: int)
    requires s.phase.Recorded? || s.phase.Failing?
    ensures Step(covenants, s, Finish(now))
         == s.(rows := Step(covenants, s, Finish(now)).rows, phase := Ready(s.phase.queue))
  {
    hide Mark, UpdateStatus;
  }

  /** The response, or the error, and what arrives until the visit ends. */
  lemma SendResponds(covenants: bool, s: State, o: Outcome, now: int, after: seq<Event>) returns (t: State)
    requires AllArrivals(after) && (if o.Declined? then s.phase.Sending? else s.phase.Broadcasted?)
    ensures Leads(covenants, s, [ResponseTo(o, now)] + after, t)
    ensures t.phase.Recorded? || t.phase.Failing?
    ensures t.phase.row == s.phase.row && t.phase.queue == s.phase.queue && t.ledger == s.ledger
    ensures t.lost == if o.Paid? then s.lost else GivenUp(s)
    ensures o.Paid? && s.phase.txid != "" ==> t.phase == Recorded(s.phase.row, s.phase.queue, s.phase.txid)
  {
    hide Leads, AllArrivals, Step, GivenUp;
    var e := ResponseTo(o, now);
    LeadsNowhere(covenants, s);
    LeadsByStep(covenants, s, [], s, e);
    assert [] + [e] == [e];
    ResponseEffect(covenants, s, e);
    t := LeadsByArrivals(covenants, s, [e], Step(covenants, s, e), after);
  }

  lemma SendFinishes(covenants: bool, s: State, o: Outcome, now: int, after: seq<Event>) returns (t: State)
    requires AllArrivals(after) && (if o.Declined? then s.phase.Sending? else s.phase.Broadcasted?)
    ensures Leads(covenants, s, FromResponse(o, now, after), t)
    ensures t.phase == Ready(s.phase.queue) && t.ledger == s.ledger
    ensures t.lost == if o.Paid? then s.lost else GivenUp(s)
  {
    hide Leads, AllArrivals, Step, GivenUp;
    var u := SendResponds(covenants, s, o, now, after);
    LeadsByStep(covenants, s, [ResponseTo(o, now)] + after, u, Finish(now));
    FinishEffect(covenants, u, now);
    t := Step(covenants, u, Finish(now));
  }

  /** The rest of a visit: what it paid and what it lost. */
  lemma SendEnds(covenants: bool, s: State, o: Outcome, now: int,
                 before: seq<Event>, between: seq<Event>, after: seq<Event>) returns (t: State)
    requires s.phase.Sending? && AllArrivals(before) && AllArrivals(between) && AllArrivals(after)
    ensures Leads(covenants, s, SendEvents(o, now, before, between, after), t)
    ensures t.phase == Ready(s.phase.queue)
    ensures t.ledger == if o.Declined? then s.ledger else s.ledger + [PaymentTo(s.phase.row, o.txid)]
    ensures t.lost == if CleanOutcome(o) then s.lost else s.lost + [PaymentTo(s.phase.row, o.txid)]
  {
    hide Leads, AllArrivals, Step, ToResponse, FromResponse;
    var u := SendReaches(covenants, s, o, before, between);
    t := SendFinishes(covenants, u, o, now, after);
    LeadsOn(covenants, s, ToResponse(o, before, between), u, FromResponse(o, now, after), t);
  }

  /** Visiting a row, with arrivals at every await, keeps payments and completions in step exactly when the send
      either did not broadcast, or broadcast and handed back a non-empty txid. */
  lemma ConsistentIffCleanOutcome(covenants: bool, s: State, o: Outcome, now: int,
                                  before: seq<Event>, between: seq<Event>, after: seq<Event>)
    requires Inv(s) && s.phase.Sending? && s.lost == []
    requires AllArrivals(before) && AllArrivals(between) && AllArrivals(after)
    ensures Consistent(Run(covenants, s, SendEvents(o, now, before, between, after))) <==> CleanOutcome(o)
  {
    hide Inv, Consistent, SendEvents, Step;
    var t := SendEnds(covenants, s, o, now, before, between, after);
    LeadsKeepsInv(covenants, s, SendEvents(o, now, before, between, after), t);
    ConsistentIffNothingLost(t);
  }
}
