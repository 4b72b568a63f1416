/**
  * The withdrawal_authorizations table and the service that is the only way to it: creation with
  * its validations and uniqueness constraints, status updates, and the queries.
  */
module Authorizations {
  import opened Wrappers
  import opened Sorting

  datatype Status = Pending | Processing | Completed | Failed
  datatype Row = Row(id: string, vaultId: string, nullifierHash: string, starknetTxHash: string,
                     bitcoinAddress: string, amountSats: int, status: Status, createdAt: int,
                     confirmedAt: Option<int>, bitcoinTxid: Option<string>, errorMessage: Option<string>)
  datatype Params = Params(vaultId: string, nullifierHash: string, starknetTxHash: string,
                           bitcoinAddress: string, amountSats: int)
  datatype AuthError = InvalidAddress | InvalidTxHash | AlreadyExists | ConstraintFailed | TxidRequired
  datatype Validation = Valid(row: Row) | NotAuthorized | AlreadyUsed | FailedBefore(message: Option<string>)
  datatype Stats = Stats(pending: nat, processing: nat, completed: nat, failed: nat)

  function Id(r: Row): string { r.id }
  function Nullifier(r: Row): string { r.nullifierHash }
  function TxHash(r: Row): string { r.starknetTxHash }
  function CreatedAt(r: Row): int { r.createdAt }

  // ---------------------------------------------------------------- queries

  /** SELECT ... WHERE column = value, for a column with unique values. */
  function Find(rows: seq<Row>, column: Row -> string, value: string): (r: Option<Row>)
    ensures r.Some? ==> r.value in rows && column(r.value) == value
    ensures r.None? <==> forall row :: row in rows ==> column(row) != value
  {
    if rows == [] then None
    else if column(rows[0]) == value then Some(rows[0])
    else Find(rows[1..], column, value)
  }

  function Lookup(rows: seq<Row>, id: string): Option<Row> {
    Find(rows, Id, id)
  }

  lemma {:induction false} FindUnique(rows: seq<Row>, column: Row -> string, row: Row)
    requires row in rows && Distinct(column, rows)
    ensures Find(rows, column, column(row)) == Some(row)
  {
    if rows[0] != row {
      var k :| 0 < k < |rows| && rows[k] == row;
      assert column(rows[0]) != column(rows[k]);
      assert row == rows[1..][k - 1];
      FindUnique(rows[1..], column, row);
    }
  }

  function WithStatus(rows: seq<Row>, status: Status): (r: seq<Row>)
    ensures forall row :: row in r <==> row in rows && row.status == status
  {
    if rows == [] then []
    else
      var rest := WithStatus(rows[1..], status);
      if rows[0].status == status then [rows[0]] + rest else rest
  }

  lemma {:induction false} WithStatusDistinct(rows: seq<Row>, status: Status)
    requires Distinct(Id, rows)
    ensures Distinct(Id, WithStatus(rows, status))
  {
    if rows != [] {
      WithStatusDistinct(rows[1..], status);
      var rest := WithStatus(rows[1..], status);
      forall k | 0 <= k < |rest|
        ensures rest[k].id != rows[0].id
      {
        assert rest[k] in rows[1..];
      }
    }
  }

  /** The pending rows, each once, oldest first. */
  ghost predicate PendingList(rows: seq<Row>, list: seq<Row>) {
    && Distinct(Id, list) && SortedBy(CreatedAt, list)
    && forall row :: row in list <==> row in rows && row.status == Pending
  }

  function Verify(rows: seq<Row>, nullifierHash: string): Validation {
    match Find(rows, Nullifier, nullifierHash)
    case None => NotAuthorized
    case Some(row) =>
      if row.status == Completed then AlreadyUsed
      else if row.status == Failed then FailedBefore(row.errorMessage)
      else Valid(row)
  }

  // ---------------------------------------------------------------- updates

  predicate Truthy(s: Option<string>) {
    s.Some? && s.value != ""
  }

  /** The SET clause of a status update. */
  function Set(r: Row, status: Status, now: int, bitcoinTxid: Option<string>, errorMessage: Option<string>): Row {
    var row := r.(status := status);
    var row := if status == Completed then row.(confirmedAt := Some(now), bitcoinTxid := bitcoinTxid) else row;
    if Truthy(errorMessage) then row.(errorMessage := errorMessage) else row
  }

  function Updated(rows: seq<Row>, id: string, status: Status, now: int, bitcoinTxid: Option<string>,
                   errorMessage: Option<string>): (r: seq<Row>)
    ensures |r| == |rows|
    ensures forall k :: 0 <= k < |rows| ==>
              r[k] == if rows[k].id == id then Set(rows[k], status, now, bitcoinTxid, errorMessage) else rows[k]
  {
    seq(|rows|, k requires 0 <= k < |rows| =>
      if rows[k].id == id then Set(rows[k], status, now, bitcoinTxid, errorMessage) else rows[k])
  }

  function UpdateStatus(rows: seq<Row>, id: string, status: Status, now: int, bitcoinTxid: Option<string>,
                        errorMessage: Option<string>): Result<seq<Row>, AuthError> {
    if status == Completed && !Truthy(bitcoinTxid) then Err(TxidRequired)
    else Ok(Updated(rows, id, status, now, bitcoinTxid, errorMessage))
  }

  predicate GoodTxHash(h: string) {
    "0x" <= h && |h| >= 34
  }

  function NewRow(id: string, now: int, p: Params): Row {
    Row(id, p.vaultId, p.nullifierHash, p.starknetTxHash, p.bitcoinAddress, p.amountSats, Pending, now, None, None,
        None)
  }

  /** Validations in the order the service makes them, then the primary key and the reference to the vaults. */
  function Create(rows: seq<Row>, vaults: set<string>, id: string, now: int, p: Params): Result<seq<Row>, AuthError> {
    if !("tb1" <= p.bitcoinAddress) then Err(InvalidAddress)
    else if !GoodTxHash(p.starknetTxHash) then Err(InvalidTxHash)
    else if Find(rows, Nullifier, p.nullifierHash).Some? || Find(rows, TxHash, p.starknetTxHash).Some?
    then Err(AlreadyExists)
    else if Lookup(rows, id).Some? || p.vaultId !in vaults then Err(ConstraintFailed)
    else Ok(rows + [NewRow(id, now, p)])
  }

  /** The error that creation reports, and that every check before it passes. */
  ghost predicate Rejects(rows: seq<Row>, vaults: set<string>, id: string, p: Params, e: AuthError) {
    var address, txHash := "tb1" <= p.bitcoinAddress, "0x" <= p.starknetTxHash && |p.starknetTxHash| >= 34;
    var used := exists r :: r in rows && (r.nullifierHash == p.nullifierHash || r.starknetTxHash == p.starknetTxHash);
    var broken := p.vaultId !in vaults || exists r :: r in rows && r.id == id;
    match e
    case InvalidAddress => !address
    case InvalidTxHash => address && !txHash
    case AlreadyExists => address && txHash && used
    case ConstraintFailed => address && txHash && !used && broken
    case TxidRequired => false
  }

  /** Creation adds the row of the arguments unless one of the checks rejects them. */
  lemma CreateMeans(rows: seq<Row>, vaults: set<string>, id: string, now: int, p: Params)
    ensures match Create(rows, vaults, id, now, p)
            case Ok(after) =>
              && after == rows + [Row(id, p.vaultId, p.nullifierHash, p.starknetTxHash, p.bitcoinAddress, p.amountSats,
                                      Pending, now, None, None, None)]
              && forall e :: !Rejects(rows, vaults, id, p, e)
            case Err(e) => Rejects(rows, vaults, id, p, e)
  {
    FindMeans(rows, Nullifier, p.nullifierHash);
    FindMeans(rows, TxHash, p.starknetTxHash);
    FindMeans(rows, Id, id);
    hide Find;
  }

  lemma FindMeans(rows: seq<Row>, column: Row -> string, value: string)
    ensures Find(rows, column, value).Some? <==> exists r :: r in rows && column(r) == value
  {
  }

  /** `after` is `before` with the row of this id brought to the new status. */
  ghost predicate SetRows(before: seq<Row>, after: seq<Row>, id: string, status: Status, now: int,
                          bitcoinTxid: Option<string>, errorMessage: Option<string>) {
    |after| == |before|
    && forall k :: 0 <= k < |before| ==>
         var r, t := before[k], after[k];
         if r.id != id then t == r
         else
           && SamePayout(t, r) && t.status == status
           && (status == Completed ==> t.confirmedAt == Some(now) && t.bitcoinTxid == bitcoinTxid)
           && (status != Completed ==> t.confirmedAt == r.confirmedAt && t.bitcoinTxid == r.bitcoinTxid)
           && t.errorMessage == if errorMessage in {None, Some("")} then r.errorMessage else errorMessage
  }

  // ---------------------------------------------------------------- the service

  class WithdrawalAuthorizationService {
    var rows: seq<Row>
    var vaults: set<string>

    constructor (vaults: set<string>)
      ensures rows == [] && this.vaults == vaults
    {
      rows := [];
      this.vaults := vaults;
    }

    /** On success exactly one row is added, pending, with the arguments in their columns; otherwise the first failing
        check is reported and the table stays. */
    method CreateAuthorization(id: string, now: int, p: Params) returns (r: Result<Row, AuthError>)
      modifies this`rows
      ensures rows == After(old(rows), CreateCall(vaults, id, now, p))
      ensures r.Ok? ==>
                && rows == old(rows) + [r.value]
                && r.value.id == id && r.value.vaultId == p.vaultId && r.value.nullifierHash == p.nullifierHash
                && r.value.starknetTxHash == p.starknetTxHash && r.value.bitcoinAddress == p.bitcoinAddress
                && r.value.amountSats == p.amountSats && r.value.status == Pending && r.value.createdAt == now
                && r.value.confirmedAt == None && r.value.bitcoinTxid == None && r.value.errorMessage == None
      ensures r.Err? ==> rows == old(rows) && Rejects(old(rows), vaults, id, p, r.error)
    {
      CreateMeans(rows, vaults, id, now, p);
      if !("tb1" <= p.bitcoinAddress) {
        return Err(InvalidAddress);
      }
      if !GoodTxHash(p.starknetTxHash) {
        return Err(InvalidTxHash);
      }
      if Find(rows, Nullifier, p.nullifierHash).Some? || Find(rows, TxHash, p.starknetTxHash).Some? {
        return Err(AlreadyExists);
      }
      if Lookup(rows, id).Some? || p.vaultId !in vaults {
        return Err(ConstraintFailed);
      }
      rows := rows + [NewRow(id, now, p)];
      return Ok(NewRow(id, now, p));
    }

    /** Only the row with this id changes, and of it only the status, the time and txid of a completion, and the error
        message if there is one. A completion without a txid throws. */
    method SetStatus(id: string, status: Status, now: int, bitcoinTxid: Option<string>, errorMessage: Option<string>)
      returns (r: Result<(), AuthError>)
      modifies this`rows
      ensures r.Err? <==> status == Completed && (bitcoinTxid == None || bitcoinTxid == Some(""))
      ensures r.Ok? ==> SetRows(old(rows), rows, id, status, now, bitcoinTxid, errorMessage)
      ensures match UpdateStatus(old(rows), id, status, now, bitcoinTxid, errorMessage)
              case Ok(after) => rows == after && r == Ok(())
              case Err(e) => rows == old(rows) && r == Err(e)
    {
      if status == Completed && !Truthy(bitcoinTxid) {
        return Err(TxidRequired);
      }
      rows := Updated(rows, id, status, now, bitcoinTxid, errorMessage);
      return Ok(());
    }

    method GetPendingAuthorizations() returns (list: seq<Row>)
      requires Distinct(Id, rows)
      ensures PendingList(rows, list)
    {
      list := Sort(CreatedAt, WithStatus(rows, Pending));
      WithStatusDistinct(rows, Pending);
      SortSorted(CreatedAt, WithStatus(rows, Pending));
      SortDistinct(CreatedAt, Id, WithStatus(rows, Pending));
    }

    method GetStats() returns (s: Stats)
      ensures s == Stats(Count(rows, Pending), Count(rows, Processing), Count(rows, Completed), Count(rows, Failed))
      ensures s.pending + s.processing + s.completed + s.failed == |rows|
    {
      s := Stats(0, 0, 0, 0);
      for i := 0 to |rows|
        invariant s == Stats(Count(rows[..i], Pending), Count(rows[..i], Processing), Count(rows[..i], Completed),
                             Count(rows[..i], Failed))
        invariant s.pending + s.processing + s.completed + s.failed == i
      {
        assert rows[..i + 1][..i] == rows[..i];
        s := match rows[i].status
        case Pending => s.(pending := s.pending + 1)
        case Processing => s.(processing := s.processing + 1)
        case Completed => s.(completed := s.completed + 1)
        case Failed => s.(failed := s.failed + 1);
      }
      assert rows[..|rows|] == rows;
    }
  }

  function Count(rows: seq<Row>, status: Status): nat {
    if rows == [] then 0
    else Count(rows[..|rows| - 1], status) + if rows[|rows| - 1].status == status then 1 else 0
  }

  // ---------------------------------------------------------------- what every call keeps

  predicate GoodRow(r: Row) {
    && "tb1" <= r.bitcoinAddress && GoodTxHash(r.starknetTxHash)
    && (r.status == Completed ==> Truthy(r.bitcoinTxid) && r.confirmedAt.Some?)
  }

  ghost predicate GoodTable(rows: seq<Row>) {
    && Distinct(Id, rows) && Distinct(Nullifier, rows) && Distinct(TxHash, rows)
    && forall row :: row in rows ==> GoodRow(row)
  }

  /** Same authorization: everything that decides who is paid what. */
  predicate SamePayout(a: Row, b: Row) {
    && a.id == b.id && a.vaultId == b.vaultId && a.nullifierHash == b.nullifierHash
    && a.starknetTxHash == b.starknetTxHash && a.bitcoinAddress == b.bitcoinAddress
    && a.amountSats == b.amountSats && a.createdAt == b.createdAt
  }

  /** No row of `before` disappears or changes its payout. */
  ghost predicate Extends(before: seq<Row>, after: seq<Row>) {
    |before| <= |after| && forall k :: 0 <= k < |before| ==> SamePayout(before[k], after[k])
  }

  lemma UpdateKeepsTable(rows: seq<Row>, id: string, status: Status, now: int, bitcoinTxid: Option<string>,
                         errorMessage: Option<string>)
    requires GoodTable(rows) && UpdateStatus(rows, id, status, now, bitcoinTxid, errorMessage).Ok?
    ensures GoodTable(Updated(rows, id, status, now, bitcoinTxid, errorMessage))
    ensures Extends(rows, Updated(rows, id, status, now, bitcoinTxid, errorMessage))
  {
    var after := Updated(rows, id, status, now, bitcoinTxid, errorMessage);
    forall k | 0 <= k < |rows|
      ensures SamePayout(rows[k], after[k]) && GoodRow(after[k])
    {
      assert GoodRow(rows[k]);
    }
    assert forall k :: 0 <= k < |rows| ==>
      && Id(after[k]) == Id(rows[k])
      && Nullifier(after[k]) == Nullifier(rows[k])
      && TxHash(after[k]) == TxHash(rows[k]);
  }

  lemma CreateKeepsTable(rows: seq<Row>, vaults: set<string>, id: string, now: int, p: Params)
    requires GoodTable(rows) && Create(rows, vaults, id, now, p).Ok?
    ensures GoodTable(rows + [NewRow(id, now, p)])
    ensures Extends(rows, rows + [NewRow(id, now, p)])
  {
    var row := NewRow(id, now, p);
    forall k | 0 <= k < |rows|
      ensures Id(rows[k]) != Id(row) && Nullifier(rows[k]) != Nullifier(row) && TxHash(rows[k]) != TxHash(row)
    {
      assert rows[k] in rows;
    }
  }

  datatype Call =
    | CreateCall(vaults: set<string>, id: string, now: int, p: Params)
    | StatusCall(id: string, status: Status, now: int, bitcoinTxid: Option<string>, errorMessage: Option<string>)

  /** A call that throws leaves the table alone. */
  function After(rows: seq<Row>, c: Call): seq<Row> {
    var r := match c
      case CreateCall(vaults, id, now, p) => Create(rows, vaults, id, now, p)
      case StatusCall(id, status, now, txid, message) => UpdateStatus(rows, id, status, now, txid, message);
    if r.Ok? then r.value else rows
  }

  function RunCalls(rows: seq<Row>, calls: seq<Call>): seq<Row>
    decreases |calls|
  {
    if calls == [] then rows else RunCalls(After(rows, calls[0]), calls[1..])
  }

  lemma CallKeepsTable(rows: seq<Row>, c: Call)
    requires GoodTable(rows)
    ensures GoodTable(After(rows, c)) && Extends(rows, After(rows, c))
  {
    hide GoodTable;
    match c
    case CreateCall(vaults, id, now, p) =>
      if Create(rows, vaults, id, now, p).Ok? {
        CreateKeepsTable(rows, vaults, id, now, p);
      }
    case StatusCall(id, status, now, txid, message) =>
      if UpdateStatus(rows, id, status, now, txid, message).Ok? {
        UpdateKeepsTable(rows, id, status, now, txid, message);
      }
  }

  /** After any calls: keys stay unique, completed rows have a txid and a time, payouts never change. */
  lemma {:induction false} CallsKeepTable(rows: seq<Row>, calls: seq<Call>)
    requires GoodTable(rows)
    ensures GoodTable(RunCalls(rows, calls)) && Extends(rows, RunCalls(rows, calls))
    decreases |calls|
  {
    if calls != [] {
      CallKeepsTable(rows, calls[0]);
      CallsKeepTable(After(rows, calls[0]), calls[1..]);
    }
  }

  /** A new authorization is open to exactly one payout: it validates at once, and neither its nullifier nor its
      Starknet transaction can be authorized again. */
  lemma CreateOpensOnce(rows: seq<Row>, vaults: set<string>, id: string, now: int, p: Params)
    requires GoodTable(rows) && Create(rows, vaults, id, now, p).Ok?
    ensures var after := Create(rows, vaults, id, now, p).value;
            && Verify(after, p.nullifierHash) == Valid(NewRow(id, now, p))
            && forall vaults2: set<string>, id2: string, now2: int, p2: Params ::
                 p2.nullifierHash == p.nullifierHash || p2.starknetTxHash == p.starknetTxHash ==>
                 Create(after, vaults2, id2, now2, p2).Err?
  {
    CreateKeepsTable(rows, vaults, id, now, p);
    var row := NewRow(id, now, p);
    assert (rows + [row])[|rows|] == row;
    VerifyAcceptsOpenRows(rows + [row], p.nullifierHash, row);
    FindUnique(rows + [row], TxHash, row);
  }

  /** What the validation says after a status update of a row: used once completed, the recorded message once
      failed, and valid again after a reset. */
  lemma VerifyAfterUpdate(rows: seq<Row>, row: Row, status: Status, now: int, bitcoinTxid: Option<string>,
                          message: string)
    requires GoodTable(rows) && row in rows && message != ""
    requires UpdateStatus(rows, row.id, status, now, bitcoinTxid, Some(message)).Ok?
    ensures var after := Updated(rows, row.id, status, now, bitcoinTxid, Some(message));
            match Verify(after, row.nullifierHash)
            case Valid(r) => status in {Pending, Processing} && SamePayout(r, row) && r.bitcoinTxid == row.bitcoinTxid
            case AlreadyUsed => status == Completed
            case FailedBefore(m) => status == Failed && m == Some(message)
            case NotAuthorized => false
  {
    var after := Updated(rows, row.id, status, now, bitcoinTxid, Some(message));
    UpdateKeepsTable(rows, row.id, status, now, bitcoinTxid, Some(message));
    var k :| 0 <= k < |rows| && rows[k] == row;
    FindUnique(after, Nullifier, after[k]);
  }

  /** What the validation answers for any nullifier. */
  lemma VerifyMeans(rows: seq<Row>, nullifierHash: string)
    ensures match Verify(rows, nullifierHash)
            case NotAuthorized => forall r :: r in rows ==> r.nullifierHash != nullifierHash
            case AlreadyUsed => exists r :: r in rows && r.nullifierHash == nullifierHash && r.status == Completed
            case FailedBefore(m) =>
              exists r :: r in rows && r.nullifierHash == nullifierHash && r.status == Failed && r.errorMessage == m
            case Valid(r) => r in rows && r.nullifierHash == nullifierHash && r.status in {Pending, Processing}
  {
    hide Find;
    var found := Find(rows, Nullifier, nullifierHash);
    FindMeans(rows, Nullifier, nullifierHash);
    if found.Some? {
      var r := found.value;
      assert r in rows && r.nullifierHash == nullifierHash;
    }
  }

  /** The validation accepts exactly the nullifier of a row that is pending or processing, and returns that row. */
  lemma VerifyAcceptsOpenRows(rows: seq<Row>, nullifierHash: string, row: Row)
    requires GoodTable(rows)
    ensures Verify(rows, nullifierHash) == Valid(row)
       <==> row in rows && row.nullifierHash == nullifierHash && row.status in {Pending, Processing}
  {
    if row in rows && row.nullifierHash == nullifierHash {
      FindUnique(rows, Nullifier, row);
    }
  }
}
