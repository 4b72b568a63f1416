/**
  * Hash time locks. Claim and refund take different lock keys, so the locks do not keep them apart;
  * each body runs without awaiting, and that is what the proofs rest on.
  */
module Htlc {
  import opened Wrappers
  import Hex
  import Locks

  datatype Status = Pending | Claimed | Refunded
  datatype Htlc = Htlc(sender: string, receiver: string, amount: string, hashlock: string, timelock: int,
                       status: Status, createdAt: int)
  datatype HtlcError =
    | Locked | NotFound | AlreadyClaimed | AlreadyRefunded | BadPreimage | WrongPreimage | NotSender
    | TimelockNotExpired(remaining: int) | DuplicateId

  type Table = map<string, Htlc>

  /** computePoseidonHash(preimage, '0'). */
  type Poseidon = string -> string

  function Lower(s: string): string {
    seq(|s|, k requires 0 <= k < |s| => if 'A' <= s[k] <= 'Z' then 'a' + (s[k] - 'A') else s[k])
  }

  predicate WellFormedPreimage(p: string) {
    || (p != "" && forall k :: 0 <= k < |p| ==> '0' <= p[k] <= '9')
    || (|p| > 2 && "0x" <= p && forall k :: 2 <= k < |p| ==> Hex.IsHexDigit(p[k]))
  }

  /** The preimage opens the hash lock. */
  predicate Opens(hash: Poseidon, h: Htlc, preimage: string) {
    WellFormedPreimage(preimage) && Lower(hash(preimage)) == Lower(h.hashlock)
  }

  // ---------------------------------------------------------------- the three operations on the table

  function Create(hash: Poseidon, t: Table, id: string, sender: string, receiver: string, amount: string,
                  preimage: string, timelock: int, now: int): Result<Table, HtlcError> {
    if id in t then Err(DuplicateId)
    else Ok(t[id := Htlc(sender, receiver, amount, hash(preimage), timelock, Pending, now)])
  }

  function Claim(hash: Poseidon, t: Table, id: string, preimage: string): Result<Table, HtlcError> {
    if id !in t then Err(NotFound)
    else if t[id].status == Claimed then Err(AlreadyClaimed)
    else if t[id].status == Refunded then Err(AlreadyRefunded)
    else if !WellFormedPreimage(preimage) then Err(BadPreimage)
    else if Lower(hash(preimage)) != Lower(t[id].hashlock) then Err(WrongPreimage)
    else Ok(t[id := t[id].(status := Claimed)])
  }

  function Refund(t: Table, id: string, senderAddress: string, now: int): Result<Table, HtlcError> {
    if id !in t then Err(NotFound)
    else if Lower(t[id].sender) != Lower(senderAddress) then Err(NotSender)
    else if t[id].status == Claimed then Err(AlreadyClaimed)
    else if t[id].status == Refunded then Err(AlreadyRefunded)
    else if now < t[id].timelock then Err(TimelockNotExpired(t[id].timelock - now))
    else Ok(t[id := t[id].(status := Refunded)])
  }

  // ---------------------------------------------------------------- when they succeed

  /** Equal but for the case of the letters A to Z. */
  predicate SameUpToCase(a: string, b: string) {
    |a| == |b| && forall k :: 0 <= k < |a| ==> SameLetter(a[k], b[k])
  }

  predicate SameLetter(c: char, d: char) {
    c == d || ('A' <= c <= 'Z' && d as int == c as int + 32) || ('A' <= d <= 'Z' && c as int == d as int + 32)
  }

  /** Decimal digits, or 0x and hex digits of either case; at least one. */
  predicate PreimageText(p: string) {
    || (|p| >= 1 && forall k :: 0 <= k < |p| ==> p[k] in "0123456789")
    || (|p| >= 3 && p[0] == '0' && p[1] == 'x' && forall k :: 2 <= k < |p| ==> IsDigitOfEitherCase(p[k]))
  }

  predicate IsDigitOfEitherCase(c: char) {
    c in Hex.LOWER_DIGITS || c in Hex.UPPER_DIGITS
  }

  lemma LowerMeans(a: string, b: string)
    ensures Lower(a) == Lower(b) <==> SameUpToCase(a, b)
  {
    if SameUpToCase(a, b) {
      assert forall k :: 0 <= k < |a| ==> SameLetter(a[k], b[k]) ==> Lower(a)[k] == Lower(b)[k];
    } else if |a| == |b| {
      var k :| 0 <= k < |a| && !SameLetter(a[k], b[k]);
      assert Lower(a)[k] != Lower(b)[k];
    } else {
      assert |Lower(a)| != |Lower(b)|;
    }
  }

  lemma PreimageMeans(p: string)
    ensures WellFormedPreimage(p) <==> PreimageText(p)
  {
    forall k | 0 <= k < |p|
      ensures Hex.IsHexDigit(p[k]) <==> IsDigitOfEitherCase(p[k])
      ensures '0' <= p[k] <= '9' <==> p[k] in "0123456789"
    {
      Hex.Digits(p[k]);
      DecimalDigit(p[k]);
    }
    assert |p| >= 2 ==> ("0x" <= p <==> p[0] == '0' && p[1] == 'x');
    hide Hex.IsHexDigit, IsDigitOfEitherCase;
  }

  lemma DecimalDigit(c: char)
    ensures '0' <= c <= '9' <==> c in "0123456789"
  {
    if '0' <= c <= '9' {
      var v := (c - '0') as int;
      assert "0123456789"[v] == c;
    }
  }

  ghost predicate CanClaim(hash: Poseidon, t: Table, id: string, preimage: string) {
    && id in t && t[id].status == Pending
    && PreimageText(preimage) && SameUpToCase(hash(preimage), t[id].hashlock)
  }

  ghost predicate CanRefund(t: Table, id: string, senderAddress: string, now: int) {
    id in t && t[id].status == Pending && SameUpToCase(t[id].sender, senderAddress) && now >= t[id].timelock
  }

  /** The first check that a claim fails. */
  ghost predicate ClaimFails(hash: Poseidon, t: Table, id: string, preimage: string, e: HtlcError) {
    match e
    case NotFound => id !in t
    case AlreadyClaimed => id in t && t[id].status == Claimed
    case AlreadyRefunded => id in t && t[id].status == Refunded
    case BadPreimage => id in t && t[id].status == Pending && !PreimageText(preimage)
    case WrongPreimage =>
      id in t && t[id].status == Pending && PreimageText(preimage) && !SameUpToCase(hash(preimage), t[id].hashlock)
    case _ => false
  }

  /** The first check that a refund fails. */
  ghost predicate RefundFails(t: Table, id: string, senderAddress: string, now: int, e: HtlcError) {
    match e
    case NotFound => id !in t
    case NotSender => id in t && !SameUpToCase(t[id].sender, senderAddress)
    case AlreadyClaimed => id in t && SameUpToCase(t[id].sender, senderAddress) && t[id].status == Claimed
    case AlreadyRefunded => id in t && SameUpToCase(t[id].sender, senderAddress) && t[id].status == Refunded
    case TimelockNotExpired(remaining) =>
      && id in t && SameUpToCase(t[id].sender, senderAddress) && t[id].status == Pending
      && remaining == t[id].timelock - now > 0
    case _ => false
  }

  /** A claim succeeds exactly on a pending lock, with a preimage of the right form and hash, and claims it. */
  lemma ClaimMeans(hash: Poseidon, t: Table, id: string, preimage: string)
    ensures Claim(hash, t, id, preimage).Ok? <==> CanClaim(hash, t, id, preimage)
    ensures CanClaim(hash, t, id, preimage) ==>
              Claim(hash, t, id, preimage) == Ok(t[id := t[id].(status := Claimed)])
    ensures Claim(hash, t, id, preimage).Err? ==>
              ClaimFails(hash, t, id, preimage, Claim(hash, t, id, preimage).error)
  {
    hide Lower, WellFormedPreimage, SameUpToCase, PreimageText;
    PreimageMeans(preimage);
    if id in t {
      LowerMeans(hash(preimage), t[id].hashlock);
    }
  }

  /** A refund succeeds exactly on a pending lock, for its sender, from the timelock on, and refunds it. */
  lemma RefundMeans(t: Table, id: string, senderAddress: string, now: int)
    ensures Refund(t, id, senderAddress, now).Ok? <==> CanRefund(t, id, senderAddress, now)
    ensures CanRefund(t, id, senderAddress, now) ==>
              Refund(t, id, senderAddress, now) == Ok(t[id := t[id].(status := Refunded)])
    ensures Refund(t, id, senderAddress, now).Err? ==>
              RefundFails(t, id, senderAddress, now, Refund(t, id, senderAddress, now).error)
  {
    hide Lower, SameUpToCase;
    if id in t {
      LowerMeans(t[id].sender, senderAddress);
    }
  }

  // ---------------------------------------------------------------- the service

  class HTLCService {
    var table: Table
    const locks: Locks.LockManager
    const hash: Poseidon

    constructor (locks: Locks.LockManager, hash: Poseidon)
      ensures table == map[] && this.locks == locks && this.hash == hash
    {
      table := map[];
      this.locks := locks;
      this.hash := hash;
    }

    method CreateHtlc(id: string, sender: string, receiver: string, amount: string, preimage: string,
                      timelock: int, now: int)
      returns (r: Result<string, HtlcError>)
      modifies this`table
      ensures if id in old(table) then r == Err(DuplicateId) && table == old(table)
              else && r == Ok(hash(preimage))
                   && table == old(table)[id := Htlc(sender, receiver, amount, hash(preimage), timelock, Pending, now)]
    {
      var hashlock := hash(preimage);
      if id in table {
        return Err(DuplicateId);
      }
      table := table[id := Htlc(sender, receiver, amount, hashlock, timelock, Pending, now)];
      return Ok(hashlock);
    }

    /** Under the key htlc:claim:<id>. */
    method ClaimHtlc(id: string, preimage: string) returns (r: Result<(), HtlcError>)
      requires Locks.Coherent(locks.S())
      modifies this`table, locks
      ensures Locks.Coherent(locks.S()) && locks.locks == old(locks.locks)
      ensures if Locks.IsLocked(old(locks.S()), "htlc:claim:" + id) then table == old(table) && r == Err(Locked)
              else Settles(Claim(hash, old(table), id, preimage), old(table), table, r)
      ensures r.Ok? <==> !Locks.IsLocked(old(locks.S()), "htlc:claim:" + id) && CanClaim(hash, old(table), id, preimage)
      ensures r.Ok? ==> table == old(table)[id := old(table)[id].(status := Claimed)]
      ensures r.Err? ==> table == old(table)
      ensures r.Err? && r.error != Locked ==> ClaimFails(hash, old(table), id, preimage, r.error)
    {
      ClaimMeans(hash, table, id, preimage);
      hide CanClaim, ClaimFails, Claim, Locks.Acquire, Locks.Release, Locks.Coherent;
      var key := "htlc:claim:" + id;
      ghost var before := locks.S();
      var acquired := locks.Begin(key);
      if !acquired {
        return Err(Locked);
      }
      Locks.AcquireRelease(before, key);
      r := ClaimBody(id, preimage);
      locks.ReleaseLock(key);
    }

    method ClaimBody(id: string, preimage: string) returns (r: Result<(), HtlcError>)
      modifies this`table
      ensures Settles(Claim(hash, old(table), id, preimage), old(table), table, r)
    {
      if id !in table {
        return Err(NotFound);
      }
      var htlc := table[id];
      if htlc.status == Claimed {
        return Err(AlreadyClaimed);
      }
      if htlc.status == Refunded {
        return Err(AlreadyRefunded);
      }
      if !WellFormedPreimage(preimage) {
        return Err(BadPreimage);
      }
      var computed := hash(preimage);
      if Lower(computed) != Lower(htlc.hashlock) {
        return Err(WrongPreimage);
      }
      table := table[id := htlc.(status := Claimed)];
      return Ok(());
    }

    /** Under the key htlc:refund:<id>. */
    method RefundHtlc(id: string, senderAddress: string, now: int) returns (r: Result<(), HtlcError>)
      requires Locks.Coherent(locks.S())
      modifies this`table, locks
      ensures Locks.Coherent(locks.S()) && locks.locks == old(locks.locks)
      ensures if Locks.IsLocked(old(locks.S()), "htlc:refund:" + id) then table == old(table) && r == Err(Locked)
              else Settles(Refund(old(table), id, senderAddress, now), old(table), table, r)
      ensures r.Ok? <==>
                !Locks.IsLocked(old(locks.S()), "htlc:refund:" + id) && CanRefund(old(table), id, senderAddress, now)
      ensures r.Ok? ==> table == old(table)[id := old(table)[id].(status := Refunded)]
      ensures r.Err? ==> table == old(table)
      ensures r.Err? && r.error != Locked ==> RefundFails(old(table), id, senderAddress, now, r.error)
    {
      RefundMeans(table, id, senderAddress, now);
      hide CanRefund, RefundFails, Refund, Locks.Acquire, Locks.Release, Locks.Coherent;
      var key := "htlc:refund:" + id;
      ghost var before := locks.S();
      var acquired := locks.Begin(key);
      if !acquired {
        return Err(Locked);
      }
      Locks.AcquireRelease(before, key);
      r := RefundBody(id, senderAddress, now);
      locks.ReleaseLock(key);
    }

    method RefundBody(id: string, senderAddress: string, now: int) returns (r: Result<(), HtlcError>)
      modifies this`table
      ensures Settles(Refund(old(table), id, senderAddress, now), old(table), table, r)
    {
      if id !in table {
        return Err(NotFound);
      }
      var htlc := table[id];
      if Lower(htlc.sender) != Lower(senderAddress) {
        return Err(NotSender);
      }
      if htlc.status == Claimed {
        return Err(AlreadyClaimed);
      }
      if htlc.status == Refunded {
        return Err(AlreadyRefunded);
      }
      if now < htlc.timelock {
        return Err(TimelockNotExpired(htlc.timelock - now));
      }
      table := table[id := htlc.(status := Refunded)];
      return Ok(());
    }
  }

  /** The table and the answer are those of the operation; an error leaves the table alone. */
  ghost predicate Settles(spec: Result<Table, HtlcError>, before: Table, after: Table, r: Result<(), HtlcError>) {
    match spec
    case Ok(t) => after == t && r == Ok(())
    case Err(e) => after == before && r == Err(e)
  }

  // ---------------------------------------------------------------- runs

  /** Calls in the order their bodies run; `refused` when the lock was held. */
  datatype Event =
    | CreateCall(id: string, sender: string, receiver: string, amount: string, preimage: string, timelock: int,
                 now: int)
    | ClaimCall(id: string, preimage: string, refused: bool)
    | RefundCall(id: string, senderAddress: string, now: int, refused: bool)

  function Step(hash: Poseidon, t: Table, e: Event): Table {
    var r := match e
      case CreateCall(id, sender, receiver, amount, preimage, timelock, now) =>
        Create(hash, t, id, sender, receiver, amount, preimage, timelock, now)
      case ClaimCall(id, preimage, refused) => if refused then Err(Locked) else Claim(hash, t, id, preimage)
      case RefundCall(id, sender, now, refused) => if refused then Err(Locked) else Refund(t, id, sender, now);
    if r.Ok? then r.value else t
  }

  function Run(hash: Poseidon, t: Table, events: seq<Event>): Table
    decreases |events|
  {
    if events == [] then t else Run(hash, Step(hash, t, events[0]), events[1..])
  }

  /** A settled lock never changes again, whatever is called in whatever order. */
  lemma {:induction false} SettledForGood(hash: Poseidon, t: Table, events: seq<Event>, id: string)
    requires id in t && t[id].status != Pending
    ensures id in Run(hash, t, events) && Run(hash, t, events)[id] == t[id]
    decreases |events|
  {
    hide Lower, WellFormedPreimage;
    if events != [] {
      SettledForGood(hash, Step(hash, t, events[0]), events[1..], id);
    }
  }

  /** The call that settles a pending lock. */
  ghost predicate SettledBy(hash: Poseidon, h: Htlc, id: string, e: Event, status: Status) {
    match e
    case ClaimCall(i, preimage, refused) => i == id && !refused && status == Claimed && Opens(hash, h, preimage)
    case RefundCall(i, sender, now, refused) =>
      i == id && !refused && status == Refunded && Lower(sender) == Lower(h.sender) && now >= h.timelock
    case CreateCall(_, _, _, _, _, _, _) => false
  }

  /** A pending lock ends pending, or exactly one call settled it: a claim with a matching preimage, or a
      refund asked by its sender at or after the timelock; only its status differs. */
  lemma {:induction false} HowItSettled(hash: Poseidon, t: Table, events: seq<Event>, id: string) returns (k: nat)
    requires id in t && t[id].status == Pending
    ensures id in Run(hash, t, events)
    ensures var h := Run(hash, t, events)[id];
            && h == t[id].(status := h.status)
            && (h.status != Pending ==>
                  && k < |events| && SettledBy(hash, t[id], id, events[k], h.status)
                  && id in Run(hash, t, events[..k]) && Run(hash, t, events[..k])[id] == t[id])
    decreases |events|
  {
    hide Lower, WellFormedPreimage;
    k := 0;
    if events != [] {
      var next := Step(hash, t, events[0]);
      assert id in next && next[id] == t[id].(status := next[id].status);
      if next[id].status == Pending {
        var j := HowItSettled(hash, next, events[1..], id);
        k := j + 1;
        if j < |events| - 1 {
          assert events[..k][1..] == events[1..][..j];
        }
      } else {
        SettledForGood(hash, next, events[1..], id);
        assert events[..0] == [];
      }
    }
  }

  /** The row is the one that the call created, under the hash of the call's preimage, but for its status. */
  predicate CreatedBy(hash: Poseidon, h: Htlc, id: string, e: Event) {
    match e
    case CreateCall(i, sender, receiver, amount, preimage, timelock, now) =>
      i == id && h == Htlc(sender, receiver, amount, hash(preimage), timelock, h.status, now)
    case ClaimCall(_, _, _) => false
    case RefundCall(_, _, _, _) => false
  }

  /** From the empty table, every lock has its whole history: call k created it when there was none, and unless it is
      still pending, the later call j found it pending and settled it. */
  lemma EveryLockHasItsHistory(hash: Poseidon, events: seq<Event>, id: string) returns (k: nat, j: nat)
    requires id in Run(hash, map[], events)
    ensures var h := Run(hash, map[], events)[id];
            && k < |events| && CreatedBy(hash, h, id, events[k]) && id !in Run(hash, map[], events[..k])
            && (h.status != Pending ==>
                  && k < j < |events| && SettledBy(hash, h, id, events[j], h.status)
                  && id in Run(hash, map[], events[..j])
                  && Run(hash, map[], events[..j])[id] == h.(status := Pending))
  {
    k, j := HistoryOf(hash, map[], events, id);
  }

  lemma {:induction false} HistoryOf(hash: Poseidon, t: Table, events: seq<Event>, id: string)
    returns (k: nat, j: nat)
    requires id !in t && id in Run(hash, t, events)
    ensures var h := Run(hash, t, events)[id];
            && k < |events| && CreatedBy(hash, h, id, events[k]) && id !in Run(hash, t, events[..k])
            && (h.status != Pending ==>
                  && k < j < |events| && SettledBy(hash, h, id, events[j], h.status)
                  && id in Run(hash, t, events[..j])
                  && Run(hash, t, events[..j])[id] == h.(status := Pending))
    decreases |events|
  {
    hide Run, Step, SettledBy, CreatedBy;
    RunSplit(hash, t, events);
    var next := Step(hash, t, events[0]);
    if id in next {
      CreatedHere(hash, t, events[0], id);
      var i := HowItSettled(hash, next, events[1..], id);
      StatusAside(hash, next[id], Run(hash, t, events)[id].status, id, events[0]);
      if i < |events| - 1 {
        StatusAside(hash, next[id], Run(hash, t, events)[id].status, id, events[i + 1]);
      }
      k, j := 0, i + 1;
      RunPrefix(hash, t, events, j);
    } else {
      var k', j' := HistoryOf(hash, next, events[1..], id);
      k, j := k' + 1, j' + 1;
      RunPrefix(hash, t, events, k);
      RunPrefix(hash, t, events, j);
    }
  }

  lemma CreatedHere(hash: Poseidon, t: Table, e: Event, id: string)
    requires id !in t && id in Step(hash, t, e)
    ensures CreatedBy(hash, Step(hash, t, e)[id], id, e) && Step(hash, t, e)[id].status == Pending
  {
    hide Lower, WellFormedPreimage;
  }

  lemma StatusAside(hash: Poseidon, h: Htlc, status: Status, id: string, e: Event)
    ensures CreatedBy(hash, h.(status := status), id, e) <==> CreatedBy(hash, h, id, e)
    ensures SettledBy(hash, h.(status := status), id, e, status) <==> SettledBy(hash, h, id, e, status)
  {
    hide Lower, WellFormedPreimage;
  }

  lemma RunSplit(hash: Poseidon, t: Table, events: seq<Event>)
    ensures events == [] ==> Run(hash, t, events) == t
    ensures events != [] ==> Run(hash, t, events) == Run(hash, Step(hash, t, events[0]), events[1..])
    ensures Run(hash, t, events[..0]) == t
  {
  }

  lemma RunPrefix(hash: Poseidon, t: Table, events: seq<Event>, n: nat)
    requires n > 0
    ensures n <= |events| ==> Run(hash, t, events[..n]) == Run(hash, Step(hash, t, events[0]), events[1..][..n - 1])
  {
    if n <= |events| {
      assert events[..n][1..] == events[1..][..n - 1];
    }
  }

  lemma {:induction false} RunLast(hash: Poseidon, t: Table, events: seq<Event>, e: Event)
    ensures Run(hash, t, events + [e]) == Step(hash, Run(hash, t, events), e)
    decreases |events|
  {
    hide Step;
    if events == [] {
      assert [] + [e] == [e] && [e][1..] == [];
      assert Run(hash, Step(hash, t, e), []) == Step(hash, t, e);
    } else {
      assert (events + [e])[1..] == events[1..] + [e];
      RunLast(hash, Step(hash, t, events[0]), events[1..], e);
    }
  }

  /** After any calls, a lock that is still pending can be claimed with the preimage of the call that created it, if
      that is decimal, or hex after 0x. */
  lemma CreatorsPreimageClaims(hash: Poseidon, events: seq<Event>, id: string) returns (k: nat)
    requires id in Run(hash, map[], events) && Run(hash, map[], events)[id].status == Pending
    ensures k < |events| && events[k].CreateCall? && events[k].id == id && id !in Run(hash, map[], events[..k])
    ensures PreimageText(events[k].preimage) ==>
              var after := Run(hash, map[], events + [ClaimCall(id, events[k].preimage, false)]);
              id in after && after[id] == Run(hash, map[], events)[id].(status := Claimed)
  {
    hide Run, Claim, PreimageText, SameUpToCase;
    var j: nat;
    k, j := EveryLockHasItsHistory(hash, events, id);
    var t, preimage := Run(hash, map[], events), events[k].preimage;
    RunLast(hash, map[], events, ClaimCall(id, preimage, false));
    ClaimMeans(hash, t, id, preimage);
    SameAsItself(hash(preimage));
  }

  lemma SameAsItself(s: string)
    ensures SameUpToCase(s, s)
  {
  }
}
