/**
  * The in-memory lock manager: a lock and a thirty-second safety timer for every key. An operation
  * runs between acquiring and releasing; a timer that fires first releases the key under it.
  */
module Locks {
  /** `live` holds the timers that have been set and neither fired nor been cleared, with their keys. */
  datatype State = State(locks: map<string, bool>, timeouts: map<string, nat>, live: map<nat, string>, next: nat)

  const EMPTY := State(map[], map[], map[], 0)

  predicate IsLocked(s: State, key: string) {
    key in s.locks && s.locks[key]
  }

  function Acquire(s: State, key: string): State {
    State(s.locks[key := true], s.timeouts[key := s.next], s.live[s.next := key], s.next + 1)
  }

  function Release(s: State, key: string): State {
    var unlocked := s.(locks := s.locks - {key});
    if key in s.timeouts
    then unlocked.(timeouts := s.timeouts - {key}, live := s.live - {s.timeouts[key]})
    else unlocked
  }

  /** The callback of a timer. */
  function Fire(s: State, timer: nat): State {
    if timer !in s.live then s
    else
      var key := s.live[timer];
      var fired := s.(live := s.live - {timer});
      if key in s.locks then Release(fired, key) else fired
  }

  class LockManager {
    var locks: map<string, bool>
    var timeouts: map<string, nat>
    var live: map<nat, string>
    var next: nat

    constructor ()
      ensures S() == EMPTY
    {
      locks, timeouts, live, next := map[], map[], map[], 0;
    }

    ghost function S(): State
      reads this
    {
      State(locks, timeouts, live, next)
    }

    /** The part of withLock before the operation: it throws if the key is held. */
    method Begin(key: string) returns (acquired: bool)
      modifies this
      ensures acquired == !IsLocked(old(S()), key)
      ensures S() == if acquired then Acquire(old(S()), key) else old(S())
    {
      if key in locks && locks[key] {
        return false;
      }
      locks := locks[key := true];
      var timeout := next;
      live := live[timeout := key];
      next := next + 1;
      timeouts := timeouts[key := timeout];
      return true;
    }

    method ReleaseLock(key: string)
      modifies this
      ensures S() == Release(old(S()), key)
    {
      locks := locks - {key};
      if key in timeouts {
        live := live - {timeouts[key]};
        timeouts := timeouts - {key};
      }
    }

    method TimerFires(timer: nat)
      requires timer in live
      modifies this
      ensures S() == Fire(old(S()), timer)
    {
      var key := live[timer];
      live := live - {timer};
      if key in locks {
        ReleaseLock(key);
      }
    }
  }

  // ---------------------------------------------------------------- locks, timers and running operations

  datatype Hold = Hold(key: string, timer: nat)
  datatype System = System(s: State, running: map<nat, Hold>)
  datatype Event = Begin(op: nat, key: string) | End(op: nat) | Timer(timer: nat)

  /** A refused operation throws and never runs; the release at the end is by key. */
  function Step(y: System, e: Event): System {
    match e
    case Begin(op, key) =>
      if op in y.running || IsLocked(y.s, key) then y
      else System(Acquire(y.s, key), y.running[op := Hold(key, y.s.next)])
    case End(op) =>
      if op !in y.running then y else System(Release(y.s, y.running[op].key), y.running - {op})
    case Timer(timer) => y.(s := Fire(y.s, timer))
  }

  function Run(y: System, events: seq<Event>): System
    decreases |events|
  {
    if events == [] then y else Run(Step(y, events[0]), events[1..])
  }

  const START := System(EMPTY, map[])

  /** Locks and timers cover the same keys, and the live timers are exactly the recorded ones. */
  ghost predicate Coherent(s: State) {
    && s.locks.Keys == s.timeouts.Keys
    && (forall key :: key in s.locks ==> s.locks[key])
    && (forall key :: key in s.timeouts ==> s.timeouts[key] in s.live && s.live[s.timeouts[key]] == key)
    && (forall timer :: timer in s.live ==>
          timer < s.next && s.live[timer] in s.timeouts && s.timeouts[s.live[timer]] == timer)
  }

  lemma StepKeepsCoherent(y: System, e: Event)
    requires Coherent(y.s)
    ensures Coherent(Step(y, e).s)
  {
  }

  /** An operation that nothing interrupts leaves no lock and no timer behind. */
  lemma AcquireRelease(s: State, key: string)
    requires Coherent(s) && !IsLocked(s, key)
    ensures Release(Acquire(s, key), key) == s.(next := s.next + 1)
    ensures Coherent(Release(Acquire(s, key), key))
  {
    assert s.locks[key := true] - {key} == s.locks;
    assert s.timeouts[key := s.next] - {key} == s.timeouts;
    assert s.live[s.next := key] - {s.next} == s.live;
  }

  /** In every reachable state, whatever fires when. */
  lemma {:induction false} AlwaysCoherent(y: System, events: seq<Event>)
    requires Coherent(y.s)
    ensures Coherent(Run(y, events).s)
    decreases |events|
  {
    if events != [] {
      StepKeepsCoherent(y, events[0]);
      AlwaysCoherent(Step(y, events[0]), events[1..]);
    }
  }

  /** A timer does not fire while the operation that set it runs. */
  predicate Timely(y: System, e: Event) {
    e.Timer? ==> forall op :: op in y.running ==> y.running[op].timer != e.timer
  }

  ghost predicate TimelyRun(y: System, events: seq<Event>)
    decreases |events|
  {
    events == [] || (Timely(y, events[0]) && TimelyRun(Step(y, events[0]), events[1..]))
  }

  /** Every running operation is recorded under its key with its own timer. */
  ghost predicate Recorded(y: System) {
    forall op :: op in y.running ==>
      y.running[op].key in y.s.timeouts && y.s.timeouts[y.running[op].key] == y.running[op].timer
  }

  /** Every recorded timer is that of a running operation. */
  ghost predicate Claimed(y: System) {
    forall key :: key in y.s.timeouts ==> exists op :: Holds(y, op, key)
  }

  ghost predicate Holds(y: System, op: nat, key: string)
    requires key in y.s.timeouts
  {
    op in y.running && y.running[op] == Hold(key, y.s.timeouts[key])
  }

  ghost predicate Owned(y: System) {
    Coherent(y.s) && Recorded(y) && Claimed(y) && Exclusive(y)
  }

  ghost predicate Exclusive(y: System) {
    forall a, b :: a in y.running && b in y.running && a != b ==> y.running[a].key != y.running[b].key
  }

  /** Releasing at the end of an operation frees its own acquisition and no other. */
  lemma EndFreesItsOwn(y: System, op: nat)
    requires Owned(y) && op in y.running
    ensures var h, t := y.running[op], Step(y, End(op));
            && y.s.timeouts[h.key] == h.timer
            && t.s.locks == y.s.locks - {h.key}
            && t.s.timeouts == y.s.timeouts - {h.key}
            && t.s.live == y.s.live - {h.timer}
            && forall other :: other in t.running ==> IsLocked(t.s, t.running[other].key)
  {
  }

  lemma BeginKeepsOwned(y: System, op: nat, key: string)
    requires Owned(y)
    ensures Owned(Step(y, Begin(op, key)))
  {
    var t := Step(y, Begin(op, key));
    StepKeepsCoherent(y, Begin(op, key));
    if t != y {
      assert key !in y.s.timeouts;
      assert t.running == y.running[op := Hold(key, y.s.next)] && t.s.timeouts == y.s.timeouts[key := y.s.next];
      hide Coherent, Acquire, Step;
      ClaimedAfterBegin(y, t, op, key);
      RecordedAfterBegin(y, t, op, key);
      hide Claimed, Recorded, Exclusive;
    }
  }

  lemma ClaimedAfterBegin(y: System, t: System, op: nat, key: string)
    requires Claimed(y) && op !in y.running && key !in y.s.timeouts
    requires t.running == y.running[op := Hold(key, y.s.next)] && t.s.timeouts == y.s.timeouts[key := y.s.next]
    ensures Claimed(t)
  {
    forall k | k in t.s.timeouts
      ensures exists o :: Holds(t, o, k)
    {
      if k == key {
        assert Holds(t, op, k);
      } else {
        var o :| Holds(y, o, k);
        assert Holds(t, o, k);
      }
    }
  }

  lemma RecordedAfterBegin(y: System, t: System, op: nat, key: string)
    requires Recorded(y) && Exclusive(y) && op !in y.running && key !in y.s.timeouts
    requires t.running == y.running[op := Hold(key, y.s.next)] && t.s.timeouts == y.s.timeouts[key := y.s.next]
    ensures Recorded(t) && Exclusive(t)
  {
  }

  lemma EndKeepsOwned(y: System, op: nat)
    requires Owned(y)
    ensures Owned(Step(y, End(op)))
  {
    var t := Step(y, End(op));
    StepKeepsCoherent(y, End(op));
    if op in y.running {
      var key := y.running[op].key;
      assert t.running == y.running - {op} && t.s.timeouts == y.s.timeouts - {key};
      hide Coherent, Release, Step;
      ClaimedAfterEnd(y, t, op, key);
      RecordedAfterEnd(y, t, op, key);
      hide Claimed, Recorded, Exclusive;
    }
  }

  lemma ClaimedAfterEnd(y: System, t: System, op: nat, key: string)
    requires Claimed(y) && op in y.running && y.running[op].key == key
    requires t.running == y.running - {op} && t.s.timeouts == y.s.timeouts - {key}
    ensures Claimed(t)
  {
    forall k | k in t.s.timeouts
      ensures exists o :: Holds(t, o, k)
    {
      var o :| Holds(y, o, k);
      assert Holds(t, o, k);
    }
  }

  lemma RecordedAfterEnd(y: System, t: System, op: nat, key: string)
    requires Recorded(y) && Exclusive(y) && op in y.running && y.running[op].key == key
    requires t.running == y.running - {op} && t.s.timeouts == y.s.timeouts - {key}
    ensures Recorded(t) && Exclusive(t)
  {
  }

  /** In an owned state every live timer is that of a running operation. */
  lemma LiveTimersAreNotTimely(y: System, timer: nat)
    requires Owned(y) && timer in y.s.live
    ensures !Timely(y, Timer(timer))
  {
    var key := y.s.live[timer];
    var o :| Holds(y, o, key);
    assert y.running[o].timer == timer;
  }

  lemma StepKeepsOwned(y: System, e: Event)
    requires Owned(y) && Timely(y, e)
    ensures Owned(Step(y, e))
  {
    hide Owned;
    match e
    case Begin(op, key) => BeginKeepsOwned(y, op, key);
    case End(op) => EndKeepsOwned(y, op);
    case Timer(timer) =>
      if timer in y.s.live {
        LiveTimersAreNotTimely(y, timer);
      }
  }

  /** Mutual exclusion in every run in which operations end before their timers fire. */
  lemma {:induction false} TimelyRunsExclude(y: System, events: seq<Event>)
    requires Owned(y) && TimelyRun(y, events)
    ensures Owned(Run(y, events)) && Exclusive(Run(y, events))
    decreases |events|
  {
    if events != [] {
      StepKeepsOwned(y, events[0]);
      TimelyRunsExclude(Step(y, events[0]), events[1..]);
    }
  }

  /** From the empty lock manager: as long as operations end before their timers fire, no two of them hold one key. */
  lemma TimelyRunsFromStartExclude(events: seq<Event>)
    requires TimelyRun(START, events)
    ensures Exclusive(Run(START, events))
  {
    NothingHeldAtStart();
    TimelyRunsExclude(START, events);
  }

  lemma NothingHeldAtStart()
    ensures Owned(START)
  {
  }

  /** The key of an operation whose timer has fired can be acquired beside it. */
  lemma FiredUnderIt(y: System, op: nat, other: nat)
    requires Owned(y) && op in y.running && other !in y.running
    ensures var h := y.running[op];
            var u := Step(Step(y, Timer(h.timer)), Begin(other, h.key));
            op in u.running && u.running[op] == h && other in u.running && u.running[other].key == h.key
  {
    hide Claimed, Exclusive;
  }

  /** And only then: exclusion survives the next acquisition exactly when the timer that fired was not
      that of a running operation. */
  lemma ExclusionIffTimely(y: System, timer: nat)
    requires Owned(y)
    ensures (forall op, key :: Exclusive(Step(Step(y, Timer(timer)), Begin(op, key)))) <==> Timely(y, Timer(timer))
  {
    var t := Step(y, Timer(timer));
    if Timely(y, Timer(timer)) {
      StepKeepsOwned(y, Timer(timer));
      forall op, key
        ensures Exclusive(Step(t, Begin(op, key)))
      {
        StepKeepsOwned(t, Begin(op, key));
      }
    } else {
      var o :| o in y.running && y.running[o].timer == timer;
      var key := y.running[o].key;
      var other := FreshOp(y.running);
      var u := Step(t, Begin(other, key));
      FiredUnderIt(y, o, other);
      assert !Exclusive(u);
    }
  }

  /** An operation that is not running. */
  lemma FreshOp(running: map<nat, Hold>) returns (op: nat)
    ensures op !in running
  {
    op := UpperBound(running.Keys);
  }

  lemma {:induction false} UpperBound(ops: set<nat>) returns (bound: nat)
    ensures forall op :: op in ops ==> op < bound
  {
    bound := 0;
    if ops != {} {
      var op :| op in ops;
      var rest := UpperBound(ops - {op});
      bound := if op < rest then rest else op + 1;
      assert forall o :: o in ops ==> o == op || o in ops - {op};
    }
  }
}
