/**
  * The header relay: cycles that bring headers from the persisted cursor up to the tip. The cursor
  * is decimal text in a key-value table. A cycle is started every thirty seconds, also while an
  * earlier one is still waiting, so the protocol allows any number of them at once.
  */
module HeaderRelay {
  import opened Wrappers
  import opened Bytes
  import BlockHeader
  import Decimal
  import Hex

  const KEY: string := "header_relay_last_height"
  const BATCH: nat := 10

  // ---------------------------------------------------------------- one cycle at a time

  /** What a cycle meets outside: the trimmed header of each height, if it can be fetched, and whether the header
      store accepts a height. */
  datatype World = World(headers: int -> Option<string>, accepts: int -> bool)

  /** The root words that are stored for height h; None if anything fails. */
  function Post(w: World, h: int): Option<Words> {
    match w.headers(h)
    case None => None
    case Some(headerHex) =>
      match BlockHeader.HeaderWords(headerHex)
      case Err(_) => None
      case Ok(words) => if w.accepts(h) then Some(words) else None
  }

  /** What is stored from height h on, up to the first height that fails. */
  function Posted(w: World, h: int, end: int): seq<(int, Words)>
    decreases end - h
  {
    if h > end || Post(w, h).None? then [] else [(h, Post(w, h).value)] + Posted(w, h + 1, end)
  }

  /** Height h can be relayed: its header can be fetched, is 160 characters long, its characters 72 to 136 decode to 32
      bytes, and the header store accepts the height. */
  predicate CanRelay(w: World, h: int) {
    && w.headers(h).Some? && |w.headers(h).value| == 160
    && |Hex.Decode(w.headers(h).value[72..136])| == 32
    && w.accepts(h)
  }

  /** It can, and these are the words of those bytes. */
  predicate Relayable(w: World, h: int, words: Words) {
    CanRelay(w, h) && words == ToWords(Hex.Decode(w.headers(h).value[72..136]))
  }

  lemma PostMeans(w: World, h: int)
    ensures Post(w, h).Some? <==> CanRelay(w, h)
    ensures Post(w, h).Some? ==> Relayable(w, h, Post(w, h).value)
  {
    hide Hex.Decode;
  }

  /** Consecutive heights with their words are stored, each of them relayable, and the first height that is not stored
      is past the end or cannot be relayed. */
  ghost predicate StoredFrom(w: World, h: int, end: int, p: seq<(int, Words)>) {
    && h + |p| <= end + 1
    && (forall k :: 0 <= k < |p| ==> p[k].0 == h + k && Relayable(w, h + k, p[k].1))
    && (h + |p| <= end ==> !CanRelay(w, h + |p|))
  }

  lemma PostedUpToFirstFailure(w: World, h: int, end: int)
    requires h <= end + 1
    ensures StoredFrom(w, h, end, Posted(w, h, end))
  {
    hide Post, Relayable, CanRelay, Posted;
    PostedFirst(w, h, end);
    var p := Posted(w, h, end);
    forall k | 0 <= k < |p|
      ensures p[k].0 == h + k && Relayable(w, h + k, p[k].1)
    {
      assert p[k].0 == h + k && Post(w, h + k) == Some(p[k].1);
      PostMeans(w, h + k);
    }
    PostMeans(w, h + |p|);
  }

  lemma {:induction false} PostedFirst(w: World, h: int, end: int)
    requires h <= end + 1
    ensures var p := Posted(w, h, end);
            && h + |p| <= end + 1
            && (forall k :: 0 <= k < |p| ==> Post(w, h + k) == Some(p[k].1) && p[k].0 == h + k)
            && (h + |p| <= end ==> Post(w, h + |p|).None?)
    decreases end - h
  {
    hide Post;
    if h <= end && Post(w, h).Some? {
      PostedFirst(w, h + 1, end);
      var p := Posted(w, h, end);
      forall k | 0 < k < |p|
        ensures Post(w, h + k) == Some(p[k].1) && p[k].0 == h + k
      {
        assert p[k] == Posted(w, h + 1, end)[k - 1];
        assert Post(w, h + 1 + (k - 1)) == Some(p[k].1);
      }
    }
  }

  lemma PostedAt(w: World, start: int, end: int, h: int)
    requires start <= h <= end && h - start <= |Posted(w, start, end)|
    ensures h - start < |Posted(w, start, end)| <==> Post(w, h).Some?
    ensures Post(w, h).Some? ==> Posted(w, start, end)[h - start] == (h, Post(w, h).value)
  {
    hide Post, Posted;
    PostedFirst(w, start, end);
    var p, k := Posted(w, start, end), h - start;
    assert Post(w, start + k) == Post(w, h);
    if k < |p| {
      assert p[k].0 == start + k && Post(w, h) == Some(p[k].1);
      assert p[k] == (p[k].0, p[k].1);
    } else {
      assert Post(w, start + |p|).None?;
    }
  }

  lemma {:induction false} PostedConcat(w: World, from: int, mid: int, end: int)
    requires from - 1 <= mid <= end
    requires forall h :: from <= h <= mid ==> Post(w, h).Some?
    ensures Posted(w, from, mid) + Posted(w, mid + 1, end) == Posted(w, from, end)
    decreases mid - from
  {
    hide Post;
    if from <= mid {
      var head := [(from, Post(w, from).value)];
      PostedConcat(w, from + 1, mid, end);
      assert Posted(w, from, mid) == head + Posted(w, from + 1, mid);
      assert Posted(w, from, end) == head + Posted(w, from + 1, end);
      hide Posted;
      assert head + Posted(w, from + 1, mid) + Posted(w, mid + 1, end)
          == head + (Posted(w, from + 1, mid) + Posted(w, mid + 1, end));
    } else {
      assert Posted(w, from, mid) == [];
    }
  }

  /** The stored cursor as a number: -1 without one, None for a text that is not a number. */
  function CursorIn(kv: map<string, string>): Option<int> {
    if KEY in kv then Decimal.ParseInt(kv[KEY]) else Some(-1)
  }

  function StartHeight(cursor: int, tip: int): int {
    if cursor == -1 then tip else cursor + 1
  }

  function EndHeight(start: int, tip: int): (end: int)
    ensures start <= tip ==> start <= end <= tip
  {
    Min(start + BATCH - 1, tip)
  }

  lemma NothingPosted(w: World, h: int)
    ensures Posted(w, h, h - 1) == []
  {
  }

  /** What a cycle does, from a cursor that is a number: -1 stands for none. */
  ghost predicate CycleStores(cursor: int, tip: int, w: World, before: seq<(int, Words)>, after: seq<(int, Words)>,
                              reached: Option<int>) {
    var start := if cursor == -1 then tip else cursor + 1;
    var end := if start + 9 < tip then start + 9 else tip;
    && before <= after
    && (if start > tip then after == before else StoredFrom(w, start, end, after[|before|..]))
    && reached == Some(if |after| == |before| then cursor else start + (|after| - |before|) - 1)
  }

  lemma CycleMeans(cursor: int, tip: int, w: World, before: seq<(int, Words)>)
    ensures var start := StartHeight(cursor, tip);
            var sent := Posted(w, start, EndHeight(start, tip));
            CycleStores(cursor, tip, w, before, before + sent,
                        Some(if sent == [] then cursor else sent[|sent| - 1].0))
  {
    hide Relayable, CanRelay, Post;
    var start := StartHeight(cursor, tip);
    var sent := Posted(w, start, EndHeight(start, tip));
    assert (before + sent)[|before|..] == sent;
    if start <= tip {
      PostedUpToFirstFailure(w, start, EndHeight(start, tip));
      hide Posted;
      if sent != [] {
        assert sent[|sent| - 1].0 == start + (|sent| - 1);
      }
    }
  }

  lemma NothingAbove(w: World, start: int, tip: int)
    requires start > tip
    ensures Posted(w, start, EndHeight(start, tip)) == []
  {
  }

  class HeaderRelay {
    var kv: map<string, string>
    /** Heights and root words the header store accepted, in order. */
    ghost var posts: seq<(int, Words)>

    constructor ()
      ensures kv == map[] && posts == []
    {
      kv := map[];
      posts := [];
    }

    method GetLastRelayedHeight() returns (h: Option<int>)
      ensures h == CursorIn(kv)
      ensures h == if "header_relay_last_height" in kv then Decimal.ParseInt(kv["header_relay_last_height"])
                   else Some(-1)
    {
      if KEY !in kv {
        return Some(-1);
      }
      return Decimal.ParseInt(kv[KEY]);
    }

    method SetLastRelayedHeight(height: int)
      modifies this`kv
      ensures CursorIn(kv) == Some(height)
      ensures kv == old(kv)["header_relay_last_height" := Decimal.ToString(height)]
    {
      Decimal.PrintParse(height);
      kv := kv[KEY := Decimal.ToString(height)];
    }

    /** Fetch, cut, pack and store one header: it is stored if and only if it can be, and then with its words. */
    method RelayHeader(h: int, w: World) returns (relayed: bool)
      modifies this`posts
      ensures relayed == Post(w, h).Some?
      ensures posts == if relayed then old(posts) + [(h, Post(w, h).value)] else old(posts)
      ensures relayed == CanRelay(w, h)
      ensures relayed ==> |posts| == |old(posts)| + 1 && Relayable(w, h, posts[|old(posts)|].1)
    {
      PostMeans(w, h);
      var headerHex := w.headers(h);
      if headerHex.None? {
        return false;
      }
      var merkleRoot := BlockHeader.ParseMerkleRootFromHeader(headerHex.value);
      if merkleRoot.Err? {
        return false;
      }
      var words := BlockHeader.MerkleRootToU32Array(merkleRoot.value);
      if words.Err? || !w.accepts(h) {
        return false;
      }
      posts := posts + [(h, words.value)];
      return true;
    }

    /** One cycle; `tip` is None when the tip cannot be fetched or is not a number. It starts above the cursor, or at
        the tip if there is none, and stores at most ten headers in order, up to the first that cannot be relayed;
        the cursor is the last height stored. Without a tip, or from a cursor that is not a number, nothing is
        relayed. */
    method RelayCycle(tip: Option<int>, w: World)
      modifies this
      ensures tip.None? || old(CursorIn(kv)).None? ==> kv == old(kv) && posts == old(posts)
      ensures tip.Some? && old(CursorIn(kv)).Some? ==>
                var start := StartHeight(old(CursorIn(kv)).value, tip.value);
                var sent := Posted(w, start, EndHeight(start, tip.value));
                && posts == old(posts) + sent
                && CursorIn(kv) == if sent == [] then old(CursorIn(kv)) else Some(sent[|sent| - 1].0)
      ensures tip.Some? && old(CursorIn(kv)).Some? ==>
                CycleStores(old(CursorIn(kv)).value, tip.value, w, old(posts), posts, CursorIn(kv))
    {
      hide CursorIn, Post, StartHeight, EndHeight, CycleStores, Posted, Decimal.ParseInt;
      if tip.None? {
        return;
      }
      var lastRelayed := GetLastRelayedHeight();
      if lastRelayed.None? {
        return;
      }
      var startHeight := StartHeight(lastRelayed.value, tip.value);
      var endHeight := EndHeight(startHeight, tip.value);
      CycleMeans(lastRelayed.value, tip.value, w, posts);
      if startHeight > tip.value {
        NothingAbove(w, startHeight, tip.value);
        assert posts + [] == posts;
        return;
      }
      RelayHeights(startHeight, endHeight, w);
    }

    /** The loop of a cycle. */
    method RelayHeights(startHeight: int, endHeight: int, w: World)
      requires startHeight <= endHeight + 1
      modifies this
      ensures var sent := Posted(w, startHeight, endHeight);
              && posts == old(posts) + sent
              && CursorIn(kv) == if sent == [] then old(CursorIn(kv)) else Some(sent[|sent| - 1].0)
    {
      hide CursorIn, Post, CanRelay, Relayable, Decimal.ToString;
      ghost var sent := Posted(w, startHeight, endHeight);
      PostedFirst(w, startHeight, endHeight);
      hide Posted;
      var h := startHeight;
      while h <= endHeight
        invariant 0 <= h - startHeight <= |sent|
        invariant posts == old(posts) + sent[..h - startHeight]
        invariant CursorIn(kv) == if h == startHeight then old(CursorIn(kv)) else Some(h - 1)
      {
        PostedAt(w, startHeight, endHeight, h);
        var relayed := RelayHeader(h, w);
        if !relayed {
          break;
        }
        assert sent[..h + 1 - startHeight] == sent[..h - startHeight] + [sent[h - startHeight]];
        SetLastRelayedHeight(h);
        h := h + 1;
      }
      assert sent[..|sent|] == sent;
      if sent != [] {
        PostedAt(w, startHeight, endHeight, h - 1);
      }
    }

    /** A cycle in which nothing fails. */
    method FullCycle(tip: nat, w: World, before: int) returns (cursor: int)
      requires CursorIn(kv) == Some(before) && 0 <= before < tip
      requires forall h :: before < h <= tip ==> Post(w, h).Some?
      modifies this
      ensures CursorIn(kv) == Some(cursor) && cursor == before + Min(10, tip - before)
      ensures posts == old(posts) + Posted(w, before + 1, cursor)
    {
      hide CursorIn, Post, CycleStores, Decimal.ParseInt;
      PostedFirst(w, before + 1, EndHeight(before + 1, tip));
      RelayCycle(Some(tip), w);
      var after := GetLastRelayedHeight();
      return after.value;
    }

    /** With a fixed tip and no failures, ceil((T - c) / 10) cycles store exactly the missing headers, in order
        and once each, and bring the cursor to the tip. */
    method CatchUp(tip: nat, w: World) returns (cycles: nat)
      requires CursorIn(kv).Some? && 0 <= CursorIn(kv).value <= tip
      requires forall h :: CursorIn(kv).value < h <= tip ==> Post(w, h).Some?
      modifies this
      ensures CursorIn(kv) == Some(tip)
      ensures posts == old(posts) + Posted(w, old(CursorIn(kv)).value + 1, tip)
      ensures cycles == (tip - old(CursorIn(kv)).value + 9) / 10
    {
      hide CursorIn, Post, Posted, CycleStores, Decimal.ParseInt;
      cycles := 0;
      var lastRelayed := GetLastRelayedHeight();
      var cursor := lastRelayed.value;
      ghost var c0 := cursor;
      NothingPosted(w, c0 + 1);
      while cursor < tip
        invariant c0 <= cursor <= tip && CursorIn(kv) == Some(cursor)
        invariant posts == old(posts) + Posted(w, c0 + 1, cursor)
        invariant cursor == Min(c0 + 10 * cycles, tip)
        invariant cycles > 0 ==> c0 + 10 * (cycles - 1) < tip
      {
        ghost var before := cursor;
        cursor := FullCycle(tip, w, cursor);
        PostedConcat(w, c0 + 1, before, cursor);
        cycles := cycles + 1;
      }
    }
  }

  // ---------------------------------------------------------------- overlapping cycles

  /** Where a running cycle stands with height `next`: not yet stored, or stored but not yet in the cursor,
      or recorded and pausing. */
  datatype Stage = Fetching | Stored | Pausing
  datatype Cycle = Cycle(next: int, end: int, stage: Stage)

  /** The cursor as it is read, the root words in the header store, and the running cycles. */
  datatype Relay = Relay(cursor: Option<int>, stored: map<int, Words>, cycles: map<nat, Cycle>)

  datatype Event =
    | Begin(cycle: nat, tip: Option<int>)      // the tip arrives and the cursor is read
    | Store(cycle: nat, headerHex: string)     // this header has been fetched; its words are stored
    | Record(cycle: nat)                       // the cursor is written
    | Advance(cycle: nat)                      // the pause ends
    | Fail(cycle: nat)                         // any error: the cycle stops where it is

  function Step(s: Relay, e: Event): Relay {
    match e
    case Begin(c, tip) =>
      if c in s.cycles || tip.None? || s.cursor.None? then s
      else
        var start := StartHeight(s.cursor.value, tip.value);
        if start > tip.value then s
        else s.(cycles := s.cycles[c := Cycle(start, EndHeight(start, tip.value), Fetching)])
    case Store(c, headerHex) =>
      if c in s.cycles && s.cycles[c].stage == Fetching then
        match BlockHeader.HeaderWords(headerHex)
        case Err(_) => s.(cycles := s.cycles - {c})
        case Ok(words) =>
          s.(stored := s.stored[s.cycles[c].next := words], cycles := s.cycles[c := s.cycles[c].(stage := Stored)])
      else s
    case Record(c) =>
      if c in s.cycles && s.cycles[c].stage == Stored then
        s.(cursor := Some(s.cycles[c].next), cycles := s.cycles[c := s.cycles[c].(stage := Pausing)])
      else s
    case Advance(c) =>
      if c in s.cycles && s.cycles[c].stage == Pausing then
        var k := s.cycles[c];
        if k.next < k.end then s.(cycles := s.cycles[c := Cycle(k.next + 1, k.end, Fetching)])
        else s.(cycles := s.cycles - {c})
      else s
    case Fail(c) => s.(cycles := s.cycles - {c})
  }

  function Run(s: Relay, events: seq<Event>): Relay
    decreases |events|
  {
    if events == [] then s else Run(Step(s, events[0]), events[1..])
  }

  /** The height below a cycle that starts here without a cursor. */
  function Origin(s: Relay, e: Event): set<int> {
    if e.Begin? && s.cursor == Some(-1) && e.cycle !in s.cycles && e.cycle in Step(s, e).cycles
    then {Step(s, e).cycles[e.cycle].next - 1}
    else {}
  }

  function Origins(s: Relay, events: seq<Event>): set<int>
    decreases |events|
  {
    if events == [] then {} else Origin(s, events[0]) + Origins(Step(s, events[0]), events[1..])
  }

  ghost predicate AllStored(s: Relay, c0: int, h: int) {
    c0 <= h && forall k :: c0 < k <= h ==> k in s.stored
  }

  /** From one of the origins up to h every header has been stored. */
  ghost predicate Filled(s: Relay, origins: set<int>, h: int) {
    exists c0 :: c0 in origins && AllStored(s, c0, h)
  }

  ghost predicate NoGaps(s: Relay, origins: set<int>) {
    && (s.cursor.Some? && s.cursor != Some(-1) ==> Filled(s, origins, s.cursor.value))
    && forall c :: c in s.cycles ==> Filled(s, origins, Reached(s.cycles[c]))
  }

  function Reached(k: Cycle): int {
    if k.stage == Fetching then k.next - 1 else k.next
  }

  lemma FilledStays(s: Relay, t: Relay, origins: set<int>, more: set<int>, h: int)
    requires Filled(s, origins, h) && s.stored.Keys <= t.stored.Keys && origins <= more
    ensures Filled(t, more, h)
  {
    var c0 :| c0 in origins && AllStored(s, c0, h);
    assert AllStored(t, c0, h);
  }

  lemma FilledOneMore(s: Relay, t: Relay, origins: set<int>, h: int)
    requires Filled(s, origins, h - 1) && s.stored.Keys <= t.stored.Keys && h in t.stored
    ensures Filled(t, origins, h)
  {
    var c0 :| c0 in origins && AllStored(s, c0, h - 1);
    assert AllStored(t, c0, h);
  }

  lemma StepKeepsStored(s: Relay, e: Event)
    ensures s.stored.Keys <= Step(s, e).stored.Keys
  {
  }

  lemma StepKeepsNoGaps(s: Relay, e: Event, origins: set<int>)
    requires NoGaps(s, origins)
    ensures NoGaps(Step(s, e), origins + Origin(s, e))
  {
    hide Filled, AllStored;
    StepKeepsStored(s, e);
    var t, more := Step(s, e), origins + Origin(s, e);
    forall h | Filled(s, origins, h)
      ensures Filled(t, more, h)
    {
      FilledStays(s, t, origins, more, h);
    }
    forall c | c in t.cycles
      ensures Filled(t, more, Reached(t.cycles[c]))
    {
      if c in s.cycles && t.cycles[c].stage == Stored && s.cycles[c].stage == Fetching {
        FilledOneMore(s, t, origins, t.cycles[c].next);
        FilledStays(t, t, origins, more, t.cycles[c].next);
      } else if c !in s.cycles && s.cursor == Some(-1) {
        FilledAtOrigin(t, more, t.cycles[c].next - 1);
      }
    }
  }

  lemma FilledAtOrigin(s: Relay, origins: set<int>, c0: int)
    requires c0 in origins
    ensures Filled(s, origins, c0)
  {
    assert AllStored(s, c0, c0);
  }

  /** Whatever cycles overlap and fail, no block between an origin and the cursor is skipped, even when a slow cycle
      moves the cursor back. */
  lemma {:induction false} NeverSkipsABlock(s: Relay, events: seq<Event>, origins: set<int>)
    requires NoGaps(s, origins)
    ensures NoGaps(Run(s, events), origins + Origins(s, events))
    decreases |events|
  {
    if events != [] {
      StepKeepsNoGaps(s, events[0], origins);
      NeverSkipsABlock(Step(s, events[0]), events[1..], origins + Origin(s, events[0]));
      assert origins + Origin(s, events[0]) + Origins(Step(s, events[0]), events[1..]) == origins + Origins(s, events);
    } else {
      assert origins + {} == origins;
    }
  }

  /** A header fetched for a height is the header that the chain has there. */
  predicate Genuine(chain: int -> string, s: Relay, e: Event) {
    e.Store? && e.cycle in s.cycles ==> e.headerHex == chain(s.cycles[e.cycle].next)
  }

  ghost predicate GenuineRun(chain: int -> string, s: Relay, events: seq<Event>)
    decreases |events|
  {
    events == [] || (Genuine(chain, s, events[0]) && GenuineRun(chain, Step(s, events[0]), events[1..]))
  }

  /** The header store holds, for every height it knows, the root words cut from the header of that height. */
  ghost predicate StoresRoots(s: Relay, chain: int -> string) {
    forall h :: h in s.stored ==> BlockHeader.HeaderWords(chain(h)) == Ok(s.stored[h])
  }

  lemma {:induction false} KeepsStoringRoots(s: Relay, events: seq<Event>, chain: int -> string)
    requires StoresRoots(s, chain) && GenuineRun(chain, s, events)
    ensures StoresRoots(Run(s, events), chain)
    decreases |events|
  {
    if events != [] {
      hide BlockHeader.HeaderWords;
      KeepsStoringRoots(Step(s, events[0]), events[1..], chain);
    }
  }

  /** A relay that has stored nothing yet. */
  function Fresh(cursor: int): Relay {
    Relay(Some(cursor), map[], map[])
  }

  /** A cursor once set is never below where it started, so no cycle starts at a tip again. */
  lemma {:induction false} NoNewOrigins(s: Relay, events: seq<Event>, c0: nat)
    requires NoGaps(s, {c0}) && s.cursor.Some? && s.cursor != Some(-1)
    ensures Origins(s, events) == {} && Run(s, events).cursor.Some? && Run(s, events).cursor != Some(-1)
    decreases |events|
  {
    hide NoGaps;
    if events != [] {
      StepKeepsNoGaps(s, events[0], {c0});
      assert {c0} + Origin(s, events[0]) == {c0};
      CursorAbove(s, events[0], c0);
      NoNewOrigins(Step(s, events[0]), events[1..], c0);
    }
  }

  lemma CursorAbove(s: Relay, e: Event, c0: nat)
    requires NoGaps(s, {c0}) && s.cursor.Some?
    ensures Step(s, e).cursor.Some?
    ensures s.cursor != Some(-1) ==> Step(s, e).cursor != Some(-1)
  {
    if e.Record? && e.cycle in s.cycles && s.cycles[e.cycle].stage == Stored {
      var o :| o in {c0} && AllStored(s, o, s.cycles[e.cycle].next);
    }
  }

  /** From cursor c0, over any run: every block in (c0, cursor] is in the header store, and if the headers fetched were
      those of one chain, it is there with the root words cut from that chain's header. */
  lemma RelayIsGapFree(c0: nat, events: seq<Event>, chain: int -> string)
    ensures var s := Run(Fresh(c0), events);
            && s.cursor.Some? && s.cursor.value >= c0
            && (forall h :: c0 < h <= s.cursor.value ==> h in s.stored)
            && (GenuineRun(chain, Fresh(c0), events) ==> StoresRoots(s, chain))
  {
    hide Run, Origins, GenuineRun, StoresRoots;
    assert StoresRoots(Fresh(c0), chain) by {
      StoresNothing(Fresh(c0), chain);
    }
    FilledAtOrigin(Fresh(c0), {c0}, c0);
    NeverSkipsABlock(Fresh(c0), events, {c0});
    NoNewOrigins(Fresh(c0), events, c0);
    assert {c0} + Origins(Fresh(c0), events) == {c0};
    if GenuineRun(chain, Fresh(c0), events) {
      KeepsStoringRoots(Fresh(c0), events, chain);
    }
  }

  lemma StoresNothing(s: Relay, chain: int -> string)
    requires s.stored == map[]
    ensures StoresRoots(s, chain)
  {
  }

  /** Without a cursor, over any run: once there is a cursor, every block from the first height of some cycle that
      started without one is in the header store. */
  lemma UnsetRelayIsGapFree(events: seq<Event>) returns (c0: int)
    requires Run(Fresh(-1), events).cursor.Some? && Run(Fresh(-1), events).cursor != Some(-1)
    ensures var s := Run(Fresh(-1), events);
            c0 in Origins(Fresh(-1), events) && AllStored(s, c0, s.cursor.value)
  {
    hide Run, Origins, AllStored;
    NeverSkipsABlock(Fresh(-1), events, {});
    assert {} + Origins(Fresh(-1), events) == Origins(Fresh(-1), events);
    var s := Run(Fresh(-1), events);
    c0 :| c0 in Origins(Fresh(-1), events) && AllStored(s, c0, s.cursor.value);
  }

  /** That height need not be the first tip, even if no two cycles overlap: one that starts at tip t and fails leaves no
      cursor, so the next one starts at the tip by then, and t is passed over. */
  lemma FirstTipCanBePassedOver(t: nat, headerHex: string)
    requires BlockHeader.HeaderWords(headerHex).Ok?
    ensures var failed := [Begin(0, Some(t)), Fail(0)];
            var s := Run(Fresh(-1), failed + [Begin(1, Some(t + 1)), Store(1, headerHex), Record(1)]);
            s.cursor == Some(t + 1) && t !in s.stored
  {
    hide BlockHeader.HeaderWords;
    var s, next := Fresh(-1), [Begin(1, Some(t + 1)), Store(1, headerHex), Record(1)];
    RunTwo(s, Begin(0, Some(t)), Fail(0), next);
    assert Step(Step(s, Begin(0, Some(t))), Fail(0)) == s;
    RunThree(s, Begin(1, Some(t + 1)), Store(1, headerHex), Record(1), []);
    assert next + [] == next;
    RunNone(Step(Step(Step(s, Begin(1, Some(t + 1))), Store(1, headerHex)), Record(1)));
    hide Run;
  }

  // ---------------------------------------------------------------- a cycle on its own is a run of the protocol

  /** The header store after these posts. */
  function StoreAll(stored: map<int, Words>, posts: seq<(int, Words)>): map<int, Words>
    decreases |posts|
  {
    if posts == [] then stored else StoreAll(stored[posts[0].0 := posts[0].1], posts[1..])
  }

  function CycleEvents(c: nat, w: World, h: int, end: int): seq<Event>
    decreases end - h
  {
    if h > end then []
    else if Post(w, h).None? then [Fail(c)]
    else [Store(c, w.headers(h).value), Record(c), Advance(c)] + CycleEvents(c, w, h + 1, end)
  }

  lemma RunOne(s: Relay, e: Event, rest: seq<Event>)
    ensures Run(s, [e] + rest) == Run(Step(s, e), rest)
  {
    assert ([e] + rest)[0] == e && ([e] + rest)[1..] == rest;
  }

  lemma RunTwo(s: Relay, a: Event, b: Event, rest: seq<Event>)
    ensures Run(s, [a, b] + rest) == Run(Step(Step(s, a), b), rest)
  {
    RunOne(s, a, [b] + rest);
    RunOne(Step(s, a), b, rest);
    assert [a, b] + rest == [a] + ([b] + rest);
  }

  lemma RunThree(s: Relay, a: Event, b: Event, c: Event, rest: seq<Event>)
    ensures Run(s, [a, b, c] + rest) == Run(Step(Step(Step(s, a), b), c), rest)
  {
    RunTwo(s, a, b, [c] + rest);
    RunOne(Step(Step(s, a), b), c, rest);
    assert [a, b, c] + rest == [a, b] + ([c] + rest);
  }

  /** One height: the header is stored and recorded, and the cycle goes on or ends. */
  lemma OneHeight(s: Relay, c: nat, h: int, end: int, headerHex: string)
    requires c in s.cycles && s.cycles[c] == Cycle(h, end, Fetching) && BlockHeader.HeaderWords(headerHex).Ok?
    ensures Step(Step(Step(s, Store(c, headerHex)), Record(c)), Advance(c))
         == Relay(Some(h), s.stored[h := BlockHeader.HeaderWords(headerHex).value],
                  if h < end then s.cycles[c := Cycle(h + 1, end, Fetching)] else s.cycles - {c})
  {
    hide BlockHeader.HeaderWords;
  }

  lemma PostedHead(w: World, h: int, end: int, stored: map<int, Words>)
    requires h <= end && Post(w, h).Some?
    ensures Posted(w, h, end) == [(h, Post(w, h).value)] + Posted(w, h + 1, end)
    ensures StoreAll(stored, Posted(w, h, end)) == StoreAll(stored[h := Post(w, h).value], Posted(w, h + 1, end))
    ensures h == end ==> Posted(w, h + 1, end) == [] && forall m :: StoreAll(m, []) == m
  {
    assert Posted(w, h, end)[1..] == Posted(w, h + 1, end);
  }

  lemma RunNone(s: Relay)
    ensures Run(s, []) == s
  {
  }

  /** A cycle's events begin with those of its first height. */
  lemma CycleHead(c: nat, w: World, h: int, end: int)
    requires h <= end && Post(w, h).Some?
    ensures w.headers(h).Some? && BlockHeader.HeaderWords(w.headers(h).value) == Ok(Post(w, h).value)
    ensures CycleEvents(c, w, h, end)
         == [Store(c, w.headers(h).value), Record(c), Advance(c)] + CycleEvents(c, w, h + 1, end)
    ensures h == end ==> CycleEvents(c, w, h + 1, end) == []
  {
    hide BlockHeader.HeaderWords;
  }

  lemma CycleFails(s: Relay, c: nat, w: World, h: int, end: int)
    requires h <= end && Post(w, h).None?
    ensures Run(s, CycleEvents(c, w, h, end)) == s.(cycles := s.cycles - {c})
    ensures Posted(w, h, end) == [] && StoreAll(s.stored, []) == s.stored
  {
    hide Post;
    RunOne(s, Fail(c), []);
    assert [Fail(c)] + [] == [Fail(c)];
  }

  /** Undisturbed, a cycle stores what RelayCycle stores in one go, leaves the cursor where RelayCycle leaves it,
      and ends. */
  lemma {:induction false} SoloCycle(s: Relay, c: nat, h: int, end: int, w: World)
    requires c in s.cycles && s.cycles[c] == Cycle(h, end, Fetching) && h <= end
    ensures var t, sent := Run(s, CycleEvents(c, w, h, end)), Posted(w, h, end);
            && t.cursor == (if sent == [] then s.cursor else Some(sent[|sent| - 1].0))
            && t.stored == StoreAll(s.stored, sent)
            && t.cycles == s.cycles - {c}
    decreases end - h
  {
    hide Step, BlockHeader.HeaderWords, Posted, Run, StoreAll, CycleEvents, Post;
    if Post(w, h).None? {
      CycleFails(s, c, w, h, end);
    } else {
      CycleHead(c, w, h, end);
      var events, header := CycleEvents(c, w, h + 1, end), w.headers(h).value;
      var t := Step(Step(Step(s, Store(c, header)), Record(c)), Advance(c));
      RunThree(s, Store(c, header), Record(c), Advance(c), events);
      OneHeight(s, c, h, end, header);
      PostedHead(w, h, end, s.stored);
      RunNone(t);
      if h < end {
        SoloCycle(t, c, h + 1, end, w);
        assert t.cycles - {c} == s.cycles - {c};
      }
    }
  }

  /** A cycle from its beginning: at most ten heights from above the cursor, or from the tip if there is none. */
  lemma WholeCycle(s: Relay, c: nat, cursor: int, tip: int, w: World)
    requires c !in s.cycles && s.cursor == Some(cursor)
    ensures var start := if cursor == -1 then tip else cursor + 1;
            var end := if start + 9 < tip then start + 9 else tip;
            var t, sent := Run(s, [Begin(c, Some(tip))] + CycleEvents(c, w, start, end)), Posted(w, start, end);
            && t.cursor == (if sent == [] then s.cursor else Some(sent[|sent| - 1].0))
            && t.stored == StoreAll(s.stored, sent)
            && t.cycles == s.cycles
  {
    var start := if cursor == -1 then tip else cursor + 1;
    var end := if start + 9 < tip then start + 9 else tip;
    var events := CycleEvents(c, w, start, end);
    RunOne(s, Begin(c, Some(tip)), events);
    if start > tip {
      RunNone(s);
    } else {
      var begun := s.(cycles := s.cycles[c := Cycle(start, end, Fetching)]);
      assert Step(s, Begin(c, Some(tip))) == begun;
      assert begun.cycles - {c} == s.cycles;
      hide Step, Run, CycleEvents, Posted, StoreAll;
      SoloCycle(begun, c, start, end, w);
    }
  }
}
