/** What one request of the audit service does to the events at hand, exactly: how
    many it loses, what a recovery stores and in which order, and how a spool file
    that cannot be removed stores its events twice. */
module AuditRecovery {
  import opened Prelude
  import opened AuditEvents
  import opened Deque
  import opened AuditPipeline
  import opened AuditRuns
  import opened AuditService
  import opened SoloRuns

  const ALL_OK := Faults(true, true, true, true, true, true, true)

  // ---------------------------------------------------------------- flushing and refilling

  /** A flush empties the buffer into the store or leaves everything as it was. */
  lemma FlushIsAllOrNothing(cfg: Config, sh: Shared, ok: bool)
    requires Sound(cfg) && |sh.buffer| <= BUFFER_CAP && AllPrepared(cfg, sh.buffer)
    ensures Flushed(cfg, sh, ok) == if ok then sh.(buffer := [], stored := sh.stored + RowsOf(cfg, sh.buffer)) else sh
  {
    RowsRoundTrip(cfg, sh.buffer);
    assert sh.stored + [] == sh.stored;
    if sh.buffer != [] {
      RequeueClosedForm([], sh.buffer);
      assert sh.buffer + [] == sh.buffer && sh.lost + [] == sh.lost;
    }
  }

  /** The events a refill brings, the excess, and that what is kept is prepared. */
  lemma RefillKeepsNewest(cfg: Config, sh: Shared, events: seq<Event>)
    requires |sh.buffer| <= BUFFER_CAP && AllPrepared(cfg, sh.buffer) && AllPrepared(cfg, events)
    ensures var all := sh.buffer + events;
            var over := if |all| <= BUFFER_CAP then 0 else |all| - BUFFER_CAP;
            && Refilled(sh, events) == sh.(buffer := all[over..], lost := sh.lost + all[..over])
            && AllPrepared(cfg, all[over..])
  {
    AppendAllClosedForm(sh.buffer, events);
  }

  lemma EventsConcat(cfg: Config, a: seq<Row>, b: seq<Row>)
    ensures EventsOf(cfg, a + b) == EventsOf(cfg, a) + EventsOf(cfg, b)
  {
  }

  // ---------------------------------------------------------------- how many events a request loses

  /** What an accepted request drops: the excess of what is left in the buffer plus
      what it drains, or one event when it can neither buffer nor spool its own. */
  function LossOfRequest(cfg: Config, sh: Shared, f: Faults): nat {
    var left := if f.up && f.firstFlushOk then 0 else |sh.buffer|;
    if f.up && f.insertOk then
      var drained := if cfg.hasSpool && f.readOk then |DecodeAll(cfg, sh.spool)| else 0;
      if left + drained <= BUFFER_CAP then 0 else left + drained - BUFFER_CAP
    else if left == BUFFER_CAP && !(cfg.hasSpool && f.spillOk) then 1 else 0
  }

  lemma OverflowLoss(cfg: Config, sh: Shared, event: Event, spillOk: bool)
    requires |sh.buffer| <= BUFFER_CAP
    ensures |Overflowed(cfg, sh, event, spillOk).lost|
            == |sh.lost| + if |sh.buffer| == BUFFER_CAP && !(cfg.hasSpool && spillOk) then 1 else 0
  {
  }

  lemma PersistLoss(cfg: Config, sh: Shared, event: Event, f: Faults)
    requires Sound(cfg) && SharedOk(cfg, sh) && f.up
    ensures |PersistedBy(cfg, sh, event, f).lost| == |sh.lost| + LossOfRequest(cfg, sh, f)
  {
    FlushIsAllOrNothing(cfg, sh, f.firstFlushOk);
    var flushed := Flushed(cfg, sh, f.firstFlushOk);
    if !f.insertOk {
      OverflowLoss(cfg, flushed, event, f.spillOk);
    } else if cfg.hasSpool {
      var inserted := flushed.(stored := flushed.stored + [RowOf(cfg, event)]);
      var (drained, events) := DrainSpool(cfg, inserted, f.readOk, f.unlinkOk);
      RefillKeepsNewest(cfg, drained, events);
      FlushIsAllOrNothing(cfg, Refilled(drained, events), f.lastFlushOk);
    }
  }

  /** Whatever fails, an accepted request loses exactly this many events. */
  lemma RequestLossIsExact(cfg: Config, sh: Shared, e: Event, f: Faults)
    requires Sound(cfg) && SharedOk(cfg, sh) && AcceptEvent(cfg, sh, e).1.Some?
    ensures |Ingested(cfg, sh, e, f).0.lost| == |sh.lost| + LossOfRequest(cfg, sh, f)
  {
    var (sh1, prepared) := AcceptEvent(cfg, sh, e);
    BeginOk(cfg, sh, Begin(e));
    if f.up {
      PersistLoss(cfg, sh1, prepared.value, f);
    } else {
      OverflowLoss(cfg, sh1, prepared.value, f.spillOk);
    }
  }

  // ---------------------------------------------------------------- what the response promises

  lemma OverflowHolds(cfg: Config, sh: Shared, event: Event, spillOk: bool)
    requires Sound(cfg) && |sh.buffer| <= BUFFER_CAP
    ensures var sh' := Overflowed(cfg, sh, event, spillOk);
            event in sh'.buffer || event in DecodeAll(cfg, sh'.spool)
  {
    SpillDecodes(cfg, sh.spool, event);
    var sh' := Push(sh, event);
    assert sh'.buffer[|sh'.buffer| - 1] == event;
  }

  lemma PersistHolds(cfg: Config, sh: Shared, event: Event, f: Faults)
    requires Sound(cfg) && SharedOk(cfg, sh) && Prepared(cfg, event)
    ensures var sh' := PersistedBy(cfg, sh, event, f);
            if f.insertOk then RowOf(cfg, event) in sh'.stored
            else event in sh'.buffer || event in DecodeAll(cfg, sh'.spool)
  {
    FlushIsAllOrNothing(cfg, sh, f.firstFlushOk);
    var flushed := Flushed(cfg, sh, f.firstFlushOk);
    if !f.insertOk {
      OverflowHolds(cfg, flushed, event, f.spillOk);
    } else {
      assert RowOf(cfg, event) in flushed.stored + [RowOf(cfg, event)];
    }
  }

  /** The answer tells the truth: refused exactly for an unsigned event under a missing
      key; persisted exactly when the store was up and took the row, and then the row
      is stored; otherwise the event waits in the buffer or in the spool. */
  lemma ResponseIsTruthful(cfg: Config, sh: Shared, e: Event, f: Faults)
    requires Sound(cfg) && SharedOk(cfg, sh)
    ensures var (sh', response) := Ingested(cfg, sh, e, f);
            && (response == Refused <==> cfg.signing.KeyMissing? && (e.signature.None? || e.signature.value == ""))
            && (response == Refused ==>
                  sh'.buffer == sh.buffer && sh'.spool == sh.spool && sh'.stored == sh.stored && sh'.lost == sh.lost)
            && (response != Refused ==>
                  && AcceptEvent(cfg, sh, e).1.Some?
                  && response.persisted == (f.up && f.insertOk)
                  && var event := AcceptEvent(cfg, sh, e).1.value;
                     if response.persisted then RowOf(cfg, event) in sh'.stored
                     else event in sh'.buffer || event in DecodeAll(cfg, sh'.spool))
  {
    var (sh1, prepared) := AcceptEvent(cfg, sh, e);
    PreparingKeepsTheFacts(cfg, sh.head, e);
    BeginOk(cfg, sh, Begin(e));
    if prepared.Some? {
      if f.up {
        PersistHolds(cfg, sh1, prepared.value, f);
      } else {
        OverflowHolds(cfg, sh1, prepared.value, f.spillOk);
      }
    }
  }

  // ---------------------------------------------------------------- recovery

  /** The part of the spool that a drain into an empty buffer keeps. */
  function NewestSpooled(cfg: Config, sh: Shared): seq<Event> {
    var spooled := DecodeAll(cfg, sh.spool);
    if |spooled| <= BUFFER_CAP then spooled else spooled[|spooled| - BUFFER_CAP..]
  }

  /** Recovery, exactly: when every call but perhaps the file's removal succeeds, one
      request stores the whole buffer, the new event and the newest BUFFER_CAP
      spooled events, in that order; older spooled events are lost, nothing else is. */
  lemma RecoveryStoresAllButOldSpool(cfg: Config, sh: Shared, e: Event, unlinkOk: bool)
    requires Sound(cfg) && SharedOk(cfg, sh) && cfg.hasSpool
    requires AcceptEvent(cfg, sh, e).1.Some?
    ensures var (sh', _) := Ingested(cfg, sh, e, ALL_OK.(unlinkOk := unlinkOk));
            var spooled := DecodeAll(cfg, sh.spool);
            && sh'.buffer == [] && sh'.spool == (if unlinkOk then [] else sh.spool)
            && EventsOf(cfg, sh'.stored)
               == EventsOf(cfg, sh.stored) + sh.buffer + [AcceptEvent(cfg, sh, e).1.value] + NewestSpooled(cfg, sh)
            && sh'.lost == sh.lost + spooled[..|spooled| - |NewestSpooled(cfg, sh)|]
  {
    var (sh1, prepared) := AcceptEvent(cfg, sh, e);
    BeginOk(cfg, sh, Begin(e));
    RecoveryPersists(cfg, sh1, prepared.value, unlinkOk);
  }

  lemma RecoveryPersists(cfg: Config, sh: Shared, event: Event, unlinkOk: bool)
    requires Sound(cfg) && SharedOk(cfg, sh) && cfg.hasSpool && Prepared(cfg, event)
    ensures var sh' := PersistedBy(cfg, sh, event, ALL_OK.(unlinkOk := unlinkOk));
            var spooled := DecodeAll(cfg, sh.spool);
            && sh'.buffer == [] && sh'.spool == (if unlinkOk then [] else sh.spool)
            && EventsOf(cfg, sh'.stored) == EventsOf(cfg, sh.stored) + sh.buffer + [event] + NewestSpooled(cfg, sh)
            && sh'.lost == sh.lost + spooled[..|spooled| - |NewestSpooled(cfg, sh)|]
  {
    RecoveryState(cfg, sh, event, unlinkOk);
    RecoveredEvents(cfg, sh.stored, sh.buffer, event, NewestSpooled(cfg, sh));
  }

  lemma RecoveryState(cfg: Config, sh: Shared, event: Event, unlinkOk: bool)
    requires Sound(cfg) && SharedOk(cfg, sh) && cfg.hasSpool
    ensures var sh' := PersistedBy(cfg, sh, event, ALL_OK.(unlinkOk := unlinkOk));
            var spooled := DecodeAll(cfg, sh.spool);
            var kept := NewestSpooled(cfg, sh);
            && AllPrepared(cfg, kept)
            && sh'.buffer == [] && sh'.spool == (if unlinkOk then [] else sh.spool)
            && sh'.stored == sh.stored + RowsOf(cfg, sh.buffer) + [RowOf(cfg, event)] + RowsOf(cfg, kept)
            && sh'.lost == sh.lost + spooled[..|spooled| - |kept|]
  {
    var spooled := DecodeAll(cfg, sh.spool);
    FlushIsAllOrNothing(cfg, sh, true);
    var stored := sh.stored + RowsOf(cfg, sh.buffer) + [RowOf(cfg, event)];
    var (drained, events) := DrainSpool(cfg, sh.(buffer := [], stored := stored), true, unlinkOk);
    RefillKeepsNewest(cfg, drained, spooled);
    assert [] + spooled == spooled;
    FlushIsAllOrNothing(cfg, Refilled(drained, spooled), true);
  }

  lemma RecoveredEvents(cfg: Config, stored: seq<Row>, buffer: seq<Event>, event: Event, kept: seq<Event>)
    requires Sound(cfg) && AllPrepared(cfg, buffer) && Prepared(cfg, event) && AllPrepared(cfg, kept)
    ensures EventsOf(cfg, stored + RowsOf(cfg, buffer) + [RowOf(cfg, event)] + RowsOf(cfg, kept))
            == EventsOf(cfg, stored) + buffer + [event] + kept
  {
    RowsRoundTrip(cfg, buffer);
    RowRoundTrip(cfg, event);
    RowsRoundTrip(cfg, kept);
    EventsConcat(cfg, stored, RowsOf(cfg, buffer));
    EventsConcat(cfg, stored + RowsOf(cfg, buffer), [RowOf(cfg, event)]);
    EventsConcat(cfg, stored + RowsOf(cfg, buffer) + [RowOf(cfg, event)], RowsOf(cfg, kept));
    assert EventsOf(cfg, [RowOf(cfg, event)]) == [event];
  }

  // ---------------------------------------------------------------- stored twice

  lemma {:induction false} RunConcat(cfg: Config, s: State, a: seq<Move>, b: seq<Move>)
    ensures Run(cfg, s, a + b) == Run(cfg, Run(cfg, s, a), b)
    decreases |a|
  {
    if a == [] {
      assert a + b == b;
    } else {
      assert (a + b)[1..] == a[1..] + b;
      RunConcat(cfg, Step(cfg, s, a[0]), a[1..], b);
    }
  }

  /** A request served on its own, as a run that keeps the invariant. */
  lemma ServeOne(cfg: Config, s: State, moves: seq<Move>, sh: Shared, e: Event, f: Faults) returns (moves': seq<Move>)
    requires Sound(cfg) && SharedOk(cfg, sh) && Run(cfg, s, moves) == State(sh, [Idle])
    ensures Run(cfg, s, moves') == State(Ingested(cfg, sh, e, f).0, [Idle]) && SharedOk(cfg, Ingested(cfg, sh, e, f).0)
  {
    var more := RequestIsARun(cfg, sh, e, f);
    RunConcat(cfg, s, moves, more);
    RunKeepsInv(cfg, State(sh, [Idle]), more);
    moves' := moves + more;
  }

  /** From any state between requests: two requests, the first of which cannot remove
      the spool file it has read, store every event of the file twice (of a file
      that exceeds the buffer, the newest BUFFER_CAP). */
  lemma UnremovedSpoolIsStoredTwice(cfg: Config, sh: Shared, e: Event, later: Event) returns (moves: seq<Move>)
    requires Sound(cfg) && SharedOk(cfg, sh) && cfg.hasSpool
    requires AcceptEvent(cfg, sh, e).1.Some?
    requires AcceptEvent(cfg, Ingested(cfg, sh, e, ALL_OK.(unlinkOk := false)).0, later).1.Some?
    ensures var s := Run(cfg, State(sh, [Idle]), moves);
            var first := Ingested(cfg, sh, e, ALL_OK.(unlinkOk := false)).0;
            && s.threads == [Idle] && s.shared.buffer == [] && s.shared.spool == []
            && EventsOf(cfg, s.shared.stored)
               == EventsOf(cfg, sh.stored) + sh.buffer + [AcceptEvent(cfg, sh, e).1.value] + NewestSpooled(cfg, sh)
                  + [AcceptEvent(cfg, first, later).1.value] + NewestSpooled(cfg, sh)
  {
    var f := ALL_OK.(unlinkOk := false);
    moves := ServeTwo(cfg, sh, e, f, later, ALL_OK);
    TwoRecoveries(cfg, sh, e, later);
  }

  lemma ServeTwo(cfg: Config, sh: Shared, e: Event, f: Faults, later: Event, f': Faults) returns (moves: seq<Move>)
    requires Sound(cfg) && SharedOk(cfg, sh)
    ensures Run(cfg, State(sh, [Idle]), moves) == State(Ingested(cfg, Ingested(cfg, sh, e, f).0, later, f').0, [Idle])
  {
    var start := State(sh, [Idle]);
    assert Run(cfg, start, []) == start;
    moves := ServeOne(cfg, start, [], sh, e, f);
    moves := ServeOne(cfg, start, moves, Ingested(cfg, sh, e, f).0, later, f');
  }

  lemma TwoRecoveries(cfg: Config, sh: Shared, e: Event, later: Event)
    requires Sound(cfg) && SharedOk(cfg, sh) && cfg.hasSpool
    requires AcceptEvent(cfg, sh, e).1.Some?
    requires AcceptEvent(cfg, Ingested(cfg, sh, e, ALL_OK.(unlinkOk := false)).0, later).1.Some?
    ensures var first := Ingested(cfg, sh, e, ALL_OK.(unlinkOk := false)).0;
            var second := Ingested(cfg, first, later, ALL_OK).0;
            && second.buffer == [] && second.spool == []
            && EventsOf(cfg, second.stored)
               == EventsOf(cfg, sh.stored) + sh.buffer + [AcceptEvent(cfg, sh, e).1.value] + NewestSpooled(cfg, sh)
                  + [AcceptEvent(cfg, first, later).1.value] + NewestSpooled(cfg, sh)
  {
    var first := Ingested(cfg, sh, e, ALL_OK.(unlinkOk := false)).0;
    var _ := ServeOne(cfg, State(sh, [Idle]), [], sh, e, ALL_OK.(unlinkOk := false));
    RecoveryStoresAllButOldSpool(cfg, sh, e, false);
    RecoveryStoresAllButOldSpool(cfg, first, later, true);
    assert ALL_OK.(unlinkOk := true) == ALL_OK;
    assert EventsOf(cfg, first.stored) + [] == EventsOf(cfg, first.stored);
  }

  /** An event that is accepted under every signing configuration. */
  const SIGNED := PLAIN.(signature := Some("sig"))

  lemma SignedIsAccepted(cfg: Config, sh: Shared)
    ensures AcceptEvent(cfg, sh, SIGNED).1.Some?
  {
  }

  /** k requests while the store is down: the buffer fills up, the rest is spooled. */
  lemma {:induction false} Outage(cfg: Config, k: nat) returns (moves: seq<Move>, sh: Shared)
    requires Sound(cfg) && cfg.hasSpool
    ensures Run(cfg, Start(1), moves) == State(sh, [Idle]) && SharedOk(cfg, sh)
    ensures if k <= BUFFER_CAP then |sh.buffer| == k && sh.spool == []
            else |sh.buffer| == BUFFER_CAP && |DecodeAll(cfg, sh.spool)| == k - BUFFER_CAP
  {
    if k == 0 {
      moves, sh := [], EMPTY;
      assert Start(1).threads == [Idle];
    } else {
      moves, sh := Outage(cfg, k - 1);
      var f := ALL_OK.(up := false);
      var (sh1, prepared) := AcceptEvent(cfg, sh, SIGNED);
      SignedIsAccepted(cfg, sh);
      SpillDecodes(cfg, sh.spool, prepared.value);
      moves := ServeOne(cfg, Start(1), moves, sh, SIGNED, f);
      sh := Ingested(cfg, sh, SIGNED, f).0;
    }
  }

  /** From process start there is a run that stores an event twice. */
  lemma StoringTwiceIsReachable(cfg: Config) returns (moves: seq<Move>, x: Event)
    requires Sound(cfg) && cfg.hasSpool
    ensures Count(EventsOf(cfg, Run(cfg, Start(1), moves).shared.stored), x) >= 2
  {
    var sh;
    moves, sh := Outage(cfg, BUFFER_CAP + 1);
    SignedIsAccepted(cfg, sh);
    SignedIsAccepted(cfg, Ingested(cfg, sh, SIGNED, ALL_OK.(unlinkOk := false)).0);
    var more := UnremovedSpoolIsStoredTwice(cfg, sh, SIGNED, SIGNED);
    RunConcat(cfg, Start(1), moves, more);
    moves := moves + more;
    var stored := EventsOf(cfg, Run(cfg, Start(1), moves).shared.stored);
    var twice := NewestSpooled(cfg, sh);
    x := twice[0];
    var front := stored[..|stored| - |twice|];
    var head := front[..|front| - 1];
    assert stored == front + twice && front == head + [front[|front| - 1]];
    assert head == head[..|head| - |twice|] + twice;
    CountConcat(front, twice, x);
    CountConcat(head, [front[|front| - 1]], x);
    CountConcat(head[..|head| - |twice|], twice, x);
    CountPositive(twice, x);
  }
}
