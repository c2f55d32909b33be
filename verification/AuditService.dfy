/** The audit service's own code: module globals updated in place, with the pop
    and requeue loops of a flush. Each method is tied to the atomic blocks of
    AuditPipeline, and a whole request is shown to be one of its runs. */
module AuditService {
  import opened Prelude
  import opened AuditEvents
  import opened Deque
  import opened AuditPipeline
  import opened SoloRuns

  /** Whether each call a request makes succeeds. */
  datatype Faults = Faults(
    up: bool,
    firstFlushOk: bool,
    insertOk: bool,
    readOk: bool,
    unlinkOk: bool,
    lastFlushOk: bool,
    spillOk: bool)

  datatype Response = Refused | Accepted(persisted: bool)

  // ---------------------------------------------------------------- one request, as a function

  function Overflowed(cfg: Config, sh: Shared, e: Event, spillOk: bool): Shared {
    if |sh.buffer| < BUFFER_CAP then Push(sh, e)
    else if cfg.hasSpool && spillOk then sh.(spool := sh.spool + [cfg.encode(e)])
    else Push(sh, e)
  }

  function Flushed(cfg: Config, sh: Shared, ok: bool): Shared {
    var rows := RowsOf(cfg, sh.buffer);
    if rows == [] then sh
    else if ok then sh.(buffer := [], stored := sh.stored + rows)
    else
      var (kept, dropped) := Requeue([], EventsOf(cfg, rows));
      sh.(buffer := kept, lost := sh.lost + dropped)
  }

  function Refilled(sh: Shared, events: seq<Event>): Shared {
    var (kept, dropped) := AppendAll(sh.buffer, events);
    sh.(buffer := kept, lost := sh.lost + dropped)
  }

  function PersistedBy(cfg: Config, sh: Shared, e: Event, f: Faults): Shared {
    var flushed := Flushed(cfg, sh, f.firstFlushOk);
    if !f.insertOk then Overflowed(cfg, flushed, e, f.spillOk)
    else
      var inserted := flushed.(stored := flushed.stored + [RowOf(cfg, e)]);
      if !cfg.hasSpool then inserted
      else
        var (drained, events) := DrainSpool(cfg, inserted, f.readOk, f.unlinkOk);
        Flushed(cfg, Refilled(drained, events), f.lastFlushOk)
  }

  function Ingested(cfg: Config, sh: Shared, e: Event, f: Faults): (Shared, Response) {
    var (sh', prepared) := AcceptEvent(cfg, sh, e);
    if prepared.None? then (sh', Refused)
    else if !f.up then (Overflowed(cfg, sh', prepared.value, f.spillOk), Accepted(false))
    else (PersistedBy(cfg, sh', prepared.value, f), Accepted(f.insertOk))
  }

  // ---------------------------------------------------------------- the same request, in place

  class Service {
    const cfg: Config
    var buffer: seq<Event>
    var spool: seq<string>
    var head: Option<string>
    var stored: seq<Row>
    ghost var chained: seq<Event>
    ghost var accepted: seq<Event>
    ghost var lost: seq<Event>
    ghost var duplicated: seq<Event>

    ghost function View(): Shared
      reads this
    {
      Shared(buffer, spool, head, stored, chained, accepted, lost, duplicated)
    }

    ghost predicate Valid()
      reads this
    {
      Sound(cfg) && SharedOk(cfg, View())
    }

    constructor (cfg: Config)
      requires Sound(cfg)
      ensures Valid() && View() == EMPTY && this.cfg == cfg
    {
      this.cfg := cfg;
      buffer, spool, head, stored := [], [], None, [];
      chained, accepted, lost, duplicated := [], [], [], [];
    }

    method PrepareEvent(e: Event) returns (prepared: Option<Event>)
      requires Valid()
      modifies this
      ensures Valid() && (View(), prepared) == AcceptEvent(cfg, old(View()), e)
      ensures prepared.Some? ==> Prepared(cfg, prepared.value)
    {
      BeginOk(cfg, View(), Begin(e));
      PreparingIsStable(cfg, head, e, head);
      var event := e;
      if !Truthy(e.eventHash) {
        event := e.(previousHash := head, eventHash := None);
        var digest := cfg.hash(PayloadOf(event));
        event := event.(eventHash := Some(digest));
        head := Some(digest);
        chained := chained + [event];
      }
      prepared := SignEvent(cfg, event);
      if prepared.Some? {
        accepted := accepted + [prepared.value];
      }
    }

    method Append(e: Event)
      requires Valid() && Prepared(cfg, e)
      modifies this`buffer, this`lost
      ensures Valid() && View() == Push(old(View()), e)
    {
      if |buffer| == BUFFER_CAP {
        lost := lost + [buffer[0]];
        buffer := buffer[1..];
      } else {
        lost := lost + [];
      }
      buffer := buffer + [e];
    }

    method BufferOrSpool(e: Event, spillOk: bool)
      requires Valid() && Prepared(cfg, e)
      modifies this`buffer, this`lost, this`spool
      ensures Valid() && View() == Overflowed(cfg, old(View()), e, spillOk)
    {
      if |buffer| < BUFFER_CAP {
        Append(e);
        return;
      }
      if cfg.hasSpool && spillOk {
        SpillDecodes(cfg, spool, e);
        spool := spool + [cfg.encode(e)];
        return;
      }
      Append(e);
    }

    /** The pop loop: preparing a buffered event again returns it unchanged, so
        the rows are the buffered events and the chain head stays put. */
    method PopAll() returns (rows: seq<Row>)
      requires Valid()
      modifies this`buffer, this`head
      ensures Valid() && View() == old(View()).(buffer := [])
      ensures rows == RowsOf(cfg, old(buffer)) && EventsOf(cfg, rows) == old(buffer)
    {
      rows := [];
      RowsRoundTrip(cfg, buffer);
      while buffer != []
        invariant |rows| <= |old(buffer)| && buffer == old(buffer)[|rows|..]
        invariant rows == RowsOf(cfg, old(buffer)[..|rows|])
        invariant head == old(head)
        decreases |buffer|
      {
        var event := buffer[0];
        assert event == old(buffer)[|rows|] && Prepared(cfg, event);
        buffer := buffer[1..];
        var (head', prepared) := AuditEvents.PrepareEvent(cfg, head, event);
        head := head';
        rows := rows + [RowOf(cfg, prepared.value)];
      }
      assert old(buffer)[..|rows|] == old(buffer);
    }

    /** The popped rows go back to the front of the buffer. */
    method RequeueAll(rows: seq<Row>)
      requires Valid() && AllPrepared(cfg, EventsOf(cfg, rows))
      modifies this`buffer, this`lost
      ensures Valid()
      ensures var (kept, dropped) := Requeue(old(buffer), EventsOf(cfg, rows));
              View() == old(View()).(buffer := kept, lost := old(lost) + dropped)
    {
      RequeueOk(cfg, View(), rows, ThenDone, Go);
      ghost var dropped;
      buffer, dropped := RequeueLoop(buffer, EventsOf(cfg, rows));
      lost := lost + dropped;
    }

    /** A flush: pop everything, insert it, put it back if the insert failed. */
    method FlushBuffer(ok: bool) returns (flushed: nat)
      requires Valid()
      modifies this
      ensures Valid() && View() == Flushed(cfg, old(View()), ok)
      ensures flushed == if ok then |old(buffer)| else 0
    {
      var rows := PopAll();
      if rows == [] {
        return 0;
      }
      if ok {
        stored := stored + rows;
        return |rows|;
      }
      RequeueAll(rows);
      return 0;
    }

    /** The spool file is read, then removed, then its lines are parsed. */
    method DrainSpool(readOk: bool, unlinkOk: bool) returns (events: seq<Event>)
      requires Valid()
      modifies this`spool, this`duplicated
      ensures Valid() && (View(), events) == AuditPipeline.DrainSpool(cfg, old(View()), readOk, unlinkOk)
      ensures AllPrepared(cfg, events)
    {
      events := [];
      if !readOk {
        return;
      }
      var raw := spool;
      if unlinkOk {
        spool := [];
      }
      for i := 0 to |raw|
        invariant events == DecodeAll(cfg, raw[..i])
      {
        assert raw[..i + 1][..i] == raw[..i];
        var line := cfg.decode(raw[i]);
        if line.Some? {
          events := events + [line.value];
        }
      }
      assert raw[..|raw|] == raw;
      if !unlinkOk {
        duplicated := duplicated + events;
      }
    }

    method Refill(events: seq<Event>)
      requires Valid() && AllPrepared(cfg, events)
      modifies this`buffer, this`lost
      ensures Valid() && View() == Refilled(old(View()), events)
    {
      for i := 0 to |events|
        invariant Valid()
        invariant AppendAll(buffer, events[i..]).0 == AppendAll(old(buffer), events).0
        invariant lost + AppendAll(buffer, events[i..]).1 == old(lost) + AppendAll(old(buffer), events).1
      {
        assert events[i..][1..] == events[i + 1..];
        Append(events[i]);
      }
    }

    /** POST /events: always accepted unless signing is required without a key. */
    method IngestEvent(e: Event, f: Faults) returns (response: Response)
      requires Valid()
      modifies this
      ensures Valid() && (View(), response) == Ingested(cfg, old(View()), e, f)
    {
      var prepared := PrepareEvent(e);
      if prepared.None? {
        return Refused;
      }
      var event := prepared.value;
      if !f.up {
        BufferOrSpool(event, f.spillOk);
        return Accepted(false);
      }
      var flushed := FlushBuffer(f.firstFlushOk);
      if !f.insertOk {
        BufferOrSpool(event, f.spillOk);
        return Accepted(false);
      }
      stored := stored + [RowOf(cfg, event)];
      if cfg.hasSpool {
        var events := DrainSpool(f.readOk, f.unlinkOk);
        Refill(events);
        flushed := FlushBuffer(f.lastFlushOk);
      }
      return Accepted(true);
    }
  }

  // ---------------------------------------------------------------- a request is a run

  lemma {:induction false} SoloIsRun(cfg: Config, sh: Shared, t: Thread, actions: seq<Action>)
    ensures var (sh', t') := RunSolo(Steps(cfg), sh, t, actions);
            Run(cfg, State(sh, [t]), Solo(actions)) == State(sh', [t'])
    decreases |actions|
  {
    if actions != [] {
      var (sh', t') := ThreadStep(cfg, sh, t, actions[0]);
      SoloIsRun(cfg, sh', t', actions[1..]);
      assert Solo(actions)[1..] == Solo(actions[1..]);
      assert [t][0 := t'] == [t'];
    }
  }

  lemma OverflowSolo(cfg: Config, sh: Shared, e: Event, ok: bool) returns (actions: seq<Action>)
    ensures RunSolo(Steps(cfg), sh, Buffering(e), actions) == (Overflowed(cfg, sh, e, ok), Idle)
  {
    if |sh.buffer| < BUFFER_CAP {
      actions := [Go];
    } else if cfg.hasSpool && ok {
      actions := [Go] + [Call(true)];
      SoloConcat(Steps(cfg), sh, Buffering(e), [Go], [Call(true)]);
    } else {
      actions := ([Go] + [Call(false)]) + [Go];
      SoloConcat(Steps(cfg), sh, Buffering(e), [Go] + [Call(false)], [Go]);
      SoloConcat(Steps(cfg), sh, Buffering(e), [Go], [Call(false)]);
    }
  }

  lemma FlushSolo(cfg: Config, sh: Shared, next: Resume, ok: bool) returns (actions: seq<Action>)
    requires Sound(cfg) && SharedOk(cfg, sh)
    ensures RunSolo(Steps(cfg), sh, Popping(next), actions) == (Flushed(cfg, sh, ok), Resumed(next))
  {
    PopIsLossless(cfg, sh);
    var rows := RowsOf(cfg, sh.buffer);
    SoloOne(Steps(cfg), sh, Popping(next), Go);
    if rows == [] {
      assert sh.(buffer := []) == sh;
      actions := [Go];
    } else {
      actions := FlushInsertSolo(cfg, sh, rows, next, ok);
      SoloConcat(Steps(cfg), sh, Popping(next), [Go], actions);
      actions := [Go] + actions;
    }
  }

  lemma FlushInsertSolo(cfg: Config, sh: Shared, rows: seq<Row>, next: Resume, ok: bool) returns (actions: seq<Action>)
    requires rows == RowsOf(cfg, sh.buffer) && rows != []
    ensures RunSolo(Steps(cfg), sh.(buffer := []), Flushing(rows, next), actions) ==
            (Flushed(cfg, sh, ok), Resumed(next))
  {
    var popped := sh.(buffer := []);
    SoloOne(Steps(cfg), popped, Flushing(rows, next), Call(ok));
    actions := [Call(ok)];
    if !ok {
      SoloOne(Steps(cfg), popped, Requeueing(rows, next), Go);
      SoloConcat(Steps(cfg), popped, Flushing(rows, next), [Call(ok)], [Go]);
      actions := [Call(ok)] + [Go];
    }
  }

  lemma {:induction false} RefillSolo(cfg: Config, sh: Shared, events: seq<Event>) returns (actions: seq<Action>)
    ensures RunSolo(Steps(cfg), sh, Refilling(events), actions) == (Refilled(sh, events), Popping(ThenDone))
    decreases |events|
  {
    if events == [] {
      actions := [Go];
      assert sh.lost + [] == sh.lost;
    } else {
      var pushed := Push(sh, events[0]);
      var rest := RefillSolo(cfg, pushed, events[1..]);
      actions := [Go] + rest;
      SoloConcat(Steps(cfg), sh, Refilling(events), [Go], rest);
      assert Refilled(pushed, events[1..]).lost == Refilled(sh, events).lost;
    }
  }

  lemma {:induction false} SoloOk(cfg: Config, sh: Shared, t: Thread, actions: seq<Action>)
    requires Sound(cfg) && SharedOk(cfg, sh) && ThreadOk(cfg, t)
    ensures var (sh', t') := RunSolo(Steps(cfg), sh, t, actions); SharedOk(cfg, sh') && ThreadOk(cfg, t')
    decreases |actions|
  {
    if actions != [] {
      ThreadStepOk(cfg, sh, t, actions[0]);
      var (sh', t') := ThreadStep(cfg, sh, t, actions[0]);
      SoloOk(cfg, sh', t', actions[1..]);
    }
  }

  /** Two legs of a solo run make one. */
  lemma SoloThen(cfg: Config, sh: Shared, t: Thread, a: seq<Action>, b: seq<Action>, sh1: Shared, t1: Thread,
                 sh2: Shared, t2: Thread)
    requires RunSolo(Steps(cfg), sh, t, a) == (sh1, t1) && RunSolo(Steps(cfg), sh1, t1, b) == (sh2, t2)
    ensures RunSolo(Steps(cfg), sh, t, a + b) == (sh2, t2)
  {
    SoloConcat(Steps(cfg), sh, t, a, b);
  }

  lemma DrainSolo(cfg: Config, sh: Shared, f: Faults) returns (actions: seq<Action>)
    requires Sound(cfg) && SharedOk(cfg, sh)
    ensures var (drained, events) := DrainSpool(cfg, sh, f.readOk, f.unlinkOk);
            RunSolo(Steps(cfg), sh, Draining, actions) == (Flushed(cfg, Refilled(drained, events), f.lastFlushOk), Idle)
  {
    var (drained, events) := DrainSpool(cfg, sh, f.readOk, f.unlinkOk);
    var drain := [Drain(f.readOk, f.unlinkOk)];
    var refill := RefillSolo(cfg, drained, events);
    var refilled := Refilled(drained, events);
    SoloOne(Steps(cfg), sh, Draining, drain[0]);
    SoloThen(cfg, sh, Draining, drain, refill, drained, Refilling(events), refilled, Popping(ThenDone));
    SoloOk(cfg, sh, Draining, drain + refill);
    var flush := FlushSolo(cfg, refilled, ThenDone, f.lastFlushOk);
    SoloThen(cfg, sh, Draining, drain + refill, flush,
             refilled, Popping(ThenDone), Flushed(cfg, refilled, f.lastFlushOk), Idle);
    actions := drain + refill + flush;
  }

  lemma InsertSolo(cfg: Config, sh: Shared, e: Event, f: Faults) returns (actions: seq<Action>)
    requires Sound(cfg) && SharedOk(cfg, sh) && Prepared(cfg, e)
    ensures var sh' := if !f.insertOk then Overflowed(cfg, sh, e, f.spillOk)
                       else
                         var inserted := sh.(stored := sh.stored + [RowOf(cfg, e)]);
                         if !cfg.hasSpool then inserted
                         else
                           var (drained, events) := DrainSpool(cfg, inserted, f.readOk, f.unlinkOk);
                           Flushed(cfg, Refilled(drained, events), f.lastFlushOk);
            RunSolo(Steps(cfg), sh, Inserting(e), actions) == (sh', Idle)
  {
    SoloOne(Steps(cfg), sh, Inserting(e), Call(f.insertOk));
    var rest;
    if !f.insertOk {
      rest := OverflowSolo(cfg, sh, e, f.spillOk);
      SoloConcat(Steps(cfg), sh, Inserting(e), [Call(false)], rest);
      actions := [Call(false)] + rest;
    } else if cfg.hasSpool {
      var inserted := sh.(stored := sh.stored + [RowOf(cfg, e)]);
      rest := DrainSolo(cfg, inserted, f);
      SoloConcat(Steps(cfg), sh, Inserting(e), [Call(true)], rest);
      actions := [Call(true)] + rest;
    } else {
      actions := [Call(true)];
    }
  }

  lemma PersistSolo(cfg: Config, sh: Shared, e: Event, f: Faults) returns (actions: seq<Action>)
    requires Sound(cfg) && SharedOk(cfg, sh) && Prepared(cfg, e)
    ensures RunSolo(Steps(cfg), sh, Popping(ThenInsert(e)), actions) == (PersistedBy(cfg, sh, e, f), Idle)
  {
    var flush := FlushSolo(cfg, sh, ThenInsert(e), f.firstFlushOk);
    var flushed := Flushed(cfg, sh, f.firstFlushOk);
    SoloOk(cfg, sh, Popping(ThenInsert(e)), flush);
    var insert := InsertSolo(cfg, flushed, e, f);
    SoloThen(cfg, sh, Popping(ThenInsert(e)), flush, insert, flushed, Inserting(e), PersistedBy(cfg, sh, e, f), Idle);
    actions := flush + insert;
  }

  /** Whatever fails, a request served on its own is a run of the step machine:
      everything proved of all runs holds of the service's methods. */
  lemma RequestIsARun(cfg: Config, sh: Shared, e: Event, f: Faults) returns (moves: seq<Move>)
    requires Sound(cfg) && SharedOk(cfg, sh)
    ensures Run(cfg, State(sh, [Idle]), moves) == State(Ingested(cfg, sh, e, f).0, [Idle])
  {
    var (sh1, prepared) := AcceptEvent(cfg, sh, e);
    var actions := [Begin(e)];
    SoloOne(Steps(cfg), sh, Idle, Begin(e));
    if prepared.Some? {
      var event := prepared.value;
      BeginOk(cfg, sh, Begin(e));
      SoloOne(Steps(cfg), sh1, Connecting(event), Connect(f.up));
      var t2 := if f.up then Popping(ThenInsert(event)) else Buffering(event);
      SoloThen(cfg, sh, Idle, [Begin(e)], [Connect(f.up)], sh1, Connecting(event), sh1, t2);
      var rest;
      if f.up {
        rest := PersistSolo(cfg, sh1, event, f);
      } else {
        rest := OverflowSolo(cfg, sh1, event, f.spillOk);
      }
      actions := ([Begin(e)] + [Connect(f.up)]) + rest;
      SoloThen(cfg, sh, Idle, [Begin(e)] + [Connect(f.up)], rest, sh1, t2, Ingested(cfg, sh, e, f).0, Idle);
    }
    SoloIsRun(cfg, sh, Idle, actions);
    moves := Solo(actions);
  }
}
