/** The audit pipeline as a step machine: any number of request threads share a
    capped buffer, a disk spool, the chain head and the row store. Each step is
    one lock-held block or one call to the store, so the locks are free between
    a flush's pop and its requeue (apps/audit-service/app/main.py,
    libs/common/sovereign/audit_spool.py). */
module AuditPipeline {
  import opened Prelude
  import opened AuditEvents
  import opened Deque
  import opened SoloRuns

  /** The shared state. The last four fields record history: every event that
      passed the chain lock, every event answered with 202, every event a full
      buffer dropped, and every event read twice because the spool file could
      not be removed after it was read. */
  datatype Shared = Shared(
    buffer: seq<Event>,
    spool: seq<string>,
    head: Option<string>,
    stored: seq<Row>,
    chained: seq<Event>,
    accepted: seq<Event>,
    lost: seq<Event>,
    duplicated: seq<Event>)

  const EMPTY := Shared([], [], None, [], [], [], [], [])

  // ---------------------------------------------------------------- atomic blocks

  function AcceptEvent(cfg: Config, sh: Shared, e: Event): (Shared, Option<Event>) {
    var (head, prepared) := PrepareEvent(cfg, sh.head, e);
    var chained := if Truthy(e.eventHash) then sh.chained else sh.chained + [ChainEvent(cfg, sh.head, e)];
    var sh' := sh.(head := head, chained := chained);
    if prepared.None? then (sh', None)
    else (sh'.(accepted := sh.accepted + [prepared.value]), prepared)
  }

  function Push(sh: Shared, e: Event): Shared {
    var (buffer, dropped) := Append(sh.buffer, e);
    sh.(buffer := buffer, lost := sh.lost + dropped)
  }

  /** The pop loop of a flush prepares every event again before making its row. */
  function PrepareRows(cfg: Config, head: Option<string>, events: seq<Event>): Option<(Option<string>, seq<Row>)>
    decreases |events|
  {
    if events == [] then Some((head, []))
    else
      var (head', prepared) := PrepareEvent(cfg, head, events[0]);
      if prepared.None? then None
      else
        match PrepareRows(cfg, head', events[1..])
        case None => None
        case Some((last, rows)) => Some((last, [RowOf(cfg, prepared.value)] + rows))
  }

  /** Lines that do not parse are skipped. */
  function DecodeAll(cfg: Config, lines: seq<string>): seq<Event> {
    if lines == [] then []
    else
      var n := |lines| - 1;
      DecodeAll(cfg, lines[..n]) +
      match cfg.decode(lines[n])
      case None => []
      case Some(e) => [e]
  }

  /** Draining reads the file and then removes it; either call may fail. */
  function DrainSpool(cfg: Config, sh: Shared, readOk: bool, unlinkOk: bool): (Shared, seq<Event>) {
    if !readOk then (sh, [])
    else
      var events := DecodeAll(cfg, sh.spool);
      (if unlinkOk then sh.(spool := []) else sh.(duplicated := sh.duplicated + events), events)
  }

  // ---------------------------------------------------------------- threads

  datatype Resume = ThenInsert(event: Event) | ThenDone

  /** Where a request stands. Every constructor but Idle is inside ingest_event. */
  datatype Thread =
    | Idle
    | Connecting(event: Event)
    | Popping(next: Resume)
    | Flushing(rows: seq<Row>, next: Resume)
    | Requeueing(rows: seq<Row>, next: Resume)
    | Inserting(event: Event)
    | Draining
    | Refilling(events: seq<Event>)
    | Buffering(event: Event)
    | Spilling(event: Event)
    | Forcing(event: Event)

  /** What the environment decides in a step: the event that arrives, and whether
      each call into the store, the spool or the file system succeeds. */
  datatype Action =
    | Begin(event: Event)
    | Connect(up: bool)
    | Call(ok: bool)
    | Drain(readOk: bool, unlinkOk: bool)
    | Go

  function Resumed(next: Resume): Thread {
    match next
    case ThenInsert(e) => Inserting(e)
    case ThenDone => Idle
  }

  /** One step of one thread; an action that does not fit the thread does nothing. */
  function ThreadStep(cfg: Config, sh: Shared, t: Thread, a: Action): (Shared, Thread) {
    match t
    case Idle =>
      if !a.Begin? then (sh, t)
      else
        var (sh', r) := AcceptEvent(cfg, sh, a.event);
        (sh', if r.None? then Idle else Connecting(r.value))
    case Connecting(e) =>
      if !a.Connect? then (sh, t)
      else (sh, if a.up then Popping(ThenInsert(e)) else Buffering(e))
    case Popping(next) =>
      (match PrepareRows(cfg, sh.head, sh.buffer)
       case None => (sh, t)
       case Some((head, rows)) =>
         (sh.(buffer := [], head := head), if rows == [] then Resumed(next) else Flushing(rows, next)))
    case Flushing(rows, next) =>
      if !a.Call? then (sh, t)
      else if a.ok then (sh.(stored := sh.stored + rows), Resumed(next))
      else (sh, Requeueing(rows, next))
    case Requeueing(rows, next) =>
      var (buffer, dropped) := Requeue(sh.buffer, EventsOf(cfg, rows));
      (sh.(buffer := buffer, lost := sh.lost + dropped), Resumed(next))
    case Inserting(e) =>
      if !a.Call? then (sh, t)
      else if a.ok then (sh.(stored := sh.stored + [RowOf(cfg, e)]), if cfg.hasSpool then Draining else Idle)
      else (sh, Buffering(e))
    case Draining =>
      if !a.Drain? then (sh, t)
      else
        var (sh', events) := DrainSpool(cfg, sh, a.readOk, a.unlinkOk);
        (sh', Refilling(events))
    case Refilling(events) =>
      if events == [] then (sh, Popping(ThenDone))
      else (Push(sh, events[0]), Refilling(events[1..]))
    case Buffering(e) =>
      if |sh.buffer| < BUFFER_CAP then (Push(sh, e), Idle) else (sh, Spilling(e))
    case Spilling(e) =>
      if !a.Call? then (sh, t)
      else if cfg.hasSpool && a.ok then (sh.(spool := sh.spool + [cfg.encode(e)]), Idle)
      else (sh, Forcing(e))
    case Forcing(e) => (Push(sh, e), Idle)
  }

  function Steps(cfg: Config): (Shared, Thread, Action) -> (Shared, Thread) {
    (sh, t, a) => ThreadStep(cfg, sh, t, a)
  }

  // ---------------------------------------------------------------- runs

  datatype State = State(shared: Shared, threads: seq<Thread>)

  type Move = ThreadMove<Action>

  function Step(cfg: Config, s: State, m: Move): State {
    if m.thread >= |s.threads| then s
    else
      var (sh, t) := ThreadStep(cfg, s.shared, s.threads[m.thread], m.action);
      State(sh, s.threads[m.thread := t])
  }

  /** Any interleaving is a sequence of moves. */
  function Run(cfg: Config, s: State, moves: seq<Move>): State
    decreases |moves|
  {
    if moves == [] then s else Run(cfg, Step(cfg, s, moves[0]), moves[1..])
  }

  function Start(n: nat): State {
    State(EMPTY, seq(n, i => Idle))
  }

  // ---------------------------------------------------------------- conservation

  function HeldNext(next: Resume, x: Event): nat {
    match next
    case ThenInsert(e) => Count([e], x)
    case ThenDone => 0
  }

  /** Copies of x that a thread carries. */
  function Held(cfg: Config, t: Thread, x: Event): nat {
    match t
    case Idle => 0
    case Connecting(e) => Count([e], x)
    case Popping(next) => HeldNext(next, x)
    case Flushing(rows, next) => Count(EventsOf(cfg, rows), x) + HeldNext(next, x)
    case Requeueing(rows, next) => Count(EventsOf(cfg, rows), x) + HeldNext(next, x)
    case Inserting(e) => Count([e], x)
    case Draining => 0
    case Refilling(events) => Count(events, x)
    case Buffering(e) => Count([e], x)
    case Spilling(e) => Count([e], x)
    case Forcing(e) => Count([e], x)
  }

  function InFlight(cfg: Config, threads: seq<Thread>, x: Event): nat {
    if threads == [] then 0
    else Held(cfg, threads[0], x) + InFlight(cfg, threads[1..], x)
  }

  /** Copies of x in the row store, the buffer, the spool and the lost list. */
  function AtRest(cfg: Config, sh: Shared, x: Event): nat {
    Count(EventsOf(cfg, sh.stored), x) + Count(sh.buffer, x) + Count(DecodeAll(cfg, sh.spool), x) + Count(sh.lost, x)
  }

  /** Copies of x that entered the pipeline. */
  function Owed(sh: Shared, x: Event): nat {
    Count(sh.accepted, x) + Count(sh.duplicated, x)
  }

  ghost predicate SharedOk(cfg: Config, sh: Shared) {
    && |sh.buffer| <= BUFFER_CAP
    && AllPrepared(cfg, sh.buffer)
    && AllPrepared(cfg, DecodeAll(cfg, sh.spool))
    && Linear(cfg, sh.chained)
    && sh.head == HeadOf(sh.chained)
  }

  ghost predicate NextOk(cfg: Config, next: Resume) {
    next.ThenInsert? ==> Prepared(cfg, next.event)
  }

  ghost predicate ThreadOk(cfg: Config, t: Thread) {
    match t
    case Idle => true
    case Draining => true
    case Popping(next) => NextOk(cfg, next)
    case Flushing(rows, next) => AllPrepared(cfg, EventsOf(cfg, rows)) && NextOk(cfg, next)
    case Requeueing(rows, next) => AllPrepared(cfg, EventsOf(cfg, rows)) && NextOk(cfg, next)
    case Refilling(events) => AllPrepared(cfg, events)
    case Connecting(e) => Prepared(cfg, e)
    case Inserting(e) => Prepared(cfg, e)
    case Buffering(e) => Prepared(cfg, e)
    case Spilling(e) => Prepared(cfg, e)
    case Forcing(e) => Prepared(cfg, e)
  }

  lemma {:induction false} PrepareRowsStable(cfg: Config, head: Option<string>, events: seq<Event>)
    requires Sound(cfg) && AllPrepared(cfg, events)
    ensures PrepareRows(cfg, head, events) == Some((head, RowsOf(cfg, events)))
  {
    if events != [] {
      assert Prepared(cfg, events[0]);
      PrepareRowsStable(cfg, head, events[1..]);
      assert RowsOf(cfg, events) == [RowOf(cfg, events[0])] + RowsOf(cfg, events[1..]);
    }
  }

  lemma SpillDecodes(cfg: Config, lines: seq<string>, e: Event)
    requires Sound(cfg)
    ensures DecodeAll(cfg, lines + [cfg.encode(e)]) == DecodeAll(cfg, lines) + [e]
  {
    assert (lines + [cfg.encode(e)])[..|lines|] == lines;
  }

  /** A line that does not parse, such as one torn by a crash, costs no other event. */
  lemma BadLineIsSkipped(cfg: Config, before: seq<string>, bad: string, after: seq<string>)
    requires cfg.decode(bad) == None
    ensures DecodeAll(cfg, before + [bad] + after) == DecodeAll(cfg, before + after)
    decreases |after|
  {
    var s := before + [bad] + after;
    if after == [] {
      assert s == before + [bad] && s[..|before|] == before && before + after == before;
    } else {
      var n := |after| - 1;
      BadLineIsSkipped(cfg, before, bad, after[..n]);
      assert s[..|s| - 1] == before + [bad] + after[..n];
      assert (before + after)[..|before + after| - 1] == before + after[..n];
    }
  }

  /** A flush pops exactly the buffered events: preparing them again neither
      changes them nor moves the chain head. */
  lemma PopIsLossless(cfg: Config, sh: Shared)
    requires Sound(cfg) && SharedOk(cfg, sh)
    ensures PrepareRows(cfg, sh.head, sh.buffer) == Some((sh.head, RowsOf(cfg, sh.buffer)))
    ensures EventsOf(cfg, RowsOf(cfg, sh.buffer)) == sh.buffer
  {
    PrepareRowsStable(cfg, sh.head, sh.buffer);
    RowsRoundTrip(cfg, sh.buffer);
  }

  /** Every step of every thread keeps the buffer bound, the chain, and the fact
      that each event at rest or in flight has been prepared. */
  lemma ThreadStepOk(cfg: Config, sh: Shared, t: Thread, a: Action)
    requires Sound(cfg) && SharedOk(cfg, sh) && ThreadOk(cfg, t)
    ensures var (sh', t') := ThreadStep(cfg, sh, t, a);
            SharedOk(cfg, sh') && ThreadOk(cfg, t')
  {
    match t
    case Idle => BeginOk(cfg, sh, a);
    case Popping(next) => PopIsLossless(cfg, sh);
    case Requeueing(rows, next) => RequeueOk(cfg, sh, rows, next, a);
    case Spilling(e) => SpillDecodes(cfg, sh.spool, e);
    case _ =>
  }

  lemma BeginOk(cfg: Config, sh: Shared, a: Action)
    requires Sound(cfg) && SharedOk(cfg, sh)
    ensures var (sh', t') := ThreadStep(cfg, sh, Idle, a);
            SharedOk(cfg, sh') && ThreadOk(cfg, t')
  {
    if a.Begin? {
      PreparingIsStable(cfg, sh.head, a.event, sh.head);
      LinearExtend(cfg, sh.chained, a.event);
    }
  }

  lemma RequeueOk(cfg: Config, sh: Shared, rows: seq<Row>, next: Resume, a: Action)
    requires SharedOk(cfg, sh) && ThreadOk(cfg, Requeueing(rows, next))
    ensures var (sh', t') := ThreadStep(cfg, sh, Requeueing(rows, next), a);
            SharedOk(cfg, sh') && ThreadOk(cfg, t')
  {
    var events := EventsOf(cfg, rows);
    RequeueMembers(sh.buffer, events);
    if events != [] {
      RequeueClosedForm(sh.buffer, events);
    }
  }

  /** What a step adds at rest and in flight is what it adds to the history. */
  ghost predicate Balanced(cfg: Config, sh: Shared, t: Thread, a: Action, x: Event) {
    var (sh', t') := ThreadStep(cfg, sh, t, a);
    AtRest(cfg, sh', x) + Held(cfg, t', x) + Owed(sh, x) == AtRest(cfg, sh, x) + Held(cfg, t, x) + Owed(sh', x)
  }

  lemma PoppingBalances(cfg: Config, sh: Shared, next: Resume, a: Action, x: Event)
    requires PrepareRows(cfg, sh.head, sh.buffer) == Some((sh.head, RowsOf(cfg, sh.buffer)))
    requires EventsOf(cfg, RowsOf(cfg, sh.buffer)) == sh.buffer
    ensures Balanced(cfg, sh, Popping(next), a, x)
  {
    var rows := RowsOf(cfg, sh.buffer);
    var (sh', t') := ThreadStep(cfg, sh, Popping(next), a);
    assert sh' == sh.(buffer := []);
    assert Held(cfg, t', x) == Count(EventsOf(cfg, rows), x) + HeldNext(next, x);
  }

  lemma FlushingBalances(cfg: Config, sh: Shared, rows: seq<Row>, next: Resume, a: Action, x: Event)
    ensures Balanced(cfg, sh, Flushing(rows, next), a, x)
  {
    StoreBalances(cfg, sh, rows, x);
  }

  lemma RequeueingBalances(cfg: Config, sh: Shared, rows: seq<Row>, next: Resume, a: Action, x: Event)
    requires SharedOk(cfg, sh)
    ensures Balanced(cfg, sh, Requeueing(rows, next), a, x)
  {
    RequeueBalances(cfg, sh, EventsOf(cfg, rows), x);
  }

  lemma RefillingBalances(cfg: Config, sh: Shared, events: seq<Event>, a: Action, x: Event)
    requires SharedOk(cfg, sh)
    ensures Balanced(cfg, sh, Refilling(events), a, x)
  {
    if events != [] {
      CountTail(events, x);
      PushBalances(cfg, sh, events[0], x);
    }
  }

  lemma DrainingBalances(cfg: Config, sh: Shared, a: Action, x: Event)
    ensures Balanced(cfg, sh, Draining, a, x)
  {
    if a.Drain? {
      DrainBalances(cfg, sh, a.readOk, a.unlinkOk, x);
    }
  }

  lemma IdleBalances(cfg: Config, sh: Shared, a: Action, x: Event)
    ensures Balanced(cfg, sh, Idle, a, x)
  {
    if a.Begin? {
      AcceptBalances(cfg, sh, a.event, x);
    }
  }

  lemma InsertingBalances(cfg: Config, sh: Shared, e: Event, a: Action, x: Event)
    requires Sound(cfg) && Prepared(cfg, e)
    ensures Balanced(cfg, sh, Inserting(e), a, x)
  {
    InsertBalances(cfg, sh, e, x);
  }

  lemma SpillingBalances(cfg: Config, sh: Shared, e: Event, a: Action, x: Event)
    requires Sound(cfg)
    ensures Balanced(cfg, sh, Spilling(e), a, x)
  {
    SpillBalances(cfg, sh, e, x);
  }

  lemma PushingBalances(cfg: Config, sh: Shared, e: Event, a: Action, x: Event)
    requires |sh.buffer| <= BUFFER_CAP
    ensures Balanced(cfg, sh, Buffering(e), a, x) && Balanced(cfg, sh, Forcing(e), a, x)
  {
    PushBalances(cfg, sh, e, x);
  }

  /** No step creates, copies or forgets an event without the history saying so. */
  lemma ThreadStepBalances(cfg: Config, sh: Shared, t: Thread, a: Action, x: Event)
    requires Sound(cfg) && SharedOk(cfg, sh) && ThreadOk(cfg, t)
    ensures Balanced(cfg, sh, t, a, x)
  {
    match t
    case Idle => IdleBalances(cfg, sh, a, x);
    case Connecting(e) =>
    case Popping(next) =>
      PopIsLossless(cfg, sh);
      PoppingBalances(cfg, sh, next, a, x);
    case Flushing(rows, next) => FlushingBalances(cfg, sh, rows, next, a, x);
    case Requeueing(rows, next) => RequeueingBalances(cfg, sh, rows, next, a, x);
    case Draining => DrainingBalances(cfg, sh, a, x);
    case Refilling(events) => RefillingBalances(cfg, sh, events, a, x);
    case Inserting(e) => InsertingBalances(cfg, sh, e, a, x);
    case Buffering(e) => PushingBalances(cfg, sh, e, a, x);
    case Spilling(e) => SpillingBalances(cfg, sh, e, a, x);
    case Forcing(e) => PushingBalances(cfg, sh, e, a, x);
  }

  lemma AcceptBalances(cfg: Config, sh: Shared, e: Event, x: Event)
    ensures var (sh', r) := AcceptEvent(cfg, sh, e);
            && AtRest(cfg, sh', x) == AtRest(cfg, sh, x)
            && Owed(sh', x) == Owed(sh, x) + if r.Some? then Count([r.value], x) else 0
  {
    var (_, r) := AcceptEvent(cfg, sh, e);
    if r.Some? {
      CountConcat(sh.accepted, [r.value], x);
    }
  }

  lemma PushBalances(cfg: Config, sh: Shared, e: Event, x: Event)
    requires |sh.buffer| <= BUFFER_CAP
    ensures AtRest(cfg, Push(sh, e), x) == AtRest(cfg, sh, x) + Count([e], x)
  {
    AppendCounts(sh.buffer, e, x);
    CountConcat(sh.lost, Append(sh.buffer, e).1, x);
  }

  lemma RequeueBalances(cfg: Config, sh: Shared, events: seq<Event>, x: Event)
    requires |sh.buffer| <= BUFFER_CAP
    ensures var (kept, dropped) := Requeue(sh.buffer, events);
            AtRest(cfg, sh.(buffer := kept, lost := sh.lost + dropped), x) == AtRest(cfg, sh, x) + Count(events, x)
  {
    RequeueCounts(sh.buffer, events, x);
    CountConcat(sh.lost, Requeue(sh.buffer, events).1, x);
  }

  lemma DrainBalances(cfg: Config, sh: Shared, readOk: bool, unlinkOk: bool, x: Event)
    ensures var (sh', events) := DrainSpool(cfg, sh, readOk, unlinkOk);
            AtRest(cfg, sh', x) + Count(events, x) + Owed(sh, x) == AtRest(cfg, sh, x) + Owed(sh', x)
  {
    CountConcat(sh.duplicated, DecodeAll(cfg, sh.spool), x);
  }

  lemma SpillBalances(cfg: Config, sh: Shared, e: Event, x: Event)
    requires Sound(cfg)
    ensures AtRest(cfg, sh.(spool := sh.spool + [cfg.encode(e)]), x) == AtRest(cfg, sh, x) + Count([e], x)
  {
    SpillDecodes(cfg, sh.spool, e);
    CountConcat(DecodeAll(cfg, sh.spool), [e], x);
  }

  lemma StoreBalances(cfg: Config, sh: Shared, rows: seq<Row>, x: Event)
    ensures AtRest(cfg, sh.(stored := sh.stored + rows), x) == AtRest(cfg, sh, x) + Count(EventsOf(cfg, rows), x)
  {
    assert EventsOf(cfg, sh.stored + rows) == EventsOf(cfg, sh.stored) + EventsOf(cfg, rows);
    CountConcat(EventsOf(cfg, sh.stored), EventsOf(cfg, rows), x);
  }

  lemma InsertBalances(cfg: Config, sh: Shared, e: Event, x: Event)
    requires Sound(cfg) && Prepared(cfg, e)
    ensures AtRest(cfg, sh.(stored := sh.stored + [RowOf(cfg, e)]), x) == AtRest(cfg, sh, x) + Count([e], x)
  {
    RowRoundTrip(cfg, e);
    StoreBalances(cfg, sh, [RowOf(cfg, e)], x);
    assert EventsOf(cfg, [RowOf(cfg, e)]) == [e];
  }
}
