/** What holds in every reachable state of the audit pipeline, under every
    interleaving of its threads and every pattern of failing calls. */
module AuditRuns {
  import opened Prelude
  import opened AuditEvents
  import opened Deque
  import opened AuditPipeline
  import opened SoloRuns

  ghost predicate Inv(cfg: Config, s: State) {
    && SharedOk(cfg, s.shared)
    && (forall i :: 0 <= i < |s.threads| ==> ThreadOk(cfg, s.threads[i]))
  }

  /** Every copy of x that entered the pipeline is in exactly one place. */
  ghost predicate Conserved(cfg: Config, s: State, x: Event) {
    AtRest(cfg, s.shared, x) + InFlight(cfg, s.threads, x) == Owed(s.shared, x)
  }

  lemma {:induction false} InFlightUpdate(cfg: Config, threads: seq<Thread>, i: nat, t: Thread, x: Event)
    requires i < |threads|
    ensures InFlight(cfg, threads[i := t], x) + Held(cfg, threads[i], x) == InFlight(cfg, threads, x) + Held(cfg, t, x)
  {
    var updated := threads[i := t];
    if i == 0 {
      assert updated[1..] == threads[1..];
    } else {
      InFlightUpdate(cfg, threads[1..], i - 1, t, x);
      assert updated[1..] == threads[1..][i - 1 := t];
    }
  }

  lemma {:induction false} InFlightIdle(cfg: Config, n: nat, x: Event)
    ensures InFlight(cfg, seq(n, i => Idle), x) == 0
  {
    var threads := seq(n, i => Idle);
    if n > 0 {
      InFlightIdle(cfg, n - 1, x);
      assert threads[1..] == seq(n - 1, i => Idle);
    }
  }

  lemma StepKeepsInv(cfg: Config, s: State, m: Move)
    requires Sound(cfg) && Inv(cfg, s)
    ensures Inv(cfg, Step(cfg, s, m))
  {
    if m.thread < |s.threads| {
      ThreadStepOk(cfg, s.shared, s.threads[m.thread], m.action);
    }
  }

  lemma StepConserves(cfg: Config, s: State, m: Move, x: Event)
    requires Sound(cfg) && Inv(cfg, s) && Conserved(cfg, s, x)
    ensures Conserved(cfg, Step(cfg, s, m), x)
  {
    if m.thread < |s.threads| {
      var t := s.threads[m.thread];
      ThreadStepBalances(cfg, s.shared, t, m.action, x);
      var (sh', t') := ThreadStep(cfg, s.shared, t, m.action);
      InFlightUpdate(cfg, s.threads, m.thread, t', x);
    }
  }

  lemma {:induction false} RunKeepsInv(cfg: Config, s: State, moves: seq<Move>)
    requires Sound(cfg) && Inv(cfg, s)
    ensures Inv(cfg, Run(cfg, s, moves))
    decreases |moves|
  {
    if moves != [] {
      StepKeepsInv(cfg, s, moves[0]);
      RunKeepsInv(cfg, Step(cfg, s, moves[0]), moves[1..]);
    }
  }

  lemma {:induction false} RunConserves(cfg: Config, s: State, moves: seq<Move>, x: Event)
    requires Sound(cfg) && Inv(cfg, s) && Conserved(cfg, s, x)
    ensures Conserved(cfg, Run(cfg, s, moves), x)
    decreases |moves|
  {
    if moves != [] {
      StepKeepsInv(cfg, s, moves[0]);
      StepConserves(cfg, s, moves[0], x);
      RunConserves(cfg, Step(cfg, s, moves[0]), moves[1..], x);
    }
  }

  /** Conservation, for any number of threads, any interleaving and any faults:
      the copies of an event in the store, the buffer, the spool, the threads and
      the lost list add up to the copies accepted, plus those read twice from a
      spool file that could not be removed. The buffer never exceeds its cap. */
  lemma EveryAcceptedEventIsAccountedFor(cfg: Config, n: nat, moves: seq<Move>, x: Event)
    requires Sound(cfg)
    ensures var s := Run(cfg, Start(n), moves);
            && |s.shared.buffer| <= BUFFER_CAP
            && Count(EventsOf(cfg, s.shared.stored), x) + Count(s.shared.buffer, x)
               + Count(DecodeAll(cfg, s.shared.spool), x) + InFlight(cfg, s.threads, x) + Count(s.shared.lost, x)
               == Count(s.shared.accepted, x) + Count(s.shared.duplicated, x)
  {
    InFlightIdle(cfg, n, x);
    RunKeepsInv(cfg, Start(n), moves);
    RunConserves(cfg, Start(n), moves, x);
  }

  // ---------------------------------------------------------------- the chain

  /** The producers' convention: events arrive without a hash. */
  predicate ArriveUnhashed(moves: seq<Move>) {
    forall m :: m in moves && m.action.Begin? ==> !Truthy(m.action.event.eventHash)
  }

  /** Same links and same payload: what signing leaves alone. */
  predicate SameLinks(a: Event, b: Event) {
    SameFacts(a, b) && a.eventHash == b.eventHash
  }

  ghost predicate AcceptedIsChained(sh: Shared) {
    && |sh.accepted| == |sh.chained|
    && forall i :: 0 <= i < |sh.accepted| ==> SameLinks(sh.accepted[i], sh.chained[i])
  }

  lemma {:induction false} SameLinksLinear(cfg: Config, a: seq<Event>, b: seq<Event>)
    requires |a| == |b| && Linear(cfg, b)
    requires forall i :: 0 <= i < |a| ==> SameLinks(a[i], b[i])
    ensures Linear(cfg, a)
    decreases |a|
  {
    if a != [] {
      var n := |a| - 1;
      SameLinksLinear(cfg, a[..n], b[..n]);
      assert SameLinks(a[n], b[n]);
      assert n > 0 ==> SameLinks(a[n - 1], b[n - 1]);
    }
  }

  lemma StepKeepsAccepted(cfg: Config, s: State, m: Move)
    requires !cfg.signing.KeyMissing? && AcceptedIsChained(s.shared)
    requires m.action.Begin? ==> !Truthy(m.action.event.eventHash)
    ensures AcceptedIsChained(Step(cfg, s, m).shared)
  {
    if m.thread < |s.threads| && s.threads[m.thread].Idle? && m.action.Begin? {
      var chained := ChainEvent(cfg, s.shared.head, m.action.event);
      var (sh', r) := AcceptEvent(cfg, s.shared, m.action.event);
      assert SameLinks(r.value, chained);
      assert sh'.accepted == s.shared.accepted + [r.value] && sh'.chained == s.shared.chained + [chained];
    }
  }

  lemma {:induction false} RunKeepsAccepted(cfg: Config, s: State, moves: seq<Move>)
    requires !cfg.signing.KeyMissing? && AcceptedIsChained(s.shared) && ArriveUnhashed(moves)
    ensures AcceptedIsChained(Run(cfg, s, moves).shared)
    decreases |moves|
  {
    if moves != [] {
      assert moves[0] in moves;
      StepKeepsAccepted(cfg, s, moves[0]);
      RunKeepsAccepted(cfg, Step(cfg, s, moves[0]), moves[1..]);
    }
  }

  /** Whatever the interleaving, the events that passed the chain lock form one
      linear chain whose last hash is the head, and unless signing is required
      without a key so do the accepted events. */
  lemma AcceptedLogIsLinear(cfg: Config, n: nat, moves: seq<Move>)
    requires Sound(cfg)
    ensures var sh := Run(cfg, Start(n), moves).shared;
            && Linear(cfg, sh.chained)
            && sh.head == HeadOf(sh.chained)
            && (!cfg.signing.KeyMissing? && ArriveUnhashed(moves) ==> Linear(cfg, sh.accepted))
  {
    RunKeepsInv(cfg, Start(n), moves);
    if !cfg.signing.KeyMissing? && ArriveUnhashed(moves) {
      RunKeepsAccepted(cfg, Start(n), moves);
      var sh := Run(cfg, Start(n), moves).shared;
      SameLinksLinear(cfg, sh.accepted, sh.chained);
    }
  }

  const PLAIN := Event(0, "default", "system", "act", "res", "allow", map[], None, None, None, None)

  /** With the key missing, an unsigned event moves the head and is then refused;
      an event that brings its own signature is accepted behind the gap. */
  lemma MissingKeyBreaksTheChain(cfg: Config) returns (moves: seq<Move>)
    requires Sound(cfg) && cfg.signing.KeyMissing?
    ensures ArriveUnhashed(moves) && !Linear(cfg, Run(cfg, Start(1), moves).shared.accepted)
  {
    var signed := PLAIN.(signature := Some("sig"));
    moves := [Move(0, Begin(PLAIN)), Move(0, Begin(signed))];
    var s1 := Step(cfg, Start(1), moves[0]);
    assert s1.shared.head.Some? && s1.threads[0] == Idle && s1.shared.accepted == [];
    var s2 := Step(cfg, s1, moves[1]);
    assert s2.shared.accepted == [ChainEvent(cfg, s1.shared.head, signed)];
    assert moves[1..] == [moves[1]];
    assert Run(cfg, Start(1), moves) == Run(cfg, s1, [moves[1]]) == Run(cfg, s2, []) == s2;
  }

  /** The accepted log is a linear chain in every run exactly when the signing
      key is not missing. */
  lemma ChainHoldsExactlyWithKey(cfg: Config)
    requires Sound(cfg)
    ensures (forall n: nat, moves: seq<Move> :: ArriveUnhashed(moves) ==>
             Linear(cfg, Run(cfg, Start(n), moves).shared.accepted))
            <==> !cfg.signing.KeyMissing?
  {
    if cfg.signing.KeyMissing? {
      var moves := MissingKeyBreaksTheChain(cfg);
    } else {
      forall n: nat, moves: seq<Move> | ArriveUnhashed(moves)
        ensures Linear(cfg, Run(cfg, Start(n), moves).shared.accepted)
      {
        AcceptedLogIsLinear(cfg, n, moves);
      }
    }
  }

  lemma {:induction false} CountDistinct(log: seq<Event>, x: Event)
    requires Distinct(log)
    ensures Count(log, x) <= 1
  {
    if log != [] {
      CountDistinct(log[1..], x);
      CountPositive(log[1..], x);
    }
  }

  // ---------------------------------------------------------------- duplication

  /** A step that reads events from a spool file it then cannot remove. */
  ghost predicate Rereads(cfg: Config, s: State, m: Move) {
    && m.thread < |s.threads| && s.threads[m.thread].Draining?
    && m.action.Drain? && m.action.readOk && !m.action.unlinkOk
    && DecodeAll(cfg, s.shared.spool) != []
  }

  ghost predicate NeverRereads(cfg: Config, s: State, moves: seq<Move>)
    decreases |moves|
  {
    moves == [] || (!Rereads(cfg, s, moves[0]) && NeverRereads(cfg, Step(cfg, s, moves[0]), moves[1..]))
  }

  lemma {:induction false} DuplicatesGrow(cfg: Config, s: State, moves: seq<Move>)
    ensures s.shared.duplicated <= Run(cfg, s, moves).shared.duplicated
    decreases |moves|
  {
    if moves != [] {
      DuplicatesGrow(cfg, Step(cfg, s, moves[0]), moves[1..]);
    }
  }

  /** A run duplicates nothing exactly when no step of it reads events from a file
      that then stays. */
  lemma {:induction false} DuplicatesExactly(cfg: Config, s: State, moves: seq<Move>)
    ensures Run(cfg, s, moves).shared.duplicated == s.shared.duplicated <==> NeverRereads(cfg, s, moves)
    decreases |moves|
  {
    if moves != [] {
      var s' := Step(cfg, s, moves[0]);
      DuplicatesExactly(cfg, s', moves[1..]);
      if Rereads(cfg, s, moves[0]) {
        DuplicatesGrow(cfg, s', moves[1..]);
        assert s'.shared.duplicated == s.shared.duplicated + DecodeAll(cfg, s.shared.spool);
      }
    }
  }

  /** Only accepted events are ever duplicated. */
  ghost predicate DuplicatesAccepted(s: State) {
    forall x :: x in s.shared.duplicated ==> x in s.shared.accepted
  }

  lemma SpooledIsAccepted(cfg: Config, s: State, x: Event)
    requires Conserved(cfg, s, x) && DuplicatesAccepted(s) && x in DecodeAll(cfg, s.shared.spool)
    ensures x in s.shared.accepted
  {
    CountPositive(DecodeAll(cfg, s.shared.spool), x);
    CountPositive(s.shared.accepted, x);
    CountPositive(s.shared.duplicated, x);
  }

  lemma StepKeepsDuplicatesAccepted(cfg: Config, s: State, m: Move)
    requires (forall x :: Conserved(cfg, s, x)) && DuplicatesAccepted(s)
    ensures DuplicatesAccepted(Step(cfg, s, m))
  {
    var s' := Step(cfg, s, m);
    forall x | x in s'.shared.duplicated ensures x in s'.shared.accepted {
      if x !in s.shared.duplicated {
        SpooledIsAccepted(cfg, s, x);
      }
    }
  }

  lemma {:induction false} RunKeepsDuplicatesAccepted(cfg: Config, s: State, moves: seq<Move>)
    requires Sound(cfg) && Inv(cfg, s) && (forall x :: Conserved(cfg, s, x)) && DuplicatesAccepted(s)
    ensures DuplicatesAccepted(Run(cfg, s, moves))
    decreases |moves|
  {
    if moves != [] {
      StepKeepsInv(cfg, s, moves[0]);
      forall x ensures Conserved(cfg, Step(cfg, s, moves[0]), x) {
        StepConserves(cfg, s, moves[0], x);
      }
      StepKeepsDuplicatesAccepted(cfg, s, moves[0]);
      RunKeepsDuplicatesAccepted(cfg, Step(cfg, s, moves[0]), moves[1..]);
    }
  }

  /** How often x is stored, buffered, spooled, held by a thread or lost. */
  function Places(cfg: Config, s: State, x: Event): nat {
    Count(EventsOf(cfg, s.shared.stored), x) + Count(s.shared.buffer, x)
    + Count(DecodeAll(cfg, s.shared.spool), x) + InFlight(cfg, s.threads, x) + Count(s.shared.lost, x)
  }

  /** No event is accepted twice. */
  lemma AcceptedOnce(cfg: Config, n: nat, moves: seq<Move>, x: Event)
    requires Sound(cfg) && Injective(cfg) && !cfg.signing.KeyMissing? && ArriveUnhashed(moves)
    requires x in Run(cfg, Start(n), moves).shared.accepted
    ensures Count(Run(cfg, Start(n), moves).shared.accepted, x) == 1
  {
    AcceptedLogIsLinear(cfg, n, moves);
    var log := Run(cfg, Start(n), moves).shared.accepted;
    forall i, j | 0 <= i < j < |log| ensures log[i] != log[j] {
      HashesDistinct(cfg, log, i, j);
    }
    CountDistinct(log, x);
    CountPositive(log, x);
  }

  /** With a collision-free hash, every accepted event is in exactly one of the
      store, the buffer, the spool, a thread or the lost list, exactly when no step
      of the run read events from a spool file that then stayed. */
  lemma OnePlaceExactly(cfg: Config, n: nat, moves: seq<Move>)
    requires Sound(cfg) && Injective(cfg) && !cfg.signing.KeyMissing? && ArriveUnhashed(moves)
    ensures var s := Run(cfg, Start(n), moves);
            (forall x :: x in s.shared.accepted ==> Places(cfg, s, x) == 1) <==> NeverRereads(cfg, Start(n), moves)
  {
    var s := Run(cfg, Start(n), moves);
    forall x | x in s.shared.accepted ensures Places(cfg, s, x) == 1 + Count(s.shared.duplicated, x) {
      EveryAcceptedEventIsAccountedFor(cfg, n, moves, x);
      AcceptedOnce(cfg, n, moves, x);
    }
    DuplicatesExactly(cfg, Start(n), moves);
    if s.shared.duplicated != [] {
      var x := s.shared.duplicated[0];
      forall y ensures Conserved(cfg, Start(n), y) {
        InFlightIdle(cfg, n, y);
      }
      RunKeepsDuplicatesAccepted(cfg, Start(n), moves);
      CountPositive(s.shared.duplicated, x);
      assert x in s.shared.accepted && Places(cfg, s, x) > 1;
    }
  }

  // ---------------------------------------------------------------- loss

  /** How many events a step drops. */
  function LossOf(sh: Shared, t: Thread): nat {
    match t
    case Refilling(events) => if events != [] && |sh.buffer| == BUFFER_CAP then 1 else 0
    case Forcing(_) => if |sh.buffer| == BUFFER_CAP then 1 else 0
    case Requeueing(rows, _) =>
      if rows != [] && |rows| + |sh.buffer| > BUFFER_CAP then |rows| + |sh.buffer| - BUFFER_CAP else 0
    case _ => 0
  }

  /** Events are lost at a full-buffer append (spool refill or last resort) and at
      a requeue that does not fit, in exactly these numbers, and nowhere else. */
  lemma LossIsExact(cfg: Config, sh: Shared, t: Thread, a: Action)
    requires |sh.buffer| <= BUFFER_CAP
    ensures var (sh', _) := ThreadStep(cfg, sh, t, a);
            sh.lost <= sh'.lost && |sh'.lost| == |sh.lost| + LossOf(sh, t)
  {
    if t.Requeueing? && t.rows != [] {
      RequeueClosedForm(sh.buffer, EventsOf(cfg, t.rows));
    }
  }

  // ---------------------------------------------------------------- serial runs

  ghost predicate OneBusy(s: State) {
    forall i, j :: 0 <= i < j < |s.threads| ==> s.threads[i].Idle? || s.threads[j].Idle?
  }

  /** One request at a time. */
  ghost predicate Serial(cfg: Config, s: State, moves: seq<Move>)
    decreases |moves|
  {
    OneBusy(s) && (moves == [] || Serial(cfg, Step(cfg, s, moves[0]), moves[1..]))
  }

  /** No request is under way. */
  ghost predicate Quiet(s: State) {
    forall i :: 0 <= i < |s.threads| ==> s.threads[i].Idle?
  }

  /** What a step takes in has somewhere to go: a drain that reads the spool brings
      no more than the buffer has room for, and an event that found the buffer full
      can be spooled. */
  ghost predicate Fits(cfg: Config, s: State, m: Move) {
    m.thread < |s.threads| ==>
      match s.threads[m.thread]
      case Draining =>
        m.action.Drain? && m.action.readOk ==> |s.shared.buffer| + |DecodeAll(cfg, s.shared.spool)| <= BUFFER_CAP
      case Spilling(_) => m.action.Call? ==> cfg.hasSpool && m.action.ok
      case _ => true
  }

  ghost predicate AlwaysFits(cfg: Config, s: State, moves: seq<Move>)
    decreases |moves|
  {
    moves == [] || (Fits(cfg, s, moves[0]) && AlwaysFits(cfg, Step(cfg, s, moves[0]), moves[1..]))
  }

  /** While a thread holds popped rows nobody has touched the buffer. */
  ghost predicate SerialOk(s: State) {
    forall i :: 0 <= i < |s.threads| && (s.threads[i].Flushing? || s.threads[i].Requeueing?) ==>
      s.shared.buffer == [] && |s.threads[i].rows| <= BUFFER_CAP
  }

  lemma StepKeepsSerialOk(cfg: Config, s: State, m: Move)
    requires Sound(cfg) && Inv(cfg, s) && OneBusy(s) && SerialOk(s) && OneBusy(Step(cfg, s, m))
    ensures SerialOk(Step(cfg, s, m))
  {
    if m.thread < |s.threads| {
      var s' := Step(cfg, s, m);
      if s.threads[m.thread].Popping? {
        PopIsLossless(cfg, s.shared);
      }
      forall i | 0 <= i < |s'.threads| && (s'.threads[i].Flushing? || s'.threads[i].Requeueing?)
        ensures s'.shared.buffer == [] && |s'.threads[i].rows| <= BUFFER_CAP
      {
        if i != m.thread {
          assert s'.threads[m.thread].Idle? && s.threads[m.thread].Idle?;
        }
      }
    }
  }

  lemma SerialRequeueFits(cfg: Config, s: State, m: Move)
    requires Inv(cfg, s) && SerialOk(s)
    requires m.thread < |s.threads| && s.threads[m.thread].Requeueing?
    ensures Step(cfg, s, m).shared.lost == s.shared.lost
  {
    LossIsExact(cfg, s.shared, s.threads[m.thread], m.action);
  }

  /** In serial runs a requeue never loses an event. */
  lemma {:induction false} SerialRunsNeverLoseAtRequeue(cfg: Config, s: State, moves: seq<Move>, k: nat)
    requires Sound(cfg) && Inv(cfg, s) && SerialOk(s) && Serial(cfg, s, moves) && k < |moves|
    ensures var before := Run(cfg, s, moves[..k]);
            moves[k].thread < |before.threads| && before.threads[moves[k].thread].Requeueing? ==>
              Step(cfg, before, moves[k]).shared.lost == before.shared.lost
    decreases k
  {
    assert Serial(cfg, Step(cfg, s, moves[0]), moves[1..]);
    if k == 0 {
      if moves[0].thread < |s.threads| && s.threads[moves[0].thread].Requeueing? {
        SerialRequeueFits(cfg, s, moves[0]);
      }
    } else {
      StepKeepsInv(cfg, s, moves[0]);
      StepKeepsSerialOk(cfg, s, moves[0]);
      SerialRunsNeverLoseAtRequeue(cfg, Step(cfg, s, moves[0]), moves[1..], k - 1);
      assert moves[..k][1..] == moves[1..][..k - 1];
    }
  }

  /** What a serial run keeps of each thread as long as every step fits: it is not
      at the last resort, it turns to the spool only with the buffer full, and the
      events it still has to refill have room. */
  ghost predicate HasRoom(sh: Shared, t: Thread) {
    && !t.Forcing?
    && (t.Spilling? ==> |sh.buffer| == BUFFER_CAP)
    && (t.Refilling? ==> |sh.buffer| + |t.events| <= BUFFER_CAP)
  }

  ghost predicate RoomOk(s: State) {
    forall i :: 0 <= i < |s.threads| ==> HasRoom(s.shared, s.threads[i])
  }

  /** The thread is bound to drop an event. */
  ghost predicate Doomed(sh: Shared, t: Thread) {
    || (t.Forcing? && |sh.buffer| == BUFFER_CAP)
    || (t.Refilling? && |sh.buffer| + |t.events| > BUFFER_CAP)
  }

  ghost predicate DoomedBy(s: State, i: nat) {
    i < |s.threads| && Doomed(s.shared, s.threads[i])
  }

  /** A step that fits keeps the room; one that does not loses nothing yet, but
      leaves a thread that will. */
  lemma ThreadFromRoom(cfg: Config, s: State, m: Move)
    requires Inv(cfg, s) && SerialOk(s) && m.thread < |s.threads| && HasRoom(s.shared, s.threads[m.thread])
    ensures var (sh', t') := ThreadStep(cfg, s.shared, s.threads[m.thread], m.action);
            && sh'.lost == s.shared.lost
            && if Fits(cfg, s, m) then HasRoom(sh', t') else Doomed(sh', t')
  {
    LossIsExact(cfg, s.shared, s.threads[m.thread], m.action);
  }

  /** In a serial run a thread that is under way sees no other thread touch the buffer. */
  lemma OthersLeaveBuffer(cfg: Config, s: State, m: Move, i: nat)
    requires OneBusy(s) && OneBusy(Step(cfg, s, m)) && i < |s.threads| && i != m.thread && !s.threads[i].Idle?
    ensures var s' := Step(cfg, s, m);
            && s'.threads[i] == s.threads[i] && s'.shared.buffer == s.shared.buffer && s'.shared.lost == s.shared.lost
  {
    var s' := Step(cfg, s, m);
    if m.thread < |s.threads| {
      assert s'.threads[i] == s.threads[i];
      assert s'.threads[m.thread].Idle? && s.threads[m.thread].Idle?;
    }
  }

  lemma StepFromRoom(cfg: Config, s: State, m: Move)
    requires Inv(cfg, s) && SerialOk(s) && RoomOk(s) && OneBusy(s) && OneBusy(Step(cfg, s, m))
    ensures Step(cfg, s, m).shared.lost == s.shared.lost
    ensures if Fits(cfg, s, m) then RoomOk(Step(cfg, s, m)) else DoomedBy(Step(cfg, s, m), m.thread)
  {
    if m.thread < |s.threads| {
      var s' := Step(cfg, s, m);
      ThreadFromRoom(cfg, s, m);
      forall i | 0 <= i < |s'.threads| && Fits(cfg, s, m) ensures HasRoom(s'.shared, s'.threads[i]) {
        if i != m.thread && !s.threads[i].Idle? {
          OthersLeaveBuffer(cfg, s, m, i);
        }
      }
    }
  }

  lemma StepWhileDoomed(cfg: Config, s: State, m: Move, i: nat)
    requires Inv(cfg, s) && DoomedBy(s, i) && OneBusy(s) && OneBusy(Step(cfg, s, m))
    ensures |Step(cfg, s, m).shared.lost| > |s.shared.lost| ||
            (DoomedBy(Step(cfg, s, m), i) && Step(cfg, s, m).shared.lost == s.shared.lost)
  {
    if m.thread == i {
      LossIsExact(cfg, s.shared, s.threads[i], m.action);
    } else {
      OthersLeaveBuffer(cfg, s, m, i);
    }
  }

  lemma {:induction false} LostGrows(cfg: Config, s: State, moves: seq<Move>)
    requires Sound(cfg) && Inv(cfg, s)
    ensures |s.shared.lost| <= |Run(cfg, s, moves).shared.lost|
    decreases |moves|
  {
    if moves != [] {
      if moves[0].thread < |s.threads| {
        LossIsExact(cfg, s.shared, s.threads[moves[0].thread], moves[0].action);
      }
      StepKeepsInv(cfg, s, moves[0]);
      LostGrows(cfg, Step(cfg, s, moves[0]), moves[1..]);
    }
  }

  lemma {:induction false} DoomedRunsLose(cfg: Config, s: State, moves: seq<Move>, i: nat)
    requires Sound(cfg) && Inv(cfg, s) && Serial(cfg, s, moves) && DoomedBy(s, i) && Quiet(Run(cfg, s, moves))
    ensures |Run(cfg, s, moves).shared.lost| > |s.shared.lost|
    decreases |moves|
  {
    var s' := Step(cfg, s, moves[0]);
    assert Serial(cfg, s', moves[1..]);
    StepKeepsInv(cfg, s, moves[0]);
    StepWhileDoomed(cfg, s, moves[0], i);
    if DoomedBy(s', i) {
      DoomedRunsLose(cfg, s', moves[1..], i);
    } else {
      LostGrows(cfg, s', moves[1..]);
    }
  }

  /** A serial run, finished or not, loses nothing while every step fits. */
  lemma {:induction false} SerialRunsThatFitLoseNothing(cfg: Config, s: State, moves: seq<Move>)
    requires Sound(cfg) && Inv(cfg, s) && SerialOk(s) && RoomOk(s)
    requires Serial(cfg, s, moves) && AlwaysFits(cfg, s, moves)
    ensures Run(cfg, s, moves).shared.lost == s.shared.lost
    decreases |moves|
  {
    if moves != [] {
      var s' := Step(cfg, s, moves[0]);
      assert Serial(cfg, s', moves[1..]);
      StepKeepsInv(cfg, s, moves[0]);
      StepKeepsSerialOk(cfg, s, moves[0]);
      StepFromRoom(cfg, s, moves[0]);
      SerialRunsThatFitLoseNothing(cfg, s', moves[1..]);
    }
  }

  lemma {:induction false} SerialRunsThatDoNotFitLose(cfg: Config, s: State, moves: seq<Move>)
    requires Sound(cfg) && Inv(cfg, s) && SerialOk(s) && RoomOk(s)
    requires Serial(cfg, s, moves) && !AlwaysFits(cfg, s, moves) && Quiet(Run(cfg, s, moves))
    ensures |Run(cfg, s, moves).shared.lost| > |s.shared.lost|
    decreases |moves|
  {
    var s' := Step(cfg, s, moves[0]);
    assert Serial(cfg, s', moves[1..]);
    StepKeepsInv(cfg, s, moves[0]);
    StepKeepsSerialOk(cfg, s, moves[0]);
    StepFromRoom(cfg, s, moves[0]);
    if Fits(cfg, s, moves[0]) {
      SerialRunsThatDoNotFitLose(cfg, s', moves[1..]);
    } else {
      DoomedRunsLose(cfg, s', moves[1..], moves[0].thread);
    }
  }

  /** One request at a time, from any state between requests to any other: nothing
      is lost exactly when every drain of the spool fits in the buffer and every
      event that found the buffer full could be spooled. */
  lemma SerialRunsLoseNothingExactly(cfg: Config, s: State, moves: seq<Move>)
    requires Sound(cfg) && Inv(cfg, s) && Quiet(s) && Serial(cfg, s, moves) && Quiet(Run(cfg, s, moves))
    ensures Run(cfg, s, moves).shared.lost == s.shared.lost <==> AlwaysFits(cfg, s, moves)
  {
    if AlwaysFits(cfg, s, moves) {
      SerialRunsThatFitLoseNothing(cfg, s, moves);
    } else {
      SerialRunsThatDoNotFitLose(cfg, s, moves);
    }
  }
}
