/** The loss that needs two threads: between a flush's pop and its requeue the lock is
    free, another request may fill the buffer, and a failed insert then puts the rows
    back into a buffer that has no room for them (apps/audit-service/app/main.py). */
module AuditRace {
  import opened Prelude
  import opened AuditEvents
  import opened Deque
  import opened AuditPipeline
  import opened AuditRuns
  import opened AuditRecovery
  import opened SoloRuns

  /** A move of thread i, with what it leaves behind. */
  lemma TakeStep(cfg: Config, s: State, moves: seq<Move>, i: nat, a: Action, sh: Shared, t: Thread)
    returns (moves': seq<Move>)
    requires i < |Run(cfg, s, moves).threads|
    requires ThreadStep(cfg, Run(cfg, s, moves).shared, Run(cfg, s, moves).threads[i], a) == (sh, t)
    ensures Run(cfg, s, moves') == State(sh, Run(cfg, s, moves).threads[i := t])
  {
    moves' := moves + [Move(i, a)];
    RunConcat(cfg, s, moves, [Move(i, a)]);
    var last := Run(cfg, s, moves);
    assert Run(cfg, last, [Move(i, a)]) == Run(cfg, Step(cfg, last, Move(i, a)), []);
  }

  /** A request that finds the store down and the buffer with room. */
  lemma BufferOne(cfg: Config, s: State, moves: seq<Move>, j: nat) returns (moves': seq<Move>)
    requires var last := Run(cfg, s, moves);
             j < |last.threads| && last.threads[j].Idle? && |last.shared.buffer| < BUFFER_CAP
    ensures var last, last' := Run(cfg, s, moves), Run(cfg, s, moves');
            && last'.threads == last.threads && last'.shared.lost == last.shared.lost
            && |last'.shared.buffer| == |last.shared.buffer| + 1
  {
    var last := Run(cfg, s, moves);
    var (sh, r) := AcceptEvent(cfg, last.shared, SIGNED);
    SignedIsAccepted(cfg, last.shared);
    moves' := TakeStep(cfg, s, moves, j, Begin(SIGNED), sh, Connecting(r.value));
    moves' := TakeStep(cfg, s, moves', j, Connect(false), sh, Buffering(r.value));
    moves' := TakeStep(cfg, s, moves', j, Go, Push(sh, r.value), Idle);
    assert last.threads[j := Idle] == last.threads;
  }

  /** The buffer is filled up. */
  lemma {:induction false} FillBuffer(cfg: Config, s: State, moves: seq<Move>, j: nat) returns (moves': seq<Move>)
    requires var last := Run(cfg, s, moves);
             j < |last.threads| && last.threads[j].Idle? && |last.shared.buffer| <= BUFFER_CAP
    ensures var last, last' := Run(cfg, s, moves), Run(cfg, s, moves');
            && last'.threads == last.threads && last'.shared.lost == last.shared.lost
            && |last'.shared.buffer| == BUFFER_CAP
    decreases BUFFER_CAP - |Run(cfg, s, moves).shared.buffer|
  {
    moves' := moves;
    if |Run(cfg, s, moves).shared.buffer| < BUFFER_CAP {
      moves' := BufferOne(cfg, s, moves, j);
      moves' := FillBuffer(cfg, s, moves', j);
    }
  }

  /** From any state in which one thread holds popped rows and another is idle: if the
      other fills the buffer before the insert fails, the requeue drops as many events
      as it puts back. */
  lemma FullBufferLosesAtRequeue(cfg: Config, s: State, i: nat, j: nat) returns (moves: seq<Move>)
    requires Inv(cfg, s) && i < |s.threads| && j < |s.threads|
    requires s.threads[i].Flushing? && s.threads[i].rows != [] && s.threads[j].Idle?
    ensures var before := Run(cfg, s, moves);
            var after := Step(cfg, before, Move(i, Go));
            && before.shared.lost == s.shared.lost
            && |after.shared.lost| == |s.shared.lost| + |s.threads[i].rows|
  {
    assert Run(cfg, s, []) == s;
    moves := FillBuffer(cfg, s, [], j);
    var last := Run(cfg, s, moves);
    var t := Requeueing(s.threads[i].rows, s.threads[i].next);
    moves := TakeStep(cfg, s, moves, i, Call(false), last.shared, t);
    LossIsExact(cfg, last.shared, t, Go);
  }

  /** Such a state is reached from process start. */
  lemma PoppedRowsAreReachable(cfg: Config) returns (moves: seq<Move>)
    requires Sound(cfg)
    ensures var s := Run(cfg, Start(2), moves);
            Inv(cfg, s) && |s.threads| == 2 && s.threads[0].Flushing? && s.threads[0].rows != [] && s.threads[1].Idle?
  {
    var start := Start(2);
    assert Run(cfg, start, []) == start;
    moves := BufferOne(cfg, start, [], 0);
    var s := Run(cfg, start, moves);
    var (sh, r) := AcceptEvent(cfg, s.shared, SIGNED);
    SignedIsAccepted(cfg, s.shared);
    moves := TakeStep(cfg, start, moves, 0, Begin(SIGNED), sh, Connecting(r.value));
    moves := TakeStep(cfg, start, moves, 0, Connect(true), sh, Popping(ThenInsert(r.value)));
    RunKeepsInv(cfg, start, moves);
    PopIsLossless(cfg, sh);
    var rows := RowsOf(cfg, sh.buffer);
    moves := TakeStep(cfg, start, moves, 0, Go, sh.(buffer := []), Flushing(rows, ThenInsert(r.value)));
    RunKeepsInv(cfg, start, moves);
  }
}
