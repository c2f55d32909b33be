/** Provisions in flight together: the gate reserves nothing, so each of them may
    pass on the same count (apps/broker/app/main.py). */
module QuotaRace {
  import opened Prelude
  import opened QuotaGate

  /** Each slot is a request handler; a filled one has passed the gate and has yet to
      be rendered and metered. */
  datatype State = State(records: seq<Record>, slots: seq<Option<Attempt>>)

  datatype Move = Ask(slot: nat, attempt: Attempt) | Finish(slot: nat)

  function Step(quotas: Quotas, s: State, m: Move): State {
    if m.slot >= |s.slots| then s
    else
      match m
      case Ask(i, a) =>
        if s.slots[i].None? && Checked(quotas, s.records, a.service, a.gatePack).allow
        then s.(slots := s.slots[i := Some(a)]) else s
      case Finish(i) =>
        if s.slots[i].None? then s
        else
          var a := s.slots[i].value;
          State(if a.proceeds && a.metered then s.records + [Metered(a)] else s.records, s.slots[i := None])
  }

  function RunRace(quotas: Quotas, s: State, moves: seq<Move>): State
    decreases |moves|
  {
    if moves == [] then s else RunRace(quotas, Step(quotas, s, moves[0]), moves[1..])
  }

  function Begin(records: seq<Record>, n: nat): State {
    State(records, seq(n, i => None))
  }

  /** Every question to the gate was answered from all records. */
  ghost predicate OnePageRace(quotas: Quotas, s: State, moves: seq<Move>)
    decreases |moves|
  {
    moves != [] ==>
      && (moves[0].Ask? ==> |s.records| <= PAGE)
      && OnePageRace(quotas, Step(quotas, s, moves[0]), moves[1..])
  }

  function InFlight(slots: seq<Option<Attempt>>, service: string): nat {
    if slots == [] then 0
    else Weight(slots[0], service) + InFlight(slots[1..], service)
  }

  function Weight(slot: Option<Attempt>, service: string): nat {
    if slot.Some? && slot.value.service == service then 1 else 0
  }

  lemma {:induction false} InFlightUpdate(slots: seq<Option<Attempt>>, i: nat, slot: Option<Attempt>, service: string)
    requires i < |slots|
    ensures InFlight(slots[i := slot], service) + Weight(slots[i], service)
            == InFlight(slots, service) + Weight(slot, service)
    decreases |slots|
  {
    var updated := slots[i := slot];
    if i == 0 {
      assert updated[1..] == slots[1..];
    } else {
      InFlightUpdate(slots[1..], i - 1, slot, service);
      assert updated[1..] == slots[1..][i - 1 := slot];
    }
  }

  lemma {:induction false} InFlightAtMost(slots: seq<Option<Attempt>>, service: string)
    ensures InFlight(slots, service) <= |slots|
  {
    if slots != [] {
      InFlightAtMost(slots[1..], service);
    }
  }

  lemma {:induction false} NoneInFlight(n: nat, service: string)
    ensures InFlight(seq(n, i => None), service) == 0
  {
    var slots: seq<Option<Attempt>> := seq(n, i => None);
    if n > 0 {
      NoneInFlight(n - 1, service);
      assert slots[1..] == seq(n - 1, i => None);
    }
  }

  /** Metered and admitted together. */
  ghost predicate Bounded(s: State, service: string, bound: int) {
    Count(s.records, Some(service), None) + InFlight(s.slots, service) <= bound
  }

  lemma AskKeepsBound(quotas: Quotas, s: State, i: nat, a: Attempt, service: string, cap: int, bound: int)
    requires Caps(quotas, ServiceScope(service), cap) && Bounded(s, service, bound) && cap - 1 + |s.slots| <= bound
    requires i < |s.slots| && |s.records| <= PAGE
    ensures Bounded(Step(quotas, s, Ask(i, a)), service, bound)
  {
    var slots := s.slots[i := Some(a)];
    if s.slots[i].None? && Checked(quotas, s.records, a.service, a.gatePack).allow {
      assert Step(quotas, s, Ask(i, a)) == State(s.records, slots);
      InFlightUpdate(s.slots, i, Some(a), service);
      if a.service == service {
        GateAllowsExactly(quotas, s.records, service, a.gatePack);
        assert NewestPage(s.records) == s.records && Count(s.records, Some(service), None) <= cap - 1;
        InFlightAtMost(slots, service);
      }
    }
  }

  lemma FinishKeepsBound(quotas: Quotas, s: State, i: nat, service: string, bound: int)
    requires Bounded(s, service, bound) && i < |s.slots|
    ensures Bounded(Step(quotas, s, Finish(i)), service, bound)
  {
    if s.slots[i].Some? {
      InFlightUpdate(s.slots, i, None, service);
      CountSnoc(s.records, Metered(s.slots[i].value), Some(service), None);
    }
  }

  lemma StepKeepsBound(quotas: Quotas, s: State, m: Move, service: string, cap: int, bound: int)
    requires Caps(quotas, ServiceScope(service), cap) && Bounded(s, service, bound) && cap - 1 + |s.slots| <= bound
    requires m.Ask? ==> |s.records| <= PAGE
    ensures Bounded(Step(quotas, s, m), service, bound)
  {
    if m.slot < |s.slots| {
      match m
      case Ask(i, a) => AskKeepsBound(quotas, s, i, a, service, cap, bound);
      case Finish(i) => FinishKeepsBound(quotas, s, i, service, bound);
    }
  }

  lemma {:induction false} RunKeepsBound(quotas: Quotas, s: State, moves: seq<Move>, service: string, cap: int,
                                         bound: int)
    requires Caps(quotas, ServiceScope(service), cap) && Bounded(s, service, bound) && cap - 1 + |s.slots| <= bound
    requires OnePageRace(quotas, s, moves)
    ensures Bounded(RunRace(quotas, s, moves), service, bound)
    decreases |moves|
  {
    if moves != [] {
      StepKeepsBound(quotas, s, moves[0], service, cap, bound);
      RunKeepsBound(quotas, Step(quotas, s, moves[0]), moves[1..], service, cap, bound);
    }
  }

  /** With n handlers, whatever the interleaving, a capped service stays at most the
      larger of its start and n - 1 above its cap. */
  lemma RaceOvershootsByInFlight(quotas: Quotas, records: seq<Record>, n: nat, moves: seq<Move>,
                                 service: string, cap: int)
    requires Caps(quotas, ServiceScope(service), cap) && OnePageRace(quotas, Begin(records, n), moves)
    ensures Count(RunRace(quotas, Begin(records, n), moves).records, Some(service), None)
            <= Max(Count(records, Some(service), None), cap + n - 1)
  {
    NoneInFlight(n, service);
    RunKeepsBound(quotas, Begin(records, n), moves, service, cap,
                  Max(Count(records, Some(service), None), cap + n - 1));
  }

  // ---------------------------------------------------------------- the bound is met

  lemma {:induction false} RunSnoc(quotas: Quotas, s: State, moves: seq<Move>, m: Move)
    ensures RunRace(quotas, s, moves + [m]) == Step(quotas, RunRace(quotas, s, moves), m)
    decreases |moves|
  {
    if moves == [] {
      assert moves + [m] == [m];
    } else {
      assert (moves + [m])[1..] == moves[1..] + [m];
      RunSnoc(quotas, Step(quotas, s, moves[0]), moves[1..], m);
    }
  }

  /** The first k slots ask and are let in. */
  lemma {:induction false} AskFirst(quotas: Quotas, records: seq<Record>, n: nat, a: Attempt, k: nat)
    returns (moves: seq<Move>)
    requires k <= n && Checked(quotas, records, a.service, a.gatePack).allow
    ensures RunRace(quotas, Begin(records, n), moves)
            == State(records, seq(n, i => if i < k then Some(a) else None))
  {
    var slots: seq<Option<Attempt>> := seq(n, i => if i < k then Some(a) else None);
    if k == 0 {
      moves := [];
      assert slots == seq(n, i => None);
    } else {
      moves := AskFirst(quotas, records, n, a, k - 1);
      RunSnoc(quotas, Begin(records, n), moves, Ask(k - 1, a));
      moves := moves + [Ask(k - 1, a)];
      var before: seq<Option<Attempt>> := seq(n, i => if i < k - 1 then Some(a) else None);
      assert slots == before[k - 1 := Some(a)];
    }
  }

  /** All of them have asked; the first k finish and are metered. */
  lemma {:induction false} FinishFirst(quotas: Quotas, records: seq<Record>, n: nat, a: Attempt, k: nat)
    returns (moves: seq<Move>)
    requires k <= n && Checked(quotas, records, a.service, a.gatePack).allow && a.proceeds && a.metered
    ensures RunRace(quotas, Begin(records, n), moves)
            == State(records + Repeat(Metered(a), k), seq(n, i => if i < k then None else Some(a)))
  {
    var slots: seq<Option<Attempt>> := seq(n, i => if i < k then None else Some(a));
    if k == 0 {
      moves := AskFirst(quotas, records, n, a, n);
      assert slots == seq(n, i => if i < n then Some(a) else None);
      assert records + Repeat(Metered(a), 0) == records;
    } else {
      moves := FinishFirst(quotas, records, n, a, k - 1);
      RunSnoc(quotas, Begin(records, n), moves, Finish(k - 1));
      moves := moves + [Finish(k - 1)];
      var before: seq<Option<Attempt>> := seq(n, i => if i < k - 1 then None else Some(a));
      assert slots == before[k - 1 := None];
      assert records + Repeat(Metered(a), k) == records + Repeat(Metered(a), k - 1) + [Metered(a)];
    }
  }

  /** One below the cap, n provisions that ask before any of them is metered all go
      through: the count ends n - 1 above the cap. */
  lemma RaceMeetsTheBound(service: string, cap: nat, n: nat) returns (records: seq<Record>, moves: seq<Move>)
    requires 1 <= cap <= PAGE
    ensures var quotas := map[ServiceScope(service) := Quota(Some(cap), None, "lifetime")];
            && Count(records, Some(service), None) == cap - 1
            && Count(RunRace(quotas, Begin(records, n), moves).records, Some(service), None) == cap + n - 1
  {
    var quotas := map[ServiceScope(service) := Quota(Some(cap), None, "lifetime")];
    var a := Attempt(service, None, None, true, true);
    records := Repeat(Metered(a), cap - 1);
    CountRepeat(Metered(a), cap - 1, Some(service), None);
    GateAllowsExactly(quotas, records, service, None);
    moves := FinishFirst(quotas, records, n, a, n);
    CountConcat(records, Repeat(Metered(a), n), Some(service), None);
    CountRepeat(Metered(a), n, Some(service), None);
  }
}
