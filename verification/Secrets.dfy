/** The rotating secrets cache: a get reads the clock, checks the cache under the
    lock, fetches from the backend without it, and stores under it again
    (libs/common/sovereign/secrets.py). */
module Secrets {
  import opened Prelude

  /** When the entry's get read the clock, and the value it fetched. */
  datatype Entry = Entry(at: real, value: string)

  type Cache = map<string, Entry>

  predicate Hit(ttl: real, cache: Cache, name: string, now: real) {
    name in cache && now - cache[name].at < ttl
  }

  /** What one undisturbed get answers and leaves in the cache. */
  function Got(ttl: real, cache: Cache, name: string, now: real, backend: Option<string>): (Cache, Option<string>) {
    if Hit(ttl, cache, name, now) then (cache, Some(cache[name].value))
    else if backend.None? then (cache, None)
    else (cache[name := Entry(now, backend.value)], backend)
  }

  // ---------------------------------------------------------------- the provider

  class RotatingSecretsProvider {
    const ttl: real
    var cache: Cache

    constructor (ttl: real)
      ensures this.ttl == ttl && cache == map[]
    {
      this.ttl, cache := ttl, map[];
    }

    /** One get, undisturbed: backend is what the backend answers, None when the
        secret is not found. */
    method Get(name: string, now: real, backend: Option<string>) returns (value: Option<string>)
      modifies this
      ensures (cache, value) == Got(ttl, old(cache), name, now, backend)
    {
      if name in cache {
        var hit := cache[name];
        if now - hit.at < ttl {
          return Some(hit.value);
        }
      }
      if backend.None? {
        return None;
      }
      cache := cache[name := Entry(now, backend.value)];
      return backend;
    }

    method ForceExpire()
      modifies this
      ensures cache == map[]
    {
      cache := map[];
    }
  }

  // ---------------------------------------------------------------- concurrent gets

  datatype Thread =
    | Idle
    | Checking(name: string, now: real)
    | Fetching(name: string, now: real)
    | Storing(name: string, now: real, value: string)

  /** The backend at one point in time. */
  datatype Instant = Instant(clock: real, backend: map<string, string>)

  /** A get that returned: its name, its clock read and its answer. */
  datatype Return = Return(name: string, now: real, value: string)

  datatype State = State(
    clock: real,
    backend: map<string, string>,
    cache: Cache,
    threads: seq<Thread>,
    history: seq<Instant>,
    answers: seq<Return>)

  datatype Move =
    | Advance(dt: real)
    | Rotate(name: string, value: string)
    | Remove(name: string)
    | ForceExpire
    | Begin(thread: nat, name: string)
    | Check(thread: nat)
    | Fetch(thread: nat, ok: bool)
    | Store(thread: nat)

  /** Time passes or the backend changes: a new instant begins. */
  function At(s: State, clock: real, backend: map<string, string>): State {
    s.(clock := clock, backend := backend, history := s.history + [Instant(clock, backend)])
  }

  function Goto(s: State, i: nat, t: Thread): State
    requires i < |s.threads|
  {
    s.(threads := s.threads[i := t])
  }

  function Done(s: State, i: nat, value: string): State
    requires i < |s.threads| && !s.threads[i].Idle?
  {
    var t := s.threads[i];
    Goto(s, i, Idle).(answers := s.answers + [Return(t.name, t.now, value)])
  }

  function Step(ttl: real, s: State, m: Move): State {
    match m
    case Advance(dt) => if dt > 0.0 then At(s, s.clock + dt, s.backend) else s
    case Rotate(name, value) => At(s, s.clock, s.backend[name := value])
    case Remove(name) => At(s, s.clock, s.backend - {name})
    case ForceExpire => s.(cache := map[])
    case Begin(i, name) =>
      if i < |s.threads| && s.threads[i].Idle? then Goto(s, i, Checking(name, s.clock)) else s
    case Check(i) =>
      if i < |s.threads| && s.threads[i].Checking? then
        var t := s.threads[i];
        if Hit(ttl, s.cache, t.name, t.now) then Done(s, i, s.cache[t.name].value)
        else Goto(s, i, Fetching(t.name, t.now))
      else s
    case Fetch(i, ok) =>
      if i < |s.threads| && s.threads[i].Fetching? then
        var t := s.threads[i];
        Goto(s, i, if ok && t.name in s.backend then Storing(t.name, t.now, s.backend[t.name]) else Idle)
      else s
    case Store(i) =>
      if i < |s.threads| && s.threads[i].Storing? then
        var t := s.threads[i];
        Done(s.(cache := s.cache[t.name := Entry(t.now, t.value)]), i, t.value)
      else s
  }

  function Run(ttl: real, s: State, moves: seq<Move>): State
    decreases |moves|
  {
    if moves == [] then s else Run(ttl, Step(ttl, s, moves[0]), moves[1..])
  }

  function Start(clock: real, backend: map<string, string>, n: nat): State {
    State(clock, backend, map[], seq(n, i => Idle), [Instant(clock, backend)], [])
  }

  function Held(backend: map<string, string>, name: string, ok: bool): Option<string> {
    if ok && name in backend then Some(backend[name]) else None
  }

  /** A get that nobody disturbs is a run of the step machine, so what holds of every
      interleaving holds of the provider's method. */
  lemma GetIsARun(ttl: real, s: State, i: nat, name: string, ok: bool) returns (moves: seq<Move>)
    requires i < |s.threads| && s.threads[i].Idle?
    ensures var (cache, value) := Got(ttl, s.cache, name, s.clock, Held(s.backend, name, ok));
            Run(ttl, s, moves)
            == s.(cache := cache,
                  answers := s.answers + if value.Some? then [Return(name, s.clock, value.value)] else [])
  {
    moves := [Begin(i, name), Check(i), Fetch(i, ok), Store(i)];
    var s1 := Step(ttl, s, moves[0]);
    var s2 := Step(ttl, s1, moves[1]);
    var s3 := Step(ttl, s2, moves[2]);
    var s4 := Step(ttl, s3, moves[3]);
    RunFour(ttl, s, moves);
    assert s4.threads == s.threads;
    assert s.answers + [] == s.answers;
  }

  lemma RunFour(ttl: real, s: State, moves: seq<Move>)
    requires |moves| == 4
    ensures Run(ttl, s, moves) == Step(ttl, Step(ttl, Step(ttl, Step(ttl, s, moves[0]), moves[1]), moves[2]), moves[3])
  {
    var s1 := Step(ttl, s, moves[0]);
    var s2 := Step(ttl, s1, moves[1]);
    var s3 := Step(ttl, s2, moves[2]);
    assert moves[1..][1..] == [moves[2]] + [moves[3]];
    RunCons(ttl, s2, moves[2], [moves[3]]);
    RunCons(ttl, s3, moves[3], []);
    assert [moves[3]] + [] == [moves[3]];
  }

  // ---------------------------------------------------------------- freshness

  /** The backend held value at some instant not before t. */
  ghost predicate HeldSince(history: seq<Instant>, name: string, value: string, t: real) {
    exists j :: 0 <= j < |history| && history[j].clock >= t && name in history[j].backend &&
      history[j].backend[name] == value
  }

  lemma HeldSinceExtends(history: seq<Instant>, next: Instant, name: string, value: string, t: real)
    requires HeldSince(history, name, value, t)
    ensures HeldSince(history + [next], name, value, t)
  {
    var j :| 0 <= j < |history| && history[j].clock >= t && name in history[j].backend &&
      history[j].backend[name] == value;
    assert (history + [next])[j] == history[j];
  }

  ghost predicate Fresh(ttl: real, history: seq<Instant>, r: Return) {
    exists j :: 0 <= j < |history| && (history[j].clock > r.now - ttl || history[j].clock >= r.now)
                && r.name in history[j].backend && history[j].backend[r.name] == r.value
  }

  lemma FreshExtends(ttl: real, history: seq<Instant>, next: Instant, r: Return)
    requires Fresh(ttl, history, r)
    ensures Fresh(ttl, history + [next], r)
  {
    var j :| 0 <= j < |history| && (history[j].clock > r.now - ttl || history[j].clock >= r.now)
             && r.name in history[j].backend && history[j].backend[r.name] == r.value;
    assert (history + [next])[j] == history[j];
  }

  ghost predicate ThreadOk(s: State, t: Thread) {
    match t
    case Idle => true
    case Checking(_, now) => now <= s.clock
    case Fetching(_, now) => now <= s.clock
    case Storing(name, now, value) => now <= s.clock && HeldSince(s.history, name, value, now)
  }

  ghost predicate Inv(ttl: real, s: State) {
    && s.history != [] && s.history[|s.history| - 1] == Instant(s.clock, s.backend)
    && (forall name :: name in s.cache ==> HeldSince(s.history, name, s.cache[name].value, s.cache[name].at))
    && (forall i :: 0 <= i < |s.threads| ==> ThreadOk(s, s.threads[i]))
    && (forall r :: r in s.answers ==> Fresh(ttl, s.history, r))
  }

  lemma AtKeepsInv(ttl: real, s: State, clock: real, backend: map<string, string>)
    requires Inv(ttl, s) && clock >= s.clock
    ensures Inv(ttl, At(s, clock, backend))
  {
    var next := Instant(clock, backend);
    var s' := At(s, clock, backend);
    forall name | name in s.cache ensures HeldSince(s'.history, name, s.cache[name].value, s.cache[name].at) {
      HeldSinceExtends(s.history, next, name, s.cache[name].value, s.cache[name].at);
    }
    forall i | 0 <= i < |s.threads| ensures ThreadOk(s', s.threads[i]) {
      var t := s.threads[i];
      if t.Storing? {
        HeldSinceExtends(s.history, next, t.name, t.value, t.now);
      }
    }
    forall r | r in s.answers ensures Fresh(ttl, s'.history, r) {
      FreshExtends(ttl, s.history, next, r);
    }
  }

  lemma DoneKeepsInv(ttl: real, s: State, i: nat, value: string, t: real)
    requires Inv(ttl, s) && i < |s.threads| && !s.threads[i].Idle?
    requires HeldSince(s.history, s.threads[i].name, value, t) && (t > s.threads[i].now - ttl || t >= s.threads[i].now)
    ensures Inv(ttl, Done(s, i, value))
  {
    var r := Return(s.threads[i].name, s.threads[i].now, value);
    assert Fresh(ttl, s.history, r);
  }

  lemma CheckKeepsInv(ttl: real, s: State, i: nat)
    requires Inv(ttl, s)
    ensures Inv(ttl, Step(ttl, s, Check(i)))
  {
    if i < |s.threads| && s.threads[i].Checking? && Hit(ttl, s.cache, s.threads[i].name, s.threads[i].now) {
      var e := s.cache[s.threads[i].name];
      DoneKeepsInv(ttl, s, i, e.value, e.at);
    }
  }

  lemma FetchKeepsInv(ttl: real, s: State, i: nat, ok: bool)
    requires Inv(ttl, s)
    ensures Inv(ttl, Step(ttl, s, Fetch(i, ok)))
  {
    if i < |s.threads| && s.threads[i].Fetching? && s.threads[i].name in s.backend {
      var t := s.threads[i];
      assert s.history[|s.history| - 1].backend[t.name] == s.backend[t.name];
      assert HeldSince(s.history, t.name, s.backend[t.name], t.now);
    }
  }

  lemma StoreKeepsInv(ttl: real, s: State, i: nat)
    requires Inv(ttl, s)
    ensures Inv(ttl, Step(ttl, s, Store(i)))
  {
    if i < |s.threads| && s.threads[i].Storing? {
      var t := s.threads[i];
      DoneKeepsInv(ttl, s.(cache := s.cache[t.name := Entry(t.now, t.value)]), i, t.value, t.now);
    }
  }

  lemma StepKeepsInv(ttl: real, s: State, m: Move)
    requires Inv(ttl, s)
    ensures Inv(ttl, Step(ttl, s, m))
  {
    match m
    case Advance(dt) => if dt > 0.0 { AtKeepsInv(ttl, s, s.clock + dt, s.backend); }
    case Rotate(name, value) => AtKeepsInv(ttl, s, s.clock, s.backend[name := value]);
    case Remove(name) => AtKeepsInv(ttl, s, s.clock, s.backend - {name});
    case ForceExpire =>
    case Begin(i, name) =>
    case Check(i) => CheckKeepsInv(ttl, s, i);
    case Fetch(i, ok) => FetchKeepsInv(ttl, s, i, ok);
    case Store(i) => StoreKeepsInv(ttl, s, i);
  }

  lemma {:induction false} RunKeepsInv(ttl: real, s: State, moves: seq<Move>)
    requires Inv(ttl, s)
    ensures Inv(ttl, Run(ttl, s, moves))
    decreases |moves|
  {
    if moves != [] {
      StepKeepsInv(ttl, s, moves[0]);
      RunKeepsInv(ttl, Step(ttl, s, moves[0]), moves[1..]);
    }
  }

  /** Under every interleaving of gets, forced expiries and rotations, each answer
      was the backend's value at some instant less than one TTL before the get's
      clock read, or later. */
  lemma EveryAnswerIsFresh(ttl: real, clock: real, backend: map<string, string>, n: nat, moves: seq<Move>, r: Return)
    requires r in Run(ttl, Start(clock, backend, n), moves).answers
    ensures Fresh(ttl, Run(ttl, Start(clock, backend, n), moves).history, r)
  {
    RunKeepsInv(ttl, Start(clock, backend, n), moves);
  }

  /** Rotation reaches every get within one TTL: once the backend has held only v
      since time t, gets that start a TTL or more after t answer v. */
  lemma RotationIsPickedUpWithinTtl(ttl: real, clock: real, backend: map<string, string>, n: nat, moves: seq<Move>,
                                    r: Return, t: real, v: string)
    requires ttl > 0.0 && r in Run(ttl, Start(clock, backend, n), moves).answers && r.now - ttl >= t
    requires forall k :: k in Run(ttl, Start(clock, backend, n), moves).history ==>
               k.clock > t && r.name in k.backend ==> k.backend[r.name] == v
    ensures r.value == v
  {
    EveryAnswerIsFresh(ttl, clock, backend, n, moves, r);
    var history := Run(ttl, Start(clock, backend, n), moves).history;
    var j :| 0 <= j < |history| && (history[j].clock > r.now - ttl || history[j].clock >= r.now)
             && r.name in history[j].backend && history[j].backend[r.name] == r.value;
    assert history[j] in history;
  }

  // ---------------------------------------------------------------- forced expiry

  /** Moves that leave the backend's value for name alone. */
  predicate Untouched(moves: seq<Move>, name: string) {
    forall m :: m in moves ==> !(m.Rotate? && m.name == name) && !(m.Remove? && m.name == name)
  }

  /** Some get fetched an older value less than a TTL ago and has yet to store it. */
  ghost predicate StaleInFlight(ttl: real, s: State, name: string, v: string) {
    exists i :: 0 <= i < |s.threads| && s.threads[i].Storing? && s.threads[i].name == name
                && s.threads[i].value != v && s.clock - s.threads[i].now < ttl
  }

  /** Relative to time c: everything cached or about to be cached for name is v or too old. */
  ghost predicate CutOver(ttl: real, s: State, name: string, v: string, c: real) {
    && s.clock >= c
    && name in s.backend && s.backend[name] == v
    && (name in s.cache ==> s.cache[name].value == v || c - s.cache[name].at >= ttl)
    && (forall i :: 0 <= i < |s.threads| && s.threads[i].Storing? && s.threads[i].name == name ==>
          s.threads[i].value == v || c - s.threads[i].now >= ttl)
  }

  ghost predicate AnswersFrom(answers: seq<Return>, name: string, v: string, c: real) {
    forall r :: r in answers && r.name == name && r.now >= c ==> r.value == v
  }

  lemma StepKeepsCutOver(ttl: real, s: State, m: Move, name: string, v: string, c: real, seen: nat)
    requires ttl > 0.0 && CutOver(ttl, s, name, v, c) && Untouched([m], name)
    requires seen <= |s.answers| && AnswersFrom(s.answers[seen..], name, v, c)
    ensures CutOver(ttl, Step(ttl, s, m), name, v, c)
    ensures seen <= |Step(ttl, s, m).answers| && AnswersFrom(Step(ttl, s, m).answers[seen..], name, v, c)
  {
    assert m in [m];
    var s' := Step(ttl, s, m);
    if s'.answers != s.answers {
      var r := s'.answers[|s.answers|];
      assert s'.answers[seen..] == s.answers[seen..] + [r];
      assert r.name == name && r.now >= c ==> r.value == v;
    }
  }

  lemma {:induction false} RunKeepsCutOver(ttl: real, s: State, moves: seq<Move>, name: string, v: string, c: real,
                                           seen: nat)
    requires ttl > 0.0 && CutOver(ttl, s, name, v, c) && Untouched(moves, name)
    requires seen <= |s.answers| && AnswersFrom(s.answers[seen..], name, v, c)
    ensures var s' := Run(ttl, s, moves);
            seen <= |s'.answers| && AnswersFrom(s'.answers[seen..], name, v, c)
    decreases |moves|
  {
    if moves != [] {
      assert moves[0] in moves;
      StepKeepsCutOver(ttl, s, moves[0], name, v, c, seen);
      RunKeepsCutOver(ttl, Step(ttl, s, moves[0]), moves[1..], name, v, c, seen);
    }
  }

  /** After a forced expiry, with v in the backend: every later answer to a get that
      reads the clock from now on is v, exactly when no get is still holding an
      older value fetched less than a TTL ago. */
  lemma ForcedExpiryCutsOverExactly(ttl: real, s: State, name: string, v: string)
    requires ttl > 0.0 && name !in s.cache && name in s.backend && s.backend[name] == v
    ensures (forall moves: seq<Move> :: Untouched(moves, name) ==>
               var s' := Run(ttl, s, moves);
               |s.answers| <= |s'.answers| && AnswersFrom(s'.answers[|s.answers|..], name, v, s.clock))
            <==> !StaleInFlight(ttl, s, name, v)
  {
    if StaleInFlight(ttl, s, name, v) {
      var moves := StaleValueReturns(ttl, s, name, v);
    } else {
      forall moves: seq<Move> | Untouched(moves, name)
        ensures var s' := Run(ttl, s, moves);
                |s.answers| <= |s'.answers| && AnswersFrom(s'.answers[|s.answers|..], name, v, s.clock)
      {
        RunKeepsCutOver(ttl, s, moves, name, v, s.clock, |s.answers|);
      }
    }
  }

  /** The value in flight is stored after the expiry, and the next get finds it. */
  lemma StaleValueReturns(ttl: real, s: State, name: string, v: string) returns (moves: seq<Move>)
    requires name !in s.cache && StaleInFlight(ttl, s, name, v)
    ensures Untouched(moves, name)
    ensures var s' := Run(ttl, s, moves);
            |s.answers| <= |s'.answers| && !AnswersFrom(s'.answers[|s.answers|..], name, v, s.clock)
  {
    var i :| 0 <= i < |s.threads| && s.threads[i].Storing? && s.threads[i].name == name
             && s.threads[i].value != v && s.clock - s.threads[i].now < ttl;
    moves := [Store(i), Begin(i, name), Check(i)];
    var t := s.threads[i];
    var s1 := Step(ttl, s, Store(i));
    assert s1.cache[name] == Entry(t.now, t.value) && s1.threads[i] == Idle;
    var s2 := Step(ttl, s1, Begin(i, name));
    assert s2.threads[i] == Checking(name, s.clock) && Hit(ttl, s2.cache, name, s.clock);
    var s3 := Step(ttl, s2, Check(i));
    var r := Return(name, s.clock, t.value);
    assert s3.answers == s.answers + [Return(name, t.now, t.value), r];
    assert moves[1..] == [Begin(i, name), Check(i)] && moves[1..][1..] == [Check(i)];
    assert Run(ttl, s, moves) == Run(ttl, s1, moves[1..]) == Run(ttl, s2, [Check(i)]) == Run(ttl, s3, []) == s3;
    assert s3.answers[|s.answers|..][1] == r;
    assert r in s3.answers[|s.answers|..];
  }

  /** Such a state is reachable: the old value is fetched, the backend rotates, the
      cache is expired, and the old value is still on its way into the cache. */
  lemma ForcedExpiryIsNotInstant(ttl: real) returns (moves: seq<Move>)
    requires ttl > 0.0
    ensures var s := Run(ttl, Start(0.0, map["db" := "old"], 1), moves);
            moves != [] && moves[|moves| - 1] == ForceExpire && "db" in s.backend && s.backend["db"] == "new" &&
              StaleInFlight(ttl, s, "db", "new")
  {
    moves := [Begin(0, "db"), Check(0), Fetch(0, true), Rotate("db", "new"), ForceExpire];
    var s0 := Start(0.0, map["db" := "old"], 1);
    var s1 := Step(ttl, s0, moves[0]);
    var s2 := Step(ttl, s1, moves[1]);
    assert s2.threads[0] == Fetching("db", 0.0);
    var s3 := Step(ttl, s2, moves[2]);
    assert s3.threads[0] == Storing("db", 0.0, "old");
    var s4 := Step(ttl, s3, moves[3]);
    var s5 := Step(ttl, s4, moves[4]);
    assert s5.threads[0] == Storing("db", 0.0, "old") && s5.clock == 0.0;
    RunCons(ttl, s0, moves[0], [moves[1], moves[2], moves[3], moves[4]]);
    RunCons(ttl, s1, moves[1], [moves[2], moves[3], moves[4]]);
    RunCons(ttl, s2, moves[2], [moves[3], moves[4]]);
    RunCons(ttl, s3, moves[3], [moves[4]]);
    RunCons(ttl, s4, moves[4], []);
  }

  lemma RunCons(ttl: real, s: State, m: Move, rest: seq<Move>)
    ensures Run(ttl, s, [m] + rest) == Run(ttl, Step(ttl, s, m), rest)
  {
    assert ([m] + rest)[1..] == rest;
  }
}
