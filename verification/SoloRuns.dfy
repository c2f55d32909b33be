/** One thread taking its steps without interference: shared by the machines whose
    handlers are shown to be runs of them. */
module SoloRuns {
  /** One move of an interleaving: which thread, and how its next call ends. */
  datatype ThreadMove<A> = Move(thread: nat, action: A)

  /** Thread 0 takes these actions one after the other. */
  function Solo<A>(actions: seq<A>): (moves: seq<ThreadMove<A>>)
    ensures |moves| == |actions|
  {
    seq(|actions|, i requires 0 <= i < |actions| => Move(0, actions[i]))
  }

  function RunSolo<S, T, A>(step: (S, T, A) -> (S, T), s: S, t: T, actions: seq<A>): (S, T)
    decreases |actions|
  {
    if actions == [] then (s, t)
    else
      var (s', t') := step(s, t, actions[0]);
      RunSolo(step, s', t', actions[1..])
  }

  lemma {:induction false} SoloConcat<S, T, A>(step: (S, T, A) -> (S, T), s: S, t: T, a: seq<A>, b: seq<A>)
    ensures RunSolo(step, s, t, a + b) == var (s', t') := RunSolo(step, s, t, a); RunSolo(step, s', t', b)
    decreases |a|
  {
    if a == [] {
      assert a + b == b;
    } else {
      var (s', t') := step(s, t, a[0]);
      assert (a + b)[1..] == a[1..] + b;
      SoloConcat(step, s', t', a[1..], b);
    }
  }

  lemma SoloOne<S, T, A>(step: (S, T, A) -> (S, T), s: S, t: T, a: A)
    ensures RunSolo(step, s, t, [a]) == step(s, t, a)
  {
  }
}
