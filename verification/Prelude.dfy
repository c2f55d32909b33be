/** Datatypes and small facts shared by the models. */
module Prelude {
  datatype Option<+T> = None | Some(value: T)

  /** Python truthiness of an optional string: absent and empty are both false. */
  predicate Truthy(o: Option<string>) {
    o.Some? && o.value != ""
  }

  ghost predicate Distinct<T>(s: seq<T>) {
    forall i, j :: 0 <= i < j < |s| ==> s[i] != s[j]
  }

  function SetOf<T>(s: seq<T>): set<T> {
    set x | x in s
  }

  lemma {:induction false} DistinctSize<T>(s: seq<T>)
    requires Distinct(s)
    ensures |SetOf(s)| == |s|
  {
    if s != [] {
      var n := |s| - 1;
      DistinctSize(s[..n]);
      assert SetOf(s) == SetOf(s[..n]) + {s[n]};
    }
  }
}
