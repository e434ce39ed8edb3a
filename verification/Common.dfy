/** Definitions shared by every component. */
module Common {
  datatype Option<+T> = None | Some(value: T)

  lemma DropAppend<T>(a: seq<T>, b: seq<T>, n: nat)
    requires n <= |a|
    ensures (a + b)[n..] == a[n..] + b
  {
  }

  lemma Reassociate<T>(a: seq<T>, b: seq<T>, c: seq<T>)
    ensures a + b + c == a + (b + c)
  {
  }

  /** Always true: a fact guarded by it is used by the solver only where a proof mentions its `tag`. */
  predicate OnDemand(tag: nat, k: nat) { true }
}
