/**
 * The singly linked list of operations
 * (Lab/sofsip-cli-0.16/src/ssc_oper.c): a walk and an unlink on nodes.
 */
module OperList {
  import opened Calls
  import opened CallLaws
  import opened CallSafety

  /** ssc_oper_t; `id` counts the operations in the order of their creation. */
  class Oper {
    const id: nat
    var next: Oper?
    var op: Op

    constructor (id: nat, next: Oper?, op: Op)
      ensures this.id == id && this.next == next && this.op == op
    {
      this.id, this.next, this.op := id, next, op;
    }
  }

  ghost function Nodes(chain: seq<Oper>): set<Oper> {
    set o | o in chain
  }

  lemma NodesCons(op: Oper, chain: seq<Oper>)
    ensures Nodes([op] + chain) == {op} + Nodes(chain)
  {
  }

  ghost function At(chain: seq<Oper>, k: nat): Oper? {
    if k < |chain| then chain[k] else null
  }

  /** Where a walk stands when `kept` is behind it and `left` not yet. */
  lemma Standing(kept: seq<Oper>, left: seq<Oper>)
    requires left != []
    ensures kept + left == kept + [left[0]] + left[1..]
    ensures (kept + left)[|kept|] == left[0] && At(kept + left, |kept| + 1) == At(left[1..], 0)
    ensures Distinct(kept + left) ==> left[0] !in kept
  {
    var chain := kept + left;
    forall k | 0 <= k < |kept| && Distinct(chain) ensures kept[k] != left[0] {
      assert chain[k] == kept[k] && chain[|kept|] == left[0];
    }
  }

  lemma SplitAt(op: Oper, list: seq<Oper>, k: nat)
    requires k <= |list|
    ensures [op] + list == ([op] + list[..k]) + list[k..] && At(list[k..], 0) == At(list, k)
  {
  }

  /** From `first` the pointers lead through `chain`, each node once, to null. */
  ghost predicate Chained(first: Oper?, chain: seq<Oper>)
    reads Nodes(chain)
  {
    && Distinct(chain)
    && first == At(chain, 0)
    && (forall k :: 0 <= k < |chain| ==> chain[k].next == At(chain, k + 1))
  }

  /** A new node in front. */
  method Push(first: Oper?, id: nat, op: Op, ghost chain: seq<Oper>) returns (node: Oper)
    requires Chained(first, chain)
    ensures fresh(node) && node.id == id && node.op == op
    ensures Chained(node, [node] + chain)
  {
    node := new Oper(id, first, op);
    ghost var longer := [node] + chain;
    forall k | 0 <= k < |longer| ensures longer[k].next == At(longer, k + 1) {
      if k > 0 {
        assert longer[k] == chain[k - 1];
      }
    }
  }

  /** Walks to the node `op`, or to the end. */
  method Locate(first: Oper?, op: Oper, ghost chain: seq<Oper>)
    returns (prev: Oper?, cur: Oper?, ghost k: nat)
    requires Chained(first, chain)
    ensures k <= |chain| && cur == At(chain, k) && (cur == null || cur == op)
    ensures prev == if k == 0 then null else chain[k - 1]
    ensures op !in chain[..k]
  {
    prev, cur, k := null, first, 0;
    while cur != null && cur != op
      invariant k <= |chain| && cur == At(chain, k)
      invariant prev == if k == 0 then null else chain[k - 1]
      invariant op !in chain[..k]
      decreases |chain| - k
    {
      assert chain[..k + 1] == chain[..k] + [chain[k]];
      prev, cur, k := cur, cur.next, k + 1;
    }
  }

  /** Where the k-th node of the shorter chain was, and what followed it. */
  lemma CutAt(front: seq<Oper>, op: Oper, rest: seq<Oper>, k: nat) returns (j: nat)
    requires k < |front + rest| && Distinct(front + [op] + rest)
    ensures j == if k < |front| then k else k + 1
    ensures (front + rest)[k] == (front + [op] + rest)[j] != op
    ensures k != |front| - 1 ==> At(front + [op] + rest, j + 1) == At(front + rest, k + 1)
    ensures k == |front| - 1 ==> At(front + [op] + rest, |front| + 1) == At(front + rest, k + 1)
    ensures |front| > 0 && k != |front| - 1 ==> (front + rest)[k] != front[|front| - 1]
  {
    var chain := front + [op] + rest;
    j := if k < |front| then k else k + 1;
    assert chain[|front|] == op && chain[j] == (front + rest)[k];
    assert |front| > 0 ==> chain[|front| - 1] == front[|front| - 1];
  }

  /** Takes the node behind `prev`, or the first one, out of the chain. */
  method CutOut(first: Oper?, prev: Oper?, op: Oper, ghost front: seq<Oper>, ghost rest: seq<Oper>)
    returns (head: Oper?)
    requires Chained(first, front + [op] + rest)
    requires prev == if front == [] then null else front[|front| - 1]
    modifies Nodes(front)`next, op`next
    ensures Chained(head, front + rest)
  {
    ghost var chain, left := front + [op] + rest, front + rest;
    DistinctWithout(front, op, rest);
    head := first;
    assert chain[|front|] == op && op.next == At(chain, |front| + 1);
    assert At(chain, |front| + 1) == At(left, |front|);
    if prev == null {
      head := op.next;
    } else {
      assert chain[|front| - 1] == prev;
      prev.next := op.next;
    }
    op.next := null;
    forall k | 0 <= k < |left| ensures left[k].next == At(left, k + 1) {
      var j := CutAt(front, op, rest, k);
      assert old(chain[j].next) == At(chain, j + 1);
      assert prev != null && k != |front| - 1 ==> left[k] != prev;
    }
  }

  /** The first loop of ssc_oper_destroy. */
  method Unlink(first: Oper?, op: Oper, ghost chain: seq<Oper>) returns (head: Oper?)
    requires Chained(first, chain)
    modifies Nodes(chain)`next
    ensures Chained(head, Unlinked(chain, op))
  {
    var prev, cur, k := Locate(first, op, chain);
    head := first;
    if cur != null {
      ghost var front, rest := chain[..k], chain[k + 1..];
      assert chain == front + [op] + rest;
      UnlinkedIs(front, op, rest);
      head := CutOut(first, prev, op, front, rest);
    } else {
      assert chain[..k] == chain;
      UnlinkedAbsent(chain, op);
    }
  }

  /** The ssc_oper_find walks: the first operation that is wanted. */
  method Find(first: Oper?, wanted: Op -> bool, ghost chain: seq<Oper>) returns (found: Oper?, ghost k: nat)
    requires Chained(first, chain)
    ensures k <= |chain| && found == At(chain, k)
    ensures forall j :: 0 <= j < k ==> !wanted(chain[j].op)
    ensures found != null ==> wanted(found.op)
  {
    found, k := first, 0;
    while found != null && !wanted(found.op)
      invariant k <= |chain| && found == At(chain, k)
      invariant forall j :: 0 <= j < k ==> !wanted(chain[j].op)
      decreases |chain| - k
    {
      found, k := found.next, k + 1;
    }
  }

  /** The second loop of ssc_oper_destroy. */
  method CountInvites(first: Oper?, ghost chain: seq<Oper>) returns (n: nat)
    requires Chained(first, chain)
    ensures n > 0 <==> exists k :: 0 <= k < |chain| && chain[k].op.verb.Invite?
  {
    n := 0;
    var cur := first;
    ghost var k := 0;
    while cur != null
      invariant k <= |chain| && cur == At(chain, k)
      invariant n > 0 <==> exists j :: 0 <= j < k && chain[j].op.verb.Invite?
      decreases |chain| - k
    {
      if cur.op.verb.Invite? {
        n := n + 1;
      }
      cur, k := cur.next, k + 1;
    }
  }
}
