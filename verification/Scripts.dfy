/** Reading an edit script from the front. */
module Scripts {
  import opened Sequence

  /** How many elements a script keeps. */
  ghost function KeptCount(ops: seq<SequenceOp>): nat {
    if ops == [] then 0 else KeptCount(ops[..|ops| - 1]) + if ops[|ops| - 1].Equal? then 1 else 0
  }

  lemma {:induction false} SidesCount(ops: seq<SequenceOp>)
    ensures Edits(ops) + 2 * KeptCount(ops) == |OldSide(ops)| + |NewSide(ops)|
  {
    if ops != [] {
      SidesCount(ops[..|ops| - 1]);
    }
  }

  /** A cheapest script keeps a longest common subsequence: no script keeps more. */
  lemma CheapestKeepsMost<T>(a: seq<T>, b: seq<T>, equals: (T, T) -> bool, ops: seq<SequenceOp>, other: seq<SequenceOp>)
    requires IsEditScript(a, b, equals, ops) && IsEditScript(a, b, equals, other) && Edits(ops) <= Edits(other)
    ensures Edits(ops) == |a| + |b| - 2 * KeptCount(ops) && KeptCount(other) <= KeptCount(ops)
  {
    hide OldSide, NewSide, Edits, KeptCount;
    SidesCount(ops);
    SidesCount(other);
  }

  lemma {:induction false} RangeAt(lo: nat, hi: nat, k: nat)
    requires lo + k < hi
    ensures Range(lo, hi)[k] == lo + k
    decreases hi
  {
    if lo + k < hi - 1 {
      RangeAt(lo, hi - 1, k);
    }
  }

  lemma RangeIs(s: seq<nat>, n: nat)
    requires |s| == n && forall k :: 0 <= k < n ==> s[k] == k
    ensures s == Range(0, n)
  {
    forall k | 0 <= k < n
      ensures s[k] == Range(0, n)[k]
    {
      RangeAt(0, n, k);
    }
  }

  lemma RangePrefix(s: seq<nat>, n: nat, m: nat)
    requires m <= n && |s| >= m && s[..m] == Range(0, n)[..m]
    ensures s[..m] == Range(0, m)
  {
    forall k | 0 <= k < m
      ensures s[..m][k] == k
    {
      RangeAt(0, n, k);
    }
    RangeIs(s[..m], m);
  }

  /** A script of two sequences, as far as its first `k` operations: `i` old elements and `j` new ones accounted for. */
  ghost predicate ReadTo(ops: seq<SequenceOp>, k: nat, i: nat, j: nat)
    requires k <= |ops|
  {
    OldSide(ops[..k]) == Range(0, i) && NewSide(ops[..k]) == Range(0, j)
  }

  /** The next operation of a script takes the next element of the side or sides it is about. */
  lemma NextOp(ops: seq<SequenceOp>, n: nat, m: nat, k: nat, i: nat, j: nat)
    requires OldSide(ops) == Range(0, n) && NewSide(ops) == Range(0, m)
    requires k < |ops| && ReadTo(ops, k, i, j)
    ensures match ops[k]
            case Equal(x, y) => x == i < n && y == j < m && ReadTo(ops, k + 1, i + 1, j + 1)
            case Removed(x) => x == i < n && ReadTo(ops, k + 1, i + 1, j)
            case Added(y) => y == j < m && ReadTo(ops, k + 1, i, j + 1)
  {
    hide OldSide, NewSide, Range;
    var before, next, rest := ops[..k], ops[..k + 1], ops[k + 1..];
    Cut(ops, k);
    Push(before, ops[k]);
    Join(next, rest);
    SideStep(OldSide(before), if ops[k].Added? then [] else [ops[k].a], OldSide(next), OldSide(rest), n, i);
    SideStep(NewSide(before), if ops[k].Removed? then [] else [ops[k].b], NewSide(next), NewSide(rest), m, j);
  }

  lemma Cut(ops: seq<SequenceOp>, k: nat)
    requires k < |ops|
    ensures ops[..k + 1] == ops[..k] + [ops[k]] && ops[..k + 1] + ops[k + 1..] == ops
  {
  }

  /** One side, read as far as `i`, with at most one element more. */
  lemma SideStep(was: seq<nat>, more: seq<nat>, now: seq<nat>, rest: seq<nat>, n: nat, i: nat)
    requires was == Range(0, i) && |more| <= 1 && now + rest == Range(0, n)
    requires now == if more == [] then was else was + more
    ensures if more == [] then now == Range(0, i) else more[0] == i < n && now == Range(0, i + 1)
  {
    hide Range;
    if more != [] {
      var all := now + rest;
      assert |was| == i && |now| == i + 1;
      assert now[i] == more[0] && all[i] == more[0];
      RangeAt(0, n, i);
      assert all[..i + 1] == now && now[..i + 1] == now;
      RangePrefix(now, n, i + 1);
    }
  }

  lemma ReadNothing(ops: seq<SequenceOp>)
    ensures ReadTo(ops, 0, 0, 0)
  {
  }

  lemma ReadAll(ops: seq<SequenceOp>, n: nat, m: nat, i: nat, j: nat)
    requires OldSide(ops) == Range(0, n) && NewSide(ops) == Range(0, m) && ReadTo(ops, |ops|, i, j)
    ensures i == n && j == m
  {
    assert ops[..|ops|] == ops;
  }

  /** The script that keeps everything. */
  function KeepAll(n: nat): seq<SequenceOp> {
    if n == 0 then [] else KeepAll(n - 1) + [Equal(n - 1, n - 1)]
  }

  lemma {:induction false} KeepAllReads(n: nat)
    ensures OldSide(KeepAll(n)) == Range(0, n) && NewSide(KeepAll(n)) == Range(0, n) && Edits(KeepAll(n)) == 0
    ensures forall op :: op in KeepAll(n) ==> op.Equal? && op.a == op.b < n
  {
    if n > 0 {
      KeepAllReads(n - 1);
      Push(KeepAll(n - 1), Equal(n - 1, n - 1));
    }
  }

  lemma {:induction false} NoEditsAllEqual(ops: seq<SequenceOp>)
    ensures Edits(ops) == 0 <==> forall i :: 0 <= i < |ops| ==> ops[i].Equal?
  {
    if ops != [] {
      NoEditsAllEqual(ops[..|ops| - 1]);
    }
  }

  /** A cheapest script between two sequences makes no edit exactly when they are the same. */
  lemma NoEditIff<T>(a: seq<T>, b: seq<T>, equals: (T, T) -> bool, ops: seq<SequenceOp>)
    requires IsEditScript(a, b, equals, ops)
    requires forall other :: IsEditScript(a, b, equals, other) ==> Edits(ops) <= Edits(other)
    requires forall i, j :: 0 <= i < |a| && 0 <= j < |b| ==> (equals(a[i], b[j]) <==> a[i] == b[j])
    ensures Edits(ops) == 0 <==> a == b
  {
    hide OldSide, NewSide, Edits;
    if a == b {
      KeepAllReads(|a|);
      assert IsEditScript(a, b, equals, KeepAll(|a|));
    }
    if Edits(ops) == 0 {
      NoEditsAllEqual(ops);
      var k := 0;
      ReadNothing(ops);
      while k < |ops|
        invariant 0 <= k <= |ops| && ReadTo(ops, k, k, k) && k <= |a| && k <= |b| && a[..k] == b[..k]
      {
        NextOp(ops, |a|, |b|, k, k, k);
        assert ops[k] in ops;
        assert a[..k + 1] == a[..k] + [a[k]] && b[..k + 1] == b[..k] + [b[k]];
        k := k + 1;
      }
      ReadAll(ops, |a|, |b|, k, k);
      assert a[..k] == a && b[..k] == b;
    }
  }
}
