/** The linear-space diff of two sequences: the middle snake, divided and conquered. */
module Sequence {
  import opened EditGraph

  datatype SequenceOp = Equal(a: nat, b: nat) | Removed(a: nat) | Added(b: nat)

  /** The positions of the old sequence a script accounts for, in script order. */
  ghost function OldSide(ops: seq<SequenceOp>): seq<nat> {
    if ops == [] then []
    else
      var rest, op := OldSide(ops[..|ops| - 1]), ops[|ops| - 1];
      if op.Added? then rest else rest + [op.a]
  }

  /** The positions of the new sequence a script accounts for, in script order. */
  ghost function NewSide(ops: seq<SequenceOp>): seq<nat> {
    if ops == [] then []
    else
      var rest, op := NewSide(ops[..|ops| - 1]), ops[|ops| - 1];
      if op.Removed? then rest else rest + [op.b]
  }

  /** How many removals and additions a script makes. */
  ghost function Edits(ops: seq<SequenceOp>): nat {
    if ops == [] then 0 else Edits(ops[..|ops| - 1]) + if ops[|ops| - 1].Equal? then 0 else 1
  }

  function Range(lo: nat, hi: nat): (r: seq<nat>)
    requires lo <= hi
    ensures |r| == hi - lo
  {
    if lo == hi then [] else Range(lo, hi - 1) + [hi - 1]
  }

  /** An edit script for a box: every position of each side exactly once, in order, and only matching pairs equal. */
  ghost predicate IsScript(same: iset<(nat, nat)>, ops: seq<SequenceOp>, aLo: nat, aHi: nat, bLo: nat, bHi: nat) {
    && aLo <= aHi && bLo <= bHi
    && OldSide(ops) == Range(aLo, aHi)
    && NewSide(ops) == Range(bLo, bHi)
    && forall op :: op in ops && op.Equal? ==> (op.a, op.b) in same
  }

  lemma Push(ops: seq<SequenceOp>, op: SequenceOp)
    ensures OldSide(ops + [op]) == if op.Added? then OldSide(ops) else OldSide(ops) + [op.a]
    ensures NewSide(ops + [op]) == if op.Removed? then NewSide(ops) else NewSide(ops) + [op.b]
    ensures Edits(ops + [op]) == Edits(ops) + if op.Equal? then 0 else 1
  {
    assert (ops + [op])[..|ops|] == ops;
  }

  lemma {:induction false} Join(xs: seq<SequenceOp>, ys: seq<SequenceOp>)
    ensures OldSide(xs + ys) == OldSide(xs) + OldSide(ys)
    ensures NewSide(xs + ys) == NewSide(xs) + NewSide(ys)
    ensures Edits(xs + ys) == Edits(xs) + Edits(ys)
    decreases |ys|
  {
    if ys == [] {
      assert xs + ys == xs;
    } else {
      var rest, op := ys[..|ys| - 1], ys[|ys| - 1];
      assert xs + ys == (xs + rest) + [op] && ys == rest + [op];
      Join(xs, rest);
      Push(xs + rest, op);
      Push(rest, op);
    }
  }

  lemma {:induction false} RangeJoin(lo: nat, mid: nat, hi: nat)
    requires lo <= mid <= hi
    ensures Range(lo, mid) + Range(mid, hi) == Range(lo, hi)
    decreases hi
  {
    if mid < hi {
      RangeJoin(lo, mid, hi - 1);
    }
  }

  /** Scripts for adjacent boxes make a script for the box over both. */
  lemma ScriptJoin(same: iset<(nat, nat)>, xs: seq<SequenceOp>, ys: seq<SequenceOp>,
                   aLo: nat, aMid: nat, aHi: nat, bLo: nat, bMid: nat, bHi: nat)
    requires IsScript(same, xs, aLo, aMid, bLo, bMid) && IsScript(same, ys, aMid, aHi, bMid, bHi)
    ensures IsScript(same, xs + ys, aLo, aHi, bLo, bHi)
    ensures Edits(xs + ys) == Edits(xs) + Edits(ys)
  {
    Join(xs, ys);
    RangeJoin(aLo, aMid, aHi);
    RangeJoin(bLo, bMid, bHi);
  }

  lemma LastOfRange(xs: seq<nat>, z: nat, lo: nat, hi: nat)
    requires lo <= hi && xs + [z] == Range(lo, hi)
    ensures lo < hi && z == hi - 1 && xs == Range(lo, hi - 1)
  {
    assert (xs + [z])[..|xs|] == xs && (xs + [z])[|xs|] == z;
    assert lo < hi ==> Range(lo, hi)[..hi - 1 - lo] == Range(lo, hi - 1);
  }

  /** No script for a box makes fewer edits than its distance. */
  lemma {:induction false} NoCheaperScript(g: Box, ops: seq<SequenceOp>, aHi: nat, bHi: nat)
    requires g.Valid() && !g.backward && aHi <= g.aHi && bHi <= g.bHi
    requires IsScript(g.same, ops, g.aLo, aHi, g.bLo, bHi)
    ensures Dist(g, aHi - g.aLo, bHi - g.bLo) <= Edits(ops)
    decreases |ops|
  {
    hide Dist;
    Edge(g, aHi - g.aLo, bHi - g.bLo);
    if ops != [] {
      var rest, op := ops[..|ops| - 1], ops[|ops| - 1];
      if op.Removed? {
        LastOfRange(OldSide(rest), op.a, g.aLo, aHi);
        NoCheaperScript(g, rest, aHi - 1, bHi);
        Lipschitz(g, aHi - 1 - g.aLo, bHi - g.bLo);
      } else if op.Added? {
        LastOfRange(NewSide(rest), op.b, g.bLo, bHi);
        NoCheaperScript(g, rest, aHi, bHi - 1);
        Lipschitz(g, aHi - g.aLo, bHi - 1 - g.bLo);
      } else {
        LastOfRange(OldSide(rest), op.a, g.aLo, aHi);
        LastOfRange(NewSide(rest), op.b, g.bLo, bHi);
        NoCheaperScript(g, rest, aHi - 1, bHi - 1);
        Slide(g, aHi - 1 - g.aLo, bHi - 1 - g.bLo);
      }
    }
  }

  /** A box measured from its far corner, cut down to the part beyond a point. */
  lemma FarSpan(g: Box, u: nat, v: nat)
    requires g.Valid() && !g.backward && g.aLo <= u <= g.aHi && g.bLo <= v <= g.bHi
    ensures Dist(g.Flip(), g.aHi - u, g.bHi - v) == Span(g.same, u, g.aHi, v, g.bHi)
  {
    var h := Box(g.same, u, g.aHi, v, g.bHi, false);
    Agree(g.Flip(), h.Flip(), g.aHi - u, g.bHi - v);
    Reversible(h);
  }

  lemma NearSpan(g: Box, x: nat, y: nat)
    requires g.Valid() && !g.backward && g.aLo <= x <= g.aHi && g.bLo <= y <= g.bHi
    ensures Dist(g, x - g.aLo, y - g.bLo) == Span(g.same, g.aLo, x, g.bLo, y)
  {
    Agree(g, Box(g.same, g.aLo, x, g.bLo, y, false), x - g.aLo, y - g.bLo);
  }

  /** Taking a common first or last element out of a box does not change its distance. */
  lemma Trim(same: iset<(nat, nat)>, aLo: nat, aHi: nat, bLo: nat, bHi: nat)
    requires aLo < aHi && bLo < bHi
    ensures (aLo, bLo) in same ==> Span(same, aLo, aHi, bLo, bHi) == Span(same, aLo + 1, aHi, bLo + 1, bHi)
    ensures (aHi - 1, bHi - 1) in same ==> Span(same, aLo, aHi, bLo, bHi) == Span(same, aLo, aHi - 1, bLo, bHi - 1)
  {
    hide Dist;
    var g := Box(same, aLo, aHi, bLo, bHi, false);
    if (aLo, bLo) in same {
      Slide(g.Flip(), aHi - aLo - 1, bHi - bLo - 1);
      FarSpan(g, aLo + 1, bLo + 1);
      Reversible(g);
    }
    if (aHi - 1, bHi - 1) in same {
      Slide(g, aHi - aLo - 1, bHi - bLo - 1);
      NearSpan(g, aHi - 1, bHi - 1);
    }
  }

  lemma EmptySpan(same: iset<(nat, nat)>, aLo: nat, aHi: nat, bLo: nat, bHi: nat)
    requires aLo <= aHi && bLo <= bHi && (aLo == aHi || bLo == bHi)
    ensures Span(same, aLo, aHi, bLo, bHi) == aHi - aLo + bHi - bLo
  {
  }

  lemma {:induction false} FreeWalk(g: Box, x: nat, y: nat)
    requires g.Valid() && Dist(g, x, y) == 0 && 0 < x + y
    ensures x == y && g.Match(0, 0)
    decreases x
  {
    if x > 1 && y > 1 {
      FreeWalk(g, x - 1, y - 1);
    }
  }

  /** A box with no common first element and no common last one takes at least two edits. */
  lemma TrimmedSpan(same: iset<(nat, nat)>, aLo: nat, aHi: nat, bLo: nat, bHi: nat)
    requires aLo < aHi && bLo < bHi
    requires (aLo, bLo) !in same && (aHi - 1, bHi - 1) !in same
    ensures Span(same, aLo, aHi, bLo, bHi) >= 2
  {
    var g := Box(same, aLo, aHi, bLo, bHi, false);
    var n, m := aHi - aLo, bHi - bLo;
    if Dist(g, n - 1, m) == 0 {
      FreeWalk(g, n - 1, m);
    }
    if Dist(g, n, m - 1) == 0 {
      FreeWalk(g, n, m - 1);
    }
    assert !g.Match(0, 0);
    Corner(g, n - 1, m - 1);
  }

  /** The frontier holds, at `offset + k`, the furthest point of every other diagonal `k` in `-d..upto`. */
  ghost predicate Frontier(g: Box, frontier: seq<int>, offset: int, d: int, upto: int)
    requires g.Valid()
  {
    forall i :: 0 <= i < |frontier| && -d <= i - offset < upto && (i - offset + d) % 2 == 0
      ==> Furthest(g, d, i - offset, frontier[i])
  }

  lemma FrontierStart(g: Box, frontier: seq<int>, offset: int, d: int)
    requires g.Valid()
    ensures Frontier(g, frontier, offset, d, -d)
    ensures d < 0 ==> Frontier(g, frontier, offset, d, d + 1)
  {
  }

  lemma FrontierDone(g: Box, frontier: seq<int>, offset: int, d: int)
    requires g.Valid() && Frontier(g, frontier, offset, d, d + 2)
    ensures Frontier(g, frontier, offset, d, d + 1)
  {
  }

  lemma FrontierAt(g: Box, frontier: seq<int>, offset: int, d: int, k: int)
    requires g.Valid() && -d <= k <= d && (k + d) % 2 == 0 && 0 <= offset + k < |frontier|
    requires Frontier(g, frontier, offset, d, d + 1)
    ensures Furthest(g, d, k, frontier[offset + k])
  {
  }

  lemma FrontierStep(g: Box, frontier: seq<int>, offset: int, d: int, k: int)
    requires g.Valid() && 0 <= offset + k < |frontier| && (k + d) % 2 == 0
    requires Frontier(g, frontier, offset, d - 1, d) && Frontier(g, frontier, offset, d, k)
    ensures forall x :: Furthest(g, d, k, x) ==>
      && Frontier(g, frontier[offset + k := x], offset, d - 1, d)
      && Frontier(g, frontier[offset + k := x], offset, d, k + 2)
  {
  }

  /** One diagonal of one round: step off the better neighbour, slide over what matches, remember how far.
    Both searches do this; the backward one counts from the far corner. */
  method Extend(frontier: array<int>, offset: int, same: (nat, nat) -> bool,
                aLo: nat, aHi: nat, bLo: nat, bHi: nat, backward: bool, d: int, k: int)
    returns (x0: nat, x: nat)
    requires aLo <= aHi && bLo <= bHi
    requires 0 <= d && -d <= k <= d && (k + d) % 2 == 0 && d < offset && offset + d + 1 < frontier.Length
    requires Frontier(Box(Pairs(same), aLo, aHi, bLo, bHi, backward), frontier[..], offset, d - 1, d)
    requires d == 0 ==> frontier[offset + 1] == 0
    modifies frontier
    ensures frontier[..] == old(frontier[..])[offset + k := x]
    ensures var g := Box(Pairs(same), aLo, aHi, bLo, bHi, backward);
            && Furthest(g, d, k, x)
            && x0 <= x && 0 <= x0 - k && Dist(g, x0, x0 - k) == Dist(g, x, x - k)
            && FreeRun(g, x0, x0 - k, x - x0)
  {
    hide Dist, Common;
    ghost var g := Box(Pairs(same), aLo, aHi, bLo, bHi, backward);
    ghost var s := frontier[..];
    ghost var left := if k != -d then s[offset + k - 1] else 0;
    ghost var right := if k != d || d == 0 then s[offset + k + 1] else 0;
    assert k != -d ==> Furthest(g, d - 1, k - 1, left);
    assert k != d ==> Furthest(g, d - 1, k + 1, right);
    var start: int;
    if k == -d || (k != d && frontier[offset + k - 1] < frontier[offset + k + 1]) {
      start := frontier[offset + k + 1];
    } else {
      start := frontier[offset + k - 1] + 1;
    }
    x0, x := start, start;
    var y: nat := x - k;
    while x < aHi - aLo && y < bHi - bLo &&
          if backward then same(aHi - 1 - x, bHi - 1 - y) else same(aLo + x, bLo + y)
      invariant x0 <= x && y == x - k && frontier[..] == s
      invariant Dist(g, x, y) == Dist(g, x0, x0 - k)
      invariant FreeRun(g, x0, x0 - k, x - x0)
      decreases aHi - aLo - x
    {
      Slide(g, x, y);
      x, y := x + 1, y + 1;
    }
    Advance(g, d, k, left, right, x0, x);
    frontier[offset + k] := x;
    assert frontier[..] == s[offset + k := x];
  }

  /** A free run between two points of a shortest walk leaves two boxes whose distances are the two halves. */
  lemma Halves(g: Box, x: nat, y: nat, u: nat, v: nat, d: int, e: int)
    requires g.Valid() && !g.backward && g.aLo <= x <= u <= g.aHi && g.bLo <= y <= v <= g.bHi
    requires Dist(g, x - g.aLo, y - g.bLo) <= d && Dist(g.Flip(), g.aHi - u, g.bHi - v) <= e
    requires || Dist(g, x - g.aLo, y - g.bLo) == Dist(g, u - g.aLo, v - g.bLo)
             || Dist(g.Flip(), g.aHi - x, g.bHi - y) == Dist(g.Flip(), g.aHi - u, g.bHi - v)
    requires Dist(g, g.N(), g.M()) == d + e
    ensures Span(g.same, g.aLo, x, g.bLo, y) == d && Span(g.same, u, g.aHi, v, g.bHi) == e
    ensures Span(g.same, g.aLo, g.aHi, g.bLo, g.bHi) == d + e
  {
    hide Dist;
    Triangle(g, x - g.aLo, y - g.bLo);
    Triangle(g, u - g.aLo, v - g.bLo);
    NearSpan(g, x, y);
    FarSpan(g, u, v);
  }

  /** One round of one search over all its diagonals. `own` is its frontier and `other` the opposite one, which
    stands at `e` edits; with `check` on, the round stops where the two overlap. */
  method Round(own: array<int>, other: array<int>, offset: int, same: (nat, nat) -> bool,
               aLo: nat, aHi: nat, bLo: nat, bHi: nat, backward: bool, check: bool, d: int, e: int)
    returns (found: bool, k: int, x0: nat, x: nat)
    requires aLo <= aHi && bLo <= bHi && own != other && own.Length == other.Length
    requires 0 <= d < offset && offset + d + 1 < own.Length && d - 1 <= e <= d
    requires Frontier(Box(Pairs(same), aLo, aHi, bLo, bHi, backward), own[..], offset, d - 1, d)
    requires Frontier(Box(Pairs(same), aLo, aHi, bLo, bHi, !backward), other[..], offset, e, e + 1)
    requires d == 0 ==> own[offset + 1] == 0
    requires var g := Box(Pairs(same), aLo, aHi, bLo, bHi, backward);
             check ==> d + e <= Dist(g, g.N(), g.M()) && (Delta(g) + d + e) % 2 == 0
    modifies own
    ensures var g := Box(Pairs(same), aLo, aHi, bLo, bHi, backward);
            if found then
              && 0 <= x0 - k && x0 <= x <= g.N() && x - k <= g.M()
              && Dist(g, x0, x0 - k) == Dist(g, x, x - k) <= d
              && Dist(g.Flip(), g.N() - x, g.M() - (x - k)) <= e
              && Dist(g, g.N(), g.M()) == d + e
              && FreeRun(g, x0, x0 - k, x - x0)
            else
              Frontier(g, own[..], offset, d, d + 1) && (check ==> d + e < Dist(g, g.N(), g.M()))
  {
    hide Dist, Common, FreeRun, Pairs, Furthest, Frontier;
    ghost var g := Box(Pairs(same), aLo, aHi, bLo, bHi, backward);
    var n: nat := aHi - aLo;
    var delta: int := (n as int) - (bHi - bLo);
    ghost var meet, across := d + 1, 0;
    if check && d + e == Dist(g, g.N(), g.M()) {
      meet, across := Meeting(g, d, e);
    }
    k := -d;
    FrontierStart(g, own[..], offset, d);
    while k <= d
      invariant -d <= k <= d + 2 && (k + d) % 2 == 0
      invariant Frontier(g, own[..], offset, d - 1, d) && Frontier(g, own[..], offset, d, k)
      invariant check && d + e == Dist(g, g.N(), g.M()) ==> k <= meet && across == delta - meet
      invariant d == 0 && k == 0 ==> own[offset + 1] == 0
      decreases d - k + 2
    {
      FrontierStep(g, own[..], offset, d, k);
      x0, x := Extend(own, offset, same, aLo, aHi, bLo, bHi, backward, d, k);
      var c := delta - k;
      if check && -e <= c <= e {
        FrontierAt(g.Flip(), other[..], offset, e, c);
        if x + other[offset + c] >= n {
          Overlap(g, d, e, k, x, c, other[offset + c]);
          return true, k, x0, x;
        }
      }
      k := k + 2;
    }
    FrontierDone(g, own[..], offset, d);
    return false, k, 0, 0;
  }

  /** `(x, y)` to `(u, v)` is a free run inside the box, what is left on either side of it is a shortest walk
    again, and the two halves split the edits evenly. */
  ghost predicate IsMiddleSnake(same: iset<(nat, nat)>, aLo: nat, aHi: nat, bLo: nat, bHi: nat, x: nat, y: nat, u: nat,
                                v: nat) {
    && aLo <= x <= u <= aHi && bLo <= y <= v <= bHi && u - x == v - y
    && FreeRun(Box(same, aLo, aHi, bLo, bHi, false), x - aLo, y - bLo, u - x)
    && var before, after := Span(same, aLo, x, bLo, y), Span(same, u, aHi, v, bHi);
       Span(same, aLo, aHi, bLo, bHi) == before + after && after <= before <= after + 1
  }

  /** What a round that found an overlap returns is a middle snake, read from its own corner. */
  lemma OverlapIsMiddle(g: Box, d: int, e: int, k: int, x0: nat, x1: nat)
    requires g.Valid() && d - 1 <= e <= d && (if g.backward then e == d else e == d - 1)
    requires 0 <= x0 - k && x0 <= x1 <= g.N() && x1 - k <= g.M() && FreeRun(g, x0, x0 - k, x1 - x0)
    requires Dist(g, x0, x0 - k) == Dist(g, x1, x1 - k) <= d
    requires Dist(g.Flip(), g.N() - x1, g.M() - (x1 - k)) <= e && Dist(g, g.N(), g.M()) == d + e
    ensures !g.backward ==> IsMiddleSnake(g.same, g.aLo, g.aHi, g.bLo, g.bHi,
                                          g.aLo + x0, g.bLo + x0 - k, g.aLo + x1, g.bLo + x1 - k)
    ensures g.backward ==> IsMiddleSnake(g.same, g.aLo, g.aHi, g.bLo, g.bHi,
                                         g.aHi - x1, g.bHi - (x1 - k), g.aHi - x0, g.bHi - (x0 - k))
  {
    hide Dist;
    if g.backward {
      Reversible(g);
      FlipRun(g, x0, x0 - k, x1 - x0);
      Halves(g.Flip(), g.aHi - x1, g.bHi - (x1 - k), g.aHi - x0, g.bHi - (x0 - k), d, d);
    } else {
      Halves(g, g.aLo + x0, g.bLo + x0 - k, g.aLo + x1, g.bLo + x1 - k, d, d - 1);
    }
  }

  /** The snake crossing the middle of a shortest walk, from `(x, y)` to `(u, v)`. */
  method MiddleSnake(same: (nat, nat) -> bool, aLo: nat, aHi: nat, bLo: nat, bHi: nat)
    returns (x: nat, y: nat, u: nat, v: nat)
    requires aLo <= aHi && bLo <= bHi
    ensures IsMiddleSnake(Pairs(same), aLo, aHi, bLo, bHi, x, y, u, v)
  {
    hide Dist, Common, Frontier, Furthest, FreeRun, IsMiddleSnake, Pairs;
    ghost var g := Box(Pairs(same), aLo, aHi, bLo, bHi, false);
    ghost var f := g.Flip();
    var n, m := aHi - aLo, bHi - bLo;
    ghost var best := Dist(g, n, m);
    DistCommon(g, n, m);
    Reversible(g);
    var delta: int := (n as int) - m;
    var odd := delta % 2 != 0;
    var max := (n + m + 1) / 2;
    var offset := max + 1;
    var forward := new int[2 * max + 3](_ => 0);
    var backward := new int[2 * max + 3](_ => 0);

    FrontierStart(g, forward[..], offset, -1);
    FrontierStart(f, backward[..], offset, -1);
    var d: int := 0;
    while d <= max
      invariant 0 <= d <= max + 1 && 2 * d - 1 <= best
      invariant Frontier(g, forward[..], offset, d - 1, d) && Frontier(f, backward[..], offset, d - 1, d)
      invariant d == 0 ==> forward[offset + 1] == 0 && backward[offset + 1] == 0
      decreases max + 1 - d
    {
      var found, k, x0, x1 := Round(forward, backward, offset, same, aLo, aHi, bLo, bHi, false, odd, d, d - 1);
      if found {
        OverlapIsMiddle(g, d, d - 1, k, x0, x1);
        x, y, u, v := aLo + x0, bLo + x0 - k, aLo + x1, bLo + x1 - k;
        return;
      }
      found, k, x0, x1 := Round(backward, forward, offset, same, aLo, aHi, bLo, bHi, true, !odd, d, d);
      if found {
        OverlapIsMiddle(f, d, d, k, x0, x1);
        x, y, u, v := aHi - x1, bHi - (x1 - k), aHi - x0, bHi - (x0 - k);
        return;
      }
      d := d + 1;
    }
    assert false;
  }

  /** `out` is `raw` followed by a script for the box with that many edits. */
  ghost predicate Appended(same: iset<(nat, nat)>, raw: seq<SequenceOp>, out: seq<SequenceOp>,
                           aLo: nat, aHi: nat, bLo: nat, bHi: nat, edits: nat)
  {
    raw <= out && IsScript(same, out[|raw|..], aLo, aHi, bLo, bHi) && Edits(out[|raw|..]) == edits
  }

  lemma AppendNothing(same: iset<(nat, nat)>, raw: seq<SequenceOp>, a: nat, b: nat)
    ensures Appended(same, raw, raw, a, a, b, b, 0)
  {
  }

  lemma AppendOp(same: iset<(nat, nat)>, raw: seq<SequenceOp>, out: seq<SequenceOp>, op: SequenceOp,
                 aLo: nat, aHi: nat, bLo: nat, bHi: nat, edits: nat)
    requires Appended(same, raw, out, aLo, aHi, bLo, bHi, edits)
    requires op.Equal? ==> (op.a, op.b) in same
    requires (!op.Added? ==> op.a == aHi) && (!op.Removed? ==> op.b == bHi)
    ensures Appended(same, raw, out + [op], aLo, if op.Added? then aHi else aHi + 1,
                     bLo, if op.Removed? then bHi else bHi + 1, if op.Equal? then edits else edits + 1)
  {
    Push(out[|raw|..], op);
    assert (out + [op])[|raw|..] == out[|raw|..] + [op];
  }

  lemma AppendJoin(same: iset<(nat, nat)>, raw: seq<SequenceOp>, mid: seq<SequenceOp>, out: seq<SequenceOp>,
                   aLo: nat, aMid: nat, aHi: nat, bLo: nat, bMid: nat, bHi: nat, d: nat, e: nat)
    requires Appended(same, raw, mid, aLo, aMid, bLo, bMid, d) && Appended(same, mid, out, aMid, aHi, bMid, bHi, e)
    ensures Appended(same, raw, out, aLo, aHi, bLo, bHi, d + e)
  {
    ScriptJoin(same, mid[|raw|..], out[|mid|..], aLo, aMid, aHi, bLo, bMid, bHi);
    assert out[|raw|..] == mid[|raw|..] + out[|mid|..];
  }

  /** Pushes a free run of equal pairs. */
  method PushEqual(ghost same: iset<(nat, nat)>, raw: seq<SequenceOp>, a: nat, b: nat, n: nat, ghost g: Box)
    returns (out: seq<SequenceOp>)
    requires g.Valid() && !g.backward && g.same == same && g.aLo <= a && a + n <= g.aHi && g.bLo <= b && b + n <= g.bHi
    requires FreeRun(g, a - g.aLo, b - g.bLo, n)
    ensures Appended(same, raw, out, a, a + n, b, b + n, 0)
  {
    out := raw;
    AppendNothing(same, raw, a, b);
    for i := 0 to n
      invariant Appended(same, raw, out, a, a + i, b, b + i, 0)
    {
      assert g.Match(a + i - g.aLo, b + i - g.bLo);
      AppendOp(same, raw, out, Equal(a + i, b + i), a, a + i, b, b + i, 0);
      out := out + [Equal(a + i, b + i)];
    }
  }

  /** Appends to `raw` a cheapest script for the box. */
  method Walk(same: (nat, nat) -> bool, aFrom: nat, aTo: nat, bFrom: nat, bTo: nat, raw: seq<SequenceOp>)
    returns (out: seq<SequenceOp>)
    requires aFrom <= aTo && bFrom <= bTo
    ensures Appended(Pairs(same), raw, out, aFrom, aTo, bFrom, bTo, Span(Pairs(same), aFrom, aTo, bFrom, bTo))
    decreases aTo - aFrom + bTo - bFrom
  {
    hide Dist, Common, Span, IsMiddleSnake, Appended, FreeRun;
    ghost var rel := Pairs(same);
    ghost var total := Span(rel, aFrom, aTo, bFrom, bTo);
    var aLo, bLo := aFrom, bFrom;
    out := raw;
    AppendNothing(rel, raw, aFrom, bFrom);
    while aLo < aTo && bLo < bTo && same(aLo, bLo)
      invariant aFrom <= aLo <= aTo && bFrom <= bLo <= bTo
      invariant Appended(rel, raw, out, aFrom, aLo, bFrom, bLo, 0)
      invariant Span(rel, aLo, aTo, bLo, bTo) == total
      decreases aTo - aLo
    {
      Trim(rel, aLo, aTo, bLo, bTo);
      AppendOp(rel, raw, out, Equal(aLo, bLo), aFrom, aLo, bFrom, bLo, 0);
      out := out + [Equal(aLo, bLo)];
      aLo, bLo := aLo + 1, bLo + 1;
    }
    var tail := 0;
    ghost var g := Box(rel, aLo, aTo, bLo, bTo, false);
    NoRun(g);
    while aTo - tail > aLo && bTo - tail > bLo && same(aTo - 1 - tail, bTo - 1 - tail)
      invariant tail <= aTo - aLo && tail <= bTo - bLo
      invariant Span(rel, aLo, aTo - tail, bLo, bTo - tail) == total
      invariant FreeRun(g, aTo - tail - aLo, bTo - tail - bLo, tail)
      decreases aTo - tail
    {
      Trim(rel, aLo, aTo - tail, bLo, bTo - tail);
      LongerRun(g, aTo - tail - aLo, bTo - tail - bLo, tail);
      tail := tail + 1;
    }
    var aEnd, bEnd := aTo - tail, bTo - tail;
    ghost var mid := out;
    if aLo == aEnd {
      EmptySpan(rel, aLo, aEnd, bLo, bEnd);
      AppendNothing(rel, out, aLo, bLo);
      for j := bLo to bEnd
        invariant Appended(rel, mid, out, aLo, aLo, bLo, j, j - bLo)
      {
        AppendOp(rel, mid, out, Added(j), aLo, aLo, bLo, j, j - bLo);
        out := out + [Added(j)];
      }
    } else if bLo == bEnd {
      EmptySpan(rel, aLo, aEnd, bLo, bEnd);
      AppendNothing(rel, out, aLo, bLo);
      for i := aLo to aEnd
        invariant Appended(rel, mid, out, aLo, i, bLo, bLo, i - aLo)
      {
        AppendOp(rel, mid, out, Removed(i), aLo, i, bLo, bLo, i - aLo);
        out := out + [Removed(i)];
      }
    } else {
      TrimmedSpan(rel, aLo, aEnd, bLo, bEnd);
      out := WalkAround(same, aLo, aEnd, bLo, bEnd, out);
    }
    AppendJoin(rel, raw, mid, out, aFrom, aLo, aEnd, bFrom, bLo, bEnd, 0, total);
    mid := out;
    out := PushEqual(rel, out, aEnd, bEnd, tail, g);
    AppendJoin(rel, raw, mid, out, aFrom, aEnd, aTo, bFrom, bEnd, bTo, total, 0);
  }

  /** The two boxes on either side of the middle snake, and the snake between them. */
  method WalkAround(same: (nat, nat) -> bool, aLo: nat, aHi: nat, bLo: nat, bHi: nat, raw: seq<SequenceOp>)
    returns (out: seq<SequenceOp>)
    requires aLo <= aHi && bLo <= bHi && Span(Pairs(same), aLo, aHi, bLo, bHi) >= 2
    ensures Appended(Pairs(same), raw, out, aLo, aHi, bLo, bHi, Span(Pairs(same), aLo, aHi, bLo, bHi))
    decreases aHi - aLo + bHi - bLo, 0
  {
    hide Dist, Common, Span, Appended, FreeRun;
    ghost var rel := Pairs(same);
    var x, y, u, v := MiddleSnake(same, aLo, aHi, bLo, bHi);
    ghost var before, after := Span(rel, aLo, x, bLo, y), Span(rel, u, aHi, v, bHi);
    out := Walk(same, aLo, x, bLo, y, raw);
    ghost var mid := out;
    out := PushEqual(rel, out, x, y, u - x, Box(rel, aLo, aHi, bLo, bHi, false));
    AppendJoin(rel, raw, mid, out, aLo, x, u, bLo, y, v, before, 0);
    mid := out;
    out := Walk(same, u, aHi, v, bHi, out);
    AppendJoin(rel, raw, mid, out, aLo, u, aHi, bLo, v, bHi, before, after);
  }

  /** Within a run of changes no addition comes before a removal. */
  ghost predicate RemovalsLead(ops: seq<SequenceOp>) {
    forall i :: 0 < i < |ops| ==> ops[i].Removed? ==> !ops[i - 1].Added?
  }

  ghost predicate AllRemoved(ops: seq<SequenceOp>) {
    forall i :: 0 <= i < |ops| ==> ops[i].Removed?
  }

  ghost predicate AllAdded(ops: seq<SequenceOp>) {
    forall i :: 0 <= i < |ops| ==> ops[i].Added?
  }

  /** A finished part of the output: ordered, and not in the middle of a change run. */
  ghost predicate Settled(out: seq<SequenceOp>) {
    RemovalsLead(out) && (out == [] || out[|out| - 1].Equal?)
  }

  lemma {:induction false} OneSided(ops: seq<SequenceOp>)
    ensures AllRemoved(ops) ==> NewSide(ops) == [] && Edits(ops) == |ops|
    ensures AllAdded(ops) ==> OldSide(ops) == [] && Edits(ops) == |ops|
  {
    if ops != [] {
      OneSided(ops[..|ops| - 1]);
    }
  }

  /** Two scripts that read both sides alike and cost the same. */
  ghost predicate SameReading(xs: seq<SequenceOp>, ys: seq<SequenceOp>) {
    OldSide(xs) == OldSide(ys) && NewSide(xs) == NewSide(ys) && Edits(xs) == Edits(ys)
  }

  lemma FlushOrder(out: seq<SequenceOp>, removed: seq<SequenceOp>, added: seq<SequenceOp>)
    requires Settled(out) && AllRemoved(removed) && AllAdded(added)
    ensures RemovalsLead(out + removed + added)
    ensures forall a: nat, b: nat {:trigger Equal(a, b)} :: Settled(out + removed + added + [Equal(a, b)])
  {
  }

  lemma FlushReading(out: seq<SequenceOp>, removed: seq<SequenceOp>, added: seq<SequenceOp>)
    requires AllRemoved(removed) && AllAdded(added)
    ensures OldSide(out + removed + added) == OldSide(out) + OldSide(removed)
    ensures NewSide(out + removed + added) == NewSide(out) + NewSide(added)
    ensures Edits(out + removed + added) == Edits(out) + Edits(removed) + Edits(added)
  {
    hide OldSide, NewSide, Edits;
    Join(out, removed);
    Join(out + removed, added);
    OneSided(removed);
    OneSided(added);
  }

  /** The output and the change run collected so far, together, read as `done` does. */
  ghost predicate Collected(done: seq<SequenceOp>, out: seq<SequenceOp>, removed: seq<SequenceOp>,
                            added: seq<SequenceOp>) {
    && AllRemoved(removed) && AllAdded(added) && Settled(out)
    && SameReading(out + removed + added, done)
    && forall op :: op in out + removed + added ==> op in done
  }

  lemma Collect(done: seq<SequenceOp>, op: SequenceOp, out: seq<SequenceOp>, removed: seq<SequenceOp>,
                added: seq<SequenceOp>)
    requires Collected(done, out, removed, added)
    ensures op.Equal? ==> Collected(done + [op], out + removed + added + [op], [], [])
    ensures op.Removed? ==> Collected(done + [op], out, removed + [op], added)
    ensures op.Added? ==> Collected(done + [op], out, removed, added + [op])
  {
    hide OldSide, NewSide, Edits, RemovalsLead;
    Push(done, op);
    FlushReading(out, removed, added);
    if op.Equal? {
      FlushOrder(out, removed, added);
      Push(out + removed + added, op);
      var out' := out + removed + added + [op];
      assert out' + [] + [] == out';
    } else if op.Removed? {
      Push(removed, op);
      assert AllRemoved(removed + [op]);
      FlushReading(out, removed + [op], added);
    } else {
      Push(added, op);
      assert AllAdded(added + [op]);
      FlushReading(out, removed, added + [op]);
    }
  }

  method RemovalsFirst(ops: seq<SequenceOp>) returns (out: seq<SequenceOp>)
    ensures SameReading(out, ops) && RemovalsLead(out)
    ensures forall op :: op in out ==> op in ops
  {
    hide Collected;
    out := [];
    var removed: seq<SequenceOp>, added: seq<SequenceOp> := [], [];
    CollectNothing();
    for i := 0 to |ops|
      invariant Collected(ops[..i], out, removed, added)
    {
      var op := ops[i];
      assert ops[..i + 1] == ops[..i] + [op];
      Collect(ops[..i], op, out, removed, added);
      if op.Equal? {
        out, removed, added := out + removed + added + [op], [], [];
      } else if op.Removed? {
        removed := removed + [op];
      } else {
        added := added + [op];
      }
    }
    assert ops[..|ops|] == ops;
    CollectedReading(ops, out, removed, added);
    out := out + removed + added;
  }

  lemma CollectNothing()
    ensures Collected([], [], [], [])
  {
    var none: seq<SequenceOp> := [];
    assert none + none + none == none;
  }

  lemma CollectedReading(ops: seq<SequenceOp>, out: seq<SequenceOp>, removed: seq<SequenceOp>, added: seq<SequenceOp>)
    requires Collected(ops, out, removed, added)
    ensures SameReading(out + removed + added, ops) && RemovalsLead(out + removed + added)
    ensures forall op :: op in out + removed + added ==> op in ops
  {
    FlushOrder(out, removed, added);
  }

  /** An edit script from `a` to `b`: both are accounted for exactly once, in order, and only equal elements are
    kept. */
  ghost predicate IsEditScript<T>(a: seq<T>, b: seq<T>, equals: (T, T) -> bool, ops: seq<SequenceOp>) {
    && OldSide(ops) == Range(0, |a|)
    && NewSide(ops) == Range(0, |b|)
    && forall op :: op in ops && op.Equal? ==> op.a < |a| && op.b < |b| && equals(a[op.a], b[op.b])
  }

  /** A cheapest edit script, with every removal of a change run before its additions. */
  method DiffSequence<T>(a: seq<T>, b: seq<T>, equals: (T, T) -> bool) returns (ops: seq<SequenceOp>)
    ensures IsEditScript(a, b, equals, ops) && RemovalsLead(ops)
    ensures forall other :: IsEditScript(a, b, equals, other) ==> Edits(ops) <= Edits(other)
  {
    var same := (i: nat, j: nat) => i < |a| && j < |b| && equals(a[i], b[j]);
    ghost var rel := Pairs(same);
    var raw := Walk(same, 0, |a|, 0, |b|, []);
    assert raw[0..] == raw;
    ops := RemovalsFirst(raw);
    forall other | IsEditScript(a, b, equals, other)
      ensures Edits(ops) <= Edits(other)
    {
      NoCheaperScript(Box(rel, 0, |a|, 0, |b|, false), other, |a|, |b|);
    }
  }
}
