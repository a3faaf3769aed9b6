/** The edit graph the line and word diffs walk, and the distance every claim about them is measured in.

  A point `(x, y)` means: `x` elements of the old sequence and `y` of the new one are consumed. A removal
  goes one step right, an addition one step down, and a matching pair one step along the diagonal for free.
  The graph is read on the unbounded quarter plane, with no diagonals outside the box, because the frontier
  arrays of the search do hold points outside it. */
module EditGraph {

  /** The pairs of positions a match test accepts. */
  ghost function Pairs(same: (nat, nat) -> bool): iset<(nat, nat)> {
    iset i: nat, j: nat | same(i, j) :: (i, j)
  }

  /** A sub-rectangle of the edit graph. `backward` reads it from its far corner, as the reverse search does. */
  datatype Box = Box(same: iset<(nat, nat)>, aLo: nat, aHi: nat, bLo: nat, bHi: nat, backward: bool)
  {
    predicate Valid() {
      aLo <= aHi && bLo <= bHi
    }

    function N(): nat
      requires Valid()
    {
      aHi - aLo
    }

    function M(): nat
      requires Valid()
    {
      bHi - bLo
    }

    ghost predicate Match(i: nat, j: nat)
      requires Valid()
    {
      i < N() && j < M() && if backward then (aHi - 1 - i, bHi - 1 - j) in same else (aLo + i, bLo + j) in same
    }

    function Flip(): Box {
      this.(backward := !backward)
    }
  }

  function Min(a: int, b: int): int {
    if a < b then a else b
  }

  function Max(a: int, b: int): int {
    if a < b then b else a
  }

  /** The fewest removals and additions on a path from the origin to `(x, y)`. */
  ghost function Dist(g: Box, x: nat, y: nat): nat
    requires g.Valid()
    decreases x + y
  {
    if x == 0 then y
    else if y == 0 then x
    else if g.Match(x - 1, y - 1) then Dist(g, x - 1, y - 1)
    else 1 + Min(Dist(g, x - 1, y), Dist(g, x, y - 1))
  }

  /** The distance across the whole of a box. */
  ghost function Span(same: iset<(nat, nat)>, aLo: nat, aHi: nat, bLo: nat, bHi: nat): nat
    requires aLo <= aHi && bLo <= bHi
  {
    Dist(Box(same, aLo, aHi, bLo, bHi, false), aHi - aLo, bHi - bLo)
  }

  /** The diagonal of the far corner. */
  function Delta(g: Box): int
    requires g.Valid()
  {
    (g.aHi as int - g.aLo as int) - (g.bHi - g.bLo)
  }

  /** Along the edges of the plane every step is an edit. */
  lemma Edge(g: Box, x: nat, y: nat)
    requires g.Valid()
    ensures x == 0 || y == 0 ==> Dist(g, x, y) == x + y
  {
  }

  /** Sliding over matches costs nothing. */
  lemma Slide(g: Box, x: nat, y: nat)
    requires g.Valid() && g.Match(x, y)
    ensures Dist(g, x + 1, y + 1) == Dist(g, x, y)
  {
  }

  /** Where the diagonal does not match, the next point costs one more than the cheaper of its neighbours. */
  lemma Corner(g: Box, x: nat, y: nat)
    requires g.Valid() && !g.Match(x, y)
    ensures Dist(g, x + 1, y + 1) == 1 + Min(Dist(g, x, y + 1), Dist(g, x + 1, y))
  {
  }

  lemma NoRun(g: Box)
    requires g.Valid()
    ensures forall x, y {:trigger FreeRun(g, x, y, 0)} :: FreeRun(g, x, y, 0)
  {
  }

  lemma LongerRun(g: Box, x: nat, y: nat, n: nat)
    requires g.Valid() && 0 < x && 0 < y && FreeRun(g, x, y, n) && g.Match(x - 1, y - 1)
    ensures FreeRun(g, x - 1, y - 1, n + 1)
  {
  }

  lemma FlipRun(g: Box, x: int, y: int, n: int)
    requires g.Valid() && 0 <= x && 0 <= y && x + n <= g.N() && y + n <= g.M() && FreeRun(g, x, y, n)
    ensures FreeRun(g.Flip(), g.N() - x - n, g.M() - y - n, n)
  {
    var f := g.Flip();
    forall i: nat, j: nat {:trigger f.Match(i, j)} | g.N() - x - n <= i < g.N() - x && j - i == g.M() - y - g.N() + x
      ensures f.Match(i, j)
    {
      assert g.Match(g.N() - 1 - i, g.M() - 1 - j);
    }
  }

  /** The neighbour a last edit comes from. */
  lemma Cheaper(g: Box, x: nat, y: nat) returns (p: nat, q: nat)
    requires g.Valid() && 0 < x + y && (x > 0 && y > 0 ==> !g.Match(x - 1, y - 1))
    ensures (p + 1 == x && q == y) || (p == x && q + 1 == y)
    ensures Dist(g, x, y) == 1 + Dist(g, p, q)
  {
    if x > 0 && Dist(g, x, y) == 1 + Dist(g, x - 1, y) {
      p, q := x - 1, y;
    } else {
      p, q := x, y - 1;
    }
  }

  /** `n` matching steps along the diagonal from `(x, y)`. */
  ghost predicate FreeRun(g: Box, x: int, y: int, n: int)
    requires g.Valid()
  {
    forall i: nat, j: nat {:trigger g.Match(i, j)} :: x <= i < x + n && j - i == y - x ==> g.Match(i, j)
  }

  /** One step right or down changes the distance by at most one. */
  lemma {:induction false} Lipschitz(g: Box, x: nat, y: nat)
    requires g.Valid()
    ensures Dist(g, x, y) <= Dist(g, x + 1, y) + 1 && Dist(g, x + 1, y) <= Dist(g, x, y) + 1
    ensures Dist(g, x, y) <= Dist(g, x, y + 1) + 1 && Dist(g, x, y + 1) <= Dist(g, x, y) + 1
    decreases x + y
  {
    if y > 0 {
      Lipschitz(g, x, y - 1);
    }
    if x > 0 {
      Lipschitz(g, x - 1, y);
    }
  }

  /** Distances never fall along a diagonal. */
  lemma {:induction false} Diagonal(g: Box, x: nat, y: nat, t: nat)
    requires g.Valid()
    ensures Dist(g, x, y) <= Dist(g, x + t, y + t)
    decreases t
  {
    if t > 0 {
      Diagonal(g, x, y, t - 1);
      Lipschitz(g, x + t - 1, y + t - 1);
    }
  }

  /** The length of a longest common subsequence of the first `x` and `y` elements. */
  ghost function Common(g: Box, x: nat, y: nat): nat
    requires g.Valid()
    decreases x + y
  {
    if x == 0 || y == 0 then 0
    else if g.Match(x - 1, y - 1) then 1 + Common(g, x - 1, y - 1)
    else Max(Common(g, x - 1, y), Common(g, x, y - 1))
  }

  /** Everything outside a longest common subsequence is one edit; so a distance has the parity of its
    diagonal and is at least as large as it. */
  lemma {:induction false} DistCommon(g: Box, x: nat, y: nat)
    requires g.Valid()
    ensures Dist(g, x, y) == x + y - 2 * Common(g, x, y)
    ensures Common(g, x, y) <= x && Common(g, x, y) <= y
    decreases x + y
  {
    if x > 0 && y > 0 {
      if g.Match(x - 1, y - 1) {
        DistCommon(g, x - 1, y - 1);
      } else {
        DistCommon(g, x - 1, y);
        DistCommon(g, x, y - 1);
      }
    }
  }

  /** Outside the box every step is an edit. */
  lemma {:induction false} Overshoot(g: Box, x: nat, y: nat)
    requires g.Valid()
    ensures x >= g.N() ==> Dist(g, x, y) == Dist(g, g.N(), y) + x - g.N()
    ensures y >= g.M() ==> Dist(g, x, y) == Dist(g, x, g.M()) + y - g.M()
    decreases x + y
  {
    hide Dist;
    var n, m := g.N(), g.M();
    Edge(g, x, y);
    Edge(g, n, y);
    Edge(g, x, m);
    if x > 0 && y > 0 && (x > n || y > m) {
      Corner(g, x - 1, y - 1);
      Overshoot(g, x - 1, y);
      Overshoot(g, x, y - 1);
      Lipschitz(g, n, y - 1);
      Lipschitz(g, x - 1, m);
    }
  }

  /** Every point splits a walk across the box into two no shorter than the whole. */
  lemma {:induction false} Triangle(g: Box, x: nat, y: nat)
    requires g.Valid() && x <= g.N() && y <= g.M()
    ensures Dist(g, g.N(), g.M()) <= Dist(g, x, y) + Dist(g.Flip(), g.N() - x, g.M() - y)
    decreases g.N() - x + g.M() - y
  {
    hide Dist;
    var f, i, j := g.Flip(), g.N() - x, g.M() - y;
    if i == 0 || j == 0 {
      if i > 0 {
        Triangle(g, x + 1, y);
      } else if j > 0 {
        Triangle(g, x, y + 1);
      }
      TriangleEdge(g, x, y);
    } else if g.Match(x, y) {
      Slide(g, x, y);
      Slide(f, i - 1, j - 1);
      Triangle(g, x + 1, y + 1);
    } else {
      Corner(f, i - 1, j - 1);
      Triangle(g, x + 1, y);
      Triangle(g, x, y + 1);
      Lipschitz(g, x, y);
    }
  }

  /** On the far edges of the box there is one way to go on. */
  lemma TriangleEdge(g: Box, x: nat, y: nat)
    requires g.Valid() && x <= g.N() && y <= g.M() && (x == g.N() || y == g.M())
    requires x < g.N() ==> Dist(g, g.N(), g.M()) <= Dist(g, x + 1, y) + Dist(g.Flip(), g.N() - x - 1, g.M() - y)
    requires y < g.M() ==> Dist(g, g.N(), g.M()) <= Dist(g, x, y + 1) + Dist(g.Flip(), g.N() - x, g.M() - y - 1)
    ensures Dist(g, g.N(), g.M()) <= Dist(g, x, y) + Dist(g.Flip(), g.N() - x, g.M() - y)
  {
    hide Dist;
    var f, i, j := g.Flip(), g.N() - x, g.M() - y;
    Edge(f, i, j);
    Lipschitz(g, x, y);
    if i > 0 {
      Edge(f, i - 1, j);
    } else if j > 0 {
      Edge(f, i, j - 1);
    }
  }

  /** Walking the box backward is no shorter and no longer. */
  lemma Reversible(g: Box)
    requires g.Valid()
    ensures Dist(g.Flip(), g.N(), g.M()) == Dist(g, g.N(), g.M())
  {
    Triangle(g, 0, 0);
    Triangle(g.Flip(), 0, 0);
    assert g.Flip().Flip() == g;
  }

  /** The point before `(x, y)` on a shortest walk through it. */
  lemma Predecessor(g: Box, x: nat, y: nat) returns (p: nat, q: nat)
    requires g.Valid() && x <= g.N() && y <= g.M() && 0 < x + y
    requires Dist(g, x, y) + Dist(g.Flip(), g.N() - x, g.M() - y) == Dist(g, g.N(), g.M())
    ensures p <= x && q <= y && p + q < x + y
    ensures Dist(g, x, y) - 1 <= Dist(g, p, q) <= Dist(g, x, y)
    ensures Dist(g, p, q) + Dist(g.Flip(), g.N() - p, g.M() - q) == Dist(g, g.N(), g.M())
  {
    hide Dist;
    if x > 0 && y > 0 && g.Match(x - 1, y - 1) {
      p, q := x - 1, y - 1;
      Slide(g, p, q);
      FlippedSlide(g, p, q);
    } else {
      p, q := Cheaper(g, x, y);
      Triangle(g, p, q);
      FlippedStep(g, p, q, x, y);
    }
  }

  /** A match is a match from the far corner too. */
  lemma FlippedSlide(g: Box, p: nat, q: nat)
    requires g.Valid() && p < g.N() && q < g.M() && g.Match(p, q)
    ensures Dist(g.Flip(), g.N() - p, g.M() - q) == Dist(g.Flip(), g.N() - p - 1, g.M() - q - 1)
  {
    hide Dist;
    var f, i, j := g.Flip(), g.N() - p - 1, g.M() - q - 1;
    assert f.Match(i, j);
    Slide(f, i, j);
  }

  /** One edit is at most one edit from the far corner too. */
  lemma FlippedStep(g: Box, p: nat, q: nat, x: nat, y: nat)
    requires g.Valid() && x <= g.N() && y <= g.M() && p <= x && q <= y && p + q + 1 == x + y
    ensures Dist(g.Flip(), g.N() - p, g.M() - q) <= Dist(g.Flip(), g.N() - x, g.M() - y) + 1
  {
    hide Dist;
    Lipschitz(g.Flip(), g.N() - x, g.M() - y);
  }

  /** A shortest walk can be cut after any number of its edits. */
  lemma {:induction false} Waypoint(g: Box, d: nat, x: nat, y: nat) returns (p: nat, q: nat)
    requires g.Valid() && x <= g.N() && y <= g.M() && d <= Dist(g, x, y)
    requires Dist(g, x, y) + Dist(g.Flip(), g.N() - x, g.M() - y) == Dist(g, g.N(), g.M())
    ensures p <= g.N() && q <= g.M() && Dist(g, p, q) == d
    ensures d + Dist(g.Flip(), g.N() - p, g.M() - q) == Dist(g, g.N(), g.M())
    decreases x + y
  {
    hide Dist;
    Edge(g, x, y);
    if Dist(g, x, y) == d {
      return x, y;
    }
    var p', q' := Predecessor(g, x, y);
    p, q := Waypoint(g, d, p', q');
  }

  /** Two boxes that agree on every cell below a point agree on its distance. */
  lemma {:induction false} Agree(g: Box, h: Box, x: nat, y: nat)
    requires g.Valid() && h.Valid()
    requires forall i: nat, j: nat :: i < x && j < y ==> g.Match(i, j) == h.Match(i, j)
    ensures Dist(g, x, y) == Dist(h, x, y)
    decreases x + y
  {
    if x > 0 && y > 0 {
      Agree(g, h, x - 1, y - 1);
      Agree(g, h, x - 1, y);
      Agree(g, h, x, y - 1);
    }
  }

  /** `x` is the last point of diagonal `k` within `d` edits. */
  ghost predicate Furthest(g: Box, d: int, k: int, x: int)
    requires g.Valid()
  {
    0 <= x && 0 <= x - k && Dist(g, x, x - k) <= d < Dist(g, x + 1, x + 1 - k)
  }

  /** One round of the greedy search: step off the better neighbour, then slide as far as elements match. */
  lemma Advance(g: Box, d: int, k: int, left: int, right: int, x0: int, x: int)
    requires g.Valid() && -d <= k <= d && 0 <= d
    requires k != -d ==> Furthest(g, d - 1, k - 1, left)
    requires k != d ==> Furthest(g, d - 1, k + 1, right)
    requires d == 0 ==> right == 0
    requires x0 == if k == -d || (k != d && left < right) then right else left + 1
    requires 0 <= x0 <= x && 0 <= x0 - k
    requires Dist(g, x, x - k) == Dist(g, x0, x0 - k) && !g.Match(x, x - k)
    ensures Furthest(g, d, k, x) && Dist(g, x0, x0 - k) <= d
  {
    hide Dist, Common;
    Corner(g, x, x - k);
    if d > 0 {
      if x0 == left + 1 && k != -d {
        Lipschitz(g, left, left - (k - 1));
      } else {
        Lipschitz(g, right, right - (k + 1));
      }
    } else {
      DistCommon(g, x0, x0 - k);
    }
    DistCommon(g, x, x - k + 1);
    DistCommon(g, x + 1, x - k);
    if k != -d {
      Diagonal(g, left + 1, left + 1 - (k - 1), x - left - 1);
    }
    if k != d {
      Diagonal(g, right + 1, right + 1 - (k + 1), x - right);
    }
  }

  /** When the two searches overlap no earlier than a shortest walk allows, they meet inside the box and
    together they are a shortest walk. */
  lemma Overlap(g: Box, d: int, e: int, k: int, x: int, c: int, b: int)
    requires g.Valid() && d + e <= Dist(g, g.N(), g.M())
    requires c == Delta(g) - k && -e <= c <= e
    requires Furthest(g, d, k, x) && Furthest(g.Flip(), e, c, b) && x + b >= g.N()
    ensures x <= g.N() && 0 <= x - k <= g.M() && Dist(g, x, x - k) <= d
    ensures Dist(g.Flip(), g.N() - x, g.M() - (x - k)) <= e
    ensures Dist(g, g.N(), g.M()) == d + e
  {
    hide Dist, Common;
    var y := x - k;
    var n, m := g.N(), g.M();
    if x > n || y > m {
      Overshoot(g, x, y);
      Overshoot(g, n, y);
      Triangle(g, Min(x, n), Min(y, m));
      Edge(g.Flip(), n - Min(x, n), m - Min(y, m));
      assert false;
    } else {
      Diagonal(g.Flip(), n - x, m - y, b - (n - x));
      Triangle(g, x, y);
    }
  }

  /** A shortest walk of `d + e` edits makes the two searches overlap on some diagonal. */
  lemma Meeting(g: Box, d: int, e: int) returns (k: int, c: int)
    requires g.Valid() && 0 <= d && 0 <= e && Dist(g, g.N(), g.M()) == d + e
    ensures -d <= k <= d && (k + d) % 2 == 0 && -e <= c <= e && c == Delta(g) - k
    ensures forall x, b {:trigger Furthest(g, d, k, x), Furthest(g.Flip(), e, c, b)} ::
              Furthest(g, d, k, x) && Furthest(g.Flip(), e, c, b) ==> x + b >= g.N()
  {
    var n, m := g.N(), g.M();
    hide Dist, Common;
    Edge(g.Flip(), 0, 0);
    var p, q := Waypoint(g, d, n, m);
    k := p - q;
    c := Delta(g) - k;
    DistCommon(g, p, q);
    DistCommon(g.Flip(), n - p, m - q);
    forall x, b {:trigger Furthest(g, d, k, x), Furthest(g.Flip(), e, c, b)} |
      Furthest(g, d, k, x) && Furthest(g.Flip(), e, c, b)
      ensures x + b >= n
    {
      if x < p {
        Diagonal(g, x + 1, x + 1 - k, p - x - 1);
      }
      if b < n - p {
        Diagonal(g.Flip(), b + 1, b + 1 - c, n - p - b - 1);
      }
    }
  }
}
