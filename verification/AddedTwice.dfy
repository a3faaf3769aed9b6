/** Where a block stands that both sides added. Its own side's predecessor comes before it for local, always. For remote
  that fails in some documents; this module says in which. */
module AddedTwice {
  import opened Wrappers
  import opened Splicing
  import opened ArxMerge

  /** Walking back from the block over what the side added, the identifier of the others' it stands behind. */
  function Anchor(known: seq<string>, ids: seq<string>, kept: set<string>, i: nat): Option<string>
    requires 0 < i < |ids|
  {
    if ids[i - 1] in known then Some(ids[i - 1]) else Behind(known, ids, kept, i - 1)
  }

  /** Remote has the block behind something that local, too, puts ahead of it: a block of the base no later than the one
    local has it behind, or a block that local added, too, in a run that stands further ahead. */
  ghost predicate SidesAgree(base: seq<string>, local: seq<string>, remote: seq<string>, kept: set<string>, i: nat,
                             j: nat)
    requires 0 < i < |remote| && j < |local|
  {
    var w := Anchor(base + local, remote, kept, i);
    || w.None?
    || (w.value in base && var v := Behind(base, local, kept, j); v.Some? && (w == v || Before(base, w.value, v.value)))
    || (w.value !in base && exists m :: 0 <= m < |local| && local[m] == w.value && RunsBefore(base, local, kept, m, j))
  }

  /** Runs depend only on which identifiers were there. */
  lemma {:induction false} SameRuns(one: seq<string>, other: seq<string>, ids: seq<string>, kept: set<string>, i: nat)
    requires i < |ids| && forall x :: x in kept ==> (x in one <==> x in other)
    ensures RunStart(one, ids, kept, i) == RunStart(other, ids, kept, i)
    ensures Behind(one, ids, kept, i) == Behind(other, ids, kept, i)
    decreases i
  {
    if i > 0 {
      SameRuns(one, other, ids, kept, i - 1);
    }
  }

  lemma BehindSurvives(was: seq<string>, ids: seq<string>, kept: set<string>, i: nat)
    requires i < |ids| && ids[i] in kept && ids[i] !in was
    ensures var b := Behind(was, ids, kept, i);
            b.Some? ==> b.value in kept && b.value in was && exists k :: 0 <= k < i && ids[k] == b.value
    decreases i
  {
    if i > 0 && ids[i - 1] in kept && ids[i - 1] !in was {
      BehindSurvives(was, ids, kept, i - 1);
    }
  }

  /** In the order of the base's survivors and local's additions. */
  lemma LocalOrderIff(base: seq<string>, local: seq<string>, mine: seq<string>, kept: set<string>, w: string, j: nat)
    requires Distinct(base) && Distinct(local) && Spliced(Only(base, kept), mine, local, kept)
    requires j < |local| && local[j] in kept && local[j] !in base && w in mine && w in kept
    ensures w in base ==>
      (Before(mine, w, local[j]) <==>
        var v := Behind(base, local, kept, j); v.Some? && (Some(w) == v || Before(base, w, v.value)))
    ensures w !in base ==>
      (Before(mine, w, local[j]) <==>
       exists m :: 0 <= m < |local| && local[m] == w && RunsBefore(base, local, kept, m, j))
  {
    hide Only, Distinct, Before, Spliced, RunsBefore, Behind;
    var survivors := Only(base, kept);
    OnlyDistinct(base, kept);
    SameRuns(base, survivors, local, kept, j);
    BehindSurvives(base, local, kept, j);
    if w in base {
      OldBeforeNewIff(survivors, mine, local, kept, j, w);
      var v := Behind(base, local, kept, j);
      if v.Some? {
        OnlyKeepsOrder(base, kept, w, v.value);
      }
    } else {
      ListedWhenSpliced(survivors, mine, local, kept, w);
      forall m | 0 <= m < |local| && local[m] == w
        ensures Before(mine, w, local[j]) <==> RunsBefore(base, local, kept, m, j)
      {
        NewBeforeNewIff(survivors, mine, local, kept, m, j);
        RunsBeforeSame(base, local, kept, m, j);
      }
    }
  }

  lemma ListedWhenSpliced(was: seq<string>, now: seq<string>, ids: seq<string>, kept: set<string>, x: string)
    requires Spliced(was, now, ids, kept)
    ensures x in now ==> x in was || exists m :: 0 <= m < |ids| && ids[m] == x
  {
  }

  lemma RunsBeforeSame(base: seq<string>, ids: seq<string>, kept: set<string>, m: nat, j: nat)
    requires Distinct(base) && m < |ids| && j < |ids|
    requires ids[m] in kept && ids[m] !in base && ids[j] in kept && ids[j] !in base
    ensures RunsBefore(Only(base, kept), ids, kept, m, j) <==> RunsBefore(base, ids, kept, m, j)
  {
    hide Only, Distinct, Before, Behind, RunStart;
    SameRuns(base, Only(base, kept), ids, kept, m);
    SameRuns(base, Only(base, kept), ids, kept, j);
    BehindSurvives(base, ids, kept, m);
    BehindSurvives(base, ids, kept, j);
    var a, b := Behind(base, ids, kept, m), Behind(base, ids, kept, j);
    if a.Some? && b.Some? {
      OnlyKeepsOrder(base, kept, a.value, b.value);
    }
  }

  /** Splicing in what remote alone added moves nothing that was there, and puts it where remote's walk leads. */
  lemma RemoteOrderIff(mine: seq<string>, order: seq<string>, known: seq<string>, remote: seq<string>,
                       kept: set<string>, i: nat)
    requires Distinct(mine) && Distinct(remote) && Spliced(mine, order, remote, kept)
    requires 0 < i < |remote| && remote[i] in mine && remote[i - 1] in kept
    requires forall x :: x in kept ==> (x in mine <==> x in known)
    ensures var w := Anchor(known, remote, kept, i);
            && (w.Some? ==> w.value in mine && w.value in kept)
            && (Before(order, remote[i - 1], remote[i]) <==> w.None? || Before(mine, w.value, remote[i]))
  {
    hide Only, Distinct, Before, Behind, IndexOf;
    var q, x := remote[i - 1], remote[i];
    SpliceKeeps(mine, order, remote, kept);
    if q in mine {
      OnlyKeepsOrder(order, Members(mine), q, x);
    } else {
      SameRuns(known, mine, remote, kept, i - 1);
      BehindSurvives(mine, remote, kept, i - 1);
      OldBeforeNewIff(mine, order, remote, kept, i - 1, x);
      OtherWay(order, q, x);
      var w := Anchor(known, remote, kept, i);
      if w.Some? {
        NotTwice(remote, w.value, i);
        OtherWay(mine, w.value, x);
      }
      InOrder(mine, order, remote, kept, i - 1);
      NotTwice(remote, q, i);
    }
  }

  lemma SpliceKeeps(was: seq<string>, now: seq<string>, ids: seq<string>, kept: set<string>)
    requires Spliced(was, now, ids, kept)
    ensures Distinct(now) && Only(now, Members(was)) == was && forall x :: x in was ==> x in now
  {
  }

  lemma InOrder(was: seq<string>, now: seq<string>, ids: seq<string>, kept: set<string>, i: nat)
    requires Spliced(was, now, ids, kept) && i < |ids| && ids[i] in kept
    ensures ids[i] in now
  {
  }

  lemma NotTwice(ids: seq<string>, w: string, i: nat)
    requires Distinct(ids) && i < |ids| && exists k :: 0 <= k < i && ids[k] == w
    ensures ids[i] != w
  {
  }

  lemma OtherWay(s: seq<string>, x: string, y: string)
    requires Distinct(s) && x in s && y in s && x != y
    ensures Before(s, x, y) <==> !Before(s, y, x)
  {
    hide IndexOf, Before, Distinct;
    ByIndex(s, x, y);
    ByIndex(s, y, x);
    if IndexOf(s, x) == IndexOf(s, y) {
      SamePlace(s, x, y);
    }
  }

  /** A block that both sides added comes after the one remote has before it, where that survived, exactly when the
    sides agree that it should. */
  lemma PlacedForRemoteIff(base: seq<Block>, local: seq<Block>, remote: seq<Block>, out: Outcome, i: nat, j: nat)
    requires IsMerge(base, local, remote, out) && Distinct(Ids(base)) && Distinct(Ids(local)) && Distinct(Ids(remote))
    requires 0 < i < |remote| && j < |local| && remote[i].id == local[j].id && Added(base, remote, out, i)
    ensures Before(out.order, remote[i - 1].id, remote[i].id) <==>
      SidesAgree(Ids(base), Ids(local), Ids(remote), out.resolved.Keys, i, j)
  {
    hide ById, Only, Ids, Distinct, Before, AllResolved, ConflictIds, Spliced, ThreeWay, Behind, RunsBefore;
    var kept := out.resolved.Keys;
    var b, l, m := Ids(base), Ids(local), Ids(remote);
    var survivors := Only(b, kept);
    var mine := Only(out.order, Members(b) + Members(l));
    assert IsOrder(base, local, remote, out);
    SpliceKeeps(survivors, mine, l, kept);
    assert l[j] == local[j].id && m[i] == remote[i].id && m[i - 1] == remote[i - 1].id;
    assert forall x :: x in kept ==> (x in mine <==> x in b + l);
    assert l[j] in mine;
    RemoteOrderIff(mine, out.order, b + l, m, kept, i);
    var w := Anchor(b + l, m, kept, i);
    if w.Some? {
      LocalOrderIff(b, l, mine, kept, w.value, j);
    }
  }

  /** Behind two blocks of the base, the sides agree exactly when remote's is local's or comes before it in the base. */
  lemma BehindBaseBlocks(base: seq<string>, local: seq<string>, remote: seq<string>, kept: set<string>, i: nat, j: nat)
    requires 0 < i < |remote| && 0 < j < |local|
    requires remote[i - 1] in base && local[j - 1] in base && local[j - 1] in kept
    ensures SidesAgree(base, local, remote, kept, i, j) <==>
      remote[i - 1] == local[j - 1] || Before(base, remote[i - 1], local[j - 1])
  {
    hide Before;
    assert RunStart(base, local, kept, j) == j;
  }

  /** The same block added after the first and after the last block of the base: it stands where local has it, and
    remote's predecessor comes after it. */
  lemma AddedApart(a: Node, b: Node, x: Node, out: Outcome)
    requires IsMerge([Block("a", a), Block("b", b)], [Block("a", a), Block("x", x), Block("b", b)],
                     [Block("a", a), Block("b", b), Block("x", x)], out)
    ensures "b" in out.order && "x" in out.order && !Before(out.order, "b", "x")
  {
    hide IsMerge, IsOrder, Before, Only, Spliced, ConflictIds, SidesAgree, Distinct;
    var base, local := [Block("a", a), Block("b", b)], [Block("a", a), Block("x", x), Block("b", b)];
    var remote := [Block("a", a), Block("b", b), Block("x", x)];
    assert Ids(base) == ["a", "b"] && Ids(local) == ["a", "x", "b"] && Ids(remote) == ["a", "b", "x"];
    AllDistinct(["a", "b"]);
    AllDistinct(["a", "x", "b"]);
    AllDistinct(["a", "b", "x"]);
    Survives(base, local, remote, out, 0, 0);
    Survives(base, local, remote, out, 2, 1);
    Survives(base, local, remote, out, 1, 2);
    PlacedForRemoteIff(base, local, remote, out, 2, 1);
    BehindBaseBlocks(["a", "b"], ["a", "x", "b"], ["a", "b", "x"], out.resolved.Keys, 2, 1);
    ByIndex(["a", "b"], "b", "a");
    assert ["a", "b"][1..] == ["b"];
  }

  lemma AllDistinct(s: seq<string>)
    requires forall i, j :: 0 <= i < j < |s| ==> s[i] != s[j]
    ensures Distinct(s)
  {
  }

  /** A block both sides have is in the merge. */
  lemma Survives(base: seq<Block>, local: seq<Block>, remote: seq<Block>, out: Outcome, i: nat, j: nat)
    requires IsMerge(base, local, remote, out) && Distinct(Ids(base)) && Distinct(Ids(local)) && Distinct(Ids(remote))
    requires i < |remote| && j < |local| && remote[i].id == local[j].id
    ensures remote[i].id in out.resolved && remote[i].id in out.order
  {
    hide ById, Ids, Only, Spliced, ConflictIds, Distinct;
    var id := remote[i].id;
    assert Ids(remote)[i] == id && Ids(local)[j] == id;
    assert ThreeWay(Get(ById(base), id), Get(ById(local), id), Get(ById(remote), id), Get(out.resolved, id));
    assert id in Members(out.order);
  }
}
