/** Splicing new identifiers into an order, each behind its own predecessor. */
module Splicing {
  import opened Wrappers

  function Members(s: seq<string>): (r: set<string>)
    ensures forall x :: x in r <==> x in s
  {
    set x | x in s
  }

  function Only(s: seq<string>, keep: set<string>): (r: seq<string>)
    ensures forall x :: x in r <==> x in s && x in keep
  {
    if s == [] then [] else (if s[0] in keep then [s[0]] else []) + Only(s[1..], keep)
  }

  function IndexOf(s: seq<string>, x: string): (i: int)
    ensures -1 <= i < |s| && (i == -1 <==> x !in s) && (i >= 0 ==> s[i] == x)
  {
    if s == [] then -1 else if s[0] == x then 0 else if IndexOf(s[1..], x) == -1 then -1 else 1 + IndexOf(s[1..], x)
  }

  function Insert(s: seq<string>, a: nat, x: string): (r: seq<string>)
    requires a <= |s|
    ensures |r| == |s| + 1 && r[a] == x
    ensures forall i :: 0 <= i < |s| ==> r[if i < a then i else i + 1] == s[i]
  {
    s[..a] + [x] + s[a..]
  }

  ghost predicate Adjacent(s: seq<string>, x: string, y: string) {
    exists i, j :: 0 <= i && j == i + 1 && j < |s| && s[i] == x && s[j] == y
  }

  ghost predicate Before(s: seq<string>, x: string, y: string) {
    exists i, j :: 0 <= i < j < |s| && s[i] == x && s[j] == y
  }

  /** Where a new identifier stands: right behind its predecessor if that survived, else ahead of all that was there. */
  ghost predicate PlacedAt(was: seq<string>, now: seq<string>, ids: seq<string>, kept: set<string>, i: nat)
    requires i < |ids|
  {
    if i > 0 && ids[i - 1] in kept then Adjacent(now, ids[i - 1], ids[i])
    else forall y :: y in was || (y in ids[..i] && y in kept) ==> Before(now, ids[i], y)
  }

  /** `now` is `was`, in its own order, with the kept identifiers of `ids` it lacked spliced in. */
  ghost predicate Spliced(was: seq<string>, now: seq<string>, ids: seq<string>, kept: set<string>) {
    && Distinct(now)
    && (forall x :: x in now <==> x in was || (x in ids && x in kept))
    && Only(now, Members(was)) == was
    && forall i :: 0 <= i < |ids| && ids[i] in kept && ids[i] !in was ==> PlacedAt(was, now, ids, kept, i)
  }

  lemma {:induction false} OnlyJoin(s: seq<string>, t: seq<string>, keep: set<string>)
    ensures Only(s + t, keep) == Only(s, keep) + Only(t, keep)
    decreases |s|
  {
    if s == [] {
      assert s + t == t;
    } else {
      OnlyJoin(s[1..], t, keep);
      var head := if s[0] in keep then [s[0]] else [];
      assert (s + t)[1..] == s[1..] + t && (s + t)[0] == s[0];
      assert Only(s, keep) == head + Only(s[1..], keep);
      assert Only(s + t, keep) == head + (Only(s[1..], keep) + Only(t, keep));
    }
  }

  lemma {:induction false} OnlyAll(s: seq<string>, keep: set<string>)
    requires forall x :: x in s ==> x in keep
    ensures Only(s, keep) == s
    decreases |s|
  {
    if s != [] {
      OnlyAll(s[1..], keep);
    }
  }

  lemma {:induction false} OnlyTwice(s: seq<string>, big: set<string>, small: set<string>)
    requires small <= big
    ensures Only(Only(s, big), small) == Only(s, small)
    decreases |s|
  {
    if s != [] {
      OnlyTwice(s[1..], big, small);
      OnlyJoin(if s[0] in big then [s[0]] else [], Only(s[1..], big), small);
      assert Only([s[0]], small) == if s[0] in small then [s[0]] else [];
    }
  }

  lemma {:induction false} OnlySame(s: seq<string>, one: set<string>, other: set<string>)
    requires forall x :: x in s ==> (x in one <==> x in other)
    ensures Only(s, one) == Only(s, other)
    decreases |s|
  {
    if s != [] {
      OnlySame(s[1..], one, other);
    }
  }

  lemma {:induction false} OnlyDistinct(s: seq<string>, keep: set<string>)
    requires Distinct(s)
    ensures Distinct(Only(s, keep))
    decreases |s|
  {
    if s != [] {
      OnlyDistinct(s[1..], keep);
    }
  }

  lemma OnlySingle(x: string, keep: set<string>)
    ensures Only([x], keep) == if x in keep then [x] else []
  {
    assert Only([x][1..], keep) == [];
  }

  lemma OnlyInsert(s: seq<string>, a: nat, x: string, keep: set<string>)
    requires a <= |s| && x !in keep
    ensures Only(Insert(s, a, x), keep) == Only(s, keep)
  {
    hide Only;
    OnlyJoin(s[..a] + [x], s[a..], keep);
    OnlyJoin(s[..a], [x], keep);
    OnlyJoin(s[..a], s[a..], keep);
    assert s[..a] + s[a..] == s;
    OnlySingle(x, keep);
  }

  lemma InsertMembers(s: seq<string>, a: nat, b: string)
    requires a <= |s|
    ensures forall x :: x in Insert(s, a, b) <==> x in s || x == b
    ensures Distinct(s) && b !in s ==> Distinct(Insert(s, a, b))
  {
    assert s == s[..a] + s[a..];
  }

  /** One more identifier, already there or not to be kept. */
  lemma SpliceSkip(was: seq<string>, now: seq<string>, ids: seq<string>, kept: set<string>, k: nat)
    requires k < |ids| && Distinct(ids) && Spliced(was, now, ids[..k], kept)
    requires ids[k] !in kept || ids[k] in now
    ensures Spliced(was, now, ids[..k + 1], kept)
  {
    hide Only, Adjacent, Before;
    var done, next := ids[..k], ids[..k + 1];
    assert next == done + [ids[k]];
    assert ids[k] in kept ==> ids[k] in was;
    forall i | 0 <= i < |next| && next[i] in kept && next[i] !in was
      ensures PlacedAt(was, now, next, kept, i)
    {
      assert done[..i] == next[..i];
      assert done[i] == next[i] && PlacedAt(was, now, done, kept, i);
    }
  }

  /** One more identifier, spliced in at `a`. */
  lemma SpliceOne(was: seq<string>, now: seq<string>, ids: seq<string>, kept: set<string>, k: nat, a: nat)
    requires k < |ids| && Distinct(ids) && Spliced(was, now, ids[..k], kept)
    requires ids[k] in kept && ids[k] !in now && a <= |now|
    requires if k > 0 && ids[k - 1] in now then a > 0 && now[a - 1] == ids[k - 1] else a == 0
    requires Members(was) <= kept
    ensures Spliced(was, Insert(now, a, ids[k]), ids[..k + 1], kept)
  {
    hide Only, Adjacent, Before, Insert, PlacedAt, Distinct;
    var done, next, after := ids[..k], ids[..k + 1], Insert(now, a, ids[k]);
    assert next == done + [ids[k]];
    InsertMembers(now, a, ids[k]);
    OnlyInsert(now, a, ids[k], Members(was));
    assert k > 0 ==> ids[k - 1] in done;
    PlacedNew(was, now, ids, kept, k, a);
    forall i | 0 <= i < |next| && next[i] in kept && next[i] !in was
      ensures PlacedAt(was, after, next, kept, i)
    {
      if i < k {
        assert done[i] == next[i];
        PlacedStays(was, now, ids, kept, k, i, a, after);
      }
    }
  }

  lemma PlacedNew(was: seq<string>, now: seq<string>, ids: seq<string>, kept: set<string>, k: nat, a: nat)
    requires k < |ids| && a <= |now| && (forall x :: x in was || (x in ids[..k] && x in kept) ==> x in now)
    requires k > 0 && ids[k - 1] in kept ==> a > 0 && now[a - 1] == ids[k - 1]
    requires !(k > 0 && ids[k - 1] in kept) ==> a == 0
    ensures PlacedAt(was, Insert(now, a, ids[k]), ids[..k + 1], kept, k)
  {
    var after := Insert(now, a, ids[k]);
    if k > 0 && ids[k - 1] in kept {
      assert after[a - 1] == ids[k - 1] && after[a] == ids[k];
    } else {
      assert ids[..k + 1][..k] == ids[..k];
      forall y | y in was || (y in ids[..k] && y in kept)
        ensures Before(after, ids[k], y)
      {
        var j :| 0 <= j < |now| && now[j] == y;
        assert after[0] == ids[k] && after[j + 1] == y;
      }
    }
  }

  lemma PlacedStays(was: seq<string>, now: seq<string>, ids: seq<string>, kept: set<string>, k: nat, i: nat, a: nat,
                    after: seq<string>)
    requires i < k < |ids| && Distinct(ids) && PlacedAt(was, now, ids[..k], kept, i)
    requires a <= |now| && after == Insert(now, a, ids[k]) && (a > 0 ==> k > 0 && now[a - 1] == ids[k - 1])
    ensures PlacedAt(was, after, ids[..k + 1], kept, i)
  {
    hide Adjacent, Before, Insert;
    assert ids[..k][i] == ids[i] && ids[..k + 1][i] == ids[i];
    assert ids[..k + 1][..i] == ids[..k][..i];
    if i > 0 && ids[i - 1] in kept {
      assert ids[i - 1] != ids[k - 1];
      AdjacentStays(now, a, ids[k], ids[i - 1], ids[i]);
    } else {
      forall y | y in was || (y in ids[..k][..i] && y in kept)
        ensures Before(after, ids[i], y)
      {
        BeforeStays(now, a, ids[k], ids[i], y);
      }
    }
  }

  /** Inserting parts no neighbours but those at the place itself. */
  lemma AdjacentStays(s: seq<string>, a: nat, b: string, x: string, y: string)
    requires a <= |s| && Adjacent(s, x, y) && (a > 0 ==> s[a - 1] != x)
    ensures Adjacent(Insert(s, a, b), x, y)
  {
    hide Insert;
    var i, j :| 0 <= i && j == i + 1 && j < |s| && s[i] == x && s[j] == y;
    var after := Insert(s, a, b);
    assert after[if i < a then i else i + 1] == x && after[if j < a then j else j + 1] == y;
  }

  lemma BeforeStays(s: seq<string>, a: nat, b: string, x: string, y: string)
    requires a <= |s| && Before(s, x, y)
    ensures Before(Insert(s, a, b), x, y)
  {
    hide Insert;
    var i, j :| 0 <= i < j < |s| && s[i] == x && s[j] == y;
    var after := Insert(s, a, b);
    assert after[if i < a then i else i + 1] == x && after[if j < a then j else j + 1] == y;
  }

  lemma SpliceStarts(was: seq<string>, kept: set<string>)
    requires Distinct(was)
    ensures Spliced(was, was, [], kept)
  {
    OnlyAll(was, Members(was));
  }

  /** An order that is spliced from some of `ids`, in the order they have there, and all the rest of `ids`. */
  ghost predicate Whole(was: seq<string>, now: seq<string>, ids: seq<string>) {
    && Distinct(ids) && Only(ids, Members(was)) == was && (forall x :: x in was ==> x in ids)
    && Spliced(was, now, ids, Members(ids))
  }

  lemma AdjacentNext(s: seq<string>, x: string, y: string, i: nat)
    requires Distinct(s) && Adjacent(s, x, y) && i < |s| && s[i] == y
    ensures i > 0 && s[i - 1] == x
  {
    var k, l :| 0 <= k && l == k + 1 && l < |s| && s[k] == x && s[l] == y;
    assert l == i;
  }

  lemma OncePlaced(s: seq<string>, i: nat, j: nat)
    requires Distinct(s) && i < |s| && j < |s| && s[i] == s[j]
    ensures i == j
  {
  }

  lemma PlaceOf(was: seq<string>, now: seq<string>, ids: seq<string>, i: nat)
    requires Whole(was, now, ids) && i < |ids| && ids[i] !in was
    ensures if i > 0 then Adjacent(now, ids[i - 1], ids[i]) else forall y :: y in was ==> Before(now, ids[i], y)
  {
    hide Only, Adjacent, Before, Distinct;
    assert ids[i] in Members(ids);
    assert i > 0 ==> ids[i - 1] in Members(ids);
    assert PlacedAt(was, now, ids, Members(ids), i);
  }

  /** A spliced-in identifier that comes next cannot be any but the next of `ids`. */
  lemma NewComesNext(was: seq<string>, now: seq<string>, ids: seq<string>, i: nat)
    requires Whole(was, now, ids) && i < |now| && i < |ids| && now[..i] == ids[..i] && now[i] !in was
    ensures now[i] == ids[i]
  {
    hide Only, Adjacent, Before, Distinct, PlacedAt;
    assert now[i] in now && now[i] in ids;
    var j :| 0 <= j < |ids| && ids[j] == now[i];
    PlaceOf(was, now, ids, j);
    if j > 0 {
      AdjacentNext(now, ids[j - 1], ids[j], i);
      assert now[..i][i - 1] == ids[..i][i - 1];
      OncePlaced(ids, i - 1, j - 1);
    } else if i > 0 {
      assert now[..i][0] == ids[..i][0];
      OncePlaced(now, 0, i);
    }
  }

  lemma NewIsDue(was: seq<string>, now: seq<string>, ids: seq<string>, i: nat)
    requires Whole(was, now, ids) && i < |now| && i < |ids| && now[..i] == ids[..i] && ids[i] !in was
    ensures now[i] !in was
  {
    hide Only, Distinct, PlacedAt;
    PlaceOf(was, now, ids, i);
    if i > 0 {
      var k, l :| 0 <= k && l == k + 1 && l < |now| && now[k] == ids[i - 1] && now[l] == ids[i];
      assert now[..i][i - 1] == ids[..i][i - 1];
      OncePlaced(now, k, i - 1);
    } else if now[0] in was {
      assert Before(now, ids[0], now[0]);
      var k, l :| 0 <= k < l < |now| && now[k] == ids[0] && now[l] == now[0];
      OncePlaced(now, 0, l);
    }
  }

  lemma NextIsOld(was: seq<string>, now: seq<string>, ids: seq<string>, i: nat)
    requires Whole(was, now, ids) && i < |now| && i < |ids| && now[..i] == ids[..i] && now[i] in was && ids[i] in was
    ensures now[i] == ids[i]
  {
    hide Only, Adjacent, Before, PlacedAt, Distinct;
    var keep := Members(was);
    assert now == now[..i] + now[i..] && ids == ids[..i] + ids[i..];
    OnlyJoin(now[..i], now[i..], keep);
    OnlyJoin(ids[..i], ids[i..], keep);
    var n, m := Only(now[i..], keep), Only(ids[i..], keep);
    assert n == (Only(now[..i], keep) + n)[|Only(now[..i], keep)|..]
      == (Only(ids[..i], keep) + m)[|Only(ids[..i], keep)|..] == m;
    OnlyFirst(now[i..], keep);
    OnlyFirst(ids[i..], keep);
  }

  lemma OnlyFirst(s: seq<string>, keep: set<string>)
    requires s != [] && s[0] in keep
    ensures Only(s, keep) != [] && Only(s, keep)[0] == s[0]
  {
  }

  lemma {:induction false} WholePrefix(was: seq<string>, now: seq<string>, ids: seq<string>, n: nat)
    requires Whole(was, now, ids) && n <= |now| && n <= |ids|
    ensures now[..n] == ids[..n]
  {
    hide Whole;
    if n > 0 {
      var i := n - 1;
      WholePrefix(was, now, ids, i);
      if ids[i] !in was {
        NewIsDue(was, now, ids, i);
      }
      if now[i] !in was {
        NewComesNext(was, now, ids, i);
      } else {
        NextIsOld(was, now, ids, i);
      }
      assert now[..n] == now[..i] + [now[i]] && ids[..n] == ids[..i] + [ids[i]];
    }
  }

  lemma PrefixIsAll(s: seq<string>, t: seq<string>)
    requires Distinct(s) && t <= s && forall x :: x in s ==> x in t
    ensures s == t
  {
    hide Distinct;
    if |t| < |s| {
      assert s[|t|] in s && s[|t|] in t;
      var i :| 0 <= i < |t| && t[i] == s[|t|];
      assert t[i] == s[i];
      OncePlaced(s, i, |t|);
    }
  }

  /** Splicing all of a list into what it shares with an order that agrees with it gives the list back. */
  lemma SplicedIsWhole(was: seq<string>, now: seq<string>, ids: seq<string>)
    requires Whole(was, now, ids)
    ensures now == ids
  {
    hide Only, PlacedAt;
    var n := if |now| < |ids| then |now| else |ids|;
    WholePrefix(was, now, ids, n);
    if |ids| <= |now| {
      PrefixIsAll(now, ids);
    } else {
      PrefixIsAll(ids, now);
    }
  }

  lemma {:induction false} OnlyBefore(s: seq<string>, keep: set<string>, x: string, y: string)
    requires Before(Only(s, keep), x, y)
    ensures Before(s, x, y)
    decreases |s|
  {
    hide Before;
    if s != [] {
      var head, rest := if s[0] in keep then [s[0]] else [], Only(s[1..], keep);
      BeforeFirst(head, rest, x, y);
      if Before(rest, x, y) {
        OnlyBefore(s[1..], keep, x, y);
        BeforeLater(s, x, y);
      } else {
        BeforeHead(s, y);
      }
    } else {
    }
  }

  lemma BeforeLater(s: seq<string>, x: string, y: string)
    requires s != [] && Before(s[1..], x, y)
    ensures Before(s, x, y)
  {
    var i, j :| 0 <= i < j < |s[1..]| && s[1..][i] == x && s[1..][j] == y;
    assert s[i + 1] == x && s[j + 1] == y;
  }

  lemma BeforeHead(s: seq<string>, y: string)
    requires s != [] && y in s[1..]
    ensures Before(s, s[0], y)
  {
    var j :| 0 <= j < |s[1..]| && s[1..][j] == y;
    assert s[j + 1] == y;
  }

  lemma BeforeFirst(head: seq<string>, rest: seq<string>, x: string, y: string)
    requires |head| <= 1 && Before(head + rest, x, y)
    ensures Before(rest, x, y) || (head == [x] && y in rest)
  {
    var s := head + rest;
    var i, j :| 0 <= i < j < |s| && s[i] == x && s[j] == y;
    var k := |head|;
    if k <= i {
      assert rest[i - k] == x && rest[j - k] == y;
    } else {
      assert y == rest[j - k];
    }
  }

  lemma ByIndex(s: seq<string>, x: string, y: string)
    requires Distinct(s)
    ensures Before(s, x, y) <==> x in s && y in s && IndexOf(s, x) < IndexOf(s, y)
    ensures Adjacent(s, x, y) ==> x in s && y in s && IndexOf(s, y) == IndexOf(s, x) + 1
  {
  }

  /** Two members that both stay keep the order they had. */
  lemma OnlyKeepsOrder(s: seq<string>, keep: set<string>, x: string, y: string)
    requires Distinct(s) && x in s && y in s && x in keep && y in keep
    ensures Before(Only(s, keep), x, y) <==> Before(s, x, y)
  {
    hide Only, Distinct, Before;
    OnlyDistinct(s, keep);
    ByIndex(Only(s, keep), x, y);
    ByIndex(Only(s, keep), y, x);
    ByIndex(s, x, y);
    ByIndex(s, y, x);
    if Before(Only(s, keep), x, y) {
      OnlyBefore(s, keep, x, y);
    }
    if Before(Only(s, keep), y, x) {
      OnlyBefore(s, keep, y, x);
    }
  }

  /** Where the run of kept additions that leads up to the `i`th identifier begins. */
  function RunStart(was: seq<string>, ids: seq<string>, kept: set<string>, i: nat): (s: nat)
    requires i < |ids|
    ensures s <= i
  {
    if i > 0 && ids[i - 1] in kept && ids[i - 1] !in was then RunStart(was, ids, kept, i - 1) else i
  }

  /** What that run stands behind: a surviving identifier that was there already, or nothing. */
  function Behind(was: seq<string>, ids: seq<string>, kept: set<string>, i: nat): Option<string>
    requires i < |ids|
  {
    var s := RunStart(was, ids, kept, i);
    if s > 0 && ids[s - 1] in kept then Some(ids[s - 1]) else None
  }

  /** A run of additions stands together, in its own order, right behind that identifier or ahead of everything. */
  ghost predicate Stands(was: seq<string>, now: seq<string>, ids: seq<string>, kept: set<string>, i: nat)
    requires i < |ids|
  {
    var s := RunStart(was, ids, kept, i);
    && (forall k :: s <= k <= i ==> ids[k] in kept && ids[k] !in was && ids[k] in now)
    && (forall k :: s <= k <= i ==> IndexOf(now, ids[k]) == IndexOf(now, ids[s]) + (k - s))
    && match Behind(was, ids, kept, i)
       case Some(a) => a in was && a in now && IndexOf(now, ids[s]) == IndexOf(now, a) + 1
       case None => forall y :: y in was || (y in ids[..s] && y in kept) ==>
         y in now && IndexOf(now, ids[s]) < IndexOf(now, y)
  }

  lemma {:induction false} RunStands(was: seq<string>, now: seq<string>, ids: seq<string>, kept: set<string>, i: nat)
    requires Spliced(was, now, ids, kept) && Distinct(ids) && i < |ids| && ids[i] in kept && ids[i] !in was
    ensures Stands(was, now, ids, kept, i)
    decreases i
  {
    hide Adjacent, Before, Only, IndexOf, Stands;
    assert PlacedAt(was, now, ids, kept, i);
    if i > 0 && ids[i - 1] in kept {
      ByIndex(now, ids[i - 1], ids[i]);
      if ids[i - 1] !in was {
        RunStands(was, now, ids, kept, i - 1);
        RunGoesOn(was, now, ids, kept, i);
      } else {
        RunBegins(was, now, ids, kept, i);
      }
    } else {
      forall y | y in was || (y in ids[..i] && y in kept)
        ensures y in now && IndexOf(now, ids[i]) < IndexOf(now, y)
      {
        ByIndex(now, ids[i], y);
      }
      RunBegins(was, now, ids, kept, i);
    }
  }

  lemma RunGoesOn(was: seq<string>, now: seq<string>, ids: seq<string>, kept: set<string>, i: nat)
    requires 0 < i < |ids| && Stands(was, now, ids, kept, i - 1) && ids[i - 1] in kept && ids[i - 1] !in was
    requires ids[i] in kept && ids[i] !in was && ids[i] in now && IndexOf(now, ids[i]) == IndexOf(now, ids[i - 1]) + 1
    ensures Stands(was, now, ids, kept, i)
  {
    hide IndexOf;
    assert RunStart(was, ids, kept, i) == RunStart(was, ids, kept, i - 1);
  }

  lemma RunBegins(was: seq<string>, now: seq<string>, ids: seq<string>, kept: set<string>, i: nat)
    requires i < |ids| && ids[i] in kept && ids[i] !in was && ids[i] in now
    requires if i > 0 && ids[i - 1] in kept
             then ids[i - 1] in was && ids[i - 1] in now && IndexOf(now, ids[i]) == IndexOf(now, ids[i - 1]) + 1
             else forall y :: y in was || (y in ids[..i] && y in kept) ==>
               y in now && IndexOf(now, ids[i]) < IndexOf(now, y)
    ensures Stands(was, now, ids, kept, i)
  {
    hide IndexOf;
  }

  /** What is not in a run and stands after its beginning stands after all of it. */
  lemma RunAhead(was: seq<string>, now: seq<string>, ids: seq<string>, kept: set<string>, i: nat, y: string)
    requires i < |ids| && Stands(was, now, ids, kept, i) && y in now
    requires forall k :: RunStart(was, ids, kept, i) <= k <= i ==> ids[k] != y
    ensures var s := RunStart(was, ids, kept, i);
            && IndexOf(now, ids[i]) == IndexOf(now, ids[s]) + (i - s)
            && (IndexOf(now, ids[s]) <= IndexOf(now, y) ==> IndexOf(now, ids[i]) < IndexOf(now, y))
  {
    hide IndexOf;
    var s := RunStart(was, ids, kept, i);
    var gap := IndexOf(now, y) - IndexOf(now, ids[s]);
    if 0 <= gap <= i - s {
      SamePlace(now, y, ids[s + gap]);
    }
  }

  /** An addition comes after something that was there exactly when its run stands behind that, or behind something
    later. */
  lemma OldBeforeNewIff(was: seq<string>, now: seq<string>, ids: seq<string>, kept: set<string>, i: nat, y: string)
    requires Spliced(was, now, ids, kept) && Distinct(ids) && Distinct(was)
    requires i < |ids| && ids[i] in kept && ids[i] !in was && y in was
    ensures Before(now, y, ids[i]) <==>
      var a := Behind(was, ids, kept, i); a.Some? && (y == a.value || Before(was, y, a.value))
  {
    hide Adjacent, Before, Only, IndexOf, PlacedAt, Behind, RunStart, Distinct;
    RunStands(was, now, ids, kept, i);
    ByIndex(now, y, ids[i]);
    RunAhead(was, now, ids, kept, i, y);
    var a := Behind(was, ids, kept, i);
    if a.Some? {
      OnlyKeepsOrder(now, Members(was), y, a.value);
      ByIndex(now, y, a.value);
      if IndexOf(now, y) == IndexOf(now, a.value) {
        SamePlace(now, y, a.value);
      }
    }
  }

  lemma SamePlace(s: seq<string>, x: string, y: string)
    requires x in s && y in s && IndexOf(s, x) == IndexOf(s, y)
    ensures x == y
  {
  }

  /** Of two additions the one whose run stands further ahead comes first; one run goes in its own order, and of the
    runs ahead of everything the last one spliced in is the first. */
  ghost predicate RunsBefore(was: seq<string>, ids: seq<string>, kept: set<string>, m: nat, j: nat)
    requires m < |ids| && j < |ids|
  {
    var s, t := RunStart(was, ids, kept, m), RunStart(was, ids, kept, j);
    var a, b := Behind(was, ids, kept, m), Behind(was, ids, kept, j);
    if s == t then m < j
    else if a.None? then b.Some? || s > t
    else b.Some? && Before(was, a.value, b.value)
  }

  lemma OtherRunBefore(was: seq<string>, ids: seq<string>, kept: set<string>, m: nat, j: nat)
    requires Distinct(ids) && Distinct(was) && m < |ids| && j < |ids|
    requires RunStart(was, ids, kept, m) != RunStart(was, ids, kept, j) && !RunsBefore(was, ids, kept, m, j)
    requires Behind(was, ids, kept, m).Some? ==> Behind(was, ids, kept, m).value in was
    requires Behind(was, ids, kept, j).Some? ==> Behind(was, ids, kept, j).value in was
    ensures RunsBefore(was, ids, kept, j, m)
  {
    hide Before, IndexOf, RunStart;
    var a, b := Behind(was, ids, kept, m), Behind(was, ids, kept, j);
    if a.Some? && b.Some? {
      ByIndex(was, a.value, b.value);
      ByIndex(was, b.value, a.value);
      if IndexOf(was, a.value) == IndexOf(was, b.value) {
        SamePlace(was, a.value, b.value);
      }
    }
  }

  lemma RunComesFirst(was: seq<string>, now: seq<string>, ids: seq<string>, kept: set<string>, m: nat, j: nat)
    requires Spliced(was, now, ids, kept) && Distinct(ids) && Distinct(was) && m < |ids| && j < |ids|
    requires Stands(was, now, ids, kept, m) && Stands(was, now, ids, kept, j)
    requires RunStart(was, ids, kept, m) != RunStart(was, ids, kept, j) && RunsBefore(was, ids, kept, m, j)
    ensures IndexOf(now, ids[m]) < IndexOf(now, ids[j])
  {
    hide Adjacent, Before, Only, IndexOf, PlacedAt, Behind, RunStart;
    var s, t := RunStart(was, ids, kept, m), RunStart(was, ids, kept, j);
    var a, b := Behind(was, ids, kept, m), Behind(was, ids, kept, j);
    if b.Some? {
      RunAhead(was, now, ids, kept, m, b.value);
      if a.Some? {
        OnlyKeepsOrder(now, Members(was), a.value, b.value);
        ByIndex(now, a.value, b.value);
      }
    } else {
      assert ids[t] in ids[..s];
      RunAhead(was, now, ids, kept, m, ids[t]);
    }
  }

  lemma NewBeforeNewIff(was: seq<string>, now: seq<string>, ids: seq<string>, kept: set<string>, m: nat, j: nat)
    requires Spliced(was, now, ids, kept) && Distinct(ids) && Distinct(was) && m < |ids| && j < |ids|
    requires ids[m] in kept && ids[m] !in was && ids[j] in kept && ids[j] !in was
    ensures Before(now, ids[m], ids[j]) <==> RunsBefore(was, ids, kept, m, j)
  {
    hide Adjacent, Before, Only, IndexOf, PlacedAt, Behind, RunStart, Distinct;
    RunStands(was, now, ids, kept, m);
    RunStands(was, now, ids, kept, j);
    ByIndex(now, ids[m], ids[j]);
    if RunStart(was, ids, kept, m) != RunStart(was, ids, kept, j) {
      if RunsBefore(was, ids, kept, m, j) {
        RunComesFirst(was, now, ids, kept, m, j);
      } else {
        OtherRunBefore(was, ids, kept, m, j);
        RunComesFirst(was, now, ids, kept, j, m);
      }
    }
  }
}
