/** Reading a file to hash it takes time: what other writers may do between the stat, the read and the note. */
module CheckoutRaces {
  import opened Snapshots
  import opened Checkout

  /** How far one call that hashes a file has come; `at` is when it took the stat. */
  datatype Reader =
    | Idle
    | Statted(path: Path, size: nat, mtime: int, at: int)
    | Digested(path: Path, size: nat, mtime: int, at: int, hash: Hash)

  /** An entry, and when the call that noted it took its stat. */
  datatype Noted = Noted(entry: CheckoutEntry, at: int)

  datatype State = State(tree: map<Path, File>, entries: map<Path, Noted>, readers: map<nat, Reader>, clock: int)

  datatype Action =
    | Write(path: Path, file: File)
    | Delete(path: Path)
    | Forget(path: Path)
    | Wait(until: int)
    | Stat(path: Path)
    | Digest
    | Note

  predicate StatMatches(e: CheckoutEntry, tree: map<Path, File>, p: Path) {
    p in tree && e.size == tree[p].size && e.mtime == tree[p].mtime
  }

  ghost predicate Act(s: State, s': State, r: nat, act: Action) {
    match act
    case Write(p, file) => StampedAt(file.mtime, s.clock) && s' == s.(tree := s.tree[p := file])
    case Delete(p) => s' == s.(tree := s.tree - {p})
    case Forget(p) => s' == s.(entries := s.entries - {p})
    case Wait(until) => s.clock <= until && s' == s.(clock := until)
    case Stat(p) =>
      && r in s.readers && s.readers[r].Idle? && p in s.tree
      && s' == s.(readers := s.readers[r := Statted(p, s.tree[p].size, s.tree[p].mtime, s.clock)])
    case Digest =>
      && r in s.readers && s.readers[r].Statted?
      && var me := s.readers[r];
         s' == s.(readers := s.readers[r := if me.path in s.tree
                                            then Digested(me.path, me.size, me.mtime, me.at, s.tree[me.path].hash)
                                              else Idle])
    case Note =>
      && r in s.readers && s.readers[r].Digested?
      && var me := s.readers[r];
         s' == s.(entries := s.entries[me.path := Noted(CheckoutEntry(me.size, me.mtime, me.hash, s.clock), me.at)],
                  readers := s.readers[r := Idle])
  }

  ghost predicate Moves(s: State, s': State) {
    exists r, act :: Act(s, s', r, act)
  }

  ghost predicate Run(states: seq<State>) {
    && states != [] && states[0].entries == map[] && (forall r :: r in states[0].readers ==> states[0].readers[r].Idle?)
    && forall k, l :: 0 <= k && l == k + 1 && l < |states| ==> Moves(states[k], states[l])
  }

  /** Whether a hash established by a call that took its stat at `at` can be told wrong only by a stat that differs. */
  ghost predicate Agrees(tree: map<Path, File>, p: Path, size: nat, mtime: int, at: int, hash: Hash) {
    p in tree && tree[p].size == size && tree[p].mtime == mtime && mtime + RACY_MS < at ==> tree[p].hash == hash
  }

  ghost predicate Inv(s: State) {
    && (forall p :: p in s.entries ==>
          && s.entries[p].at <= s.clock
          && Agrees(s.tree, p, s.entries[p].entry.size, s.entries[p].entry.mtime, s.entries[p].at,
                    s.entries[p].entry.hash))
    && (forall r :: r in s.readers && s.readers[r].Statted? ==> s.readers[r].at <= s.clock)
    && (forall r :: r in s.readers && s.readers[r].Digested? ==>
          && s.readers[r].at <= s.clock
          && Agrees(s.tree, s.readers[r].path, s.readers[r].size, s.readers[r].mtime, s.readers[r].at,
                    s.readers[r].hash))
  }

  lemma Begins(s: State)
    requires s.entries == map[] && forall r :: r in s.readers ==> s.readers[r].Idle?
    ensures Inv(s)
  {
  }

  lemma {:induction false} RunKeeps(states: seq<State>, k: nat)
    requires Run(states) && k < |states|
    ensures Inv(states[k])
  {
    hide Act, Inv;
    if k == 0 {
      Begins(states[0]);
    } else {
      RunKeeps(states, k - 1);
      assert Moves(states[k - 1], states[k]);
      var r, act :| Act(states[k - 1], states[k], r, act);
      StepKeeps(states[k - 1], states[k], r, act);
    }
  }

  lemma StepKeeps(s: State, s': State, r: nat, act: Action)
    requires Inv(s) && Act(s, s', r, act)
    ensures Inv(s')
  {
  }

  /** In every interleaving: an entry whose stat still matches is right if the file had been quiet for longer than
    `RACY_MS` when the call that noted it took its stat. */
  lemma QuietFilesAreRight(states: seq<State>, k: nat, p: Path)
    requires Run(states) && k < |states| && p in states[k].entries
    requires var e := states[k].entries[p]; StatMatches(e.entry, states[k].tree, p) && e.entry.mtime + RACY_MS < e.at
    ensures states[k].entries[p].entry.hash == states[k].tree[p].hash
  {
    RunKeeps(states, k);
  }

  /** A trusted entry that lies: noted by a call that took its stat at `at` and its note at `checkedAt`. */
  ghost predicate Lies(states: seq<State>, p: Path, size: nat, mtime: int, at: int, checkedAt: int) {
    && Run(states)
    && var s := states[|states| - 1];
       && p in s.entries && p in s.tree && s.entries[p].at == at
       && s.entries[p].entry.size == size && s.entries[p].entry.mtime == mtime
         && s.entries[p].entry.checkedAt == checkedAt
       && Trusted(s.entries[p].entry, s.tree[p]) && s.entries[p].entry.hash != s.tree[p].hash
  }

  /** The check measures how quiet the file was from the note, after the read, and not from the stat, before it. A slow
    read can therefore leave a trusted entry that is wrong, exactly when the file was not yet quiet at the stat. */
  lemma SlowReadsLieIff(p: Path, size: nat, mtime: int, at: int, checkedAt: int)
    requires mtime <= at <= checkedAt && mtime + RACY_MS < checkedAt
    ensures (exists states :: Lies(states, p, size, mtime, at, checkedAt)) <==> at <= mtime + RACY_MS
  {
    if at <= mtime + RACY_MS {
      var states := SlowRead(p, size, mtime, at, checkedAt);
    } else {
      forall states | Lies(states, p, size, mtime, at, checkedAt)
        ensures false
      {
        RunKeeps(states, |states| - 1);
      }
    }
  }

  lemma SlowRead(p: Path, size: nat, mtime: int, at: int, checkedAt: int) returns (states: seq<State>)
    requires mtime <= at <= checkedAt && mtime + RACY_MS < checkedAt && at <= mtime + RACY_MS
    ensures Lies(states, p, size, mtime, at, checkedAt)
  {
    var before, after := File(size, mtime, "before"), File(size, mtime, "after");
    var s0 := State(map[p := before], map[], map[0 := Idle], at);
    var s1 := s0.(readers := map[0 := Statted(p, size, mtime, at)]);
    var s2 := s1.(readers := map[0 := Digested(p, size, mtime, at, "before")]);
    var s3 := s2.(tree := map[p := after]);
    var s4 := s3.(clock := checkedAt);
    var s5 := s4.(entries :=
                  map[p := Noted(CheckoutEntry(size, mtime, "before", checkedAt), at)], readers := map[0 := Idle]);
    states := [s0, s1, s2, s3, s4, s5];
    assert Act(s0, s1, 0, Stat(p));
    assert Act(s1, s2, 0, Digest);
    assert Act(s2, s3, 0, Write(p, after));
    assert Act(s3, s4, 0, Wait(checkedAt));
    assert Act(s4, s5, 0, Note);
    forall k, l | 0 <= k && l == k + 1 && l < |states|
      ensures Moves(states[k], states[l])
    {
      assert k == 0 || k == 1 || k == 2 || k == 3 || k == 4;
    }
  }
}
