/** Names of conflict copies. */
module ConflictNames {
  import opened Snapshots

  function LastIndexOf(s: string, c: char): (i: int)
    ensures -1 <= i < |s| && (i >= 0 ==> s[i] == c)
    ensures forall k :: i < k < |s| ==> s[k] != c
  {
    if s == "" then -1 else if s[|s| - 1] == c then |s| - 1 else LastIndexOf(s[..|s| - 1], c)
  }

  /** The directory, the name and the extension of a path; a dotfile has no extension. */
  function SplitPathname(p: Path): (string, string, string) {
    var slash := LastIndexOf(p, '/');
    var dir, file := if slash < 0 then "" else p[..slash], p[slash + 1..];
    var dot := LastIndexOf(file, '.');
    if dot < 0 || dot == 0 then (dir, file, "") else (dir, file[..dot], file[dot + 1..])
  }

  function Decimal(n: nat): (s: string)
    ensures s != ""
  {
    if n < 10 then ["0123456789"[n]] else Decimal(n / 10) + ["0123456789"[n % 10]]
  }

  lemma {:induction false} DecimalInjective(n: nat, m: nat)
    requires Decimal(n) == Decimal(m)
    ensures n == m
    decreases n
  {
    var s, t := Decimal(n), Decimal(m);
    assert s[|s| - 1] == "0123456789"[n % 10] && t[|t| - 1] == "0123456789"[m % 10];
    if n >= 10 && m >= 10 {
      assert s[..|s| - 1] == Decimal(n / 10) && t[..|t| - 1] == Decimal(m / 10);
      DecimalInjective(n / 10, m / 10);
    }
  }

  function Suffix(n: nat): string {
    if n < 2 then "" else "-" + Decimal(n)
  }

  /** The `n`th name tried for a copy of `p` at a version; the first has no number. */
  function CopyName(p: Path, h: Hash, n: nat): Path {
    var (dir, name, ext) := SplitPathname(p);
    var stem := "conflict-" + (if |h| < 8 then h else h[..8]) + "-" + name;
    (if dir == "" then "" else dir + "/") + stem + Suffix(n) + (if ext == "" then "" else "." + ext)
  }

  lemma LastAt(s: string, c: char, n: nat)
    requires n < |s| && s[n] == c && forall k :: n < k < |s| ==> s[k] != c
    ensures LastIndexOf(s, c) == n
  {
    hide LastIndexOf;
  }

  /** The last slash of a path stands right before `from`, if it has one, and the last dot of its name at `dot`, where
    the name has more in front of it. */
  ghost predicate PartsAt(p: Path, from: nat, dot: nat) {
    && from < dot < |p| && p[dot] == '.' && (forall k :: dot < k < |p| ==> p[k] != '.')
    && (forall k :: from <= k < |p| ==> p[k] != '/') && (from > 0 ==> from > 1 && p[from - 1] == '/')
  }

  lemma PartsOf(p: Path, from: nat, dot: nat)
    requires PartsAt(p, from, dot)
    ensures SplitPathname(p) == (if from == 0 then "" else p[..from - 1], p[from..dot], p[dot + 1..])
  {
    hide LastIndexOf;
    var file := p[from..];
    if from > 0 {
      LastAt(p, '/', from - 1);
    } else {
      assert LastIndexOf(p, '/') == -1;
    }
    LastAt(file, '.', dot - from);
    assert file[..dot - from] == p[from..dot] && file[dot - from + 1..] == p[dot + 1..];
  }

  /** A copy stands in the directory of its file, under the file's name with the version in front, and keeps the
    extension: `a/b.md` becomes `a/conflict-<version>-b.md`, or `a/conflict-<version>-b-<n>.md`. */
  lemma CopyIsBeside(p: Path, from: nat, dot: nat, h: Hash, n: nat)
    requires PartsAt(p, from, dot) && |h| >= 8 && dot + 1 < |p|
    ensures CopyName(p, h, n) == (if from == 0 then "" else p[..from - 1] + "/")
      + ("conflict-" + h[..8] + "-" + p[from..dot]) + (if n < 2 then "" else "-" + Decimal(n)) + ("." + p[dot + 1..])
  {
    hide SplitPathname, Decimal;
    PartsOf(p, from, dot);
    assert from > 0 ==> |p[..from - 1]| > 0;
  }

  lemma CopyNamesDiffer(p: Path, h: Hash, n: nat, m: nat)
    requires 1 <= n < m
    ensures CopyName(p, h, n) != CopyName(p, h, m)
  {
    var (dir, name, ext) := SplitPathname(p);
    var a := (if dir == "" then "" else dir + "/") + ("conflict-" + (if |h| < 8 then h else h[..8]) + "-" + name);
    var z := if ext == "" then "" else "." + ext;
    assert CopyName(p, h, n) == a + Suffix(n) + z && CopyName(p, h, m) == a + Suffix(m) + z;
    if CopyName(p, h, n) == CopyName(p, h, m) {
      Cancel(a, Suffix(n), Suffix(m), z);
      if n >= 2 {
        assert Suffix(n)[1..] == Decimal(n) && Suffix(m)[1..] == Decimal(m);
        DecimalInjective(n, m);
      }
    }
  }

  /** A copy is never at the path it is a copy of. */
  lemma CopyIsElsewhere(p: Path, h: Hash)
    ensures forall n: nat :: CopyName(p, h, n) != p
  {
    forall n: nat
      ensures |CopyName(p, h, n)| > |p|
    {
      var (dir, name, ext) := SplitPathname(p);
      assert |dir| + |name| + |ext| + 2 >= |p|;
    }
  }

  lemma Cancel(a: string, s: string, t: string, z: string)
    requires a + s + z == a + t + z
    ensures s == t
  {
    assert |s| == |t|;
    assert (a + s + z)[|a|..|a| + |s|] == s && (a + t + z)[|a|..|a| + |t|] == t;
  }

  function NamesBelow(p: Path, h: Hash, n: nat): set<Path> {
    if n <= 1 then {} else NamesBelow(p, h, n - 1) + {CopyName(p, h, n - 1)}
  }

  /** As many names as numbers, so a finite tree always leaves one free. */
  lemma {:induction false} NamesAreMany(p: Path, h: Hash, n: nat)
    requires 1 <= n
    ensures |NamesBelow(p, h, n)| == n - 1
    ensures forall q :: q in NamesBelow(p, h, n) ==> exists k: nat :: 1 <= k < n && q == CopyName(p, h, k)
    decreases n
  {
    if n > 1 {
      NamesAreMany(p, h, n - 1);
      if CopyName(p, h, n - 1) in NamesBelow(p, h, n - 1) {
        var k: nat :| 1 <= k < n - 1 && CopyName(p, h, n - 1) == CopyName(p, h, k);
        CopyNamesDiffer(p, h, k, n - 1);
      }
    }
  }

  lemma SubsetSize<T>(small: set<T>, big: set<T>)
    requires small <= big
    ensures |small| <= |big|
  {
    if small != {} {
      var x :| x in small;
      SubsetSize(small - {x}, big - {x});
    }
  }
}
