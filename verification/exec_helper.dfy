/**
 * The `fixture` test helper (test/helpers/exec.js): while AVA runs it
 * collects every `test-passed` status into `stats.passed`, recording the
 * title and the test file relative to the fixture directory, and when the
 * run settles it sorts the entries by file, then title.
 */
module ExecHelper {
  import opened Values

  // ---------------------------------------------------------------------------
  // Strings compared with `<`
  // ---------------------------------------------------------------------------

  /** `a < b` on strings: lexicographic, a proper prefix first. */
  predicate LexLess(a: string, b: string)
  {
    if a == [] then b != []
    else if b == [] then false
    else if a[0] != b[0] then a[0] < b[0]
    else LexLess(a[1..], b[1..])
  }

  lemma {:induction false} LexIrreflexive(a: string)
    ensures !LexLess(a, a)
  {
    if a != [] {
      LexIrreflexive(a[1..]);
    }
  }

  /** Exactly one of `a < b`, `a == b`, `b < a` holds. */
  lemma {:induction false} LexTrichotomy(a: string, b: string)
    ensures LexLess(a, b) || a == b || LexLess(b, a)
    ensures !(LexLess(a, b) && LexLess(b, a))
    ensures LexLess(a, b) ==> a != b
  {
    if a != [] && b != [] {
      LexTrichotomy(a[1..], b[1..]);
      if a[0] == b[0] && a[1..] == b[1..] {
        assert a == [a[0]] + a[1..] && b == [b[0]] + b[1..];
      }
    }
    if LexLess(a, b) && a == b {
      LexIrreflexive(a);
    }
  }

  lemma {:induction false} LexTransitive(a: string, b: string, c: string)
    requires LexLess(a, b) && LexLess(b, c)
    ensures LexLess(a, c)
  {
    if a != [] && b != [] && c != [] && a[0] == b[0] && b[0] == c[0] {
      LexTransitive(a[1..], b[1..], c[1..]);
    }
  }

  // ---------------------------------------------------------------------------
  // `path.posix.relative` on normalized absolute paths
  // ---------------------------------------------------------------------------

  /** A normalized absolute path, as its segments: `/a/b` is `["a", "b"]`. */
  type Path = seq<string>

  /** No segment of a normalized path is `..`. */
  predicate Normalized(p: Path)
  {
    forall k :: 0 <= k < |p| ==> p[k] != ".."
  }

  /** `n` segments `..`. */
  function Ups(n: nat): (r: Path)
    ensures |r| == n && forall k :: 0 <= k < n ==> r[k] == ".."
  {
    if n == 0 then [] else Ups(n - 1) + [".."]
  }

  /** `path.posix.relative(from, to)`: drop the common leading segments, climb out of the rest of `from`, then descend into the rest of `to`. */
  function Relative(from: Path, to: Path): Path
    decreases |from|
  {
    if from != [] && to != [] && from[0] == to[0] then Relative(from[1..], to[1..])
    else Ups(|from|) + to
  }

  /** Resolving a relative path segment by segment: `..` leaves a directory (never above the root), anything else enters one. */
  function Resolve(base: Path, rel: Path): Path
    decreases |rel|
  {
    if rel == [] then base
    else if rel[0] == ".." then Resolve(if base == [] then [] else base[..|base| - 1], rel[1..])
    else Resolve(base + [rel[0]], rel[1..])
  }

  /** The segments joined with `/`; the empty relative path is `''`. */
  function Join(p: Path): string
  {
    if p == [] then ""
    else if |p| == 1 then p[0]
    else Join(p[..|p| - 1]) + "/" + p[|p| - 1]
  }

  lemma {:induction false} ResolvePlain(base: Path, t: Path)
    requires Normalized(t)
    ensures Resolve(base, t) == base + t
    decreases |t|
  {
    if t != [] {
      assert forall k :: 0 <= k < |t[1..]| ==> t[1..][k] == t[k + 1];
      ResolvePlain(base + [t[0]], t[1..]);
      assert base + [t[0]] + t[1..] == base + t;
    }
  }

  lemma {:induction false} ResolveUps(base: Path, k: nat, t: Path)
    requires k <= |base|
    ensures Resolve(base, Ups(k) + t) == Resolve(base[..|base| - k], t)
    decreases k
  {
    if k > 0 {
      var rest := Ups(k - 1) + t;
      assert Ups(k) + t == [".."] + rest;
      assert (Ups(k) + t)[1..] == rest;
      ResolveUps(base[..|base| - 1], k - 1, t);
      assert base[..|base| - 1][..|base| - 1 - (k - 1)] == base[..|base| - k];
    } else {
      assert Ups(k) + t == t && base[..|base| - k] == base;
    }
  }

  /**
   * The relative path leads back: resolving `Relative(from, to)` against
   * `from` gives `to`, under any common ancestor `prefix`.
   */
  lemma {:induction false} RelativeResolves(prefix: Path, from: Path, to: Path)
    requires Normalized(to)
    ensures Resolve(prefix + from, Relative(from, to)) == prefix + to
    decreases |from|
  {
    if from != [] && to != [] && from[0] == to[0] {
      assert Normalized(to[1..]) by {
        assert forall k :: 0 <= k < |to[1..]| ==> to[1..][k] == to[k + 1];
      }
      RelativeResolves(prefix + [from[0]], from[1..], to[1..]);
      assert prefix + [from[0]] + from[1..] == prefix + from;
      assert prefix + [to[0]] + to[1..] == prefix + to;
    } else {
      ResolveUps(prefix + from, |from|, to);
      assert (prefix + from)[..|prefix + from| - |from|] == prefix;
      ResolvePlain(prefix, to);
    }
  }

  // ---------------------------------------------------------------------------
  // Collecting passed tests
  // ---------------------------------------------------------------------------

  /** A deserialized run-status message: `test-passed` with its title and test file, or another type. */
  datatype Status = TestPassed(title: string, testFile: Path) | OtherStatus(typeName: string)

  /** One element of `stats.passed`. */
  datatype Entry = Entry(title: string, file: string)

  predicate IsPassed(m: Status)
  {
    m.TestPassed?
  }

  /** The entry a `test-passed` message adds: its title, and its file relative to `cwd`. */
  function EntryOf(cwd: Path, m: Status): Entry
    requires m.TestPassed?
  {
    Entry(m.title, Join(Relative(cwd, m.testFile)))
  }

  /** The entries of every `test-passed` message, in arrival order. */
  function Passed(cwd: Path, msgs: seq<Status>): seq<Entry>
  {
    var passed := Filter(IsPassed, msgs);
    assert forall k :: 0 <= k < |passed| ==> passed[k] in passed;
    seq(|passed|, k requires 0 <= k < |passed| => EntryOf(cwd, passed[k]))
  }

  /** One more message adds its entry if it is `test-passed` and nothing otherwise. */
  lemma PassedSnoc(cwd: Path, msgs: seq<Status>, m: Status)
    ensures Passed(cwd, msgs + [m]) == Passed(cwd, msgs) + (if m.TestPassed? then [EntryOf(cwd, m)] else [])
  {
    FilterSnoc(IsPassed, msgs, m);
  }

  /** Every `test-passed` message contributes its entry. */
  lemma PassedHas(cwd: Path, msgs: seq<Status>, m: Status)
    requires m in msgs && m.TestPassed?
    ensures EntryOf(cwd, m) in Passed(cwd, msgs)
  {
    FilterKeeps(IsPassed, msgs, m);
    var passed := Filter(IsPassed, msgs);
    var k :| 0 <= k < |passed| && passed[k] == m;
    assert Passed(cwd, msgs)[k] == EntryOf(cwd, m);
  }

  /** Every entry comes from a `test-passed` message: no other status adds one. */
  lemma PassedOnlyFrom(cwd: Path, msgs: seq<Status>, e: Entry)
    requires e in Passed(cwd, msgs)
    ensures exists m :: m in msgs && m.TestPassed? && e == EntryOf(cwd, m)
  {
    var passed := Filter(IsPassed, msgs);
    var k :| 0 <= k < |Passed(cwd, msgs)| && Passed(cwd, msgs)[k] == e;
    assert passed[k] in passed;
  }

  /** As many entries as `test-passed` messages. */
  lemma PassedCount(cwd: Path, msgs: seq<Status>)
    ensures |Passed(cwd, msgs)| == |Filter(IsPassed, msgs)|
  {
  }

  // ---------------------------------------------------------------------------
  // The sort comparator
  // ---------------------------------------------------------------------------

  /** `a` sorts before `b`: by file, then by title. */
  predicate Before(a: Entry, b: Entry)
  {
    LexLess(a.file, b.file) || (a.file == b.file && LexLess(a.title, b.title))
  }

  /** The comparator given to `sort`: never 0, and -1 exactly when `a` sorts before `b`. */
  function Compare(a: Entry, b: Entry): (r: int)
    ensures r == -1 || r == 1
    ensures r == -1 <==> Before(a, b)
  {
    LexTrichotomy(a.file, b.file);
    if LexLess(a.file, b.file) then -1
    else if LexLess(b.file, a.file) then 1
    else if LexLess(a.title, b.title) then -1
    else 1
  }

  /** Two entries equal in file and title compare as 1 both ways. */
  lemma EqualEntriesCompareOne(a: Entry)
    ensures Compare(a, a) == 1
  {
    LexIrreflexive(a.file);
    LexIrreflexive(a.title);
  }

  /** `Before` is a strict total order on entries. */
  lemma BeforeTotal(a: Entry, b: Entry)
    ensures !Before(a, a)
    ensures Before(a, b) || a == b || Before(b, a)
    ensures !(Before(a, b) && Before(b, a))
  {
    LexIrreflexive(a.file);
    LexIrreflexive(a.title);
    LexTrichotomy(a.file, b.file);
    LexTrichotomy(a.title, b.title);
  }

  lemma BeforeTransitive(a: Entry, b: Entry, c: Entry)
    requires Before(a, b) && Before(b, c)
    ensures Before(a, c)
  {
    if LexLess(a.file, b.file) && LexLess(b.file, c.file) {
      LexTransitive(a.file, b.file, c.file);
    } else if a.file == b.file && b.file == c.file {
      LexTransitive(a.title, b.title, c.title);
    }
  }

  /** Ordered by file, then title: no entry sorts before an earlier one. */
  ghost predicate Sorted(s: seq<Entry>)
  {
    forall i, j :: 0 <= i < j < |s| ==> !Before(s[j], s[i])
  }

  /** In a sorted sequence nothing after the head sorts before it. */
  lemma HeadFirst(s: seq<Entry>)
    requires Sorted(s) && s != []
    ensures forall x :: x in s[1..] ==> !Before(x, s[0])
  {
    forall x | x in s[1..]
      ensures !Before(x, s[0])
    {
      var k :| 0 <= k < |s[1..]| && s[1..][k] == x;
      assert s[k + 1] == x;
    }
  }

  /** An entry that nothing in a sorted sequence sorts before can go in front of it. */
  lemma PrependSorted(e: Entry, s: seq<Entry>)
    requires Sorted(s)
    requires forall x :: x in s ==> !Before(x, e)
    ensures Sorted([e] + s)
  {
    forall i, j | 0 <= i < j < |s| + 1
      ensures !Before(([e] + s)[j], ([e] + s)[i])
    {
      assert ([e] + s)[j] == s[j - 1];
      if i > 0 {
        assert ([e] + s)[i] == s[i - 1];
      }
    }
  }

  /** Inserting `e` into a sorted sequence keeps it sorted and adds exactly `e`. */
  function Insert(s: seq<Entry>, e: Entry): (r: seq<Entry>)
    requires Sorted(s)
    ensures Sorted(r) && multiset(r) == multiset(s) + multiset{e}
  {
    if s == [] then [e]
    else if Before(e, s[0]) then
      HeadFirst(s);
      forall x | x in s
        ensures !Before(x, e)
      {
        BeforeTotal(e, x);
        if x != s[0] && Before(x, e) {
          BeforeTransitive(x, e, s[0]);
        }
      }
      PrependSorted(e, s);
      [e] + s
    else
      var rest := Insert(s[1..], e);
      assert s == [s[0]] + s[1..];
      HeadFirst(s);
      forall x | x in rest
        ensures !Before(x, s[0])
      {
        assert x in multiset(rest);
      }
      PrependSorted(s[0], rest);
      [s[0]] + rest
  }

  /** The collected stats, and the `passed` array the handler pushes onto. */
  class Stats {
    var passed: seq<Entry>

    constructor ()
      ensures passed == []
    {
      passed := [];
    }

    /** The `message` handler: a `test-passed` status appends its entry; every other type is ignored. */
    method OnMessage(cwd: Path, m: Status)
      modifies this`passed
      ensures passed == old(passed) + (if m.TestPassed? then [EntryOf(cwd, m)] else [])
    {
      if m.TestPassed? {
        passed := passed + [Entry(m.title, Join(Relative(cwd, m.testFile)))];
      }
    }

    /**
     * The handler over a whole run: every message the test worker emits, in
     * order, appends exactly the entries of its `test-passed` messages.
     */
    method Collect(cwd: Path, msgs: seq<Status>)
      modifies this`passed
      ensures passed == old(passed) + Passed(cwd, msgs)
    {
      var i := 0;
      while i < |msgs|
        invariant 0 <= i <= |msgs|
        invariant passed == old(passed) + Passed(cwd, msgs[..i])
      {
        assert msgs[..i + 1] == msgs[..i] + [msgs[i]];
        PassedSnoc(cwd, msgs[..i], msgs[i]);
        OnMessage(cwd, msgs[i]);
        i := i + 1;
      }
      assert msgs[..i] == msgs;
    }

    /** The `finally` block: `stats.passed.sort(compare)`, in place. */
    method SortPassed()
      modifies this`passed
      ensures Sorted(passed)
      ensures multiset(passed) == multiset(old(passed))
    {
      var sorted: seq<Entry> := [];
      var i := 0;
      while i < |passed|
        invariant 0 <= i <= |passed|
        invariant Sorted(sorted)
        invariant multiset(sorted) == multiset(passed[..i])
      {
        assert passed[..i + 1] == passed[..i] + [passed[i]];
        sorted := Insert(sorted, passed[i]);
        i := i + 1;
      }
      assert passed[..i] == passed;
      passed := sorted;
    }
  }

  /** How `fixture` settles: it returns `{stats, ...result}` or throws the error with `stats` attached. */
  datatype Settled = Returned(stats: Stats) | Threw(stats: Stats)

  /**
   * The end of `fixture` once the run settles: both paths hand out the same
   * `stats` object, and by the time the caller sees it `passed` is sorted.
   */
  method Settle(stats: Stats, succeeded: bool) returns (r: Settled)
    modifies stats`passed
    ensures r.Returned? <==> succeeded
    ensures r.stats == stats
    ensures Sorted(stats.passed) && multiset(stats.passed) == multiset(old(stats.passed))
  {
    if succeeded {
      r := Returned(stats);
    } else {
      r := Threw(stats);
    }
    stats.SortPassed();
  }
}
