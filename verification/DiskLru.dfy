/** The order of a least-recently-used sector list, oldest first, apart from where the bytes live.
    `TouchRun` is the reference: an LRU list that is brought up to date after every single sector.
    The cache itself flushes runs of missed sectors in batches, which is `AddRun`. */
module DiskLru {
  ghost predicate Distinct(l: seq<nat>) {
    forall i, j :: 0 <= i < j < |l| ==> l[i] != l[j]
  }

  ghost predicate NoneListed(l: seq<nat>, first: nat, count: nat) {
    forall s | first <= s < first + count :: s !in l
  }

  ghost predicate AllListed(l: seq<nat>, first: nat, count: nat) {
    forall s | first <= s < first + count :: s in l
  }

  ghost function IndexOf(l: seq<nat>, s: nat): (i: nat)
    requires s in l
    ensures i < |l| && l[i] == s
  {
    var i :| 0 <= i < |l| && l[i] == s;
    i
  }

  function RemoveAt(l: seq<nat>, i: nat): (r: seq<nat>)
    requires i < |l|
  {
    l[..i] + l[i + 1..]
  }

  function Range(first: nat, count: nat): (r: seq<nat>)
    ensures |r| == count
    ensures forall j | 0 <= j < count :: r[j] == first + j
  {
    seq(count, j => first + j)
  }

  /** One missed sector enters a list of at most n: the oldest leaves when the list is full. */
  function Add(l: seq<nat>, n: nat, s: nat): (r: seq<nat>)
    requires 0 < n
  {
    (if |l| < n then l else l[1..]) + [s]
  }

  function AddRun(l: seq<nat>, n: nat, first: nat, count: nat): seq<nat>
    requires 0 < n
  {
    if count == 0 then l else Add(AddRun(l, n, first, count - 1), n, first + count - 1)
  }

  ghost function Touch(l: seq<nat>, n: nat, s: nat): (r: seq<nat>)
    requires 0 < n
  {
    if s in l then RemoveAt(l, IndexOf(l, s)) + [s] else Add(l, n, s)
  }

  ghost function TouchRun(l: seq<nat>, n: nat, first: nat, count: nat): seq<nat>
    requires 0 < n
  {
    if count == 0 then l else Touch(TouchRun(l, n, first, count - 1), n, first + count - 1)
  }

  /** How many entries a run of misses pushes out of the front of the list. */
  function Pushed(len: nat, n: nat, misses: nat): nat {
    if len + misses <= n then 0 else len + misses - n
  }

  /** The guard a caller can evaluate on the list before a range read: with k sectors flushed and i
      sectors scanned, a listed sector must lie beyond the entries that the i - k pending misses
      push out. */
  ghost predicate OutlivesFrom(l: seq<nat>, n: nat, start: nat, k: nat, i: nat, num: nat)
    requires 0 < n && k <= i <= num
    decreases num - i
  {
    var now := TouchRun(l, n, start, k);
    if i == num then true
    else if start + i in now then
      && Pushed(|now|, n, i - k) <= IndexOf(now, start + i)
      && OutlivesFrom(l, n, start, i + 1, i + 1, num)
    else OutlivesFrom(l, n, start, k, i + 1, num)
  }

  ghost predicate Outlives(l: seq<nat>, n: nat, start: nat, num: nat)
    requires 0 < n
  {
    OutlivesFrom(l, n, start, 0, 0, num)
  }

  lemma {:induction false} AddRunShape(l: seq<nat>, n: nat, first: nat, count: nat)
    requires 0 < n && |l| <= n
    ensures AddRun(l, n, first, count) == (l + Range(first, count))[Pushed(|l|, n, count)..]
  {
    if count > 0 {
      AddRunShape(l, n, first, count - 1);
      assert Range(first, count) == Range(first, count - 1) + [first + count - 1];
      var all := l + Range(first, count - 1);
      assert l + Range(first, count) == all + [first + count - 1];
    }
  }

  /** Where the entry at position q is after a run of misses, or that it is gone. */
  lemma AddRunPosition(l: seq<nat>, n: nat, first: nat, count: nat, q: nat)
    requires 0 < n && |l| <= n && Distinct(l) && q < |l|
    requires NoneListed(l, first, count) && !(first <= l[q] < first + count)
    ensures var r, d := AddRun(l, n, first, count), Pushed(|l|, n, count);
            if d <= q then q - d < |r| && r[q - d] == l[q] else l[q] !in r
  {
    AddRunShape(l, n, first, count);
    var all := l + Range(first, count);
    assert forall j | 0 <= j < |all| && j != q :: all[j] != l[q];
  }

  lemma {:induction false} AddRunInvariant(l: seq<nat>, n: nat, first: nat, count: nat)
    requires 0 < n && |l| <= n && Distinct(l) && NoneListed(l, first, count)
    ensures var r := AddRun(l, n, first, count);
            |r| <= n && Distinct(r) && forall s | s in r :: s in l || first <= s < first + count
  {
    AddRunShape(l, n, first, count);
    var all := l + Range(first, count);
    forall i, j | 0 <= i < j < |all|
      ensures all[i] != all[j]
    {
      if j >= |l| {
        assert all[j] == first + (j - |l|) && all[j] !in l;
      }
    }
  }

  lemma MissedStaysMissed(l: seq<nat>, n: nat, first: nat, count: nat, i: nat)
    requires 0 < n && |l| <= n && Distinct(l) && NoneListed(l, first, count) && i < count
    ensures first + i !in AddRun(l, n, first, i)
  {
    AddRunInvariant(l, n, first, i);
    assert first + i !in l;
  }

  lemma AddKeepsDistinct(l: seq<nat>, n: nat, s: nat)
    requires 0 < n && |l| <= n && Distinct(l) && s !in l
    ensures |Add(l, n, s)| <= n && Distinct(Add(l, n, s))
  {
  }

  lemma TouchInvariant(l: seq<nat>, n: nat, s: nat)
    requires 0 < n && |l| <= n && Distinct(l)
    ensures var r := Touch(l, n, s);
            |r| <= n && Distinct(r)
  {
  }

  lemma {:induction false} TouchRunInvariant(l: seq<nat>, n: nat, first: nat, count: nat)
    requires 0 < n && |l| <= n && Distinct(l)
    ensures var r := TouchRun(l, n, first, count);
            |r| <= n && Distinct(r)
  {
    hide Distinct, Touch;
    if count > 0 {
      TouchRunInvariant(l, n, first, count - 1);
      TouchInvariant(TouchRun(l, n, first, count - 1), n, first + count - 1);
    }
  }

  lemma TouchMissed(l: seq<nat>, n: nat, s: nat)
    requires 0 < n && s !in l
    ensures Touch(l, n, s) == Add(l, n, s)
  {
  }

  lemma FewerMissing(l: seq<nat>, first: nat, count: nat)
    requires count > 0 && NoneListed(l, first, count)
    ensures NoneListed(l, first, count - 1)
  {
  }

  /** A run of sectors that are all missing is touched by adding it. */
  lemma {:induction false} TouchRunOfMisses(l: seq<nat>, n: nat, first: nat, count: nat)
    requires 0 < n && |l| <= n && Distinct(l) && NoneListed(l, first, count)
    ensures TouchRun(l, n, first, count) == AddRun(l, n, first, count)
    decreases count
  {
    hide Distinct, NoneListed, Add, Touch, AddRun, TouchRun;
    if count > 0 {
      FewerMissing(l, first, count);
      OneMoreTouched(l, n, first, count);
      MissedStaysMissed(l, n, first, count, count - 1);
      TouchMissed(AddRun(l, n, first, count - 1), n, first + count - 1);
      TouchRunOfMisses(l, n, first, count - 1);
    } else {
      NoneTouched(l, n, first);
    }
  }

  lemma NoneTouched(l: seq<nat>, n: nat, first: nat)
    requires 0 < n
    ensures TouchRun(l, n, first, 0) == l == AddRun(l, n, first, 0)
  {
  }

  lemma OneMoreTouched(l: seq<nat>, n: nat, first: nat, count: nat)
    requires 0 < n && 0 < count
    ensures TouchRun(l, n, first, count) == Touch(TouchRun(l, n, first, count - 1), n, first + count - 1)
    ensures AddRun(l, n, first, count) == Add(AddRun(l, n, first, count - 1), n, first + count - 1)
  {
    hide Touch, Add;
  }

  lemma {:induction false} TouchRunSplit(l: seq<nat>, n: nat, first: nat, k: nat, i: nat)
    requires 0 < n && k <= i
    ensures TouchRun(l, n, first, i) == TouchRun(TouchRun(l, n, first, k), n, first + k, i - k)
    decreases i
  {
    hide Touch;
    if k < i {
      TouchRunSplit(l, n, first, k, i - 1);
    }
  }

  lemma SurvivesRun(l: seq<nat>, n: nat, first: nat, count: nat, s: nat)
    requires 0 < n && |l| <= n && Distinct(l) && NoneListed(l, first, count)
    requires s in l && !(first <= s < first + count)
    ensures Pushed(|l|, n, count) <= IndexOf(l, s) <==> s in AddRun(l, n, first, count)
  {
    AddRunPosition(l, n, first, count, IndexOf(l, s));
  }

  /** The guard, read as a statement about the reference: a listed sector that the batch finds is
      one that the sector-at-a-time LRU list still holds when that sector's turn comes. */
  lemma SurvivesIffStillListed(l: seq<nat>, n: nat, start: nat, k: nat, i: nat)
    requires 0 < n && |l| <= n && Distinct(l) && k <= i
    requires NoneListed(TouchRun(l, n, start, k), start + k, i - k)
    requires start + i in TouchRun(l, n, start, k)
    ensures var now := TouchRun(l, n, start, k);
            Pushed(|now|, n, i - k) <= IndexOf(now, start + i) <==> start + i in TouchRun(l, n, start, i)
  {
    hide Distinct, NoneListed, TouchRun, AddRun;
    var now := TouchRun(l, n, start, k);
    TouchRunInvariant(l, n, start, k);
    TouchRunSplit(l, n, start, k, i);
    TouchRunOfMisses(now, n, start + k, i - k);
    SurvivesRun(now, n, start + k, i - k, start + i);
  }

  /** The list after a range read has flushed k sectors and scanned i, while nothing has gone wrong:
      it is the reference list, and the guard on what is left decides the guard on the whole range. */
  ghost predicate OnTrack(l: seq<nat>, n: nat, start: nat, k: nat, i: nat, num: nat, now: seq<nat>)
    requires 0 < n && k <= i <= num
  {
    && now == TouchRun(l, n, start, k)
    && (Outlives(l, n, start, num) <==> OutlivesFrom(l, n, start, k, i, num))
  }

  lemma NothingPending(l: seq<nat>, first: nat)
    ensures NoneListed(l, first, 0)
  {
  }

  lemma OneMorePending(l: seq<nat>, first: nat, count: nat)
    requires NoneListed(l, first, count) && first + count !in l
    ensures NoneListed(l, first, count + 1)
  {
  }

  lemma NothingScanned(l: seq<nat>, n: nat, start: nat, num: nat)
    requires 0 < n
    ensures OnTrack(l, n, start, 0, 0, num, l) && NoneListed(l, start, 0)
  {
  }

  lemma StepOverMiss(l: seq<nat>, n: nat, start: nat, k: nat, i: nat, num: nat, now: seq<nat>)
    requires 0 < n && k <= i < num && OnTrack(l, n, start, k, i, num, now)
    requires start + i !in now
    ensures OnTrack(l, n, start, k, i + 1, num, now)
  {
  }

  lemma StepOverHit(l: seq<nat>, n: nat, start: nat, k: nat, i: nat, num: nat, now: seq<nat>)
    requires 0 < n && |l| <= n && Distinct(l) && k <= i < num
    requires OnTrack(l, n, start, k, i, num, now)
    requires |now| <= n && Distinct(now) && NoneListed(now, start + k, i - k) && start + i in now
    ensures var flushed := AddRun(now, n, start + k, i - k);
            if start + i in flushed
            then OnTrack(l, n, start, i + 1, i + 1, num, Touch(flushed, n, start + i))
            else !Outlives(l, n, start, num)
  {
    hide Distinct, NoneListed, AddRun, Touch, Pushed;
    TouchRunSplit(l, n, start, k, i);
    TouchRunOfMisses(now, n, start + k, i - k);
    SurvivesRun(now, n, start + k, i - k, start + i);
  }

  lemma FlushTail(l: seq<nat>, n: nat, start: nat, k: nat, num: nat, now: seq<nat>)
    requires 0 < n && |l| <= n && Distinct(l) && k <= num
    requires OnTrack(l, n, start, k, num, num, now)
    requires |now| <= n && Distinct(now) && NoneListed(now, start + k, num - k)
    ensures Outlives(l, n, start, num)
    ensures AddRun(now, n, start + k, num - k) == TouchRun(l, n, start, num)
    ensures k == num ==> now == TouchRun(l, n, start, num)
  {
    hide Distinct, NoneListed, AddRun, Touch;
    TouchRunSplit(l, n, start, k, num);
    TouchRunOfMisses(now, n, start + k, num - k);
  }

  // When the guard holds.

  lemma SingleSectorOutlives(l: seq<nat>, n: nat, start: nat)
    requires 0 < n && |l| <= n
    ensures Outlives(l, n, start, 1)
  {
  }

  lemma {:induction false} AllMissedOutlives(l: seq<nat>, n: nat, start: nat, i: nat, num: nat)
    requires 0 < n && |l| <= n && NoneListed(l, start, num) && i <= num
    ensures OutlivesFrom(l, n, start, 0, i, num)
    decreases num - i
  {
    if i < num {
      AllMissedOutlives(l, n, start, i + 1, num);
    }
  }

  /** Cached sectors stay cached while only cached sectors are touched. */
  lemma {:induction false} AllListedOutlives(l: seq<nat>, n: nat, start: nat, i: nat, num: nat)
    requires 0 < n && |l| <= n && Distinct(l) && i <= num
    requires AllListed(TouchRun(l, n, start, i), start, num)
    ensures OutlivesFrom(l, n, start, i, i, num)
    decreases num - i
  {
    if i < num {
      hide Distinct, Touch;
      var now := TouchRun(l, n, start, i);
      TouchRunInvariant(l, n, start, i);
      StayListed(now, n, start, num, i);
      AllListedOutlives(l, n, start, i + 1, num);
    }
  }

  lemma StayListed(l: seq<nat>, n: nat, first: nat, count: nat, i: nat)
    requires 0 < n && AllListed(l, first, count) && i < count
    ensures first + i in l && AllListed(Touch(l, n, first + i), first, count)
  {
    assert first + i in l;
    var r, p := Touch(l, n, first + i), IndexOf(l, first + i);
    forall s | first <= s < first + count && s in l
      ensures s in r
    {
      var j := IndexOf(l, s);
      assert r[if j < p then j else if j > p then j - 1 else |l| - 1] == s;
    }
  }

  /** The smallest failing read: one entry, holding sector 1, and a read of sectors 0 and 1. Filling
      the miss recycles the entry that the hit on sector 1 is about to copy from. */
  lemma RecycledHit()
    ensures !Outlives([1], 1, 0, 2)
  {
  }

  // What the reference list is, without replaying the range.

  function Without(l: seq<nat>, first: nat, count: nat): seq<nat> {
    if l == [] then []
    else (if first <= l[0] < first + count then [] else [l[0]]) + Without(l[1..], first, count)
  }

  function Latest(l: seq<nat>, n: nat): seq<nat> {
    if |l| <= n then l else l[|l| - n..]
  }

  lemma {:induction false} WithoutNothing(l: seq<nat>, first: nat)
    ensures Without(l, first, 0) == l
  {
    if l != [] {
      WithoutNothing(l[1..], first);
    }
  }

  lemma {:induction false} WithoutAppend(u: seq<nat>, v: seq<nat>, first: nat, count: nat)
    ensures Without(u + v, first, count) == Without(u, first, count) + Without(v, first, count)
  {
    hide Without;
    if u == [] {
      WithoutEmpty(first, count);
      assert u + v == v;
    } else {
      assert (u + v)[1..] == u[1..] + v;
      WithoutAppend(u[1..], v, first, count);
      WithoutFirst(u + v, first, count);
      WithoutFirst(u, first, count);
      assert [u[0]] + (Without(u[1..], first, count) + Without(v, first, count))
          == [u[0]] + Without(u[1..], first, count) + Without(v, first, count);
    }
  }

  lemma WithoutEmpty(first: nat, count: nat)
    ensures Without([], first, count) == []
  {
  }

  lemma WithoutFirst(l: seq<nat>, first: nat, count: nat)
    requires l != []
    ensures var rest := Without(l[1..], first, count);
            Without(l, first, count) == if first <= l[0] < first + count then rest else [l[0]] + rest
  {
  }

  lemma {:induction false} WithoutUnlisted(l: seq<nat>, first: nat, count: nat)
    requires first + count !in l
    ensures Without(l, first, count + 1) == Without(l, first, count)
  {
    if l != [] {
      assert l[0] != first + count;
      WithoutUnlisted(l[1..], first, count);
    }
  }

  lemma WithoutListed(l: seq<nat>, first: nat, count: nat) returns (p: nat)
    requires Distinct(l) && first + count in l
    ensures var w := Without(l, first, count);
            p < |w| && w[p] == first + count && Without(l, first, count + 1) == RemoveAt(w, p)
  {
    var s := first + count;
    var i := IndexOf(l, s);
    var u, v := l[..i], l[i + 1..];
    assert s !in u && s !in v;
    assert l == u + ([s] + v);
    hide Distinct;
    WithoutAppend(u, [s] + v, first, count);
    WithoutAppend(u, [s] + v, first, count + 1);
    WithoutUnlisted(u, first, count);
    WithoutUnlisted(v, first, count);
    p := |Without(u, first, count)|;
  }

  lemma {:induction false} WithoutMember(l: seq<nat>, first: nat, count: nat, s: nat)
    ensures s in Without(l, first, count) <==> s in l && !(first <= s < first + count)
  {
    if l != [] {
      WithoutMember(l[1..], first, count, s);
    }
  }

  lemma {:induction false} DistinctWithout(l: seq<nat>, first: nat, count: nat)
    requires Distinct(l)
    ensures Distinct(Without(l, first, count))
  {
    if l != [] {
      DistinctWithout(l[1..], first, count);
      WithoutMember(l[1..], first, count, l[0]);
    }
  }

  lemma DistinctWithoutRange(l: seq<nat>, first: nat, count: nat)
    requires Distinct(l)
    ensures Distinct(Without(l, first, count) + Range(first, count))
  {
    DistinctWithout(l, first, count);
    var w := Without(l, first, count);
    var all := w + Range(first, count);
    forall i, j | 0 <= i < j < |all|
      ensures all[i] != all[j]
    {
      if j >= |w| {
        WithoutMember(l, first, count, all[j]);
      }
    }
  }

  lemma TouchAt(l: seq<nat>, n: nat, i: nat)
    requires 0 < n && Distinct(l) && i < |l|
    ensures Touch(l, n, l[i]) == RemoveAt(l, i) + [l[i]]
  {
  }

  lemma DropThenRemove(l: seq<nat>, d: nat, p: nat)
    requires d <= p < |l|
    ensures RemoveAt(l[d..], p - d) == RemoveAt(l, p)[d..]
  {
  }

  lemma DropPastRemoved(l: seq<nat>, d: nat, p: nat)
    requires p < d <= |l|
    ensures l[d..] == RemoveAt(l, p)[d - 1..]
  {
  }

  lemma DistinctDrop(l: seq<nat>, d: nat, p: nat)
    requires Distinct(l) && d <= |l| && p < |l|
    ensures Distinct(l[d..]) && (p < d ==> l[p] !in l[d..])
  {
  }

  lemma TouchLatest(all: seq<nat>, n: nat, s: nat)
    requires 0 < n && s !in all
    ensures Touch(Latest(all, n), n, s) == Latest(all + [s], n)
  {
  }

  lemma LatestIs(all: seq<nat>, n: nat, d: nat)
    requires d == if |all| <= n then 0 else |all| - n
    ensures Latest(all, n) == all[d..]
  {
    assert all[0..] == all;
  }

  lemma LatestAfterMove(all: seq<nat>, n: nat, p: nat, d: nat)
    requires p < |all| && d == if |all| <= n then 0 else |all| - n
    ensures Latest(RemoveAt(all, p) + [all[p]], n) == (RemoveAt(all, p) + [all[p]])[d..]
    ensures d <= |RemoveAt(all, p)| || n == 0
  {
    LatestIs(RemoveAt(all, p) + [all[p]], n, d);
  }

  lemma DropInFront(rest: seq<nat>, s: nat, d: nat)
    requires d <= |rest|
    ensures (rest + [s])[d..] == rest[d..] + [s]
  {
  }

  lemma TouchLatestListed(all: seq<nat>, n: nat, p: nat)
    requires 0 < n && Distinct(all) && p < |all|
    ensures Touch(Latest(all, n), n, all[p]) == Latest(RemoveAt(all, p) + [all[p]], n)
  {
    var d := if |all| <= n then 0 else |all| - n;
    LatestIs(all, n, d);
    LatestAfterMove(all, n, p, d);
    DropInFront(RemoveAt(all, p), all[p], d);
    DistinctDrop(all, d, p);
    hide Distinct, RemoveAt, Latest, Touch;
    if d <= p {
      DropThenRemove(all, d, p);
      TouchKept(all[d..], n, p - d, all[p]);
    } else {
      DropPastRemoved(all, d, p);
      TouchGone(all, n, d, p);
    }
  }

  lemma TouchKept(now: seq<nat>, n: nat, i: nat, s: nat)
    requires 0 < n && Distinct(now) && i < |now| && now[i] == s
    ensures Touch(now, n, s) == RemoveAt(now, i) + [s]
  {
    TouchAt(now, n, i);
    hide Touch, RemoveAt, Distinct;
  }

  lemma TouchGone(all: seq<nat>, n: nat, d: nat, p: nat)
    requires 0 < n && p < d == |all| - n && all[p] !in all[d..]
    requires all[d..] == RemoveAt(all, p)[d - 1..]
    ensures Touch(all[d..], n, all[p]) == RemoveAt(all, p)[d..] + [all[p]]
  {
    var now, rest := all[d..], RemoveAt(all, p);
    TouchMissed(now, n, all[p]);
    assert now[1..] == rest[d..];
    hide Touch, RemoveAt;
  }

  /** The reference in closed form: the last n of the old list without the range, followed by the
      range in ascending order. */
  lemma {:induction false} ClosedForm(l: seq<nat>, n: nat, first: nat, count: nat)
    requires 0 < n && |l| <= n && Distinct(l)
    ensures TouchRun(l, n, first, count) == Latest(Without(l, first, count) + Range(first, count), n)
    decreases count
  {
    hide Distinct, Latest, Touch, Without, Range;
    if count == 0 {
      ClosedFormBase(l, n, first);
    } else {
      ClosedForm(l, n, first, count - 1);
      ClosedFormStep(l, n, first, count - 1);
    }
  }

  lemma ClosedFormBase(l: seq<nat>, n: nat, first: nat)
    requires |l| <= n
    ensures l == Latest(Without(l, first, 0) + Range(first, 0), n)
  {
  }

  lemma ClosedFormStep(l: seq<nat>, n: nat, first: nat, count: nat)
    requires 0 < n && Distinct(l)
    ensures Touch(Latest(Without(l, first, count) + Range(first, count), n), n, first + count)
         == Latest(Without(l, first, count + 1) + Range(first, count + 1), n)
  {
    hide Distinct, Without, Touch, Latest, RemoveAt;
    var w, r, s := Without(l, first, count), Range(first, count), first + count;
    assert Range(first, count + 1) == r + [s];
    if s in l {
      var p := WithoutListed(l, first, count);
      DistinctWithoutRange(l, first, count);
      RemoveInFront(w, r, s, p);
      TouchLatestListed(w + r, n, p);
    } else {
      WithoutUnlisted(l, first, count);
      WithoutMember(l, first, count, s);
      assert (w + r) + [s] == w + (r + [s]);
      TouchLatest(w + r, n, s);
    }
  }

  lemma RemoveInFront(w: seq<nat>, r: seq<nat>, s: nat, p: nat)
    requires p < |w|
    ensures RemoveAt(w + r, p) + [s] == RemoveAt(w, p) + (r + [s])
  {
  }
}
