/** The pure part of the Dataset lock manager of the object store:
    normalising a batch of uids before locking, and the effect of one
    all-or-nothing pass of `uv_sem_trywait` calls on the semaphore counts. */
module Locking {
  import opened Outcomes

  /** The order in which a batch of locks is acquired: strictly increasing. */
  ghost predicate StrictlyIncreasing(s: seq<int>) {
    forall i, j :: 0 <= i < j < |s| ==> s[i] < s[j]
  }

  /** Inserts `x` into a strictly increasing sequence, keeping it so; an
      element already present is not inserted twice. */
  function InsertSorted(s: seq<int>, x: int): (r: seq<int>)
    requires StrictlyIncreasing(s)
    ensures StrictlyIncreasing(r)
    ensures forall y :: y in r <==> y in s || y == x
  {
    if s == [] then [x]
    else
      HeadBelow(s);
      if x < s[0] then ConsIncreasing(x, s); [x] + s
      else if x == s[0] then s
      else
        var t := InsertSorted(s[1..], x);
        ConsIncreasing(s[0], t);
        [s[0]] + t
  }

  /** The head of a strictly increasing sequence is below everything after it. */
  lemma HeadBelow(s: seq<int>)
    requires StrictlyIncreasing(s) && |s| > 0
    ensures forall y :: y in s ==> s[0] <= y
    ensures forall y :: y in s[1..] ==> s[0] < y
  {
    forall y | y in s ensures s[0] <= y { HeadIsLeast(s, y); }
    forall y | y in s[1..] ensures s[0] < y {
      var k :| 0 <= k < |s[1..]| && s[1..][k] == y;
      assert s[k + 1] == y;
    }
  }

  /** Putting a smaller element in front keeps a sequence strictly increasing. */
  lemma ConsIncreasing(a: int, t: seq<int>)
    requires StrictlyIncreasing(t) && forall y :: y in t ==> a < y
    ensures StrictlyIncreasing([a] + t)
  {
    var r := [a] + t;
    forall i, j | 0 <= i < j < |r| ensures r[i] < r[j] {
      assert r[j] == t[j - 1] && t[j - 1] in t;
      if i > 0 { assert r[i] == t[i - 1]; }
    }
  }

  /** `std::sort` followed by `std::unique`: the distinct elements of `uids`
      in increasing order. */
  function SortUnique(uids: seq<int>): (r: seq<int>)
    ensures StrictlyIncreasing(r)
    ensures forall y :: y in r <==> y in uids
  {
    if uids == [] then []
    else
      var r := InsertSorted(SortUnique(uids[..|uids| - 1]), uids[|uids| - 1]);
      assert forall y :: y in uids <==> y in uids[..|uids| - 1] || y == uids[|uids| - 1];
      r
  }

  /** The first element of a strictly increasing sequence is its least one. */
  lemma {:induction false} HeadIsLeast(s: seq<int>, y: int)
    requires StrictlyIncreasing(s) && y in s
    ensures s[0] <= y
  {
    var k :| 0 <= k < |s| && s[k] == y;
    if k > 0 { assert s[0] < s[k]; }
  }

  /** The normalisation done by `lockDatasets` and `tryLockDatasets` before
      any lock is touched: sort, drop duplicates, then drop the first element
      when it is 0. Only a leading 0 is dropped, so with a negative uid in the
      batch the 0 stays. The C++ code reads `uids.front()` without checking for
      an empty batch, so the batch must not be empty. */
  function Normalize(uids: seq<int>): (r: seq<int>)
    requires |uids| > 0
    ensures StrictlyIncreasing(r)
    ensures forall y :: y in r <==> y in uids && !(y == 0 && forall z :: z in uids ==> z >= 0)
  {
    var s := SortUnique(uids);
    assert uids[0] in s;
    if s[0] == 0 then
      forall z | z in uids ensures z >= 0 { HeadIsLeast(s, z); }
      assert forall y :: y in s[1..] <==> y in s && y != s[0];
      s[1..]
    else
      assert 0 in uids ==> exists z :: z in uids && z < 0 by {
        if 0 in uids { HeadIsLeast(s, 0); assert s[0] in uids && s[0] < 0; }
      }
      s
  }

  /** Two strictly increasing sequences with the same elements are equal. */
  lemma {:induction false} IncreasingUnique(a: seq<int>, b: seq<int>)
    requires StrictlyIncreasing(a) && StrictlyIncreasing(b)
    requires forall y :: y in a <==> y in b
    ensures a == b
  {
    assert a != [] ==> a[0] in a && a[0] in b;
    assert b != [] ==> b[0] in b && b[0] in a;
    if a != [] && b != [] {
      HeadIsLeast(b, a[0]);
      HeadIsLeast(a, b[0]);
      assert a[0] == b[0];
      forall y ensures y in a[1..] <==> y in b[1..] {
        if y in a[1..] { HeadIsLeast(a, y); }
        if y in b[1..] { HeadIsLeast(b, y); }
        assert y in a[1..] ==> y != a[0] by { if y in a[1..] { var k :| 1 <= k < |a| && a[k] == y; assert a[0] < a[k]; } }
        assert y in b[1..] ==> y != b[0] by { if y in b[1..] { var k :| 1 <= k < |b| && b[k] == y; assert b[0] < b[k]; } }
        assert y in a <==> y == a[0] || y in a[1..];
        assert y in b <==> y == b[0] || y in b[1..];
      }
      IncreasingUnique(a[1..], b[1..]);
      assert a == [a[0]] + a[1..] && b == [b[0]] + b[1..];
    }
  }

  /** The deadlock-avoidance argument: two batches naming the same uids, in
      any order and with any repetitions, are locked in the same order. */
  lemma NormalizeOrderIndependent(a: seq<int>, b: seq<int>)
    requires |a| > 0 && |b| > 0
    requires forall y :: y in a <==> y in b
    ensures Normalize(a) == Normalize(b)
  {
    IncreasingUnique(Normalize(a), Normalize(b));
  }

  /** For the uids the store hands out (never negative), normalisation keeps
      exactly the non-zero uids of the batch: the sentinel 0 ("no lock needed")
      is always dropped. */
  lemma NormalizeDropsZero(uids: seq<int>)
    requires |uids| > 0
    requires forall u :: u in uids ==> u >= 0
    ensures 0 !in Normalize(uids)
    ensures forall y :: y in Normalize(uids) <==> y in uids && y != 0
  {
  }

  /** A batch made only of 0 normalises to nothing: no lock is needed. */
  lemma NormalizeAllZero(uids: seq<int>)
    requires |uids| > 0
    requires forall u :: u in uids ==> u == 0
    ensures Normalize(uids) == []
  {
    HeadOrEmpty(Normalize(uids));
  }

  lemma HeadOrEmpty(s: seq<int>)
    ensures s == [] || s[0] in s
  {
  }

  /** One pass of `uv_sem_trywait` over `locks`, in order, on semaphore counts
      `sems`: `None` as soon as a count is 0 (the pass then rolls back), else
      the counts after every lock of the pass was taken. */
  function TryTakeAll(sems: map<int, int>, locks: seq<int>): (r: Option<map<int, int>>)
    requires forall l :: l in locks ==> l in sems
    ensures r.Some? ==> r.value.Keys == sems.Keys
    ensures locks == [] ==> r == Some(sems)
  {
    if locks == [] then Some(sems)
    else
      var l := locks[0];
      assert l in locks && forall k :: k in locks[1..] ==> k in locks;
      if sems[l] <= 0 then None
      else TryTakeAll(sems[l := sems[l] - 1], locks[1..])
  }

  /** The counts after taking every lock of `locks` once per occurrence. */
  ghost function Taken(sems: map<int, int>, locks: seq<int>): map<int, int> {
    map l | l in sems :: sems[l] - multiset(locks)[l]
  }

  /** The counts after posting every lock of `locks` once per occurrence. */
  ghost function Given(sems: map<int, int>, locks: seq<int>): map<int, int> {
    map l | l in sems :: sems[l] + multiset(locks)[l]
  }

  /** Taking one more lock lowers its count by one. */
  lemma TakenStep(sems: map<int, int>, locks: seq<int>, l: int)
    requires l in sems
    ensures Taken(sems, locks + [l]) == Taken(sems, locks)[l := Taken(sems, locks)[l] - 1]
  {
    assert multiset(locks + [l]) == multiset(locks) + multiset{l};
  }

  /** Posting one more lock raises its count by one. */
  lemma GivenStep(sems: map<int, int>, locks: seq<int>, l: int)
    requires l in sems
    ensures Given(sems, locks + [l]) == Given(sems, locks)[l := Given(sems, locks)[l] + 1]
  {
    assert multiset(locks + [l]) == multiset(locks) + multiset{l};
  }

  /** Posting every lock that was taken restores the counts. */
  lemma GivenTaken(sems: map<int, int>, locks: seq<int>)
    ensures Given(Taken(sems, locks), locks) == sems
  {
  }

  /** Every semaphore holds at least as many units as `locks` asks of it. */
  ghost predicate Fits(sems: map<int, int>, locks: seq<int>) {
    forall l :: l in sems ==> multiset(locks)[l] <= sems[l] || multiset(locks)[l] == 0
  }

  /** Taking the first lock and then the rest takes the whole sequence. */
  lemma TakenCons(sems: map<int, int>, l0: int, rest: seq<int>)
    requires l0 in sems
    ensures Taken(sems[l0 := sems[l0] - 1], rest) == Taken(sems, [l0] + rest)
  {
    assert multiset([l0] + rest) == multiset{l0} + multiset(rest);
  }

  /** The first lock of a pass fits when what remains fits in what is left. */
  lemma FitsCons(sems: map<int, int>, l0: int, rest: seq<int>)
    requires l0 in sems
    ensures sems[l0] <= 0 ==> !Fits(sems, [l0] + rest)
    ensures sems[l0] > 0 ==> (Fits(sems[l0 := sems[l0] - 1], rest) <==> Fits(sems, [l0] + rest))
  {
    assert multiset([l0] + rest) == multiset{l0} + multiset(rest);
    assert multiset([l0] + rest)[l0] > 0;
  }

  /** A pass succeeds exactly when every semaphore holds at least as many
      units as the pass asks of it, and then it takes exactly those units. */
  lemma {:induction false} TryTakeAllSpec(sems: map<int, int>, locks: seq<int>)
    requires forall l :: l in locks ==> l in sems
    ensures TryTakeAll(sems, locks).Some? <==> Fits(sems, locks)
    ensures TryTakeAll(sems, locks).Some? ==> TryTakeAll(sems, locks).value == Taken(sems, locks)
  {
    if locks != [] {
      var l0 := locks[0];
      var rest := locks[1..];
      assert locks == [l0] + rest;
      assert l0 in locks;
      FitsCons(sems, l0, rest);
      if sems[l0] > 0 {
        TryTakeAllSpec(sems[l0 := sems[l0] - 1], rest);
        TakenCons(sems, l0, rest);
      }
    } else {
      assert Taken(sems, locks) == sems;
    }
  }

  /** With capacity-1 semaphores, a pass succeeds exactly when its locks are
      pairwise distinct and all free. */
  lemma TryTakeAllBinary(sems: map<int, int>, locks: seq<int>)
    requires forall l :: l in locks ==> l in sems
    requires forall l :: l in sems ==> 0 <= sems[l] <= 1
    ensures TryTakeAll(sems, locks).Some? <==>
              (forall i, j :: 0 <= i < j < |locks| ==> locks[i] != locks[j]) &&
              (forall i :: 0 <= i < |locks| ==> sems[locks[i]] == 1)
  {
    TryTakeAllSpec(sems, locks);
    if Fits(sems, locks) {
      forall i, j | 0 <= i < j < |locks| ensures locks[i] != locks[j] {
        MultisetTwo(locks, i, j);
        assert locks[i] in sems;
      }
      forall i | 0 <= i < |locks| ensures sems[locks[i]] == 1 {
        assert locks[i] in multiset(locks);
      }
    } else {
      var l :| l in sems && multiset(locks)[l] > sems[l] && multiset(locks)[l] != 0;
      assert l in multiset(locks);
      var i :| 0 <= i < |locks| && locks[i] == l;
      if sems[l] == 1 {
        assert multiset(locks)[l] >= 2;
        var j := OtherOccurrence(locks, i);
        if i < j { assert locks[i] == locks[j]; } else { assert locks[j] == locks[i]; }
      }
    }
  }

  lemma MultisetTwo(s: seq<int>, i: int, j: int)
    requires 0 <= i < j < |s|
    ensures s[i] == s[j] ==> multiset(s)[s[i]] >= 2
  {
    assert s == s[..i] + [s[i]] + s[i + 1..j] + [s[j]] + s[j + 1..];
    assert multiset(s) == multiset(s[..i]) + multiset{s[i]} + multiset(s[i + 1..j]) + multiset{s[j]} + multiset(s[j + 1..]);
  }

  lemma OtherOccurrence(s: seq<int>, i: int) returns (j: int)
    requires 0 <= i < |s| && multiset(s)[s[i]] >= 2
    ensures 0 <= j < |s| && j != i && s[j] == s[i]
  {
    assert s == s[..i] + [s[i]] + s[i + 1..];
    assert multiset(s) == multiset(s[..i]) + multiset{s[i]} + multiset(s[i + 1..]);
    if s[i] in multiset(s[..i]) {
      j :| 0 <= j < i && s[j] == s[i];
    } else {
      assert s[i] in multiset(s[i + 1..]);
      var k :| 0 <= k < |s[i + 1..]| && s[i + 1..][k] == s[i];
      j := i + 1 + k;
    }
  }
}
