/** The object store of the GDAL bindings: one in-process registry that gives
    every wrapped native object a uid, finds it again by its native pointer,
    hands out the per-Dataset async locks, and tears the native object down
    once both disposal paths (an explicit `dispose` and the GC's weak
    callback) have let go of it.

    The model is sequential: the store's master mutex has no effect, and a
    wait on a semaphore is replaced by a precondition that the semaphore is
    free. The `shared_ptr` ownership of every `ObjectStoreItem` is modelled by
    an explicit reference count whose owners the invariant names. */
module ObjectStore {
  import opened Outcomes
  import opened Locking

  /** The native kinds the store is instantiated for, one pair of maps each. */
  datatype Kind = Driver | Dataset | Layer | RasterBand | SpatialReference
                | Group | MDArray | Dimension | Attribute

  /** The kinds that `isAlive` and `do_dispose` look up: every kind except
      drivers and spatial references. */
  predicate Tracked(k: Kind) {
    k != Driver && k != SpatialReference
  }

  /** A uid (`long`); the store hands out 1, 2, 3, ... and 0 means "none". */
  type Uid = int

  /** The identity of a native pointer; 0 is the null pointer. */
  type Ptr = nat

  /** The identity of the JavaScript wrapper object kept in `item->obj`. */
  type Obj = nat

  /** The fields of an `ObjectStoreItem` that never change after `add`.
      `lock` is the semaphore of a Dataset, named by the uid of the root
      Dataset that created it, and 0 for every other kind. */
  datatype Item = Item(kind: Kind, ptr: Ptr, obj: Obj, parent: Uid, lock: Uid, isResultSet: bool)

  /** The native call made by the destructor of an `ObjectStoreItem`. */
  datatype Native = NoNative | GdalClose(ds: Ptr) | ReleaseResultSet(ds: Ptr, layer: Ptr)

  /** One run of an `ObjectStoreItem` destructor. */
  datatype Teardown = Teardown(uid: Uid, parent: Uid, action: Native)

  const DestroyedMsg := "Parent Dataset object has already been destroyed"

  function Flag(b: bool): nat {
    if b then 1 else 0
  }

  /** The items still in memory whose `item->parent` points to `u`. */
  ghost function ChildRefs(items: map<Uid, Item>, u: Uid): set<Uid> {
    set c | c in items && items[c].parent == u
  }

  /** The owners of the `shared_ptr`s to item `u`: its uid-map entry, its
      pointer-map entry, the heap copy handed to the weak callback, the
      argument of a dispose call in progress, and the `parent` field of every
      child still in memory. */
  ghost function Owners(items: map<Uid, Item>, uidMap: set<(Kind, Uid)>, ptrMap: map<(Kind, Ptr), Uid>,
                        weak: set<Uid>, pinned: set<Uid>, u: Uid): nat
    requires u in items
  {
    var it := items[u];
    Flag((it.kind, u) in uidMap)
    + Flag((it.kind, it.ptr) in ptrMap && ptrMap[(it.kind, it.ptr)] == u)
    + Flag(u in weak)
    + Flag(u in pinned)
    + |ChildRefs(items, u)|
  }

  ghost predicate Distinct(s: seq<Uid>) {
    forall i, j :: 0 <= i < j < |s| ==> s[i] != s[j]
  }

  /** `std::list::remove`: drops every occurrence of `x`. */
  function Without(s: seq<Uid>, x: Uid): (r: seq<Uid>)
    ensures forall y :: y in r <==> y in s && y != x
    ensures Distinct(s) ==> Distinct(r)
    ensures x !in s ==> r == s
  {
    if s == [] then []
    else if s[0] == x then Without(s[1..], x)
    else
      var t := Without(s[1..], x);
      assert Distinct(s) ==> s[0] !in s[1..];
      [s[0]] + t
  }

  /** The semaphore that a dispose of `u` waits on: a Dataset's own lock, or
      the lock of the parent Dataset of any other item; 0 when there is none. */
  function WaitLock(items: map<Uid, Item>, u: Uid): Uid {
    if u !in items then 0
    else if items[u].kind == Dataset then items[u].lock
    else if items[u].parent != 0 && items[u].parent in items then items[items[u].parent].lock
    else 0
  }

  /** The native call of the destructor of item `u`: `GDALClose` of a
      non-null Dataset, `ReleaseResultSet` on the parent Dataset of a Layer
      holding SQL results, nothing for the other kinds. */
  function ActionOf(items: map<Uid, Item>, u: Uid): (a: Native)
    requires u in items
    requires items[u].kind == Layer ==> items[u].parent in items
    ensures a.GdalClose? <==> items[u].kind == Dataset && items[u].ptr != 0
    ensures a.ReleaseResultSet? <==> items[u].kind == Layer && items[u].isResultSet
  {
    var it := items[u];
    match it.kind
    case Dataset => if it.ptr != 0 then GdalClose(it.ptr) else NoNative
    case Layer => if it.isResultSet then ReleaseResultSet(items[it.parent].ptr, it.ptr) else NoNative
    case _ => NoNative
  }

  /** Every item of `a` is in `b`, unchanged. */
  ghost predicate SubMap(a: map<Uid, Item>, b: map<Uid, Item>) {
    forall v :: v in a ==> v in b && a[v] == b[v]
  }

  /** `x` lies in the subtree of Dataset `d`: it is `d`, or its chain of
      parents reaches `d`. */
  ghost predicate InSubtree(items: map<Uid, Item>, x: Uid, d: Uid)
    decreases if x < 0 then 0 else x
  {
    x == d || (x in items && 0 < items[x].parent < x && InSubtree(items, items[x].parent, d))
  }

  lemma {:induction false} SubtreeAtLeast(items: map<Uid, Item>, x: Uid, d: Uid)
    requires InSubtree(items, x, d)
    ensures x >= d
    decreases if x < 0 then 0 else x
  {
    if x != d { SubtreeAtLeast(items, items[x].parent, d); }
  }

  lemma {:induction false} SubtreeSubMap(small: map<Uid, Item>, big: map<Uid, Item>, x: Uid, d: Uid)
    requires SubMap(small, big) && InSubtree(small, x, d)
    ensures InSubtree(big, x, d)
    decreases if x < 0 then 0 else x
  {
    if x != d { SubtreeSubMap(small, big, small[x].parent, d); }
  }

  lemma {:induction false} SubtreeTrans(items: map<Uid, Item>, x: Uid, y: Uid, z: Uid)
    requires InSubtree(items, x, y) && InSubtree(items, y, z)
    ensures InSubtree(items, x, z)
    decreases if x < 0 then 0 else x
  {
    if x != y { SubtreeTrans(items, items[x].parent, y, z); }
  }

  /** Only Datasets have children, so the subtree of any other item is the
      item alone. */
  lemma {:induction false} SubtreeOfLeaf(items: map<Uid, Item>, x: Uid, u: Uid)
    requires ParentsOk(items) && u in items && items[u].kind != Dataset
    requires InSubtree(items, x, u)
    ensures x == u
    decreases if x < 0 then 0 else x
  {
    if x != u {
      var p := items[x].parent;
      if p != u { SubtreeOfLeaf(items, p, u); }
    }
  }

  lemma SubsetCard(a: set<(Kind, Uid)>, b: set<(Kind, Uid)>, x: (Kind, Uid))
    requires a <= b && x in b && x !in a
    ensures |a| < |b|
  {
    assert b == a + (b - a);
    assert x in b - a;
  }

  // ---- the store invariant, one part per group of fields

  /** Uids are handed out below `uid`; both maps hold items still in memory
      under their own kind, the pointer map under the item's own pointer,
      and only items that are still in the uid map. */
  ghost predicate RegistryOk(uid: Uid, items: map<Uid, Item>, uidMap: set<(Kind, Uid)>, ptrMap: map<(Kind, Ptr), Uid>) {
    && uid >= 1
    && (forall u :: u in items ==> 1 <= u < uid)
    && (forall key {:trigger key in uidMap} :: key in uidMap ==> key.1 in items && items[key.1].kind == key.0)
    && (forall key :: key in ptrMap ==> (key.0, ptrMap[key]) in uidMap && items[ptrMap[key]].ptr == key.1)
  }

  /** A parent is an older Dataset still in memory, its child is of a
      tracked kind, and every Layer has a parent. */
  ghost predicate ParentsOk(items: map<Uid, Item>) {
    && (forall u {:trigger items[u].parent} :: u in items && items[u].parent != 0 ==>
          0 < items[u].parent < u && items[u].parent in items && items[items[u].parent].kind == Dataset
          && Tracked(items[u].kind))
    && (forall u {:trigger items[u].parent} :: u in items && items[u].kind == Layer ==> items[u].parent != 0)
  }

  /** Every Dataset in memory has a `children` list holding, once each,
      exactly its children still in the uid map; such a child's parent is
      itself in the uid map, or is being disposed. */
  ghost predicate ChildListsOk(items: map<Uid, Item>, uidMap: set<(Kind, Uid)>, children: map<Uid, seq<Uid>>, pinned: set<Uid>) {
    && (forall d :: d in children <==> d in items && items[d].kind == Dataset)
    && (forall d :: d in children ==> Distinct(children[d]))
    && (forall d, c :: d in children && c in children[d] ==>
          c in items && items[c].parent == d && (items[c].kind, c) in uidMap)
    && (forall c {:trigger items[c].parent} :: c in items && items[c].parent != 0 && (items[c].kind, c) in uidMap ==>
          items[c].parent in children && c in children[items[c].parent]
          && ((Dataset, items[c].parent) in uidMap || items[c].parent in pinned))
  }

  /** A root Dataset owns the semaphore named by its uid, a dependent
      Dataset shares its parent's, and every count is 0 or 1. */
  ghost predicate LocksOk(uid: Uid, items: map<Uid, Item>, sems: map<Uid, int>) {
    && (forall u :: u in items && items[u].kind == Dataset ==> items[u].lock in sems)
    && (forall u {:trigger items[u].parent} :: u in items && items[u].kind == Dataset && items[u].parent == 0 ==> items[u].lock == u)
    && (forall u {:trigger items[u].parent} :: u in items && items[u].kind == Dataset && items[u].parent != 0 && items[u].parent in items ==>
          items[u].lock == items[items[u].parent].lock)
    && (forall u :: u in items && items[u].kind != Dataset ==> items[u].lock == 0)
    && (forall l :: l in sems ==> 1 <= l < uid && 0 <= sems[l] <= 1)
  }

  /** The count of every item in memory is the number of its owners and,
      except for the one item `dying` whose destructor is about to run, it
      is positive. An item held by a dispose in progress has left the uid
      map. */
  ghost predicate CountsOk(items: map<Uid, Item>, uidMap: set<(Kind, Uid)>, ptrMap: map<(Kind, Ptr), Uid>,
                           weak: set<Uid>, pinned: set<Uid>, refs: map<Uid, int>, dying: Uid) {
    && (forall u :: u in refs <==> u in items)
    && (forall u :: u in weak ==> u in items)
    && (forall u :: u in pinned ==> u in items && (items[u].kind, u) !in uidMap)
    && (forall u {:trigger refs[u]} :: u in items ==>
          refs[u] == Owners(items, uidMap, ptrMap, weak, pinned, u) && (refs[u] > 0 || u == dying))
  }

  /** Some teardown of `log` is that of uid `v`. */
  ghost predicate Logged(log: seq<Teardown>, v: Uid) {
    exists i :: 0 <= i < |log| && log[i].uid == v
  }

  /** Every destructor ran once, for an item that has left memory, and a
      child's destructor ran before its parent's; every uid handed out whose
      item has left memory had its destructor run. */
  ghost predicate HistoryOk(uid: Uid, items: map<Uid, Item>, log: seq<Teardown>) {
    && (forall i :: 0 <= i < |log| ==> 1 <= log[i].uid < uid && log[i].parent < log[i].uid && log[i].uid !in items)
    && (forall i, j :: 0 <= i < j < |log| ==> log[i].uid != log[j].uid)
    && (forall i, j :: 0 <= i < |log| && 0 <= j < |log| && log[i].parent == log[j].uid ==> i < j)
    && (forall v :: 1 <= v < uid && v !in items ==> Logged(log, v))
  }

  /** Once `d`'s `children` is empty, and no dispose below `d` is in
      progress, nothing in `d`'s subtree except `d` is still in the uid map. */
  lemma {:induction false} NoLiveDescendant(items: map<Uid, Item>, uidMap: set<(Kind, Uid)>, children: map<Uid, seq<Uid>>,
                                            pinned: set<Uid>, snapshot: map<Uid, Item>, d: Uid, x: Uid)
    requires ParentsOk(items) && ChildListsOk(items, uidMap, children, pinned) && SubMap(items, snapshot)
    requires d in children && children[d] == []
    requires forall p :: p in pinned ==> p <= d
    requires x in items && (items[x].kind, x) in uidMap && x != d
    ensures !InSubtree(snapshot, x, d)
    decreases x
  {
    if InSubtree(snapshot, x, d) {
      var p := items[x].parent;
      assert p != 0 && InSubtree(snapshot, p, d);
      assert x in children[p];
      assert p != d;
      SubtreeAtLeast(snapshot, p, d);
      NoLiveDescendant(items, uidMap, children, pinned, snapshot, d, p);
    }
  }

  /** The lock of each uid of a batch, in order (`locks.push_back(...)`). */
  function LocksOf(items: map<Uid, Item>, uids: seq<Uid>): (r: seq<Uid>)
    requires forall i :: 0 <= i < |uids| ==> uids[i] in items
    ensures |r| == |uids| && forall i :: 0 <= i < |uids| ==> r[i] == items[uids[i]].lock
  {
    if uids == [] then [] else [items[uids[0]].lock] + LocksOf(items, uids[1..])
  }

  lemma LocksOfAppend(items: map<Uid, Item>, uids: seq<Uid>, u: Uid)
    requires forall i :: 0 <= i < |uids| ==> uids[i] in items
    requires u in items
    ensures LocksOf(items, uids + [u]) == LocksOf(items, uids) + [items[u].lock]
  {
    var a := LocksOf(items, uids + [u]);
    var b := LocksOf(items, uids) + [items[u].lock];
    assert |a| == |b|;
    forall i | 0 <= i < |a| ensures a[i] == b[i] {
      assert (uids + [u])[i] == if i < |uids| then uids[i] else u;
    }
  }

  /** Every uid of the batch names a Dataset in the uid map. */
  predicate AllDatasets(uidMap: set<(Kind, Uid)>, uids: seq<Uid>) {
    forall u :: u in uids ==> (Dataset, u) in uidMap
  }

  lemma DatasetLocks(items: map<Uid, Item>, uidMap: set<(Kind, Uid)>, sems: map<Uid, int>, uids: seq<Uid>)
    requires forall key :: key in uidMap ==> key.1 in items && items[key.1].kind == key.0
    requires forall u :: u in items && items[u].kind == Dataset ==> items[u].lock in sems
    requires AllDatasets(uidMap, uids)
    ensures forall i :: 0 <= i < |uids| ==> uids[i] in items && items[uids[i]].kind == Dataset
    ensures forall l :: l in LocksOf(items, uids) ==> l in sems
  {
    forall i | 0 <= i < |uids| ensures uids[i] in items && items[uids[i]].kind == Dataset {
      assert uids[i] in uids;
      assert forall u :: u in uids ==> (Dataset, u) in uidMap;
    }
    var locks := LocksOf(items, uids);
    forall l | l in locks ensures l in sems {
      var i :| 0 <= i < |locks| && locks[i] == l;
      var x := uids[i];
      assert x in items && items[x].kind == Dataset;
      assert l == items[x].lock;
    }
  }

  /** The outcome of `_tryLockDatasets` on `uids` and the semaphore counts
      after it: the "destroyed" error when some uid is not a Dataset in the
      uid map; otherwise every lock when one trywait pass over them in
      order succeeds, and nothing, with the counts as they were, when it
      fails. */
  function Pass(items: map<Uid, Item>, uidMap: set<(Kind, Uid)>, sems: map<Uid, int>, uids: seq<Uid>): (p: (Result<seq<Uid>>, map<Uid, int>))
    requires forall key :: key in uidMap ==> key.1 in items && items[key.1].kind == key.0
    requires forall u :: u in items && items[u].kind == Dataset ==> items[u].lock in sems
    ensures p.0.Err? <==> !AllDatasets(uidMap, uids)
    ensures p.0.Err? ==> p.0.msg == DestroyedMsg
    ensures p.0.Err? || p.0 == Ok([]) ==> p.1 == sems
  {
    if !AllDatasets(uidMap, uids) then (Err(DestroyedMsg), sems)
    else
      DatasetLocks(items, uidMap, sems, uids);
      var locks := LocksOf(items, uids);
      match TryTakeAll(sems, locks)
      case None => (Ok([]), sems)
      case Some(after) => (Ok(locks), after)
  }

  /** The counts after one successful pass are those `Taken` describes. */
  lemma TakenMatches(sems: map<Uid, int>, locks: seq<Uid>, after: map<Uid, int>)
    requires forall l :: l in locks ==> l in sems
    requires after.Keys == sems.Keys
    requires forall l :: l in after ==> after[l] == sems[l] - multiset(locks)[l]
    ensures after == Taken(sems, locks)
  {
    var t := Taken(sems, locks);
    assert after.Keys == t.Keys;
    forall l | l in after ensures after[l] == t[l] { }
  }

  // ---- `add` keeps every part of the invariant

  lemma AddRegistry(uid: Uid, items: map<Uid, Item>, uidMap: set<(Kind, Uid)>, ptrMap: map<(Kind, Ptr), Uid>, it: Item)
    requires RegistryOk(uid, items, uidMap, ptrMap) && (it.kind, it.ptr) !in ptrMap
    ensures RegistryOk(uid + 1, items[uid := it], uidMap + {(it.kind, uid)}, ptrMap[(it.kind, it.ptr) := uid])
  {
  }

  lemma AddParents(items: map<Uid, Item>, n: Uid, it: Item)
    requires ParentsOk(items) && n !in items
    requires it.parent != 0 ==> 0 < it.parent < n && it.parent in items && items[it.parent].kind == Dataset && Tracked(it.kind)
    requires it.kind == Layer ==> it.parent != 0
    ensures ParentsOk(items[n := it])
  {
  }

  lemma AddChildLists(items: map<Uid, Item>, uidMap: set<(Kind, Uid)>, children: map<Uid, seq<Uid>>, pinned: set<Uid>,
                      n: Uid, it: Item)
    requires ChildListsOk(items, uidMap, children, pinned) && n !in items
    requires forall key :: key in uidMap ==> key.1 in items
    requires it.parent != 0 ==> it.parent in items && items[it.parent].kind == Dataset && (Dataset, it.parent) in uidMap
    ensures var children' := (if it.parent != 0 then children[it.parent := children[it.parent] + [n]] else children)
                             + (if it.kind == Dataset then map[n := []] else map[]);
            ChildListsOk(items[n := it], uidMap + {(it.kind, n)}, children', pinned)
  {
    var linked := if it.parent != 0 then children[it.parent := children[it.parent] + [n]] else children;
    var children' := linked + (if it.kind == Dataset then map[n := []] else map[]);
    assert n !in children;
    assert forall d :: d in linked ==> d in children' && children'[d] == linked[d];
    AddChildEntries(items, uidMap, children, pinned, n, it, linked, children');
    AddChildLinks(items, uidMap, children, pinned, n, it, linked, children');
  }

  /** After `add`, every `children` list is still duplicate-free and lists
      only live children of its Dataset. */
  lemma AddChildEntries(items: map<Uid, Item>, uidMap: set<(Kind, Uid)>, children: map<Uid, seq<Uid>>, pinned: set<Uid>,
                        n: Uid, it: Item, linked: map<Uid, seq<Uid>>, children': map<Uid, seq<Uid>>)
    requires ChildListsOk(items, uidMap, children, pinned) && n !in items && n !in children
    requires it.parent != 0 ==> it.parent in items && items[it.parent].kind == Dataset
    requires linked == if it.parent != 0 then children[it.parent := children[it.parent] + [n]] else children
    requires children' == linked + (if it.kind == Dataset then map[n := []] else map[])
    requires forall d :: d in linked ==> d in children' && children'[d] == linked[d]
    ensures forall d :: d in children' <==> d in items[n := it] && items[n := it][d].kind == Dataset
    ensures forall d :: d in children' ==> Distinct(children'[d])
    ensures forall d, c :: d in children' && c in children'[d] ==>
              c in items[n := it] && items[n := it][c].parent == d && (items[n := it][c].kind, c) in uidMap + {(it.kind, n)}
  {
    var items' := items[n := it];
    var uidMap' := uidMap + {(it.kind, n)};
    assert forall d :: d in children && d != it.parent ==> n !in children[d];
    forall d | d in children' ensures Distinct(children'[d]) {
      if d == it.parent && it.parent != 0 {
        assert n !in children[d];
      }
    }
    forall d, c | d in children' && c in children'[d]
      ensures c in items' && items'[c].parent == d && (items'[c].kind, c) in uidMap'
    {
      if d != n && c != n {
        assert c in children[d] by {
          if d == it.parent && it.parent != 0 { assert linked[d] == children[d] + [n]; }
        }
      }
    }
  }

  /** After `add`, every live child, the new item included, is listed by
      its parent. */
  lemma AddChildLinks(items: map<Uid, Item>, uidMap: set<(Kind, Uid)>, children: map<Uid, seq<Uid>>, pinned: set<Uid>,
                      n: Uid, it: Item, linked: map<Uid, seq<Uid>>, children': map<Uid, seq<Uid>>)
    requires ChildListsOk(items, uidMap, children, pinned) && n !in items && n !in children
    requires forall key :: key in uidMap ==> key.1 in items
    requires it.parent != 0 ==> it.parent in items && items[it.parent].kind == Dataset && (Dataset, it.parent) in uidMap
    requires linked == if it.parent != 0 then children[it.parent := children[it.parent] + [n]] else children
    requires forall d :: d in linked ==> d in children' && children'[d] == linked[d]
    ensures forall c {:trigger items[n := it][c].parent} :: c in items[n := it] && items[n := it][c].parent != 0 && (items[n := it][c].kind, c) in uidMap + {(it.kind, n)} ==>
              items[n := it][c].parent in children' && c in children'[items[n := it][c].parent]
              && ((Dataset, items[n := it][c].parent) in uidMap + {(it.kind, n)} || items[n := it][c].parent in pinned)
  {
    var items' := items[n := it];
    var uidMap' := uidMap + {(it.kind, n)};
    forall c | c in items' && items'[c].parent != 0 && (items'[c].kind, c) in uidMap'
      ensures items'[c].parent in children' && c in children'[items'[c].parent]
              && ((Dataset, items'[c].parent) in uidMap' || items'[c].parent in pinned)
    {
      if c != n {
        assert (items[c].kind, c) in uidMap;
      }
    }
  }

  lemma AddLocks(uid: Uid, items: map<Uid, Item>, sems: map<Uid, int>, it: Item)
    requires LocksOk(uid, items, sems) && uid >= 1 && uid !in items
    requires forall u :: u in items ==> items[u].parent != uid
    requires it.parent != 0 ==> it.parent in items
    requires it.kind == Dataset && it.parent == 0 ==> it.lock == uid
    requires it.kind == Dataset && it.parent != 0 ==> it.lock == items[it.parent].lock && items[it.parent].kind == Dataset
    requires it.kind != Dataset ==> it.lock == 0
    ensures LocksOk(uid + 1, items[uid := it], if it.kind == Dataset && it.parent == 0 then sems[uid := 1] else sems)
  {
  }

  /** Adding item `n` adds one child reference to its parent and leaves the
      owners of every other item unchanged. */
  lemma AddOwnersAt(items: map<Uid, Item>, uidMap: set<(Kind, Uid)>, ptrMap: map<(Kind, Ptr), Uid>,
                    weak: set<Uid>, pinned: set<Uid>, n: Uid, it: Item, u: Uid)
    requires n !in items && u in items
    requires (it.kind, it.ptr) !in ptrMap
    ensures Owners(items[n := it], uidMap + {(it.kind, n)}, ptrMap[(it.kind, it.ptr) := n], weak + {n}, pinned, u)
            == Owners(items, uidMap, ptrMap, weak, pinned, u) + Flag(u == it.parent)
  {
    var items' := items[n := it];
    if u == it.parent {
      assert ChildRefs(items', u) == ChildRefs(items, u) + {n};
      assert n !in ChildRefs(items, u);
    } else {
      assert ChildRefs(items', u) == ChildRefs(items, u);
    }
  }

  lemma AddCounts(items: map<Uid, Item>, uidMap: set<(Kind, Uid)>, ptrMap: map<(Kind, Ptr), Uid>,
                  weak: set<Uid>, pinned: set<Uid>, refs: map<Uid, int>, n: Uid, it: Item)
    requires CountsOk(items, uidMap, ptrMap, weak, pinned, refs, 0) && n !in items && 0 !in items
    requires forall u :: u in items ==> items[u].parent != n
    requires it.parent != n && n !in pinned && n !in weak
    requires (it.kind, it.ptr) !in ptrMap
    requires it.parent != 0 ==> it.parent in items
    ensures CountsOk(items[n := it], uidMap + {(it.kind, n)}, ptrMap[(it.kind, it.ptr) := n], weak + {n}, pinned,
                     if it.parent != 0 then refs[it.parent := refs[it.parent] + 1][n := 3] else refs[n := 3], 0)
  {
    var items' := items[n := it];
    var refs' := if it.parent != 0 then refs[it.parent := refs[it.parent] + 1][n := 3] else refs[n := 3];
    assert forall c :: c in items' ==> items'[c].parent != n;
    assert ChildRefs(items', n) == {};
    forall u | u in items'
      ensures refs'[u] == Owners(items', uidMap + {(it.kind, n)}, ptrMap[(it.kind, it.ptr) := n], weak + {n}, pinned, u)
      ensures refs'[u] > 0
    {
      if u != n {
        AddOwnersAt(items, uidMap, ptrMap, weak, pinned, n, it, u);
        assert refs'[u] == refs[u] + Flag(u == it.parent);
      } else {
        assert refs'[u] == 3;
      }
    }
  }

  lemma AddHistory(uid: Uid, items: map<Uid, Item>, log: seq<Teardown>, it: Item)
    requires HistoryOk(uid, items, log)
    ensures HistoryOk(uid + 1, items[uid := it], log)
  {
  }

  /** The state of the store: the fields of `ObjectStore` (`uid`, the uid
      and pointer maps) together with the `ObjectStoreItem`s still in memory,
      their `children` lists, the semaphore counts, and the bookkeeping of
      `shared_ptr` ownership and destructor runs. */
  datatype StoreState = StoreState(
    /** The next uid to hand out (`ObjectStore::uid`). */
    uid: Uid,
    /** The `ObjectStoreItem`s still in memory, by uid. */
    items: map<Uid, Item>,
    /** The keys of `uidMap<T>` for every kind T, as (kind, uid); the entry
        holds the item of that uid. */
    uidMap: set<(Kind, Uid)>,
    /** `ptrMap<T>` for every kind T, from (kind, pointer) to the uid of the item. */
    ptrMap: map<(Kind, Ptr), Uid>,
    /** The `children` list of every Dataset item still in memory. */
    children: map<Uid, seq<Uid>>,
    /** The count of every async semaphore, by the uid of its root Dataset. */
    sems: map<Uid, int>,
    /** The `shared_ptr` use count of every item still in memory. */
    refs: map<Uid, int>,
    /** The items whose weak callback has not run yet: the heap `shared_ptr`
        handed to `SetWeak` still exists. */
    weak: set<Uid>,
    /** The items held by the by-value argument of a `dispose` in progress. */
    pinned: set<Uid>,
    /** Every destructor run so far, in order. */
    log: seq<Teardown>)

  /** The object invariant, except that item `dying` may already have lost
      its last owner while its destructor has not run yet. */
  ghost predicate StoreInv(s: StoreState, dying: Uid) {
    && RegistryOk(s.uid, s.items, s.uidMap, s.ptrMap)
    && ParentsOk(s.items)
    && ChildListsOk(s.items, s.uidMap, s.children, s.pinned)
    && LocksOk(s.uid, s.items, s.sems)
    && CountsOk(s.items, s.uidMap, s.ptrMap, s.weak, s.pinned, s.refs, dying)
    && HistoryOk(s.uid, s.items, s.log)
  }

  /** The lock `add` gives a new item. */
  function NewLock(items: map<Uid, Item>, kind: Kind, parent: Uid, n: Uid): Uid
    requires kind == Dataset && parent != 0 ==> parent in items
  {
    if kind != Dataset then 0 else if parent == 0 then n else items[parent].lock
  }

  /** The state after `add` registers item `it` under the next uid. */
  function AddState(s: StoreState, it: Item): (t: StoreState)
    requires it.parent != 0 ==> it.parent in s.children && it.parent in s.refs
    ensures t.uid == s.uid + 1 && t.pinned == s.pinned && t.log == s.log
  {
    var n := s.uid;
    StoreState(n + 1, s.items[n := it], s.uidMap + {(it.kind, n)}, s.ptrMap[(it.kind, it.ptr) := n],
               (if it.parent != 0 then s.children[it.parent := s.children[it.parent] + [n]] else s.children)
               + (if it.kind == Dataset then map[n := []] else map[]),
               if it.kind == Dataset && it.parent == 0 then s.sems[n := 1] else s.sems,
               if it.parent != 0 then s.refs[it.parent := s.refs[it.parent] + 1][n := 3] else s.refs[n := 3],
               s.weak + {n}, s.pinned, s.log)
  }

  /** `add` keeps every part of the invariant: the parts hold of the state
      `AddState` gives. */
  lemma AddParts(uid: Uid, items: map<Uid, Item>, uidMap: set<(Kind, Uid)>, ptrMap: map<(Kind, Ptr), Uid>,
                 children: map<Uid, seq<Uid>>, sems: map<Uid, int>, refs: map<Uid, int>,
                 weak: set<Uid>, pinned: set<Uid>, log: seq<Teardown>, it: Item)
    requires StoreInv(StoreState(uid, items, uidMap, ptrMap, children, sems, refs, weak, pinned, log), 0)
    requires (it.kind, it.ptr) !in ptrMap
    requires it.parent == 0 || (Dataset, it.parent) in uidMap
    requires it.parent != 0 ==> Tracked(it.kind)
    requires it.kind == Layer ==> it.parent != 0
    requires it.lock == NewLock(items, it.kind, it.parent, uid)
    ensures it.parent != 0 ==> it.parent in children && it.parent in refs
    ensures RegistryOk(uid + 1, items[uid := it], uidMap + {(it.kind, uid)}, ptrMap[(it.kind, it.ptr) := uid])
    ensures ParentsOk(items[uid := it])
    ensures ChildListsOk(items[uid := it], uidMap + {(it.kind, uid)},
                         (if it.parent != 0 then children[it.parent := children[it.parent] + [uid]] else children)
                         + (if it.kind == Dataset then map[uid := []] else map[]), pinned)
    ensures LocksOk(uid + 1, items[uid := it], if it.kind == Dataset && it.parent == 0 then sems[uid := 1] else sems)
    ensures CountsOk(items[uid := it], uidMap + {(it.kind, uid)}, ptrMap[(it.kind, it.ptr) := uid], weak + {uid}, pinned,
                     if it.parent != 0 then refs[it.parent := refs[it.parent] + 1][uid := 3] else refs[uid := 3], 0)
    ensures HistoryOk(uid + 1, items[uid := it], log)
  {
    assert uid !in items && 0 !in items;
    assert forall u :: u in items ==> items[u].parent != uid;
    assert uid !in pinned && uid !in weak;
    AddRegistry(uid, items, uidMap, ptrMap, it);
    AddParents(items, uid, it);
    AddChildLists(items, uidMap, children, pinned, uid, it);
    AddLocks(uid, items, sems, it);
    AddCounts(items, uidMap, ptrMap, weak, pinned, refs, uid, it);
    AddHistory(uid, items, log, it);
  }

  // ---- `dispose`: the erase steps, dropping a `shared_ptr`, and the destructors

  /** The erase steps of both `dispose` overloads, taken after the by-value
      argument has copied the `shared_ptr` to `u`: the uid-map entry of `u`
      and the pointer-map entry under its pointer are erased, each dropping
      the reference it held, and `u` leaves its parent's `children`. The
      pointer-map entry is erased whichever item it holds. */
  /** The `children` lists once `u` has left its parent's. */
  function Unlinked(items: map<Uid, Item>, children: map<Uid, seq<Uid>>, u: Uid): map<Uid, seq<Uid>>
    requires u in items
    requires items[u].parent != 0 ==> items[u].parent in children
  {
    var p := items[u].parent;
    if p != 0 then children[p := Without(children[p], u)] else children
  }

  function UnregisterState(s: StoreState, u: Uid): StoreState
    requires u in s.items
    requires s.items[u].parent != 0 ==> s.items[u].parent in s.children
  {
    var it := s.items[u];
    StoreState(s.uid, s.items, s.uidMap - {(it.kind, u)}, s.ptrMap - {(it.kind, it.ptr)},
               Unlinked(s.items, s.children, u),
               s.sems, UnregisterRefs(s.items, s.uidMap, s.ptrMap, s.refs, u),
               s.weak, s.pinned + {u}, s.log)
  }

  /** The counts after the erase steps: `u` gains the by-value copy and
      loses the reference of its uid-map entry, and the item the pointer map
      held under `u`'s pointer loses that entry's reference. */
  function UnregisterRefs(items: map<Uid, Item>, uidMap: set<(Kind, Uid)>, ptrMap: map<(Kind, Ptr), Uid>,
                          refs: map<Uid, int>, u: Uid): map<Uid, int>
    requires u in items
  {
    var key := (items[u].kind, items[u].ptr);
    map w | w in refs :: refs[w] + Flag(w == u) - Flag(w == u && (items[u].kind, u) in uidMap)
                         - Flag(key in ptrMap && ptrMap[key] == w)
  }

  /** The pointer-map entry of an item is the one under its own kind and
      pointer: it is the only key that can lead to it. */
  lemma PtrKeyUnique(uid: Uid, items: map<Uid, Item>, uidMap: set<(Kind, Uid)>, ptrMap: map<(Kind, Ptr), Uid>,
                     key: (Kind, Ptr), w: Uid)
    requires RegistryOk(uid, items, uidMap, ptrMap)
    requires key in ptrMap && ptrMap[key] == w
    ensures w in items && key == (items[w].kind, items[w].ptr)
  {
    assert (key.0, w) in uidMap;
  }

  lemma UnregisterOwnersAt(uid: Uid, items: map<Uid, Item>, uidMap: set<(Kind, Uid)>, ptrMap: map<(Kind, Ptr), Uid>,
                           weak: set<Uid>, pinned: set<Uid>, u: Uid, w: Uid)
    requires RegistryOk(uid, items, uidMap, ptrMap)
    requires u in items && w in items && u !in pinned
    ensures var key := (items[u].kind, items[u].ptr);
            Owners(items, uidMap - {(items[u].kind, u)}, ptrMap - {key}, weak, pinned + {u}, w)
            == Owners(items, uidMap, ptrMap, weak, pinned, w) + Flag(w == u) - Flag(w == u && (items[u].kind, u) in uidMap)
               - Flag(key in ptrMap && ptrMap[key] == w)
  {
    var key := (items[u].kind, items[u].ptr);
    var wkey := (items[w].kind, items[w].ptr);
    if key in ptrMap && ptrMap[key] == w {
      PtrKeyUnique(uid, items, uidMap, ptrMap, key, w);
    }
    if wkey in ptrMap && ptrMap[wkey] == w && wkey == key {
      assert key in ptrMap && ptrMap[key] == w;
    }
  }

  lemma UnregisterCounts(uid: Uid, items: map<Uid, Item>, uidMap: set<(Kind, Uid)>, ptrMap: map<(Kind, Ptr), Uid>,
                         weak: set<Uid>, pinned: set<Uid>, refs: map<Uid, int>, u: Uid,
                         uidMap': set<(Kind, Uid)>, ptrMap': map<(Kind, Ptr), Uid>, refs': map<Uid, int>)
    requires RegistryOk(uid, items, uidMap, ptrMap) && CountsOk(items, uidMap, ptrMap, weak, pinned, refs, 0)
    requires u in items && u !in pinned
    requires uidMap' == uidMap - {(items[u].kind, u)} && ptrMap' == ptrMap - {(items[u].kind, items[u].ptr)}
    requires refs' == UnregisterRefs(items, uidMap, ptrMap, refs, u)
    ensures CountsOk(items, uidMap', ptrMap', weak, pinned + {u}, refs', 0)
  {
    forall w | w in items
      ensures refs'[w] == Owners(items, uidMap', ptrMap', weak, pinned + {u}, w)
      ensures refs'[w] > 0
    {
      UnregisterOwnersAt(uid, items, uidMap, ptrMap, weak, pinned, u, w);
      var key := (items[u].kind, items[u].ptr);
      if key in ptrMap && ptrMap[key] == w {
        UnregisterLive(uid, items, uidMap, ptrMap, u, w);
      }
    }
  }

  /** An item other than `u` that the pointer map holds under `u`'s
      pointer is live. */
  lemma UnregisterLive(uid: Uid, items: map<Uid, Item>, uidMap: set<(Kind, Uid)>, ptrMap: map<(Kind, Ptr), Uid>, u: Uid, w: Uid)
    requires RegistryOk(uid, items, uidMap, ptrMap) && u in items && w in items
    requires (items[u].kind, items[u].ptr) in ptrMap && ptrMap[(items[u].kind, items[u].ptr)] == w
    ensures (items[w].kind, w) in uidMap
  {
  }

  lemma UnregisterRegistry(uid: Uid, items: map<Uid, Item>, uidMap: set<(Kind, Uid)>, ptrMap: map<(Kind, Ptr), Uid>, u: Uid,
                           uidMap': set<(Kind, Uid)>, ptrMap': map<(Kind, Ptr), Uid>)
    requires RegistryOk(uid, items, uidMap, ptrMap) && u in items
    requires uidMap' == uidMap - {(items[u].kind, u)} && ptrMap' == ptrMap - {(items[u].kind, items[u].ptr)}
    ensures RegistryOk(uid, items, uidMap', ptrMap')
  {
    forall key | key in ptrMap && ptrMap[key] == u
      ensures key == (items[u].kind, items[u].ptr)
    {
      PtrKeyUnique(uid, items, uidMap, ptrMap, key, u);
    }
  }

  lemma UnregisterChildLists(items: map<Uid, Item>, uidMap: set<(Kind, Uid)>, children: map<Uid, seq<Uid>>,
                             pinned: set<Uid>, u: Uid, uidMap': set<(Kind, Uid)>, children': map<Uid, seq<Uid>>)
    requires ChildListsOk(items, uidMap, children, pinned) && u in items && 0 !in items
    requires uidMap' == uidMap - {(items[u].kind, u)}
    requires items[u].parent != 0 ==> items[u].parent in children
    requires children' == Unlinked(items, children, u)
    ensures ChildListsOk(items, uidMap', children', pinned + {u})
  {
    UnregisterKeys(items, children, u, children');
    UnregisterEntries(items, uidMap, children, pinned, u, uidMap', children');
    UnregisterLinks(items, uidMap, children, pinned, u, uidMap', children');
  }

  /** The erase steps keep the set of Datasets that have a `children` list. */
  lemma UnregisterKeys(items: map<Uid, Item>, children: map<Uid, seq<Uid>>, u: Uid, children': map<Uid, seq<Uid>>)
    requires forall d :: d in children <==> d in items && items[d].kind == Dataset
    requires u in items
    requires items[u].parent != 0 ==> items[u].parent in children
    requires children' == Unlinked(items, children, u)
    ensures forall d :: d in children' <==> d in items && items[d].kind == Dataset
  {
  }

  /** After the erase steps every `children` list holds only live children
      and stays free of repeats. */
  lemma UnregisterEntries(items: map<Uid, Item>, uidMap: set<(Kind, Uid)>, children: map<Uid, seq<Uid>>,
                          pinned: set<Uid>, u: Uid, uidMap': set<(Kind, Uid)>, children': map<Uid, seq<Uid>>)
    requires ChildListsOk(items, uidMap, children, pinned) && u in items && 0 !in items
    requires uidMap' == uidMap - {(items[u].kind, u)}
    requires items[u].parent != 0 ==> items[u].parent in children
    requires children' == Unlinked(items, children, u)
    ensures forall d :: d in children' ==> d in children && Distinct(children'[d])
    ensures forall d, c :: d in children' && c in children'[d] ==>
              c in items && items[c].parent == d && (items[c].kind, c) in uidMap'
  {
    var p := items[u].parent;
    forall d | d in children'
      ensures d in children && Distinct(children'[d])
      ensures forall c :: c in children'[d] ==> c in children[d] && c != u
    {
      if d == p {
        assert children'[d] == Without(children[d], u);
      } else {
        assert children'[d] == children[d];
        assert forall c :: c in children[d] ==> items[c].parent == d;
      }
    }
  }

  /** After the erase steps every live child is still in its parent's
      list, and its parent is live or being disposed. */
  lemma UnregisterLinks(items: map<Uid, Item>, uidMap: set<(Kind, Uid)>, children: map<Uid, seq<Uid>>,
                        pinned: set<Uid>, u: Uid, uidMap': set<(Kind, Uid)>, children': map<Uid, seq<Uid>>)
    requires ChildListsOk(items, uidMap, children, pinned) && u in items && 0 !in items
    requires uidMap' == uidMap - {(items[u].kind, u)}
    requires items[u].parent != 0 ==> items[u].parent in children
    requires children' == Unlinked(items, children, u)
    ensures forall c {:trigger items[c].parent} :: c in items && items[c].parent != 0 && (items[c].kind, c) in uidMap' ==>
              items[c].parent in children' && c in children'[items[c].parent]
              && ((Dataset, items[c].parent) in uidMap' || items[c].parent in pinned + {u})
  {
    forall c | c in items && items[c].parent != 0 && (items[c].kind, c) in uidMap'
      ensures items[c].parent in children' && c in children'[items[c].parent]
    {
      assert c != u;
      assert c in children[items[c].parent];
      if items[c].parent == items[u].parent {
        assert c in Without(children[items[c].parent], u);
      }
    }
  }

  /** The erase steps keep the invariant, and `u` is then held by the
      dispose in progress. */
  lemma UnregisterStep(s: StoreState, u: Uid)
    requires StoreInv(s, 0) && u in s.items && u !in s.pinned
    ensures s.items[u].parent != 0 ==> s.items[u].parent in s.children
    ensures StoreInv(UnregisterState(s, u), 0)
  {
    assert s.items[u].parent != 0 ==> s.items[u].parent in s.children;
    var t := UnregisterState(s, u);
    assert t.items == s.items && t.uid == s.uid && t.sems == s.sems && t.weak == s.weak && t.log == s.log;
    UnregisterRegistry(s.uid, s.items, s.uidMap, s.ptrMap, u, t.uidMap, t.ptrMap);
    UnregisterChildLists(s.items, s.uidMap, s.children, s.pinned, u, t.uidMap, t.children);
    UnregisterCounts(s.uid, s.items, s.uidMap, s.ptrMap, s.weak, s.pinned, s.refs, u, t.uidMap, t.ptrMap, t.refs);
  }

  /** The by-value argument of a `dispose` returns its `shared_ptr`. */
  function UnpinState(s: StoreState, u: Uid): StoreState
    requires u in s.refs
  {
    StoreState(s.uid, s.items, s.uidMap, s.ptrMap, s.children, s.sems, s.refs[u := s.refs[u] - 1],
               s.weak, s.pinned - {u}, s.log)
  }

  /** `delete item` in the weak callback: the heap `shared_ptr` goes. */
  function UnweakState(s: StoreState, u: Uid): StoreState
    requires u in s.refs
  {
    StoreState(s.uid, s.items, s.uidMap, s.ptrMap, s.children, s.sems, s.refs[u := s.refs[u] - 1],
               s.weak - {u}, s.pinned, s.log)
  }

  lemma DropOwnersAt(items: map<Uid, Item>, uidMap: set<(Kind, Uid)>, ptrMap: map<(Kind, Ptr), Uid>,
                     weak: set<Uid>, pinned: set<Uid>, weak': set<Uid>, pinned': set<Uid>, u: Uid, w: Uid)
    requires w in items
    requires (weak' == weak - {u} && pinned' == pinned && u in weak) || (pinned' == pinned - {u} && weak' == weak && u in pinned)
    ensures Owners(items, uidMap, ptrMap, weak', pinned', w) == Owners(items, uidMap, ptrMap, weak, pinned, w) - Flag(w == u)
  {
  }

  lemma DropCounts(items: map<Uid, Item>, uidMap: set<(Kind, Uid)>, ptrMap: map<(Kind, Ptr), Uid>,
                   weak: set<Uid>, pinned: set<Uid>, refs: map<Uid, int>,
                   weak': set<Uid>, pinned': set<Uid>, refs': map<Uid, int>, u: Uid)
    requires CountsOk(items, uidMap, ptrMap, weak, pinned, refs, 0) && 0 !in items
    requires (weak' == weak - {u} && pinned' == pinned && u in weak) || (pinned' == pinned - {u} && weak' == weak && u in pinned)
    requires u in refs && refs' == refs[u := refs[u] - 1]
    ensures CountsOk(items, uidMap, ptrMap, weak', pinned', refs', u)
  {
    forall w | w in items
      ensures refs'[w] == Owners(items, uidMap, ptrMap, weak', pinned', w) && (refs'[w] > 0 || w == u)
    {
      DropOwnersAt(items, uidMap, ptrMap, weak, pinned, weak', pinned', u, w);
      assert refs'[w] == refs[w] - Flag(w == u);
    }
  }

  /** Once no live item has `u` as its parent, `u` may leave the dispose
      in progress. */
  lemma UnpinChildLists(items: map<Uid, Item>, uidMap: set<(Kind, Uid)>, children: map<Uid, seq<Uid>>,
                        pinned: set<Uid>, u: Uid)
    requires ChildListsOk(items, uidMap, children, pinned)
    requires forall c :: c in items && items[c].parent == u ==> (items[c].kind, c) !in uidMap
    ensures ChildListsOk(items, uidMap, children, pinned - {u})
  {
  }

  /** Dropping the pin of a dispose once no live item has `u` as its
      parent keeps the invariant, with `u` as the one item that may have
      lost its last owner. */
  lemma UnpinStep(s: StoreState, u: Uid)
    requires StoreInv(s, 0) && u in s.pinned
    requires forall c :: c in s.items && s.items[c].parent == u ==> (s.items[c].kind, c) !in s.uidMap
    ensures u in s.items && u in s.refs
    ensures StoreInv(UnpinState(s, u), u)
  {
    var t := UnpinState(s, u);
    DropCounts(s.items, s.uidMap, s.ptrMap, s.weak, s.pinned, s.refs, t.weak, t.pinned, t.refs, u);
    UnpinChildLists(s.items, s.uidMap, s.children, s.pinned, u);
  }

  /** Dropping the heap `shared_ptr` of the weak callback keeps the
      invariant, with `u` as the one item that may have lost its last
      owner. */
  lemma UnweakStep(s: StoreState, u: Uid)
    requires StoreInv(s, 0) && u in s.weak
    ensures u in s.items && u in s.refs
    ensures StoreInv(UnweakState(s, u), u)
  {
    var t := UnweakState(s, u);
    DropCounts(s.items, s.uidMap, s.ptrMap, s.weak, s.pinned, s.refs, t.weak, t.pinned, t.refs, u);
  }

  /** With no item at a zero count, the invariant holds with no item dying. */
  lemma NoneDying(s: StoreState, x: Uid)
    requires StoreInv(s, x) && (x in s.refs ==> s.refs[x] > 0)
    ensures StoreInv(s, 0)
  {
  }

  /** The destructor of item `u`, run when its count reaches 0: its native
      release is logged, it leaves memory, and its `parent` field drops the
      reference it held to the parent. */
  function DestroyOne(s: StoreState, u: Uid): StoreState
    requires u in s.items
    requires s.items[u].kind == Layer ==> s.items[u].parent in s.items
  {
    var it := s.items[u];
    StoreState(s.uid, s.items - {u}, s.uidMap, s.ptrMap, s.children - {u}, s.sems,
               DestroyRefs(s.items, s.refs, u),
               s.weak, s.pinned, s.log + [Teardown(u, it.parent, ActionOf(s.items, u))])
  }

  /** The counts after the destructor of `u`: its own count goes, and its
      parent loses the reference held by `u`'s `parent` field. */
  function DestroyRefs(items: map<Uid, Item>, refs: map<Uid, int>, u: Uid): map<Uid, int>
    requires u in items
  {
    map w | w in refs && w != u :: refs[w] - Flag(w == items[u].parent)
  }

  /** An item with no owner left is in neither map, is held by neither the
      weak callback nor a dispose, and no item in memory names it as its
      parent. */
  lemma Unowned(s: StoreState, u: Uid)
    requires StoreInv(s, u) && u in s.items && s.refs[u] == 0
    ensures forall k :: (k, u) !in s.uidMap
    ensures forall key :: key in s.ptrMap ==> s.ptrMap[key] != u
    ensures u !in s.weak && u !in s.pinned
    ensures forall c :: c in s.items ==> s.items[c].parent != u
  {
    assert ChildRefs(s.items, u) == {};
    assert forall c :: c in s.items && s.items[c].parent == u ==> c in ChildRefs(s.items, u);
    forall key | key in s.ptrMap ensures s.ptrMap[key] != u {
      if s.ptrMap[key] == u { PtrKeyUnique(s.uid, s.items, s.uidMap, s.ptrMap, key, u); }
    }
  }

  lemma DestroyRegistry(uid: Uid, items: map<Uid, Item>, uidMap: set<(Kind, Uid)>, ptrMap: map<(Kind, Ptr), Uid>, u: Uid)
    requires RegistryOk(uid, items, uidMap, ptrMap)
    requires forall k :: (k, u) !in uidMap
    ensures RegistryOk(uid, items - {u}, uidMap, ptrMap)
  {
  }

  lemma DestroyParents(items: map<Uid, Item>, u: Uid)
    requires ParentsOk(items)
    requires forall c :: c in items ==> items[c].parent != u
    ensures ParentsOk(items - {u})
  {
  }

  lemma DestroyChildLists(items: map<Uid, Item>, uidMap: set<(Kind, Uid)>, children: map<Uid, seq<Uid>>,
                          pinned: set<Uid>, u: Uid)
    requires ChildListsOk(items, uidMap, children, pinned)
    requires forall k :: (k, u) !in uidMap
    requires forall c :: c in items ==> items[c].parent != u
    ensures ChildListsOk(items - {u}, uidMap, children - {u}, pinned)
  {
    assert (children - {u}).Keys == children.Keys - {u};
    forall d, c | d in children && c in children[d] ensures c != u {
      assert (items[c].kind, c) in uidMap;
    }
  }

  lemma DestroyLocks(uid: Uid, items: map<Uid, Item>, sems: map<Uid, int>, u: Uid)
    requires LocksOk(uid, items, sems)
    requires forall c :: c in items ==> items[c].parent != u
    ensures LocksOk(uid, items - {u}, sems)
  {
  }

  lemma DestroyCounts(items: map<Uid, Item>, uidMap: set<(Kind, Uid)>, ptrMap: map<(Kind, Ptr), Uid>,
                      weak: set<Uid>, pinned: set<Uid>, refs: map<Uid, int>, u: Uid, refs': map<Uid, int>)
    requires CountsOk(items, uidMap, ptrMap, weak, pinned, refs, u) && u in items
    requires u !in weak && u !in pinned
    requires refs' == DestroyRefs(items, refs, u)
    ensures CountsOk(items - {u}, uidMap, ptrMap, weak, pinned, refs', items[u].parent)
  {
    forall w | w in items - {u}
      ensures refs'[w] == Owners(items - {u}, uidMap, ptrMap, weak, pinned, w)
      ensures refs'[w] > 0 || w == items[u].parent
    {
      DestroyOwnersAt(items, uidMap, ptrMap, weak, pinned, u, w);
    }
  }

  lemma DestroyHistory(uid: Uid, items: map<Uid, Item>, log: seq<Teardown>, u: Uid, e: Teardown)
    requires HistoryOk(uid, items, log)
    requires u in items && 1 <= u < uid && e.uid == u && e.parent < u
    requires e.parent == 0 || e.parent in items - {u}
    ensures HistoryOk(uid, items - {u}, log + [e])
  {
    var log' := log + [e];
    assert forall i :: 0 <= i < |log| ==> log'[i] == log[i];
    DestroyOrdered(items, log, u, e);
    DestroyLogged(uid, items, log, u, e);
  }

  /** Appending the teardown of `u` keeps every child's record before its
      parent's. */
  lemma DestroyOrdered(items: map<Uid, Item>, log: seq<Teardown>, u: Uid, e: Teardown)
    requires forall i :: 0 <= i < |log| ==> log[i].uid !in items
    requires forall i, j :: 0 <= i < |log| && 0 <= j < |log| && log[i].parent == log[j].uid ==> i < j
    requires u in items && e.uid == u && e.parent != u
    requires e.parent == 0 || e.parent in items
    requires forall i :: 0 <= i < |log| ==> 1 <= log[i].uid
    ensures var log' := log + [e];
      forall i, j :: 0 <= i < |log'| && 0 <= j < |log'| && log'[i].parent == log'[j].uid ==> i < j
  {
    var log' := log + [e];
    assert forall k :: 0 <= k < |log| ==> log'[k] == log[k];
    forall i, j | 0 <= i < |log'| && 0 <= j < |log'| && log'[i].parent == log'[j].uid
      ensures i < j
    {
      if j == |log| {
        assert i != j;
      }
    }
  }

  /** Appending the teardown of `u` logs `u` and keeps every other uid
      logged. */
  lemma DestroyLogged(uid: Uid, items: map<Uid, Item>, log: seq<Teardown>, u: Uid, e: Teardown)
    requires forall v :: 1 <= v < uid && v !in items ==> Logged(log, v)
    requires e.uid == u
    ensures forall v :: 1 <= v < uid && v !in items - {u} ==> Logged(log + [e], v)
  {
    var log' := log + [e];
    forall v | 1 <= v < uid && v !in items - {u}
      ensures Logged(log', v)
    {
      if v == u {
        assert log'[|log|].uid == v;
      } else {
        assert Logged(log, v);
        var i :| 0 <= i < |log| && log[i].uid == v;
        assert log'[i].uid == v;
      }
    }
  }

  lemma DestroyOwnersAt(items: map<Uid, Item>, uidMap: set<(Kind, Uid)>, ptrMap: map<(Kind, Ptr), Uid>,
                        weak: set<Uid>, pinned: set<Uid>, u: Uid, w: Uid)
    requires u in items && w in items && w != u
    ensures Owners(items - {u}, uidMap, ptrMap, weak, pinned, w)
            == Owners(items, uidMap, ptrMap, weak, pinned, w) - Flag(w == items[u].parent)
  {
    var items' := items - {u};
    if w == items[u].parent {
      assert ChildRefs(items, w) == ChildRefs(items', w) + {u};
      assert u !in ChildRefs(items', w);
    } else {
      assert ChildRefs(items', w) == ChildRefs(items, w);
    }
  }

  /** Running the destructor of an item nobody owns keeps the invariant,
      with its parent as the item that may have lost its last owner. */
  lemma DestroyStep(s: StoreState, u: Uid)
    requires StoreInv(s, u) && u in s.items && s.refs[u] == 0
    ensures s.items[u].kind == Layer ==> s.items[u].parent in s.items
    ensures s.items[u].parent != 0 ==> 0 < s.items[u].parent < u && s.items[u].parent in s.items - {u}
    ensures StoreInv(DestroyOne(s, u), s.items[u].parent)
  {
    var t := DestroyOne(s, u);
    Unowned(s, u);
    DestroyRegistry(s.uid, s.items, s.uidMap, s.ptrMap, u);
    DestroyParents(s.items, u);
    DestroyChildLists(s.items, s.uidMap, s.children, s.pinned, u);
    DestroyLocks(s.uid, s.items, s.sems, u);
    DestroyCounts(s.items, s.uidMap, s.ptrMap, s.weak, s.pinned, s.refs, u, t.refs);
    DestroyHistory(s.uid, s.items, s.log, u, t.log[|s.log|]);
    assert t.log == s.log + [t.log[|s.log|]];
  }

  /** Every `children` list of `small` is that of the same Dataset in `big`. */
  ghost predicate ListsKept(small: map<Uid, seq<Uid>>, big: map<Uid, seq<Uid>>) {
    forall d :: d in small ==> d in big && small[d] == big[d]
  }

  /** The uid counter, the semaphore counts, the weak-callback holders and
      the dispose holders of `t` are those of `s`. */
  ghost predicate Kept(s: StoreState, t: StoreState) {
    t.uid == s.uid && t.sems == s.sems && t.weak == s.weak && t.pinned == s.pinned
  }

  /** The teardown record of the destructor of `u`. */
  function TeardownOf(items: map<Uid, Item>, u: Uid): Teardown
    requires u in items
    requires items[u].kind == Layer ==> items[u].parent in items
  {
    Teardown(u, items[u].parent, ActionOf(items, u))
  }

  /** What one destructor keeps and changes. */
  lemma DestroyOneKeeps(s: StoreState, u: Uid)
    requires u in s.items
    requires s.items[u].kind == Layer ==> s.items[u].parent in s.items
    ensures var t := DestroyOne(s, u);
            && Kept(s, t) && t.uidMap == s.uidMap && t.ptrMap == s.ptrMap
            && SubMap(t.items, s.items) && u !in t.items
            && ListsKept(t.children, s.children)
            && t.log == s.log + [TeardownOf(s.items, u)]
  {
  }

  lemma ChainTrans(s: StoreState, t1: StoreState, t2: StoreState)
    requires Kept(s, t1) && t1.uidMap == s.uidMap && t1.ptrMap == s.ptrMap
    requires Kept(t1, t2) && t2.uidMap == t1.uidMap && t2.ptrMap == t1.ptrMap
    requires SubMap(t1.items, s.items) && SubMap(t2.items, t1.items)
    requires ListsKept(t1.children, s.children) && ListsKept(t2.children, t1.children)
    ensures Kept(s, t2) && t2.uidMap == s.uidMap && t2.ptrMap == s.ptrMap
    ensures SubMap(t2.items, s.items) && ListsKept(t2.children, s.children)
  {
  }

  /** The chain of destructors started when the count of `u` reaches 0:
      each destructor releases the parent, whose own destructor runs when
      that was its last owner. Only the items in memory, their `children`
      lists and counts, and the teardown log change; the destructor of `u`
      runs first. */
  function DestroyChain(s: StoreState, u: Uid): StoreState
    requires StoreInv(s, u) && u in s.items && s.refs[u] == 0
    decreases u
  {
    DestroyStep(s, u);
    var p := s.items[u].parent;
    var t1 := DestroyOne(s, u);
    if p != 0 && t1.refs[p] == 0 then DestroyChain(t1, p) else t1
  }

  /** The destructor chain started by `u` restores the invariant. */
  lemma {:induction false} DestroyChainInv(s: StoreState, u: Uid)
    requires StoreInv(s, u) && u in s.items && s.refs[u] == 0
    ensures StoreInv(DestroyChain(s, u), 0)
    decreases u
  {
    DestroyStep(s, u);
    var p := s.items[u].parent;
    var t1 := DestroyOne(s, u);
    if p != 0 && t1.refs[p] == 0 {
      DestroyChainInv(t1, p);
    } else {
      NoneDying(t1, p);
    }
  }

  /** The destructor chain started by `u` tears `u` down, then each
      ancestor whose last owner was the child just torn down; it leaves the
      maps, counter, semaphores and holders alone and only drops items. */
  lemma {:induction false} DestroyChainFrame(s: StoreState, u: Uid)
    requires StoreInv(s, u) && u in s.items && s.refs[u] == 0
    ensures var t := DestroyChain(s, u);
            && Kept(s, t) && t.uidMap == s.uidMap && t.ptrMap == s.ptrMap
            && SubMap(t.items, s.items) && u !in t.items
            && ListsKept(t.children, s.children)
    decreases u
  {
    DestroyStep(s, u);
    DestroyOneKeeps(s, u);
    var p := s.items[u].parent;
    var t1 := DestroyOne(s, u);
    if p != 0 && t1.refs[p] == 0 {
      DestroyChainFrame(t1, p);
      ChainTrans(s, t1, DestroyChain(t1, p));
    }
  }

  /** The teardown of `u` is the first record the chain adds to the log. */
  lemma {:induction false} DestroyChainLog(s: StoreState, u: Uid)
    requires StoreInv(s, u) && u in s.items && s.refs[u] == 0
    ensures s.items[u].kind == Layer ==> s.items[u].parent in s.items
    ensures s.log + [TeardownOf(s.items, u)] <= DestroyChain(s, u).log
    decreases u
  {
    DestroyStep(s, u);
    DestroyOneKeeps(s, u);
    var p := s.items[u].parent;
    var t1 := DestroyOne(s, u);
    if p != 0 && t1.refs[p] == 0 {
      DestroyChainLog(t1, p);
      var e2 := TeardownOf(t1.items, p);
      PrefixTrans(t1.log, t1.log + [e2], DestroyChain(t1, p).log);
    }
  }

  lemma PrefixTrans<T>(a: seq<T>, b: seq<T>, c: seq<T>)
    requires a <= b && b <= c
    ensures a <= c
  {
    assert forall i :: 0 <= i < |a| ==> a[i] == b[i] == c[i];
  }

  /** The end of the life of a `shared_ptr` to `u`: when it was the last,
      the destructor chain runs; otherwise nothing happens. */
  function Settle(s: StoreState, u: Uid): (t: StoreState)
    requires StoreInv(s, u) && u in s.items
    ensures StoreInv(t, 0)
    ensures Kept(s, t) && t.uidMap == s.uidMap && t.ptrMap == s.ptrMap
    ensures SubMap(t.items, s.items) && ListsKept(t.children, s.children) && s.log <= t.log
    ensures s.refs[u] != 0 ==> t == s
    ensures s.refs[u] == 0 ==> u !in t.items && (s.items[u].kind == Layer ==> s.items[u].parent in s.items)
                               && s.log + [TeardownOf(s.items, u)] <= t.log
  {
    if s.refs[u] == 0 then
      DestroyChainInv(s, u);
      DestroyChainFrame(s, u);
      DestroyChainLog(s, u);
      DestroyChain(s, u)
    else
      NoneDying(s, u);
      s
  }

  /** Every pointer-map entry of `small` is one of `big`. */
  ghost predicate PtrSub(small: map<(Kind, Ptr), Uid>, big: map<(Kind, Ptr), Uid>) {
    forall key :: key in small ==> key in big && small[key] == big[key]
  }

  /** The uid-map keys of `uidMap` outside the subtree of `d`. */
  ghost function OutsideSubtree(uidMap: set<(Kind, Uid)>, items: map<Uid, Item>, d: Uid): set<(Kind, Uid)> {
    set key | key in uidMap && !InSubtree(items, key.1, d)
  }

  /** The trywait pass of `_tryLockDatasets` on the semaphore counts: one
      `uv_sem_trywait` per lock in order; at the first that fails, one
      `uv_sem_post` for every lock taken so far. It succeeds exactly when
      `TryTakeAll` does, with the counts it gives, and otherwise leaves every
      count as it was. */
  method TrywaitAll(counts: map<Uid, int>, locks: seq<Uid>) returns (ok: bool, after: map<Uid, int>)
    requires forall l :: l in locks ==> l in counts
    ensures ok <==> TryTakeAll(counts, locks).Some?
    ensures ok ==> after == TryTakeAll(counts, locks).value
    ensures !ok ==> after == counts
  {
    var j;
    j, after := TrywaitWhileFree(counts, locks);
    ok := j == |locks|;
    if ok {
      assert locks[j..] == [];
    } else {
      assert TryTakeAll(after, locks[j..]) == None by { assert locks[j..][0] == locks[j]; }
      after := PostAll(after, locks[..j]);
      GivenTaken(counts, locks[..j]);
    }
  }

  /** The `uv_sem_trywait` calls of one pass, up to the first that fails:
      the counts after the first `j` locks were taken. */
  method TrywaitWhileFree(counts: map<Uid, int>, locks: seq<Uid>) returns (j: nat, after: map<Uid, int>)
    requires forall l :: l in locks ==> l in counts
    ensures j <= |locks|
    ensures after == Taken(counts, locks[..j])
    ensures j < |locks| ==> locks[j] in after && after[locks[j]] <= 0
    ensures TryTakeAll(counts, locks) == TryTakeAll(after, locks[j..])
  {
    after := counts;
    j := 0;
    assert Taken(counts, locks[..0]) == counts;
    while j < |locks| && after[locks[j]] > 0
      invariant j <= |locks|
      invariant after == Taken(counts, locks[..j])
      invariant TryTakeAll(counts, locks) == TryTakeAll(after, locks[j..])
    {
      WhileFreeStep(counts, locks, j, after);
      after := after[locks[j] := after[locks[j]] - 1];
      j := j + 1;
    }
  }

  /** One successful `uv_sem_trywait` of the pass. */
  lemma WhileFreeStep(counts: map<Uid, int>, locks: seq<Uid>, j: nat, after: map<Uid, int>)
    requires j < |locks| && forall l :: l in locks ==> l in counts
    requires after == Taken(counts, locks[..j])
    requires TryTakeAll(counts, locks) == TryTakeAll(after, locks[j..])
    requires after[locks[j]] > 0
    ensures after[locks[j] := after[locks[j]] - 1] == Taken(counts, locks[..j + 1])
    ensures TryTakeAll(counts, locks) == TryTakeAll(after[locks[j] := after[locks[j]] - 1], locks[j + 1..])
  {
    var l := locks[j];
    assert locks[j..] == [l] + locks[j + 1..];
    assert locks[..j + 1] == locks[..j] + [l];
    TakenStep(counts, locks[..j], l);
  }

  /** The `uv_sem_post` of every lock taken, in order. */
  method PostAll(sems: map<Uid, int>, locks: seq<Uid>) returns (after: map<Uid, int>)
    requires forall l :: l in locks ==> l in sems
    ensures after == Given(sems, locks)
  {
    after := sems;
    var k := 0;
    assert Given(sems, locks[..0]) == sems;
    while k < |locks|
      invariant k <= |locks|
      invariant after == Given(sems, locks[..k])
    {
      var l := locks[k];
      assert locks[..k + 1] == locks[..k] + [l];
      GivenStep(sems, locks[..k], l);
      after := after[l := after[l] + 1];
      k := k + 1;
    }
    assert locks[..k] == locks;
  }

  /** The first loop of `_tryLockDatasets`: the lock of every uid, in
      order, or the "destroyed" error at the first uid that is not a Dataset
      in the uid map. */
  method CollectLocks(items: map<Uid, Item>, uidMap: set<(Kind, Uid)>, uids: seq<Uid>) returns (r: Result<seq<Uid>>)
    requires forall key :: key in uidMap ==> key.1 in items
    ensures r.Ok? <==> AllDatasets(uidMap, uids)
    ensures r.Err? ==> r.msg == DestroyedMsg
    ensures r.Ok? ==> (forall i :: 0 <= i < |uids| ==> uids[i] in items) && r.value == LocksOf(items, uids)
  {
    var locks: seq<Uid> := [];
    var i := 0;
    while i < |uids|
      invariant 0 <= i <= |uids|
      invariant forall k :: 0 <= k < i ==> (Dataset, uids[k]) in uidMap && uids[k] in items
      invariant locks == LocksOf(items, uids[..i])
    {
      if (Dataset, uids[i]) !in uidMap {
        assert !AllDatasets(uidMap, uids) by {
          var x := uids[i];
          assert x in uids && (Dataset, x) !in uidMap;
        }
        return Err(DestroyedMsg);
      }
      assert uids[..i + 1] == uids[..i] + [uids[i]];
      LocksOfAppend(items, uids[..i], uids[i]);
      locks := locks + [items[uids[i]].lock];
      i := i + 1;
    }
    assert uids[..i] == uids;
    assert AllDatasets(uidMap, uids) by {
      forall v | v in uids ensures (Dataset, v) in uidMap { var k :| 0 <= k < |uids| && uids[k] == v; }
    }
    r := Ok(locks);
  }

  /** A successful pass keeps every count between 0 and 1. */
  lemma PassKeepsLocks(uid: Uid, items: map<Uid, Item>, sems: map<Uid, int>, locks: seq<Uid>)
    requires LocksOk(uid, items, sems)
    requires forall l :: l in locks ==> l in sems
    requires TryTakeAll(sems, locks).Some?
    ensures LocksOk(uid, items, TryTakeAll(sems, locks).value)
  {
    TryTakeAllSpec(sems, locks);
  }

  /** The subtree of an item that is not a Dataset is the item alone, so
      disposing it removes only its own uid-map entry. */
  lemma LeafOutside(uid: Uid, items: map<Uid, Item>, uidMap: set<(Kind, Uid)>, ptrMap: map<(Kind, Ptr), Uid>, u: Uid)
    requires RegistryOk(uid, items, uidMap, ptrMap) && ParentsOk(items)
    requires u in items && items[u].kind != Dataset
    ensures OutsideSubtree(uidMap, items, u) == uidMap - {(items[u].kind, u)}
  {
    forall key | key in uidMap && InSubtree(items, key.1, u) ensures key == (items[u].kind, u) {
      SubtreeOfLeaf(items, key.1, u);
    }
  }

  /** Disposing child `c` of `d` removes only keys of `d`'s subtree, as the
      items were when the dispose of `d` began. */
  lemma OutsideStep(before: set<(Kind, Uid)>, items: map<Uid, Item>, snapshot: map<Uid, Item>,
                    u0: set<(Kind, Uid)>, c: Uid, d: Uid)
    requires SubMap(items, snapshot) && c in items && items[c].parent == d && 0 < d < c
    requires OutsideSubtree(u0, snapshot, d) <= before
    ensures OutsideSubtree(u0, snapshot, d) <= OutsideSubtree(before, items, c)
  {
    assert InSubtree(snapshot, c, d);
    forall key | key in OutsideSubtree(u0, snapshot, d) ensures !InSubtree(items, key.1, c) {
      if InSubtree(items, key.1, c) {
        SubtreeSubMap(items, snapshot, key.1, c);
        SubtreeTrans(snapshot, key.1, c, d);
      }
    }
  }

  /** Once `d`'s `children` list is empty, what is left of the uid map is
      what lay outside `d`'s subtree. */
  lemma DatasetGone(s: StoreState, snapshot: map<Uid, Item>, u0: set<(Kind, Uid)>, d: Uid)
    requires StoreInv(s, 0) && SubMap(s.items, snapshot)
    requires d in s.children && s.children[d] == []
    requires forall p :: p in s.pinned ==> p <= d
    requires s.uidMap <= u0 - {(Dataset, d)} && OutsideSubtree(u0, snapshot, d) <= s.uidMap
    ensures s.uidMap == OutsideSubtree(u0, snapshot, d)
    ensures forall c :: c in s.items && s.items[c].parent == d ==> (s.items[c].kind, c) !in s.uidMap
  {
    forall key | key in s.uidMap ensures !InSubtree(snapshot, key.1, d) {
      var x := key.1;
      assert x in s.items && s.items[x].kind == key.0;
      NoLiveDescendant(s.items, s.uidMap, s.children, s.pinned, snapshot, d, x);
    }
    forall c | c in s.items && s.items[c].parent == d ensures (s.items[c].kind, c) !in s.uidMap {
    }
  }

  /** `u` is registered under one of the kinds that `isAlive` and
      `do_dispose` look up. */
  ghost predicate LiveTracked(s: StoreState, u: Uid) {
    exists k :: Tracked(k) && (k, u) in s.uidMap
  }

  /** `t` is `s` after the subtree of `u` was disposed: the invariant holds,
      the uid map lost exactly the keys of the subtree, the pointer map and
      the items in memory only lost entries, the teardown log only grew,
      and nothing else changed. */
  ghost predicate Removed(s: StoreState, t: StoreState, u: Uid) {
    StoreInv(t, 0) && RemovedFrame(s, t, u) && TornDownSince(s, t)
  }

  /** The part of `Removed` that relates `t` to `s`. */
  ghost predicate RemovedFrame(s: StoreState, t: StoreState, u: Uid) {
    && Kept(s, t) && u in s.items
    && t.uidMap == OutsideSubtree(s.uidMap, s.items, u)
    && PtrSub(t.ptrMap, s.ptrMap) && PtrsKept(s, t, u)
    && ListsFramed(s, t, u)
    && SubMap(t.items, s.items) && s.log <= t.log
  }

  /** The pointer-map keys a dispose of `u` erases: the key of `u` and that
      of every item of `u`'s subtree still in the uid map. The C++ code
      erases a key whichever item the map then holds under it. */
  ghost predicate ErasedBy(s: StoreState, u: Uid, key: (Kind, Ptr))
    requires u in s.items
  {
    || key == (s.items[u].kind, s.items[u].ptr)
    || exists x :: x in s.items && InSubtree(s.items, x, u) && (s.items[x].kind, x) in s.uidMap
                   && key == (s.items[x].kind, s.items[x].ptr)
  }

  /** Every pointer-map entry of `s` under a key the dispose of `u` does
      not erase is in `t`, holding the same uid. */
  ghost predicate PtrsKept(s: StoreState, t: StoreState, u: Uid)
    requires u in s.items
  {
    forall key :: key in s.ptrMap && !ErasedBy(s, u, key) ==> key in t.ptrMap && t.ptrMap[key] == s.ptrMap[key]
  }

  /** The `children` list of every Dataset of `t` outside the subtree of
      `u` is the one it had in `s`, except that `u` has left its parent's. */
  ghost predicate ListsFramed(s: StoreState, t: StoreState, u: Uid)
    requires u in s.items
  {
    && (forall e :: e in t.children && e != s.items[u].parent && !InSubtree(s.items, e, u) ==>
          e in s.children && t.children[e] == s.children[e])
    && (s.items[u].parent != 0 && s.items[u].parent in t.children ==>
          s.items[u].parent in s.children && t.children[s.items[u].parent] == Without(s.children[s.items[u].parent], u))
  }

  /** Every item of `s` that has left memory in `t` was torn down in
      between: its teardown is among the records `t`'s log adds. */
  ghost predicate TornDownSince(s: StoreState, t: StoreState) {
    forall v :: v in s.items && v !in t.items ==> exists i :: |s.log| <= i < |t.log| && t.log[i].uid == v
  }

  /** Between two consistent states with the same uid counter, where the
      log only grew, every item that left memory was torn down in between. */
  lemma TornDownBetween(s: StoreState, t: StoreState)
    requires HistoryOk(s.uid, s.items, s.log) && HistoryOk(t.uid, t.items, t.log)
    requires RegistryOk(s.uid, s.items, s.uidMap, s.ptrMap)
    requires t.uid == s.uid && s.log <= t.log
    ensures TornDownSince(s, t)
  {
    forall v | v in s.items && v !in t.items
      ensures exists i :: |s.log| <= i < |t.log| && t.log[i].uid == v
    {
      assert Logged(t.log, v);
      forall j | 0 <= j < |s.log| ensures t.log[j].uid != v {
        assert s.log[j] == t.log[j];
      }
    }
  }

  /** The erase steps of `dispose(u)` keep every pointer-map entry under
      another key and every `children` list but `u`'s parent's, which loses
      `u`. */
  lemma UnregisterFramed(s: StoreState, u: Uid)
    requires u in s.items && (s.items[u].parent != 0 ==> s.items[u].parent in s.children)
    ensures PtrsKept(s, UnregisterState(s, u), u) && ListsFramed(s, UnregisterState(s, u), u)
  {
  }

  /** A key erased by the dispose of a live child `c` of `d`'s subtree, in
      a later state of `d`'s dispose, is one the dispose of `d` erases. */
  lemma ErasedWithin(s0: StoreState, s1: StoreState, d: Uid, c: Uid, key: (Kind, Ptr))
    requires d in s0.items && SubMap(s1.items, s0.items) && s1.uidMap <= s0.uidMap
    requires c in s1.items && (s1.items[c].kind, c) in s1.uidMap && InSubtree(s0.items, c, d)
    requires ErasedBy(s1, c, key)
    ensures ErasedBy(s0, d, key)
  {
    if key != (s1.items[c].kind, s1.items[c].ptr) {
      var x :| x in s1.items && InSubtree(s1.items, x, c) && (s1.items[x].kind, x) in s1.uidMap
               && key == (s1.items[x].kind, s1.items[x].ptr);
      SubtreeSubMap(s1.items, s0.items, x, c);
      SubtreeTrans(s0.items, x, c, d);
      assert x in s0.items && InSubtree(s0.items, x, d) && (s0.items[x].kind, x) in s0.uidMap;
    } else {
      assert c in s0.items && (s0.items[c].kind, c) in s0.uidMap;
    }
  }

  /** Disposing child `c` of `d` inside the loop of `d`'s dispose keeps the
      pointer-map and `children` frames of that dispose. */
  lemma LoopKeepsStep(s0: StoreState, s1: StoreState, s2: StoreState, d: Uid, c: Uid)
    requires d in s0.items && 0 < d && s0.items[d].parent < d
    requires SubMap(s1.items, s0.items) && s1.uidMap <= s0.uidMap
    requires c in s1.items && s1.items[c].parent == d && d < c && (s1.items[c].kind, c) in s1.uidMap
    requires PtrsKept(s0, s1, d) && ListsFramed(s0, s1, d)
    requires PtrsKept(s1, s2, c) && ListsFramed(s1, s2, c)
    ensures PtrsKept(s0, s2, d) && ListsFramed(s0, s2, d)
  {
    assert InSubtree(s0.items, c, d);
    forall key | key in s0.ptrMap && !ErasedBy(s0, d, key)
      ensures key in s2.ptrMap && s2.ptrMap[key] == s0.ptrMap[key]
    {
      if ErasedBy(s1, c, key) {
        ErasedWithin(s0, s1, d, c, key);
      }
    }
    var p := s0.items[d].parent;
    forall e | e in s2.children && e != p && !InSubtree(s0.items, e, d)
      ensures e in s0.children && s2.children[e] == s0.children[e]
    {
      if InSubtree(s1.items, e, c) {
        SubtreeSubMap(s1.items, s0.items, e, c);
        SubtreeTrans(s0.items, e, c, d);
      }
    }
    if InSubtree(s1.items, p, c) {
      SubtreeAtLeast(s1.items, p, c);
    }
  }

  /** The `delete item` of the weak callback after its dispose of `u`: the
      removal is complete relative to the state without the weak handle. */
  lemma WeakRemoved(s: StoreState, m: StoreState, u: Uid)
    requires StoreInv(s, 0) && u in s.weak && Removed(s, m, u)
    ensures u in m.refs && StoreInv(UnweakState(m, u), u)
    ensures Removed(s.(weak := s.weak - {u}), Settle(UnweakState(m, u), u), u)
  {
    UnweakStep(m, u);
    var b := UnweakState(m, u);
    var t := Settle(b, u);
    var s' := s.(weak := s.weak - {u});
    FramesSettle(s, m, t, u);
    TornDownBetween(s, t);
  }

  /** Frames survive a later step that keeps the pointer map and only drops
      `children` lists. */
  lemma FramesSettle(s0: StoreState, s: StoreState, t: StoreState, u: Uid)
    requires u in s0.items && PtrsKept(s0, s, u) && ListsFramed(s0, s, u)
    requires t.ptrMap == s.ptrMap && ListsKept(t.children, s.children)
    ensures PtrsKept(s0, t, u) && ListsFramed(s0, t, u)
  {
  }

  /** The generic `dispose` of an item `u` that is not a Dataset ends, once
      the by-value argument is gone and the destructors have run, in a state
      where `u` alone is removed. */
  lemma LeafSettled(s0: StoreState, s: StoreState, t: StoreState, u: Uid)
    requires RegistryOk(s0.uid, s0.items, s0.uidMap, s0.ptrMap) && ParentsOk(s0.items)
    requires u in s0.items && s0.items[u].kind != Dataset
    requires s.uid == s0.uid && s.sems == s0.sems && s.weak == s0.weak && s.pinned == s0.pinned
    requires s.items == s0.items && s.log == s0.log
    requires s.uidMap == s0.uidMap - {(s0.items[u].kind, u)} && s.ptrMap == s0.ptrMap - {(s0.items[u].kind, s0.items[u].ptr)}
    requires PtrsKept(s0, s, u) && ListsFramed(s0, s, u)
    requires Kept(s, t) && t.uidMap == s.uidMap && t.ptrMap == s.ptrMap
    requires SubMap(t.items, s.items) && ListsKept(t.children, s.children) && s.log <= t.log
    ensures RemovedFrame(s0, t, u)
  {
    LeafOutside(s0.uid, s0.items, s0.uidMap, s0.ptrMap, u);
    FramesSettle(s0, s, t, u);
  }

  /** The generic `dispose` of an item that is not a Dataset, on the state:
      the erase steps, then the end of the by-value argument. */
  function ItemDisposed(s: StoreState, u: Uid): StoreState
    requires StoreInv(s, 0) && u in s.items && u !in s.pinned && s.items[u].kind != Dataset
  {
    LeafReady(s, u);
    Settle(UnpinState(UnregisterState(s, u), u), u)
  }

  /** The erase steps and the end of the by-value argument of the generic
      `dispose` are defined on a consistent state. */
  lemma LeafReady(s: StoreState, u: Uid)
    requires StoreInv(s, 0) && u in s.items && u !in s.pinned && s.items[u].kind != Dataset
    ensures s.items[u].parent != 0 ==> s.items[u].parent in s.children
    ensures u in UnregisterState(s, u).refs
    ensures StoreInv(UnpinState(UnregisterState(s, u), u), u)
  {
    assert forall c :: c in s.items ==> s.items[c].parent != u;
    UnregisterStep(s, u);
    UnpinStep(UnregisterState(s, u), u);
  }

  /** The generic `dispose` of `u` removes `u` alone. */
  lemma LeafDisposal(s: StoreState, u: Uid)
    requires StoreInv(s, 0) && u in s.items && u !in s.pinned && s.items[u].kind != Dataset
    ensures var t := ItemDisposed(s, u);
            && Removed(s, t, u)
            && t.uidMap == s.uidMap - {(s.items[u].kind, u)}
            && t.ptrMap == s.ptrMap - {(s.items[u].kind, s.items[u].ptr)}
  {
    LeafReady(s, u);
    UnregisterFramed(s, u);
    var b := UnpinState(UnregisterState(s, u), u);
    PinUnpin(s.pinned, u);
    var t := Settle(b, u);
    assert t == ItemDisposed(s, u);
    LeafSettled(s, b, t, u);
    TornDownBetween(s, t);
  }

  /** Holding and then letting go of an item that was not held restores the
      set of holders. */
  lemma PinUnpin(pinned: set<Uid>, u: Uid)
    requires u !in pinned
    ensures pinned + {u} - {u} == pinned
  {
  }

  /** The loop invariant of the Dataset `dispose` of `d`, begun in state
      `s0`: `d` is held by the dispose and out of both maps, and the uid map
      lost only keys of `d`'s subtree; once the uid map is back to its size
      at the start, the `children` list of `d` is empty. */
  ghost predicate DatasetLoopInv(s0: StoreState, s: StoreState, d: Uid) {
    StoreInv(s, 0) && LoopFrame(s0, s, d)
  }

  /** The part of the loop invariant that relates `s` to `s0`. */
  ghost predicate LoopFrame(s0: StoreState, s: StoreState, d: Uid) {
    && s.uid == s0.uid && s.sems == s0.sems && s.weak == s0.weak
    && s.pinned == s0.pinned + {d} && (forall p :: p in s0.pinned ==> p < d)
    && d in s0.items && d in s.items && s.items[d] == s0.items[d] && s0.items[d].kind == Dataset && d in s.children
    && 0 < d && s0.items[d].parent < d
    && SubMap(s.items, s0.items) && s0.log <= s.log
    && PtrsKept(s0, s, d) && ListsFramed(s0, s, d)
    && s.uidMap <= s0.uidMap - {(Dataset, d)} && OutsideSubtree(s0.uidMap, s0.items, d) <= s.uidMap
    && PtrSub(s.ptrMap, s0.ptrMap) && (Dataset, s0.items[d].ptr) !in s.ptrMap
    && (|s.uidMap| < |s0.uidMap| || s.children[d] == [])
  }

  /** A Dataset that is neither in the uid map nor held by a dispose has
      an empty `children` list. */
  lemma NoChildrenUnlessLive(items: map<Uid, Item>, uidMap: set<(Kind, Uid)>, children: map<Uid, seq<Uid>>,
                             pinned: set<Uid>, d: Uid)
    requires ChildListsOk(items, uidMap, children, pinned)
    requires d != 0 && d in children && (Dataset, d) !in uidMap && d !in pinned
    ensures children[d] == []
  {
    if children[d] != [] {
      var c := children[d][0];
      assert c in children[d];
      ChildOf(items, uidMap, children, pinned, d, c);
    }
  }

  /** An entry of a `children` list is a live child of that Dataset. */
  lemma ChildOf(items: map<Uid, Item>, uidMap: set<(Kind, Uid)>, children: map<Uid, seq<Uid>>,
                pinned: set<Uid>, d: Uid, c: Uid)
    requires ChildListsOk(items, uidMap, children, pinned)
    requires d in children && c in children[d]
    ensures c in items && items[c].parent == d && (items[c].kind, c) in uidMap
  {
  }

  /** The state right after the erase steps of the Dataset `dispose` of `d`
      satisfies the loop invariant. */
  lemma DatasetLoopStart(s0: StoreState, s: StoreState, d: Uid)
    requires d in s0.items && s0.items[d].kind == Dataset && d !in s0.pinned
    requires forall p :: p in s0.pinned ==> p < d
    requires StoreInv(s, 0)
    requires s.uid == s0.uid && s.sems == s0.sems && s.weak == s0.weak && s.pinned == s0.pinned + {d}
    requires s.items == s0.items && s.log == s0.log && d in s.children
    requires s.uidMap == s0.uidMap - {(Dataset, d)} && s.ptrMap == s0.ptrMap - {(Dataset, s0.items[d].ptr)}
    requires (Dataset, d) in s0.uidMap || s.children[d] == []
    requires PtrsKept(s0, s, d) && ListsFramed(s0, s, d)
    ensures DatasetLoopInv(s0, s, d)
  {
    if (Dataset, d) in s0.uidMap {
      SubsetCard(s.uidMap, s0.uidMap, (Dataset, d));
    }
    assert InSubtree(s0.items, d, d);
  }

  lemma DatasetLoopEntry(s0: StoreState, d: Uid)
    requires StoreInv(s0, 0) && d in s0.items && s0.items[d].kind == Dataset && d !in s0.pinned
    requires forall p :: p in s0.pinned ==> p < d
    ensures s0.items[d].parent != 0 ==> s0.items[d].parent in s0.children
    ensures DatasetLoopInv(s0, UnregisterState(s0, d), d)
  {
    UnregisterStep(s0, d);
    var s := UnregisterState(s0, d);
    assert d in s0.children && s0.items[d].parent < d;
    UnregisterDataset(s0, d);
    if (Dataset, d) !in s0.uidMap {
      NoChildrenUnlessLive(s0.items, s0.uidMap, s0.children, s0.pinned, d);
    }
    UnregisterFramed(s0, d);
    DatasetLoopStart(s0, s, d);
  }

  /** The erase steps of a Dataset's `dispose` touch only its own uid and
      pointer entries and its parent's `children` list. */
  lemma UnregisterDataset(s0: StoreState, d: Uid)
    requires d in s0.items && s0.items[d].kind == Dataset && d in s0.children && s0.items[d].parent < d
    requires s0.items[d].parent != 0 ==> s0.items[d].parent in s0.children
    ensures var s := UnregisterState(s0, d);
      && s.uid == s0.uid && s.sems == s0.sems && s.weak == s0.weak && s.pinned == s0.pinned + {d}
      && s.items == s0.items && s.log == s0.log && d in s.children && s.children[d] == s0.children[d]
      && s.uidMap == s0.uidMap - {(Dataset, d)} && s.ptrMap == s0.ptrMap - {(Dataset, s0.items[d].ptr)}
  {
  }

  /** The child the loop disposes next is live, younger than every pinned
      item, and disposed under the semaphore of `d`. */
  lemma DatasetLoopChild(s0: StoreState, s: StoreState, d: Uid)
    requires DatasetLoopInv(s0, s, d) && s.children[d] != []
    ensures var c := s.children[d][|s.children[d]| - 1];
            && c in s.items && s.items[c].parent == d && d < c
            && LiveTracked(s, c) && (s.items[c].kind, c) in s.uidMap
            && (forall p :: p in s.pinned ==> p < c)
            && WaitLock(s.items, c) == WaitLock(s0.items, d)
            && |s.uidMap| < |s0.uidMap|
  {
    var c := s.children[d][|s.children[d]| - 1];
    assert c in s.children[d];
    ListedChild(s, d, c);
    assert WaitLock(s0.items, d) == s.items[d].lock;
  }

  /** An item in the `children` list of a Dataset is live under a tracked
      kind, younger than the Dataset, and waits on its semaphore. */
  lemma ListedChild(s: StoreState, d: Uid, c: Uid)
    requires ChildListsOk(s.items, s.uidMap, s.children, s.pinned) && ParentsOk(s.items) && LocksOk(s.uid, s.items, s.sems)
    requires d != 0 && d in s.children && c in s.children[d]
    ensures c in s.items && d in s.items && s.items[c].parent == d && d < c
    ensures LiveTracked(s, c) && (s.items[c].kind, c) in s.uidMap
    ensures WaitLock(s.items, c) == s.items[d].lock
  {
    ChildOf(s.items, s.uidMap, s.children, s.pinned, d, c);
    ChildWaitLock(s.uid, s.items, s.sems, d, c);
    assert Tracked(s.items[c].kind) && (s.items[c].kind, c) in s.uidMap;
  }

  /** A child item of Dataset `d` is disposed under the semaphore of `d`. */
  lemma ChildWaitLock(uid: Uid, items: map<Uid, Item>, sems: map<Uid, int>, d: Uid, c: Uid)
    requires ParentsOk(items) && LocksOk(uid, items, sems)
    requires c in items && items[c].parent == d && d != 0
    ensures d in items && d < c && Tracked(items[c].kind)
    ensures WaitLock(items, c) == items[d].lock
  {
  }

  /** Disposing the last child keeps the loop invariant and shrinks the
      uid map. */
  lemma DatasetLoopStep(s0: StoreState, s1: StoreState, s2: StoreState, d: Uid, c: Uid)
    requires LoopFrame(s0, s1, d) && |s1.uidMap| < |s0.uidMap|
    requires c in s1.items && s1.items[c].parent == d && d < c && (s1.items[c].kind, c) in s1.uidMap
    requires Removed(s1, s2, c) && s2.pinned == s1.pinned
    ensures DatasetLoopInv(s0, s2, d)
    ensures |s2.uidMap| < |s1.uidMap|
  {
    assert InSubtree(s1.items, c, c);
    SubsetCard(s2.uidMap, s1.uidMap, (s1.items[c].kind, c));
    OutsideStep(s1.uidMap, s1.items, s0.items, s0.uidMap, c, d);
    LoopKeepsStep(s0, s1, s2, d, c);
  }

  /** The Dataset `dispose` of `d` ends, once the pin is dropped and the
      destructors have run, in a state where `d`'s subtree is removed. */
  lemma DatasetSettled(s0: StoreState, s: StoreState, t: StoreState, d: Uid)
    requires d !in s0.pinned
    requires s.uid == s0.uid && s.sems == s0.sems && s.weak == s0.weak && s.pinned == s0.pinned + {d}
    requires SubMap(s.items, s0.items) && s0.log <= s.log
    requires PtrSub(s.ptrMap, s0.ptrMap) && d in s0.items && (Dataset, s0.items[d].ptr) !in s.ptrMap
    requires PtrsKept(s0, s, d) && ListsFramed(s0, s, d)
    requires s.uidMap == OutsideSubtree(s0.uidMap, s0.items, d)
    requires StoreInv(t, 0) && t.uid == s.uid && t.sems == s.sems && t.weak == s.weak && t.pinned == s.pinned - {d}
    requires t.uidMap == s.uidMap && t.ptrMap == s.ptrMap && SubMap(t.items, s.items) && s.log <= t.log
    requires ListsKept(t.children, s.children)
    requires TornDownSince(s0, t)
    ensures Removed(s0, t, d) && t.pinned == s0.pinned
    ensures (Dataset, s0.items[d].ptr) !in t.ptrMap
  {
    FramesSettle(s0, s, t, d);
  }

  /** When the `children` list of `d` is empty, the uid map is what lay
      outside `d`'s subtree, so dropping the pin of the dispose and running
      the destructors completes the removal of that subtree. */
  lemma DatasetLoopExit(s0: StoreState, s: StoreState, d: Uid)
    requires StoreInv(s0, 0)
    requires DatasetLoopInv(s0, s, d) && s.children[d] == []
    ensures d in s.refs && StoreInv(UnpinState(s, d), d)
    ensures Removed(s0, Settle(UnpinState(s, d), d), d)
    ensures Settle(UnpinState(s, d), d).pinned == s0.pinned
    ensures (Dataset, s0.items[d].ptr) !in Settle(UnpinState(s, d), d).ptrMap
  {
    DatasetGone(s, s0.items, s0.uidMap, d);
    UnpinStep(s, d);
    TornDownBetween(s0, Settle(UnpinState(s, d), d));
    DatasetSettled(s0, s, Settle(UnpinState(s, d), d), d);
  }

  /** With every count 0 or 1, a pass over a batch of Datasets in the uid
      map succeeds exactly when their semaphores are pairwise distinct and
      all free, and it then leaves each of them at 0. */
  lemma PassBinary(items: map<Uid, Item>, uidMap: set<(Kind, Uid)>, sems: map<Uid, int>, uids: seq<Uid>)
    requires forall key :: key in uidMap ==> key.1 in items && items[key.1].kind == key.0
    requires forall u :: u in items && items[u].kind == Dataset ==> items[u].lock in sems
    requires forall l :: l in sems ==> 0 <= sems[l] <= 1
    requires AllDatasets(uidMap, uids)
    ensures forall i :: 0 <= i < |uids| ==> uids[i] in items
    ensures forall i :: 0 <= i < |uids| ==> items[uids[i]].lock in sems
    ensures var locks := LocksOf(items, uids);
            var p := Pass(items, uidMap, sems, uids);
            (p.0 == Ok(locks) <==>
               (forall i, j :: 0 <= i < j < |uids| ==> locks[i] != locks[j]) &&
               (forall i :: 0 <= i < |uids| ==> sems[locks[i]] == 1))
            && (p.0 != Ok(locks) ==> p == (Ok([]), sems))
            && (p.0 == Ok(locks) ==> forall i :: 0 <= i < |uids| ==> locks[i] in p.1 && p.1[locks[i]] == 0)
  {
    DatasetLocks(items, uidMap, sems, uids);
    var locks := LocksOf(items, uids);
    TryTakeAllBinary(sems, locks);
    TryTakeAllSpec(sems, locks);
    if TryTakeAll(sems, locks).Some? {
      forall i | 0 <= i < |locks| ensures TryTakeAll(sems, locks).value[locks[i]] == 0 {
        MultisetOne(locks, i);
      }
    }
  }

  /** In a list without repetitions, each element occurs once. */
  lemma MultisetOne(s: seq<Uid>, i: int)
    requires 0 <= i < |s| && forall a, b :: 0 <= a < b < |s| ==> s[a] != s[b]
    ensures multiset(s)[s[i]] == 1
  {
    assert s == s[..i] + [s[i]] + s[i + 1..];
    assert multiset(s) == multiset(s[..i]) + multiset{s[i]} + multiset(s[i + 1..]);
    assert s[i] !in multiset(s[..i]);
    assert s[i] !in multiset(s[i + 1..]);
  }

  /** A root Dataset and a Dataset that depends on it share one semaphore,
      so a pass over a batch naming both never takes its locks. */
  lemma PassSharedLockFails(s: StoreState, uids: seq<Uid>, i: int, j: int)
    requires StoreInv(s, 0) && AllDatasets(s.uidMap, uids)
    requires 0 <= i < j < |uids| && uids[i] in s.items && uids[j] in s.items
    requires s.items[uids[i]].lock == s.items[uids[j]].lock
    ensures Pass(s.items, s.uidMap, s.sems, uids) == (Ok([]), s.sems)
  {
    PassBinary(s.items, s.uidMap, s.sems, uids);
    var locks := LocksOf(s.items, uids);
    assert locks[i] == locks[j];
  }

  /** No teardown has run for an item still in memory, and an item that was
      torn down is in neither map and holds no weak callback or dispose. */
  lemma TornDownUnreachable(s: StoreState, i: int)
    requires StoreInv(s, 0) && 0 <= i < |s.log|
    ensures var x := s.log[i].uid;
            && x !in s.items && x !in s.refs && x !in s.weak && x !in s.pinned
            && (forall k :: (k, x) !in s.uidMap)
            && (forall key :: key in s.ptrMap ==> s.ptrMap[key] != x)
  {
    var x := s.log[i].uid;
    forall key | key in s.ptrMap ensures s.ptrMap[key] != x {
      assert (key.0, s.ptrMap[key]) in s.uidMap;
    }
  }

  /** An item in memory that has left both maps and holds no weak callback
      and no dispose is kept alive by a child that is still in memory. */
  lemma KeptByChild(s: StoreState, u: Uid)
    requires StoreInv(s, 0) && u in s.items && u !in s.weak && u !in s.pinned
    requires (s.items[u].kind, u) !in s.uidMap
    requires forall key :: key in s.ptrMap ==> s.ptrMap[key] != u
    ensures exists c :: c in s.items && s.items[c].parent == u
  {
    var it := s.items[u];
    assert s.refs[u] > 0;
    assert !((it.kind, it.ptr) in s.ptrMap && s.ptrMap[(it.kind, it.ptr)] == u);
    var cs := ChildRefs(s.items, u);
    assert |cs| > 0;
    var c := PickOne(cs);
  }

  /** Some element of a non-empty set. */
  lemma PickOne(cs: set<Uid>) returns (c: Uid)
    requires |cs| > 0
    ensures c in cs
  {
    if forall x :: x !in cs { }  // the case split exposes a member of cs
    c :| c in cs;
  }

  class Store {
    var st: StoreState

    /** The object invariant, except that item `dying` may already have lost
        its last owner while its destructor has not run yet. */
    ghost predicate Inv(dying: Uid)
      reads this
    {
      StoreInv(st, dying)
    }

    /** The invariant between calls: no dispose is in progress. */
    ghost predicate Valid()
      reads this
    {
      Inv(0) && st.pinned == {}
    }

    /** The semaphore a dispose of `u` waits on is free, so `uv_sem_wait`
        returns at once. */
    ghost predicate WaitFree(u: Uid)
      reads this
    {
      var l := WaitLock(st.items, u);
      l == 0 || (l in st.sems && st.sems[l] == 1)
    }

    constructor ()
      ensures Valid()
      ensures st == StoreState(1, map[], {}, map[], map[], map[], map[], {}, {}, [])
    {
      st := StoreState(1, map[], {}, map[], map[], map[], map[], {}, {}, []);
    }

    /** `has`: an item of this kind is registered under `ptr`. */
    function Has(kind: Kind, ptr: Ptr): (b: bool)
      reads this
      ensures Valid() && b ==> exists u :: u in st.items && (kind, u) in st.uidMap && st.items[u].ptr == ptr
    {
      (kind, ptr) in st.ptrMap
    }

    /** `get`: the wrapper object registered under `ptr`; it is that of an
        item of this kind still in the uid map whose native pointer is `ptr`.
        The C++ code indexes the map with `operator[]`, so the pointer must be
        registered. */
    function Get(kind: Kind, ptr: Ptr): (o: Obj)
      reads this
      requires Valid() && Has(kind, ptr)
      ensures exists u :: u in st.items && (kind, u) in st.uidMap && st.items[u].ptr == ptr && st.items[u].obj == o
    {
      var u := st.ptrMap[(kind, ptr)];
      assert u in st.items && (kind, u) in st.uidMap && st.items[u].ptr == ptr;
      st.items[u].obj
    }

    /** `isAlive`: 0 is always alive; any other uid is alive while it is in
        the uid map of one of the tracked kinds (drivers and spatial
        references are not looked at). */
    function IsAlive(u: Uid): (r: bool)
      reads this
      ensures r <==> u == 0 || LiveTracked(st, u)
    {
      var m := st.uidMap;
      assert (RasterBand, u) in m ==> Tracked(RasterBand);
      u == 0 || (RasterBand, u) in m || (Layer, u) in m || (Dataset, u) in m
      || (Group, u) in m || (MDArray, u) in m || (Dimension, u) in m || (Attribute, u) in m
    }

    /** The generic `dispose`, for an item of any kind but Dataset: with the
        parent Dataset's semaphore held, the pointer-map and uid-map entries
        are erased and the item leaves its parent's `children`; then the
        by-value argument lets go of the item. */
    method DisposeItem(u: Uid)
      requires Inv(0) && u in st.items && u !in st.pinned && st.items[u].kind != Dataset
      requires WaitFree(u)
      modifies this
      ensures Removed(old(st), st, u)
      ensures st.uidMap == old(st.uidMap) - {(old(st.items)[u].kind, u)}
      ensures st.ptrMap == old(st.ptrMap) - {(old(st.items)[u].kind, old(st.items)[u].ptr)}
    {
      LeafDisposal(st, u);
      st := ItemDisposed(st, u);
    }

    /** The Dataset `dispose`: with its semaphore held, the Dataset's map
        entries are erased and it leaves its parent's `children`; then every
        child still in its `children` list is disposed, last first, until
        the list is empty; then the by-value argument lets go of it. */
    method DisposeDataset(d: Uid)
      requires Inv(0) && d in st.items && st.items[d].kind == Dataset && d !in st.pinned
      requires forall p :: p in st.pinned ==> p < d
      requires WaitFree(d)
      modifies this
      decreases |st.uidMap|, 1
      ensures Removed(old(st), st, d) && st.pinned == old(st.pinned)
      ensures (Dataset, old(st.items)[d].ptr) !in st.ptrMap
    {
      ghost var s0 := st;
      DatasetLoopEntry(st, d);
      st := UnregisterState(st, d);
      while st.children[d] != []
        invariant DatasetLoopInv(s0, st, d)
        decreases |st.uidMap|
      {
        DisposeLastChild(s0, d);
      }
      DatasetLoopExit(s0, st, d);
      st := Settle(UnpinState(st, d), d);
    }

    /** One turn of the loop of the Dataset `dispose` of `d`: the last
        entry of `d`'s `children` list is disposed, with its subtree. */
    method DisposeLastChild(ghost s0: StoreState, d: Uid)
      requires DatasetLoopInv(s0, st, d) && st.children[d] != []
      requires var l := WaitLock(s0.items, d); l == 0 || (l in s0.sems && s0.sems[l] == 1)
      modifies this
      decreases |st.uidMap|, 3
      ensures DatasetLoopInv(s0, st, d)
      ensures |st.uidMap| < |old(st.uidMap)|
    {
      var c := st.children[d][|st.children[d]| - 1];
      DatasetLoopChild(s0, st, d);
      ghost var s1 := st;
      DoDispose(c);
      DatasetLoopStep(s0, s1, st, d, c);
    }

    /** `do_dispose`: the item registered under `u` in the uid map of a
        tracked kind is disposed, a Dataset with its subtree; any other uid
        is left alone. */
    method DoDispose(u: Uid)
      requires Inv(0) && (forall p :: p in st.pinned ==> p < u)
      requires WaitFree(u)
      modifies this
      decreases |st.uidMap|, 2
      ensures old(LiveTracked(st, u)) ==> Removed(old(st), st, u) && st.pinned == old(st.pinned)
      ensures !old(LiveTracked(st, u)) ==> st == old(st)
    {
      var m := st.uidMap;
      if (Dataset, u) in m {
        DisposeDataset(u);
      } else if (Layer, u) in m || (RasterBand, u) in m || (Group, u) in m || (MDArray, u) in m
             || (Dimension, u) in m || (Attribute, u) in m {
        DisposeItem(u);
      } else {
        assert !LiveTracked(st, u) by {
          forall k | Tracked(k) ensures (k, u) !in m { }
        }
      }
    }

    /** `dispose(uid)`, the explicit disposal from the C++ destructor of a
        wrapper: every item of the subtree of `u` leaves the uid map, so `u`
        is no longer alive, and a second call changes nothing. */
    method Dispose(u: Uid)
      requires Valid() && WaitFree(u)
      modifies this
      ensures Valid() && !LiveTracked(st, u)
      ensures old(LiveTracked(st, u)) ==> Removed(old(st), st, u)
      ensures !old(LiveTracked(st, u)) ==> st == old(st)
    {
      DoDispose(u);
      assert forall k :: (k, u) in old(st.uidMap) ==> InSubtree(old(st.items), u, u);
    }

    /** `weakCallback`: the GC has collected the wrapper of `u`; the item is
        disposed (again, if `dispose` already ran), then the heap
        `shared_ptr` handed to `SetWeak` is deleted, which runs the
        destructor when nothing else owns the item any more. */
    method WeakCallback(u: Uid)
      requires Valid() && u in st.weak && WaitFree(u)
      modifies this
      ensures Valid()
      ensures Removed(old(st).(weak := old(st.weak) - {u}), st, u)
    {
      ghost var s0 := st;
      if st.items[u].kind == Dataset {
        DisposeDataset(u);
      } else {
        DisposeItem(u);
      }
      WeakRemoved(s0, st, u);
      st := Settle(UnweakState(st, u), u);
    }

    /** The three `add` overloads. The generic one registers the item in
        both maps, links it into its parent's `children` and hands the weak
        callback a heap `shared_ptr`; the Layer overload also records
        `is_result_set`; the Dataset overload gives a root Dataset a fresh
        semaphore of count 1 and a dependent Dataset its parent's. The
        C++ code overwrites `ptrMap[ptr]` when the pointer is already
        registered; its callers check `has` first, which the model requires.
        The parent must be a Dataset in the uid map (the C++ code reads
        `uidMap<GDALDataset *>[parent_uid]`), a Layer must have one (its
        destructor reads `parent->ptr`), and a child must be of a tracked
        kind, or the Dataset dispose loop could never remove it. */
    method Add(kind: Kind, ptr: Ptr, obj: Obj, parentUid: Uid, isResultSet: bool) returns (r: Uid)
      requires Valid()
      requires !Has(kind, ptr)
      requires parentUid == 0 || (Dataset, parentUid) in st.uidMap
      requires parentUid != 0 ==> Tracked(kind)
      requires kind == Layer ==> parentUid != 0
      requires kind != Layer ==> !isResultSet
      modifies this
      ensures Valid()
      ensures r == old(st.uid) && r !in old(st.items) && forall v :: v in old(st.items) ==> v < r
      ensures st == AddState(old(st), Item(kind, ptr, obj, parentUid, NewLock(old(st.items), kind, parentUid, r), isResultSet))
      ensures Has(kind, ptr) && Get(kind, ptr) == obj
      ensures Tracked(kind) <==> IsAlive(r)
    {
      r := st.uid;
      var it := Item(kind, ptr, obj, parentUid, NewLock(st.items, kind, parentUid, r), isResultSet);
      AddParts(st.uid, st.items, st.uidMap, st.ptrMap, st.children, st.sems, st.refs, st.weak, st.pinned, st.log, it);
      st := AddState(st, it);
    }

    /** `tryLockDataset`: one `uv_sem_trywait` on the semaphore of a Dataset
        in the uid map; the lock when the count was positive, none when it
        was 0, and the "destroyed" error for any other uid. */
    method TryLockDataset(u: Uid) returns (r: Result<Option<Uid>>)
      requires Valid()
      modifies this
      ensures Valid()
      ensures (Dataset, u) !in old(st.uidMap) ==> r == Err(DestroyedMsg) && st == old(st)
      ensures (Dataset, u) in old(st.uidMap) ==>
                var l := old(st.items)[u].lock;
                if old(st.sems)[l] > 0 then r == Ok(Some(l)) && st == old(st).(sems := old(st.sems)[l := old(st.sems)[l] - 1])
                else r == Ok(None) && st == old(st)
    {
      if (Dataset, u) !in st.uidMap {
        return Err(DestroyedMsg);
      }
      var l := st.items[u].lock;
      if st.sems[l] > 0 {
        st := st.(sems := st.sems[l := st.sems[l] - 1]);
        r := Ok(Some(l));
      } else {
        r := Ok(None);
      }
    }

    /** `lockDataset`, for the case where its loop does not wait: the
        semaphore of a Dataset in the uid map is taken; any other uid is the
        "destroyed" error. A taken semaphore would make the C++ code wait on
        the master condition until another thread posts it, which the model
        leaves out by requiring it free. */
    method LockDataset(u: Uid) returns (r: Result<Uid>)
      requires Valid()
      requires (Dataset, u) in st.uidMap ==> st.sems[st.items[u].lock] > 0
      modifies this
      ensures Valid()
      ensures (Dataset, u) !in old(st.uidMap) ==> r == Err(DestroyedMsg) && st == old(st)
      ensures (Dataset, u) in old(st.uidMap) ==>
                var l := old(st.items)[u].lock;
                r == Ok(l) && st == old(st).(sems := old(st.sems)[l := old(st.sems)[l] - 1])
    {
      var t := TryLockDataset(u);
      if t.Err? {
        return Err(t.msg);
      }
      r := Ok(t.value.value);
    }

    /** `_tryLockDatasets`: first every uid is looked up in the Dataset uid
        map, and the first that is missing throws before any lock is taken;
        then one pass of `uv_sem_trywait` over their locks in order, which on
        the first failure posts back every lock it took and returns nothing.
        The outcome is the one `Pass` describes. */
    method TryLockPass(uids: seq<Uid>) returns (r: Result<seq<Uid>>)
      requires Valid()
      modifies this
      ensures Valid()
      ensures (r, st.sems) == Pass(old(st.items), old(st.uidMap), old(st.sems), uids)
      ensures st == old(st).(sems := st.sems)
    {
      var c := CollectLocks(st.items, st.uidMap, uids);
      if c.Err? {
        return Err(c.msg);
      }
      DatasetLocks(st.items, st.uidMap, st.sems, uids);
      var ok, after := TrywaitAll(st.sems, c.value);
      if ok {
        PassKeepsLocks(st.uid, st.items, st.sems, c.value);
        st := st.(sems := after);
        return Ok(c.value);
      }
      r := Ok([]);
    }
      /** `tryLockDatasets`: the batch is normalised; an empty batch needs no
        lock, any other is locked by one pass of `_tryLockDatasets`. The
        C++ code reads `uids.front()` unchecked, so the batch must not be
        empty. */
    method TryLockDatasets(uids: seq<Uid>) returns (r: Result<seq<Uid>>)
      requires Valid() && |uids| > 0
      modifies this
      ensures Valid()
      ensures Normalize(uids) == [] ==> r == Ok([]) && st == old(st)
      ensures Normalize(uids) != [] ==> (r, st.sems) == Pass(old(st.items), old(st.uidMap), old(st.sems), Normalize(uids))
      ensures st == old(st).(sems := st.sems)
    {
      var n := Normalize(uids);
      if n == [] {
        return Ok([]);
      }
      r := TryLockPass(n);
    }

    /** `lockDatasets`, for the case where its loop does not wait: the first
        pass over the normalised batch either throws or takes every lock. A
        failed pass would make the C++ code wait on the master condition and
        try again, which the model leaves out by requiring that it does not
        fail. */
    method LockDatasets(uids: seq<Uid>) returns (r: Result<seq<Uid>>)
      requires Valid() && |uids| > 0
      requires Normalize(uids) != [] ==> Pass(st.items, st.uidMap, st.sems, Normalize(uids)).0 != Ok([])
      modifies this
      ensures Valid()
      ensures Normalize(uids) == [] ==> r == Ok([]) && st == old(st)
      ensures Normalize(uids) != [] ==> (r, st.sems) == Pass(old(st.items), old(st.uidMap), old(st.sems), Normalize(uids))
      ensures r.Ok? && Normalize(uids) != [] ==> r.value != []
      ensures st == old(st).(sems := st.sems)
    {
      r := TryLockDatasets(uids);
    }
  }
}
