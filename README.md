# node-gdal-async core, modelled in Dafny

This project models the parts of the node-gdal-async bindings where the
program's correctness lives. It has seven modules, one per file.

- `ObjectStore` (`object_store.dfy`) models the object store in
  `src/utils/ptr_manager.cpp`. The store registers every native GDAL
  object handed to JavaScript under a fresh uid. It looks objects up by
  pointer. It keeps the parent/child tree between Datasets and their
  bands, layers, groups, arrays, dimensions and attributes. It gives every
  root Dataset a binary semaphore, which its dependent Datasets share.
  Disposal removes an object and its whole subtree from the maps.
  - The class `Store` holds the whole store state as a value. This covers
    the per-kind uid and pointer maps, the `children` lists and the
    semaphore counts. It also covers the `shared_ptr` reference counts and
    their owners: map entries, the weak-callback heap copy, a dispose in
    progress and the parent links of children.
  - The store state also keeps the log of destructor runs: `GDALClose`,
    `ReleaseResultSet`, or nothing.
  - Every method keeps the store invariant `StoreInv`.
    - Each count equals its number of owners.
    - An item leaves memory exactly when its count reaches zero.
    - A child's destructor runs before its parent's.
    - Every semaphore count is 0 or 1.
    - Every uid handed out that is no longer in memory has a teardown
      record in the log.
  - The store is that of a GDAL 3.1 or later build, with all seven
    tracked kinds.
- `Locking` (`locking.dfy`) is the pure part of the dataset locking. It
  covers the uid normalisation of `lockDatasets`/`tryLockDatasets` (sort,
  unique, drop a leading 0). It also covers the all-or-nothing
  `uv_sem_trywait` pass of `_tryLockDatasets`, stated on a map of
  semaphore counts.
- `Algorithms` (`algorithms.dfy`) covers three things in
  `src/gdal_algorithms.cpp`:
  - the argument checks of `checksumImage`, both on mathematical integers
    and with the C `int` wrap-around they actually use;
  - the `connectedness` option of `sieveFilter` and `polygonize`;
  - the uid lists that `fillNodata`, `contourGenerate`, `sieveFilter` and
    `polygonize` lock.
- `OgrErrors` (`ogr_errors.dfy`) covers `getOGRErrMsg` and the rule of the
  OGRErr-returning method wrappers in `src/gdal_common.hpp`: a non-zero
  code throws its message.
- `ExrDriver` (`exr_driver.dfy`) covers `EXRDriverIdentify`: the
  `EXR:` prefix or the OpenEXR magic number.
- `EdgeEndStar` (`edge_end_star.dfy`) covers GEOS's `EdgeEndStar`. This
  is the star of edge ends around one node of a geometry graph, kept in
  counter-clockwise order.
  - The class `Star` keeps the labels of the edge ends in an `array`. It
    keeps the point-in-area cache `ptInAreaLocation` in a two-element
    `array`.
  - Its methods update both arrays in place, as the C++ does.
  - Each method is proved against a specification function:
    - `Propagation` for `propagateSideLabels`;
    - `SidesConsistent` for `checkAreaLabelsConsistent`;
    - `Resolved`/`FillFor` for the null-label pass of `computeLabelling`.
  - Lemmas state what those functions guarantee.
- `Outcomes` (`outcomes.dfy`) holds the `Option` and `Result` datatypes.

Inputs the model cannot compute are parameters:

- `CPLGetLastErrorMsg()` is the string `lastErrorMsg`.
- `SimplePointInAreaLocator::locate` at the star's node is
  `located: GeomIndex -> Location`. Every edge end of a star shares the
  node's coordinate, so one value per geometry is exact.
- A garbage-collector run is the explicit event `Store.WeakCallback`.

Where the code and its comments disagree, the model follows the code:

- `checksumImage`'s size message says sizes must be "greater than 0", but
  the check at `src/gdal_algorithms.cpp:376-379` accepts 0
  (`Algorithms.ChecksumAcceptsEmptyWindow`).
- `lockDatasets` eliminates "dupes and 0s" only when 0 is the least uid
  (`Locking.Normalize`).
- The header comment of the store speaks of "three `shared_ptr`" per item.
  The model also counts the two owners the code has besides those: the
  by-value argument of a dispose in progress, and the `parent` link of
  every child still in memory.

## Model

| member | source | states |
|---|---|---|
| ObjectStore.Store.constructor | src/utils/ptr_manager.cpp:61-71 | the store starts with uid 1, empty maps, no semaphores and no teardowns, and its invariant holds |
| ObjectStore.Store.Has | src/utils/ptr_manager.cpp:235-237 | a pointer registered under a kind belongs to an item of that kind still in the uid map, holding that pointer |
| ObjectStore.Store.IsAlive | src/utils/ptr_manager.cpp:78-87 | for a GDAL 3.1 or later build: true exactly for uid 0 and for uids in the uid map of one of the seven tracked kinds; Drivers and spatial references never count |
| ObjectStore.Store.Add | src/utils/ptr_manager.cpp:191-233 | returns the old counter, a uid never used before and greater than every earlier one; the new state is `AddState`; afterwards `has` holds for the pointer, `get` returns the object, and the uid is alive iff its kind is tracked; the invariant is kept |
| ObjectStore.AddState | src/utils/ptr_manager.cpp:191-233 | adding advances the uid counter and leaves the dispose holders and the teardown log as they were |
| ObjectStore.AddParts | src/utils/ptr_manager.cpp:191-233 | each part of the invariant holds after `add`: registry, parents, child lists (the child is appended to its parent's list), semaphores (a root Dataset gets a free semaphore), counts (three owners for the new item, one more for its parent), history |
| ObjectStore.AddRegistry | src/utils/ptr_manager.cpp:195-211 | inserting under the next uid keeps the uid and pointer maps consistent with the items |
| ObjectStore.Store.Get | src/utils/ptr_manager.cpp:235-241 | a registered pointer maps to an item in the uid map of that kind holding that pointer, and `get` returns that item's object |
| ObjectStore.PtrKeyUnique | src/utils/ptr_manager.cpp:38-41 | an entry of the pointer map is keyed by its own item's kind and pointer |
| ObjectStore.Store.TryLockDataset | src/utils/ptr_manager.cpp:129-136 | a uid not in the Dataset uid map throws "Parent Dataset object has already been destroyed" and changes nothing; otherwise a free semaphore is taken (count decreased, the lock returned) and a taken one gives null with nothing changed |
| ObjectStore.Store.LockDataset | src/utils/ptr_manager.cpp:94-103 | the same error for a destroyed Dataset; the final successful pass of the wait loop takes the Dataset's semaphore and returns it |
| ObjectStore.CollectLocks | src/utils/ptr_manager.cpp:139-145 | the first loop of `_tryLockDatasets` succeeds iff every uid is a live Dataset, with the locks in uid order; otherwise it throws the destroyed message |
| ObjectStore.Pass | src/utils/ptr_manager.cpp:138-161 | the pass throws iff some uid is not a live Dataset, always with the "destroyed" message; an error or a failed pass leaves every semaphore count as it was |
| ObjectStore.LocksOf | src/utils/ptr_manager.cpp:139-145 | the lock list has one entry per uid, the semaphore of that Dataset |
| ObjectStore.TrywaitAll | src/utils/ptr_manager.cpp:146-160 | the trywait pass succeeds iff `TryTakeAll` does, with the counts it gives; on failure every count is restored |
| ObjectStore.TrywaitWhileFree | src/utils/ptr_manager.cpp:148-151 | the trywaits up to the first failure take exactly the prefix tried, and the failing lock's count is not positive |
| ObjectStore.PostAll | src/utils/ptr_manager.cpp:153-155 | posting the locks taken so far raises each count by the number of times it was taken |
| ObjectStore.Store.TryLockPass | src/utils/ptr_manager.cpp:138-161 | `_tryLockDatasets` under the master lock: result and semaphore counts are those of `Pass`, nothing else changes, the invariant is kept |
| ObjectStore.PassBinary | src/utils/ptr_manager.cpp:138-161 | with 0/1 semaphores the pass returns all the locks iff they are pairwise distinct and all free, and otherwise returns the empty list with the counts unchanged |
| ObjectStore.PassSharedLockFails | src/utils/ptr_manager.cpp:138-161 | two uids whose Datasets share a semaphore (a root Dataset and a dependent one) make every pass fail and change nothing |
| ObjectStore.PassKeepsLocks | src/utils/ptr_manager.cpp:146-160 | a successful pass keeps every count between 0 and 1 |
| ObjectStore.Store.TryLockDatasets | src/utils/ptr_manager.cpp:166-176 | the uids are normalised; an empty result returns the empty list and changes nothing; otherwise the result is the pass on the normalised uids |
| ObjectStore.Store.LockDatasets | src/utils/ptr_manager.cpp:108-124 | the same normalisation and empty case; the pass that ends the wait loop returns a non-empty list of locks taken together |
| ObjectStore.Store.Dispose | src/utils/ptr_manager.cpp:316-320 | afterwards the uid is in no tracked uid map; if it was live its subtree is removed (`Removed`), otherwise nothing changes; the invariant holds. `Removed` states: the uid map loses exactly the keys of the subtree; every pointer-map entry survives unchanged unless its key is that of the item or of a live item of its subtree; every `children` list outside the subtree is unchanged except that the parent's loses the uid; every item that left memory has its teardown among the new log records |
| ObjectStore.Store.DoDispose | src/utils/ptr_manager.cpp:323-340 | dispatches on the first tracked uid map holding the uid: a live uid's subtree is removed (`Removed`, with its pointer-map and `children` frames and the teardown records), an unknown uid changes nothing |
| ObjectStore.Store.DisposeItem | src/utils/ptr_manager.cpp:293-303 | disposing a non-Dataset erases exactly its uid-map and pointer-map entries and unlinks it from its parent's `children`; every other list is kept; destructors run for what lost its last owner, and each is logged |
| ObjectStore.Store.DisposeDataset | src/utils/ptr_manager.cpp:281-290 | disposing a Dataset removes it and its whole subtree from the uid map (`Removed`); its pointer entry is gone, other pointer entries survive unless a live item of the subtree has their key, and Datasets outside the subtree keep their `children` lists, except that the parent Dataset of a dependent Dataset loses its uid; no dispose is left in progress |
| ObjectStore.Store.DisposeLastChild | src/utils/ptr_manager.cpp:289 | one turn of the child loop disposes the last entry of the list, keeps the loop invariant and strictly shrinks the uid map |
| ObjectStore.Store.WeakCallback | src/utils/ptr_manager.cpp:306-313 | the garbage collector's callback disposes the item and drops the heap copy of the `shared_ptr`; the result is `Removed` from the state without that copy, so a second dispose erases the stale pointer-map key and nothing else outside the subtree |
| ObjectStore.Without | src/utils/ptr_manager.cpp:286 | `children.remove(uid)` drops every occurrence of the uid and nothing else, keeps a repetition-free list so, and leaves a list without the uid unchanged |
| ObjectStore.UnregisterStep | src/utils/ptr_manager.cpp:283-286 | erasing an item's map entries and unlinking it from its parent, while the dispose argument holds it, keeps the invariant |
| ObjectStore.UnpinStep | src/utils/ptr_manager.cpp:281-303 | the end of a dispose call drops its by-value argument; the invariant holds with that item possibly at count zero |
| ObjectStore.UnweakStep | src/utils/ptr_manager.cpp:312 | `delete item` in the weak callback drops one owner; the invariant holds with that item possibly at count zero |
| ObjectStore.Unowned | src/utils/ptr_manager.cpp:178-190 | an item at count zero is in no map, not held by a weak callback or a dispose, and no child points to it |
| ObjectStore.DestroyStep | src/utils/ptr_manager.cpp:348-367 | running the destructor of an item at count zero keeps the invariant, with its parent now the item possibly at count zero |
| ObjectStore.ActionOf | src/utils/ptr_manager.cpp:352-367 | the destructor calls `GDALClose` iff it is a Dataset with a non-null pointer, and `ReleaseResultSet` iff it is a Layer holding SQL results |
| ObjectStore.DestroyChainInv | src/utils/ptr_manager.cpp:348-367 | releasing a parent link in a destructor cascades up the parent chain, and afterwards no item is at count zero |
| ObjectStore.DestroyChainFrame | src/utils/ptr_manager.cpp:348-367 | the cascade only removes items and child lists, leaves the maps, semaphores and holders unchanged, and only appends to the log |
| ObjectStore.DestroyChainLog | src/utils/ptr_manager.cpp:348-367 | the first teardown the cascade logs is the item whose count reached zero |
| ObjectStore.Settle | src/utils/ptr_manager.cpp:178-190 | after an owner is dropped the invariant is restored; an item still owned stays as it is, one at count zero is destroyed |
| ObjectStore.LeafDisposal | src/utils/ptr_manager.cpp:293-303 | the whole generic dispose of a non-Dataset, as a state function, ends in `Removed` with exactly its two map entries erased |
| ObjectStore.DatasetLoopEntry | src/utils/ptr_manager.cpp:281-286 | the Dataset's unregistering establishes the invariant of the child loop |
| ObjectStore.DatasetLoopStep | src/utils/ptr_manager.cpp:289 | disposing the last child keeps the loop invariant |
| ObjectStore.ChildWaitLock | src/utils/ptr_manager.cpp:295 | the semaphore a child's dispose waits on is its parent Dataset's |
| ObjectStore.DatasetGone | src/utils/ptr_manager.cpp:289 | when the child list is empty, the uid map holds exactly the keys outside the Dataset's subtree |
| ObjectStore.DatasetLoopExit | src/utils/ptr_manager.cpp:281-290 | leaving the loop and dropping the argument ends in `Removed` for the Dataset's subtree, with its pointer entry gone |
| ObjectStore.UnregisterFramed | src/utils/ptr_manager.cpp:283-286 | the erase steps keep every pointer-map entry under another key and every `children` list except the parent's, which loses the uid |
| ObjectStore.LoopKeepsStep | src/utils/ptr_manager.cpp:289 | disposing one child keeps the pointer-map and `children` frames of the enclosing Dataset dispose |
| ObjectStore.ErasedWithin | src/utils/ptr_manager.cpp:284-296 | a pointer key the dispose of a child erases is one the dispose of its Dataset erases |
| ObjectStore.WeakRemoved | src/utils/ptr_manager.cpp:306-313 | after the callback's dispose, `delete item` and the destructors complete the removal relative to the state without the weak handle |
| ObjectStore.TornDownBetween | src/utils/ptr_manager.cpp:348-367 | between two consistent states where the log only grew, every item that left memory has its teardown among the new records |
| ObjectStore.NoLiveDescendant | src/utils/ptr_manager.cpp:289 | with the child list empty and no dispose below in progress, nothing else of the subtree is in the uid map |
| ObjectStore.NoChildrenUnlessLive | src/utils/ptr_manager.cpp:281-290 | a Dataset that is neither registered nor being disposed has no children left |
| ObjectStore.TornDownUnreachable | src/utils/ptr_manager.cpp:343-349 | a torn-down item is in no map, has no weak handle and no dispose holder, so it can never be handed out again |
| ObjectStore.KeptByChild | src/utils/ptr_manager.cpp:178-190 | an item in memory that no map, weak handle or dispose holds is kept alive by a child still in memory |
| Locking.Normalize | src/utils/ptr_manager.cpp:111-115 | the normalised uids are strictly increasing and hold exactly the given uids, minus 0 when no uid is negative |
| Locking.NormalizeOrderIndependent | src/utils/ptr_manager.cpp:111-115 | two uid lists holding the same uids normalise alike |
| Locking.NormalizeDropsZero | src/utils/ptr_manager.cpp:113 | with non-negative uids, 0 is always dropped and every other uid kept |
| Locking.NormalizeAllZero | src/utils/ptr_manager.cpp:113-114 | a list of zeros lock nothing |
| Locking.TryTakeAll | src/utils/ptr_manager.cpp:146-160 | a successful pass of trywaits keeps the set of semaphores, and an empty lock list always succeeds with the counts unchanged |
| Locking.InsertSorted | src/utils/ptr_manager.cpp:111-112 | insertion keeps the list strictly increasing and adds exactly the new uid |
| Locking.SortUnique | src/utils/ptr_manager.cpp:111-112 | sort plus unique gives a strictly increasing list of exactly the given uids |
| Locking.IncreasingUnique | src/utils/ptr_manager.cpp:111-112 | a strictly increasing list is determined by its elements |
| Locking.TryTakeAllSpec | src/utils/ptr_manager.cpp:146-160 | taking a list of locks succeeds iff no lock is wanted more times than its count, and then each count drops by how often it is wanted |
| Locking.TryTakeAllBinary | src/utils/ptr_manager.cpp:146-160 | with 0/1 counts the take succeeds iff the locks are pairwise distinct and all free |
| Locking.GivenTaken | src/utils/ptr_manager.cpp:153-155 | posting the taken locks restores every count |
| Algorithms.ChecksumRegion | src/gdal_algorithms.cpp:356-383 | an accepted region lies inside the band with its offset on the band; a rejection is a RangeError |
| Algorithms.ChecksumDefaults | src/gdal_algorithms.cpp:360-370 | with no options the region is the whole band, and an empty band is refused with the offset message |
| Algorithms.ChecksumAcceptedIff | src/gdal_algorithms.cpp:372-383 | explicit values are accepted iff they lie inside the band with the offset on the band, and then the region is the one given |
| Algorithms.ChecksumErrorOrder | src/gdal_algorithms.cpp:372-383 | which of the three messages is thrown, each an iff over the values |
| Algorithms.ChecksumAcceptsEmptyWindow | src/gdal_algorithms.cpp:376-379 | a zero width and height pass the size check |
| Algorithms.Wrap32 | src/gdal_algorithms.cpp:380 | two's-complement wrap-around of a C `int` |
| Algorithms.ChecksumRegionInt32 | src/gdal_algorithms.cpp:356-383 | the checks as compiled, with `x + w - 1` and `y + h - 1` wrapping; it still guarantees offset and size within the band |
| Algorithms.ChecksumInt32Overflow | src/gdal_algorithms.cpp:380-383 | a region past the band's right edge that the as-compiled check accepts and the mathematical one refuses |
| Algorithms.ChecksumInt32AgreesOnSmallBands | src/gdal_algorithms.cpp:372-383 | for bands up to 2^30 pixels a side the as-compiled checks agree with the mathematical ones |
| Algorithms.SieveConnectedness | src/gdal_algorithms.cpp:275-290 | accepted connectedness is 4 or 8; other values throw "connectedness option must be 4 or 8" |
| Algorithms.SieveConnectednessIff | src/gdal_algorithms.cpp:275-290 | absent means 4; a given value is accepted iff it is 4 or 8, and is then used as given |
| Algorithms.PolygonizeOptions | src/gdal_algorithms.cpp:451-470 | at most one option string; a bad value throws "connectedness must be 4 or 8" |
| Algorithms.PolygonizeOptionsIff | src/gdal_algorithms.cpp:451-470 | polygonize accepts exactly what sieveFilter accepts, and passes `8CONNECTED=8` iff connectedness is 8 |
| Algorithms.MaskUid | src/gdal_algorithms.cpp:75 | an absent mask stands for uid 0, a present one for its Dataset's uid |
| Algorithms.FillNodataLocks | src/gdal_algorithms.cpp:74-78 | fillNodata locks the source and the mask Dataset |
| Algorithms.ContourLocks | src/gdal_algorithms.cpp:187-208 | contourGenerate locks the source and the destination Dataset |
| Algorithms.SourceTargetMaskLocks | src/gdal_algorithms.cpp:296-307 | sieveFilter and polygonize lock source, destination and mask Dataset, in that order |
| Algorithms.AbsentMaskNotLocked | src/gdal_algorithms.cpp:298-307 | once normalised, an absent mask adds no lock |
| Algorithms.SameDatasetLockedOnce | src/gdal_algorithms.cpp:296-307 | a mask in the source Dataset is locked once, not twice |
| OgrErrors.OgrErrMsg | src/gdal_common.hpp:42-59 | OGRERR_FAILURE reports the library's last message; the other table codes have their own fixed messages; every other code gives "Invalid Error" |
| OgrErrors.TableMessage | src/gdal_common.hpp:48-58 | "Invalid Error" exactly for the codes the switch has no case for |
| OgrErrors.CodeOf | src/gdal_common.hpp:48-58 | the inverse of the fixed messages gives back a table code other than OGRERR_FAILURE |
| OgrErrors.FixedMessagesIdentifyCode | src/gdal_common.hpp:48-58 | every fixed message identifies its code |
| OgrErrors.FixedMessagesDistinct | src/gdal_common.hpp:48-58 | two codes with fixed messages give the same message iff they are the same code |
| OgrErrors.FailureEntryUnreachable | src/gdal_common.hpp:43-55 | "Failure" comes out only for OGRERR_FAILURE when the library's message is "Failure" itself; the table's own entry is never used |
| OgrErrors.InvalidCodes | src/gdal_common.hpp:57 | "Invalid Error" iff the code is outside the table, or the library's message for OGRERR_FAILURE reads so |
| OgrErrors.OgrErrWrapper | src/gdal_common.hpp:550-572 | a destroyed receiver throws "<class> object has already been destroyed"; otherwise the call throws iff the code is non-zero, with the code's message |
| OgrErrors.WrapperNeverThrowsNoError | src/gdal_common.hpp:49 | the code-0 message "No error" is never thrown unless the library's last message, which OGRERR_FAILURE reports, is itself "No error" |
| ExrDriver.MagicIsLittleEndian20000630 | deps/libgdal/gdal/frmts/exr/exrdrivercore.cpp:41-45 | the four magic bytes are 20000630 in little-endian order |
| ExrDriver.ExrPrefixCaseVariants | deps/libgdal/gdal/frmts/exr/exrdrivercore.cpp:37-38 | the prefix test accepts exactly the eight case spellings of "EXR:" |
| ExrDriver.Identify | deps/libgdal/gdal/frmts/exr/exrdrivercore.cpp:34-46 | a file is claimed iff its name has the `EXR:` prefix in any case, or it is open, has at least four header bytes and starts with the magic number |
| ExrDriver.ShortHeaderRejected | deps/libgdal/gdal/frmts/exr/exrdrivercore.cpp:41-42 | fewer than four header bytes are never claimed |
| ExrDriver.NoHandleRejected | deps/libgdal/gdal/frmts/exr/exrdrivercore.cpp:41 | a file without an open handle is never claimed through its header |
| ExrDriver.IdentifyIgnoresTrailingBytes | deps/libgdal/gdal/frmts/exr/exrdrivercore.cpp:41-45 | bytes past the fourth do not change the answer |
| EdgeEndStar.NextCW | deps/libgeos/geos/src/geomgraph/EdgeEndStar.cpp:75-90 | null iff the edge end is not in the star; otherwise the edge end just before it, wrapping from the first to the last |
| EdgeEndStar.NextCWStepsBack | deps/libgeos/geos/src/geomgraph/EdgeEndStar.cpp:75-90 | in a star of distinct edge ends, the clockwise neighbour of the i-th is the one at `Prev(i)`, and differs from it when the star has more than one |
| EdgeEndStar.SetLocation | deps/libgeos/geos/src/geomgraph/EdgeEndStar.cpp:291-293 | setting one position of one geometry changes that location only |
| EdgeEndStar.SetAllIfNull | deps/libgeos/geos/src/geomgraph/EdgeEndStar.cpp:160-166 | filling keeps the shape and every known location, and sets each null position of the shape to the fill location |
| EdgeEndStar.AnyNullIffFillChanges | deps/libgeos/geos/src/geomgraph/EdgeEndStar.cpp:160-166 | with a known fill location, `isAnyNull` holds iff filling changes the location, and afterwards no position is null |
| EdgeEndStar.Star.constructor | deps/libgeos/geos/src/geomgraph/EdgeEndStar.cpp:44-50 | a star holds the given labels and an empty point-in-area cache |
| EdgeEndStar.Star.CheckAreaLabelsConsistent | deps/libgeos/geos/src/geomgraph/EdgeEndStar.cpp:207-253 | true iff the star is empty or, walking counter-clockwise from the last edge's left side, every edge's sides differ and its right side is the location carried from the previous edge |
| EdgeEndStar.ChainedConsistentIff | deps/libgeos/geos/src/geomgraph/EdgeEndStar.cpp:239-248 | on a chained star, consistency reduces to every edge separating two different locations |
| EdgeEndStar.ConsistentStarIsArea | deps/libgeos/geos/src/geomgraph/EdgeEndStar.cpp:207-253 | only a star of area edge ends can pass `checkAreaLabelsConsistent`: a line edge end reads NONE on both sides |
| EdgeEndStar.SingleEdgeInconsistent | deps/libgeos/geos/src/geomgraph/EdgeEndStar.cpp:207-253 | a star of one edge end never passes: its right side would have to be its own left side |
| EdgeEndStar.Star.PropagateSideLabels | deps/libgeos/geos/src/geomgraph/EdgeEndStar.cpp:256-343 | the labels become those of `Propagation` and the result is its outcome (done or side-location conflict at an edge) |
| EdgeEndStar.Propagation | deps/libgeos/geos/src/geomgraph/EdgeEndStar.cpp:256-343 | propagation keeps the number of edges, and a conflict names an edge of the star |
| EdgeEndStar.PropagateFrom | deps/libgeos/geos/src/geomgraph/EdgeEndStar.cpp:286-342 | the propagation loop from one edge end keeps the number of edge ends and reports a conflict only at or after where it started |
| EdgeEndStar.Step | deps/libgeos/geos/src/geomgraph/EdgeEndStar.cpp:287-340 | one edge end: a NONE ON becomes the current location; an area edge end with a right side conflicts iff that side is not the current location and otherwise hands on its left side; one without a right side gets the current location on both sides; a line edge end changes only ON; the other geometry and the edge kind are untouched |
| EdgeEndStar.PropagateLocal | deps/libgeos/geos/src/geomgraph/EdgeEndStar.cpp:285-342 | the loop treats every edge end it reaches as one step with the location `CurrBefore` gives (the left side of the last area edge end before it with a known right side, else the start location), and stops exactly at the first conflict |
| EdgeEndStar.PropagatedLabels | deps/libgeos/geos/src/geomgraph/EdgeEndStar.cpp:285-342 | for a star with a start location, whatever mix of line and area edge ends: each edge end up to the conflict gets ON = `CurrBefore` if ON was NONE, an area edge end without a right side gets `CurrBefore` on both sides, one with a right side keeps both sides, kinds and the other geometry are untouched, and the edge ends after a conflict are unchanged |
| EdgeEndStar.StartLocIsLastLabelled | deps/libgeos/geos/src/geomgraph/EdgeEndStar.cpp:263-283 | the start location is NONE iff no area edge has a left location, and otherwise it is the left location of some labelled area edge (the last one scanned) |
| EdgeEndStar.LastLeftFromSpec | deps/libgeos/geos/src/geomgraph/EdgeEndStar.cpp:270-278 | the start scan keeps its accumulator without a labelled edge, and otherwise ends on a labelled edge's left location |
| EdgeEndStar.PropagationNeedsLabelledEdge | deps/libgeos/geos/src/geomgraph/EdgeEndStar.cpp:279-283 | with no labelled area edge nothing is changed |
| EdgeEndStar.PropagatedChained | deps/libgeos/geos/src/geomgraph/EdgeEndStar.cpp:286-343 | for an all-area star whose edges have both sides or neither, a conflict-free propagation leaves every edge's right side equal to the previous edge's left, cyclically |
| EdgeEndStar.PropagatedConsistentIff | deps/libgeos/geos/src/geomgraph/EdgeEndStar.cpp:207-343 | after such a propagation, `checkAreaLabelsConsistent` holds iff every edge separates two different locations |
| EdgeEndStar.PropagatedConflict | deps/libgeos/geos/src/geomgraph/EdgeEndStar.cpp:306-318 | for any star, line edge ends included: a conflict is reported iff there is a start location and some area edge end has a right side that differs from `CurrBefore` there, and it is reported at the first such edge end |
| EdgeEndStar.PropagateOnlyFills | deps/libgeos/geos/src/geomgraph/EdgeEndStar.cpp:286-343 | when every area edge end knows both sides or neither (what the debug assertion at lines 332-334 demands), propagation only fills NONE positions and never overwrites a location; an area edge end with a known left and a NONE right would have its left overwritten |
| EdgeEndStar.PropagatedFillsAll | deps/libgeos/geos/src/geomgraph/EdgeEndStar.cpp:286-343 | when every area edge end knows both sides or neither: propagation refines every label, and a conflict-free run with a start location leaves no NONE position for that geometry |
| EdgeEndStar.StepFacts | deps/libgeos/geos/src/geomgraph/EdgeEndStar.cpp:297-339 | one step on an area edge end that knows both sides or neither keeps that shape and conflicts iff a known right side differs from the current location; when it does not conflict, the right side becomes the current location and the left side is carried on |
| EdgeEndStar.Star.GetLocation | deps/libgeos/geos/src/geomgraph/EdgeEndStar.cpp:186-196 | the point-in-area location is computed on first demand and cached; the other geometry's entry is untouched |
| EdgeEndStar.CachedStable | deps/libgeos/geos/src/geomgraph/EdgeEndStar.cpp:186-196 | asking again gives the cached answer |
| EdgeEndStar.Star.DimensionalCollapses | deps/libgeos/geos/src/geomgraph/EdgeEndStar.cpp:144-154 | per geometry, true iff some edge end is a line with ON = BOUNDARY |
| EdgeEndStar.HasCollapseEdgeIff | deps/libgeos/geos/src/geomgraph/EdgeEndStar.cpp:144-154 | the collapse flag is set iff such an edge end exists |
| EdgeEndStar.Star.FillEdgeEnd | deps/libgeos/geos/src/geomgraph/EdgeEndStar.cpp:156-169 | one edge end's null positions are set to EXTERIOR after a collapse, or else to the (cached) point-in-area location; the cache is consulted only for a geometry with a null position |
| EdgeEndStar.Star.ResolveNullLabels | deps/libgeos/geos/src/geomgraph/EdgeEndStar.cpp:156-169 | the labels become `Resolved` with each geometry's fill location, and the cache is as `CacheAfter` says |
| EdgeEndStar.Resolved | deps/libgeos/geos/src/geomgraph/EdgeEndStar.cpp:156-169 | every edge end is filled for both geometries, and the count is kept |
| EdgeEndStar.ResolvedComplete | deps/libgeos/geos/src/geomgraph/EdgeEndStar.cpp:156-169 | with known fill locations no label keeps a NONE position, and no location already set is overwritten |
| EdgeEndStar.Star.ComputeLabelling | deps/libgeos/geos/src/geomgraph/EdgeEndStar.cpp:93-170 | propagates geometry 0, then geometry 1, and stops at the first side-location conflict with the labels as far as they got and the cache untouched; otherwise the labels are the resolved ones and each geometry's cache is as `CacheAfter` says: set from the locator iff some edge end had a null location for it and it has no dimensional collapse |

## Left out

- Threads and blocking. `uv_mutex_t`, `uv_cond_wait`/`uv_cond_broadcast` and `uv_sem_wait` are not modelled: every operation is one atomic step under the master lock.
- ObjectStore.Store.LockDataset: models only the last pass of the wait loop. It requires the semaphore to be free instead of waiting for it.
- ObjectStore.Store.LockDatasets: models only the pass that ends the wait loop. It requires that pass to succeed instead of waiting.
- ObjectStore.Store.LockDatasets: by the same rule, uids that share a semaphore would wait forever. The model states this as `ObjectStore.PassSharedLockFails` and does not loop.
- ObjectStore.Store.DisposeItem: requires the parent Dataset's semaphore to be free (`WaitFree`); the code waits for it.
- ObjectStore.Store.DisposeDataset: the same `WaitFree` precondition replaces the wait.
- ObjectStore.Store.Dispose, ObjectStore.Store.DoDispose and ObjectStore.Store.WeakCallback: the same `WaitFree` precondition replaces the wait.
- ObjectStore.Store.DisposeDataset: requires the disposes already in progress to belong to older uids. A dispose reaches a Dataset only through its own subtree, which holds only newer uids.
- ObjectStore.Store.Add: requires that the pointer is not registered yet and that the parent is a live Dataset.
  - The callers check `has` before `add`, and dereference the parent's uid-map entry.
  - The pointer-map overwrite at `src/utils/ptr_manager.cpp:210` is therefore not modelled.
- ObjectStore.Store.Add: requires a child to be of a tracked kind. Disposal finds children only through the tracked uid maps; for an untracked child the Dataset dispose loop at `src/utils/ptr_manager.cpp:289` would never end, in the C++ code as in the model.
- ObjectStore.Store.Add: requires a Layer to have a parent Dataset. The Layer destructor reads the parent's pointer (`src/utils/ptr_manager.cpp:361-362`).
- ObjectStore.Store.TryLockDatasets: requires a non-empty uid list. `uids.front()` of an empty vector is undefined in the code.
- ObjectStore.Store.LockDatasets: the same non-empty requirement, for the same reason.
- Garbage-collector timing. `WeakCallback` is an event the environment fires; V8 handles, `Nan::Persistent` and `SetWeak` are reduced to an object identity.
- The argument marshalling of the V8/Nan layer is not modelled: `NODE_ARG_WRAPPED`, `NODE_INT_FROM_OBJ_OPT` and the type errors they throw. The model starts from the values those produce.
- `GDALAsyncableJob` and the progress callbacks are not modelled.
- `AsyncGuard` is not modelled either: the model states which uid lists are locked, and the list then goes to `lockDatasets`.
- The GDAL calls of the algorithms themselves are not modelled: `GDALFillNodata`, `GDALSieveFilter`, `GDALPolygonize`, `GDALChecksumImage` and `GDALContourGenerate`. The same holds for the natives `GDALClose` and `ReleaseResultSet`, which are logged as teardown events.
- The single-uid lock of `checksumImage` (`src/gdal_algorithms.cpp:391`) and the stress-test `_acquireLocks` (`src/gdal_algorithms.cpp:527-541`) are not separate members. They lock uid lists of one and of three Datasets through the same locking path.
- `LOG` output is not modelled.
- ObjectStore.Store.IsAlive and ObjectStore.Store.DoDispose: builds before GDAL 3.1, which compile out the group, array, dimension and attribute maps (`src/utils/ptr_manager.cpp:82-85`, `:330-339`), are not modelled.
- ObjectStore.Store.DisposeDataset: the order in which the children are disposed (last one first) is not observable in the final state, and no contract states it.
- Locale-dependent case folding is not modelled: `ExrDriver.Lower` folds ASCII letters only, as `strncasecmp` does in the C locale.
- `computeEdgeEndLabels` and `SimplePointInAreaLocator::locate` run floating-point geometry. The model supplies their results as the input labels and the `located` parameter.
- Inserting edge ends, ordering them by angle and the comparator-based `find` are not modelled. A star is the sequence of its edge ends in counter-clockwise order, and `getNextCW` works on distinct values.
- `isAreaLabelsConsistent` is not modelled: it is `computeEdgeEndLabels` followed by `checkAreaLabelsConsistent(0)`.
- `Label.h` and `TopologyLocation.h` are not part of this model. `Label`, `TopologyLocation` and their operations are modelled from how `EdgeEndStar.cpp` uses them.
- The debug `assert`s of `EdgeEndStar.cpp` are not modelled: the model follows a release build, where they do not abort.
- The coordinate text in the `TopologyException` message is not modelled: the conflict outcome carries the edge index.
- EdgeEndStar.Star.CheckAreaLabelsConsistent: a line edge or a NONE location is compared like any other value. In a debug build the assertions would abort instead.

## Findings

| source | as written | input that shows it | evidently intended | confidence | as-written member | corrected member |
|---|---|---|---|---|---|---|
| src/gdal_algorithms.cpp:380-383 | the bounds check `x + w - 1 >= bandw` is computed in 32-bit `int`, so `x + w - 1` can overflow | a band 2147483647 × 1, x = 2, y = 0, w = 2147483647, h = 1: the sum wraps to a negative number and the region, which ends past the band's right edge, is accepted | a region is accepted only when `x + w <= bandw` and `y + h <= bandh` | not executed; signed overflow is undefined behaviour in C++, two's-complement wrap-around assumed | Algorithms.ChecksumRegionInt32, Algorithms.ChecksumInt32Overflow | Algorithms.ChecksumRegion, Algorithms.ChecksumAcceptedIff |
