// The labelling part of a GEOS EdgeEndStar: the edge ends that leave one
// node of a topology graph, in counter-clockwise order, each carrying a
// Label with the locations (ON, LEFT, RIGHT) of the edge relative to the two
// input geometries. Side labels are propagated around the star, checked for
// consistency, and the null locations that remain are filled in from a
// point-in-area location cached per geometry.
module EdgeEndStar {
  import Outcomes

  /** Location of a point relative to a geometry; NoLocation is Location::NONE. */
  datatype Location = NoLocation | Interior | Boundary | Exterior

  /** Position of a location inside a TopologyLocation. */
  datatype Position = On | Left | Right

  /** The locations of an edge relative to one geometry: a line edge knows
    * only ON, an area edge also knows its LEFT and RIGHT sides. */
  datatype TopologyLocation =
    | LineLocation(on: Location)
    | AreaLocation(on: Location, left: Location, right: Location)

  /** Index of one of the two input geometries. */
  type GeomIndex = i: nat | i < 2

  function Other(g: GeomIndex): (h: GeomIndex)
    ensures h != g
  {
    1 - g
  }

  datatype Label = Label(geom0: TopologyLocation, geom1: TopologyLocation)
  {
    function At(g: GeomIndex): TopologyLocation
    {
      if g == 0 then geom0 else geom1
    }

    function With(g: GeomIndex, t: TopologyLocation): (l: Label)
      ensures l.At(g) == t && l.At(Other(g)) == At(Other(g))
    {
      if g == 0 then this.(geom0 := t) else this.(geom1 := t)
    }
  }

  /** TopologyLocation::get: a position a line edge does not have reads as NONE. */
  function Get(t: TopologyLocation, pos: Position): Location
  {
    match pos
    case On => t.on
    case Left => if t.AreaLocation? then t.left else NoLocation
    case Right => if t.AreaLocation? then t.right else NoLocation
  }

  function Loc(l: Label, g: GeomIndex, pos: Position): Location
  {
    Get(l.At(g), pos)
  }

  predicate IsArea(l: Label, g: GeomIndex)
  {
    l.At(g).AreaLocation?
  }

  predicate IsLine(l: Label, g: GeomIndex)
  {
    l.At(g).LineLocation?
  }

  /** Label::setLocation; only an area edge has sides to set. */
  function SetLocation(l: Label, g: GeomIndex, pos: Position, loc: Location): (r: Label)
    requires pos == On || IsArea(l, g)
    ensures Loc(r, g, pos) == loc && r.At(Other(g)) == l.At(Other(g))
    ensures IsArea(r, g) == IsArea(l, g)
    ensures forall q :: q != pos ==> Loc(r, g, q) == Loc(l, g, q)
  {
    var t := l.At(g);
    var t' := match pos
      case On => t.(on := loc)
      case Left => t.(left := loc)
      case Right => t.(right := loc);
    l.With(g, t')
  }

  /** TopologyLocation::isAnyNull. */
  predicate IsAnyNull(t: TopologyLocation)
  {
    t.on == NoLocation || (t.AreaLocation? && (t.left == NoLocation || t.right == NoLocation))
  }

  /** The positions a location of this shape has: ON, and the two sides for
    * an area edge. */
  predicate HasPosition(t: TopologyLocation, pos: Position)
  {
    pos == On || t.AreaLocation?
  }

  /** TopologyLocation::setAllLocationsIfNull: every null position of its
    * shape gets loc, every known one is kept. */
  function SetAllIfNull(t: TopologyLocation, loc: Location): (r: TopologyLocation)
    ensures Refines(t, r)
    ensures forall pos :: HasPosition(t, pos) && Get(t, pos) == NoLocation ==> Get(r, pos) == loc
  {
    var f := (x: Location) => if x == NoLocation then loc else x;
    match t
    case LineLocation(on) => LineLocation(f(on))
    case AreaLocation(on, left, right) => AreaLocation(f(on), f(left), f(right))
  }

  /** isAnyNull says whether filling would change anything: with a known
    * location, setAllLocationsIfNull changes the location iff it has a null
    * position, and leaves none. */
  lemma AnyNullIffFillChanges(t: TopologyLocation, loc: Location)
    requires loc != NoLocation
    ensures IsAnyNull(t) <==> SetAllIfNull(t, loc) != t
    ensures !IsAnyNull(SetAllIfNull(t, loc))
  {
  }

  /** b keeps the shape of a and every location a already knew. */
  predicate Refines(a: TopologyLocation, b: TopologyLocation)
  {
    a.AreaLocation? == b.AreaLocation?
    && forall pos :: Get(a, pos) != NoLocation ==> Get(b, pos) == Get(a, pos)
  }

  // ---------------------------------------------------------------- getNextCW

  /** The edge end before index k when the star is read cyclically. */
  function Prev(k: nat, n: nat): (p: nat)
    requires k < n
    ensures p < n
  {
    if k == 0 then n - 1 else k - 1
  }

  function IndexOf<T(==)>(star: seq<T>, e: T): (i: nat)
    requires e in star
    ensures i < |star| && star[i] == e && e !in star[..i]
  {
    if star[0] == e then 0 else 1 + IndexOf(star[1..], e)
  }

  /** getNextCW: the edge end next clockwise from e (the one before it in
    * counter-clockwise order, the last one before the first), or nothing
    * when e is not in the star. */
  function NextCW<T(==)>(star: seq<T>, e: T): (r: Outcomes.Option<T>)
    ensures r.None? <==> e !in star
    ensures r.Some? ==> exists i :: 0 <= i < |star| && star[i] == e && r.value == star[Prev(i, |star|)]
  {
    if e !in star then Outcomes.None
    else
      var i := IndexOf(star, e);
      Outcomes.Some(star[Prev(i, |star|)])
  }

  /** In a star of distinct edge ends, the clockwise neighbour of the i-th
    * edge end is the one at Prev(i), and it is a different edge end when the
    * star has more than one. */
  lemma NextCWStepsBack<T>(star: seq<T>, i: nat)
    requires i < |star|
    requires forall a, b :: 0 <= a < b < |star| ==> star[a] != star[b]
    ensures NextCW(star, star[i]) == Outcomes.Some(star[Prev(i, |star|)])
    ensures |star| > 1 ==> NextCW(star, star[i]) != Outcomes.Some(star[i])
  {
    var j := IndexOf(star, star[i]);
  }

  // ------------------------------------------------- checkAreaLabelsConsistent

  /** The side labels of geometry g agree around the star: no edge end has
    * the same location on both sides, and the right side of each edge end is
    * the left side of the edge end before it. */
  ghost predicate SidesConsistent(ls: seq<Label>, g: GeomIndex)
  {
    forall k :: 0 <= k < |ls| ==> ConsistentAt(ls, g, k)
  }

  ghost predicate ConsistentAt(ls: seq<Label>, g: GeomIndex, k: nat)
    requires k < |ls|
  {
    Loc(ls[k], g, Left) != Loc(ls[k], g, Right)
    && Loc(ls[k], g, Right) == Loc(ls[Prev(k, |ls|)], g, Left)
  }

  /** The chaining half of SidesConsistent on its own. */
  ghost predicate SidesChained(ls: seq<Label>, g: GeomIndex)
  {
    forall k :: 0 <= k < |ls| ==> Loc(ls[k], g, Right) == Loc(ls[Prev(k, |ls|)], g, Left)
  }

  // ------------------------------------------------------ propagateSideLabels

  /** An area edge end of geometry g whose left side is known. */
  predicate Labelled(l: Label, g: GeomIndex)
  {
    IsArea(l, g) && Loc(l, g, Left) != NoLocation
  }

  /** The left location of the last labelled edge end at or after k, or acc
    * when there is none. */
  function LastLeftFrom(ls: seq<Label>, g: GeomIndex, k: nat, acc: Location): Location
    requires k <= |ls|
    decreases |ls| - k
  {
    if k == |ls| then acc
    else LastLeftFrom(ls, g, k + 1, if Labelled(ls[k], g) then Loc(ls[k], g, Left) else acc)
  }

  /** The location propagation starts from. */
  function StartLoc(ls: seq<Label>, g: GeomIndex): Location
  {
    LastLeftFrom(ls, g, 0, NoLocation)
  }

  datatype Outcome = Done | SideLocationConflict(at: nat)

  /** What propagation does at one edge end. */
  datatype Stepped = Stepped(updated: Label, curr: Location, conflict: bool)

  /** One edge end: a null ON becomes curr; an area edge end with a known
    * right side conflicts when that side is not curr and otherwise moves curr
    * to its left side; an area edge end without a right side gets curr on
    * both sides; a line edge end changes only ON. Geometry Other(g) and the
    * edge end's kind are untouched. */
  function Step(l: Label, g: GeomIndex, curr: Location): (s: Stepped)
    ensures s.updated.At(Other(g)) == l.At(Other(g)) && IsArea(s.updated, g) == IsArea(l, g)
    ensures Loc(s.updated, g, On) == (if Loc(l, g, On) == NoLocation then curr else Loc(l, g, On))
    ensures s.conflict <==> IsArea(l, g) && Loc(l, g, Right) != NoLocation && Loc(l, g, Right) != curr
    ensures IsArea(l, g) && Loc(l, g, Right) != NoLocation ==>
      && Loc(s.updated, g, Left) == Loc(l, g, Left) && Loc(s.updated, g, Right) == Loc(l, g, Right)
      && s.curr == (if s.conflict then curr else Loc(l, g, Left))
    ensures IsArea(l, g) && Loc(l, g, Right) == NoLocation ==>
      Loc(s.updated, g, Left) == curr && Loc(s.updated, g, Right) == curr && s.curr == curr
    ensures IsLine(l, g) ==> s.curr == curr
  {
    var t := l.At(g);
    var t1 := if t.on == NoLocation then t.(on := curr) else t;
    if t1.AreaLocation? && t1.right != NoLocation then
      Stepped(l.With(g, t1), if t1.right != curr then curr else t1.left, t1.right != curr)
    else if t1.AreaLocation? then
      Stepped(l.With(g, t1.(left := curr, right := curr)), curr, false)
    else
      Stepped(l.With(g, t1), curr, false)
  }

  datatype Run = Run(labels: seq<Label>, result: Outcome, curr: Location)

  /** The loop of propagateSideLabels from edge end k on, with curr the
    * location current there: it keeps the number of edge ends and stops at a
    * conflict at or after k. */
  function PropagateFrom(ls: seq<Label>, g: GeomIndex, curr: Location, k: nat): (run: Run)
    requires k <= |ls|
    ensures |run.labels| == |ls|
    ensures run.result.SideLocationConflict? ==> k <= run.result.at < |ls|
    decreases |ls| - k
  {
    if k == |ls| then Run(ls, Done, curr)
    else
      var s := Step(ls[k], g, curr);
      if s.conflict then Run(ls[k := s.updated], SideLocationConflict(k), curr)
      else PropagateFrom(ls[k := s.updated], g, s.curr, k + 1)
  }

  /** The labels and the outcome of propagateSideLabels for geometry g. */
  function Propagation(ls: seq<Label>, g: GeomIndex): (run: Run)
    ensures |run.labels| == |ls|
    ensures run.result.SideLocationConflict? ==> run.result.at < |ls|
  {
    var start := StartLoc(ls, g);
    if start == NoLocation then Run(ls, Done, start) else PropagateFrom(ls, g, start, 0)
  }

  // --------------------------------------------- the null pass of computeLabelling

  /** An edge end that is a line of geometry g lying on its boundary: a
    * dimensional collapse. */
  predicate CollapseEdge(l: Label, g: GeomIndex)
  {
    IsLine(l, g) && Loc(l, g, On) == Boundary
  }

  function HasCollapseEdge(ls: seq<Label>, g: GeomIndex): bool
  {
    if ls == [] then false else HasCollapseEdge(ls[..|ls| - 1], g) || CollapseEdge(ls[|ls| - 1], g)
  }

  /** getLocation: the cached location when there is one, else the located one. */
  function Cached(cache: Location, located: Location): Location
  {
    if cache == NoLocation then located else cache
  }

  /** The location null locations are set to: EXTERIOR when the geometry has
    * a dimensional collapse at the node, the node's location otherwise. */
  function FillOf(collapse: bool, cache: Location, located: Location): Location
  {
    if collapse then Exterior else Cached(cache, located)
  }

  /** The location the null locations of geometry g are set to. */
  function FillFor(ls: seq<Label>, g: GeomIndex, cache: Location, located: Location): Location
  {
    FillOf(HasCollapseEdge(ls, g), cache, located)
  }

  function NullFill(l: Label, g: GeomIndex, loc: Location): Label
  {
    if IsAnyNull(l.At(g)) then l.With(g, SetAllIfNull(l.At(g), loc)) else l
  }

  /** One label after the geometries below n have been filled. */
  function FillBelow(l: Label, n: nat, f0: Location, f1: Location): Label
    requires n <= 2
  {
    if n == 0 then l
    else if n == 1 then NullFill(l, 0, f0)
    else NullFill(NullFill(l, 0, f0), 1, f1)
  }

  function Resolved(ls: seq<Label>, f0: Location, f1: Location): (r: seq<Label>)
    ensures |r| == |ls|
    ensures forall k :: 0 <= k < |ls| ==> r[k] == FillBelow(ls[k], 2, f0, f1)
  {
    seq(|ls|, k requires 0 <= k < |ls| => FillBelow(ls[k], 2, f0, f1))
  }

  /** Some edge end before m has a null location for geometry g. */
  ghost predicate NullBefore(ls: seq<Label>, g: GeomIndex, m: nat)
    requires m <= |ls|
  {
    exists k :: 0 <= k < m && IsAnyNull(ls[k].At(g))
  }

  lemma NullBeforeStep(ls: seq<Label>, g: GeomIndex, m: nat)
    requires m < |ls|
    ensures NullBefore(ls, g, m + 1) == (NullBefore(ls, g, m) || IsAnyNull(ls[m].At(g)))
  {
    if IsAnyNull(ls[m].At(g)) {
      assert NullBefore(ls, g, m + 1);
    }
  }

  /** The cache entry for g once the edge ends before m have been filled: set
    * by the first of them that asked for it, unless g has a collapse. */
  ghost function CacheAfter(ls: seq<Label>, g: GeomIndex, m: nat, collapse: bool,
                            cache: Location, located: Location): Location
    requires m <= |ls|
  {
    if NullBefore(ls, g, m) && !collapse then Cached(cache, located) else cache
  }

  // ------------------------------------------------------------ lemmas

  /** The edge ends of geometry g are area edges. */
  ghost predicate AllArea(ls: seq<Label>, g: GeomIndex)
  {
    forall k :: 0 <= k < |ls| ==> IsArea(ls[k], g)
  }

  /** Every area edge end of geometry g knows both of its sides or neither
    * (propagation asserts this of every edge end it reaches). */
  ghost predicate NoSingleNullSide(ls: seq<Label>, g: GeomIndex)
  {
    forall k :: 0 <= k < |ls| && IsArea(ls[k], g) ==>
      (Loc(ls[k], g, Left) == NoLocation <==> Loc(ls[k], g, Right) == NoLocation)
  }

  /** From edge end k up to stop, the right side of each edge end is the
    * location current when it is reached: curr for the first, the left side of
    * the one before for the others. */
  ghost predicate ChainedFrom(ls: seq<Label>, g: GeomIndex, curr: Location, k: nat, stop: nat)
    requires k <= stop <= |ls|
  {
    && (k < stop ==> Loc(ls[k], g, Right) == curr)
    && forall j :: k < j < stop ==> Loc(ls[j], g, Right) == Loc(ls[j - 1], g, Left)
  }

  function StopOf(run: Run, n: nat): nat
  {
    if run.result.SideLocationConflict? then run.result.at else n
  }

  /** The location current when propagation from start reaches edge end k:
    * the left side of the last area edge end before k whose right side is
    * known, or start when there is none. Line edge ends and area edge ends
    * without a right side do not move it. */
  function CurrBefore(ls: seq<Label>, g: GeomIndex, start: Location, k: nat): Location
    requires k <= |ls|
  {
    if k == 0 then start
    else if IsArea(ls[k - 1], g) && Loc(ls[k - 1], g, Right) != NoLocation then Loc(ls[k - 1], g, Left)
    else CurrBefore(ls, g, start, k - 1)
  }

  /** Propagation from start stops at edge end k: an area edge end whose
    * known right side is not the location current there. */
  predicate ConflictAt(ls: seq<Label>, g: GeomIndex, start: Location, k: nat)
    requires k < |ls|
  {
    IsArea(ls[k], g) && Loc(ls[k], g, Right) != NoLocation && Loc(ls[k], g, Right) != CurrBefore(ls, g, start, k)
  }

  lemma {:induction false} LastLeftFromSpec(ls: seq<Label>, g: GeomIndex, k: nat, acc: Location)
    requires k <= |ls|
    ensures (forall j :: k <= j < |ls| ==> !Labelled(ls[j], g)) ==> LastLeftFrom(ls, g, k, acc) == acc
    ensures (exists j :: k <= j < |ls| && Labelled(ls[j], g)) ==>
      exists j :: k <= j < |ls| && Labelled(ls[j], g) && LastLeftFrom(ls, g, k, acc) == Loc(ls[j], g, Left)
        && forall i :: j < i < |ls| ==> !Labelled(ls[i], g)
    decreases |ls| - k
  {
    if k < |ls| {
      LastLeftFromSpec(ls, g, k + 1, if Labelled(ls[k], g) then Loc(ls[k], g, Left) else acc);
    }
  }

  /** The start location is the left side of the last area edge end whose
    * left side is known, and NONE exactly when there is no such edge end. */
  lemma StartLocIsLastLabelled(ls: seq<Label>, g: GeomIndex)
    ensures StartLoc(ls, g) == NoLocation <==> forall j :: 0 <= j < |ls| ==> !Labelled(ls[j], g)
    ensures StartLoc(ls, g) != NoLocation ==>
      exists j :: 0 <= j < |ls| && Labelled(ls[j], g) && StartLoc(ls, g) == Loc(ls[j], g, Left)
        && forall i :: j < i < |ls| ==> !Labelled(ls[i], g)
  {
    LastLeftFromSpec(ls, g, 0, NoLocation);
  }

  /** The value carried into the scan matters only when nothing after k is
    * labelled. */
  lemma {:induction false} LastLeftAcc(ls: seq<Label>, g: GeomIndex, k: nat, acc: Location)
    requires k <= |ls|
    ensures var x := LastLeftFrom(ls, g, k, NoLocation);
      LastLeftFrom(ls, g, k, acc) == (if x != NoLocation then x else acc)
    decreases |ls| - k
  {
    if k < |ls| {
      LastLeftAcc(ls, g, k + 1, if Labelled(ls[k], g) then Loc(ls[k], g, Left) else acc);
      LastLeftAcc(ls, g, k + 1, if Labelled(ls[k], g) then Loc(ls[k], g, Left) else NoLocation);
    }
  }

  /** Propagation from edge end k changes only geometry g, keeps every edge
    * end's kind, leaves the edge ends before k alone and, after a conflict,
    * the edge ends after it. */
  lemma {:induction false} PropagateFrame(ls: seq<Label>, g: GeomIndex, curr: Location, k: nat)
    requires k <= |ls|
    ensures var run := PropagateFrom(ls, g, curr, k);
      && |run.labels| == |ls|
      && (forall j :: 0 <= j < k ==> run.labels[j] == ls[j])
      && (forall j :: 0 <= j < |ls| ==> run.labels[j].At(Other(g)) == ls[j].At(Other(g)))
      && (forall j :: 0 <= j < |ls| ==> IsArea(run.labels[j], g) == IsArea(ls[j], g))
      && (run.result.SideLocationConflict? ==>
            k <= run.result.at < |ls| && forall j :: run.result.at < j < |ls| ==> run.labels[j] == ls[j])
    decreases |ls| - k
  {
    if k < |ls| {
      var s := Step(ls[k], g, curr);
      if !s.conflict {
        PropagateFrame(ls[k := s.updated], g, s.curr, k + 1);
      }
    }
  }

  /** Propagation from edge end k leaves the edge ends before k alone. This
    * is the prefix part of PropagateFrame on its own: the inductions that
    * need only this fact use it and stay cheap. */
  lemma {:induction false} PropagateKeepsPrefix(ls: seq<Label>, g: GeomIndex, curr: Location, k: nat)
    requires k <= |ls|
    ensures var run := PropagateFrom(ls, g, curr, k);
      forall j :: 0 <= j < k ==> run.labels[j] == ls[j]
    decreases |ls| - k
  {
    if k < |ls| {
      var s := Step(ls[k], g, curr);
      if !s.conflict {
        PropagateKeepsPrefix(ls[k := s.updated], g, s.curr, k + 1);
      }
    }
  }

  /** One step of propagation at an area edge end that knows both sides or
    * neither. */
  lemma StepFacts(l: Label, g: GeomIndex, curr: Location)
    requires IsArea(l, g) && (Loc(l, g, Left) == NoLocation <==> Loc(l, g, Right) == NoLocation)
    ensures var s := Step(l, g, curr);
      && IsArea(s.updated, g)
      && (Loc(s.updated, g, Left) == NoLocation <==> Loc(s.updated, g, Right) == NoLocation)
      && s.conflict == (Loc(l, g, Right) != NoLocation && Loc(l, g, Right) != curr)
      && (!s.conflict ==>
            Loc(s.updated, g, Right) == curr && Loc(s.updated, g, Left) == s.curr
            && s.curr == (if Labelled(l, g) then Loc(l, g, Left) else curr))
  {
  }

  /** The core of propagation over area edge ends: the right side of each
    * edge end it passes is the location current there. */
  lemma {:induction false} PropagateChain(ls: seq<Label>, g: GeomIndex, curr: Location, k: nat)
    requires k <= |ls| && AllArea(ls, g) && NoSingleNullSide(ls, g)
    ensures var run := PropagateFrom(ls, g, curr, k);
      ChainedFrom(run.labels, g, curr, k, StopOf(run, |ls|))
    decreases |ls| - k
  {
    if k < |ls| {
      var s := Step(ls[k], g, curr);
      StepFacts(ls[k], g, curr);
      var ls1 := ls[k := s.updated];
      if !s.conflict {
        var run := PropagateFrom(ls, g, curr, k);
        assert run == PropagateFrom(ls1, g, s.curr, k + 1);
        assert AllArea(ls1, g) && NoSingleNullSide(ls1, g);
        PropagateChain(ls1, g, s.curr, k + 1);
        PropagateKeepsPrefix(ls1, g, s.curr, k + 1);
        assert run.labels[k] == s.updated;
      }
    }
  }

  /** Propagation from edge end k, on labels that agree with ls0 from k on,
    * treats each edge end it reaches as Step does with the location
    * CurrBefore gives for ls0: it changes nothing before the first conflict
    * other than by Step, and stops exactly there. */
  lemma {:induction false} PropagateLocal(ls0: seq<Label>, ls: seq<Label>, g: GeomIndex, start: Location, k: nat)
    requires k <= |ls| == |ls0|
    requires forall j :: k <= j < |ls| ==> ls[j] == ls0[j]
    ensures var run := PropagateFrom(ls, g, CurrBefore(ls0, g, start, k), k);
      var stop := StopOf(run, |ls|);
      && (forall j :: k <= j < stop ==> !ConflictAt(ls0, g, start, j))
      && (run.result.SideLocationConflict? ==> ConflictAt(ls0, g, start, stop))
      && (forall j :: k <= j < |ls| && j <= stop ==>
            run.labels[j] == Step(ls0[j], g, CurrBefore(ls0, g, start, j)).updated)
    decreases |ls| - k
  {
    if k < |ls| {
      var curr := CurrBefore(ls0, g, start, k);
      var s := Step(ls[k], g, curr);
      var ls1 := ls[k := s.updated];
      var run := PropagateFrom(ls, g, curr, k);
      assert ls[k] == ls0[k];
      assert s.conflict == ConflictAt(ls0, g, start, k);
      if s.conflict {
        assert run.labels == ls1 && StopOf(run, |ls|) == k;
      } else {
        var next := CurrBefore(ls0, g, start, k + 1);
        assert s.curr == next;
        assert run == PropagateFrom(ls1, g, next, k + 1);
        PropagateLocal(ls0, ls1, g, start, k + 1);
        PropagateKeepsPrefix(ls1, g, next, k + 1);
        assert run.labels[k] == s.updated;
      }
    }
  }

  /** Over area edge ends a successful propagation ends with the left side of
    * the last labelled edge end (or the location it began with), which is the
    * left side of the last edge end. */
  lemma {:induction false} PropagateCurr(ls: seq<Label>, g: GeomIndex, curr: Location, k: nat)
    requires k <= |ls| && AllArea(ls, g) && NoSingleNullSide(ls, g)
    ensures var run := PropagateFrom(ls, g, curr, k);
      && (run.result.Done? ==> run.curr == LastLeftFrom(ls, g, k, curr))
      && (run.result.Done? && k < |ls| ==> Loc(run.labels[|ls| - 1], g, Left) == run.curr)
    decreases |ls| - k
  {
    if k < |ls| {
      var s := Step(ls[k], g, curr);
      StepFacts(ls[k], g, curr);
      var ls1 := ls[k := s.updated];
      if !s.conflict {
        assert AllArea(ls1, g) && NoSingleNullSide(ls1, g);
        PropagateCurr(ls1, g, s.curr, k + 1);
        LastLeftAgree(ls, ls1, g, k + 1, s.curr);
      }
    }
  }

  /** The scan after k sees only the edge ends after k. */
  lemma {:induction false} LastLeftAgree(ls: seq<Label>, ls': seq<Label>, g: GeomIndex, k: nat, acc: Location)
    requires k <= |ls| == |ls'|
    requires forall j :: k <= j < |ls| ==> ls[j] == ls'[j]
    ensures LastLeftFrom(ls, g, k, acc) == LastLeftFrom(ls', g, k, acc)
    decreases |ls| - k
  {
    if k < |ls| {
      LastLeftAgree(ls, ls', g, k + 1, if Labelled(ls[k], g) then Loc(ls[k], g, Left) else acc);
    }
  }

  /** After a successful propagation over a star of area edge ends, the right
    * side of every edge end is the left side of the edge end before it, all
    * the way round. */
  lemma PropagatedChained(ls: seq<Label>, g: GeomIndex)
    requires AllArea(ls, g) && NoSingleNullSide(ls, g)
    ensures var p := Propagation(ls, g); p.result.Done? ==> |p.labels| == |ls| && SidesChained(p.labels, g)
  {
    var start := StartLoc(ls, g);
    var p := Propagation(ls, g);
    if start == NoLocation {
      StartLocIsLastLabelled(ls, g);
      assert forall j :: 0 <= j < |ls| ==> Loc(ls[j], g, Right) == NoLocation && Loc(ls[j], g, Left) == NoLocation;
    } else if p.result.Done? && |ls| > 0 {
      PropagateChain(ls, g, start, 0);
      PropagateCurr(ls, g, start, 0);
      LastLeftAcc(ls, g, 0, start);
      assert p == PropagateFrom(ls, g, start, 0);
      assert p.curr == start;
      assert StopOf(p, |ls|) == |ls|;
      assert ChainedFrom(p.labels, g, start, 0, |ls|);
      forall k | 0 <= k < |ls|
        ensures Loc(p.labels[k], g, Right) == Loc(p.labels[Prev(k, |ls|)], g, Left)
      {
        if k == 0 {
          assert Loc(p.labels[0], g, Right) == start;
        } else {
          assert Loc(p.labels[k], g, Right) == Loc(p.labels[k - 1], g, Left);
        }
      }
    }
  }

  /** So after a successful propagation over area edge ends the consistency
    * check fails exactly when some edge end has the same location on both
    * sides. */
  lemma PropagatedConsistentIff(ls: seq<Label>, g: GeomIndex)
    requires AllArea(ls, g) && NoSingleNullSide(ls, g)
    ensures var p := Propagation(ls, g);
      p.result.Done? ==>
        (SidesConsistent(p.labels, g) <==>
         forall k :: 0 <= k < |p.labels| ==> Loc(p.labels[k], g, Left) != Loc(p.labels[k], g, Right))
  {
    var p := Propagation(ls, g);
    if p.result.Done? {
      PropagatedChained(ls, g);
      ChainedConsistentIff(p.labels, g);
    }
  }

  lemma ChainedConsistentIff(ls: seq<Label>, g: GeomIndex)
    requires SidesChained(ls, g)
    ensures SidesConsistent(ls, g) <==> forall k :: 0 <= k < |ls| ==> Loc(ls[k], g, Left) != Loc(ls[k], g, Right)
  {
    assert forall k :: 0 <= k < |ls| ==>
      (ConsistentAt(ls, g, k) <==> Loc(ls[k], g, Left) != Loc(ls[k], g, Right));
  }

  /** A side location conflict is reported exactly when there is a start
    * location and some edge end conflicts with the location current there,
    * and it is reported at the first such edge end. Line edge ends may lie
    * anywhere in the star. */
  lemma PropagatedConflict(ls: seq<Label>, g: GeomIndex)
    ensures var p := Propagation(ls, g); var start := StartLoc(ls, g);
      && (p.result.SideLocationConflict? <==>
            start != NoLocation && exists m :: 0 <= m < |ls| && ConflictAt(ls, g, start, m))
      && (p.result.SideLocationConflict? ==>
            p.result.at < |ls| && ConflictAt(ls, g, start, p.result.at)
            && forall j :: 0 <= j < p.result.at ==> !ConflictAt(ls, g, start, j))
  {
    var start := StartLoc(ls, g);
    if start != NoLocation {
      PropagateLocal(ls, ls, g, start, 0);
    }
  }

  /** What propagation does to each edge end, without the loop: edge end j is
    * reached with the location CurrBefore gives. A null ON becomes that
    * location; an area edge end without a right side gets it on both sides;
    * one with a right side keeps both sides; a line edge end changes only ON;
    * the other geometry is untouched. The edge ends after a conflict are left
    * as they were. */
  lemma PropagatedLabels(ls: seq<Label>, g: GeomIndex)
    ensures var p := Propagation(ls, g); var start := StartLoc(ls, g);
      start != NoLocation ==>
        && (forall j :: 0 <= j < |ls| && j <= StopOf(p, |ls|) ==>
              && p.labels[j].At(Other(g)) == ls[j].At(Other(g))
              && IsArea(p.labels[j], g) == IsArea(ls[j], g)
              && Loc(p.labels[j], g, On) ==
                   (if Loc(ls[j], g, On) == NoLocation then CurrBefore(ls, g, start, j) else Loc(ls[j], g, On))
              && (IsArea(ls[j], g) && Loc(ls[j], g, Right) != NoLocation ==>
                    Loc(p.labels[j], g, Left) == Loc(ls[j], g, Left) && Loc(p.labels[j], g, Right) == Loc(ls[j], g, Right))
              && (IsArea(ls[j], g) && Loc(ls[j], g, Right) == NoLocation ==>
                    Loc(p.labels[j], g, Left) == CurrBefore(ls, g, start, j)
                    && Loc(p.labels[j], g, Right) == CurrBefore(ls, g, start, j)))
        && (forall j :: StopOf(p, |ls|) < j < |ls| ==> p.labels[j] == ls[j])
  {
    var start := StartLoc(ls, g);
    if start != NoLocation {
      PropagateLocal(ls, ls, g, start, 0);
      PropagateFrame(ls, g, start, 0);
    }
  }

  /** Only area edge ends can have consistent sides: a line edge end reads
    * NONE on both. */
  lemma ConsistentStarIsArea(ls: seq<Label>, g: GeomIndex)
    requires SidesConsistent(ls, g)
    ensures AllArea(ls, g)
  {
    forall k | 0 <= k < |ls|
      ensures IsArea(ls[k], g)
    {
      assert ConsistentAt(ls, g, k);
    }
  }

  /** A star of one edge end is never consistent: its right side would have
    * to be its own left side. */
  lemma SingleEdgeInconsistent(ls: seq<Label>, g: GeomIndex)
    requires |ls| == 1
    ensures !SidesConsistent(ls, g)
  {
    assert !ConsistentAt(ls, g, 0);
  }

  /** Without a labelled area edge end there is nothing to propagate from,
    * and the labels stay as they are. */
  lemma PropagationNeedsLabelledEdge(ls: seq<Label>, g: GeomIndex)
    requires forall j :: 0 <= j < |ls| ==> !Labelled(ls[j], g)
    ensures Propagation(ls, g) == Run(ls, Done, NoLocation)
  {
    StartLocIsLastLabelled(ls, g);
  }

  /** Propagation only fills in: every location that was known, it keeps. */
  lemma {:induction false} PropagateOnlyFills(ls: seq<Label>, g: GeomIndex, curr: Location, k: nat)
    requires k <= |ls| && NoSingleNullSide(ls, g)
    ensures var run := PropagateFrom(ls, g, curr, k);
      |run.labels| == |ls| && forall j :: 0 <= j < |ls| ==> Refines(ls[j].At(g), run.labels[j].At(g))
    decreases |ls| - k
  {
    PropagateFrame(ls, g, curr, k);
    if k < |ls| {
      var s := Step(ls[k], g, curr);
      var ls1 := ls[k := s.updated];
      assert Refines(ls[k].At(g), s.updated.At(g));
      if !s.conflict {
        assert NoSingleNullSide(ls1, g);
        PropagateOnlyFills(ls1, g, s.curr, k + 1);
        var run := PropagateFrom(ls1, g, s.curr, k + 1);
        forall j | 0 <= j < |ls|
          ensures Refines(ls[j].At(g), run.labels[j].At(g))
        {
          RefinesTrans(ls[j].At(g), ls1[j].At(g), run.labels[j].At(g));
        }
      }
    }
  }

  lemma RefinesTrans(a: TopologyLocation, b: TopologyLocation, c: TopologyLocation)
    requires Refines(a, b) && Refines(b, c)
    ensures Refines(a, c)
  {
  }

  /** Starting from a known location, propagation leaves no location of
    * geometry g null on the edge ends it passes. */
  lemma {:induction false} PropagateFillsAll(ls: seq<Label>, g: GeomIndex, curr: Location, k: nat)
    requires k <= |ls| && NoSingleNullSide(ls, g) && curr != NoLocation
    ensures var run := PropagateFrom(ls, g, curr, k);
      |run.labels| == |ls| && StopOf(run, |ls|) <= |ls|
      && forall j :: k <= j < StopOf(run, |ls|) ==> !IsAnyNull(run.labels[j].At(g))
    decreases |ls| - k
  {
    PropagateFrame(ls, g, curr, k);
    if k < |ls| {
      var s := Step(ls[k], g, curr);
      var ls1 := ls[k := s.updated];
      if !s.conflict {
        assert NoSingleNullSide(ls1, g);
        assert !IsAnyNull(s.updated.At(g)) && s.curr != NoLocation;
        PropagateFillsAll(ls1, g, s.curr, k + 1);
        PropagateFrame(ls1, g, s.curr, k + 1);
      }
    }
  }

  /** A successful propagation that had a start location leaves every
    * location of geometry g known, and keeps every location already known. */
  lemma PropagatedFillsAll(ls: seq<Label>, g: GeomIndex)
    requires NoSingleNullSide(ls, g)
    ensures var p := Propagation(ls, g);
      |p.labels| == |ls|
      && (forall j :: 0 <= j < |ls| ==> Refines(ls[j].At(g), p.labels[j].At(g)))
      && (p.result.Done? && StartLoc(ls, g) != NoLocation ==>
            forall j :: 0 <= j < |ls| ==> !IsAnyNull(p.labels[j].At(g)))
  {
    var start := StartLoc(ls, g);
    if start != NoLocation {
      PropagateOnlyFills(ls, g, start, 0);
      PropagateFillsAll(ls, g, start, 0);
    } else {
      forall j | 0 <= j < |ls|
        ensures Refines(ls[j].At(g), ls[j].At(g))
      {
      }
    }
  }

  /** HasCollapseEdge: some edge end is a collapse of geometry g. */
  lemma {:induction false} HasCollapseEdgeIff(ls: seq<Label>, g: GeomIndex)
    ensures HasCollapseEdge(ls, g) <==> exists k :: 0 <= k < |ls| && CollapseEdge(ls[k], g)
  {
    if ls != [] {
      var init := ls[..|ls| - 1];
      HasCollapseEdgeIff(init, g);
      assert forall k :: 0 <= k < |init| ==> init[k] == ls[k];
    }
  }

  /** The null pass leaves no null location when both fill locations are
    * known, and keeps every location that was known. */
  lemma ResolvedComplete(ls: seq<Label>, f0: Location, f1: Location)
    requires f0 != NoLocation && f1 != NoLocation
    ensures var r := Resolved(ls, f0, f1);
      forall k, g: GeomIndex :: 0 <= k < |ls| ==>
        !IsAnyNull(r[k].At(g)) && Refines(ls[k].At(g), r[k].At(g))
  {
    var r := Resolved(ls, f0, f1);
    forall k, g: GeomIndex | 0 <= k < |ls|
      ensures !IsAnyNull(r[k].At(g)) && Refines(ls[k].At(g), r[k].At(g))
    {
      var l1 := NullFill(ls[k], 0, f0);
      assert l1.At(1) == ls[k].At(1);
      assert r[k] == NullFill(l1, 1, f1);
      assert r[k].At(0) == l1.At(0);
    }
  }

  /** The node's location is looked up at most once per geometry: a second
    * lookup answers what the first one cached. */
  lemma CachedStable(cache: Location, located: Location)
    ensures Cached(Cached(cache, located), located) == Cached(cache, located)
    ensures cache != NoLocation ==> Cached(cache, located) == cache
  {
  }

  // --------------------------------------------------------------- the star

  class Star {
    /** The labels of the edge ends, in counter-clockwise order. */
    var labels: array<Label>
    /** ptInAreaLocation: the cached location of the node in each geometry. */
    var ptInAreaLocation: array<Location>

    ghost predicate Valid()
      reads this
    {
      ptInAreaLocation.Length == 2
    }

    /** A star over edge ends that carry these labels, with an empty cache. */
    constructor (ls: seq<Label>)
      ensures Valid() && fresh(labels) && fresh(ptInAreaLocation)
      ensures labels[..] == ls && ptInAreaLocation[..] == [NoLocation, NoLocation]
    {
      labels := new Label[|ls|](k requires 0 <= k < |ls| => ls[k]);
      ptInAreaLocation := new Location[2](_ => NoLocation);
    }

    /** checkAreaLabelsConsistent for geometry g. */
    method CheckAreaLabelsConsistent(g: GeomIndex) returns (ok: bool)
      ensures ok <==> SidesConsistent(labels[..], g)
    {
      ghost var ls := labels[..];
      var n := labels.Length;
      if n == 0 {
        return true;
      }
      var currLoc := Loc(labels[n - 1], g, Left);
      var k := 0;
      while k < n
        invariant 0 <= k <= n
        invariant currLoc == Loc(ls[if k == 0 then n - 1 else k - 1], g, Left)
        invariant forall j :: 0 <= j < k ==> ConsistentAt(ls, g, j)
      {
        assert labels[k] == ls[k];
        var leftLoc := Loc(labels[k], g, Left);
        var rightLoc := Loc(labels[k], g, Right);
        if leftLoc == rightLoc {
          assert !ConsistentAt(ls, g, k);
          return false;
        }
        if rightLoc != currLoc {
          assert !ConsistentAt(ls, g, k);
          return false;
        }
        currLoc := leftLoc;
        k := k + 1;
      }
      return true;
    }

    /** propagateSideLabels for geometry g. */
    method PropagateSideLabels(g: GeomIndex) returns (r: Outcome)
      modifies labels
      ensures var run := Propagation(old(labels[..]), g); labels[..] == run.labels && r == run.result
    {
      ghost var ls0 := labels[..];
      var n := labels.Length;
      var startLoc := NoLocation;
      var k := 0;
      while k < n
        invariant 0 <= k <= n
        invariant LastLeftFrom(ls0, g, k, startLoc) == StartLoc(ls0, g)
      {
        if IsArea(labels[k], g) && Loc(labels[k], g, Left) != NoLocation {
          startLoc := Loc(labels[k], g, Left);
        }
        k := k + 1;
      }
      if startLoc == NoLocation {
        return Done;
      }
      var currLoc := startLoc;
      k := 0;
      while k < n
        invariant 0 <= k <= n
        invariant PropagateFrom(labels[..], g, currLoc, k) == Propagation(ls0, g)
      {
        var lab := labels[k];
        if Loc(lab, g, On) == NoLocation {
          lab := SetLocation(lab, g, On, currLoc);
        }
        if IsArea(lab, g) {
          var leftLoc := Loc(lab, g, Left);
          var rightLoc := Loc(lab, g, Right);
          if rightLoc != NoLocation {
            if rightLoc != currLoc {
              labels[k] := lab;
              return SideLocationConflict(k);
            }
            currLoc := leftLoc;
          } else {
            lab := SetLocation(lab, g, Right, currLoc);
            lab := SetLocation(lab, g, Left, currLoc);
          }
        }
        labels[k] := lab;
        k := k + 1;
      }
      return Done;
    }

    /** getLocation: the node's location in geometry g, located on first use
      * and cached. */
    method GetLocation(g: GeomIndex, located: Location) returns (loc: Location)
      requires Valid()
      modifies ptInAreaLocation
      ensures loc == Cached(old(ptInAreaLocation[g]), located)
      ensures ptInAreaLocation[g] == loc
      ensures ptInAreaLocation[Other(g)] == old(ptInAreaLocation[Other(g)])
    {
      if ptInAreaLocation[g] == NoLocation {
        ptInAreaLocation[g] := located;
      }
      return ptInAreaLocation[g];
    }

    /** The first loop of the null pass of computeLabelling: which geometries
      * have a dimensional collapse edge at this node. */
    method DimensionalCollapses() returns (has: array<bool>)
      ensures fresh(has) && has.Length == 2
      ensures forall g: GeomIndex :: has[g] == HasCollapseEdge(labels[..], g)
    {
      ghost var ls := labels[..];
      var n := labels.Length;
      has := new bool[2](_ => false);
      var k := 0;
      while k < n
        modifies has
        invariant 0 <= k <= n
        invariant forall g: GeomIndex :: has[g] == HasCollapseEdge(ls[..k], g)
      {
        assert ls[..k + 1][..k] == ls[..k];
        assert labels[k] == ls[k];
        var gi := 0;
        while gi < 2
          modifies has
          invariant 0 <= gi <= 2
          invariant forall g: GeomIndex ::
            (has[g] == (HasCollapseEdge(ls[..k], g) || (g < gi && CollapseEdge(ls[k], g))))
        {
          if IsLine(labels[k], gi) && Loc(labels[k], gi, On) == Boundary {
            has[gi] := true;
          }
          gi := gi + 1;
        }
        k := k + 1;
      }
      assert ls[..n] == ls;
    }

    /** The body of the second loop of the null pass for edge end k: each
      * geometry whose locations are not all known gets its null locations
      * set. */
    method FillEdgeEnd(k: nat, has: array<bool>, located: GeomIndex -> Location)
      requires Valid() && has.Length == 2 && k < labels.Length
      modifies labels, ptInAreaLocation
      ensures labels[..] == old(labels[..])[k := FillBelow(old(labels[k]), 2,
        FillOf(has[0], old(ptInAreaLocation[0]), located(0)),
        FillOf(has[1], old(ptInAreaLocation[1]), located(1)))]
      ensures ptInAreaLocation[0] == if IsAnyNull(old(labels[k]).At(0)) && !has[0]
        then Cached(old(ptInAreaLocation[0]), located(0)) else old(ptInAreaLocation[0])
      ensures ptInAreaLocation[1] == if IsAnyNull(old(labels[k]).At(1)) && !has[1]
        then Cached(old(ptInAreaLocation[1]), located(1)) else old(ptInAreaLocation[1])
    {
      ghost var l0 := labels[k];
      ghost var f0 := FillOf(has[0], ptInAreaLocation[0], located(0));
      ghost var f1 := FillOf(has[1], ptInAreaLocation[1], located(1));
      ghost var c0 := ptInAreaLocation[..];
      var lab := labels[k];
      var gi := 0;
      while gi < 2
        modifies ptInAreaLocation
        invariant 0 <= gi <= 2
        invariant lab == FillBelow(l0, gi, f0, f1)
        invariant forall g: GeomIndex :: (ptInAreaLocation[g] ==
          if g < gi && IsAnyNull(l0.At(g)) && !has[g] then Cached(c0[g], located(g)) else c0[g])
      {
        assert lab.At(gi) == l0.At(gi);
        if IsAnyNull(lab.At(gi)) {
          var loc := Exterior;
          if !has[gi] {
            loc := GetLocation(gi, located(gi));
          }
          lab := lab.With(gi, SetAllIfNull(lab.At(gi), loc));
        }
        gi := gi + 1;
      }
      labels[k] := lab;
    }

    /** The null pass of computeLabelling: set every null location of an edge
      * end to EXTERIOR when its geometry has a dimensional collapse at this
      * node and to the node's location in that geometry otherwise.
      * located(g) is what the point-in-area locator answers for the node. */
    method ResolveNullLabels(located: GeomIndex -> Location)
      requires Valid()
      modifies labels, ptInAreaLocation
      ensures var ls := old(labels[..]);
        labels[..] == Resolved(ls, FillFor(ls, 0, old(ptInAreaLocation[0]), located(0)),
                                  FillFor(ls, 1, old(ptInAreaLocation[1]), located(1)))
      ensures ptInAreaLocation[0] == CacheAfter(old(labels[..]), 0, labels.Length,
        HasCollapseEdge(old(labels[..]), 0), old(ptInAreaLocation[0]), located(0))
      ensures ptInAreaLocation[1] == CacheAfter(old(labels[..]), 1, labels.Length,
        HasCollapseEdge(old(labels[..]), 1), old(ptInAreaLocation[1]), located(1))
    {
      ghost var ls0 := labels[..];
      ghost var c0 := ptInAreaLocation[..];
      var has := DimensionalCollapses();
      ghost var f0 := FillOf(has[0], c0[0], located(0));
      ghost var f1 := FillOf(has[1], c0[1], located(1));
      var n := labels.Length;
      var k := 0;
      while k < n
        modifies labels, ptInAreaLocation
        invariant 0 <= k <= n
        invariant forall j :: 0 <= j < k ==> labels[j] == FillBelow(ls0[j], 2, f0, f1)
        invariant forall j :: k <= j < n ==> labels[j] == ls0[j]
        invariant ptInAreaLocation[0] == CacheAfter(ls0, 0, k, has[0], c0[0], located(0))
        invariant ptInAreaLocation[1] == CacheAfter(ls0, 1, k, has[1], c0[1], located(1))
      {
        assert FillOf(has[0], ptInAreaLocation[0], located(0)) == f0;
        assert FillOf(has[1], ptInAreaLocation[1], located(1)) == f1;
        FillEdgeEnd(k, has, located);
        NullBeforeStep(ls0, 0, k);
        NullBeforeStep(ls0, 1, k);
        k := k + 1;
      }
      assert has[0] == HasCollapseEdge(ls0, 0) && has[1] == HasCollapseEdge(ls0, 1);
      assert labels[..] == Resolved(ls0, f0, f1);
    }

    /** computeLabelling once the edge ends carry their own labels: side labels
      * are propagated for both geometries (a conflict ends the computation
      * with the labels as they then are), then the null locations are filled. */
    method ComputeLabelling(located: GeomIndex -> Location) returns (r: Outcome)
      requires Valid()
      modifies labels, ptInAreaLocation
      ensures var p0 := Propagation(old(labels[..]), 0);
        var p1 := Propagation(p0.labels, 1);
        if p0.result.SideLocationConflict? then
          r == p0.result && labels[..] == p0.labels && ptInAreaLocation[..] == old(ptInAreaLocation[..])
        else if p1.result.SideLocationConflict? then
          r == p1.result && labels[..] == p1.labels && ptInAreaLocation[..] == old(ptInAreaLocation[..])
        else
          r == Done
          && labels[..] == Resolved(p1.labels, FillFor(p1.labels, 0, old(ptInAreaLocation[0]), located(0)),
                                               FillFor(p1.labels, 1, old(ptInAreaLocation[1]), located(1)))
          && ptInAreaLocation[0] == CacheAfter(p1.labels, 0, |p1.labels|, HasCollapseEdge(p1.labels, 0),
                                               old(ptInAreaLocation[0]), located(0))
          && ptInAreaLocation[1] == CacheAfter(p1.labels, 1, |p1.labels|, HasCollapseEdge(p1.labels, 1),
                                               old(ptInAreaLocation[1]), located(1))
    {
      r := PropagateSideLabels(0);
      if r.SideLocationConflict? {
        return;
      }
      r := PropagateSideLabels(1);
      if r.SideLocationConflict? {
        return;
      }
      ResolveNullLabels(located);
    }
  }
}
