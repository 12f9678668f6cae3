/** What operations on the overlay do to the names in a merged directory, and which directories
are told. */
module DirEvents {
  import opened Names
  import opened Layers
  import opened Lookup
  import opened Merged
  import opened Resolved
  import opened Spots
  import opened NamespaceLaws
  import opened RenameLaws
  import opened OverlayFs
  import opened Runs

  /** What a call has done: made an object, removed one, renamed or exchanged (or failed to),
      copied one up, or failed at a path.  `noted` says that the directory of the path was told. */
  datatype Event =
    | Make(path: Path, node: Node, noted: bool)
    | Drop(path: Path)
    | Rename(move: Move)
    | Copy(path: Path, trunc: bool)
    | Fail(path: Path, noted: bool)

  /** The call takes the upper layer from `u` to `v`. */
  ghost predicate Happens(m: Mount, u: Node, v: Node, e: Event) {
    && u.Dir? && v.Dir?
    && match e
       case Make(p, x, _) =>
         p != [] && !IsDot(Last(p)) && IsNew(x) && At(m, u, p).Absent? && Created(m, u, v, p, x) && HasDir(v, Parent(p))
       case Drop(p) => p != [] && Removed(m, u, v, p) && HasDir(v, Parent(p))
       case Rename(w) =>
         && w.source != [] && w.target != [] && Apart(w.source, w.target)
         && RenameOutcome(m, u, v, w.source, w.target, w.exchange, w.ok) && (w.ok ==> Parents(v, w.source, w.target))
       case Copy(p, trunc) => Positive(At(m, u, p)) && CopyProgress(m, u, v, p, trunc)
       case Fail(p, _) => Shaken(m, u, v, p)
  }

  /** The directories in which a name may have come or gone. */
  function Touched(e: Event): set<Path> {
    match e
    case Make(p, _, _) => if p == [] then {} else {Parent(p)}
    case Drop(p) => if p == [] then {} else {Parent(p)}
    case Rename(w) => if w.ok && w.source != [] && w.target != [] then {Parent(w.source), Parent(w.target)} else {}
    case _ => {}
  }

  /** The directories whose version is counted up. */
  function Noted(e: Event): set<Path> {
    match e
    case Make(p, _, noted) => if noted then Touched(e) else {}
    case Fail(p, noted) => if noted && p != [] then {Parent(p)} else {}
    case _ => Touched(e)
  }

  predicate HasLower(m: Mount, u: Node, p: Path) {
    var o := At(m, u, p);
    o.DirObj? && o.stack != []
  }

  /** Where the merged directory at `p` is afterwards, unless it was removed, overwritten, or
      replaced by an opaque copy of itself. */
  function Trace(m: Mount, v: Node, p: Path, e: Event): Option<Path> {
    match e
    case Make(_, _, _) => Some(p)
    case Drop(q) => if q <= p then None else Some(p)
    case Rename(w) => if w.ok then Follow(p, w) else if HasLower(m, v, p) then Some(p) else None
    case Copy(_, _) => Some(p)
    case Fail(_, _) => if HasLower(m, v, p) then Some(p) else None
  }

  lemma AbsentIsNothing(m: Mount, u: Node, p: Path)
    requires u.Dir?
    ensures At(m, u, p).Absent? <==> View(m, u, p) == Nothing
  {
    ResolveUp(m, Root(m, u), p);
  }

  /** Below something that is no directory there is no directory. */
  lemma NoLowerBelow(m: Mount, u: Node, q: Path, p: Path)
    requires u.Dir? && q <= p && HasLower(m, u, p)
    ensures At(m, u, q).DirObj?
  {
    var r := p[|q|..];
    assert p == q + r;
    AtBelow(m, u, q, r);
    if At(m, u, q).Error? {
      ErrorBelow(m, r);
    } else if r != [] && !At(m, u, q).DirObj? {
      NothingBelow(m, At(m, u, q), r);
    }
  }

  lemma TraceFailed(m: Mount, u: Node, v: Node, q: Path, p: Path)
    requires u.Dir? && v.Dir? && Shaken(m, u, v, q) && HasLower(m, u, p) && HasLower(m, v, p)
    ensures SpotAt(m, v, p) == SpotAt(m, u, p)
  {
    FollowFailed(m, u, v, q, p);
  }

  /** A merged directory keeps its lower directories wherever it goes. */
  lemma TraceSpot(m: Mount, u: Node, v: Node, e: Event, p: Path)
    requires Happens(m, u, v, e) && HasLower(m, u, p) && Trace(m, v, p, e).Some?
    ensures SpotAt(m, v, Trace(m, v, p, e).value) == SpotAt(m, u, p)
    ensures HasLower(m, v, Trace(m, v, p, e).value)
  {
    match e
    case Make(q, x, _) =>
      if q <= p {
        NoLowerBelow(m, u, q, p);
      }
    case Drop(q) =>
    case Rename(w) =>
      if w.ok {
        FollowDone(m, u, v, w, p);
      } else if !w.exchange {
        TraceFailed(m, u, v, w.target, p);
      }
    case Copy(q, trunc) =>
      if q <= p {
        NoLowerBelow(m, u, q, p);
      }
    case Fail(q, _) =>
      TraceFailed(m, u, v, q, p);
  }

  // ---------------------------------------------------------------------------------
  // Which names come and go

  /** Can `n` be looked up in the directory `p`? */
  predicate HasName(m: Mount, u: Node, p: Path, n: Name) {
    !At(m, u, p + [n]).Absent?
  }

  /** The same names can be looked up in the directory `p` of `u` as in `q` of `v`. */
  ghost predicate SameNames(m: Mount, u: Node, p: Path, v: Node, q: Path) {
    forall n :: !IsDot(n) ==> (HasName(m, u, p, n) <==> HasName(m, v, q, n))
  }

  lemma SameSpotFound(m: Mount, u: Node, p: Path, v: Node, q: Path, n: Name)
    requires u.Dir? && v.Dir? && View(m, u, p + [n]) == View(m, v, q + [n])
    ensures HasName(m, u, p, n) <==> HasName(m, v, q, n)
  {
    AbsentIsNothing(m, u, p + [n]);
    AbsentIsNothing(m, v, q + [n]);
  }

  /** A path that is not at or below `q` and not the directory of `q`. */
  lemma Beside(q: Path, p: Path, n: Name)
    requires q != [] && !(q <= p) && p != Parent(q)
    ensures !(q <= p + [n])
  {
    assert |q| <= |p| ==> (p + [n])[..|q|] == p[..|q|];
    assert Parent(p + [n]) == p;
  }

  /** A name moves along with its directory. */
  lemma FollowChild(w: Move, p: Path, n: Name)
    requires w.source != [] && w.target != [] && w.ok && Follow(p, w).Some?
    requires p != Parent(w.source) && p != Parent(w.target)
    ensures Follow(p + [n], w) == Some(Follow(p, w).value + [n])
  {
    if w.source <= p {
      ChildTail(w.source, w.target, p, n);
    } else {
      Beside(w.source, p, n);
      if w.target <= p {
        ChildTail(w.target, w.source, p, n);
      } else {
        Beside(w.target, p, n);
      }
    }
  }

  lemma ChildTail(s: Path, t: Path, p: Path, n: Name)
    requires s <= p
    ensures s <= p + [n] && t + (p + [n])[|s|..] == t + p[|s|..] + [n]
  {
    assert (p + [n])[|s|..] == p[|s|..] + [n];
  }

  lemma FollowFound(m: Mount, u: Node, v: Node, w: Move, p: Path, n: Name)
    requires Happens(m, u, v, Rename(w)) && w.ok && Follow(p, w).Some? && p !in Touched(Rename(w))
    ensures HasName(m, u, p, n) <==> HasName(m, v, Follow(p, w).value, n)
  {
    FollowChild(w, p, n);
    FollowDone(m, u, v, w, p + [n]);
    SameSpotFound(m, u, p, v, Follow(p, w).value, n);
  }

  lemma CopyFound(m: Mount, u: Node, v: Node, q: Path, trunc: bool, p: Path, n: Name)
    requires Happens(m, u, v, Copy(q, trunc)) && HasLower(m, u, p)
    ensures HasName(m, u, p, n) <==> HasName(m, v, p, n)
  {
    if q <= p {
      NoLowerBelow(m, u, q, p);
    }
    if u != v && q <= p + [n] && Truncates(At(m, u, q), trunc) && Get(v, q).Some? {
      assert q == p + [n];
      AbsentIsNothing(m, u, q);
      AbsentIsNothing(m, v, q);
      assert SpotAt(m, v, q).sight == Truncated(View(m, u, q));
    } else {
      assert SpotAt(m, v, p + [n]) == SpotAt(m, u, p + [n]);
      SameSpotFound(m, u, p, v, p, n);
    }
  }

  /** Names come and go only in the directories an event touches. */
  lemma NamesStay(m: Mount, u: Node, v: Node, e: Event, p: Path)
    requires Happens(m, u, v, e) && HasLower(m, u, p) && Trace(m, v, p, e).Some? && p !in Touched(e)
    ensures SameNames(m, u, p, v, Trace(m, v, p, e).value)
  {
    forall n: Name | !IsDot(n)
      ensures HasName(m, u, p, n) <==> HasName(m, v, Trace(m, v, p, e).value, n)
    {
      NameStays(m, u, v, e, p, n);
    }
  }

  lemma NameStays(m: Mount, u: Node, v: Node, e: Event, p: Path, n: Name)
    requires Happens(m, u, v, e) && HasLower(m, u, p) && Trace(m, v, p, e).Some? && p !in Touched(e)
    ensures HasName(m, u, p, n) <==> HasName(m, v, Trace(m, v, p, e).value, n)
  {
    match e
    case Make(q, x, _) =>
      if q <= p {
        NoLowerBelow(m, u, q, p);
      }
      Beside(q, p, n);
      assert SpotAt(m, v, p + [n]) == SpotAt(m, u, p + [n]);
      SameSpotFound(m, u, p, v, p, n);
    case Drop(q) =>
      Beside(q, p, n);
      assert SpotAt(m, v, p + [n]) == SpotAt(m, u, p + [n]);
      SameSpotFound(m, u, p, v, p, n);
    case Rename(w) =>
      if w.ok {
        FollowFound(m, u, v, w, p, n);
      } else {
        FailedFound(m, u, v, w.target, p, n);
      }
    case Copy(q, trunc) =>
      CopyFound(m, u, v, q, trunc, p, n);
    case Fail(q, _) =>
      FailedFound(m, u, v, q, p, n);
  }

  lemma FailedFound(m: Mount, u: Node, v: Node, q: Path, p: Path, n: Name)
    requires u.Dir? && v.Dir? && (SameSpots(m, u, v) || Shaken(m, u, v, q))
    ensures HasName(m, u, p, n) <==> HasName(m, v, p, n)
  {
    if SameSpots(m, u, v) {
      SameSpotsView(m, u, v);
    }
    SameSpotFound(m, u, p, v, p, n);
  }

  /** What a new object does to the names of its directory. */
  lemma NameMade(m: Mount, u: Node, v: Node, e: Event, p: Path, n: Name)
    requires e.Make? && Happens(m, u, v, e) && p == Parent(e.path) && !IsDot(n)
    ensures HasName(m, v, p, n) <==> HasName(m, u, p, n) || n == Last(e.path)
    ensures !HasName(m, u, p, Last(e.path))
  {
    var q := e.path;
    assert q == p + [Last(q)];
    if n == Last(q) {
      AbsentIsNothing(m, v, q);
      assert SpotAt(m, v, q).sight != Nothing;
    } else {
      assert (p + [n])[|p|] != q[|p|];
      assert SpotAt(m, v, p + [n]) == SpotAt(m, u, p + [n]);
      SameSpotFound(m, u, p, v, p, n);
    }
  }

  // ---------------------------------------------------------------------------------
  // Which directories are told

  /** A directory whose version is counted: it has an upper and a lower part, or several lower
      ones. */
  predicate Merging(o: Obj) {
    o.DirObj? && (if o.up.Some? then o.stack != [] else |o.stack| > 1)
  }

  lemma ParentApart(p: Path, q: Path)
    requires p != [] && q != [] && Apart(p, q)
    ensures !(p <= Parent(q)) && !(q <= Parent(p))
  {
    assert p <= Parent(q) ==> p <= q;
    assert q <= Parent(p) ==> q <= p;
  }

  /** A directory in which a name has come or gone has not moved, and both layers have it, so its
      version is counted. */
  lemma TouchedIsMerging(m: Mount, u: Node, v: Node, e: Event, p: Path)
    requires Happens(m, u, v, e) && HasLower(m, u, p) && p in Touched(e)
    ensures Trace(m, v, p, e) == Some(p) && Merging(At(m, v, p))
  {
    if e.Rename? {
      ParentApart(e.move.source, e.move.target);
    }
    assert HasDir(v, p);
    TraceSpot(m, u, v, e, p);
    ResolveUp(m, Root(m, v), p);
  }

  // ---------------------------------------------------------------------------------
  // Whole runs

  ghost predicate EventRun(m: Mount, us: seq<Node>, es: seq<Event>) {
    |us| == |es| + 1 && forall i: nat :: i < |es| ==> Step(m, us, es, i)
  }

  ghost predicate Step(m: Mount, us: seq<Node>, es: seq<Event>, i: nat)
    requires |us| == |es| + 1 && i < |es|
  {
    Happens(m, us[i], us[i + 1], es[i])
  }

  /** Where the directory that was at `p` first is after `n` events. */
  function TraceAll(m: Mount, us: seq<Node>, es: seq<Event>, p: Path, n: nat): Option<Path>
    requires |us| == |es| + 1 && n <= |es|
  {
    if n == 0 then Some(p)
    else
      match TraceAll(m, us, es, p, n - 1)
      case None => None
      case Some(q) => Trace(m, us[n], q, es[n - 1])
  }

  /** Event `i` touches the directory that was at `p` first. */
  predicate TouchedAt(m: Mount, us: seq<Node>, es: seq<Event>, p: Path, i: nat)
    requires |us| == |es| + 1 && i < |es|
  {
    var q := TraceAll(m, us, es, p, i);
    q.Some? && q.value in Touched(es[i])
  }

  /** Over every run of operations, failed ones included, a merged directory that is not touched has
      the names it had first, wherever it was moved. */
  lemma {:induction false} RunNames(m: Mount, us: seq<Node>, es: seq<Event>, p: Path, n: nat)
    requires EventRun(m, us, es) && n <= |es| && HasLower(m, us[0], p) && TraceAll(m, us, es, p, n).Some?
    requires forall i: nat :: i < n ==> !TouchedAt(m, us, es, p, i)
    ensures var q := TraceAll(m, us, es, p, n).value;
      SpotAt(m, us[n], q) == SpotAt(m, us[0], p) && HasLower(m, us[n], q) && SameNames(m, us[0], p, us[n], q)
  {
    if n == 0 {
    } else {
      RunNames(m, us, es, p, n - 1);
      assert Step(m, us, es, n - 1) && !TouchedAt(m, us, es, p, n - 1);
      RunStep(m, us[0], p, us[n - 1], TraceAll(m, us, es, p, n - 1).value, us[n], es[n - 1]);
    }
  }

  lemma RunStep(m: Mount, u0: Node, p: Path, u: Node, q: Path, v: Node, e: Event)
    requires Happens(m, u, v, e) && HasLower(m, u, q) && Trace(m, v, q, e).Some? && q !in Touched(e)
    requires SameNames(m, u0, p, u, q)
    ensures var r := Trace(m, v, q, e).value;
      SpotAt(m, v, r) == SpotAt(m, u, q) && HasLower(m, v, r) && SameNames(m, u0, p, v, r)
  {
    TraceSpot(m, u, v, e, q);
    NamesStay(m, u, v, e, q);
  }
}
