/** How a rename of upper entries shows in the merged tree, and what the marks written before
it are for. */
module RenameLaws {
  import opened Names
  import opened Layers
  import opened Lookup
  import opened LookupLaws
  import opened Merged
  import opened Located
  import opened Spots
  import opened NamespaceLaws

  predicate Apart(p: Path, q: Path) {
    !(p <= q) && !(q <= p)
  }

  /** The rename of the merged tree: all that was at `old` is at `new`, with its lower
      directories and lower paths; nothing is left at `old`; nothing else changed. */
  ghost predicate Renamed(m: Mount, u: Node, v: Node, old': Path, new': Path) {
    forall q: Path ::
      SpotAt(m, v, q) ==
        if new' <= q then SpotAt(m, u, old' + q[|new'|..])
        else if old' <= q then EMPTY
        else SpotAt(m, u, q)
  }

  /** The exchange of two names of the merged tree. */
  ghost predicate Exchanged(m: Mount, u: Node, v: Node, old': Path, new': Path) {
    forall q: Path ::
      SpotAt(m, v, q) ==
        if new' <= q then SpotAt(m, u, old' + q[|new'|..])
        else if old' <= q then SpotAt(m, u, new' + q[|old'|..])
        else SpotAt(m, u, q)
  }

  // ---------------------------------------------------------------------------------
  // Two entries at once

  lemma OneAfterOther(m: Mount, u: Node, p: Path, x: Option<Node>, q: Path, y: Option<Node>)
    requires Apart(p, q) && CanPut(m, u, p) && CanPut(m, u, q)
    ensures var v := Put(u, p, x);
      CanPut(m, v, q) && With(m, v, q, y) == With(m, u, q, y) && Loc(m, v, Parent(q)) == Loc(m, u, Parent(q))
  {
    var r := Parent(q);
    assert p <= r ==> p <= q;
    PutElsewhere(u, p, x, r);
    AtPut(m, u, p, x, r);
    LocPatched(m, Root(m, u), [], p, x, r);
  }

  /** The spots after two entries, neither below the other, were replaced. */
  lemma TwoPuts(m: Mount, u: Node, p: Path, x: Option<Node>, q: Path, y: Option<Node>, r: Path)
    requires Apart(p, q) && CanPut(m, u, p) && CanPut(m, u, q)
    ensures SpotAt(m, Put(Put(u, p, x), q, y), r) ==
      if q <= r then
        SpotBelow(m, With(m, u, q, y), ChildLoc(Loc(m, u, Parent(q)), With(m, u, q, y), Last(q)), r[|q|..])
      else if p <= r then
        SpotBelow(m, With(m, u, p, x), ChildLoc(Loc(m, u, Parent(p)), With(m, u, p, x), Last(p)), r[|p|..])
      else SpotAt(m, u, r)
  {
    var v := Put(u, p, x);
    OneAfterOther(m, u, p, x, q, y);
    if q <= r {
      SpotHere(m, v, q, y, r);
    } else {
      SpotElsewhere(m, v, q, y, r);
      if p <= r {
        SpotHere(m, u, p, x, r);
      } else {
        SpotElsewhere(m, u, p, x, r);
      }
    }
  }

  // ---------------------------------------------------------------------------------
  // Entries that can be moved

  /** `o'` at the lower path `loc'` stands for the same thing as `o` at `loc`. */
  ghost predicate Stands(o: Obj, loc: Path, o': Obj, loc': Path) {
    || (o.FileObj? && o'.FileObj? && See(o) == See(o'))
    || (&& o.DirObj? && o'.DirObj? && o.stack == o'.stack && See(o) == See(o') && !o.isRoot && !o'.isRoot
        && (o.stack != [] ==> loc == loc')
        && forall n :: UpperOne(o.up, n) == UpperOne(o'.up, n))
  }

  lemma StandsBelow(m: Mount, o: Obj, loc: Path, o': Obj, loc': Path, r: Path)
    requires Stands(o, loc, o', loc')
    ensures SpotBelow(m, o', loc', r) == SpotBelow(m, o, loc, r)
  {
    if r != [] {
      if o.DirObj? {
        SameBelow(m, o, o', loc, loc', r);
      } else {
        FileBelow(m, o, loc, r);
        FileBelow(m, o', loc', r);
      }
    }
  }

  /** The upper entry at `p`, put at `q`, would stand for the same thing there. */
  ghost predicate Movable(m: Mount, u: Node, p: Path, q: Path) {
    && CanPut(m, u, p) && CanPut(m, u, q) && Get(u, p).Some?
    && var o := With(m, u, q, Get(u, p));
       Stands(At(m, u, p), Loc(m, u, p), o, ChildLoc(Loc(m, u, Parent(q)), o, Last(q)))
  }

  /** Moving an entry that can be moved, and leaving behind one under which nothing is found, is
      the rename of the merged tree. */
  lemma MoveRenames(m: Mount, u: Node, p: Path, q: Path, x: Option<Node>)
    requires Apart(p, q) && Movable(m, u, p, q) && With(m, u, p, x).Absent?
    ensures Renamed(m, u, Put(Put(u, p, x), q, Get(u, p)), p, q)
  {
    var y := Get(u, p);
    var v := Put(Put(u, p, x), q, y);
    forall r: Path
      ensures SpotAt(m, v, r) ==
              if q <= r then SpotAt(m, u, p + r[|q|..]) else if p <= r then EMPTY else SpotAt(m, u, r)
    {
      TwoPuts(m, u, p, x, q, y, r);
      if q <= r {
        Arrived(m, u, p, q, r);
      } else if p <= r {
        AbsentBelow(m, With(m, u, p, x), ChildLoc(Loc(m, u, Parent(p)), With(m, u, p, x), Last(p)), r[|p|..]);
      }
    }
  }

  lemma Arrived(m: Mount, u: Node, p: Path, q: Path, r: Path)
    requires Movable(m, u, p, q) && q <= r
    ensures var o := With(m, u, q, Get(u, p));
      SpotBelow(m, o, ChildLoc(Loc(m, u, Parent(q)), o, Last(q)), r[|q|..]) == SpotAt(m, u, p + r[|q|..])
  {
    var o := With(m, u, q, Get(u, p));
    SpotConcat(m, u, p, r[|q|..]);
    StandsBelow(m, At(m, u, p), Loc(m, u, p), o, ChildLoc(Loc(m, u, Parent(q)), o, Last(q)), r[|q|..]);
  }

  lemma SwapExchanges(m: Mount, u: Node, p: Path, q: Path)
    requires Apart(p, q) && Movable(m, u, p, q) && Movable(m, u, q, p)
    ensures Exchanged(m, u, Put(Put(u, p, Get(u, q)), q, Get(u, p)), p, q)
  {
    var v := Put(Put(u, p, Get(u, q)), q, Get(u, p));
    forall r: Path
      ensures SpotAt(m, v, r) ==
              if q <= r then SpotAt(m, u, p + r[|q|..])
              else if p <= r then SpotAt(m, u, q + r[|p|..]) else SpotAt(m, u, r)
    {
      TwoPuts(m, u, p, Get(u, q), q, Get(u, p), r);
      if q <= r {
        Arrived(m, u, p, q, r);
      } else if p <= r {
        Arrived(m, u, q, p, r);
      }
    }
  }

  /** A file can be moved anywhere. */
  lemma FileMoves(m: Mount, u: Node, p: Path, q: Path)
    requires CanPut(m, u, p) && CanPut(m, u, q) && Get(u, p).Some? && Get(u, p).value.Leaf?
    ensures Movable(m, u, p, q)
  {
    var n := Get(u, p).value;
    CurrentEntry(m, u, p);
    var d, e := At(m, u, Parent(p)), At(m, u, Parent(q));
    EntryOther(m, n, Last(p), d.stack, d.isRoot);
    EntryOther(m, n, Last(q), e.stack, e.isRoot);
  }

  /** A merged directory can be moved anywhere once it has an absolute redirect, and within its
      parent once it has any redirect. */
  lemma MergedMoves(m: Mount, u: Node, p: Path, q: Path)
    requires m.Valid() && m.follow && MergedUpper(m, u, p) && CanPut(m, u, p) && CanPut(m, u, q)
    requires At(m, u, p).redirect.Some?
    requires At(m, u, p).redirect.value.Abs? || Parent(p) == Parent(q)
    ensures Movable(m, u, p, q)
  {
    var e := At(m, u, Parent(q));
    ResolveUp(m, Root(m, u), p);
    MarkKeeps(m, u, p, Last(q), e.stack, e.isRoot);
    LocSnoc(m, u, p);
    RootFlag(m, u, p);
  }

  /** A directory that does not merge can be moved to where it is seen as opaque or where
      nothing lies below. */
  lemma PlainMoves(m: Mount, u: Node, p: Path, q: Path)
    requires CanPut(m, u, p) && CanPut(m, u, q) && HasDir(u, p)
    requires At(m, u, p).DirObj? && At(m, u, p).stack == []
    requires Get(u, p).value.isOpaque || At(m, u, Parent(q)).stack == []
    ensures Movable(m, u, p, q)
  {
    var n := Get(u, p).value;
    CurrentEntry(m, u, p);
    var d, e := At(m, u, Parent(p)), At(m, u, Parent(q));
    EntryDir(m, n, Last(p), d.stack, d.isRoot);
    EntryDir(m, n, Last(q), e.stack, e.isRoot);
  }

  /** A directory that does not merge is renamed by moving it just as it is, without marking it
      opaque, iff a lookup finds no lower directories for it at the new name. */
  lemma UnmarkedMove(m: Mount, u: Node, p: Path, q: Path, x: Option<Node>)
    requires Apart(p, q) && CanPut(m, u, p) && CanPut(m, u, q) && HasDir(u, p) && With(m, u, p, x).Absent?
    requires At(m, u, p).DirObj? && At(m, u, p).stack == []
    ensures var o := With(m, u, q, Get(u, p));
      Renamed(m, u, Put(Put(u, p, x), q, Get(u, p)), p, q) <==> o.DirObj? && o.stack == []
  {
    var o, y := With(m, u, q, Get(u, p)), Get(u, p);
    var v := Put(Put(u, p, x), q, y);
    var d, e := At(m, u, Parent(p)), At(m, u, Parent(q));
    CurrentEntry(m, u, p);
    EntryDir(m, y.value, Last(p), d.stack, d.isRoot);
    EntryDir(m, y.value, Last(q), e.stack, e.isRoot);
    if o.DirObj? && o.stack == [] {
      MoveRenames(m, u, p, q, x);
    } else {
      TwoPuts(m, u, p, x, q, y, q);
      assert p + q[|q|..] == p;
    }
  }

  lemma LowerDirFound(m: Mount, lower: Node, n: Name, x: Node)
    requires m == Mount([lower], true, true) && x == Dir(0, false, None, false, map[])
    requires lower == Dir(0, false, None, false, map[n := x]) && !IsDot(n)
    ensures LookupEntry(m, Missing, n, Roots(m), true).DirObj?
  {
    var d := Start(m, n, Roots(m)).(last := IsLast(m, Roots(m), 0));
    assert LookupLayer(lower, d) == Judge(Hit(x), d, [], []) == Found(d.(isDir := true), Some(x));
    assert Through(m, d.(isDir := true), Roots(m), true, 1, [] + [Lower(1, x)]) == Stack([Lower(1, x)]);
    assert Through(m, Start(m, n, Roots(m)), Roots(m), true, 0, []) == Stack([Lower(1, x)]);
  }

  /** For instance: "a" was copied up once, merges with nothing now and holds a whiteout, so that
      removing it begins with clearing it.  If the clearing fails half way, "a" is only remembered
      as opaque, and is then moved unmarked over "b", which was removed from a lower layer that has
      it as a directory: the lower "b" shows again. */
  lemma UnmarkedExample()
    ensures var empty, dir := Dir(0, false, None, false, map[]), Dir(0, false, None, true, map["c" := White]);
      var m := Mount([Dir(0, false, None, false, map["b" := empty])], true, true);
      var u := Dir(0, false, None, false, map["a" := dir, "b" := White]);
      var v := Put(Put(u, ["a"], None), ["b"], Some(dir));
      && At(m, u, ["a"]) == DirObj(Some(dir), false, None, [], false) && MergedEmpty(m, At(m, u, ["a"]))
      && !Renamed(m, u, v, ["a"], ["b"])
  {
    var a: Name, b: Name, c: Name := "a", "b", "c";
    var empty, dir := Dir(0, false, None, false, map[]), Dir(0, false, None, true, map[c := White]);
    var lower := Dir(0, false, None, false, map[b := empty]);
    var m := Mount([lower], true, true);
    var u := Dir(0, false, None, false, map[a := dir, b := White]);
    assert Parent([a]) == [] && Parent([b]) == [] && Last([a]) == a && Last([b]) == b;
    assert Roots(m) == [Lower(1, lower)];
    EntryMissing(m, a, Roots(m), true);
    assert !LowerPositive(Roots(m), a);
    EntryPlainDir(m, dir, a, Roots(m), true);
    LowerDirFound(m, lower, b, empty);
    EntryPlainDir(m, dir, b, Roots(m), true);
    GetOne(u, a);
    CurrentEntry(m, u, [a]);
    OnlyWhiteouts(m, dir);
    UnmarkedMove(m, u, [a], [b], None);
  }

  /** A directory that merges with nothing and holds whiteouts only is empty. */
  lemma OnlyWhiteouts(m: Mount, dir: Node)
    requires dir.Dir? && forall n :: n in dir.entries ==> dir.entries[n] == White
    ensures MergedEmpty(m, DirObj(Some(dir), false, None, [], false))
  {
    forall n: Name | !IsDot(n)
      ensures Child(m, DirObj(Some(dir), false, None, [], false), n).Absent?
    {
      EntryMissing(m, n, [], false);
      EntryOther(m, White, n, [], false);
    }
  }

  // ---------------------------------------------------------------------------------
  // Marks written before a rename

  /** The redirect `set redirect` leaves on a merged directory. */
  function RedirectFor(m: Mount, u: Node, p: Path, samedir: bool): Node
    requires p != [] && At(m, u, p).DirObj? && At(m, u, p).up.Some? && At(m, u, p).up.value.Dir?
  {
    var o := At(m, u, p);
    var n := o.up.value;
    if o.redirect.Some? && (samedir || o.redirect.value.Abs?) then n
    else if samedir then WithRelative(n, Last(p))
    else WithAbsolute(n, Loc(m, u, p))
  }

  /** Writing it changes no spot, so a rename that fails afterwards has done no harm; and the
      directory can be moved from then on. */
  lemma RedirectKeeps(m: Mount, u: Node, p: Path, samedir: bool)
    requires m.Valid() && m.follow && MergedUpper(m, u, p) && CanPut(m, u, p)
    ensures var v := Put(u, p, Some(RedirectFor(m, u, p, samedir)));
      && SameSpots(m, u, v)
      && CanPut(m, v, p) && MergedUpper(m, v, p) && At(m, v, p).redirect.Some?
      && (At(m, v, p).redirect.value.Abs? || samedir)
  {
    var o, d := At(m, u, p), At(m, u, Parent(p));
    var x := RedirectFor(m, u, p, samedir);
    var v := Put(u, p, Some(x));
    ResolveUp(m, Root(m, u), p);
    CurrentEntry(m, u, p);
    LocSnoc(m, u, p);
    RootFlag(m, u, p);
    if o.redirect.Some? && (samedir || o.redirect.value.Abs?) {
    } else if samedir {
      RelativeKeeps(m, u, p, Last(p));
    } else {
      AbsoluteKeeps(m, u, p, Last(p), d.stack, d.isRoot);
    }
    assert With(m, u, p, Some(x)).up == Some(x);
    SameHere(m, u, p, Some(x));
    AtPutHere(m, u, p, Some(x));
    AtPut(m, u, p, Some(x), Parent(p));
    PutElsewhere(u, p, Some(x), Parent(p));
  }

  /** Marking a directory that does not merge opaque changes no spot. */
  lemma OpaqueKeeps(m: Mount, u: Node, p: Path)
    requires CanPut(m, u, p) && HasDir(u, p) && At(m, u, p).DirObj? && At(m, u, p).stack == []
    ensures var v := Put(u, p, Some(Get(u, p).value.(isOpaque := true)));
      && SameSpots(m, u, v)
      && CanPut(m, v, p) && HasDir(v, p) && Get(v, p).value.isOpaque
      && At(m, v, p).DirObj? && At(m, v, p).stack == []
  {
    var n := Get(u, p).value;
    var x := n.(isOpaque := true);
    var v := Put(u, p, Some(x));
    var d := At(m, u, Parent(p));
    CurrentEntry(m, u, p);
    EntryDir(m, n, Last(p), d.stack, d.isRoot);
    EntryDir(m, x, Last(p), d.stack, d.isRoot);
    RootFlag(m, u, p);
    SameHere(m, u, p, Some(x));
    AtPutHere(m, u, p, Some(x));
    AtPut(m, u, p, Some(x), Parent(p));
    PutElsewhere(u, p, Some(x), Parent(p));
    assert p + [] == p;
    PutGet(u, p, Some(x), []);
  }
}
