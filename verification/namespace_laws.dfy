/** How the changes made by copy-up, create, remove and rename show in the merged tree. */
module NamespaceLaws {
  import opened Names
  import opened Layers
  import opened Lookup
  import opened LookupLaws
  import opened Merged
  import opened Located
  import opened Spots

  /** An entry of the upper layer may be put at `p`: its directory is there and can be seen. */
  ghost predicate CanPut(m: Mount, u: Node, p: Path) {
    u.Dir? && p != [] && HasDir(u, Parent(p)) && At(m, u, Parent(p)).DirObj? && !IsDot(Last(p))
  }

  /** The object at `p` once the upper entry there is `x`. */
  function With(m: Mount, u: Node, p: Path, x: Option<Node>): Obj
    requires CanPut(m, u, p)
  {
    var d := At(m, u, Parent(p));
    LookupEntry(m, AsOne(x), Last(p), d.stack, d.isRoot)
  }

  lemma CurrentEntry(m: Mount, u: Node, p: Path)
    requires CanPut(m, u, p)
    ensures At(m, u, p) == With(m, u, p, Get(u, p))
  {
    AtChild(m, u, p);
    ResolveUp(m, Root(m, u), Parent(p));
    assert p == Parent(p) + [Last(p)];
    GetConcat(u, Parent(p), [Last(p)]);
    GetOne(Get(u, Parent(p)).value, Last(p));
  }

  /** Replacing the entry at `p` by one that stands for the same thing changes no spot. */
  lemma SameHere(m: Mount, u: Node, p: Path, x: Option<Node>)
    requires CanPut(m, u, p)
    requires var o, o' := At(m, u, p), With(m, u, p, x);
      && o.DirObj? && o'.DirObj? && o.stack == o'.stack && See(o) == See(o') && !o.isRoot && !o'.isRoot
      && (o.stack != [] ==>
            ChildLoc(Loc(m, u, Parent(p)), o, Last(p)) == ChildLoc(Loc(m, u, Parent(p)), o', Last(p)))
      && forall n :: UpperOne(o.up, n) == UpperOne(o'.up, n)
    ensures SameSpots(m, u, Put(u, p, x))
  {
    var o, o' := At(m, u, p), With(m, u, p, x);
    var loc := Loc(m, u, Parent(p));
    forall q: Path
      ensures SpotAt(m, Put(u, p, x), q) == SpotAt(m, u, q)
    {
      if p <= q {
        SpotHere(m, u, p, x, q);
        SpotBefore(m, u, p, q);
        var r := q[|p|..];
        if r != [] {
          SameBelow(m, o, o', ChildLoc(loc, o, Last(p)), ChildLoc(loc, o', Last(p)), r);
        }
      } else {
        SpotElsewhere(m, u, p, x, q);
      }
    }
  }

  // ---------------------------------------------------------------------------------
  // Copy up

  /** The upper entry a finished copy up of `o` installs. */
  function CopyOf(o: Obj): Node {
    match o
    case FileObj(_, n) => n
    case DirObj(_, _, _, stack, _) =>
      Dir(if stack != [] then MetaOf(stack[0].node) else 0, false, None, true, map[])
    case _ => Broken
  }

  ghost predicate LowerOnly(m: Mount, u: Node, p: Path) {
    CanPut(m, u, p) && Get(u, p).None? && (At(m, u, p).DirObj? || At(m, u, p).FileObj?)
  }

  /** A file copied up with its metadata and its whole content, or a directory copied up
      without marks, changes no spot of the overlay. */
  lemma CopyUpKeeps(m: Mount, u: Node, p: Path)
    requires LowerOnly(m, u, p)
    ensures SameSpots(m, u, Put(u, p, Some(CopyOf(At(m, u, p)))))
  {
    var o := At(m, u, p);
    var x := CopyOf(o);
    CurrentEntry(m, u, p);
    var d := At(m, u, Parent(p));
    ResolveUp(m, Root(m, u), p);
    if o.DirObj? {
      EntryPlainDir(m, x, Last(p), d.stack, d.isRoot);
      SameHere(m, u, p, Some(x));
    } else {
      FileChange(m, u, p, x);
      forall q: Path
        ensures SpotAt(m, Put(u, p, Some(x)), q) == SpotAt(m, u, q)
      {
        if p <= q {
          SpotBefore(m, u, p, q);
          if q[|p|..] != [] {
            FileBelow(m, o, ChildLoc(Loc(m, u, Parent(p)), o, Last(p)), q[|p|..]);
          } else {
            assert q == p;
          }
        }
      }
    }
  }

  /** Only `p` itself may look different, and nothing is below it. */
  ghost predicate FileAt(m: Mount, u: Node, v: Node, p: Path, sight: Sight) {
    forall q: Path ::
      SpotAt(m, v, q) == if !(p <= q) then SpotAt(m, u, q) else if q == p then Spot(sight, [], []) else EMPTY
  }

  /** A file entry is seen as it is. */
  lemma FileChange(m: Mount, u: Node, p: Path, x: Node)
    requires CanPut(m, u, p) && x.Leaf?
    ensures FileAt(m, u, Put(u, p, Some(x)), p, FileSight(x))
  {
    var d := At(m, u, Parent(p));
    EntryOther(m, x, Last(p), d.stack, d.isRoot);
    var o := With(m, u, p, Some(x));
    forall q: Path
      ensures SpotAt(m, Put(u, p, Some(x)), q) ==
              if !(p <= q) then SpotAt(m, u, q) else if q == p then Spot(FileSight(x), [], []) else EMPTY
    {
      if p <= q {
        SpotHere(m, u, p, Some(x), q);
        if q == p {
          assert q[|p|..] == [];
        } else {
          FileBelow(m, o, ChildLoc(Loc(m, u, Parent(p)), o, Last(p)), q[|p|..]);
        }
      } else {
        SpotElsewhere(m, u, p, Some(x), q);
      }
    }
  }

  // ---------------------------------------------------------------------------------
  // Create

  /** A new, empty directory with metadata `meta` stands at `p`; nothing else changed. */
  ghost predicate EmptyDirAt(m: Mount, u: Node, v: Node, p: Path, meta: int) {
    && (forall q: Path :: !(p <= q) ==> SpotAt(m, v, q) == SpotAt(m, u, q))
    && SpotAt(m, v, p) == Spot(ADir(meta), [], [])
    && forall q: Path :: p < q && !IsDot(q[|p|]) ==> SpotAt(m, v, q) == EMPTY
  }

  /** Nothing is below a directory that has no entries and no stack. */
  lemma EmptyBelow(m: Mount, o: Obj, loc: Path, q: Path)
    requires o.DirObj? && o.stack == [] && o.up.Some? && o.up.value.Dir? && o.up.value.entries == map[]
    requires q != [] && !IsDot(q[0])
    ensures SpotBelow(m, o, loc, q) == EMPTY
  {
    EntryMissing(m, q[0], [], o.isRoot);
    var c := Child(m, o, q[0]);
    assert c == Absent(false);
    AbsentBelow(m, c, ChildLoc(loc, c, q[0]), q[1..]);
  }

  /** A new directory is empty in the merged tree: because it is opaque, or, over a name that
      has no upper entry, because the first lower entry of an absent name is a whiteout. */
  lemma NewDirIsEmpty(m: Mount, u: Node, p: Path, x: Node)
    requires CanPut(m, u, p) && At(m, u, p).Absent?
    requires x.Dir? && x.entries == map[] && x.redirect.None?
    requires x.isOpaque || Get(u, p).None?
    ensures EmptyDirAt(m, u, Put(u, p, Some(x)), p, x.meta)
  {
    var d := At(m, u, Parent(p));
    CurrentEntry(m, u, p);
    EntryDir(m, x, Last(p), d.stack, d.isRoot);
    if !x.isOpaque {
      EntryPlainDir(m, x, Last(p), d.stack, d.isRoot);
    }
    var o := With(m, u, p, Some(x));
    assert o.DirObj? && o.stack == [] && o.up == Some(x);
    forall q: Path | !(p <= q)
      ensures SpotAt(m, Put(u, p, Some(x)), q) == SpotAt(m, u, q)
    {
      SpotElsewhere(m, u, p, Some(x), q);
    }
    SpotHere(m, u, p, Some(x), p);
    assert p[|p|..] == [];
    forall q: Path | p < q && !IsDot(q[|p|])
      ensures SpotAt(m, Put(u, p, Some(x)), q) == EMPTY
    {
      SpotHere(m, u, p, Some(x), q);
      EmptyBelow(m, o, ChildLoc(Loc(m, u, Parent(p)), o, Last(p)), q[|p|..]);
    }
  }

  // ---------------------------------------------------------------------------------
  // Remove

  /** Nothing stands at `p` or below any more; nothing else changed. */
  ghost predicate Removed(m: Mount, u: Node, v: Node, p: Path) {
    forall q: Path :: SpotAt(m, v, q) == if p <= q then EMPTY else SpotAt(m, u, q)
  }

  lemma AbsentHere(m: Mount, u: Node, p: Path, x: Option<Node>)
    requires CanPut(m, u, p) && With(m, u, p, x).Absent?
    ensures Removed(m, u, Put(u, p, x), p)
  {
    var o := With(m, u, p, x);
    forall q: Path
      ensures SpotAt(m, Put(u, p, x), q) == if p <= q then EMPTY else SpotAt(m, u, q)
    {
      if p <= q {
        SpotHere(m, u, p, x, q);
        AbsentBelow(m, o, ChildLoc(Loc(m, u, Parent(p)), o, Last(p)), q[|p|..]);
      } else {
        SpotElsewhere(m, u, p, x, q);
      }
    }
  }

  lemma WhiteoutRemoves(m: Mount, u: Node, p: Path)
    requires CanPut(m, u, p)
    ensures Removed(m, u, Put(u, p, Some(White)), p)
  {
    var d := At(m, u, Parent(p));
    EntryOther(m, White, Last(p), d.stack, d.isRoot);
    AbsentHere(m, u, p, Some(White));
  }

  /** Without a whiteout, removing the upper entry is enough iff the name does not exist below:
      otherwise a lower entry (or a lookup error) would show. */
  lemma DeleteRemoves(m: Mount, u: Node, p: Path)
    requires CanPut(m, u, p)
    ensures var d := At(m, u, Parent(p));
      Removed(m, u, Put(u, p, None), p) <==> !LowerPositive(d.stack, Last(p))
  {
    var d := At(m, u, Parent(p));
    EntryMissing(m, Last(p), d.stack, d.isRoot);
    if !LowerPositive(d.stack, Last(p)) {
      AbsentHere(m, u, p, None);
    } else {
      SpotHere(m, u, p, None, p);
      assert p[|p|..] == [];
      assert !With(m, u, p, None).Absent?;
      AtPutHere(m, u, p, None);
      ResolveUp(m, Root(m, Put(u, p, None)), p);
      assert SpotAt(m, Put(u, p, None), p) != EMPTY;
    }
  }

  /** No name can be found in the directory. */
  ghost predicate MergedEmpty(m: Mount, o: Obj) {
    forall n: Name :: !IsDot(n) ==> Child(m, o, n).Absent?
  }

  /** Replacing a merged-empty directory by an opaque empty one with the same metadata is not
      seen. */
  lemma ClearEmptyKeepsView(m: Mount, u: Node, p: Path, x: Node)
    requires CanPut(m, u, p)
    requires At(m, u, p).DirObj? && MergedEmpty(m, At(m, u, p))
    requires x.Dir? && x.isOpaque && x.entries == map[] && ADir(x.meta) == See(At(m, u, p))
    ensures SameView(m, u, Put(u, p, Some(x)))
    ensures forall q: Path :: !(p <= q) ==> SpotAt(m, Put(u, p, Some(x)), q) == SpotAt(m, u, q)
    ensures At(m, Put(u, p, Some(x)), p).DirObj? && At(m, Put(u, p, Some(x)), p).stack == []
  {
    var v := Put(u, p, Some(x));
    var d := At(m, u, Parent(p));
    var o := At(m, u, p);
    EntryDir(m, x, Last(p), d.stack, d.isRoot);
    AtPutHere(m, u, p, Some(x));
    var o' := At(m, v, p);
    forall q: Path
      ensures View(m, v, q) == View(m, u, q)
      ensures !(p <= q) ==> SpotAt(m, v, q) == SpotAt(m, u, q)
    {
      if p <= q {
        var r := q[|p|..];
        assert q == p + r;
        AtBelow(m, u, p, r);
        AtBelow(m, v, p, r);
        if r != [] {
          EmptyViews(m, o, o', r);
        }
      } else {
        AtPut(m, u, p, Some(x), q);
        SpotElsewhere(m, u, p, Some(x), q);
      }
    }
  }

  lemma EmptyViews(m: Mount, o: Obj, o': Obj, r: Path)
    requires o.DirObj? && MergedEmpty(m, o) && r != []
    requires o'.DirObj? && o'.stack == [] && o'.up.Some? && o'.up.value.Dir? && o'.up.value.entries == map[]
    ensures See(Resolve(m, o, r)) == See(Resolve(m, o', r))
  {
    if IsDot(r[0]) {
      ErrorBelow(m, r[1..]);
    } else {
      EntryMissing(m, r[0], [], o'.isRoot);
      assert Child(m, o, r[0]).Absent?;
      if r[1..] != [] {
        NothingBelow(m, Child(m, o, r[0]), r[1..]);
        NothingBelow(m, Child(m, o', r[0]), r[1..]);
      }
    }
  }

  // ---------------------------------------------------------------------------------
  // Equal spots

  /** Equal spots stand for the same kind of object with the same stack. */
  lemma SpotKind(m: Mount, u: Node, v: Node, p: Path)
    requires u.Dir? && v.Dir? && SpotAt(m, u, p) == SpotAt(m, v, p)
    ensures At(m, u, p).DirObj? <==> At(m, v, p).DirObj?
    ensures At(m, u, p).DirObj? ==> At(m, u, p).stack == At(m, v, p).stack
    ensures At(m, u, p).FileObj? <==> At(m, v, p).FileObj?
    ensures At(m, u, p).Absent? <==> At(m, v, p).Absent?
    ensures At(m, u, p).Error? <==> At(m, v, p).Error?
    ensures See(At(m, u, p)) == See(At(m, v, p))
    ensures At(m, u, p).DirObj? && At(m, u, p).stack != [] ==> Loc(m, u, p) == Loc(m, v, p)
  {
    ResolveUp(m, Root(m, u), p);
    ResolveUp(m, Root(m, v), p);
  }

  lemma SameSpotsTrans(m: Mount, u: Node, v: Node, w: Node)
    requires SameSpots(m, u, v) && SameSpots(m, v, w)
    ensures SameSpots(m, u, w)
  {
    forall p: Path
      ensures SpotAt(m, w, p) == SpotAt(m, u, p)
    {
      assert SpotAt(m, w, p) == SpotAt(m, v, p);
    }
  }

  lemma SameViewTrans(m: Mount, u: Node, v: Node, w: Node)
    requires SameView(m, u, v) && SameView(m, v, w)
    ensures SameView(m, u, w)
  {
    forall p: Path
      ensures View(m, w, p) == View(m, u, p)
    {
      assert View(m, w, p) == View(m, v, p);
    }
  }
}
