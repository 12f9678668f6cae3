/** What stands at each path of the overlay, lower directories included.

A spot is the full account of one path: what is seen there and, for a directory, the lower
directories it merges with and the lower path that leads to them.  The laws below say how a
change of one upper entry shows in the spots. */
module Spots {
  import opened Names
  import opened Layers
  import opened Lookup
  import opened LookupLaws
  import opened Merged
  import opened Located

  datatype Spot = Spot(sight: Sight, stack: seq<Lower>, loc: Path)

  const EMPTY := Spot(Nothing, [], [])

  function SpotOf(o: Obj, loc: Path): Spot {
    if o.DirObj? && o.stack != [] then Spot(See(o), o.stack, loc) else Spot(See(o), [], [])
  }

  function SpotBelow(m: Mount, o: Obj, loc: Path, q: Path): Spot {
    SpotOf(Resolve(m, o, q), LocFrom(m, o, loc, q))
  }

  function SpotAt(m: Mount, u: Node, p: Path): Spot {
    SpotBelow(m, Root(m, u), [], p)
  }

  ghost predicate SameSpots(m: Mount, u: Node, v: Node) {
    forall p: Path :: SpotAt(m, v, p) == SpotAt(m, u, p)
  }

  lemma SpotConcat(m: Mount, u: Node, p: Path, q: Path)
    ensures SpotAt(m, u, p + q) == SpotBelow(m, At(m, u, p), Loc(m, u, p), q)
  {
    ResolveConcat(m, Root(m, u), p, q);
    LocConcat(m, Root(m, u), [], p, q);
  }

  lemma SameSpotsView(m: Mount, u: Node, v: Node)
    requires SameSpots(m, u, v)
    ensures SameView(m, u, v)
  {
    forall p: Path
      ensures View(m, v, p) == View(m, u, p)
    {
      assert SpotAt(m, v, p) == SpotAt(m, u, p);
    }
  }

  // ---------------------------------------------------------------------------------
  // Below a directory

  /** A merged child of a directory that does not merge has an absolute redirect. */
  lemma PlainParent(m: Mount, d: Obj, name: Name)
    requires d.DirObj? && d.stack == []
    ensures var c := Child(m, d, name);
      c.DirObj? && c.stack != [] ==> c.redirect.Some? && c.redirect.value.Abs?
  {
    var one := UpperOne(d.up, name);
    if one.Hit? && one.node.Dir? {
      EntryDir(m, one.node, name, d.stack, d.isRoot);
    }
  }

  /** Below a directory that does not merge, lower paths do not depend on its own. */
  lemma {:induction false} PlainBelow(m: Mount, o: Obj, loc: Path, loc': Path, q: Path)
    requires q != [] && (o.DirObj? ==> o.stack == [])
    ensures SpotBelow(m, o, loc, q) == SpotBelow(m, o, loc', q)
    decreases |q|
  {
    if !o.DirObj? {
      BelowNoDir(m, o, q);
    } else {
      var c := Child(m, o, q[0]);
      PlainParent(m, o, q[0]);
      if |q| > 1 && (c.DirObj? ==> c.stack == []) {
        PlainBelow(m, c, ChildLoc(loc, c, q[0]), ChildLoc(loc', c, q[0]), q[1..]);
      } else if |q| == 1 {
        assert q[1..] == [];
        assert Resolve(m, o, q) == Resolve(m, c, []) == c;
        assert LocFrom(m, o, loc, q) == LocFrom(m, c, ChildLoc(loc, c, q[0]), []) == ChildLoc(loc, c, q[0]);
        assert LocFrom(m, o, loc', q) == LocFrom(m, c, ChildLoc(loc', c, q[0]), []) == ChildLoc(loc', c, q[0]);
      }
    }
  }

  lemma {:induction false} BelowNoDir(m: Mount, o: Obj, q: Path)
    requires !o.DirObj?
    ensures !Resolve(m, o, q).DirObj?
    decreases |q|
  {
    if q == [] {
    } else {
      BelowNoDir(m, Child(m, o, q[0]), q[1..]);
    }
  }

  /** Two directories with the same upper entries and the same stack have the same spots below
      them, provided they lie at the same lower path if they merge. */
  lemma SameBelow(m: Mount, o: Obj, o': Obj, loc: Path, loc': Path, q: Path)
    requires o.DirObj? && o'.DirObj? && o.stack == o'.stack && o.isRoot == o'.isRoot && q != []
    requires forall n :: UpperOne(o.up, n) == UpperOne(o'.up, n)
    requires o.stack != [] ==> loc == loc'
    ensures SpotBelow(m, o, loc, q) == SpotBelow(m, o', loc', q)
  {
    assert UpperOne(o.up, q[0]) == UpperOne(o'.up, q[0]);
    assert Child(m, o, q[0]) == Child(m, o', q[0]);
    assert Resolve(m, o, q) == Resolve(m, o', q) && LocFrom(m, o, loc, q) == LocFrom(m, o', loc, q);
    if o.stack == [] {
      PlainBelow(m, o', loc, loc', q);
    }
  }

  lemma AbsentBelow(m: Mount, o: Obj, loc: Path, q: Path)
    requires o.Absent?
    ensures SpotBelow(m, o, loc, q) == EMPTY
  {
    if q != [] {
      NothingBelow(m, o, q);
    }
  }

  lemma FileBelow(m: Mount, o: Obj, loc: Path, q: Path)
    requires o.FileObj? && q != []
    ensures SpotBelow(m, o, loc, q) == EMPTY
  {
    NothingBelow(m, o, q);
  }

  // ---------------------------------------------------------------------------------
  // Elsewhere

  lemma {:induction false} LocPatched(m: Mount, o: Obj, loc: Path, p: Path, x: Option<Node>, q: Path)
    requires p != [] && UpIsDir(o) && !(p <= q)
    ensures LocFrom(m, Patched(o, p, x), loc, q) == LocFrom(m, o, loc, q)
    decreases |q|
  {
    if q == [] {
    } else {
      var c := q[0];
      if c == p[0] {
        Descend(p, q);
        ChildPatched(m, o, p, x, c);
        var d := Child(m, o, c);
        assert ChildLoc(loc, Patched(d, p[1..], x), c) == ChildLoc(loc, d, c);
        LocPatched(m, d, ChildLoc(loc, d, c), p[1..], x, q[1..]);
      } else {
        ChildPatched(m, o, p, x, c);
      }
    }
  }

  /** Changing one upper entry leaves every spot not below it alone. */
  lemma SpotElsewhere(m: Mount, u: Node, p: Path, x: Option<Node>, q: Path)
    requires u.Dir? && p != [] && !(p <= q)
    ensures SpotAt(m, Put(u, p, x), q) == SpotAt(m, u, q)
  {
    AtPut(m, u, p, x, q);
    LocPatched(m, Root(m, u), [], p, x, q);
  }

  /** The spots at and below a changed entry follow from the object it now stands for. */
  lemma SpotHere(m: Mount, u: Node, p: Path, x: Option<Node>, q: Path)
    requires u.Dir? && p != [] && p <= q
    requires HasDir(u, Parent(p)) && At(m, u, Parent(p)).DirObj? && !IsDot(Last(p))
    ensures var d := At(m, u, Parent(p));
      var o := LookupEntry(m, AsOne(x), Last(p), d.stack, d.isRoot);
      SpotAt(m, Put(u, p, x), q) == SpotBelow(m, o, ChildLoc(Loc(m, u, Parent(p)), o, Last(p)), q[|p|..])
  {
    var v := Put(u, p, x);
    AtPutHere(m, u, p, x);
    assert q == p + q[|p|..];
    SpotConcat(m, v, p, q[|p|..]);
    LocSnoc(m, v, p);
    LocPatched(m, Root(m, u), [], p, x, Parent(p));
  }

  /** The spots below `p` before the change, in the same form. */
  lemma SpotBefore(m: Mount, u: Node, p: Path, q: Path)
    requires p != [] && p <= q
    ensures var o := At(m, u, p);
      SpotAt(m, u, q) == SpotBelow(m, o, ChildLoc(Loc(m, u, Parent(p)), o, Last(p)), q[|p|..])
  {
    assert q == p + q[|p|..];
    SpotConcat(m, u, p, q[|p|..]);
    LocSnoc(m, u, p);
  }
}
