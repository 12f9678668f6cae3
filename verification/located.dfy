/** Where a merged directory lives in the lower layers, and the redirects that keep it there. */
module Located {
  import opened Names
  import opened Layers
  import opened Lookup
  import opened LookupLaws
  import opened Merged

  /** The lower path of a child: its absolute redirect, or its parent's path extended by its
      relative redirect or its own name. */
  function ChildLoc(loc: Path, child: Obj, name: Name): Path {
    if child.DirObj? && child.redirect.Some? then
      match child.redirect.value
      case Abs(p) => p
      case Rel(n) => loc + [n]
    else loc + [name]
  }

  /** The lower path of the directory at `p`: nearest absolute redirect, else names and
      relative redirects joined up to the root. */
  function LocFrom(m: Mount, o: Obj, loc: Path, p: Path): Path
    decreases |p|
  {
    if p == [] then loc
    else
      var c := Child(m, o, p[0]);
      LocFrom(m, c, ChildLoc(loc, c, p[0]), p[1..])
  }

  function Loc(m: Mount, u: Node, p: Path): Path {
    LocFrom(m, Root(m, u), [], p)
  }

  lemma {:induction false} LocConcat(m: Mount, o: Obj, loc: Path, p: Path, q: Path)
    ensures LocFrom(m, o, loc, p + q) == LocFrom(m, Resolve(m, o, p), LocFrom(m, o, loc, p), q)
    decreases |p|
  {
    if p == [] {
      assert p + q == q;
    } else {
      assert (p + q)[0] == p[0] && (p + q)[1..] == p[1..] + q;
      var c := Child(m, o, p[0]);
      LocConcat(m, c, ChildLoc(loc, c, p[0]), p[1..], q);
    }
  }

  lemma LocSnoc(m: Mount, u: Node, p: Path)
    requires p != []
    ensures Loc(m, u, p) == ChildLoc(Loc(m, u, Parent(p)), At(m, u, p), Last(p))
  {
    assert p == Parent(p) + [Last(p)];
    LocConcat(m, Root(m, u), [], Parent(p), [Last(p)]);
    AtChild(m, u, p);
    var d, c := At(m, u, Parent(p)), At(m, u, p);
    assert LocFrom(m, d, Loc(m, u, Parent(p)), [Last(p)])
        == LocFrom(m, c, ChildLoc(Loc(m, u, Parent(p)), c, Last(p)), []);
  }

  /** The stack of the child `c` comes from its absolute redirect, or from the stack of a
      parent that merges too. */
  ghost predicate StackSource(m: Mount, d: Obj, c: Obj, name: Name)
    requires d.DirObj? && c.DirObj?
  {
    if c.redirect.None? then
      d.stack != [] && Through(m, DirData(name, false), d.stack, d.isRoot, 0, []) == Stack(c.stack)
    else
      match c.redirect.value
      case Abs(p) => p != [] && Through(m, AbsData(p), Roots(m), true, 0, []) == Stack(c.stack)
      case Rel(r) => d.stack != [] && Through(m, DirData(r, true), d.stack, d.isRoot, 0, []) == Stack(c.stack)
  }

  lemma MergedChild(m: Mount, d: Obj, name: Name)
    requires m.follow && d.DirObj?
    requires Child(m, d, name).DirObj? && Child(m, d, name).stack != []
    ensures !Child(m, d, name).isOpaque && StackSource(m, d, Child(m, d, name), name)
  {
    var one := UpperOne(d.up, name);
    if one.Hit? && one.node.Dir? {
      EntryDir(m, one.node, name, d.stack, d.isRoot);
    } else {
      var s := Start(m, name, d.stack);
      LastIsSet(m, Data(Rel(name), false, false, false, false), s.last, d.stack, d.isRoot, 0, []);
      DirsOnly(m, name, d.stack, d.isRoot, 0);
    }
  }

  lemma RootFlag(m: Mount, u: Node, p: Path)
    requires At(m, u, p).DirObj?
    ensures At(m, u, p).isRoot <==> p == []
  {
    if p != [] {
      AtChild(m, u, p);
    }
  }

  /** Every merged directory merges with exactly the stack its lower path leads to, in every
      upper layer whatsoever. */
  lemma {:induction false} MergedIsLocated(m: Mount, u: Node, p: Path)
    requires m.Valid() && m.follow
    requires At(m, u, p).DirObj? && At(m, u, p).stack != []
    ensures LocStack(m, Loc(m, u, p)) == Stack(At(m, u, p).stack)
    ensures p != [] ==> Loc(m, u, p) != []
    decreases |p|
  {
    if p == [] {
    } else {
      var q := Parent(p);
      var d, c := At(m, u, q), At(m, u, p);
      AtChild(m, u, p);
      MergedChild(m, d, Last(p));
      LocSnoc(m, u, p);
      if c.redirect.None? || c.redirect.value.Rel? {
        MergedIsLocated(m, u, q);
        RootFlag(m, u, q);
        var loc := Loc(m, u, q);
        ChildOfLoc(m, loc, d.stack, if c.redirect.None? then Last(p) else c.redirect.value.name, c.redirect.Some?);
      }
    }
  }

  /** A merged directory that has no absolute redirect has a merged parent. */
  lemma MergedParent(m: Mount, u: Node, p: Path)
    requires m.follow && p != []
    requires At(m, u, p).DirObj? && At(m, u, p).stack != []
    requires !(At(m, u, p).redirect.Some? && At(m, u, p).redirect.value.Abs?)
    ensures At(m, u, Parent(p)).DirObj? && At(m, u, Parent(p)).stack != []
  {
    AtChild(m, u, p);
    MergedChild(m, At(m, u, Parent(p)), Last(p));
  }

  // ---------------------------------------------------------------------------------
  // Setting a redirect

  /** The directory with an absolute redirect to its lower path. */
  function WithAbsolute(n: Node, loc: Path): Node
    requires n.Dir?
  {
    n.(redirect := Some(Join(loc)))
  }

  /** The directory with its old name as relative redirect. */
  function WithRelative(n: Node, name: Name): Node
    requires n.Dir?
  {
    n.(redirect := Some(name))
  }

  /** A directory below the root that is in the upper layer and merges with lower ones. */
  ghost predicate MergedUpper(m: Mount, u: Node, p: Path) {
    && p != [] && At(m, u, p).DirObj? && At(m, u, p).stack != [] && At(m, u, Parent(p)).DirObj?
    && At(m, u, p).up.Some? && At(m, u, p).up.value.Dir?
  }

  /** An absolute redirect to a directory's lower path can be followed from anywhere. */
  lemma AbsoluteKeeps(m: Mount, u: Node, p: Path, name: Name, ps: seq<Lower>, atRoot: bool)
    requires m.Valid() && m.follow && MergedUpper(m, u, p)
    ensures var o := At(m, u, p);
      var n := WithAbsolute(o.up.value, Loc(m, u, p));
      LookupEntry(m, Hit(n), name, ps, atRoot) == DirObj(Some(n), false, Some(Abs(Loc(m, u, p))), o.stack, false)
  {
    var o := At(m, u, p);
    var loc := Loc(m, u, p);
    MergedIsLocated(m, u, p);
    NotOpaque(m, u, p);
    ParseText(Absolute(loc));
    EntryDir(m, WithAbsolute(o.up.value, loc), name, ps, atRoot);
  }

  lemma NotOpaque(m: Mount, u: Node, p: Path)
    requires m.follow && MergedUpper(m, u, p)
    ensures !At(m, u, p).up.value.isOpaque
    ensures At(m, u, p).redirect == TargetOf(MarkOf(At(m, u, p).up.value))
    ensures UpperOne(At(m, u, Parent(p)).up, Last(p)) == Hit(At(m, u, p).up.value)
  {
    AtChild(m, u, p);
    var d := At(m, u, Parent(p));
    var one := UpperOne(d.up, Last(p));
    assert one.Hit? && one.node.Dir?;
    EntryDir(m, one.node, Last(p), d.stack, d.isRoot);
  }

  /** A relative redirect (the old name, or the one already there) keeps the stack under every
      name in the same parent directory. */
  lemma RelativeKeeps(m: Mount, u: Node, p: Path, name: Name)
    requires m.Valid() && m.follow && MergedUpper(m, u, p)
    requires At(m, u, p).redirect.None?
    ensures var o := At(m, u, p);
      var d := At(m, u, Parent(p));
      var n := WithRelative(o.up.value, Last(p));
      LookupEntry(m, Hit(n), name, d.stack, d.isRoot) == DirObj(Some(n), false, Some(Rel(Last(p))), o.stack, false)
  {
    var o, d := At(m, u, p), At(m, u, Parent(p));
    NotOpaque(m, u, p);
    AtChild(m, u, p);
    MergedChild(m, d, Last(p));
    ParseText(Relative(Last(p)));
    var n := WithRelative(o.up.value, Last(p));
    EntryDir(m, n, name, d.stack, d.isRoot);
    RedirectedFlag(m, Last(p), d.stack, d.isRoot, 0, []);
  }

  /** Whether a redirect was seen before makes no difference while following is on. */
  lemma {:induction false} RedirectedFlag(m: Mount, n: Name, ps: seq<Lower>, atRoot: bool, i: nat, acc: seq<Lower>)
    requires m.follow
    ensures Through(m, DirData(n, true), ps, atRoot, i, acc) == Through(m, DirData(n, false), ps, atRoot, i, acc)
    decreases if i <= |ps| then |ps| - i else 0
  {
    if i >= |ps| {
    } else {
      var l := IsLast(m, ps, i);
      var t, f := DirData(n, true).(last := l), DirData(n, false).(last := l);
      var one := LookupOne(ps[i].node, n);
      var ft, ff := Judge(one, t, [], []), Judge(one, f, [], []);
      if ff.Found? && !ff.d.stop && !ff.d.redirected {
        var acc1 := if ff.node.None? then acc else acc + [Lower(ps[i].idx, ff.node.value)];
        assert ff.d == f && ft.d == t && ft.node == ff.node;
        LastIsSet(m, DirData(n, true), l, ps, atRoot, i + 1, acc1);
        LastIsSet(m, DirData(n, false), l, ps, atRoot, i + 1, acc1);
        RedirectedFlag(m, n, ps, atRoot, i + 1, acc1);
      } else {
        assert ft == (if ff.Found? then Found(ff.d.(redirected := true), ff.node) else Fault);
      }
    }
  }

  /** A directory that carries a valid redirect already keeps its stack under every name of the
      same parent; if the redirect is absolute, anywhere. */
  lemma MarkKeeps(m: Mount, u: Node, p: Path, name: Name, ps: seq<Lower>, atRoot: bool)
    requires m.Valid() && m.follow && MergedUpper(m, u, p)
    requires At(m, u, p).redirect.Some?
    requires At(m, u, p).redirect.value.Rel? ==>
               ps == At(m, u, Parent(p)).stack && atRoot == At(m, u, Parent(p)).isRoot
    ensures LookupEntry(m, Hit(At(m, u, p).up.value), name, ps, atRoot) == At(m, u, p)
  {
    var o, d := At(m, u, p), At(m, u, Parent(p));
    NotOpaque(m, u, p);
    AtChild(m, u, p);
    EntryDir(m, o.up.value, Last(p), d.stack, d.isRoot);
    EntryDir(m, o.up.value, name, ps, atRoot);
  }
}
