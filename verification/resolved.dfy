/** Shape of the objects paths resolve to. */
module Resolved {
  import opened Names
  import opened Layers
  import opened Lookup
  import opened LookupLaws
  import opened Merged

  ghost predicate GoodObj(m: Mount, o: Obj) {
    o.DirObj? ==> GoodStack(m, o.stack) && UpIsDir(o) && (o.up.None? ==> o.stack != [])
  }

  /** Every stack built for an overlay name is ordered by layer and fits the layers. */
  lemma EntryGood(m: Mount, one: One, name: Name, ps: seq<Lower>, atRoot: bool)
    requires m.Valid() && GoodStack(m, ps)
    ensures GoodObj(m, LookupEntry(m, one, name, ps, atRoot))
  {
    var d := Start(m, name, ps);
    JudgeShape(one, d, [], []);
    RootsGood(m);
    var f := Judge(one, d, [], []);
    if f.Found? {
      var restart := f.d.redirected && f.d.target.Abs?;
      ThroughGood(m, f.d, if restart then Roots(m) else ps, atRoot || restart, 0, []);
    }
  }

  lemma {:induction false} ResolveGood(m: Mount, o: Obj, p: Path)
    requires m.Valid() && GoodObj(m, o)
    ensures GoodObj(m, Resolve(m, o, p))
    decreases |p|
  {
    if p == [] {
    } else {
      if o.DirObj? {
        EntryGood(m, UpperOne(o.up, p[0]), p[0], o.stack, o.isRoot);
      }
      ResolveGood(m, Child(m, o, p[0]), p[1..]);
    }
  }

  /** In every overlay, whatever its upper layer, a directory is merged from at most one
      directory per lower layer, topmost first. */
  lemma AtGood(m: Mount, u: Node, p: Path)
    requires m.Valid() && u.Dir?
    ensures GoodObj(m, At(m, u, p))
    ensures At(m, u, p).DirObj? ==> |At(m, u, p).stack| <= |m.lowers|
  {
    RootsGood(m);
    ResolveGood(m, Root(m, u), p);
    if At(m, u, p).DirObj? {
      GoodStackFits(m, At(m, u, p).stack);
    }
  }

  /** What can be reached was reached through directories. */
  lemma {:induction false} AncestorsAreDirs(m: Mount, u: Node, p: Path, k: nat)
    requires k < |p| && !At(m, u, p).Error? && !At(m, u, p).Absent?
    ensures At(m, u, p[..k]).DirObj?
    decreases |p| - k
  {
    var q := p[..k + 1];
    assert Parent(q) == p[..k];
    AtChild(m, u, q);
    if k + 1 == |p| {
      assert q == p;
    } else {
      AncestorsAreDirs(m, u, p, k + 1);
    }
  }

  /** A name that is seen is not a dot name. */
  lemma NotDot(m: Mount, u: Node, p: Path)
    requires p != [] && !At(m, u, p).Error? && !At(m, u, p).Absent?
    ensures !IsDot(Last(p))
  {
    AtChild(m, u, p);
  }

  // ---------------------------------------------------------------------------------
  // How far a path is in the upper layer

  /** The number of leading components of `p` that are there in the tree. */
  function Depth(t: Node, p: Path): (d: nat)
    ensures d <= |p|
  {
    if p != [] && t.Dir? && p[0] in t.entries then 1 + Depth(t.entries[p[0]], p[1..]) else 0
  }

  lemma {:induction false} DepthIs(t: Node, p: Path, k: nat)
    requires k <= |p|
    ensures Get(t, p[..k]).Some? <==> k <= Depth(t, p)
  {
    if k == 0 {
    } else {
      assert p[..k][0] == p[0] && p[..k][1..] == p[1..][..k - 1];
      if t.Dir? && p[0] in t.entries {
        DepthIs(t.entries[p[0]], p[1..], k - 1);
      }
    }
  }
}
