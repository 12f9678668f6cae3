/** Closed form of a path lookup through lower layers that hold no redirect marks. */
module LookupClosed {
  import opened Names
  import opened Layers
  import opened Lookup
  import opened LookupLaws

  /** No directory of the layer carries a redirect mark that would be followed. */
  ghost predicate NoRedirects(t: Node) {
    t.Dir? ==> MarkOf(t).None? && forall n <- t.entries :: NoRedirects(t.entries[n])
  }

  /** Component `k` of `p` is reached through directories and its lookup fails. */
  predicate FailsAt(t: Node, p: Path, k: nat)
    requires k < |p|
  {
    HasDir(t, p[..k]) && (IsDot(p[k]) || Get(t, p[..k + 1]) == Some(Broken))
  }

  /** Component `k` of `p` is reached through directories and hides the layers below: it is a
      whiteout, not a directory, or an opaque directory. */
  predicate HidesAt(t: Node, p: Path, k: nat)
    requires k < |p|
  {
    && HasDir(t, p[..k]) && !IsDot(p[k])
    && var n := Get(t, p[..k + 1]);
       n.Some? && (n.value.White? || n.value.Leaf? || (n.value.Dir? && n.value.isOpaque))
  }

  predicate Fails(t: Node, p: Path) {
    exists k :: 0 <= k < |p| && FailsAt(t, p, k)
  }

  predicate Hides(t: Node, p: Path) {
    exists k :: 0 <= k < |p| && HidesAt(t, p, k)
  }

  lemma PrefixStep(t: Node, p: Path, k: nat)
    requires t.Dir? && p != [] && k < |p|
    ensures Get(t, p[..k + 1]) == if p[0] in t.entries then Get(t.entries[p[0]], p[1..][..k]) else None
  {
    assert p[..k + 1][0] == p[0] && p[..k + 1][1..] == p[1..][..k];
  }

  lemma FailsStep(t: Node, p: Path)
    requires t.Dir? && p != []
    ensures Fails(t, p) <==>
            IsDot(p[0]) || (p[0] in t.entries && (t.entries[p[0]].Broken? || Fails(t.entries[p[0]], p[1..])))
  {
    assert FailsAt(t, p, 0) <==> IsDot(p[0]) || (p[0] in t.entries && t.entries[p[0]].Broken?) by {
      assert p[..0] == [];
      PrefixStep(t, p, 0);
    }
    if Fails(t, p) {
      var k :| 0 <= k < |p| && FailsAt(t, p, k);
      if k > 0 {
        PrefixStep(t, p, k - 1);
        PrefixStep(t, p, k);
        assert FailsAt(t.entries[p[0]], p[1..], k - 1);
      }
    }
    if p[0] in t.entries && Fails(t.entries[p[0]], p[1..]) {
      var k :| 0 <= k < |p[1..]| && FailsAt(t.entries[p[0]], p[1..], k);
      PrefixStep(t, p, k);
      PrefixStep(t, p, k + 1);
      assert FailsAt(t, p, k + 1);
    }
  }

  lemma HidesStep(t: Node, p: Path)
    requires t.Dir? && p != [] && !IsDot(p[0])
    ensures Hides(t, p) <==>
            p[0] in t.entries &&
            var n := t.entries[p[0]];
            n.White? || n.Leaf? || (n.Dir? && (n.isOpaque || Hides(n, p[1..])))
  {
    assert HidesAt(t, p, 0) <==>
           p[0] in t.entries &&
           var n := t.entries[p[0]]; n.White? || n.Leaf? || (n.Dir? && n.isOpaque) by {
      assert p[..0] == [];
      PrefixStep(t, p, 0);
    }
    if Hides(t, p) {
      var k :| 0 <= k < |p| && HidesAt(t, p, k);
      if k > 0 {
        PrefixStep(t, p, k - 1);
        PrefixStep(t, p, k);
        assert HidesAt(t.entries[p[0]], p[1..], k - 1);
      }
    }
    if p[0] in t.entries && Hides(t.entries[p[0]], p[1..]) {
      var k :| 0 <= k < |p[1..]| && HidesAt(t.entries[p[0]], p[1..], k);
      PrefixStep(t, p, k);
      PrefixStep(t, p, k + 1);
      assert HidesAt(t, p, k + 1);
    }
  }

  /** The verdict on one component of a layer without redirects. */
  lemma JudgeClosed(base: Node, c: Name, d: Data, pre: Path, post: Path)
    requires base.Dir? && NoRedirects(base) && d.isDir
    ensures Judge(LookupOne(base, c), d, pre, post) ==
      if IsDot(c) then Fault
      else if c !in base.entries then Found(d, None)
      else
        match base.entries[c]
        case Broken => Fault
        case White => Found(d.(stop := true), None)
        case Leaf(_, _, _) => Found(d.(stop := true), None)
        case Dir(_, isOpaque, _, _, _) => Found(d.(stop := d.stop || (!d.last && isOpaque)), Some(base.entries[c]))
  {
    if c in base.entries {
      assert NoRedirects(base.entries[c]);
    }
  }

  /** `f` is what the walk of `p` from `base` should give. */
  predicate IsClosed(base: Node, d: Data, p: Path, f: Found) {
    && (f.Fault? <==> Fails(base, p))
    && (f.Found? ==>
         && f.d == d.(stop := f.d.stop)
         && f.node == (if HasDir(base, p) then Get(base, p) else None)
         && (!d.last ==> f.d.stop == (d.stop || Hides(base, p))))
  }

  /** The closed form of a walk whose first component is a directory. */
  lemma ClosedStep(base: Node, d: Data, p: Path, d1: Data, f: Found)
    requires base.Dir? && p != [] && !IsDot(p[0]) && p[0] in base.entries && base.entries[p[0]].Dir?
    requires d1 == d.(stop := d.stop || (!d.last && base.entries[p[0]].isOpaque))
    requires if |p| > 1 then IsClosed(base.entries[p[0]], d1, p[1..], f) else f == Found(d1, Some(base.entries[p[0]]))
    ensures IsClosed(base, d, p, f)
  {
    FailsStep(base, p);
    HidesStep(base, p);
    assert Get(base, p) == Get(base.entries[p[0]], p[1..]);
  }

  /** The closed form of a walk that ends with its first component. */
  lemma ClosedEnd(base: Node, d: Data, p: Path)
    requires base.Dir? && p != [] && (IsDot(p[0]) || p[0] !in base.entries || !base.entries[p[0]].Dir?)
    ensures IsClosed(base, d, p, NoWay(base, d, p[0]))
  {
    FailsStep(base, p);
    if !IsDot(p[0]) {
      HidesStep(base, p);
      if p[0] in base.entries {
        assert Get(base, p) == Get(base.entries[p[0]], p[1..]);
        assert p[1..] != [] ==> Get(base.entries[p[0]], p[1..]).None?;
        NothingInside(base.entries[p[0]], p[1..]);
      }
    }
  }

  lemma NothingInside(t: Node, p: Path)
    requires !t.Dir?
    ensures !Fails(t, p) && !Hides(t, p)
  {
    forall k | 0 <= k < |p| ensures !HasDir(t, p[..k]) {
      assert k > 0 ==> p[..k] != [];
    }
  }

  /** The verdict on a component that is not a directory. */
  function NoWay(base: Node, d: Data, c: Name): Found
    requires base.Dir?
  {
    if IsDot(c) then Fault
    else if c !in base.entries then Found(d, None)
    else if base.entries[c].Broken? then Fault
    else Found(d.(stop := true), None)
  }

  /** The first step of a walk in a layer without redirects. */
  lemma WalkFirst(base: Node, d: Data, pre: Path, c: Name, post: Path)
    requires base.Dir? && NoRedirects(base) && d.isDir && d.target == Abs(pre + [c] + post)
    ensures Walk(base, d, 1 + |post|) ==
      if IsDot(c) || c !in base.entries || !base.entries[c].Dir? then NoWay(base, d, c)
      else
        var n := base.entries[c];
        var d1 := d.(stop := d.stop || (!d.last && n.isOpaque));
        if post == [] then Found(d1, Some(n)) else Walk(n, d1, |post|)
  {
    WalkStep(base, d, 1 + |post|, pre, c, post);
    JudgeClosed(base, c, d, pre, post);
  }

  /** The walk of a path in one layer, in closed form. */
  lemma {:induction false} WalkClosed(base: Node, d: Data, pre: Path, p: Path)
    requires base.Dir? && NoRedirects(base) && d.isDir
    requires p != [] && d.target == Abs(pre + p)
    ensures IsClosed(base, d, p, Walk(base, d, |p|))
    decreases |p|
  {
    var c, post := p[0], p[1..];
    assert pre + p == pre + [c] + post;
    WalkFirst(base, d, pre, c, post);
    if !IsDot(c) && c in base.entries && base.entries[c].Dir? {
      var n := base.entries[c];
      var d1 := d.(stop := d.stop || (!d.last && n.isOpaque));
      if post != [] {
        WalkClosed(n, d1, pre + [c], post);
      }
      ClosedStep(base, d, p, d1, if post != [] then Walk(n, d1, |post|) else Found(d1, Some(n)));
    } else {
      ClosedEnd(base, d, p);
    }
  }

  /** The directories the layers from `i` on contribute to the stack of `p`. */
  function Contributions(m: Mount, p: Path, i: nat): seq<Lower>
    requires i <= |m.lowers|
    decreases |m.lowers| - i
  {
    if i == |m.lowers| then []
    else
      (if HasDir(m.lowers[i], p) then [Lower(i + 1, Get(m.lowers[i], p).value)] else []) +
      (if Hides(m.lowers[i], p) then [] else Contributions(m, p, i + 1))
  }

  /** Some layer from `i` on is reached and fails to look `p` up. */
  predicate Faulty(m: Mount, p: Path, i: nat)
    requires i <= |m.lowers|
    decreases |m.lowers| - i
  {
    i < |m.lowers| && (Fails(m.lowers[i], p) || (!Hides(m.lowers[i], p) && Faulty(m, p, i + 1)))
  }

  lemma {:induction false} ThroughClosed(m: Mount, d: Data, i: nat, acc: seq<Lower>)
    requires m.Valid() && m.follow && i <= |m.lowers|
    requires forall k :: 0 <= k < |m.lowers| ==> NoRedirects(m.lowers[k])
    requires d.target.Abs? && d.target.path != [] && d.isDir && !d.stop
    ensures Through(m, d, Roots(m), true, i, acc) ==
            if Faulty(m, d.target.path, i) then Refused else Stack(acc + Contributions(m, d.target.path, i))
    decreases |m.lowers| - i
  {
    if i < |m.lowers| {
      var p := d.target.path;
      var l := i + 1 == |m.lowers|;
      var f := LookupLayer(m.lowers[i], d.(last := l));
      RootRound(m, d, i, acc, f);
      assert [] + p == p;
      WalkClosed(m.lowers[i], d.(last := l), [], p);
      ClosedOn(m, d, i, acc, f);
    }
  }

  /** What the layer with index `idx` adds to a stack. */
  function AddOne(acc: seq<Lower>, idx: nat, n: Option<Node>): seq<Lower> {
    if n.None? then acc else acc + [Lower(idx, n.value)]
  }

  /** The directory a layer has at `p`. */
  function DirAt(t: Node, p: Path): Option<Node> {
    if HasDir(t, p) then Get(t, p) else None
  }

  /** The closed form at a layer below which nothing counts, and at any other. */
  lemma LastCounted(m: Mount, p: Path, i: nat, acc: seq<Lower>)
    requires i < |m.lowers| && !Fails(m.lowers[i], p) && (Hides(m.lowers[i], p) || i + 1 == |m.lowers|)
    ensures !Faulty(m, p, i) && acc + Contributions(m, p, i) == AddOne(acc, i + 1, DirAt(m.lowers[i], p))
  {
    assert i + 1 == |m.lowers| ==> Contributions(m, p, i + 1) == [];
  }

  lemma MoreCounted(m: Mount, p: Path, i: nat, acc: seq<Lower>)
    requires i < |m.lowers| && !Fails(m.lowers[i], p) && !Hides(m.lowers[i], p)
    ensures Faulty(m, p, i) == Faulty(m, p, i + 1)
    ensures acc + Contributions(m, p, i) == AddOne(acc, i + 1, DirAt(m.lowers[i], p)) + Contributions(m, p, i + 1)
  {
    var here := if HasDir(m.lowers[i], p) then [Lower(i + 1, Get(m.lowers[i], p).value)] else [];
    assert acc + (here + Contributions(m, p, i + 1)) == acc + here + Contributions(m, p, i + 1);
    assert acc + here == AddOne(acc, i + 1, DirAt(m.lowers[i], p));
  }

  /** The layer loop after the walk `f` of layer `i`. */
  lemma {:induction false} ClosedOn(m: Mount, d: Data, i: nat, acc: seq<Lower>, f: Found)
    requires m.Valid() && m.follow && i < |m.lowers|
    requires forall k :: 0 <= k < |m.lowers| ==> NoRedirects(m.lowers[k])
    requires d.target.Abs? && d.target.path != [] && d.isDir && !d.stop
    requires IsClosed(m.lowers[i], d.(last := i + 1 == |m.lowers|), d.target.path, f)
    ensures (if f.Fault? then Refused else Through(m, f.d, Roots(m), true, i + 1, AddOne(acc, i + 1, f.node)))
            == if Faulty(m, d.target.path, i) then Refused else Stack(acc + Contributions(m, d.target.path, i))
    decreases |m.lowers| - i, 0
  {
    var p, t := d.target.path, m.lowers[i];
    if f.Found? {
      var acc1 := AddOne(acc, i + 1, f.node);
      assert f.node == DirAt(t, p);
      if f.d.stop || i + 1 == |m.lowers| {
        LastCounted(m, p, i, acc);
        assert Through(m, f.d, Roots(m), true, i + 1, acc1) == Stack(acc1);
      } else {
        MoreCounted(m, p, i, acc);
        ThroughClosed(m, f.d, i + 1, acc1);
      }
    }
  }

  /** `x` is the directory of layer `k` at `p`, and no layer from `i` to `k` hides `p`. */
  predicate Contributes(m: Mount, p: Path, i: nat, k: nat, x: Lower)
    requires k < |m.lowers|
  {
    && x.idx == k + 1 && HasDir(m.lowers[k], p) && x.node == Get(m.lowers[k], p).value
    && forall j :: i <= j < k ==> !Hides(m.lowers[j], p)
  }

  /** `x` is the directory layer `i` has at `p`. */
  predicate GivenBy(m: Mount, p: Path, i: nat, x: Lower)
    requires i < |m.lowers|
  {
    HasDir(m.lowers[i], p) && x == Lower(i + 1, Get(m.lowers[i], p).value)
  }

  lemma ContributionsFrom(m: Mount, p: Path, i: nat, x: Lower)
    requires i < |m.lowers|
    ensures x in Contributions(m, p, i) <==>
              GivenBy(m, p, i, x) || (!Hides(m.lowers[i], p) && x in Contributions(m, p, i + 1))
  {
  }

  lemma ContributesFrom(m: Mount, p: Path, i: nat, k: nat, x: Lower)
    requires i <= k < |m.lowers|
    ensures Contributes(m, p, i, k, x) <==>
              if k == i then GivenBy(m, p, i, x) else !Hides(m.lowers[i], p) && Contributes(m, p, i + 1, k, x)
  {
  }

  /** Some layer from `i` on contributes `x`. */
  ghost predicate Contributed(m: Mount, p: Path, i: nat, x: Lower) {
    exists k :: i <= k < |m.lowers| && Contributes(m, p, i, k, x)
  }

  lemma ContributedFrom(m: Mount, p: Path, i: nat, x: Lower)
    requires i < |m.lowers|
    ensures Contributed(m, p, i, x) <==>
              GivenBy(m, p, i, x) || (!Hides(m.lowers[i], p) && Contributed(m, p, i + 1, x))
  {
    ContributesFrom(m, p, i, i, x);
    if k :| i <= k < |m.lowers| && Contributes(m, p, i, k, x) {
      ContributesFrom(m, p, i, k, x);
    }
    var next := i + 1;
    if k :| next <= k < |m.lowers| && Contributes(m, p, next, k, x) {
      ContributesFrom(m, p, i, k, x);
    }
  }

  lemma {:induction false} ContributionsAre(m: Mount, p: Path, i: nat, x: Lower)
    requires i <= |m.lowers|
    ensures x in Contributions(m, p, i) <==> Contributed(m, p, i, x)
    decreases |m.lowers| - i
  {
    if i >= |m.lowers| {
    } else {
      ContributionsAre(m, p, i + 1, x);
      ContributionsFrom(m, p, i, x);
      ContributedFrom(m, p, i, x);
    }
  }

  ghost predicate SortedFrom(s: seq<Lower>, i: nat) {
    Sorted(s) && forall k :: 0 <= k < |s| ==> i < s[k].idx
  }

  lemma {:induction false} ContributionsSorted(m: Mount, p: Path, i: nat)
    requires i <= |m.lowers|
    ensures SortedFrom(Contributions(m, p, i), i)
    decreases |m.lowers| - i
  {
    if i >= |m.lowers| {
    } else {
      ContributionsSorted(m, p, i + 1);
      var rest := if Hides(m.lowers[i], p) then [] else Contributions(m, p, i + 1);
      var here := if HasDir(m.lowers[i], p) then [Lower(i + 1, Get(m.lowers[i], p).value)] else [];
      assert Contributions(m, p, i) == here + rest;
      SortedConcat(here, rest, i);
    }
  }

  lemma SortedConcat(here: seq<Lower>, rest: seq<Lower>, i: nat)
    requires |here| <= 1 && (here != [] ==> here[0].idx == i + 1) && SortedFrom(rest, i + 1)
    ensures SortedFrom(here + rest, i)
  {
  }

  predicate FirstFault(m: Mount, p: Path, i: nat, k: nat)
    requires k < |m.lowers|
  {
    Fails(m.lowers[k], p) && forall j :: i <= j < k ==> !Hides(m.lowers[j], p)
  }

  lemma {:induction false} FaultyIs(m: Mount, p: Path, i: nat)
    requires i <= |m.lowers|
    ensures Faulty(m, p, i) <==> exists k :: i <= k < |m.lowers| && FirstFault(m, p, i, k)
    decreases |m.lowers| - i
  {
    if i >= |m.lowers| {
    } else {
      FaultyIs(m, p, i + 1);
      if Fails(m.lowers[i], p) {
        assert FirstFault(m, p, i, i);
      } else if !Hides(m.lowers[i], p) && Faulty(m, p, i + 1) {
        var k :| i + 1 <= k < |m.lowers| && FirstFault(m, p, i + 1, k);
        assert FirstFault(m, p, i, k);
      } else if k :| i <= k < |m.lowers| && FirstFault(m, p, i, k) {
        assert k > i ==> FirstFault(m, p, i + 1, k);
      }
    }
  }

  /** Closed form.  With lower layers free of redirects, looking a path up fails iff some
      reached layer fails; otherwise layer `k` is in the stack, with the directory it has at
      that path, iff it has directories all along the path and no layer above it hides the
      path; and the stack is ordered by layer. */
  lemma PathStackClosed(m: Mount, p: Path)
    requires m.Valid() && m.follow && p != []
    requires forall k :: 0 <= k < |m.lowers| ==> NoRedirects(m.lowers[k])
    ensures LocStack(m, p).Refused? <==> exists k :: 0 <= k < |m.lowers| && FirstFault(m, p, 0, k)
    ensures LocStack(m, p).Stack? ==>
      && Sorted(LocStack(m, p).stack)
      && forall x :: x in LocStack(m, p).stack <==> exists k :: 0 <= k < |m.lowers| && Contributes(m, p, 0, k, x)
  {
    ThroughClosed(m, AbsData(p), 0, []);
    forall x {
      ContributionsAre(m, p, 0, x);
    }
    ContributionsSorted(m, p, 0);
    FaultyIs(m, p, 0);
    assert [] + Contributions(m, p, 0) == Contributions(m, p, 0);
  }

  function PlainDir(isOpaque: bool, entries: map<Name, Node>): Node {
    Dir(0, isOpaque, None, false, entries)
  }

  /** A layer with an opaque directory "a/b" above one that cannot look "a" up. */
  function ExampleMount(): Mount {
    Mount([PlainDir(false, map["a" := PlainDir(false, map["b" := PlainDir(true, map[])])]),
           PlainDir(false, map["a" := Broken])], true, true)
  }

  lemma ExamplePlain()
    ensures var m := ExampleMount();
      m.Valid() && NoRedirects(m.lowers[0]) && NoRedirects(m.lowers[1])
      && NoRedirects(m.lowers[0].entries["a"])
  {
    var a := ExampleMount().lowers[0].entries["a"];
    assert NoRedirects(a.entries["b"]);
    assert NoRedirects(a);
  }

  lemma ExampleFails()
    ensures LocStack(ExampleMount(), ["a"]).Refused?
  {
    var m, p: Path := ExampleMount(), ["a"];
    ExamplePlain();
    FailsStep(m.lowers[1], p);
    HidesStep(m.lowers[0], p);
    assert p[1..] == [];
    PathStackClosed(m, p);
    assert FirstFault(m, p, 0, 1);
  }

  lemma ExampleFinds()
    ensures LocStack(ExampleMount(), ["a", "b"]).Stack?
  {
    var m, p: Path := ExampleMount(), ["a", "b"];
    var top := m.lowers[0];
    ExamplePlain();
    assert p[1..] == ["b"] && p[1..][1..] == [];
    FailsStep(top, p);
    FailsStep(top.entries["a"], p[1..]);
    HidesStep(top, p);
    HidesStep(top.entries["a"], p[1..]);
    PathStackClosed(m, p);
    assert !FirstFault(m, p, 0, 0) && !FirstFault(m, p, 0, 1);
  }

  /** The walk to "a/b" succeeds, and the lookup component by component fails at "a". */
  lemma AncestorFaultExample()
    ensures LocStack(ExampleMount(), ["a", "b"]).Stack? && ByComponent(ExampleMount(), ["a", "b"]).Refused?
  {
    var p: Path := ["a", "b"];
    ExamplePlain();
    ExampleFails();
    ExampleFinds();
    assert Parent(p) == ["a"];
    ByComponentFails(ExampleMount(), p);
  }
}
