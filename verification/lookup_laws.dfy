/** Laws of merged lookup: shape and order of the stacks it builds, and the agreement of
component-by-component lookup with the walk of an absolute path. */
module LookupLaws {
  import opened Names
  import opened Layers
  import opened Lookup

  // ---------------------------------------------------------------------------------
  // Shape and order of lower stacks

  ghost predicate Sorted(s: seq<Lower>) {
    forall i, j :: 0 <= i < j < |s| ==> s[i].idx < s[j].idx
  }

  /** A lower stack of a directory: one directory per layer, topmost layer first. */
  ghost predicate GoodStack(m: Mount, s: seq<Lower>) {
    && Sorted(s)
    && forall i :: 0 <= i < |s| ==> 1 <= s[i].idx <= |m.lowers| && s[i].node.Dir?
  }

  lemma RootsGood(m: Mount)
    requires m.Valid()
    ensures GoodStack(m, Roots(m))
  {
  }

  /** A good stack has at most one element per layer, so it fits an array of that size. */
  lemma {:induction false} GoodStackFits(m: Mount, s: seq<Lower>)
    requires GoodStack(m, s)
    ensures |s| <= |m.lowers|
    ensures s != [] ==> |s| <= s[|s| - 1].idx
  {
    if s != [] {
      IndexGrows(m, s, |s| - 1);
    }
  }

  lemma {:induction false} IndexGrows(m: Mount, s: seq<Lower>, k: nat)
    requires GoodStack(m, s) && k < |s|
    ensures k + 1 <= s[k].idx <= |m.lowers|
  {
    if k == 0 {
    } else {
      IndexGrows(m, s, k - 1);
      assert s[k - 1].idx < s[k].idx;
    }
  }

  /** A lookup that follows an absolute path already knows it wants a directory. */
  predicate Sane(d: Data) {
    d.target.Abs? ==> d.isDir
  }

  lemma JudgeShape(one: One, d: Data, pre: Path, post: Path)
    requires Sane(d) && (d.target.Rel? ==> post == [])
    ensures var f := Judge(one, d, pre, post);
      f.Found? ==>
        && Sane(f.d) && (d.isDir ==> f.d.isDir) && f.d.last == d.last
        && (f.node.Some? && d.isDir ==> f.node.value.Dir?)
        && (f.node.Some? && !f.node.value.Dir? ==> f.d.stop)
        && (f.node.Some? && f.node.value.Dir? && d.target.Rel? ==> f.d.isDir)
        && (f.node.None? ==> f.d == d.(stop := f.d.stop))
        && (d.target.Abs? ==> f.d.target.Abs?)
  {
  }

  lemma {:induction false} WalkShape(base: Node, d: Data, rem: nat)
    requires d.target.Abs? && d.isDir
    ensures ShapeKept(d, Walk(base, d, rem))
    decreases rem, 0
  {
    if rem > 0 && |d.target.path| >= rem && base.Dir? {
      var p := d.target.path;
      var at := |p| - rem;
      var pre, c, post := p[..at], p[at], p[at + 1..];
      assert p == pre + [c] + post;
      var f := Judge(LookupOne(base, c), d, pre, post);
      WalkStep(base, d, rem, pre, c, post);
      JudgeShape(LookupOne(base, c), d, pre, post);
      ShapeAfter(d, f, rem);
    }
  }

  lemma {:induction false} ShapeAfter(d: Data, f: Found, rem: nat)
    requires rem > 0 && ShapeKept(d, f)
    ensures ShapeKept(d, if f.Fault? || rem == 1 || f.node.None? || !f.node.value.Dir? then f
                         else Walk(f.node.value, f.d, rem - 1))
    decreases rem - 1, 1
  {
    if f.Found? && rem > 1 && f.node.Some? {
      WalkShape(f.node.value, f.d, rem - 1);
    }
  }

  /** A walk stays a walk, and ends in a directory. */
  predicate ShapeKept(d: Data, f: Found) {
    f.Found? ==>
      && f.d.isDir && f.d.target.Abs? && f.d.last == d.last
      && (f.node.Some? ==> f.node.value.Dir?)
  }

  lemma LayerShape(base: Node, d: Data)
    requires Sane(d)
    ensures var f := LookupLayer(base, d);
      f.Found? ==>
        && Sane(f.d) && (d.isDir ==> f.d.isDir)
        && (f.node.Some? && d.isDir ==> f.node.value.Dir?)
        && (f.node.Some? && !f.node.value.Dir? ==> f.d.stop)
        && (f.node.Some? && f.node.value.Dir? ==> f.d.isDir)
        && (f.node.None? && d.target.Rel? ==> f.d == d.(stop := f.d.stop))
  {
    match d.target
    case Rel(name) => JudgeShape(LookupOne(base, name), d, [], []);
    case Abs(p) => WalkShape(base, d, |p|);
  }

  /** The stack of a file found in a lower layer. */
  predicate OneFile(m: Mount, s: seq<Lower>) {
    |s| == 1 && !s[0].node.Dir? && 1 <= s[0].idx <= |m.lowers|
  }

  /** A stack found so far may be continued with element `i` of `poe`. */
  ghost predicate Continues(acc: seq<Lower>, poe: seq<Lower>, i: nat) {
    forall a, b :: 0 <= a < |acc| && i <= b < |poe| ==> acc[a].idx < poe[b].idx
  }

  /** The stack found so far grows by one directory; the loop may go on with the next element or
      with the next layer of the root stack. */
  lemma AccGrows(m: Mount, poe: seq<Lower>, i: nat, acc: seq<Lower>, n: Node)
    requires m.Valid() && GoodStack(m, poe) && GoodStack(m, acc) && Continues(acc, poe, i) && i < |poe| && n.Dir?
    ensures var acc1 := acc + [Lower(poe[i].idx, n)];
      && GoodStack(m, acc1) && Continues(acc1, poe, i + 1)
      && GoodStack(m, Roots(m)) && Continues(acc1, Roots(m), poe[i].idx)
  {
    RootsGood(m);
  }

  /** Every stack lookup builds has strictly increasing layer indices, although the loop may
      switch to the root stack; it holds directories only, or the one file found first. */
  lemma {:induction false} ThroughGood(m: Mount, d: Data, poe: seq<Lower>, atRoot: bool, i: nat, acc: seq<Lower>)
    requires m.Valid() && Sane(d)
    requires GoodStack(m, poe) && GoodStack(m, acc) && Continues(acc, poe, i)
    requires d.isDir || acc == []
    ensures var o := Through(m, d, poe, atRoot, i, acc);
      (o.Stack? ==>
         && acc <= o.stack
         && (GoodStack(m, o.stack) || (!d.isDir && OneFile(m, o.stack))))
    decreases if atRoot then 0 else 1, if i <= |poe| then |poe| - i else 0
  {
    if d.stop || i >= |poe| {
    } else {
      var dl := d.(last := IsLast(m, poe, i));
      LayerShape(poe[i].node, dl);
      var f := LookupLayer(poe[i].node, dl);
      if f.Found? {
        if f.node.None? {
          ThroughGood(m, f.d, poe, atRoot, i + 1, acc);
        } else {
          var acc1 := acc + [Lower(poe[i].idx, f.node.value)];
          if f.node.value.Dir? {
            AccGrows(m, poe, i, acc, f.node.value);
          }
          if f.d.stop || (f.d.redirected && !m.follow) {
          } else if f.d.redirected && f.d.target.Abs? && !atRoot {
            ThroughGood(m, f.d, Roots(m), true, poe[i].idx, acc1);
          } else {
            ThroughGood(m, f.d, poe, atRoot, i + 1, acc1);
          }
        }
      }
    }
  }

  // ---------------------------------------------------------------------------------
  // Component-by-component lookup agrees with the absolute walk

  /** A lookup that follows `path` from the root of every layer. */
  function AbsData(path: Path): Data {
    Data(Abs(path), true, false, false, true)
  }

  /** The stack the absolute redirect `loc` leads to; the empty path is the root. */
  function LocStack(m: Mount, loc: Path): Outcome {
    if loc == [] then Stack(Roots(m)) else Through(m, AbsData(loc), Roots(m), true, 0, [])
  }

  function Snoc(d: Data, n: Name): Data {
    if d.target.Abs? then d.(target := Abs(d.target.path + [n])) else d
  }

  /** Look one more component up in the directory a walk ended in. */
  function OneMore(a: Found, n: Name): Found {
    if a.Fault? then Fault
    else if a.node.None? || !a.d.target.Abs? then Found(Snoc(a.d, n), None)
    else Judge(LookupOne(a.node.value, n), Snoc(a.d, n), a.d.target.path, [])
  }

  /** A verdict does not depend on the components that come after it, except that they
      follow along in a rewritten path. */
  lemma JudgeSnoc(one: One, d: Data, pre: Path, post: Path, n: Name)
    requires d.target.Abs? && d.isDir
    ensures Judge(one, Snoc(d, n), pre, post + [n]) ==
            (var a := Judge(one, d, pre, post); if a.Fault? then Fault else Found(Snoc(a.d, n), a.node))
  {
    if one.Hit? && one.node.Dir? && MarkOf(one.node).Some? {
      match MarkOf(one.node).value
      case Absolute(r) => assert r + (post + [n]) == r + post + [n];
      case Relative(r) => assert pre + [r] + (post + [n]) == pre + [r] + post + [n];
    }
  }

  /** Rewriting the path in mid-walk leaves the components still to come in place. */
  lemma JudgeTail(one: One, d: Data, pre: Path, post: Path)
    requires d.target.Abs? && |pre| + |post| + 1 == |d.target.path|
    requires d.target.path == pre + [d.target.path[|pre|]] + post
    ensures var f := Judge(one, d, pre, post);
      (f.Found? ==>
         && f.d.target.Abs? && |f.d.target.path| > |post|
         && f.d.target.path[|f.d.target.path| - |post|..] == post)
  {
    var f := Judge(one, d, pre, post);
    if f.Found? {
      var q := f.d.target.path;
      var k := |q| - |post|;
      assert q == q[..k] + post;
    }
  }

  /** One step of a walk. */
  lemma WalkStep(base: Node, d: Data, rem: nat, pre: Path, c: Name, post: Path)
    requires d.target.Abs? && base.Dir? && d.target.path == pre + [c] + post && rem == |post| + 1
    ensures var f := Judge(LookupOne(base, c), d, pre, post);
      Walk(base, d, rem) ==
        if f.Fault? || rem == 1 || f.node.None? || !f.node.value.Dir? then f
        else Walk(f.node.value, f.d, rem - 1)
  {
    var p := d.target.path;
    assert p[|p| - rem] == c && p[..|p| - rem] == pre && p[|p| - rem + 1..] == post;
  }

  /** The last component of a walk, looked up in the directory the walk before it ended in. */
  lemma WalkLast(base: Node, d: Data, n: Name)
    requires d.target.Abs? && base.Dir?
    ensures Walk(base, Snoc(d, n), 1) == Judge(LookupOne(base, n), Snoc(d, n), d.target.path, [])
  {
    var q := d.target.path;
    assert q + [n] == q + [n] + [];
    WalkStep(base, Snoc(d, n), 1, q, n, []);
  }

  /** Walking one component further: walk the prefix, then look the last component up in
      the directory it ends in. */
  lemma {:induction false} WalkSnoc(base: Node, d: Data, rem: nat, n: Name)
    requires d.target.Abs? && d.isDir && 0 < rem <= |d.target.path| && base.Dir?
    ensures Walk(base, Snoc(d, n), rem + 1) == OneMore(Walk(base, d, rem), n)
    decreases rem, 2
  {
    var p := d.target.path;
    var at := |p| - rem;
    WalkSnocParts(base, d, rem, n, p[..at], p[at], p[at + 1..]);
  }

  lemma {:induction false} WalkSnocParts(base: Node, d: Data, rem: nat, n: Name, pre: Path, c: Name, post: Path)
    requires d.target.Abs? && d.isDir && d.target.path == pre + [c] + post && rem == |post| + 1 && base.Dir?
    ensures Walk(base, Snoc(d, n), rem + 1) == OneMore(Walk(base, d, rem), n)
    decreases rem, 1
  {
    var a := Judge(LookupOne(base, c), d, pre, post);
    FirstStep(base, d, rem, pre, c, post);
    SnocStep(base, d, rem, n, pre, c, post);
    SnocReady(LookupOne(base, c), d, pre, c, post);
    SnocVerdict(a, rem, n);
  }

  /** The first step of a walk that looks for directories. */
  lemma FirstStep(base: Node, d: Data, rem: nat, pre: Path, c: Name, post: Path)
    requires d.target.Abs? && d.isDir && d.target.path == pre + [c] + post && rem == |post| + 1 && base.Dir?
    ensures var a := Judge(LookupOne(base, c), d, pre, post);
      Walk(base, d, rem) == if a.Fault? || rem == 1 || a.node.None? then a else Walk(a.node.value, a.d, rem - 1)
  {
    WalkStep(base, d, rem, pre, c, post);
    JudgeShape(LookupOne(base, c), d, pre, post);
  }

  lemma SnocStep(base: Node, d: Data, rem: nat, n: Name, pre: Path, c: Name, post: Path)
    requires d.target.Abs? && d.isDir && d.target.path == pre + [c] + post && rem == |post| + 1 && base.Dir?
    ensures var a := Judge(LookupOne(base, c), d, pre, post);
      var a' := if a.Fault? then Fault else Found(Snoc(a.d, n), a.node);
      Walk(base, Snoc(d, n), rem + 1) == if a'.Fault? || a'.node.None? then a' else Walk(a'.node.value, a'.d, rem)
  {
    assert Snoc(d, n).target.path == pre + [c] + (post + [n]);
    FirstStep(base, Snoc(d, n), rem + 1, pre, c, post + [n]);
    JudgeSnoc(LookupOne(base, c), d, pre, post, n);
  }

  lemma SnocReady(one: One, d: Data, pre: Path, c: Name, post: Path)
    requires d.target.Abs? && d.isDir && d.target.path == pre + [c] + post
    ensures var a := Judge(one, d, pre, post);
      a.Found? ==>
        && a.d.target.Abs? && a.d.isDir && |post| + 1 <= |a.d.target.path|
        && (a.node.Some? ==> a.node.value.Dir?)
  {
    JudgeShape(one, d, pre, post);
    JudgeTail(one, d, pre, post);
  }

  /** The rest of the walk after the verdict `a` on a component. */
  lemma {:induction false} SnocVerdict(a: Found, rem: nat, n: Name)
    requires rem > 0
    requires a.Found? ==>
               a.d.target.Abs? && a.d.isDir && rem <= |a.d.target.path| && (a.node.Some? ==> a.node.value.Dir?)
    ensures var a' := if a.Fault? then Fault else Found(Snoc(a.d, n), a.node);
            (if a'.Fault? || a'.node.None? then a' else Walk(a'.node.value, a'.d, rem))
            == OneMore(if a.Fault? || rem == 1 || a.node.None? then a else Walk(a.node.value, a.d, rem - 1), n)
    decreases rem, 0
  {
    if a.Found? && a.node.Some? {
      if rem == 1 {
        WalkLast(a.node.value, a.d, n);
      } else {
        WalkSnoc(a.node.value, a.d, rem - 1, n);
      }
    }
  }

  /** The result of a layer loop extends the stack it started with. */
  lemma {:induction false} ThroughExtends(m: Mount, d: Data, poe: seq<Lower>, atRoot: bool, i: nat, acc: seq<Lower>)
    ensures var o := Through(m, d, poe, atRoot, i, acc); o.Stack? ==> acc <= o.stack
    decreases if atRoot then 0 else 1, if i <= |poe| then |poe| - i else 0
  {
    if d.stop || i >= |poe| {
    } else {
      var f := LookupLayer(poe[i].node, d.(last := IsLast(m, poe, i)));
      if f.Found? {
        if f.node.None? {
          ThroughExtends(m, f.d, poe, atRoot, i + 1, acc);
        } else {
          var acc1 := acc + [Lower(poe[i].idx, f.node.value)];
          if f.d.redirected && f.d.target.Abs? && !atRoot {
            ThroughExtends(m, f.d, Roots(m), true, poe[i].idx, acc1);
          } else {
            ThroughExtends(m, f.d, poe, atRoot, i + 1, acc1);
          }
        }
      }
    }
  }

  /** One round of the layer loop on the root stack, redirects being followed. */
  lemma RootRound(m: Mount, d: Data, i: nat, acc: seq<Lower>, f: Found)
    requires m.follow && i < |m.lowers| && !d.stop
    requires f == LookupLayer(m.lowers[i], d.(last := i + 1 == |m.lowers|))
    ensures Through(m, d, Roots(m), true, i, acc) ==
      match f
      case Fault => Refused
      case Found(d1, None) => Through(m, d1, Roots(m), true, i + 1, acc)
      case Found(d1, Some(n)) => Through(m, d1, Roots(m), true, i + 1, acc + [Lower(i + 1, n)])
  {
    assert Roots(m)[i] == Lower(i + 1, m.lowers[i]);
  }

  /** The relative lookup of `c.target` in the directory reached by the walk `a`, seen as a walk. */
  function Below(a: Data, c: Data): Data {
    if a.target.Abs? && c.target.Rel? then
      Data(Abs(a.target.path + [c.target.name]), true, a.stop || c.stop, a.last, true)
    else a
  }

  /** In one layer, the walk to the child is the walk to the parent and one lookup more. */
  lemma LayerBelow(base: Node, a: Data, c: Data, last: bool)
    requires base.Dir? && c.target.Rel? && !c.stop
    requires Walking(a)
    ensures var fa := LookupLayer(base, a.(last := last));
      && LookupLayer(base, Below(a, c).(last := last)) == OneMore(fa, c.target.name)
      && (fa.Found? ==> Walking(fa.d) && fa.d.last == last)
  {
    var al := a.(last := last);
    var n := c.target.name;
    var b := Snoc(al, n);
    assert Below(a, c).(last := last) == b && |b.target.path| == |a.target.path| + 1;
    WalkSnoc(base, al, |a.target.path|, n);
    WalkedOn(base, al);
  }

  lemma WalkedOn(base: Node, a: Data)
    requires Walking(a)
    ensures var f := LookupLayer(base, a); f.Found? ==> Walking(f.d) && f.d.last == a.last
  {
    WalkShape(base, a, |a.target.path|);
    WalkKeepsPath(base, a, |a.target.path|);
  }

  predicate Walking(d: Data) {
    d.target.Abs? && d.target.path != [] && d.isDir && d.redirected
  }

  /** The two ways to find a child agree layer by layer.  `a` walks to the parent and ends in
      the stack `s`; `c` looks the child up in `s`, of which `j` elements belong to the layers
      before `i`.  Then continuing `c` is the same as continuing the walk to the child. */
  lemma {:induction false} ChildWalk(m: Mount, i: nat, a: Data, accA: seq<Lower>, s: seq<Lower>,
                                     c: Data, acc: seq<Lower>)
    requires m.Valid() && m.follow && i <= |m.lowers|
    requires Walking(a)
    requires c.target.Rel? && c.isDir
    requires accA <= s && Through(m, a, Roots(m), true, i, accA) == Stack(s)
    ensures Through(m, c, s, false, |accA|, acc) == Through(m, Below(a, c), Roots(m), true, i, acc)
    decreases |m.lowers| - i, 2
  {
    if a.stop || c.stop || i == |m.lowers| {
      ChildWalkEnd(m, i, a, accA, s, c, acc);
      return;
    }
    var l := i + 1 == |m.lowers|;
    var fa := LookupLayer(m.lowers[i], a.(last := l));
    var fb := LookupLayer(m.lowers[i], Below(a, c).(last := l));
    LayerBelow(m.lowers[i], a, c, l);
    RootRound(m, a, i, accA, fa);
    RootRound(m, Below(a, c), i, acc, fb);
    ChildWalkStep(m, i, fa, accA, s, c, acc, fb);
  }

  /** The layer loop on the root stack after the verdict `f` on layer `i`. */
  function After(m: Mount, i: nat, f: Found, acc: seq<Lower>): Outcome {
    match f
    case Fault => Refused
    case Found(d1, None) => Through(m, d1, Roots(m), true, i + 1, acc)
    case Found(d1, Some(n)) => Through(m, d1, Roots(m), true, i + 1, acc + [Lower(i + 1, n)])
  }

  lemma {:induction false} ChildWalkStep(m: Mount, i: nat, fa: Found, accA: seq<Lower>, s: seq<Lower>,
                                         c: Data, acc: seq<Lower>, fb: Found)
    requires m.Valid() && m.follow && i < |m.lowers| && c.target.Rel? && c.isDir && !c.stop
    requires fa.Found? ==> Walking(fa.d) && fa.d.last == (i + 1 == |m.lowers|)
    requires fb == OneMore(fa, c.target.name)
    requires accA <= s && After(m, i, fa, accA) == Stack(s)
    ensures Through(m, c, s, false, |accA|, acc) == After(m, i, fb, acc)
    decreases |m.lowers| - i, 1
  {
    if fa.node.None? {
      assert Below(fa.d, c) == fb.d;
      ChildWalk(m, i + 1, fa.d, accA, s, c, acc);
    } else {
      var accA1 := accA + [Lower(i + 1, fa.node.value)];
      ThroughExtends(m, fa.d, Roots(m), true, i + 1, accA1);
      ChildRound(m, i, fa, accA1, s, c, acc, fb);
    }
  }

  lemma ChildWalkEnd(m: Mount, i: nat, a: Data, accA: seq<Lower>, s: seq<Lower>, c: Data, acc: seq<Lower>)
    requires i <= |m.lowers| && (a.stop || c.stop || i == |m.lowers|) && Walking(a) && c.target.Rel?
    requires Through(m, a, Roots(m), true, i, accA) == Stack(s)
    ensures Through(m, c, s, false, |accA|, acc) == Through(m, Below(a, c), Roots(m), true, i, acc)
  {
  }

  /** One round of `ChildWalk`, in a layer where the parent is found. */
  lemma {:induction false} ChildRound(m: Mount, i: nat, fa: Found, accA1: seq<Lower>, s: seq<Lower>,
                                      c: Data, acc: seq<Lower>, fb: Found)
    requires m.Valid() && m.follow && i < |m.lowers|
    requires fa.Found? && fa.node.Some?
    requires Walking(fa.d) && fa.d.last == (i + 1 == |m.lowers|)
    requires c.target.Rel? && c.isDir && !c.stop
    requires fb == OneMore(fa, c.target.name)
    requires accA1 != [] && accA1[|accA1| - 1] == Lower(i + 1, fa.node.value)
    requires accA1 <= s && Through(m, fa.d, Roots(m), true, i + 1, accA1) == Stack(s)
    ensures Through(m, c, s, false, |accA1| - 1, acc) ==
      match fb
      case Fault => Refused
      case Found(d1, None) => Through(m, d1, Roots(m), true, i + 1, acc)
      case Found(d1, Some(n)) => Through(m, d1, Roots(m), true, i + 1, acc + [Lower(i + 1, n)])
    decreases |m.lowers| - i, 0
  {
    var j := |accA1| - 1;
    assert s[j] == Lower(i + 1, fa.node.value);
    var one := LookupOne(fa.node.value, c.target.name);
    var fc := Judge(one, c.(last := fa.d.last), [], []);
    JudgeBelow(one, fa.d, c);
    StackRound(m, c, s, j, acc, fc);
    if fc.Found? && fc.d.target.Rel? {
      ChildWalk(m, i + 1, fa.d, accA1, s, fc.d,
                if fc.node.None? then acc else acc + [Lower(i + 1, fc.node.value)]);
    }
  }

  /** The verdict on a child is the same in both ways of looking it up. */
  lemma JudgeBelow(one: One, a: Data, c: Data)
    requires Walking(a) && c.target.Rel? && c.isDir && !c.stop
    ensures var fb := Judge(one, Snoc(a, c.target.name), a.target.path, []);
      var fc := Judge(one, c.(last := a.last), [], []);
      && (fb.Fault? <==> fc.Fault?)
      && (fc.Found? ==>
           && fb.node == fc.node && fc.d.isDir
           && (fc.d.target.Rel? ==> fb.d == Below(a, fc.d))
           && (fc.d.target.Abs? ==> fb.d == fc.d && fc.d.redirected && !fc.d.stop && fc.node.Some?))
  {
    var fc := Judge(one, c.(last := a.last), [], []);
    if fc.Found? && fc.d.target.Rel? {
      assert a.target.path + [fc.d.target.name] + [] == a.target.path + [fc.d.target.name];
    }
  }

  /** One round of the layer loop on a stack other than the root's. */
  lemma StackRound(m: Mount, d: Data, s: seq<Lower>, j: nat, acc: seq<Lower>, f: Found)
    requires m.follow && j < |s| && !d.stop
    requires f == LookupLayer(s[j].node, d.(last := s[j].idx == |m.lowers|))
    ensures Through(m, d, s, false, j, acc) ==
      match f
      case Fault => Refused
      case Found(d1, None) => Through(m, d1, s, false, j + 1, acc)
      case Found(d1, Some(n)) =>
        var acc1 := acc + [Lower(s[j].idx, n)];
        if !d1.stop && d1.redirected && d1.target.Abs? then Through(m, d1, Roots(m), true, s[j].idx, acc1)
        else Through(m, d1, s, false, j + 1, acc1)
  {
  }

  predicate PathKept(f: Found) {
    f.Found? ==> f.d.target.Abs? && f.d.target.path != [] && f.d.redirected
  }

  /** A walk that found something leaves a path that is not empty, and stays redirected. */
  lemma {:induction false} WalkKeepsPath(base: Node, d: Data, rem: nat)
    requires d.target.Abs? && d.target.path != [] && d.redirected && rem <= |d.target.path|
    ensures PathKept(Walk(base, d, rem))
    decreases rem, 1
  {
    if rem == 0 || !base.Dir? {
    } else {
      var p := d.target.path;
      var at := |p| - rem;
      var pre, c, post := p[..at], p[at], p[at + 1..];
      assert p == pre + [c] + post;
      WalkStep(base, d, rem, pre, c, post);
      JudgeTail(LookupOne(base, c), d, pre, post);
      KeptAfter(Judge(LookupOne(base, c), d, pre, post), rem);
    }
  }

  lemma {:induction false} KeptAfter(f: Found, rem: nat)
    requires rem > 0 && (f.Found? ==> f.d.target.Abs? && rem <= |f.d.target.path| && f.d.redirected)
    ensures PathKept(if f.Fault? || rem == 1 || f.node.None? || !f.node.value.Dir? then f
                     else Walk(f.node.value, f.d, rem - 1))
    decreases rem, 0
  {
    if f.Found? && rem > 1 && f.node.Some? {
      WalkKeepsPath(f.node.value, f.d, rem - 1);
    }
  }

  /** At the root, a relative lookup is the walk of a path of one component. */
  lemma {:induction false} RootChildWalk(m: Mount, i: nat, c: Data, acc: seq<Lower>)
    requires m.Valid() && m.follow && i <= |m.lowers|
    requires c.target.Rel? && c.isDir
    ensures Through(m, c, Roots(m), true, i, acc) ==
            Through(m, Data(Abs([c.target.name]), true, c.stop, c.last, true), Roots(m), true, i, acc)
    decreases |m.lowers| - i
  {
    if c.stop || i == |m.lowers| {
      return;
    }
    var l := i + 1 == |m.lowers|;
    var b := Data(Abs([c.target.name]), true, c.stop, c.last, true);
    var fc := LookupLayer(m.lowers[i], c.(last := l));
    var fb := LookupLayer(m.lowers[i], b.(last := l));
    RootRound(m, c, i, acc, fc);
    RootRound(m, b, i, acc, fb);
    RootJudge(m.lowers[i], c.(last := l), b.(last := l));
    if fc.Found? && fc.d.target.Rel? {
      RootChildWalk(m, i + 1, fc.d, if fc.node.None? then acc else acc + [Lower(i + 1, fc.node.value)]);
      assert fb.d.(last := fc.d.last) == Data(Abs([fc.d.target.name]), true, fc.d.stop, fc.d.last, true);
    }
  }

  lemma RootJudge(base: Node, c: Data, b: Data)
    requires base.Dir? && c.target.Rel? && c.isDir && !c.stop
    requires b == Data(Abs([c.target.name]), true, false, c.last, true)
    ensures var fc := LookupLayer(base, c);
      var fb := LookupLayer(base, b);
      && (fc.Fault? <==> fb.Fault?)
      && (fc.Found? ==>
           && fb.node == fc.node && fc.d.isDir && fc.d.last == c.last
           && (fc.d.target.Rel? ==> fb.d == Data(Abs([fc.d.target.name]), true, fc.d.stop, fc.d.last, true))
           && (fc.d.target.Abs? ==> fb.d == fc.d))
  {
    var n := c.target.name;
    assert b.target.path == [] + [n] + [];
    WalkStep(base, b, 1, [], n, []);
    var fc := LookupLayer(base, c);
    if fc.Found? && fc.d.target.Rel? {
      assert [] + [fc.d.target.name] + [] == [fc.d.target.name];
    }
  }

  /** A lookup of a directory known to exist in the upper layer, relative to its parent. */
  function DirData(n: Name, redirected: bool): Data {
    Data(Rel(n), true, false, false, redirected)
  }

  /** Looking a component up in the stack of `loc` gives the stack of `loc` extended by that
      component, redirects in the lower layers included. */
  lemma ChildOfLoc(m: Mount, loc: Path, s: seq<Lower>, n: Name, redirected: bool)
    requires m.Valid() && m.follow && LocStack(m, loc) == Stack(s)
    ensures Through(m, DirData(n, redirected), s, loc == [], 0, []) == LocStack(m, loc + [n])
  {
    var c := DirData(n, redirected);
    if loc == [] {
      RootChildWalk(m, 0, c, []);
      assert loc + [n] == [n];
    } else {
      ChildWalk(m, 0, AbsData(loc), [], s, c, []);
    }
  }

  /** Component-by-component lookup of a path of directories through the lower layers. */
  function ByComponent(m: Mount, p: Path): Outcome
    decreases |p|
  {
    if p == [] then Stack(Roots(m))
    else
      match ByComponent(m, Parent(p))
      case Refused => Refused
      case Stack(s) => Through(m, DirData(Last(p), false), s, |p| == 1, 0, [])
  }

  lemma ByComponentSnoc(m: Mount, q: Path, n: Name)
    ensures ByComponent(m, q + [n]) ==
      match ByComponent(m, q)
      case Refused => Refused
      case Stack(s) => Through(m, DirData(n, false), s, q == [], 0, [])
  {
    var p := q + [n];
    assert Parent(p) == q && Last(p) == n && (|p| == 1 <==> q == []);
  }

  lemma ByComponentStep(m: Mount, q: Path, n: Name)
    requires m.Valid() && m.follow
    requires ByComponent(m, q).Stack? ==> LocStack(m, q) == ByComponent(m, q)
    ensures ByComponent(m, q + [n]) == if ByComponent(m, q).Refused? then Refused else LocStack(m, q + [n])
  {
    ByComponentSnoc(m, q, n);
    if ByComponent(m, q).Stack? {
      ChildOfLoc(m, q, ByComponent(m, q).stack, n, false);
    }
  }

  /** Both ways of resolving an absolute path give the same stack of lower directories, for
      all lower layers, whether or not they hold redirects, opaque marks or whiteouts. */
  lemma {:induction false} ByComponentIsWalk(m: Mount, p: Path)
    requires m.Valid() && m.follow && ByComponent(m, p).Stack?
    ensures LocStack(m, p) == ByComponent(m, p)
    decreases |p|
  {
    if p == [] {
    } else {
      ByComponentIsWalk(m, Parent(p));
      assert p == Parent(p) + [Last(p)];
      ByComponentStep(m, Parent(p), Last(p));
    }
  }

  /** The absolute walk to the path or to one of its ancestors fails. */
  predicate FailsOnWay(m: Mount, p: Path)
    decreases |p|
  {
    p != [] && (LocStack(m, p).Refused? || FailsOnWay(m, Parent(p)))
  }

  /** Component by component a lookup also fails where only the lookup of an ancestor fails: it
      fails exactly when the absolute walk to the path or to one of its ancestors does. */
  lemma {:induction false} ByComponentFails(m: Mount, p: Path)
    requires m.Valid() && m.follow
    ensures ByComponent(m, p).Refused? <==> FailsOnWay(m, p)
    decreases |p|
  {
    if p == [] {
    } else {
      ByComponentFails(m, Parent(p));
      if ByComponent(m, Parent(p)).Stack? {
        ByComponentIsWalk(m, Parent(p));
      }
      assert p == Parent(p) + [Last(p)];
      ByComponentStep(m, Parent(p), Last(p));
    }
  }
}
