/** The merged tree: resolution of overlay paths, what a user sees there, and how a change of
one upper entry shows in it. */
module Merged {
  import opened Names
  import opened Layers
  import opened Lookup
  import opened LookupLaws

  // ---------------------------------------------------------------------------------
  // Paths of the overlay

  function UpperOne(up: Option<Node>, name: Name): One {
    if IsDot(name) then Failed else if up.None? then Missing else LookupOne(up.value, name)
  }

  function Child(m: Mount, o: Obj, name: Name): Obj {
    match o
    case DirObj(up, _, _, stack, isRoot) => LookupEntry(m, UpperOne(up, name), name, stack, isRoot)
    case Error => Error
    case _ => Absent(false)
  }

  function Resolve(m: Mount, o: Obj, p: Path): Obj
    decreases |p|
  {
    if p == [] then o else Resolve(m, Child(m, o, p[0]), p[1..])
  }

  function Root(m: Mount, upper: Node): Obj {
    DirObj(Some(upper), false, None, Roots(m), true)
  }

  /** The object at path `p` of the overlay whose upper layer is `upper`. */
  function At(m: Mount, upper: Node, p: Path): Obj {
    Resolve(m, Root(m, upper), p)
  }

  /** What can be seen of an object. */
  datatype Sight = Nothing | Failure | AFile(kind: Kind, meta: int, data: seq<char>) | ADir(meta: int)

  function MetaOf(n: Node): int {
    if n.Leaf? || n.Dir? then n.meta else 0
  }

  function FileSight(n: Node): Sight {
    if n.Leaf? then AFile(n.kind, n.meta, n.data) else Nothing
  }

  function See(o: Obj): Sight {
    match o
    case Error => Failure
    case Absent(_) => Nothing
    case FileObj(_, n) => FileSight(n)
    case DirObj(up, _, _, stack, _) =>
      ADir(if up.Some? then MetaOf(up.value) else if stack != [] then MetaOf(stack[0].node) else 0)
  }

  /** The merged view. */
  function View(m: Mount, upper: Node, p: Path): Sight {
    See(At(m, upper, p))
  }

  ghost predicate SameView(m: Mount, u: Node, v: Node) {
    forall p: Path :: View(m, v, p) == View(m, u, p)
  }

  lemma {:induction false} ResolveConcat(m: Mount, o: Obj, p: Path, q: Path)
    ensures Resolve(m, o, p + q) == Resolve(m, Resolve(m, o, p), q)
    decreases |p|
  {
    if p == [] {
      assert p + q == q;
    } else {
      assert (p + q)[0] == p[0] && (p + q)[1..] == p[1..] + q;
      ResolveConcat(m, Child(m, o, p[0]), p[1..], q);
    }
  }

  lemma AtChild(m: Mount, u: Node, p: Path)
    requires p != []
    ensures At(m, u, p) == Child(m, At(m, u, Parent(p)), Last(p))
  {
    assert p == Parent(p) + [Last(p)];
    ResolveConcat(m, Root(m, u), Parent(p), [Last(p)]);
    assert Resolve(m, At(m, u, Parent(p)), [Last(p)]) == Resolve(m, Child(m, At(m, u, Parent(p)), Last(p)), []);
  }

  lemma AtBelow(m: Mount, u: Node, p: Path, q: Path)
    ensures At(m, u, p + q) == Resolve(m, At(m, u, p), q)
  {
    ResolveConcat(m, Root(m, u), p, q);
  }

  /** Nothing below something that is not a directory. */
  lemma {:induction false} NothingBelow(m: Mount, o: Obj, q: Path)
    requires q != [] && (o.Absent? || o.FileObj?)
    ensures Resolve(m, o, q) == Absent(false)
    decreases |q|
  {
    if |q| <= 1 {
    } else {
      NothingBelow(m, Child(m, o, q[0]), q[1..]);
    }
  }

  lemma {:induction false} ErrorBelow(m: Mount, q: Path)
    ensures Resolve(m, Error, q) == Error
  {
    if q == [] {
    } else {
      ErrorBelow(m, q[1..]);
    }
  }

  /** Two directories with the same upper entries and the same stack cannot be told apart
      below, whatever their own marks are. */
  lemma SameDirBelow(m: Mount, o: Obj, o': Obj, q: Path)
    requires o.DirObj? && o'.DirObj? && o.stack == o'.stack && o.isRoot == o'.isRoot && q != []
    requires forall n :: UpperOne(o.up, n) == UpperOne(o'.up, n)
    ensures Resolve(m, o, q) == Resolve(m, o', q)
  {
    assert UpperOne(o.up, q[0]) == UpperOne(o'.up, q[0]);
  }

  // ---------------------------------------------------------------------------------
  // One upper entry

  /** The stack of an upper directory, from its marks and its parent's stack. */
  function UpperStack(m: Mount, n: Node, name: Name, pstack: seq<Lower>, atRoot: bool): Outcome
    requires n.Dir?
  {
    if n.isOpaque || Blind(m, pstack) then Stack([])
    else
      match MarkOf(n)
      case None => Through(m, DirData(name, false), pstack, atRoot, 0, [])
      case Some(Relative(r)) => Through(m, DirData(r, true), pstack, atRoot, 0, [])
      case Some(Absolute(p)) => Through(m, AbsData(p), Roots(m), true, 0, [])
  }

  /** Marks of upper directories are not read: redirects are off and there is nothing below. */
  predicate Blind(m: Mount, pstack: seq<Lower>) {
    !m.follow && pstack == []
  }

  function TargetOf(r: Option<Redirect>): Option<Target> {
    match r
    case None => None
    case Some(Relative(n)) => Some(Rel(n))
    case Some(Absolute(p)) => Some(Abs(p))
  }

  /** The redirect lookup remembers for an upper directory. */
  function SeenMark(m: Mount, n: Node, pstack: seq<Lower>): Option<Redirect> {
    if !n.Dir? || n.isOpaque || Blind(m, pstack) then None else MarkOf(n)
  }

  lemma LastIsSet(m: Mount, d: Data, l: bool, poe: seq<Lower>, atRoot: bool, i: nat, acc: seq<Lower>)
    ensures Through(m, d.(last := l), poe, atRoot, i, acc) == Through(m, d, poe, atRoot, i, acc)
  {
  }

  /** Lookup of an upper directory. */
  lemma EntryDir(m: Mount, n: Node, name: Name, ps: seq<Lower>, atRoot: bool)
    requires n.Dir?
    ensures LookupEntry(m, Hit(n), name, ps, atRoot) ==
      match UpperStack(m, n, name, ps, atRoot)
      case Refused => Error
      case Stack(s) =>
        DirObj(Some(n), n.isOpaque && !Blind(m, ps), TargetOf(SeenMark(m, n, ps)), s, false)
  {
    var d := Start(m, name, ps);
    var f := Judge(Hit(n), d, [], []);
    if !Blind(m, ps) && !n.isOpaque {
      match MarkOf(n)
      case None =>
        LastIsSet(m, DirData(name, false), d.last, ps, atRoot, 0, []);
      case Some(Relative(r)) =>
        LastIsSet(m, DirData(r, true), d.last, ps, atRoot, 0, []);
      case Some(Absolute(p)) =>
        assert p + [] == p;
        LastIsSet(m, AbsData(p), d.last, Roots(m), true, 0, []);
    }
  }

  lemma EntryOther(m: Mount, n: Node, name: Name, ps: seq<Lower>, atRoot: bool)
    ensures n.White? ==> LookupEntry(m, Hit(n), name, ps, atRoot) == Absent(true)
    ensures n.Leaf? ==> LookupEntry(m, Hit(n), name, ps, atRoot) == FileObj(true, n)
  {
  }

  /** Does the name, apart from the upper layer, exist below?  The first lower layer that has
      an entry for it decides. */
  function LowerPositive(ps: seq<Lower>, name: Name): bool {
    if ps == [] then false
    else
      match LookupOne(ps[0].node, name)
      case Missing => LowerPositive(ps[1..], name)
      case Failed => true
      case Hit(n) => !n.White?
  }

  /** Asking only for directories changes nothing unless a file is what is found. */
  lemma {:induction false} DirsOnly(m: Mount, n: Name, ps: seq<Lower>, atRoot: bool, i: nat)
    requires i <= |ps|
    ensures var o := Through(m, Data(Rel(n), false, false, false, false), ps, atRoot, i, []);
      (o.Stack? && o.stack != [] ==> o.stack[0].node.Dir?) ==> Through(m, DirData(n, false), ps, atRoot, i, []) == o
    ensures var o := Through(m, Data(Rel(n), false, false, false, false), ps, atRoot, i, []);
      o == Stack([]) <==> !LowerPositive(ps[i..], n)
    decreases |ps| - i
  {
    if i >= |ps| {
    } else {
      assert ps[i..][0] == ps[i] && ps[i..][1..] == ps[i + 1..];
      var one := LookupOne(ps[i].node, n);
      var d, e := Data(Rel(n), false, false, false, false), DirData(n, false);
      var l := IsLast(m, ps, i);
      match one
      case Missing =>
        LastIsSet(m, d, l, ps, atRoot, i + 1, []);
        LastIsSet(m, e, l, ps, atRoot, i + 1, []);
        DirsOnly(m, n, ps, atRoot, i + 1);
      case Failed =>
      case Hit(x) =>
        if x.Dir? {
          var f := Judge(one, d.(last := l), [], []);
          assert Judge(one, e.(last := l), [], []) == f;
          var acc := [] + [Lower(ps[i].idx, x)];
          ThroughExtends(m, f.d, ps, atRoot, i + 1, acc);
          ThroughExtends(m, f.d, Roots(m), true, ps[i].idx, acc);
        }
    }
  }

  /** A name without an upper entry is absent iff it does not exist below. */
  lemma EntryMissing(m: Mount, name: Name, ps: seq<Lower>, atRoot: bool)
    ensures LookupEntry(m, Missing, name, ps, atRoot).Absent? <==> !LowerPositive(ps, name)
    ensures LookupEntry(m, Missing, name, ps, atRoot).Absent? ==>
              LookupEntry(m, Missing, name, ps, atRoot) == Absent(false)
  {
    var d := Start(m, name, ps);
    LastIsSet(m, Data(Rel(name), false, false, false, false), d.last, ps, atRoot, 0, []);
    DirsOnly(m, name, ps, atRoot, 0);
    assert ps[0..] == ps;
  }

  /** A plain upper directory put where there was none merges with the same lower directories,
      or with nothing if there was nothing to see. */
  lemma EntryPlainDir(m: Mount, n: Node, name: Name, ps: seq<Lower>, atRoot: bool)
    requires n.Dir? && !n.isOpaque && MarkOf(n).None?
    ensures var o := LookupEntry(m, Missing, name, ps, atRoot);
      && (o.DirObj? ==> LookupEntry(m, Hit(n), name, ps, atRoot) == DirObj(Some(n), false, None, o.stack, false))
      && (o.DirObj? ==> o == DirObj(None, false, None, o.stack, false) && o.stack != [])
      && (o.Absent? ==> LookupEntry(m, Hit(n), name, ps, atRoot) == DirObj(Some(n), false, None, [], false))
  {
    var d := Start(m, name, ps);
    LastIsSet(m, Data(Rel(name), false, false, false, false), d.last, ps, atRoot, 0, []);
    DirsOnly(m, name, ps, atRoot, 0);
    EntryDir(m, n, name, ps, atRoot);
  }

  /** Lookup only ever returns files and directories. */
  lemma {:induction false} FileOrDir(m: Mount, d: Data, poe: seq<Lower>, atRoot: bool, i: nat, acc: seq<Lower>)
    requires d.target.Rel? || d.isDir
    requires forall x :: x in acc ==> x.node.Leaf? || x.node.Dir?
    ensures var o := Through(m, d, poe, atRoot, i, acc);
      o.Stack? ==> forall x :: x in o.stack ==> x.node.Leaf? || x.node.Dir?
    decreases if atRoot then 0 else 1, if i <= |poe| then |poe| - i else 0
  {
    if d.stop || i >= |poe| {
    } else {
      var dl := d.(last := IsLast(m, poe, i));
      LayerShape(poe[i].node, dl);
      var f := LookupLayer(poe[i].node, dl);
      if f.Found? {
        if f.node.None? {
          FileOrDir(m, f.d, poe, atRoot, i + 1, acc);
        } else {
          var acc1 := acc + [Lower(poe[i].idx, f.node.value)];
          if f.d.redirected && f.d.target.Abs? && !atRoot {
            FileOrDir(m, f.d, Roots(m), true, poe[i].idx, acc1);
          } else {
            FileOrDir(m, f.d, poe, atRoot, i + 1, acc1);
          }
        }
      }
    }
  }

  // ---------------------------------------------------------------------------------
  // Upper part and stack of resolved objects

  /** The upper part of a resolved directory is the directory at that path of the upper layer. */
  lemma {:induction false} ResolveUp(m: Mount, o: Obj, p: Path)
    requires o.DirObj? && o.up.Some? && o.up.value.Dir?
    ensures var r := Resolve(m, o, p);
      && (r.DirObj? ==> r.up == Get(o.up.value, p) && (r.up.Some? ==> r.up.value.Dir?))
      && (r.FileObj? && r.inUpper ==> Get(o.up.value, p) == Some(r.node))
      && (r.FileObj? && !r.inUpper ==> Get(o.up.value, p).None?)
      && (HasDir(o.up.value, p) ==> r.DirObj? || r.Error?)
      && (r.FileObj? ==> r.node.Leaf?)
    decreases |p|
  {
    if p == [] {
    } else {
      var q := Parent(p);
      assert p == q + [Last(p)];
      ResolveUp(m, o, q);
      ResolveConcat(m, o, q, [Last(p)]);
      var d := Resolve(m, o, q);
      assert Resolve(m, d, [Last(p)]) == Resolve(m, Child(m, d, Last(p)), []) == Child(m, d, Last(p));
      GetConcat(o.up.value, q, [Last(p)]);
      ChildUp(m, d, Last(p));
    }
  }

  /** The upper part of a child. */
  lemma ChildUp(m: Mount, d: Obj, name: Name)
    requires d.DirObj? ==> (d.up.Some? ==> d.up.value.Dir?)
    ensures var r := Child(m, d, name);
      && (r.DirObj? ==> d.DirObj? && r.up == (if d.up.Some? then Get(d.up.value, [name]) else None)
                        && (r.up.Some? ==> r.up.value.Dir?))
      && (r.FileObj? ==> d.DirObj? && r.node.Leaf?)
      && (r.FileObj? && r.inUpper ==> d.up.Some? && Get(d.up.value, [name]) == Some(r.node))
      && (r.FileObj? && !r.inUpper ==> d.up.Some? ==> Get(d.up.value, [name]).None?)
      && (d.DirObj? && d.up.Some? && HasDir(d.up.value, [name]) ==> r.DirObj? || r.Error?)
  {
    if d.DirObj? {
      var one := UpperOne(d.up, name);
      if d.up.Some? {
        GetOne(d.up.value, name);
      }
      if one.Hit? && one.node.Dir? {
        EntryDir(m, one.node, name, d.stack, d.isRoot);
      } else if one.Missing? {
        FileOrDir(m, Start(m, name, d.stack), d.stack, d.isRoot, 0, []);
      }
    }
  }

  // ---------------------------------------------------------------------------------
  // Changing one upper entry

  /** The directory with the entry `p` below its upper part replaced. */
  function Patched(o: Obj, p: Path, x: Option<Node>): Obj
    requires p != []
  {
    if o.DirObj? && o.up.Some? then o.(up := Some(Put(o.up.value, p, x))) else o
  }

  ghost predicate UpIsDir(o: Obj) {
    o.DirObj? && o.up.Some? ==> o.up.value.Dir?
  }

  /** What the change means for the upper entry of a child. */
  lemma UpperOnePatched(o: Obj, p: Path, x: Option<Node>, c: Name)
    requires o.DirObj? && o.up.Some? && o.up.value.Dir? && p != [] && (c == p[0] ==> |p| > 1)
    ensures var one, one' := UpperOne(o.up, c), UpperOne(Patched(o, p, x).up, c);
            if c == p[0] && one.Hit? && one.node.Dir? then one' == Hit(Put(one.node, p[1..], x)) else one' == one
  {
  }

  /** Two upper directories with the same marks differ only as upper parts. */
  lemma EntrySameMarks(m: Mount, n: Node, n': Node, name: Name, ps: seq<Lower>, atRoot: bool)
    requires n.Dir? && n'.Dir? && n.isOpaque == n'.isOpaque && n.redirect == n'.redirect
    ensures var o, o' := LookupEntry(m, Hit(n), name, ps, atRoot), LookupEntry(m, Hit(n'), name, ps, atRoot);
            if o.DirObj? then o.up == Some(n) && o' == o.(up := Some(n')) else o.Error? && o' == o
  {
    EntryDir(m, n, name, ps, atRoot);
    EntryDir(m, n', name, ps, atRoot);
    assert UpperStack(m, n, name, ps, atRoot) == UpperStack(m, n', name, ps, atRoot);
  }

  lemma NotDirChild(m: Mount, one: One, name: Name, ps: seq<Lower>, atRoot: bool)
    requires !(one.Hit? && one.node.Dir?)
    ensures var o := LookupEntry(m, one, name, ps, atRoot); o.DirObj? ==> o.up.None?
  {
  }

  lemma ChildPatched(m: Mount, o: Obj, p: Path, x: Option<Node>, c: Name)
    requires p != [] && UpIsDir(o) && (c == p[0] ==> |p| > 1)
    ensures UpIsDir(Child(m, o, c))
    ensures Child(m, Patched(o, p, x), c) == if c == p[0] then Patched(Child(m, o, c), p[1..], x) else Child(m, o, c)
  {
    if o.DirObj? {
      var one, one' := UpperOne(o.up, c), UpperOne(Patched(o, p, x).up, c);
      if one.Hit? && one.node.Dir? {
        UpperOnePatched(o, p, x, c);
        EntrySameMarks(m, one.node, one'.node, c, o.stack, o.isRoot);
      } else {
        NotDirChild(m, one, c, o.stack, o.isRoot);
        if o.up.Some? {
          UpperOnePatched(o, p, x, c);
        }
        assert one' == one;
      }
    }
  }

  /** Two paths that part only below their first component. */
  lemma Descend(p: Path, q: Path)
    requires p != [] && q != [] && !(p <= q) && p[0] == q[0]
    ensures |p| > 1 && !(p[1..] <= q[1..]) && (q[1..] <= p[1..] <==> q <= p)
    ensures q <= p ==> p[1..][|q[1..]|..] == p[|q|..]
  {
    assert p == [p[0]] + p[1..] && q == [q[0]] + q[1..];
  }

  /** A change of one upper entry is seen only at that path and below it; the directories
      above it keep their stacks and marks. */
  lemma {:induction false} ResolvePatched(m: Mount, o: Obj, p: Path, x: Option<Node>, q: Path)
    requires p != [] && UpIsDir(o) && !(p <= q)
    ensures q <= p ==> Resolve(m, Patched(o, p, x), q) == Patched(Resolve(m, o, q), p[|q|..], x)
    ensures !(q <= p) ==> Resolve(m, Patched(o, p, x), q) == Resolve(m, o, q)
    decreases |q|
  {
    if q == [] {
      assert p[0..] == p;
    } else {
      var c := q[0];
      if c == p[0] {
        Descend(p, q);
        ChildPatched(m, o, p, x, c);
        ResolvePatched(m, Child(m, o, c), p[1..], x, q[1..]);
      } else {
        ChildPatched(m, o, p, x, c);
      }
    }
  }

  /** The same for the whole overlay. */
  lemma AtPut(m: Mount, u: Node, p: Path, x: Option<Node>, q: Path)
    requires u.Dir? && p != [] && !(p <= q)
    ensures q <= p ==> At(m, Put(u, p, x), q) == Patched(At(m, u, q), p[|q|..], x)
    ensures !(q <= p) ==> At(m, Put(u, p, x), q) == At(m, u, q)
    ensures View(m, Put(u, p, x), q) == View(m, u, q)
  {
    ResolvePatched(m, Root(m, u), p, x, q);
  }

  /** What the changed entry itself stands for. */
  lemma AtPutHere(m: Mount, u: Node, p: Path, x: Option<Node>)
    requires u.Dir? && p != [] && HasDir(u, Parent(p)) && At(m, u, Parent(p)).DirObj? && !IsDot(Last(p))
    ensures var d := At(m, u, Parent(p));
      At(m, Put(u, p, x), p) == LookupEntry(m, AsOne(x), Last(p), d.stack, d.isRoot)
  {
    var q := Parent(p);
    AtPut(m, u, p, x, q);
    AtChild(m, Put(u, p, x), p);
    ResolveUp(m, Root(m, u), q);
    assert p[|q|..] == [Last(p)];
  }
}
