/** The search tree of directory names.

Names are compared with `strncmp` over the length of the searched name, and on equality by
length.  The search finds a name iff it is stored; insertion puts it in order; rebalancing,
whatever rotations it does, keeps the order. */
module SearchTree {
  import opened Names

  // ---------------------------------------------------------------------------------
  // Order of names

  /** Byte `i` of a C string. */
  function ByteAt(s: string, i: nat): char {
    if i < |s| then s[i] else '\0'
  }

  /** `strncmp` from position `i` on: at most `len` characters, stopping at the first
      difference or at the end of both. */
  function StrNCmp(a: string, b: string, i: nat, len: nat): int
    decreases if i <= len then len - i else 0
  {
    if i >= len then 0
    else if ByteAt(a, i) != ByteAt(b, i) then (if ByteAt(a, i) < ByteAt(b, i) then -1 else 1)
    else if ByteAt(a, i) == '\0' then 0
    else StrNCmp(a, b, i + 1, len)
  }

  /** Dictionary order; a proper prefix comes first. */
  predicate Less(a: string, b: string) {
    b != "" && (a == "" || a[0] < b[0] || (a[0] == b[0] && Less(a[1..], b[1..])))
  }

  lemma {:induction false} LessTransitive(a: string, b: string, c: string)
    requires Less(a, b) && Less(b, c)
    ensures Less(a, c)
  {
    if a == "" || a[0] != b[0] || b[0] != c[0] {
    } else {
      LessTransitive(a[1..], b[1..], c[1..]);
    }
  }

  lemma {:induction false} LessIrreflexive(a: string)
    ensures !Less(a, a)
  {
    if a == "" {
    } else {
      LessIrreflexive(a[1..]);
    }
  }

  /** The three outcomes of the comparison the search makes. */
  lemma {:induction false} Compare(a: string, b: string, i: nat)
    requires '\0' !in a && '\0' !in b && i <= |a| && i <= |b|
    ensures StrNCmp(a, b, i, |a|) > 0 <==> Less(b[i..], a[i..])
    ensures (StrNCmp(a, b, i, |a|) < 0 || (StrNCmp(a, b, i, |a|) == 0 && |a| < |b|)) <==> Less(a[i..], b[i..])
    ensures (StrNCmp(a, b, i, |a|) == 0 && |a| >= |b|) <==> a[i..] == b[i..]
    decreases |a| - i
  {
    if i < |a| && i < |b| && a[i] == b[i] {
      assert a[i] in a;
      Compare(a, b, i + 1);
      assert a[i..][1..] == a[i + 1..] && b[i..][1..] == b[i + 1..];
      assert a[i..] == [a[i]] + a[i + 1..] && b[i..] == [b[i]] + b[i + 1..];
    } else if i < |a| {
      assert a[i] in a;
      if i < |b| {
        assert b[i] in b;
        assert a[i..][0] == a[i] && b[i..][0] == b[i];
      } else {
        assert '\0' < a[i];
      }
    } else if i < |b| {
      assert b[i..] != a[i..];
    }
  }

  // ---------------------------------------------------------------------------------
  // The tree

  datatype Tree = Leaf | Bin(left: Tree, name: Name, right: Tree)

  function InOrder(t: Tree): seq<Name> {
    match t
    case Leaf => []
    case Bin(l, n, r) => InOrder(l) + [n] + InOrder(r)
  }

  ghost predicate Ordered(s: seq<Name>) {
    forall i, j :: 0 <= i < j < |s| ==> Less(s[i], s[j])
  }

  ghost predicate Below(s: seq<Name>, n: Name) {
    forall x :: x in s ==> Less(x, n)
  }

  ghost predicate Above(s: seq<Name>, n: Name) {
    forall x :: x in s ==> Less(n, x)
  }

  lemma SplitAt(s: seq<Name>, l: seq<Name>, n: Name, r: seq<Name>)
    requires s == l + [n] + r && Ordered(s)
    ensures Ordered(l) && Ordered(r) && Below(l, n) && Above(r, n)
  {
    assert forall i :: 0 <= i < |l| ==> s[i] == l[i];
    assert s[|l|] == n;
    assert forall i :: 0 <= i < |r| ==> s[|l| + 1 + i] == r[i];
  }

  lemma BelowTrans(s: seq<Name>, n: Name, k: Name)
    requires Below(s, n) && Less(n, k)
    ensures Below(s, k)
  {
    forall x | x in s
      ensures Less(x, k)
    {
      LessTransitive(x, n, k);
    }
  }

  lemma AboveTrans(s: seq<Name>, n: Name, k: Name)
    requires Above(s, n) && Less(k, n)
    ensures Above(s, k)
  {
    forall x | x in s
      ensures Less(k, x)
    {
      LessTransitive(k, n, x);
    }
  }

  /** A name above a node can only be to its right, one below it only to its left. */
  lemma OnlyRight(l: seq<Name>, n: Name, r: seq<Name>, name: Name)
    requires Ordered(l + [n] + r) && Less(n, name)
    ensures name in l + [n] + r <==> name in r
  {
    SplitAt(l + [n] + r, l, n, r);
    BelowTrans(l, n, name);
    LessIrreflexive(name);
  }

  lemma OnlyLeft(l: seq<Name>, n: Name, r: seq<Name>, name: Name)
    requires Ordered(l + [n] + r) && Less(name, n)
    ensures name in l + [n] + r <==> name in l
  {
    SplitAt(l + [n] + r, l, n, r);
    AboveTrans(r, n, name);
    LessIrreflexive(name);
  }

  /** The search: does the tree hold `name`? */
  method Find(t: Tree, name: Name) returns (found: bool)
    requires Ordered(InOrder(t))
    ensures found <==> name in InOrder(t)
  {
    var node := t;
    while node.Bin?
      invariant Ordered(InOrder(node))
      invariant name in InOrder(t) <==> name in InOrder(node)
      decreases node
    {
      var cmp := StrNCmp(name, node.name, 0, |name|);
      Compare(name, node.name, 0);
      SplitAt(InOrder(node), InOrder(node.left), node.name, InOrder(node.right));
      if cmp > 0 {
        OnlyRight(InOrder(node.left), node.name, InOrder(node.right), name);
        node := node.right;
      } else if cmp < 0 || |name| < |node.name| {
        OnlyLeft(InOrder(node.left), node.name, InOrder(node.right), name);
        node := node.left;
      } else {
        return true;
      }
    }
    return false;
  }

  /** The tree with a new node for `name` in place of the empty subtree at `path` (true: right). */
  function Graft(t: Tree, path: seq<bool>, name: Name): Tree
    decreases |path|
  {
    if path == [] then Bin(Leaf, name, Leaf)
    else
      match t
      case Leaf => Leaf
      case Bin(l, n, r) =>
        if path[0] then Bin(l, n, Graft(r, path[1..], name)) else Bin(Graft(l, path[1..], name), n, r)
  }

  function Sub(t: Tree, path: seq<bool>): Tree
    decreases |path|
  {
    if path == [] then t
    else
      match t
      case Leaf => Leaf
      case Bin(l, n, r) => Sub(if path[0] then r else l, path[1..])
  }

  lemma {:induction false} SubStep(t: Tree, path: seq<bool>, right: bool)
    requires Sub(t, path).Bin?
    ensures Sub(t, path + [right]) == if right then Sub(t, path).right else Sub(t, path).left
    decreases |path|
  {
    if path == [] {
      assert path + [right] == [right];
    } else {
      assert (path + [right])[1..] == path[1..] + [right];
      SubStep(if path[0] then t.right else t.left, path[1..], right);
    }
  }

  /** The names before and after the subtree at `path`. */
  function Around(t: Tree, path: seq<bool>): (seq<Name>, seq<Name>)
    decreases |path|
  {
    if path == [] || t.Leaf? then ([], [])
    else if path[0] then
      var (b, a) := Around(t.right, path[1..]);
      ((InOrder(t.left) + [t.name]) + b, a)
    else
      var (b, a) := Around(t.left, path[1..]);
      (b, a + ([t.name] + InOrder(t.right)))
  }

  /** No step of the path leaves the tree. */
  predicate Inside(t: Tree, path: seq<bool>) {
    forall k :: 0 <= k < |path| ==> Sub(t, path[..k]).Bin?
  }

  lemma InsideTail(t: Tree, path: seq<bool>)
    requires Inside(t, path) && path != []
    ensures t.Bin? && Inside(if path[0] then t.right else t.left, path[1..])
  {
    assert Sub(t, path[..0]) == t;
    var c := if path[0] then t.right else t.left;
    forall k | 0 <= k < |path[1..]|
      ensures Sub(c, path[1..][..k]).Bin?
    {
      assert path[..k + 1][1..] == path[1..][..k];
      assert Sub(t, path[..k + 1]).Bin?;
    }
  }

  lemma Regroup(l: seq<Name>, n: Name, b: seq<Name>, x: seq<Name>, a: seq<Name>, r: seq<Name>)
    ensures l + [n] + (b + x + a) == ((l + [n]) + b) + x + a
    ensures (b + x + a) + [n] + r == b + x + (a + ([n] + r))
  {
  }

  lemma {:induction false} AroundSplits(t: Tree, path: seq<bool>)
    requires Inside(t, path)
    ensures InOrder(t) == Around(t, path).0 + InOrder(Sub(t, path)) + Around(t, path).1
    decreases |path|
  {
    if path == [] {
    } else {
      InsideTail(t, path);
      var rest := path[1..];
      var c := if path[0] then t.right else t.left;
      var (b, a) := Around(c, rest);
      AroundSplits(c, rest);
      Regroup(InOrder(t.left), t.name, b, InOrder(Sub(c, rest)), a, InOrder(t.right));
    }
  }

  lemma {:induction false} GraftSplits(t: Tree, path: seq<bool>, name: Name)
    requires Inside(t, path)
    ensures InOrder(Graft(t, path, name)) == Around(t, path).0 + [name] + Around(t, path).1
    decreases |path|
  {
    if path == [] {
    } else {
      InsideTail(t, path);
      var rest := path[1..];
      var c := if path[0] then t.right else t.left;
      var (b, a) := Around(c, rest);
      GraftSplits(c, rest, name);
      Regroup(InOrder(t.left), t.name, b, [name], a, InOrder(t.right));
    }
  }

  lemma {:induction false} AroundStep(t: Tree, path: seq<bool>, right: bool)
    requires Inside(t, path) && Sub(t, path).Bin?
    ensures var s := Sub(t, path);
      Around(t, path + [right]) ==
        if right then (Around(t, path).0 + InOrder(s.left) + [s.name], Around(t, path).1)
        else (Around(t, path).0, [s.name] + InOrder(s.right) + Around(t, path).1)
    decreases |path|
  {
    var p := path + [right];
    var s := Sub(t, path);
    if path == [] {
      assert p[1..] == [];
      if right {
        assert Around(t.right, []) == ([], []);
        assert (InOrder(t.left) + [t.name]) + [] == [] + InOrder(t.left) + [t.name];
      } else {
        assert Around(t.left, []) == ([], []);
        assert [] + ([t.name] + InOrder(t.right)) == [t.name] + InOrder(t.right) + [];
      }
    } else {
      assert p[1..] == path[1..] + [right];
      InsideTail(t, path);
      var c := if path[0] then t.right else t.left;
      AroundStep(c, path[1..], right);
      var (b, a) := Around(c, path[1..]);
      if path[0] {
        assert InOrder(t.left) + [t.name] + (b + InOrder(s.left) + [s.name])
            == (InOrder(t.left) + [t.name] + b) + InOrder(s.left) + [s.name];
      } else {
        assert ([s.name] + InOrder(s.right) + a) + ([t.name] + InOrder(t.right))
            == [s.name] + InOrder(s.right) + (a + ([t.name] + InOrder(t.right)));
      }
    }
  }

  /** Where `name` is, or where it would have to be linked. */
  method FindLink(t: Tree, name: Name) returns (found: bool, link: seq<bool>)
    requires Ordered(InOrder(t))
    ensures found <==> name in InOrder(t)
    ensures !found ==> Inside(t, link) && Sub(t, link).Leaf?
    ensures !found ==> Below(Around(t, link).0, name) && Above(Around(t, link).1, name)
  {
    link := [];
    found := false;
    var node := t;
    while !found && node.Bin?
      invariant Inside(t, link) && node == Sub(t, link)
      invariant Ordered(InOrder(node))
      invariant Below(Around(t, link).0, name) && Above(Around(t, link).1, name)
      invariant found ==> node.Bin? && name == node.name
      decreases node, !found
    {
      var cmp := StrNCmp(name, node.name, 0, |name|);
      Compare(name, node.name, 0);
      SplitAt(InOrder(node), InOrder(node.left), node.name, InOrder(node.right));
      if cmp > 0 {
        BelowTrans(InOrder(node.left), node.name, name);
        AroundStep(t, link, true);
        SubStep(t, link, true);
        InsideStep(t, link, true);
        link, node := link + [true], node.right;
      } else if cmp < 0 || |name| < |node.name| {
        AboveTrans(InOrder(node.right), node.name, name);
        AroundStep(t, link, false);
        SubStep(t, link, false);
        InsideStep(t, link, false);
        link, node := link + [false], node.left;
      } else {
        found := true;
      }
    }
    AroundSplits(t, link);
    LessIrreflexive(name);
  }

  lemma InsideStep(t: Tree, path: seq<bool>, right: bool)
    requires Inside(t, path) && Sub(t, path).Bin?
    ensures Inside(t, path + [right])
  {
    var p := path + [right];
    forall k | 0 <= k < |p|
      ensures Sub(t, p[..k]).Bin?
    {
      assert p[..k] == path[..k];
      if k == |path| {
        assert path[..k] == path;
      }
    }
  }

  // ---------------------------------------------------------------------------------
  // Rebalancing

  /** A rotation of the subtree at `path`; nothing happens where there is nothing to rotate. */
  function Rotate(t: Tree, path: seq<bool>, left: bool): Tree
    decreases |path|
  {
    if t.Leaf? then t
    else if path != [] then
      (if path[0] then t.(right := Rotate(t.right, path[1..], left)) else t.(left := Rotate(t.left, path[1..], left)))
    else if left && t.right.Bin? then
      Bin(Bin(t.left, t.name, t.right.left), t.right.name, t.right.right)
    else if !left && t.left.Bin? then
      Bin(t.left.left, t.left.name, Bin(t.left.right, t.name, t.right))
    else t
  }

  lemma {:induction false} RotateKeeps(t: Tree, path: seq<bool>, left: bool)
    ensures InOrder(Rotate(t, path, left)) == InOrder(t)
    decreases |path|
  {
    if !t.Bin? {
    } else {
      if path != [] {
        RotateKeeps(if path[0] then t.right else t.left, path[1..], left);
      } else if left && t.right.Bin? {
        var r := t.right;
        assert InOrder(t.left) + [t.name] + (InOrder(r.left) + [r.name] + InOrder(r.right))
            == (InOrder(t.left) + [t.name] + InOrder(r.left)) + [r.name] + InOrder(r.right);
      } else if !left && t.left.Bin? {
        var l := t.left;
        assert (InOrder(l.left) + [l.name] + InOrder(l.right)) + [t.name] + InOrder(t.right)
            == InOrder(l.left) + [l.name] + (InOrder(l.right) + [t.name] + InOrder(t.right));
      }
    }
  }

  /** Rebalancing after an insertion: some rotations in some places. */
  method Rebalance(t: Tree) returns (r: Tree)
    ensures InOrder(r) == InOrder(t)
  {
    var plan: seq<(seq<bool>, bool)> := *;
    r := t;
    for i := 0 to |plan|
      invariant InOrder(r) == InOrder(t)
    {
      RotateKeeps(r, plan[i].0, plan[i].1);
      r := Rotate(r, plan[i].0, plan[i].1);
    }
  }

  /** Insertion: `added` iff the name was not there. */
  method Insert(t: Tree, name: Name) returns (added: bool, r: Tree)
    requires Ordered(InOrder(t))
    ensures Ordered(InOrder(r))
    ensures added <==> name !in InOrder(t)
    ensures !added ==> r == t
    ensures added ==> forall n :: n in InOrder(r) <==> n == name || n in InOrder(t)
  {
    var found, link := FindLink(t, name);
    if found {
      return false, t;
    }
    AroundSplits(t, link);
    GraftSplits(t, link, name);
    ghost var (before, after) := Around(t, link);
    assert InOrder(t) == before + after;
    OrderedInsert(before, name, after);
    r := Rebalance(Graft(t, link, name));
    return true, r;
  }

  lemma OrderedInsert(before: seq<Name>, n: Name, after: seq<Name>)
    requires Ordered(before + after) && Below(before, n) && Above(after, n)
    ensures Ordered(before + [n] + after)
  {
    var s, t := before + [n] + after, before + after;
    forall i, j | 0 <= i < j < |s|
      ensures Less(s[i], s[j])
    {
      var i' := if i < |before| then i else i - 1;
      var j' := if j < |before| then j else j - 1;
      if i != |before| && j != |before| {
        assert s[i] == t[i'] && s[j] == t[j'];
      } else if i == |before| {
        assert s[j] == after[j - |before| - 1];
      } else {
        assert s[i] == before[i];
      }
    }
  }
}
