/** Lower layers without redirects look the same whether or not redirects are followed. */
module LookupNoFollow {
  import opened Names
  import opened Layers
  import opened Lookup
  import opened LookupLaws
  import opened LookupClosed

  /** A stack of directories without redirect marks. */
  ghost predicate PlainStack(s: seq<Lower>) {
    forall k :: 0 <= k < |s| ==> s[k].node.Dir? && NoRedirects(s[k].node)
  }

  /** The verdict on a name in a directory without redirects; whether its marks are read changes
      at most the stop flag. */
  lemma JudgeLast(node: Node, d: Data, l: bool)
    requires node.Dir? && NoRedirects(node) && d.target.Rel? && d.isDir
    ensures var f, f' := LookupLayer(node, d), LookupLayer(node, d.(last := l));
      && (f.Fault? <==> f'.Fault?)
      && (f.Found? ==>
           && f'.node == f.node && f.d == d.(stop := f.d.stop) && f'.d == d.(last := l, stop := f'.d.stop)
           && (f.node.Some? ==> f.node.value.Dir? && NoRedirects(f.node.value)))
  {
    JudgeClosed(node, d.target.name, d, [], []);
    JudgeClosed(node, d.target.name, d.(last := l), [], []);
    if d.target.name in node.entries {
      assert NoRedirects(node.entries[d.target.name]);
    }
  }

  /** One round of the layer loop in a stack without redirects. */
  lemma PlainRound(m: Mount, d: Data, poe: seq<Lower>, atRoot: bool, i: nat, acc: seq<Lower>)
    requires PlainStack(poe) && i < |poe| && d.target.Rel? && d.isDir && !d.redirected && !d.stop
    ensures var f := LookupLayer(poe[i].node, d.(last := IsLast(m, poe, i)));
      && Through(m, d, poe, atRoot, i, acc) ==
         (if f.Fault? then Refused else Through(m, f.d, poe, atRoot, i + 1, AddOne(acc, poe[i].idx, f.node)))
      && (f.Found? ==> f.d.target.Rel? && f.d.isDir && !f.d.redirected)
      && (f.Found? && PlainStack(acc) ==> PlainStack(AddOne(acc, poe[i].idx, f.node)))
  {
    JudgeLast(poe[i].node, d.(last := IsLast(m, poe, i)), false);
  }

  /** Only the last element of a stack can be judged as last. */
  lemma LastOnly(m: Mount, poe: seq<Lower>, i: nat)
    requires GoodStack(m, poe) && i + 1 < |poe|
    ensures !IsLast(m, poe, i)
  {
    assert poe[i].idx < poe[i + 1].idx <= |m.lowers|;
  }

  /** The layer loop does not depend on whether redirects are followed. */
  lemma {:induction false} SameLoop(m: Mount, d: Data, poe: seq<Lower>, atRoot: bool, i: nat, acc: seq<Lower>)
    requires GoodStack(m, poe) && PlainStack(poe) && PlainStack(acc)
    requires d.target.Rel? && d.isDir && !d.redirected
    ensures Through(m, d, poe, atRoot, i, acc) == Through(m.(follow := true), d, poe, atRoot, i, acc)
    ensures var o := Through(m, d, poe, atRoot, i, acc); o.Stack? ==> PlainStack(o.stack)
    decreases if i <= |poe| then |poe| - i else 0
  {
    if d.stop || i >= |poe| {
    } else {
      var m' := m.(follow := true);
      PlainRound(m, d, poe, atRoot, i, acc);
      PlainRound(m', d, poe, atRoot, i, acc);
      JudgeLast(poe[i].node, d.(last := IsLast(m, poe, i)), IsLast(m', poe, i));
      var f := LookupLayer(poe[i].node, d.(last := IsLast(m, poe, i)));
      if i + 1 < |poe| {
        LastOnly(m, poe, i);
        LastOnly(m', poe, i);
        if f.Found? {
          SameLoop(m, f.d, poe, atRoot, i + 1, AddOne(acc, poe[i].idx, f.node));
        }
      }
    }
  }

  /** With lower layers free of redirects, component-by-component lookup gives the same stack or
      failure whether or not redirects are followed, so the closed form holds in both cases. */
  lemma {:induction false} ByComponentNoFollow(m: Mount, p: Path)
    requires m.Valid() && PlainStack(Roots(m))
    ensures ByComponent(m, p) == ByComponent(m.(follow := true), p)
    ensures ByComponent(m, p).Stack? ==> GoodStack(m, ByComponent(m, p).stack) && PlainStack(ByComponent(m, p).stack)
    decreases |p|
  {
    RootsGood(m);
    var m' := m.(follow := true);
    if p == [] {
      assert Roots(m) == Roots(m');
    } else {
      ByComponentNoFollow(m, Parent(p));
      if ByComponent(m, Parent(p)).Stack? {
        var s, d := ByComponent(m, Parent(p)).stack, DirData(Last(p), false);
        SameLoop(m, d, s, |p| == 1, 0, []);
        ThroughGood(m, d, s, |p| == 1, 0, []);
      }
    }
  }
}
