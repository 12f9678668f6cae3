/** Listing of a merged directory: the layers are read topmost first, a name is taken from the
first layer that has it, and the names of the lowest layer come first. */
module Readdir {
  import opened Names
  import opened Layers
  import opened Lookup
  import opened LookupLaws
  import opened Merged
  import opened NamespaceLaws
  import opened Errno
  import T = SearchTree

  /** One real directory that is read for a merged one. */
  datatype Layer = Layer(node: Node, isUpper: bool)

  datatype Entry = Entry(name: Name, isUpper: bool, isWhite: bool)

  function LowerLayers(s: seq<Lower>): (r: seq<Layer>)
    ensures |r| == |s|
    ensures forall i :: 0 <= i < |s| ==> r[i] == Layer(s[i].node, false)
  {
    seq(|s|, i requires 0 <= i < |s| => Layer(s[i].node, false))
  }

  function LayersOf(o: Obj): seq<Layer>
    requires o.DirObj?
  {
    (if o.up.Some? then [Layer(o.up.value, true)] else []) + LowerLayers(o.stack)
  }

  predicate HasEntry(t: Node, n: Name) {
    IsDot(n) || (t.Dir? && n in t.entries)
  }

  predicate IsWhiteIn(t: Node, n: Name) {
    LookupOne(t, n) == Hit(White)
  }

  /** The topmost layer that has the name. */
  function TopLayer(ls: seq<Layer>, n: Name): (r: Option<nat>)
    ensures r.Some? ==>
      && r.value < |ls| && HasEntry(ls[r.value].node, n)
      && forall j :: 0 <= j < r.value ==> !HasEntry(ls[j].node, n)
    ensures r.None? ==> forall j :: 0 <= j < |ls| ==> !HasEntry(ls[j].node, n)
  {
    if ls == [] then None
    else if HasEntry(ls[0].node, n) then Some(0)
    else
      match TopLayer(ls[1..], n)
      case None => None
      case Some(k) => Some(k + 1)
  }

  /** What the listing must say about `n`: the entry of the topmost layer that has it. */
  function TopEntry(ls: seq<Layer>, n: Name): Option<Entry> {
    match TopLayer(ls, n)
    case None => None
    case Some(k) => Some(Entry(n, ls[k].isUpper, IsWhiteIn(ls[k].node, n)))
  }

  /** Is the entry a character device, hence maybe a whiteout? */
  predicate IsChr(t: Node, n: Name) {
    !IsDot(n) && t.Dir? && n in t.entries &&
    (t.entries[n].White? || (t.entries[n].Leaf? && t.entries[n].kind.Special?))
  }

  /** What goes wrong while a merged directory is read: the layers that cannot be read, and by layer
      the names whose type the file system does not report and those whose lookup fails. */
  datatype Trouble = Trouble(broken: set<nat>, untyped: set<(nat, Name)>, failing: set<(nat, Name)>) {
    /** Every type is reported and every lookup works. */
    predicate Clear() {
      untyped == {} && failing == {}
    }
  }

  /** The entry of layer `k` is not checked: its type is not reported, or it is a character device
      and its lookup fails. */
  predicate UnsureIn(t: Node, tr: Trouble, k: nat, n: Name) {
    (k, n) in tr.untyped || (IsChr(t, n) && (k, n) in tr.failing)
  }

  predicate Unsure(ls: seq<Layer>, tr: Trouble, n: Name) {
    var k := TopLayer(ls, n);
    k.Some? && UnsureIn(ls[k.value].node, tr, k.value, n)
  }

  function NamesOf(list: seq<Entry>): (r: seq<Name>)
    ensures |r| == |list|
    ensures forall i :: 0 <= i < |list| ==> r[i] == list[i].name
  {
    seq(|list|, i requires 0 <= i < |list| => list[i].name)
  }

  ghost predicate Distinct(s: seq<Name>) {
    forall i, j :: 0 <= i < j < |s| ==> s[i] != s[j]
  }

  /** What the listing says about `n`: a whiteout is recognised only if it is checked. */
  function TopIn(ls: seq<Layer>, tr: Trouble, n: Name): Option<Entry> {
    match TopEntry(ls, n)
    case None => None
    case Some(e) => Some(e.(isWhite := e.isWhite && !Unsure(ls, tr, n)))
  }

  /** The topmost entry of `n` is a whiteout that is not recognised. */
  predicate Missed(ls: seq<Layer>, tr: Trouble, n: Name) {
    TopEntry(ls, n).Some? && TopEntry(ls, n).value.isWhite && Unsure(ls, tr, n)
  }

  /** A listing of the layers `ls`: each name once, and for each name the entry of the topmost
      layer that has it, a whiteout exactly if it is checked. */
  ghost predicate Listed(list: seq<Entry>, ls: seq<Layer>, tr: Trouble) {
    Distinct(NamesOf(list)) && forall e: Entry :: e in list <==> TopIn(ls, tr, e.name) == Some(e)
  }

  /** `order` is the order in which a real directory reports its entries. */
  ghost predicate Reports(t: Node, order: seq<Name>) {
    Distinct(order) && forall n :: n in order <==> HasEntry(t, n)
  }

  /** The names of `s` that are not in `known`, in order. */
  function Minus(s: seq<Name>, known: seq<Name>): seq<Name> {
    if s == [] then []
    else if s[0] in known then Minus(s[1..], known)
    else [s[0]] + Minus(s[1..], known)
  }

  lemma {:induction false} MinusSnoc(s: seq<Name>, n: Name, known: seq<Name>)
    ensures Minus(s + [n], known) == Minus(s, known) + (if n in known then [] else [n])
  {
    if s == [] {
      assert s + [n] == [n] && [n][1..] == [];
    } else {
      assert (s + [n])[0] == s[0] && (s + [n])[1..] == s[1..] + [n];
      MinusSnoc(s[1..], n, known);
    }
  }

  lemma {:induction false} MinusHas(s: seq<Name>, known: seq<Name>, n: Name)
    ensures n in Minus(s, known) <==> n in s && n !in known
  {
    if s == [] {
    } else {
      MinusHas(s[1..], known, n);
      assert s == [s[0]] + s[1..];
    }
  }

  lemma {:induction false} MinusDistinct(s: seq<Name>, known: seq<Name>)
    requires Distinct(s)
    ensures Distinct(Minus(s, known))
  {
    if s == [] {
    } else {
      assert forall i, j :: 0 <= i < j < |s[1..]| ==> s[1..][i] == s[i + 1] && s[1..][j] == s[j + 1];
      MinusDistinct(s[1..], known);
      MinusHas(s[1..], known, s[0]);
      assert s[0] !in s[1..];
    }
  }

  // ---------------------------------------------------------------------------------
  // Reading one layer

  /** Iteration of a real directory: all entries, dot entries included, in some order. */
  method ReadNames(t: Node) returns (order: seq<Name>)
    requires t.Dir?
    ensures Reports(t, order)
  {
    var dot: Name, dotdot: Name := ".", "..";
    var left := t.entries.Keys + {dot, dotdot};
    order := [];
    while left != {}
      invariant Distinct(order)
      invariant forall n :: n in order ==> n !in left
      invariant forall n :: n in order || n in left <==> HasEntry(t, n)
      decreases |left|
    {
      var n :| n in left;
      left := left - {n};
      order := order + [n];
    }
  }

  /** Is the entry of layer `k` reported as a character device? */
  predicate IsCandidate(t: Node, tr: Trouble, k: nat, n: Name) {
    (k, n) !in tr.untyped && IsChr(t, n)
  }

  /** The names of `s` that are checked. */
  function Checked(t: Node, tr: Trouble, k: nat, s: seq<Name>): set<Name> {
    set n | n in s && IsCandidate(t, tr, k, n) && (k, n) !in tr.failing
  }

  function Marked(list: seq<Entry>, t: Node, checked: set<Name>): (r: seq<Entry>)
    ensures |r| == |list|
    ensures forall i :: 0 <= i < |list| ==>
              r[i] == if list[i].name in checked then list[i].(isWhite := IsWhiteIn(t, list[i].name)) else list[i]
  {
    seq(|list|, i requires 0 <= i < |list| =>
      if list[i].name in checked then list[i].(isWhite := IsWhiteIn(t, list[i].name)) else list[i])
  }

  /** Look the possible whiteouts up, one by one.  An entry whose lookup works is marked iff it is a
      whiteout; the entry of a name whose lookup fails stays as it is. */
  method CheckWhiteouts(t: Node, list: seq<Entry>, maybe: seq<Name>, tr: Trouble, k: nat) returns (r: seq<Entry>)
    requires forall n :: n in maybe ==> IsCandidate(t, tr, k, n)
    ensures r == Marked(list, t, Checked(t, tr, k, maybe))
  {
    r := list;
    var i := 0;
    while i < |maybe|
      invariant 0 <= i <= |maybe|
      invariant r == Marked(list, t, Checked(t, tr, k, maybe[..i]))
    {
      var n := maybe[i];
      CheckedSnoc(t, tr, k, maybe[..i], n);
      assert maybe[..i + 1] == maybe[..i] + [n];
      if (k, n) !in tr.failing {
        var isWhite := LookupOne(t, n) == Hit(White);
        r := seq(|r|, j requires 0 <= j < |r| => if r[j].name == n then r[j].(isWhite := isWhite) else r[j]);
      }
      i := i + 1;
    }
    assert maybe[..i] == maybe;
  }

  lemma CheckedSnoc(t: Node, tr: Trouble, k: nat, s: seq<Name>, n: Name)
    requires IsCandidate(t, tr, k, n)
    ensures Checked(t, tr, k, s + [n]) == Checked(t, tr, k, s) + if (k, n) in tr.failing then {} else {n}
  {
  }

  /** New, not yet checked entries for the names of `s`. */
  function Raw(s: seq<Name>, isUpper: bool): (r: seq<Entry>)
    ensures |r| == |s|
    ensures forall i :: 0 <= i < |s| ==> r[i] == Entry(s[i], isUpper, false)
  {
    seq(|s|, i requires 0 <= i < |s| => Entry(s[i], isUpper, false))
  }

  /** The search tree holds the names of the list. */
  ghost predicate Indexed(tree: T.Tree, list: seq<Entry>) {
    T.Ordered(T.InOrder(tree)) && forall n :: n in T.InOrder(tree) <==> n in NamesOf(list)
  }

  /** The names of `s` to be looked up, the last one first. */
  function MaybeWhite(t: Node, tr: Trouble, k: nat, s: seq<Name>): seq<Name> {
    if s == [] then []
    else
      var rest := MaybeWhite(t, tr, k, s[..|s| - 1]);
      if IsCandidate(t, tr, k, s[|s| - 1]) then [s[|s| - 1]] + rest else rest
  }

  lemma {:induction false} MaybeWhiteHas(t: Node, tr: Trouble, k: nat, s: seq<Name>, n: Name)
    ensures n in MaybeWhite(t, tr, k, s) <==> n in s && IsCandidate(t, tr, k, n)
  {
    if s == [] {
    } else {
      MaybeWhiteHas(t, tr, k, s[..|s| - 1], n);
      assert s == s[..|s| - 1] + [s[|s| - 1]];
    }
  }

  lemma MaybeWhiteSnoc(t: Node, tr: Trouble, k: nat, s: seq<Name>, n: Name)
    ensures MaybeWhite(t, tr, k, s + [n]) ==
            if IsCandidate(t, tr, k, n) then [n] + MaybeWhite(t, tr, k, s) else MaybeWhite(t, tr, k, s)
  {
    assert (s + [n])[..|s|] == s;
  }

  /** All candidates are to be looked up, and those whose lookup works are checked. */
  lemma Candidates(t: Node, tr: Trouble, k: nat, s: seq<Name>)
    ensures forall n :: n in MaybeWhite(t, tr, k, s) ==> IsCandidate(t, tr, k, n)
    ensures Checked(t, tr, k, MaybeWhite(t, tr, k, s)) == Checked(t, tr, k, s)
  {
    forall n
      ensures n in MaybeWhite(t, tr, k, s) <==> n in s && IsCandidate(t, tr, k, n)
    {
      MaybeWhiteHas(t, tr, k, s, n);
    }
  }

  lemma RawNames(list: seq<Entry>, s: seq<Name>, isUpper: bool)
    ensures NamesOf(list + Raw(s, isUpper)) == NamesOf(list) + s
  {
  }

  lemma RawSnoc(list: seq<Entry>, s: seq<Name>, isUpper: bool, n: Name)
    ensures list + Raw(s + [n], isUpper) == list + Raw(s, isUpper) + [Entry(n, isUpper, false)]
    ensures NamesOf(list + Raw(s, isUpper)) == NamesOf(list) + s
  {
    RawNames(list, s, isUpper);
  }

  /** The names of the layer among `seen` are in the list. */
  ghost predicate Adding(l: Layer, tr: Trouble, k: nat, list: seq<Entry>, seen: seq<Name>, list': seq<Entry>,
                         maybe: seq<Name>)
  {
    var extra := Minus(seen, NamesOf(list));
    list' == list + Raw(extra, l.isUpper) && maybe == MaybeWhite(l.node, tr, k, extra)
  }

  /** A name is in the list only if it was there before. */
  lemma AddingNames(l: Layer, tr: Trouble, k: nat, list: seq<Entry>, seen: seq<Name>, list': seq<Entry>,
                    maybe: seq<Name>, n: Name)
    requires Adding(l, tr, k, list, seen, list', maybe) && n !in seen
    ensures n in NamesOf(list') <==> n in NamesOf(list)
  {
    var extra := Minus(seen, NamesOf(list));
    MinusHas(seen, NamesOf(list), n);
    RawNames(list, extra, l.isUpper);
  }

  lemma AddingKnown(l: Layer, tr: Trouble, k: nat, list: seq<Entry>, seen: seq<Name>, list': seq<Entry>,
                    maybe: seq<Name>, n: Name)
    requires Adding(l, tr, k, list, seen, list', maybe) && n in NamesOf(list)
    ensures Adding(l, tr, k, list, seen + [n], list', maybe)
  {
    MinusSnoc(seen, n, NamesOf(list));
    assert Minus(seen, NamesOf(list)) + [] == Minus(seen, NamesOf(list));
  }

  lemma AddingNew(l: Layer, tr: Trouble, k: nat, list: seq<Entry>, seen: seq<Name>, list': seq<Entry>,
                  maybe: seq<Name>, n: Name)
    requires Adding(l, tr, k, list, seen, list', maybe) && n !in NamesOf(list)
    ensures Adding(l, tr, k, list, seen + [n], list' + [Entry(n, l.isUpper, false)],
                   if IsCandidate(l.node, tr, k, n) then [n] + maybe else maybe)
  {
    var extra := Minus(seen, NamesOf(list));
    MinusSnoc(seen, n, NamesOf(list));
    RawSnoc(list, extra, l.isUpper, n);
    MaybeWhiteSnoc(l.node, tr, k, extra, n);
  }

  lemma NamesSnoc(list: seq<Entry>, e: Entry)
    ensures NamesOf(list + [e]) == NamesOf(list) + [e.name]
  {
  }

  lemma MarkedNames(list: seq<Entry>, t: Node, checked: set<Name>)
    ensures NamesOf(Marked(list, t, checked)) == NamesOf(list)
  {
  }

  /** Add the names a layer reports to the tree and the list, unless they are there. */
  method AddNames(l: Layer, tr: Trouble, k: nat, names: seq<Name>, tree: T.Tree, list: seq<Entry>)
    returns (tree': T.Tree, list': seq<Entry>, maybe: seq<Name>)
    requires Indexed(tree, list) && Distinct(names)
    ensures Indexed(tree', list')
    ensures list' == list + Raw(Minus(names, NamesOf(list)), l.isUpper)
    ensures maybe == MaybeWhite(l.node, tr, k, Minus(names, NamesOf(list)))
  {
    tree', list', maybe := tree, list, [];
    var i := 0;
    while i < |names|
      invariant 0 <= i <= |names|
      invariant Adding(l, tr, k, list, names[..i], list', maybe)
      invariant Indexed(tree', list')
    {
      var n := names[i];
      assert names[..i + 1] == names[..i] + [n];
      AddingNames(l, tr, k, list, names[..i], list', maybe, n);
      NamesSnoc(list', Entry(n, l.isUpper, false));
      var added;
      added, tree' := T.Insert(tree', n);
      if added {
        AddingNew(l, tr, k, list, names[..i], list', maybe, n);
        list' := list' + [Entry(n, l.isUpper, false)];
        if IsCandidate(l.node, tr, k, n) {
          maybe := [n] + maybe;
        }
      } else {
        AddingKnown(l, tr, k, list, names[..i], list', maybe, n);
      }
      i := i + 1;
    }
    assert names[..i] == names;
  }

  /** Read a layer that is not the lowest, with `ls` above it. */
  method ReadUpperLayer(l: Layer, tr: Trouble, k: nat, tree: T.Tree, list: seq<Entry>, ghost ls: seq<Layer>)
    returns (tree': T.Tree, list': seq<Entry>, ghost order: seq<Name>)
    requires l.node.Dir? && k == |ls| && Indexed(tree, list) && Listed(list, ls, tr)
    ensures Indexed(tree', list') && Listed(list', ls + [l], tr)
    ensures Reports(l.node, order)
    ensures NamesOf(list') == NamesOf(list) + Minus(order, NamesOf(list))
  {
    var names := ReadNames(l.node);
    order := names;
    var raw, maybe;
    tree', raw, maybe := AddNames(l, tr, k, names, tree, list);
    Candidates(l.node, tr, k, Minus(order, NamesOf(list)));
    list' := CheckWhiteouts(l.node, raw, maybe, tr, k);
    UpperNames(l, list, order, Checked(l.node, tr, k, Minus(order, NamesOf(list))), list');
    UpperLayerListed(l, tr, list, order, list', ls);
  }

  lemma TopLayerSnoc(ls: seq<Layer>, l: Layer, n: Name)
    ensures TopLayer(ls + [l], n) ==
            if TopLayer(ls, n).Some? then TopLayer(ls, n) else if HasEntry(l.node, n) then Some(|ls|) else None
  {
    var all := ls + [l];
    assert all[|ls|] == l && forall j :: 0 <= j < |ls| ==> all[j] == ls[j];
    var r, r' := TopLayer(ls, n), TopLayer(all, n);
    if r.Some? {
      assert HasEntry(all[r.value].node, n);
    }
  }

  lemma TopEntrySnoc(ls: seq<Layer>, l: Layer, n: Name)
    ensures TopEntry(ls + [l], n) ==
            if TopEntry(ls, n).Some? then TopEntry(ls, n)
            else if HasEntry(l.node, n) then Some(Entry(n, l.isUpper, IsWhiteIn(l.node, n))) else None
  {
    TopLayerSnoc(ls, l, n);
  }

  lemma UnsureSnoc(ls: seq<Layer>, l: Layer, tr: Trouble, n: Name)
    ensures Unsure(ls + [l], tr, n) <==>
            if TopEntry(ls, n).Some? then Unsure(ls, tr, n)
            else HasEntry(l.node, n) && UnsureIn(l.node, tr, |ls|, n)
  {
    TopLayerSnoc(ls, l, n);
  }

  /** The entry of the first layer, or what the others say. */
  lemma TopEntryFirst(ls: seq<Layer>, n: Name)
    requires ls != []
    ensures TopEntry(ls, n) ==
            if HasEntry(ls[0].node, n) then Some(Entry(n, ls[0].isUpper, IsWhiteIn(ls[0].node, n)))
            else TopEntry(ls[1..], n)
  {
  }

  lemma NamesIndex(list: seq<Entry>, n: Name)
    ensures n in NamesOf(list) <==> exists e :: e in list && e.name == n
  {
    if n in NamesOf(list) {
      var i :| 0 <= i < |list| && NamesOf(list)[i] == n;
      assert list[i] in list && list[i].name == n;
    }
    if e :| e in list && e.name == n {
      var i :| 0 <= i < |list| && list[i] == e;
      assert NamesOf(list)[i] == n;
    }
  }

  /** A name is in a listing iff some layer has it. */
  lemma ListedNames(list: seq<Entry>, ls: seq<Layer>, tr: Trouble, n: Name)
    requires Listed(list, ls, tr)
    ensures n in NamesOf(list) <==> TopEntry(ls, n).Some?
  {
    NamesIndex(list, n);
    if TopEntry(ls, n).Some? {
      assert TopIn(ls, tr, n).value in list;
    }
  }

  /** A list with one entry per name, where every entry is right and every name of the layers
      occurs, is a listing. */
  lemma ListedFrom(list: seq<Entry>, ls: seq<Layer>, tr: Trouble)
    requires Distinct(NamesOf(list))
    requires forall i :: 0 <= i < |list| ==> TopIn(ls, tr, list[i].name) == Some(list[i])
    requires forall n :: TopEntry(ls, n).Some? ==> n in NamesOf(list)
    ensures Listed(list, ls, tr)
  {
    forall e: Entry | TopIn(ls, tr, e.name) == Some(e)
      ensures e in list
    {
      var i :| 0 <= i < |list| && NamesOf(list)[i] == e.name;
      assert list[i] == e;
    }
  }

  lemma UpperNames(l: Layer, list: seq<Entry>, order: seq<Name>, checked: set<Name>, list': seq<Entry>)
    requires Distinct(NamesOf(list)) && Distinct(order)
    requires list' == Marked(list + Raw(Minus(order, NamesOf(list)), l.isUpper), l.node, checked)
    ensures NamesOf(list') == NamesOf(list) + Minus(order, NamesOf(list)) && Distinct(NamesOf(list'))
  {
    var extra := Minus(order, NamesOf(list));
    MarkedNames(list + Raw(extra, l.isUpper), l.node, checked);
    RawNames(list, extra, l.isUpper);
    MinusDistinct(order, NamesOf(list));
    forall n | n in extra
      ensures n !in NamesOf(list)
    {
      MinusHas(order, NamesOf(list), n);
    }
    ConcatDistinct(NamesOf(list), extra);
  }

  /** What the reading of one layer leaves: its new names, marked as far as they are checked. */
  ghost predicate IsUpper(l: Layer, tr: Trouble, k: nat, list: seq<Entry>, order: seq<Name>, list': seq<Entry>) {
    var extra := Minus(order, NamesOf(list));
    Reports(l.node, order) && list' == Marked(list + Raw(extra, l.isUpper), l.node, Checked(l.node, tr, k, extra))
  }

  lemma UpperLayerListed(l: Layer, tr: Trouble, list: seq<Entry>, order: seq<Name>, list': seq<Entry>, ls: seq<Layer>)
    requires Listed(list, ls, tr) && IsUpper(l, tr, |ls|, list, order, list')
    ensures Listed(list', ls + [l], tr)
  {
    UpperNames(l, list, order, Checked(l.node, tr, |ls|, Minus(order, NamesOf(list))), list');
    forall i | 0 <= i < |list'|
      ensures TopIn(ls + [l], tr, list'[i].name) == Some(list'[i])
    {
      UpperEntryRight(l, tr, list, order, list', ls, i);
    }
    forall n | TopEntry(ls + [l], n).Some?
      ensures n in NamesOf(list')
    {
      UpperNamesCovered(l, tr, list, order, ls, n);
    }
    ListedFrom(list', ls + [l], tr);
  }

  lemma UpperNamesCovered(l: Layer, tr: Trouble, list: seq<Entry>, order: seq<Name>, ls: seq<Layer>, n: Name)
    requires Listed(list, ls, tr) && Reports(l.node, order) && TopEntry(ls + [l], n).Some?
    ensures n in NamesOf(list) + Minus(order, NamesOf(list))
  {
    TopEntrySnoc(ls, l, n);
    ListedNames(list, ls, tr, n);
    MinusHas(order, NamesOf(list), n);
  }

  lemma ConcatDistinct(a: seq<Name>, b: seq<Name>)
    requires Distinct(a) && Distinct(b) && forall n :: n in b ==> n !in a
    ensures Distinct(a + b)
  {
    forall i, j | 0 <= i < j < |a + b|
      ensures (a + b)[i] != (a + b)[j]
    {
      if i < |a| <= j {
        assert b[j - |a|] in b && a[i] in a;
      }
    }
  }

  /** A name of the layers above keeps its entry. */
  lemma KeptEntry(l: Layer, tr: Trouble, ls: seq<Layer>, list: seq<Entry>, n: Name)
    requires Listed(list, ls, tr) && n in NamesOf(list)
    ensures TopIn(ls + [l], tr, n) == TopIn(ls, tr, n)
  {
    TopEntrySnoc(ls, l, n);
    UnsureSnoc(ls, l, tr, n);
    ListedNames(list, ls, tr, n);
  }

  /** A new name gets the entry of the layer, with the whiteout mark it was given if checked. */
  lemma TakenEntry(l: Layer, tr: Trouble, ls: seq<Layer>, list: seq<Entry>, order: seq<Name>, n: Name)
    requires Listed(list, ls, tr) && Reports(l.node, order) && n in Minus(order, NamesOf(list))
    ensures var checked := Checked(l.node, tr, |ls|, Minus(order, NamesOf(list)));
      TopIn(ls + [l], tr, n) == Some(Entry(n, l.isUpper, n in checked && IsWhiteIn(l.node, n)))
  {
    TopEntrySnoc(ls, l, n);
    UnsureSnoc(ls, l, tr, n);
    ListedNames(list, ls, tr, n);
    MinusHas(order, NamesOf(list), n);
  }

  lemma UpperEntryRight(l: Layer, tr: Trouble, list: seq<Entry>, order: seq<Name>, list': seq<Entry>, ls: seq<Layer>,
                        i: nat)
    requires Listed(list, ls, tr) && IsUpper(l, tr, |ls|, list, order, list') && i < |list'|
    ensures TopIn(ls + [l], tr, list'[i].name) == Some(list'[i])
  {
    var extra := Minus(order, NamesOf(list));
    var n := list'[i].name;
    MinusHas(order, NamesOf(list), n);
    if i < |list| {
      assert n == list[i].name == NamesOf(list)[i];
      assert list'[i] == list[i] && list[i] in list;
      KeptEntry(l, tr, ls, list, n);
    } else {
      assert n == extra[i - |list|];
      TakenEntry(l, tr, ls, list, order, n);
    }
  }

  // ---------------------------------------------------------------------------------
  // Reading the lowest layer

  /** The list without the entries named in `gone`. */
  function Without(list: seq<Entry>, gone: seq<Name>): seq<Entry> {
    if list == [] then []
    else if list[0].name in gone then Without(list[1..], gone)
    else [list[0]] + Without(list[1..], gone)
  }

  lemma {:induction false} WithoutMore(list: seq<Entry>, gone: seq<Name>, n: Name)
    ensures Without(Without(list, gone), [n]) == Without(list, gone + [n])
  {
    if list == [] {
    } else {
      WithoutMore(list[1..], gone, n);
      if list[0].name !in gone {
        assert ([list[0]] + Without(list[1..], gone))[1..] == Without(list[1..], gone);
      }
    }
  }

  lemma {:induction false} WithoutNone(list: seq<Entry>, gone: seq<Name>)
    requires forall n :: n in gone ==> n !in NamesOf(list)
    ensures Without(list, gone) == list
  {
    if list == [] {
    } else {
      assert NamesOf(list)[0] == list[0].name;
      assert NamesOf(list)[1..] == NamesOf(list[1..]);
      WithoutNone(list[1..], gone);
    }
  }

  lemma {:induction false} WithoutNames(list: seq<Entry>, gone: seq<Name>)
    ensures NamesOf(Without(list, gone)) == Minus(NamesOf(list), gone)
  {
    if list == [] {
    } else {
      WithoutNames(list[1..], gone);
      assert NamesOf(list)[0] == list[0].name && NamesOf(list)[1..] == NamesOf(list[1..]);
      assert NamesOf([list[0]] + Without(list[1..], gone)) == [list[0].name] + NamesOf(Without(list[1..], gone));
    }
  }

  lemma {:induction false} WithoutHas(list: seq<Entry>, gone: seq<Name>, e: Entry)
    ensures e in Without(list, gone) <==> e in list && e.name !in gone
  {
    if list == [] {
    } else {
      WithoutHas(list[1..], gone, e);
      assert list == [list[0]] + list[1..];
    }
  }

  /** The entry named `n`, which must be there. */
  function EntryNamed(list: seq<Entry>, n: Name): (e: Entry)
    requires n in NamesOf(list)
    ensures e in list && e.name == n
  {
    assert NamesOf(list)[0] == list[0].name && NamesOf(list)[1..] == NamesOf(list[1..]);
    if list[0].name == n then list[0] else EntryNamed(list[1..], n)
  }

  /** The front part: for each name of the lowest layer the entry found above, or a new one. */
  function Front(list: seq<Entry>, order: seq<Name>, isUpper: bool): (r: seq<Entry>)
    ensures |r| == |order|
    ensures forall i :: 0 <= i < |order| ==>
              r[i] == if order[i] in NamesOf(list) then EntryNamed(list, order[i]) else Entry(order[i], isUpper, false)
  {
    seq(|order|, i requires 0 <= i < |order| =>
      if order[i] in NamesOf(list) then EntryNamed(list, order[i]) else Entry(order[i], isUpper, false))
  }

  lemma FrontSnoc(list: seq<Entry>, s: seq<Name>, isUpper: bool, n: Name)
    ensures Front(list, s + [n], isUpper) ==
            Front(list, s, isUpper) + [if n in NamesOf(list) then EntryNamed(list, n) else Entry(n, isUpper, false)]
  {
  }

  lemma EntryOnce(list: seq<Entry>, e: Entry, f: Entry)
    requires Distinct(NamesOf(list)) && e in list && f in list && e.name == f.name
    ensures e == f
  {
    var i :| 0 <= i < |list| && list[i] == e;
    var j :| 0 <= j < |list| && list[j] == f;
    assert NamesOf(list)[i] == NamesOf(list)[j];
  }

  /** Names occur once, so an entry found in the rest is the entry of the list. */
  lemma NamedWithout(list: seq<Entry>, gone: seq<Name>, n: Name)
    requires Distinct(NamesOf(list)) && n in NamesOf(list) && n !in gone
    ensures n in NamesOf(Without(list, gone)) && EntryNamed(Without(list, gone), n) == EntryNamed(list, n)
  {
    WithoutNames(list, gone);
    MinusHas(NamesOf(list), gone, n);
    var e := EntryNamed(Without(list, gone), n);
    WithoutHas(list, gone, e);
    EntryOnce(list, e, EntryNamed(list, n));
  }

  /** One more name of the lowest layer, found above. */
  lemma MoveFound(l: Layer, list: seq<Entry>, s: seq<Name>, n: Name)
    requires Distinct(NamesOf(list)) && n !in s && n in NamesOf(list)
    ensures n in NamesOf(Without(list, s))
    ensures Front(list, s + [n], l.isUpper) == Front(list, s, l.isUpper) + [EntryNamed(Without(list, s), n)]
    ensures Without(list, s + [n]) == Without(Without(list, s), [n])
    ensures Minus(s + [n], NamesOf(list)) == Minus(s, NamesOf(list))
  {
    NamedWithout(list, s, n);
    FrontSnoc(list, s, l.isUpper, n);
    WithoutMore(list, s, n);
    MinusSnoc(s, n, NamesOf(list));
  }

  /** One more name of the lowest layer, not found above. */
  lemma MoveNew(l: Layer, tr: Trouble, k: nat, list: seq<Entry>, s: seq<Name>, n: Name)
    requires n !in NamesOf(list)
    ensures Front(list, s + [n], l.isUpper) == Front(list, s, l.isUpper) + [Entry(n, l.isUpper, false)]
    ensures Without(list, s + [n]) == Without(list, s)
    ensures var rest := MaybeWhite(l.node, tr, k, Minus(s, NamesOf(list)));
      MaybeWhite(l.node, tr, k, Minus(s + [n], NamesOf(list))) ==
      if IsCandidate(l.node, tr, k, n) then [n] + rest else rest
  {
    FrontSnoc(list, s, l.isUpper, n);
    MinusSnoc(s, n, NamesOf(list));
    MaybeWhiteSnoc(l.node, tr, k, Minus(s, NamesOf(list)), n);
    WithoutSame(list, s, n);
  }

  lemma {:induction false} WithoutSame(list: seq<Entry>, s: seq<Name>, n: Name)
    requires n !in NamesOf(list)
    ensures Without(list, s + [n]) == Without(list, s)
  {
    if list == [] {
    } else {
      assert NamesOf(list)[0] == list[0].name && NamesOf(list)[1..] == NamesOf(list[1..]);
      WithoutSame(list[1..], s, n);
    }
  }

  /** Put the names of the lowest layer before the marker: entries already found above are
      moved there, the others stay behind. */
  method MoveNames(l: Layer, tr: Trouble, k: nat, names: seq<Name>, tree: T.Tree, list: seq<Entry>)
    returns (front: seq<Entry>, back: seq<Entry>, maybe: seq<Name>)
    requires Indexed(tree, list) && Distinct(names) && Distinct(NamesOf(list))
    ensures front == Front(list, names, l.isUpper)
    ensures back == Without(list, names)
    ensures maybe == MaybeWhite(l.node, tr, k, Minus(names, NamesOf(list)))
  {
    front, back, maybe := [], list, [];
    WithoutNone(list, []);
    var i := 0;
    while i < |names|
      invariant 0 <= i <= |names|
      invariant front == Front(list, names[..i], l.isUpper)
      invariant back == Without(list, names[..i])
      invariant maybe == MaybeWhite(l.node, tr, k, Minus(names[..i], NamesOf(list)))
    {
      var n := names[i];
      assert names[..i + 1] == names[..i] + [n] && n !in names[..i];
      var found := T.Find(tree, n);
      if found {
        MoveFound(l, list, names[..i], n);
        front, back := front + [EntryNamed(back, n)], Without(back, [n]);
      } else {
        MoveNew(l, tr, k, list, names[..i], n);
        front := front + [Entry(n, l.isUpper, false)];
        if IsCandidate(l.node, tr, k, n) {
          maybe := [n] + maybe;
        }
      }
      i := i + 1;
    }
    assert names[..i] == names;
  }

  /** Read the lowest layer, with `ls` above it. */
  method ReadLowestLayer(l: Layer, tr: Trouble, k: nat, tree: T.Tree, list: seq<Entry>, ghost ls: seq<Layer>)
    returns (list': seq<Entry>, ghost order: seq<Name>)
    requires l.node.Dir? && k == |ls| && Indexed(tree, list) && Listed(list, ls, tr)
    ensures Listed(list', ls + [l], tr)
    ensures Reports(l.node, order)
    ensures NamesOf(list') == order + Minus(NamesOf(list), order)
  {
    var names := ReadNames(l.node);
    order := names;
    var front, back, maybe := MoveNames(l, tr, k, names, tree, list);
    Candidates(l.node, tr, k, Minus(order, NamesOf(list)));
    list' := CheckWhiteouts(l.node, front + back, maybe, tr, k);
    LowestNames(l, tr, k, list, order, list');
    LowestLayerListed(l, tr, list, order, list', ls);
  }

  ghost predicate IsLowest(l: Layer, tr: Trouble, k: nat, list: seq<Entry>, order: seq<Name>, list': seq<Entry>) {
    var checked := Checked(l.node, tr, k, Minus(order, NamesOf(list)));
    list' == Marked(Front(list, order, l.isUpper) + Without(list, order), l.node, checked)
  }

  lemma LowestNames(l: Layer, tr: Trouble, k: nat, list: seq<Entry>, order: seq<Name>, list': seq<Entry>)
    requires IsLowest(l, tr, k, list, order, list')
    ensures NamesOf(list') == order + Minus(NamesOf(list), order)
  {
    var front, back := Front(list, order, l.isUpper), Without(list, order);
    WithoutNames(list, order);
    assert NamesOf(list') == NamesOf(front + back) == NamesOf(front) + NamesOf(back);
    assert NamesOf(front) == order;
  }

  lemma LowestLayerListed(l: Layer, tr: Trouble, list: seq<Entry>, order: seq<Name>, list': seq<Entry>, ls: seq<Layer>)
    requires Listed(list, ls, tr) && Reports(l.node, order) && IsLowest(l, tr, |ls|, list, order, list')
    ensures Listed(list', ls + [l], tr)
  {
    LowestNames(l, tr, |ls|, list, order, list');
    LowestDistinct(list, order);
    forall i | 0 <= i < |list'|
      ensures TopIn(ls + [l], tr, list'[i].name) == Some(list'[i])
    {
      LowestEntryRight(l, tr, list, order, list', ls, i);
    }
    forall n | TopEntry(ls + [l], n).Some?
      ensures n in NamesOf(list')
    {
      LowestNamesCovered(l, tr, list, order, ls, n);
    }
    ListedFrom(list', ls + [l], tr);
  }

  lemma LowestDistinct(list: seq<Entry>, order: seq<Name>)
    requires Distinct(NamesOf(list)) && Distinct(order)
    ensures Distinct(order + Minus(NamesOf(list), order))
  {
    var rest := Minus(NamesOf(list), order);
    MinusDistinct(NamesOf(list), order);
    forall n | n in rest
      ensures n !in order
    {
      MinusHas(NamesOf(list), order, n);
    }
    ConcatDistinct(order, rest);
  }

  lemma LowestNamesCovered(l: Layer, tr: Trouble, list: seq<Entry>, order: seq<Name>, ls: seq<Layer>, n: Name)
    requires Listed(list, ls, tr) && Reports(l.node, order) && TopEntry(ls + [l], n).Some?
    ensures n in order + Minus(NamesOf(list), order)
  {
    TopEntrySnoc(ls, l, n);
    ListedNames(list, ls, tr, n);
    MinusHas(NamesOf(list), order, n);
  }

  /** An entry before the marks are set: one found above, or a new one. */
  lemma LowestSource(list: seq<Entry>, order: seq<Name>, isUpper: bool, i: nat)
    requires i < |Front(list, order, isUpper) + Without(list, order)|
    ensures var e := (Front(list, order, isUpper) + Without(list, order))[i];
      if e.name in NamesOf(list) then e in list else e == Entry(e.name, isUpper, false) && e.name in order
  {
    var front, back := Front(list, order, isUpper), Without(list, order);
    if i < |order| {
      assert (front + back)[i] == front[i];
    } else {
      var e := back[i - |order|];
      assert (front + back)[i] == e;
      WithoutHas(list, order, e);
      NamesIndex(list, e.name);
    }
  }

  lemma LowestEntryRight(l: Layer, tr: Trouble, list: seq<Entry>, order: seq<Name>, list': seq<Entry>, ls: seq<Layer>,
                         i: nat)
    requires Listed(list, ls, tr) && Reports(l.node, order) && IsLowest(l, tr, |ls|, list, order, list') && i < |list'|
    ensures TopIn(ls + [l], tr, list'[i].name) == Some(list'[i])
  {
    var e: Entry := (Front(list, order, l.isUpper) + Without(list, order))[i];
    LowestSource(list, order, l.isUpper, i);
    MinusHas(order, NamesOf(list), e.name);
    if e.name in NamesOf(list) {
      KeptEntry(l, tr, ls, list, e.name);
    } else {
      TakenEntry(l, tr, ls, list, order, e.name);
    }
  }

  // ---------------------------------------------------------------------------------
  // The merged listing

  /** The number of real directories before position `idx` (position 0 is the upper one). */
  function Position(o: Obj, idx: int): int
    requires o.DirObj?
  {
    if o.up.Some? then idx else if idx == 0 then 0 else idx - 1
  }

  /** The real directory at position `idx` of a merged one, and the next position, or -1 after
      the last. */
  function PathNext(o: Obj, idx: int): (r: (Layer, int))
    requires o.DirObj? && LayersOf(o) != [] && 0 <= idx <= |o.stack|
    ensures 0 <= Position(o, idx) < |LayersOf(o)| && r.0 == LayersOf(o)[Position(o, idx)]
    ensures r.1 == -1 ==> Position(o, idx) + 1 == |LayersOf(o)|
    ensures r.1 != -1 ==> 0 <= r.1 <= |o.stack| && Position(o, r.1) == Position(o, idx) + 1 < |LayersOf(o)|
  {
    if idx == 0 && o.up.Some? then
      (Layer(o.up.value, true), if |o.stack| > 0 then 1 else -1)
    else
      var i := if idx == 0 then 1 else idx;
      (Layer(o.stack[i - 1].node, false), if i < |o.stack| then i + 1 else -1)
  }

  /** The names of several layers in the order they are first met. */
  function FirstSeen(orders: seq<seq<Name>>): seq<Name> {
    if orders == [] then []
    else
      var seen := FirstSeen(orders[..|orders| - 1]);
      seen + Minus(orders[|orders| - 1], seen)
  }

  /** Each order is one in which the layer reports its entries. */
  ghost predicate Reported(ls: seq<Layer>, orders: seq<seq<Name>>) {
    |orders| <= |ls| && forall k :: 0 <= k < |orders| ==> Reports(ls[k].node, orders[k])
  }

  /** First the names of the lowest layer in its order, then the other names in the order they
      are met from the top. */
  ghost predicate LowestFirst(list: seq<Entry>, orders: seq<seq<Name>>) {
    orders != [] &&
    var lowest := orders[|orders| - 1];
    NamesOf(list) == lowest + Minus(FirstSeen(orders[..|orders| - 1]), lowest)
  }

  lemma ReportedSnoc(ls: seq<Layer>, orders: seq<seq<Name>>, order: seq<Name>)
    requires Reported(ls, orders) && |orders| < |ls| && Reports(ls[|orders|].node, order)
    ensures Reported(ls, orders + [order])
    ensures FirstSeen(orders + [order]) == FirstSeen(orders) + Minus(order, FirstSeen(orders))
    ensures (orders + [order])[..|orders|] == orders
  {
  }

  lemma TakeSnoc(ls: seq<Layer>, k: nat)
    requires k < |ls|
    ensures ls[..k + 1] == ls[..k] + [ls[k]] && ls[k] in ls
  {
  }

  /** The layers before position `idx` have been read, or all of them if it is -1. */
  ghost predicate Reading(o: Obj, tr: Trouble, idx: int, tree: T.Tree, list: seq<Entry>, orders: seq<seq<Name>>)
    requires o.DirObj?
  {
    var ls := LayersOf(o);
    && -1 <= idx <= |o.stack| && Reported(ls, orders)
    && (if idx == -1 then |orders| == |ls| && LowestFirst(list, orders)
        else |orders| == Position(o, idx) < |ls| && Indexed(tree, list) && NamesOf(list) == FirstSeen(orders))
    && Listed(list, ls[..|orders|], tr)
  }

  /** Read the next layer. */
  method ReadNext(o: Obj, tr: Trouble, idx: int, tree: T.Tree, list: seq<Entry>, ghost orders: seq<seq<Name>>)
    returns (idx': int, tree': T.Tree, list': seq<Entry>, ghost orders': seq<seq<Name>>)
    requires o.DirObj? && LayersOf(o) != [] && forall l :: l in LayersOf(o) ==> l.node.Dir?
    requires idx != -1 && Reading(o, tr, idx, tree, list, orders)
    ensures Reading(o, tr, idx', tree', list', orders') && |orders'| == |orders| + 1
    ensures idx' == PathNext(o, idx).1 && Listed(list', LayersOf(o)[..Position(o, idx) + 1], tr)
  {
    var (layer, next) := PathNext(o, idx);
    ghost var ls, order := LayersOf(o), [];
    TakeSnoc(ls, |orders|);
    tree', idx' := tree, next;
    if next != -1 {
      tree', list', order := ReadUpperLayer(layer, tr, Position(o, idx), tree, list, ls[..|orders|]);
    } else {
      list', order := ReadLowestLayer(layer, tr, Position(o, idx), tree, list, ls[..|orders|]);
    }
    ReportedSnoc(ls, orders, order);
    orders' := orders + [order];
  }

  /** Can the first `n` layers be read? */
  predicate Readable(tr: Trouble, n: nat) {
    forall k | k in tr.broken :: n <= k
  }

  lemma ReadableStep(tr: Trouble, n: nat)
    ensures Readable(tr, n + 1) <==> Readable(tr, n) && n !in tr.broken
  {
  }

  /** Can all layers be read? */
  predicate AllRead(o: Obj, tr: Trouble)
    requires o.DirObj?
  {
    Readable(tr, |LayersOf(o)|)
  }

  lemma ReadingStarts(o: Obj, tr: Trouble)
    requires o.DirObj? && LayersOf(o) != []
    ensures Reading(o, tr, 0, T.Leaf, [], []) && Readable(tr, 0)
  {
    assert LayersOf(o)[..0] == [];
  }

  lemma BrokenIsUnread(tr: Trouble, n: nat, k: nat)
    requires k < n && k in tr.broken
    ensures !Readable(tr, n)
  {
  }

  /** Read all layers of a merged directory; this works iff none of them is broken.  The result lists
      each name once, as the topmost layer that has it shows it, the names of the lowest layer
      first.  A whiteout is recognised unless its type is not reported or its lookup fails. */
  method ReadMerged(o: Obj, tr: Trouble) returns (ok: bool, list: seq<Entry>, ghost orders: seq<seq<Name>>)
    requires o.DirObj? && LayersOf(o) != [] && forall l :: l in LayersOf(o) ==> l.node.Dir?
    ensures ok <==> AllRead(o, tr)
    ensures ok ==> Listed(list, LayersOf(o), tr)
    ensures ok ==> |orders| == |LayersOf(o)| && Reported(LayersOf(o), orders) && LowestFirst(list, orders)
  {
    var tree := T.Leaf;
    list, orders := [], [];
    var idx := 0;
    ReadingStarts(o, tr);
    while idx != -1
      invariant Reading(o, tr, idx, tree, list, orders) && Readable(tr, |orders|)
      decreases |LayersOf(o)| - |orders|
    {
      ReadableStep(tr, |orders|);
      if Position(o, idx) in tr.broken {
        BrokenIsUnread(tr, |LayersOf(o)|, |orders|);
        return false, [], [];
      }
      idx, tree, list, orders := ReadNext(o, tr, idx, tree, list, orders);
    }
    assert LayersOf(o)[..|orders|] == LayersOf(o);
    ok := true;
  }

  // ---------------------------------------------------------------------------------
  // Listing and lookup agree

  predicate Visible(e: Option<Entry>) {
    e.Some? && !e.value.isWhite
  }

  lemma {:induction false} LowerTop(s: seq<Lower>, n: Name)
    requires !IsDot(n)
    ensures LowerPositive(s, n) <==> Visible(TopEntry(LowerLayers(s), n))
  {
    if s == [] {
    } else {
      LowerTop(s[1..], n);
      assert LowerLayers(s)[0] == Layer(s[0].node, false) && LowerLayers(s)[1..] == LowerLayers(s[1..]);
      TopEntryFirst(LowerLayers(s), n);
    }
  }

  /** The topmost entry of a name is there and not a whiteout iff lookup finds the name (or
      fails on it). */
  lemma TopIsFound(m: Mount, o: Obj, n: Name)
    requires o.DirObj? && UpIsDir(o) && !IsDot(n)
    ensures Visible(TopEntry(LayersOf(o), n)) <==> !Child(m, o, n).Absent?
  {
    var one := UpperOne(o.up, n);
    LowerTop(o.stack, n);
    EntryMissing(m, n, o.stack, o.isRoot);
    if o.up.Some? {
      assert LayersOf(o)[0] == Layer(o.up.value, true) && LayersOf(o)[1..] == LowerLayers(o.stack);
      TopEntryFirst(LayersOf(o), n);
      if one.Hit? {
        EntryOther(m, one.node, n, o.stack, o.isRoot);
        if one.node.Dir? {
          EntryDir(m, one.node, n, o.stack, o.isRoot);
        }
      }
    } else {
      assert LayersOf(o) == LowerLayers(o.stack);
    }
  }

  predicate Shows(list: seq<Entry>, n: Name) {
    exists e :: e in list && e.name == n && !e.isWhite
  }

  /** The names a listing shows are exactly those lookup finds, and the whiteouts whose type is not
      reported or whose lookup fails; and those lookup does not find. */
  lemma ListingIsLookup(m: Mount, o: Obj, list: seq<Entry>, tr: Trouble, n: Name)
    requires o.DirObj? && UpIsDir(o) && Listed(list, LayersOf(o), tr) && !IsDot(n)
    ensures Shows(list, n) <==> !Child(m, o, n).Absent? || Missed(LayersOf(o), tr, n)
    ensures Missed(LayersOf(o), tr, n) ==> Child(m, o, n).Absent?
  {
    TopIsFound(m, o, n);
    var top := TopIn(LayersOf(o), tr, n);
    if Visible(top) {
      assert top.value in list;
    }
  }

  ghost predicate MissesNone(ls: seq<Layer>, tr: Trouble) {
    forall n :: !Missed(ls, tr, n)
  }

  /** If every type is reported and every lookup works, no whiteout is missed. */
  lemma ClearMissesNone(ls: seq<Layer>, tr: Trouble)
    requires tr.Clear()
    ensures MissesNone(ls, tr)
  {
  }

  /** Then a listing shows exactly the names lookup finds. */
  lemma ClearListing(m: Mount, o: Obj, list: seq<Entry>, tr: Trouble, n: Name)
    requires o.DirObj? && UpIsDir(o) && Listed(list, LayersOf(o), tr) && !IsDot(n) && tr.Clear()
    ensures Shows(list, n) <==> !Child(m, o, n).Absent?
  {
    ListingIsLookup(m, o, list, tr, n);
  }

  /** An upper layer that hides the only file of a lower one.  If the type of the whiteout is not
      reported, or its lookup fails, the listing shows the file, though lookup does not find it and
      the directory is empty. */
  lemma MissedExample(meta: int, file: Node, tr: Trouble)
    requires file.Leaf? && (0, "a") in tr.untyped + tr.failing
    ensures var a: Name := "a";
      var m := Mount([Dir(meta, false, None, false, map[a := file])], true, true);
      var o := Root(m, Dir(meta, false, None, false, map[a := White]));
      var list := [Entry(".", true, false), Entry("..", true, false), Entry(a, true, false)];
      && Listed(list, LayersOf(o), tr) && Missed(LayersOf(o), tr, a) && Shows(list, a)
      && Child(m, o, a).Absent? && MergedEmpty(m, o)
  {
    var a: Name := "a";
    var u, lower := Dir(meta, false, None, false, map[a := White]), Dir(meta, false, None, false, map[a := file]);
    var m := Mount([lower], true, true);
    var o := Root(m, u);
    assert LayersOf(o) == [Layer(u, true), Layer(lower, false)];
    MissedListed(u, lower, a, tr);
    forall n: Name | !IsDot(n)
      ensures Child(m, o, n).Absent?
    {
      TwoLayers(u, lower, n);
      TopIsFound(m, o, n);
    }
    TwoLayers(u, lower, a);
  }

  lemma TwoLayers(u: Node, lower: Node, n: Name)
    ensures TopLayer([Layer(u, true), Layer(lower, false)], n) ==
            if HasEntry(u, n) then Some(0) else if HasEntry(lower, n) then Some(1) else None
  {
    TopLayerSnoc([], Layer(u, true), n);
    TopLayerSnoc([Layer(u, true)], Layer(lower, false), n);
    assert [] + [Layer(u, true)] == [Layer(u, true)];
    assert [Layer(u, true)] + [Layer(lower, false)] == [Layer(u, true), Layer(lower, false)];
  }

  lemma MissedListed(u: Node, lower: Node, a: Name, tr: Trouble)
    requires u.Dir? && u.entries == map[a := White] && lower.Dir? && lower.entries.Keys == {a} && !IsDot(a)
    requires (0, a) in tr.untyped + tr.failing
    ensures var list := [Entry(".", true, false), Entry("..", true, false), Entry(a, true, false)];
      Listed(list, [Layer(u, true), Layer(lower, false)], tr) && Shows(list, a)
  {
    var list := [Entry(".", true, false), Entry("..", true, false), Entry(a, true, false)];
    var names := NamesOf(list);
    assert names[0] == "." && names[1] == ".." && names[2] == a;
    forall n
      ensures TopIn([Layer(u, true), Layer(lower, false)], tr, n) ==
              if IsDot(n) || n == a then Some(Entry(n, true, false)) else None
    {
      TwoLayers(u, lower, n);
    }
    ListedFrom(list, [Layer(u, true), Layer(lower, false)], tr);
    assert list[2] in list;
  }

  // ---------------------------------------------------------------------------------
  // Is the directory empty?

  predicate Passes(e: Entry) {
    e.isWhite || IsDot(e.name)
  }

  /** The whiteouts of the upper layer among the first `k` entries. */
  function UpperWhites(list: seq<Entry>): seq<Name> {
    if list == [] then []
    else
      var last := list[|list| - 1];
      UpperWhites(list[..|list| - 1]) + (if last.isWhite && last.isUpper then [last.name] else [])
  }

  lemma {:induction false} UpperWhitesHas(list: seq<Entry>, n: Name)
    ensures n in UpperWhites(list) <==> Entry(n, true, true) in list
  {
    if list == [] {
    } else {
      UpperWhitesHas(list[..|list| - 1], n);
      assert list == list[..|list| - 1] + [list[|list| - 1]];
    }
  }

  /** Keep the whiteouts of the upper layer; refuse if anything else is there. */
  method CheckEmptyList(list: seq<Entry>) returns (empty: bool, whites: seq<Name>)
    ensures empty <==> forall e :: e in list ==> Passes(e)
    ensures empty ==> whites == UpperWhites(list)
  {
    whites := [];
    var k := 0;
    while k < |list|
      invariant 0 <= k <= |list|
      invariant forall j :: 0 <= j < k ==> Passes(list[j])
      invariant whites == UpperWhites(list[..k])
    {
      var e := list[k];
      assert list[..k + 1][..k] == list[..k];
      if e.isWhite {
        if e.isUpper {
          whites := whites + [e.name];
        }
      } else if !IsDot(e.name) {
        assert e in list && !Passes(e);
        return false, [];
      }
      k := k + 1;
    }
    assert list[..k] == list;
    empty := true;
  }

  /** Is a merged directory empty?  If all layers can be read, the answer is yes iff no name can be
      looked up in it and no whiteout is missed.  Then the whiteouts of its upper part are all the
      entries its upper part has. */
  method CheckEmptyDir(m: Mount, o: Obj, tr: Trouble) returns (err: Errno, whites: seq<Name>)
    requires o.DirObj? && UpIsDir(o) && LayersOf(o) != [] && forall l :: l in LayersOf(o) ==> l.node.Dir?
    ensures err == OK || err == ENOTEMPTY || err == EIO
    ensures err == EIO <==> !AllRead(o, tr)
    ensures AllRead(o, tr) ==> (err == OK <==> MergedEmpty(m, o) && MissesNone(LayersOf(o), tr))
    ensures AllRead(o, tr) && tr.Clear() ==> (err == OK <==> MergedEmpty(m, o))
    ensures err == OK && o.up.Some? ==> forall n :: !IsDot(n) ==> (n in whites <==> n in o.up.value.entries)
    ensures err == OK && o.up.None? ==> whites == []
  {
    var ok, list, _ := ReadMerged(o, tr);
    if !ok {
      return EIO, [];
    }
    var empty;
    empty, whites := CheckEmptyList(list);
    if empty {
      EmptyListMeansEmpty(m, o, list, tr);
      err := OK;
    } else {
      EntryMeansNotEmpty(m, o, list, tr);
      err := ENOTEMPTY;
    }
    if tr.Clear() {
      ClearMissesNone(LayersOf(o), tr);
    }
  }

  lemma EntryMeansNotEmpty(m: Mount, o: Obj, list: seq<Entry>, tr: Trouble)
    requires o.DirObj? && UpIsDir(o) && Listed(list, LayersOf(o), tr) && exists e :: e in list && !Passes(e)
    ensures !(MergedEmpty(m, o) && MissesNone(LayersOf(o), tr))
  {
    var e :| e in list && !Passes(e);
    ListingIsLookup(m, o, list, tr, e.name);
  }

  lemma EmptyListMeansEmpty(m: Mount, o: Obj, list: seq<Entry>, tr: Trouble)
    requires o.DirObj? && UpIsDir(o) && Listed(list, LayersOf(o), tr) && forall e :: e in list ==> Passes(e)
    ensures MergedEmpty(m, o) && MissesNone(LayersOf(o), tr)
    ensures o.up.Some? ==>
              forall n :: !IsDot(n) ==> (n in UpperWhites(list) <==> o.up.value.Dir? && n in o.up.value.entries)
    ensures o.up.None? ==> UpperWhites(list) == []
  {
    forall n: Name
      ensures !Missed(LayersOf(o), tr, n)
      ensures !IsDot(n) ==> Child(m, o, n).Absent?
      ensures !IsDot(n) && o.up.Some? ==> (n in UpperWhites(list) <==> o.up.value.Dir? && n in o.up.value.entries)
    {
      EmptyName(m, o, list, tr, n);
    }
    if o.up.None? && UpperWhites(list) != [] {
      var n := UpperWhites(list)[0];
      UpperWhitesHas(list, n);
      assert LayersOf(o) == LowerLayers(o.stack);
      OnlyUpperIsUpper(o.stack, n);
    }
  }

  lemma EmptyName(m: Mount, o: Obj, list: seq<Entry>, tr: Trouble, n: Name)
    requires o.DirObj? && UpIsDir(o) && Listed(list, LayersOf(o), tr) && forall e :: e in list ==> Passes(e)
    ensures !Missed(LayersOf(o), tr, n)
    ensures !IsDot(n) ==> Child(m, o, n).Absent?
    ensures !IsDot(n) && o.up.Some? ==> (n in UpperWhites(list) <==> o.up.value.Dir? && n in o.up.value.entries)
  {
    DotIsNoWhiteout(LayersOf(o), n);
    var top := TopIn(LayersOf(o), tr, n);
    assert top.Some? ==> top.value in list;
    if !IsDot(n) {
      ListingIsLookup(m, o, list, tr, n);
      UpperWhitesHas(list, n);
      if o.up.Some? {
        assert LayersOf(o)[0] == Layer(o.up.value, true);
        assert LayersOf(o)[1..] == LowerLayers(o.stack);
        TopEntryFirst(LayersOf(o), n);
        OnlyUpperIsUpper(o.stack, n);
      }
    }
  }

  lemma DotIsNoWhiteout(ls: seq<Layer>, n: Name)
    ensures IsDot(n) && TopEntry(ls, n).Some? ==> !TopEntry(ls, n).value.isWhite
  {
  }

  lemma OnlyUpperIsUpper(s: seq<Lower>, n: Name)
    ensures TopEntry(LowerLayers(s), n).Some? ==> !TopEntry(LowerLayers(s), n).value.isUpper
  {
  }
}
