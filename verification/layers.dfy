/** One layer of the overlay: a directory tree with the overlay's own marks on it.

A layer entry is a whiteout, a directory (with its opaque, redirect and origin marks), any
other file, or an entry whose lookup fails.  The upper layer is changed through `Put`, one
entry at a time. */
module Layers {
  import opened Names

  datatype Kind = Regular | Symlink | Special

  datatype Node =
    | White
    | Broken
    | Leaf(kind: Kind, meta: int, data: seq<char>)
    | Dir(meta: int, isOpaque: bool, redirect: Option<CString>, origin: bool, entries: map<Name, Node>)

  function Get(t: Node, p: Path): (r: Option<Node>)
  {
    if p == [] then Some(t)
    else if t.Dir? && p[0] in t.entries then Get(t.entries[p[0]], p[1..])
    else None
  }

  predicate HasDir(t: Node, p: Path) {
    var n := Get(t, p);
    n.Some? && n.value.Dir?
  }

  /** The tree with the entry at `p` replaced (or removed). */
  function Put(t: Node, p: Path, x: Option<Node>): (r: Node)
    requires p != []
    ensures t.Dir? ==> r.Dir? && r == t.(entries := r.entries)
    ensures !t.Dir? ==> r == t
  {
    if !t.Dir? then t
    else if |p| == 1 then
      (match x
       case Some(n) => t.(entries := t.entries[p[0] := n])
       case None => t.(entries := t.entries - {p[0]}))
    else if p[0] in t.entries then
      t.(entries := t.entries[p[0] := Put(t.entries[p[0]], p[1..], x)])
    else t
  }

  function Parent(p: Path): Path
    requires p != []
  {
    p[..|p| - 1]
  }

  function Last(p: Path): Name
    requires p != []
  {
    p[|p| - 1]
  }

  lemma GetOne(t: Node, n: Name)
    ensures Get(t, [n]) == if t.Dir? && n in t.entries then Some(t.entries[n]) else None
  {
    assert [n][1..] == [];
  }

  lemma {:induction false} GetConcat(t: Node, p: Path, q: Path)
    ensures Get(t, p).Some? ==> Get(t, p + q) == Get(Get(t, p).value, q)
    ensures Get(t, p).None? ==> Get(t, p + q).None?
  {
    if p == [] {
      assert p + q == q;
    } else if t.Dir? && p[0] in t.entries {
      assert (p + q)[0] == p[0] && (p + q)[1..] == p[1..] + q;
      GetConcat(t.entries[p[0]], p[1..], q);
    } else {
      assert (p + q)[0] == p[0];
    }
  }

  /** An entry that is there has directories all the way above it. */
  lemma GetParent(t: Node, p: Path)
    requires p != [] && Get(t, p).Some?
    ensures HasDir(t, Parent(p))
    ensures Last(p) in Get(t, Parent(p)).value.entries
    ensures Get(t, Parent(p)).value.entries[Last(p)] == Get(t, p).value
  {
    assert p == Parent(p) + [Last(p)];
    GetConcat(t, Parent(p), [Last(p)]);
  }

  lemma {:induction false} PutAtParent(t: Node, p: Path, n: Name, x: Option<Node>)
    requires HasDir(t, p)
    ensures HasDir(Put(t, p + [n], x), p)
    ensures Get(Put(t, p + [n], x), p).value == Put(Get(t, p).value, [n], x)
  {
    if p == [] {
      assert p + [n] == [n];
    } else {
      assert (p + [n])[0] == p[0] && (p + [n])[1..] == p[1..] + [n];
      PutAtParent(t.entries[p[0]], p[1..], n, x);
    }
  }

  /** What `Put` leaves at and below the changed entry. */
  lemma PutGet(t: Node, p: Path, x: Option<Node>, q: Path)
    requires p != [] && HasDir(t, Parent(p))
    ensures x.Some? ==> Get(Put(t, p, x), p + q) == Get(x.value, q)
    ensures x.None? ==> Get(Put(t, p, x), p + q).None?
  {
    var dir, n := Parent(p), Last(p);
    var t' := Put(t, p, x);
    assert p == dir + [n];
    PutAtParent(t, dir, n, x);
    GetConcat(t', dir, [n] + q);
    assert p + q == dir + ([n] + q);
    assert ([n] + q)[0] == n && ([n] + q)[1..] == q;
  }

  lemma {:induction false} PutTwice(t: Node, p: Path, x: Node, y: Option<Node>)
    requires p != []
    ensures Put(Put(t, p, Some(x)), p, y) == Put(t, p, y)
  {
    if !t.Dir? {
    } else {
      var e := t.entries;
      if |p| == 1 {
        assert e[p[0] := x] - {p[0]} == e - {p[0]};
        assert y.Some? ==> e[p[0] := x][p[0] := y.value] == e[p[0] := y.value];
      } else if p[0] in e {
        PutTwice(e[p[0]], p[1..], x, y);
        var z := Put(e[p[0]], p[1..], y);
        assert e[p[0] := Put(e[p[0]], p[1..], Some(x))][p[0] := z] == e[p[0] := z];
      }
    }
  }

  /** Removing what was put where nothing was. */
  lemma PutBack(t: Node, p: Path, x: Node)
    requires p != [] && Get(t, p).None?
    ensures Put(Put(t, p, Some(x)), p, None) == t
  {
    PutTwice(t, p, x, None);
    PutNothing(t, p);
  }

  lemma {:induction false} PutNothing(t: Node, p: Path)
    requires p != [] && Get(t, p).None?
    ensures Put(t, p, None) == t
  {
    if !t.Dir? {
    } else {
      if |p| == 1 {
        assert p == [p[0]];
        GetOne(t, p[0]);
        assert t.entries - {p[0]} == t.entries;
      } else if p[0] in t.entries {
        PutNothing(t.entries[p[0]], p[1..]);
        assert t.entries[p[0] := t.entries[p[0]]] == t.entries;
      }
    }
  }

  /** Entries not below the changed one are untouched; those above it keep their marks. */
  lemma {:induction false} PutElsewhere(t: Node, p: Path, x: Option<Node>, q: Path)
    requires p != [] && !(p <= q)
    ensures Get(t, q).Some? <==> Get(Put(t, p, x), q).Some?
    ensures Get(t, q).Some? && !(q <= p) ==> Get(Put(t, p, x), q) == Get(t, q)
    ensures Get(t, q).Some? && q <= p ==>
              Get(Put(t, p, x), q).value == Put(Get(t, q).value, p[|q|..], x)
  {
    if q == [] {
      assert p[0..] == p;
    } else if t.Dir? && q[0] in t.entries && p[0] == q[0] && |p| > 1 {
      assert p[1..] <= q[1..] ==> p <= q by {
        assert p == [p[0]] + p[1..] && q == [q[0]] + q[1..];
      }
      assert q[1..] <= p[1..] <==> q <= p by {
        assert p == [p[0]] + p[1..] && q == [q[0]] + q[1..];
      }
      PutElsewhere(t.entries[q[0]], p[1..], x, q[1..]);
      if q <= p {
        assert p[1..][|q[1..]|..] == p[|q|..];
      }
    }
  }
}
