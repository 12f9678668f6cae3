/** An overlay and a merged directory in it, open while operations go on elsewhere and in it. */
module Watched {
  import opened Names
  import opened Errno
  import opened Layers
  import opened Lookup
  import opened Merged
  import opened NamespaceLaws
  import opened RenameLaws
  import opened Runs
  import opened OverlayFs
  import opened DirEvents
  import opened DirCache

  /** The directory sees the overlay as it is. */
  ghost predicate Synced(o: Overlay, d: MergedDir)
    reads o, d
  {
    o.Valid() && d.Valid() && d.m == o.m && d.upper == o.upper
  }

  /** The list of the directory is no worse than before. */
  ghost predicate NoWorse(path': Option<Path>, g: Marks, g': Marks) {
    path'.Some? ==> g'.made <= g.made && g'.Stale() <= g.Stale()
  }

  /** The directory follows what has happened. */
  method Notice(d: MergedDir, e: Event, v: Node)
    requires d.Valid() && Happens(d.m, d.upper, v, e)
    modifies d
    ensures d.Valid() && d.upper == v && Noticed(d.m, v, e, old(d.path), old(d.t), old(d.g), d.path, d.t, d.g)
    ensures (e.Make? ==> e.noted) ==> NoWorse(d.path, old(d.g), d.g)
  {
    ghost var u, path, g := d.upper, d.path, d.g;
    d.After(e, v);
    if d.path.Some? && (e.Make? ==> e.noted) {
      ToldOfAll(d.m, u, v, e, path.value, g);
    }
  }

  method Create(o: Overlay, d: MergedDir, p: Path, x: Node) returns (err: Errno, e: Event)
    requires Synced(o, d) && p != [] && !IsDot(Last(p)) && IsNew(x)
    requires At(o.m, o.upper, Parent(p)).DirObj? && At(o.m, o.upper, p).Absent?
    modifies o, d
    ensures Synced(o, d) && Happens(o.m, old(o.upper), o.upper, e)
    ensures (e.Make? && e.path == p && e.node == x) || (err != OK && e.Fail? && e.path == p)
    ensures Noticed(o.m, o.upper, e, old(d.path), old(d.t), old(d.g), d.path, d.t, d.g)
    ensures err == OK ==> NoWorse(d.path, old(d.g), d.g)
  {
    var noted, stays;
    err, noted, stays := o.Create(p, x);
    e := if stays then Make(p, x, noted) else Fail(p, noted);
    Notice(d, e, o.upper);
  }

  method Remove(o: Overlay, d: MergedDir, p: Path, isDir: bool) returns (err: Errno, e: Event)
    requires Synced(o, d) && p != [] && Positive(At(o.m, o.upper, p)) && (isDir <==> At(o.m, o.upper, p).DirObj?)
    modifies o, d
    ensures Synced(o, d) && Happens(o.m, old(o.upper), o.upper, e)
    ensures if err == OK then e == Drop(p) else e.Fail? && e.path == p
    ensures Noticed(o.m, o.upper, e, old(d.path), old(d.t), old(d.g), d.path, d.t, d.g)
    ensures NoWorse(d.path, old(d.g), d.g)
  {
    err := o.Remove(p, isDir);
    var noted: bool := *;
    e := if err == OK then Drop(p) else Fail(p, noted);
    Notice(d, e, o.upper);
  }

  method Move(o: Overlay, d: MergedDir, p: Path, q: Path, exchange: bool) returns (err: Errno, e: Event)
    requires Synced(o, d) && p != [] && q != [] && Apart(p, q) && Positive(At(o.m, o.upper, p))
    requires At(o.m, o.upper, Parent(q)).DirObj? && !IsDot(Last(q)) && !At(o.m, o.upper, q).Error?
    requires exchange ==> Positive(At(o.m, o.upper, q))
    requires !exchange && Positive(At(o.m, o.upper, q)) ==>
               (At(o.m, o.upper, p).DirObj? <==> At(o.m, o.upper, q).DirObj?)
    modifies o, d
    ensures Synced(o, d) && Happens(o.m, old(o.upper), o.upper, e)
    ensures e == Event.Rename(Runs.Move(p, q, exchange, err == OK))
    ensures Noticed(o.m, o.upper, e, old(d.path), old(d.t), old(d.g), d.path, d.t, d.g)
    ensures NoWorse(d.path, old(d.g), d.g)
  {
    err := o.Rename(p, q, exchange);
    e := Event.Rename(Runs.Move(p, q, exchange, err == OK));
    Notice(d, e, o.upper);
  }

  method Open(o: Overlay, d: MergedDir, p: Path, simp: bool, write: bool, trunc: bool) returns (err: Errno, e: Event)
    requires Synced(o, d) && Positive(At(o.m, o.upper, p))
    modifies o, d
    ensures Synced(o, d) && Happens(o.m, old(o.upper), o.upper, e)
    ensures e == Copy(p, trunc)
    ensures Noticed(o.m, o.upper, e, old(d.path), old(d.t), old(d.g), d.path, d.t, d.g)
    ensures NoWorse(d.path, old(d.g), d.g)
  {
    err := o.OpenMaybeCopyUp(p, simp, write, trunc);
    e := Copy(p, trunc);
    Notice(d, e, o.upper);
  }
}
