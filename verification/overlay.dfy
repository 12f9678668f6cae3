/** The overlay's namespace operations, step by step on the upper layer and the workdir.

The primitives of the upper file system are atomic steps that succeed or fail.  Every state
the upper layer has been in is kept in the ghost field `trail`, so the contracts speak of
what a crash between two steps would leave. */
module OverlayFs {
  import opened Names
  import opened Layers
  import opened Lookup
  import opened LookupLaws
  import opened Merged
  import opened Located
  import opened Resolved
  import opened Spots
  import opened NamespaceLaws
  import opened RenameLaws
  import opened Readdir
  import opened RedirectText
  import opened Errno
  import CopyData

  predicate Positive(o: Obj) {
    o.DirObj? || o.FileObj?
  }

  /** The upper entry a copy up installs; a truncating one leaves the data out. */
  function CopyFor(o: Obj, trunc: bool): Node {
    var n := CopyOf(o);
    if trunc && n.Leaf? && n.kind.Regular? then n.(data := []) else n
  }

  /** May an entry of the upper file system be renamed over another? */
  predicate MayReplace(src: Node, dst: Option<Node>) {
    dst.Some? ==> (src.Dir? <==> dst.value.Dir?) && (dst.value.Dir? ==> dst.value.entries == map[])
  }

  class Overlay {
    const m: Mount
    const redirectMax: nat
    var upper: Node
    var work: map<nat, Node>
    var temps: nat
    ghost var trail: seq<Node>

    ghost predicate Valid()
      reads this
    {
      m.Valid() && upper.Dir? && trail != [] && trail[|trail| - 1] == upper
    }

    /** Every upper layer since step `from` shows the merged tree `u` shows. */
    ghost predicate Steady(from: nat, u: Node)
      reads this
    {
      forall i :: from <= i < |trail| ==> SameView(m, u, trail[i])
    }

    constructor (m: Mount, redirectMax: nat, upper: Node)
      requires m.Valid() && upper.Dir?
      ensures Valid() && this.m == m && this.redirectMax == redirectMax && this.upper == upper && trail == [upper]
    {
      this.m := m;
      this.redirectMax := redirectMax;
      this.upper := upper;
      work := map[];
      temps := 0;
      trail := [upper];
    }

    // -------------------------------------------------------------------------------
    // Primitives

    /** Make an entry in the workdir. */
    method NewTemp(x: Node) returns (err: Errno, t: nat)
      modifies this`work, this`temps
      ensures err == OK ==> work == old(work)[t := x]
      ensures err != OK ==> work == old(work)
    {
      var broken: bool := *;
      t, temps := temps, temps + 1;
      if broken || t in work {
        return EIO, t;
      }
      work := work[t := x];
      err := OK;
    }

    /** Remove an entry of the workdir; it may stay behind. */
    method Cleanup(t: nat)
      modifies this`work
      ensures work == old(work) || work == old(work) - {t}
    {
      var broken: bool := *;
      if !broken {
        work := work - {t};
      }
    }

    /** Change the metadata or a mark of a workdir entry. */
    method SetTemp(t: nat, x: Node) returns (err: Errno)
      requires t in work
      modifies this`work
      ensures work == if err == OK then old(work)[t := x] else old(work)
    {
      var broken: bool := *;
      if broken {
        return EIO;
      }
      work := work[t := x];
      err := OK;
    }

    /** Rename a workdir entry to `p`, over what is there or in exchange for it. */
    method Install(t: nat, p: Path, exchange: bool) returns (err: Errno)
      requires Valid() && t in work && p != [] && HasDir(upper, Parent(p))
      modifies this`work, this`upper, this`trail
      ensures Valid()
      ensures err != OK ==> upper == old(upper) && trail == old(trail) && work == old(work)
      ensures err == OK ==>
        && (if exchange then Get(old(upper), p).Some? else MayReplace(old(work)[t], Get(old(upper), p)))
        && upper == Put(old(upper), p, Some(old(work)[t])) && trail == old(trail) + [upper]
        && work == if exchange then old(work)[t := Get(old(upper), p).value] else old(work) - {t}
    {
      var broken: bool := *;
      var dst := Get(upper, p);
      if broken || (if exchange then dst.None? else !MayReplace(work[t], dst)) {
        return EIO;
      }
      upper := Put(upper, p, Some(work[t]));
      trail := trail + [upper];
      work := if exchange then work[t := dst.value] else work - {t};
      err := OK;
    }

    /** Create or replace an entry of the upper layer: create, mkdir, set a mark, unlink, rmdir. */
    method SetUpper(p: Path, x: Option<Node>) returns (err: Errno)
      requires Valid() && p != []
      modifies this`upper, this`trail
      ensures Valid()
      ensures err != OK ==> upper == old(upper) && trail == old(trail)
      ensures err == OK ==> upper == Put(old(upper), p, x) && trail == old(trail) + [upper]
    {
      var broken: bool := *;
      if broken {
        return EIO;
      }
      upper := Put(upper, p, x);
      trail := trail + [upper];
      err := OK;
    }

    /** Rename within the upper layer, leaving nothing, a whiteout, or the other entry behind. */
    method RenameUpper(p: Path, q: Path, exchange: bool, whiteout: bool) returns (err: Errno)
      requires Valid() && Apart(p, q) && Get(upper, p).Some? && HasDir(upper, Parent(q))
      modifies this`upper, this`trail
      ensures Valid()
      ensures err != OK ==> upper == old(upper) && trail == old(trail)
      ensures err == OK ==>
        && (if exchange then Get(old(upper), q).Some? else MayReplace(Get(old(upper), p).value, Get(old(upper), q)))
        && upper == Put(Put(old(upper), p, LeftBehind(old(upper), q, exchange, whiteout)), q, Get(old(upper), p))
        && trail == old(trail) + [upper]
    {
      var broken: bool := *;
      if broken || (if exchange then Get(upper, q).None? else !MayReplace(Get(upper, p).value, Get(upper, q))) {
        return EIO;
      }
      upper := Put(Put(upper, p, LeftBehind(upper, q, exchange, whiteout)), q, Get(upper, p));
      trail := trail + [upper];
      err := OK;
    }

    // -------------------------------------------------------------------------------
    // Copy up

    /** Copy one object up whose directory is in the upper layer.  It appears there in one step,
        complete; a failure leaves the upper layer as it was. */
    method CopyUpOne(p: Path, trunc: bool) returns (err: Errno)
      requires Valid() && LowerOnly(m, upper, p)
      modifies this
      ensures Valid()
      ensures err != OK ==> upper == old(upper) && trail == old(trail)
      ensures err == OK ==>
        upper == Put(old(upper), p, Some(CopyFor(At(m, old(upper), p), trunc))) && trail == old(trail) + [upper]
    {
      var o := At(m, upper, p);
      AtGood(m, upper, p);
      ResolveUp(m, Root(m, upper), p);
      var statFails: bool := *;
      if statFails {
        return EIO;
      }
      var lower := if o.FileObj? then o.node else o.stack[0].node;
      var t: nat;
      if lower.Leaf? {
        var size := if trunc then 0 else |lower.data|;
        err, t := NewTemp(Leaf(lower.kind, 0, if lower.kind.Regular? then [] else lower.data));
        if err != OK {
          return;
        }
        if lower.kind.Regular? {
          var data;
          err, data := CopyData.CopyUpData(lower.data, size);
          work := work[t := Leaf(lower.kind, 0, data)];
          if err != OK {
            Cleanup(t);
            return;
          }
          assert data == lower.data[..size];
        }
      } else {
        err, t := NewTemp(Dir(0, false, None, false, map[]));
        if err != OK {
          return;
        }
      }
      err := SetTemp(t, work[t].(meta := MetaOf(lower)));
      if err == OK && lower.Dir? {
        err := SetTemp(t, work[t].(origin := true));
      }
      if err == OK {
        assert work[t] == CopyFor(o, trunc);
        err := Install(t, p, false);
      }
      if err != OK {
        Cleanup(t);
      }
    }

    /** Copy an object and its ancestors up, topmost first.  Unless it truncates, no step changes
        what stands anywhere in the overlay, whether the copy up succeeds or fails midway. */
    method CopyUp(p: Path, trunc: bool) returns (err: Errno)
      requires Valid() && Positive(At(m, upper, p))
      modifies this
      ensures Valid() && old(trail) <= trail
      ensures err == OK ==> Get(upper, p).Some?
      ensures CopyProgress(m, old(upper), upper, p, trunc)
      ensures Steps(m, trail, |old(trail)|, old(upper), upper)
    {
      ghost var u0, n0 := upper, |trail|;
      err := OK;
      while err == OK && Get(upper, p).None?
        invariant Valid() && n0 <= |trail| && old(trail) <= trail
        invariant Get(upper, p).None? ==> Positive(At(m, upper, p))
        invariant CopyProgress(m, u0, upper, p, trunc)
        invariant Steps(m, trail, n0, u0, upper)
        decreases |p| - Depth(upper, p), err == OK
      {
        // find the topmost ancestor not yet copied up
        var k := |p|;
        assert p[..k] == p;
        while Get(upper, p[..k - 1]).None?
          invariant 0 < k <= |p| && Get(upper, p[..k]).None?
          decreases k
        {
          k := k - 1;
        }
        ghost var u, t := upper, trail;
        assert Parent(p[..k]) == p[..k - 1];
        CopyUpPoint(m, u, p, k);
        err := CopyUpOne(p[..k], trunc);
        if err == OK {
          CopiedUp(m, u0, u, p, k, trunc);
          DepthIs(u, p, k);
          DepthIs(upper, p, k);
          StepsSnoc(m, t, n0, u0, u, upper);
        }
      }
    }

    /** A copy up that does not truncate. */
    method CopyUpAll(p: Path) returns (err: Errno)
      requires Valid() && Positive(At(m, upper, p))
      modifies this
      ensures Valid() && old(trail) <= trail
      ensures err == OK ==> Get(upper, p).Some?
      ensures SameSpots(m, old(upper), upper) && Kept(old(upper), upper)
      ensures Get(old(upper), p).Some? ==> upper == old(upper)
      ensures Steady(|old(trail)|, old(upper))
    {
      err := CopyUp(p, false);
      SameSpotsRefl(m, old(upper));
      SameSpotsView(m, old(upper), upper);
    }

    // -------------------------------------------------------------------------------
    // Remove

    /** An opaque empty directory in the workdir, with the metadata of `dir`. */
    method NewClearedTemp(dir: Node) returns (err: Errno, t: nat)
      requires dir.Dir?
      modifies this`work, this`temps
      ensures err == OK ==> t in work && work[t] == ClearedDir(dir)
    {
      err, t := NewTemp(Dir(0, false, None, false, map[]));
      if err != OK {
        return;
      }
      err := SetTemp(t, Dir(0, true, None, false, map[]));
      if err == OK {
        err := SetTemp(t, ClearedDir(dir));
      }
      if err != OK {
        Cleanup(t);
      }
    }

    /** Remove the whiteouts of a directory that was moved to the workdir. */
    method EmptyTemp(t: nat, whites: seq<Name>)
      requires t in work
      modifies this`work
      ensures t in work
    {
      for k := 0 to |whites|
        invariant t in work
      {
        var broken: bool := *;
        if !broken && work[t].Dir? {
          work := work[t := work[t].(entries := work[t].entries - {whites[k]})];
        }
      }
    }

    /** Put an opaque empty directory in place of a merged-empty one, with its metadata.  Nobody
        sees the difference. */
    method ClearEmpty(p: Path, whites: seq<Name>) returns (err: Errno)
      requires Valid() && CanPut(m, upper, p) && HasDir(upper, p)
      requires At(m, upper, p).DirObj? && MergedEmpty(m, At(m, upper, p))
      modifies this
      ensures Valid()
      ensures err != OK ==> upper == old(upper) && trail == old(trail)
      ensures err == OK ==>
        && trail == old(trail) + [upper]
        && upper == Put(old(upper), p, Some(ClearedDir(Get(old(upper), p).value)))
        && SameView(m, old(upper), upper) && SameOutside(m, old(upper), upper, p)
        && At(m, upper, p).DirObj? && At(m, upper, p).stack == [] && CanPut(m, upper, p)
    {
      var dir := Get(upper, p).value;
      ResolveUp(m, Root(m, upper), p);
      var t;
      err, t := NewClearedTemp(dir);
      if err != OK {
        return;
      }
      ClearEmptyKeepsView(m, upper, p, ClearedDir(dir));
      StillThere(m, upper, p, Some(ClearedDir(dir)));
      err := Install(t, p, true);
      if err == OK {
        EmptyTemp(t, whites);
      }
      Cleanup(t);
    }

    /** Replace the upper entry of a name by a whiteout. */
    method CleanupAndWhiteout(p: Path) returns (err: Errno)
      requires Valid() && CanPut(m, upper, p)
      modifies this
      ensures Valid()
      ensures err != OK ==> upper == old(upper) && trail == old(trail)
      ensures err == OK ==>
        trail == old(trail) + [upper] && Removed(m, old(upper), upper, p) && HasDir(upper, Parent(p))
    {
      var t;
      err, t := NewTemp(White);
      if err != OK {
        return;
      }
      var isDir := HasDir(upper, p);
      WhiteoutRemoves(m, upper, p);
      ParentStays(upper, p, Some(White));
      err := Install(t, p, isDir);
      if err != OK || isDir {
        Cleanup(t);
      }
    }

    /** Replace a merged-empty directory if its upper part holds whiteouts. */
    method ClearIfNeeded(p: Path, whites: seq<Name>) returns (err: Errno)
      requires Valid() && CanPut(m, upper, p)
      requires whites != [] ==> HasDir(upper, p) && At(m, upper, p).DirObj? && MergedEmpty(m, At(m, upper, p))
      modifies this
      ensures Valid() && CanPut(m, upper, p) && old(trail) <= trail
      ensures SameView(m, old(upper), upper) && SameOutside(m, old(upper), upper, p)
      ensures Steady(|old(trail)|, old(upper)) && Shaken(m, old(upper), upper, p)
      ensures err != OK || whites == [] ==> upper == old(upper)
      ensures err == OK && whites != [] ==> upper == Put(old(upper), p, Some(ClearedDir(Get(old(upper), p).value)))
      ensures err == OK && whites != [] ==> At(m, upper, p).DirObj? && At(m, upper, p).stack == []
    {
      SameSpotsRefl(m, upper);
      err := OK;
      if whites != [] {
        err := ClearEmpty(p, whites);
      }
    }

    /** Remove the upper entry of a name that does not exist below. */
    method RemoveUpper(p: Path, isDir: bool, whites: seq<Name>) returns (err: Errno)
      requires Valid() && CanPut(m, upper, p) && Get(upper, p).Some? && (isDir <==> HasDir(upper, p))
      requires !LowerPositive(At(m, upper, Parent(p)).stack, Last(p))
      requires whites != [] ==> isDir && At(m, upper, p).DirObj? && MergedEmpty(m, At(m, upper, p))
      modifies this
      ensures Valid() && old(trail) <= trail
      ensures err == OK ==> Removed(m, old(upper), upper, p) && HasDir(upper, Parent(p))
      ensures err == OK && isDir && whites == [] ==> Get(old(upper), p).value.entries == map[]
      ensures err != OK ==> Shaken(m, old(upper), upper, p)
      ensures Settled(m, trail, |old(trail)|, old(upper), upper)
    {
      err := ClearIfNeeded(p, whites);
      if err != OK {
        return;
      }
      ghost var u := upper;
      if whites != [] {
        PutThere(old(upper), p, ClearedDir(Get(old(upper), p).value));
      }
      SameParent(m, old(upper), u, p);
      var dir := Get(upper, p).value;
      if isDir && dir.entries != map[] {
        return ENOTEMPTY;
      }
      err := SetUpper(p, None);
      DeleteRemoves(m, u, p);
      ParentStays(u, p, None);
      if err == OK {
        RemovedTrans(m, old(upper), u, upper, p);
        SameSpotsRefl(m, upper);
      }
    }

    /** Put a whiteout over a name that exists below. */
    method RemoveAndWhiteout(p: Path, whites: seq<Name>) returns (err: Errno)
      requires Valid() && CanPut(m, upper, p)
      requires whites != [] ==> HasDir(upper, p) && At(m, upper, p).DirObj? && MergedEmpty(m, At(m, upper, p))
      modifies this
      ensures Valid() && old(trail) <= trail
      ensures err == OK ==> Removed(m, old(upper), upper, p) && HasDir(upper, Parent(p))
      ensures err != OK ==> Shaken(m, old(upper), upper, p)
      ensures Settled(m, trail, |old(trail)|, old(upper), upper)
    {
      err := ClearIfNeeded(p, whites);
      if err != OK {
        return;
      }
      ghost var u := upper;
      err := CleanupAndWhiteout(p);
      if err == OK {
        RemovedTrans(m, old(upper), u, upper, p);
        SameSpotsRefl(m, upper);
      }
    }

    /** Remove a name.  After success nothing stands there or below, no lower entry shows, and
        nothing else has changed; a directory is removed only if it was empty.  At every step the
        merged tree is the one before or the one after.  A failure leaves the one before; at most
        an empty directory has been replaced by an opaque one. */
    method Remove(p: Path, isDir: bool) returns (err: Errno)
      requires Valid() && p != [] && Positive(At(m, upper, p)) && (isDir <==> At(m, upper, p).DirObj?)
      modifies this
      ensures Valid() && old(trail) <= trail
      ensures err == OK ==> Removed(m, old(upper), upper, p) && HasDir(upper, Parent(p))
      ensures err == OK && isDir ==> MergedEmpty(m, At(m, old(upper), p))
      ensures err != OK ==> Shaken(m, old(upper), upper, p)
      ensures Settled(m, trail, |old(trail)|, old(upper), upper)
    {
      ghost var u0 := upper;
      SameSpotsRefl(m, u0);
      var o := At(m, upper, p);
      RemovePoint(m, upper, p);
      var lowerPositive := ExistsBelow(m, upper, p);
      var whites: seq<Name> := [];
      var tr: Trouble := *;
      if isDir && (lowerPositive || !PureUpper(o)) {
        ReadableDir(m, upper, p);
        err, whites := CheckEmptyDir(m, o, tr);
        if err != OK {
          return;
        }
      }
      err := CopyUpAll(Parent(p));
      ghost var u1, n1 := upper, |trail|;
      SameSpotsView(m, u0, u1);
      if err != OK {
        return;
      }
      AfterCopyUp(m, u0, u1, p);
      if isDir && (lowerPositive || !PureUpper(o)) {
        StillEmpty(m, u0, u1, p);
      }
      if !lowerPositive {
        err := RemoveUpper(p, isDir, whites);
        if err == OK && isDir && whites == [] {
          ResolveUp(m, Root(m, u0), p);
          PlainEmpty(m, u0, p, Get(u1, p).value);
        }
      } else {
        err := RemoveAndWhiteout(p, whites);
      }
      RemoveFrom(m, u0, u1, upper, p, trail, |old(trail)|, n1, err);
    }

    // -------------------------------------------------------------------------------
    // Create

    /** Mark a directory that was just made opaque, which may fail; it is empty all the same. */
    method MarkNewDir(p: Path, x: Node, ghost u0: Node)
      requires Valid() && CanPut(m, u0, p) && At(m, u0, p).Absent? && IsNew(x) && x.Dir? && Get(u0, p).None?
      requires upper == Put(u0, p, Some(x)) && Created(m, u0, upper, p, x)
      modifies this
      ensures Valid() && old(trail) <= trail && Created(m, u0, upper, p, x)
      ensures Creating(m, trail, |old(trail)|, u0, p, x)
      ensures HasDir(upper, Parent(p)) && exists y :: upper == Put(u0, p, Some(y))
    {
      ghost var u1 := upper;
      PutGet(u0, p, Some(x), []);
      assert p + [] == p;
      NewDirIsPlain(m, u0, p, x);
      StillThere(m, u0, p, Some(x));
      OpaqueKeeps(m, u1, p);
      var err := SetUpper(p, Some(x.(isOpaque := true)));
      if err == OK {
        CreatedThen(m, u0, u1, upper, p, x);
        PutTwice(u0, p, x, Some(x.(isOpaque := true)));
      }
      ParentStays(u0, p, Get(upper, p));
      ParentStays(u0, p, Some(x));
    }

    /** Make a new object under a name without upper entry.  Marking a new directory opaque may
        fail; it is empty all the same.  The call can fail after the object was made: if it is not
        found again it stays there; if no inode can be had for it, it is removed, unless that
        fails as well.  `noted` says that the parent was told of the change. */
    method CreateUpper(p: Path, x: Node) returns (err: Errno, noted: bool, stays: bool)
      requires Valid() && CanPut(m, upper, p) && At(m, upper, p).Absent? && IsNew(x) && Get(upper, p).None?
      modifies this
      ensures Valid() && old(trail) <= trail
      ensures err == OK ==> stays && noted
      ensures if stays then Created(m, old(upper), upper, p, x) else upper == old(upper)
      ensures Creating(m, trail, |old(trail)|, old(upper), p, x) && HasDir(upper, Parent(p))
    {
      noted, stays := false, false;
      var merge := At(m, upper, Parent(p)).stack != [];
      ghost var u0 := upper;
      err := SetUpper(p, Some(x));
      if err != OK {
        return;
      }
      Landed(m, u0, p, x, x, old(trail));
      var missing: bool := *;
      if missing {
        return EIO, false, true;
      }
      ghost var t1 := trail;
      if x.Dir? && merge {
        MarkNewDir(p, x, u0);
      }
      CreatingJoin(m, t1, trail, |old(trail)|, u0, p, x);
      t1 := trail;
      err, stays := Instantiate(p, x, u0);
      CreatingJoin(m, t1, trail, |old(trail)|, u0, p, x);
      noted := true;
    }

    /** Get an inode for the new object, or else remove it. */
    method Instantiate(p: Path, x: Node, ghost u0: Node) returns (err: Errno, stays: bool)
      requires Valid() && p != [] && Get(u0, p).None? && (x.Leaf? || x.Dir?) && Created(m, u0, upper, p, x)
      requires exists y :: upper == Put(u0, p, Some(y))
      modifies this`upper, this`trail
      ensures Valid() && old(trail) <= trail
      ensures if stays then upper == old(upper) else upper == u0
      ensures err == OK ==> stays
      ensures Creating(m, trail, |old(trail)|, u0, p, x)
    {
      err, stays := OK, true;
      var noInode: bool := *;
      if noInode {
        ghost var y :| upper == Put(u0, p, Some(y));
        PutBack(u0, p, y);
        SameViewRefl(m, u0);
        var cleaned := SetUpper(p, None);
        return EIO, cleaned != OK;
      }
    }

    /** A new object in the workdir; a directory is made opaque. */
    method NewObjectTemp(x: Node) returns (err: Errno, t: nat)
      requires IsNew(x)
      modifies this`work, this`temps
      ensures err == OK ==> t in work && work[t] == Opaqued(x)
    {
      err, t := NewTemp(x);
      if err != OK {
        return;
      }
      err := SetTemp(t, x);
      if err == OK && x.Dir? {
        err := SetTemp(t, x.(isOpaque := true));
      }
      if err != OK {
        Cleanup(t);
      }
    }

    /** Make a new object in the workdir and move it over the whiteout; a directory is made
        opaque first and exchanged with the whiteout.  If no inode can be had for the object the
        call fails, but the object is not in the workdir any more, and stays. */
    method CreateOverWhiteout(p: Path, x: Node) returns (err: Errno, noted: bool, stays: bool)
      requires Valid() && CanPut(m, upper, p) && At(m, upper, p).Absent? && IsNew(x)
      modifies this
      ensures Valid() && old(trail) <= trail
      ensures err == OK ==> stays && noted
      ensures if stays then Created(m, old(upper), upper, p, x) else upper == old(upper)
      ensures Creating(m, trail, |old(trail)|, old(upper), p, x) && HasDir(upper, Parent(p))
    {
      noted, stays := false, false;
      var t;
      err, t := NewObjectTemp(x);
      if err != OK {
        return;
      }
      err := Install(t, p, x.Dir?);
      stays := err == OK;
      noted := err == OK;
      if err == OK {
        Landed(m, old(upper), p, x, Opaqued(x), old(trail));
      }
      if err != OK || x.Dir? {
        Cleanup(t);
      }
      var noInode: bool := *;
      if noted && noInode {
        err := EIO;
      }
    }

    /** Create a file, symlink, device, link or directory under an absent name.  It then stands
        there, a directory being empty, and nothing else has changed.  At every step the merged
        tree is the one before or the one with the new object.  A failure leaves the one before,
        except when the object was made and `stays`. */
    method Create(p: Path, x: Node) returns (err: Errno, noted: bool, stays: bool)
      requires Valid() && p != [] && !IsDot(Last(p)) && At(m, upper, Parent(p)).DirObj? && At(m, upper, p).Absent?
      requires IsNew(x)
      modifies this
      ensures Valid() && old(trail) <= trail
      ensures err == OK ==> stays && noted
      ensures if stays then Created(m, old(upper), upper, p, x) else SameSpots(m, old(upper), upper)
      ensures Creating(m, trail, |old(trail)|, old(upper), p, x)
      ensures stays ==> HasDir(upper, Parent(p))
    {
      ghost var u0 := upper;
      noted, stays := false, false;
      err := CopyUpAll(Parent(p));
      ghost var u1, n1 := upper, |trail|;
      if err != OK {
        return;
      }
      assert SpotAt(m, u1, p) == SpotAt(m, u0, p) && SpotAt(m, u1, Parent(p)) == SpotAt(m, u0, Parent(p));
      SpotKind(m, u0, u1, p);
      SpotKind(m, u0, u1, Parent(p));
      CanPutThere(m, u1, p);
      if !At(m, upper, p).white {
        AbsentEntry(m, u1, p);
        err, noted, stays := CreateUpper(p, x);
      } else {
        err, noted, stays := CreateOverWhiteout(p, x);
      }
      if stays {
        CreatedFrom(m, u0, u1, upper, p, x);
      }
      CreatingFrom(m, u0, u1, p, x, trail, |old(trail)|, n1);
    }

    // -------------------------------------------------------------------------------
    // Rename

    /** Give a merged directory a redirect it can be moved with: its name for a move within its
        directory, its lower path otherwise.  This changes nothing in the overlay. */
    method SetRedirect(p: Path, samedir: bool) returns (err: Errno)
      requires Valid() && m.redirectDir && CanPut(m, upper, p) && MergedUpper(m, upper, p)
      modifies this
      ensures Valid() && old(trail) <= trail && SameSpots(m, old(upper), upper) && Steady(|old(trail)|, old(upper))
      ensures upper == old(upper) || (err == OK && exists x :: upper == Put(old(upper), p, Some(x)))
      ensures err == OK ==>
        && CanPut(m, upper, p) && MergedUpper(m, upper, p) && At(m, upper, p).redirect.Some?
        && (At(m, upper, p).redirect.value.Abs? || samedir)
    {
      SameSpotsRefl(m, upper);
      var o := At(m, upper, p);
      if o.redirect.Some? && (samedir || o.redirect.value.Abs?) {
        return OK;
      }
      var x: Node;
      if samedir {
        x := WithRelative(o.up.value, Last(p));
      } else {
        forall k | 0 <= k < |p|
          ensures ValidStep(ChainOf(m, upper, p)[k])
        {
          ChainValid(m, upper, p, k);
        }
        ChainIsLoc(m, upper, p);
        var text;
        err, text := GetRedirect(ChainOf(m, upper, p), redirectMax);
        if err != OK {
          return;
        }
        x := o.up.value.(redirect := Some(text));
      }
      RedirectKeeps(m, upper, p, samedir);
      err := SetUpper(p, Some(x));
      if err != OK {
        return EXDEV;
      }
      SameSpotsView(m, old(upper), upper);
    }

    /** Mark the entry at `p` so that it can be moved to `q`. */
    method MarkForMove(p: Path, q: Path) returns (err: Errno)
      requires Valid() && Apart(p, q) && CanPut(m, upper, p) && CanPut(m, upper, q)
      requires Get(upper, p).Some? && Positive(At(m, upper, p))
      requires At(m, upper, p).DirObj? && At(m, upper, p).stack != [] ==> m.redirectDir
      modifies this
      ensures Valid() && old(trail) <= trail && SameSpots(m, old(upper), upper) && Steady(|old(trail)|, old(upper))
      ensures upper == old(upper) || (err == OK && exists x :: upper == Put(old(upper), p, Some(x)))
      ensures err == OK ==> Movable(m, upper, p, q)
    {
      SameSpotsRefl(m, upper);
      ghost var u := upper;
      var o := At(m, upper, p);
      ResolveUp(m, Root(m, upper), p);
      AtGood(m, upper, p);
      if o.FileObj? {
        FileMoves(m, upper, p, q);
        return OK;
      }
      if o.stack != [] {
        err := SetRedirect(p, Parent(p) == Parent(q));
        if err == OK {
          if upper != u {
            var x :| upper == Put(u, p, Some(x));
            OneAfterOther(m, u, p, Some(x), q, None);
          }
          MergedMoves(m, upper, p, q);
        }
      } else if !o.isOpaque && At(m, upper, Parent(q)).stack != [] {
        OpaqueKeeps(m, upper, p);
        err := SetUpper(p, Some(Get(upper, p).value.(isOpaque := true)));
        if err != OK {
          return EXDEV;
        }
        SameSpotsView(m, u, upper);
        OneAfterOther(m, u, p, Get(upper, p), q, None);
        PutGet(u, p, Some(Get(u, p).value.(isOpaque := true)), []);
        assert p + [] == p;
        PlainMoves(m, upper, p, q);
      } else {
        OpaqueFlag(m, upper, p);
        PlainMoves(m, upper, p, q);
        err := OK;
      }
    }

    /** Make two entries ready to be moved to each other's place. */
    method MarkBoth(p: Path, q: Path) returns (err: Errno)
      requires Valid() && Apart(p, q) && CanPut(m, upper, p) && CanPut(m, upper, q)
      requires Get(upper, p).Some? && Positive(At(m, upper, p)) && Get(upper, q).Some? && Positive(At(m, upper, q))
      requires At(m, upper, p).DirObj? && At(m, upper, p).stack != [] ==> m.redirectDir
      requires At(m, upper, q).DirObj? && At(m, upper, q).stack != [] ==> m.redirectDir
      modifies this
      ensures Valid() && old(trail) <= trail && SameSpots(m, old(upper), upper) && Steady(|old(trail)|, old(upper))
      ensures err == OK ==> Movable(m, upper, p, q) && Movable(m, upper, q, p)
    {
      ghost var u0 := upper;
      err := MarkForMove(p, q);
      if err != OK {
        return;
      }
      ghost var u1 := upper;
      OtherEntry(m, u0, u1, p, q);
      err := MarkForMove(q, p);
      SameSpotsTrans(m, u0, u1, upper);
      SameSpotsView(m, u0, u1);
      TrailTrans(m, u0, u1, trail, |old(trail)|, |trail|);
      if err == OK {
        OtherMovable(m, u1, upper, p, q);
      }
    }

    /** Exchange two names that are both in the upper layer. */
    method ExchangeNames(p: Path, q: Path) returns (err: Errno)
      requires Valid() && Apart(p, q) && CanPut(m, upper, p) && CanPut(m, upper, q)
      requires Get(upper, p).Some? && Positive(At(m, upper, p)) && Get(upper, q).Some? && Positive(At(m, upper, q))
      requires At(m, upper, p).DirObj? && At(m, upper, p).stack != [] ==> m.redirectDir
      requires At(m, upper, q).DirObj? && At(m, upper, q).stack != [] ==> m.redirectDir
      modifies this
      ensures Valid() && old(trail) <= trail
      ensures if err == OK then Exchanged(m, old(upper), upper, p, q) else SameSpots(m, old(upper), upper)
      ensures err == OK ==> Parents(upper, p, q)
      ensures Settled(m, trail, |old(trail)|, old(upper), upper)
    {
      ghost var u0 := upper;
      err := MarkBoth(p, q);
      ghost var u2 := upper;
      if err != OK {
        return;
      }
      SwapExchanges(m, u2, p, q);
      err := RenameUpper(p, q, true, false);
      if err == OK {
        ExchangedFrom(m, u0, u2, upper, p, q);
        SameSpotsRefl(m, upper);
        OldPlace(m, u2, upper, p, q);
      }
    }

    /** Remove the whiteout a rename left at `p`, if nothing exists below; it may stay. */
    method CleanupWhiteout(p: Path, q: Path, ghost u0: Node)
      requires Valid() && Apart(p, q) && CanPut(m, upper, p) && Renamed(m, u0, upper, p, q) && Parents(upper, p, q)
      requires !LowerPositive(At(m, upper, Parent(p)).stack, Last(p))
      modifies this
      ensures Valid() && old(trail) <= trail && Renamed(m, u0, upper, p, q) && SameView(m, upper, old(upper))
      ensures Settled(m, trail, |old(trail)|, u0, upper) && Parents(upper, p, q)
    {
      SameSpotsRefl(m, upper);
      DeleteRemoves(m, upper, p);
      ParentsStay(upper, p, q);
      var err := SetUpper(p, None);
      if err == OK {
        RemovedNothing(m, u0, old(upper), upper, p, q);
        SameSpotsRefl(m, upper);
      }
    }

    /** Move an entry that can be moved, leaving behind an entry under which nothing is found. */
    method MoveUpper(p: Path, q: Path, exchange: bool, whiteout: bool) returns (err: Errno)
      requires Valid() && Apart(p, q) && Movable(m, upper, p, q)
      requires exchange ==> Get(upper, q) == Some(White)
      requires !exchange && !whiteout ==> !LowerPositive(At(m, upper, Parent(p)).stack, Last(p))
      modifies this
      ensures Valid()
      ensures err != OK ==> upper == old(upper) && trail == old(trail)
      ensures err == OK ==>
        && trail == old(trail) + [upper] && Renamed(m, old(upper), upper, p, q)
        && (HasDir(old(upper), q) ==> Get(old(upper), q).value.entries == map[])
        && CanPut(m, upper, p) && At(m, upper, Parent(p)).stack == At(m, old(upper), Parent(p)).stack
        && Parents(upper, p, q)
    {
      LeavesNothing(m, upper, p, LeftBehind(upper, q, exchange, whiteout));
      MoveRenames(m, upper, p, q, LeftBehind(upper, q, exchange, whiteout));
      err := RenameUpper(p, q, exchange, whiteout);
      if err == OK {
        OldPlace(m, old(upper), upper, p, q);
      }
    }

    /** Mark an upper entry for its move and move it. */
    method MoveName(p: Path, q: Path, exchange: bool, whiteout: bool) returns (err: Errno)
      requires Valid() && Apart(p, q) && CanPut(m, upper, p) && CanPut(m, upper, q)
      requires Get(upper, p).Some? && Positive(At(m, upper, p))
      requires At(m, upper, p).DirObj? && At(m, upper, p).stack != [] ==> m.redirectDir
      requires exchange ==> Get(upper, q) == Some(White)
      requires !exchange && !whiteout ==> !LowerPositive(At(m, upper, Parent(p)).stack, Last(p))
      modifies this
      ensures Valid() && old(trail) <= trail
      ensures if err == OK then Renamed(m, old(upper), upper, p, q) else SameSpots(m, old(upper), upper)
      ensures err == OK && HasDir(old(upper), q) ==> Get(old(upper), q).value.entries == map[]
      ensures err == OK ==>
        && CanPut(m, upper, p) && At(m, upper, Parent(p)).stack == At(m, old(upper), Parent(p)).stack
        && Parents(upper, p, q)
      ensures Settled(m, trail, |old(trail)|, old(upper), upper)
    {
      ghost var u0 := upper;
      err := MarkForMove(p, q);
      ghost var u1 := upper;
      SameSpotsView(m, u0, u1);
      if err != OK {
        return;
      }
      OtherEntry(m, u0, u1, p, q);
      err := MoveUpper(p, q, exchange, whiteout);
      assert old(trail) <= trail;
      if err != OK {
        return;
      }
      SpotsOutside(m, u0, u1, q);
      RenamedFrom(m, u0, u1, upper, p, q);
      SameSpotsRefl(m, upper);
    }

    /** Rename an upper entry over `q`, leaving a whiteout, the whiteout of `q`, or nothing. */
    method OverwriteName(p: Path, q: Path, plan: Plan) returns (err: Errno)
      requires Valid() && Apart(p, q) && CanPut(m, upper, p) && CanPut(m, upper, q)
      requires Get(upper, p).Some? && Positive(At(m, upper, p))
      requires At(m, upper, p).DirObj? && At(m, upper, p).stack != [] ==> m.redirectDir
      requires plan.exchange ==> Get(upper, q) == Some(White)
      requires plan.cleanup || (!plan.exchange && !plan.whiteout) ==>
                 !LowerPositive(At(m, upper, Parent(p)).stack, Last(p))
      modifies this
      ensures Valid() && old(trail) <= trail
      ensures if err == OK then Renamed(m, old(upper), upper, p, q) else SameSpots(m, old(upper), upper)
      ensures err == OK && HasDir(old(upper), q) ==> Get(old(upper), q).value.entries == map[]
      ensures err == OK ==> Parents(upper, p, q)
      ensures Settled(m, trail, |old(trail)|, old(upper), upper)
    {
      ghost var u0 := upper;
      err := MoveName(p, q, plan.exchange, plan.whiteout);
      if err == OK && plan.cleanup {
        ghost var u1, n1 := upper, |trail|;
        CleanupWhiteout(p, q, u0);
        SettledJoin(m, u0, u1, upper, trail, |old(trail)|, n1);
      }
    }

    /** The copy ups before a rename. */
    method CopyUpForRename(p: Path, q: Path, exchange: bool) returns (err: Errno)
      requires Valid() && q != [] && Positive(At(m, upper, p)) && At(m, upper, Parent(q)).DirObj?
      requires exchange ==> Positive(At(m, upper, q))
      modifies this
      ensures Valid() && old(trail) <= trail
      ensures SameSpots(m, old(upper), upper) && Kept(old(upper), upper) && Steady(|old(trail)|, old(upper))
      ensures err == OK ==> Get(upper, p).Some? && Get(upper, Parent(q)).Some? && (exchange ==> Get(upper, q).Some?)
    {
      ghost var u0 := upper;
      err := CopyUpAll(p);
      if err != OK {
        return;
      }
      ghost var u1 := upper;
      StillPositive(m, u0, u1, Parent(q));
      err := CopyUpAll(Parent(q));
      ghost var u2 := upper;
      KeptTrans(m, u0, u1, u2, trail, |old(trail)|);
      if err != OK || !exchange {
        return;
      }
      StillPositive(m, u0, u2, q);
      err := CopyUpAll(q);
      KeptTrans(m, u0, u2, upper, trail, |old(trail)|);
    }

    /** Rename or exchange.  Success is the rename (or exchange) of the merged tree: what was at
        the old name, with the lower directories it merges with, is at the new one, the old name
        is absent (or swapped), nothing else has changed; a directory is overwritten only if it
        was empty.  At every step the merged tree is the one before or the one after.  A failure
        leaves the one before, even if redirects have been written.  The caller has looked both
        names up, and neither lies below the other. */
    method Rename(p: Path, q: Path, exchange: bool) returns (err: Errno)
      requires Valid() && p != [] && q != [] && Apart(p, q) && Positive(At(m, upper, p))
      requires At(m, upper, Parent(q)).DirObj? && !IsDot(Last(q)) && !At(m, upper, q).Error?
      requires exchange ==> Positive(At(m, upper, q))
      requires !exchange && Positive(At(m, upper, q)) ==> (At(m, upper, p).DirObj? <==> At(m, upper, q).DirObj?)
      modifies this
      ensures Valid() && old(trail) <= trail
      ensures RenameOutcome(m, old(upper), upper, p, q, exchange, err == OK) && (err == OK ==> Parents(upper, p, q))
      ensures err == OK && !exchange && At(m, old(upper), q).DirObj? ==> MergedEmpty(m, At(m, old(upper), q))
      ensures Settled(m, trail, |old(trail)|, old(upper), upper)
    {
      ghost var u0 := upper;
      SameSpotsRefl(m, u0);
      var from, to := At(m, upper, p), At(m, upper, q);
      RemovePoint(m, upper, p);
      if !CanMove(m, from) || (exchange && !CanMove(m, to)) {
        return EXDEV;
      }
      var whites: seq<Name> := [];
      var tr: Trouble := *;
      if !exchange && to.DirObj? && !PureUpper(to) {
        ReadableDir(m, upper, q);
        err, whites := CheckEmptyDir(m, to, tr);
        if err != OK {
          return;
        }
      }
      var plan := if exchange then Plan(true, false, false)
                  else PlanFor(ExistsBelow(m, upper, p), to == Absent(true), from.DirObj?);
      err := CopyUpForRename(p, q, exchange);
      ghost var u1, n1 := upper, |trail|;
      SameSpotsView(m, u0, u1);
      if err != OK {
        return;
      }
      RenamePoint(m, u0, u1, p, q);
      if exchange {
        BothPlaces(m, u0, u1, q);
        err := ExchangeNames(p, q);
        OutcomeFrom(m, u0, u1, upper, p, q, exchange, err == OK);
      } else {
        if whites != [] {
          StillEmpty(m, u0, u1, q);
          ResolveUp(m, Root(m, u0), q);
        }
        err := ReplaceName(p, q, plan, whites);
        OutcomeFrom(m, u0, u1, upper, p, q, exchange, err == OK);
        if err == OK && PureUpper(to) {
          EmptyBefore(m, u0, u1, q);
        }
      }
      SettledTrans(m, u0, u1, upper, trail, |old(trail)|, n1);
    }

    /** The overwriting rename, after the copy ups. */
    method ReplaceName(p: Path, q: Path, plan: Plan, whites: seq<Name>) returns (err: Errno)
      requires Valid() && Apart(p, q) && CanPut(m, upper, p) && CanPut(m, upper, q)
      requires Get(upper, p).Some? && Positive(At(m, upper, p)) && CanMove(m, At(m, upper, p))
      requires plan.exchange ==> Get(upper, q) == Some(White)
      requires plan.cleanup || (!plan.exchange && !plan.whiteout) ==>
                 !LowerPositive(At(m, upper, Parent(p)).stack, Last(p))
      requires whites != [] ==> HasDir(upper, q) && At(m, upper, q).DirObj? && MergedEmpty(m, At(m, upper, q))
      modifies this
      ensures Valid() && old(trail) <= trail
      ensures RenameOutcome(m, old(upper), upper, p, q, false, err == OK) && (err == OK ==> Parents(upper, p, q))
      ensures err == OK && whites == [] && HasDir(old(upper), q) ==> Get(old(upper), q).value.entries == map[]
      ensures Settled(m, trail, |old(trail)|, old(upper), upper)
    {
      ghost var u1 := upper;
      SameSpotsRefl(m, u1);
      err := ClearIfNeeded(q, whites);
      if err != OK {
        return;
      }
      ghost var u2, n2 := upper, |trail|;
      Cleared(m, u1, u2, p, q);
      var impureFails: bool := *;
      if impureFails {
        return EIO;
      }
      assert plan.exchange ==> whites == [];
      err := OverwriteName(p, q, plan);
      if err == OK {
        RenamedFrom(m, u1, u2, upper, p, q);
      } else {
        ShakenThen(m, u1, u2, upper, q);
      }
      SettledTrans(m, u1, u2, upper, trail, |old(trail)|, n2);
    }

    // -------------------------------------------------------------------------------
    // Open

    /** Open: copy the object up if it needs to be.  In simp mode every open does. */
    method OpenMaybeCopyUp(p: Path, simp: bool, write: bool, trunc: bool) returns (err: Errno)
      requires Valid() && Positive(At(m, upper, p))
      modifies this
      ensures Valid() && old(trail) <= trail
      ensures CopyProgress(m, old(upper), upper, p, trunc)
      ensures err == OK && (simp || ((write || trunc) && !IsSpecial(At(m, old(upper), p)))) ==> Get(upper, p).Some?
      ensures !simp && !write && !trunc ==> upper == old(upper)
      ensures !trunc ==> OpenOutcome(m, old(upper), upper, p, err == OK && simp)
      ensures Steps(m, trail, |old(trail)|, old(upper), upper)
    {
      SameSpotsRefl(m, upper);
      err := OK;
      if OpenNeedsCopyUp(At(m, upper, p), Get(upper, p).Some?, simp, write, trunc) {
        var readOnly: bool := *;
        if readOnly {
          return EIO;
        }
        err := CopyUp(p, trunc);
      }
    }
  }

  /** What a rename leaves at the old path. */
  function LeftBehind(u: Node, q: Path, exchange: bool, whiteout: bool): Option<Node> {
    if exchange then Get(u, q) else if whiteout then Some(White) else None
  }

  predicate Truncates(o: Obj, trunc: bool) {
    trunc && o.FileObj? && o.node.Leaf? && o.node.kind.Regular?
  }

  function Truncated(s: Sight): Sight {
    if s.AFile? then s.(data := []) else s
  }

  /** Nothing that is in the upper layer `u` is missing in `v`, and all but directories are the same. */
  ghost predicate Kept(u: Node, v: Node) {
    forall q: Path :: Get(u, q).Some? ==>
      && Get(v, q).Some? && (Get(u, q).value.Dir? <==> Get(v, q).value.Dir?)
      && (!Get(u, q).value.Dir? ==> Get(v, q) == Get(u, q))
  }

  /** The topmost missing ancestor can be copied up. */
  lemma CopyUpPoint(m: Mount, u: Node, p: Path, k: nat)
    requires m.Valid() && u.Dir? && Positive(At(m, u, p))
    requires 0 < k <= |p| && Get(u, p[..k]).None? && Get(u, p[..k - 1]).Some?
    ensures LowerOnly(m, u, p[..k])
    ensures k < |p| ==> At(m, u, p[..k]).DirObj?
  {
    var q := p[..k];
    assert Parent(q) == p[..k - 1];
    AncestorsAreDirs(m, u, p, k - 1);
    ResolveUp(m, Root(m, u), p[..k - 1]);
    if k < |p| {
      AncestorsAreDirs(m, u, p, k);
    } else {
      assert q == p;
    }
    NotDot(m, u, q);
  }

  /** The outcome of a copy up of `p`: the whole overlay as before, or, if it truncated the file
      at `p`, all but the data of that file. */
  ghost predicate Copied(m: Mount, u0: Node, u: Node, p: Path, trunc: bool) {
    if Truncates(At(m, u0, p), trunc) then FileAt(m, u0, u, p, Truncated(See(At(m, u0, p)))) else SameSpots(m, u0, u)
  }

  /** The state of a copy up of `p`, from `u0`. */
  ghost predicate CopyProgress(m: Mount, u0: Node, u: Node, p: Path, trunc: bool) {
    && Kept(u0, u)
    && (Get(u, p).None? ==> SameSpots(m, u0, u) && At(m, u, p) == At(m, u0, p))
    && (Get(u0, p).Some? ==> u == u0)
    && (Get(u0, p).None? && Get(u, p).Some? ==> Copied(m, u0, u, p, trunc))
  }

  /** Every upper layer since step `from` shows what `u` shows, or is the last one, `v`. */
  ghost predicate Steps(m: Mount, trail: seq<Node>, from: nat, u: Node, v: Node) {
    forall i :: from <= i < |trail| ==> SameView(m, u, trail[i]) || trail[i] == v
  }

  lemma StepsSnoc(m: Mount, trail: seq<Node>, from: nat, u0: Node, u: Node, v: Node)
    requires Steps(m, trail, from, u0, u) && SameSpots(m, u0, u)
    ensures Steps(m, trail + [v], from, u0, v)
  {
    SameSpotsView(m, u0, u);
  }

  /** What copying up the topmost missing ancestor does. */
  lemma CopiedUp(m: Mount, u0: Node, u: Node, p: Path, k: nat, trunc: bool)
    requires m.Valid() && u0.Dir? && u.Dir? && Positive(At(m, u, p))
    requires CopyProgress(m, u0, u, p, trunc) && Get(u, p).None?
    requires 0 < k <= |p| && LowerOnly(m, u, p[..k]) && (k < |p| ==> At(m, u, p[..k]).DirObj?)
    ensures var v := Put(u, p[..k], Some(CopyFor(At(m, u, p[..k]), trunc)));
      && Get(v, p[..k]).Some? && CopyProgress(m, u0, v, p, trunc)
      && (Get(v, p).None? ==> Positive(At(m, v, p)))
  {
    var q := p[..k];
    var x := CopyFor(At(m, u, q), trunc);
    PutGet(u, q, Some(x), []);
    assert q + [] == q;
    PutKept(u0, u, q, x);
    if k == |p| {
      assert q == p;
      CopiedLast(m, u0, u, p, trunc);
    } else {
      CopiedAncestor(m, u0, u, p, k);
    }
  }

  /** The copy up of an ancestor. */
  lemma CopiedAncestor(m: Mount, u0: Node, u: Node, p: Path, k: nat)
    requires u0.Dir? && u.Dir? && SameSpots(m, u0, u) && At(m, u, p) == At(m, u0, p)
    requires 0 < k < |p| && LowerOnly(m, u, p[..k]) && At(m, u, p[..k]).DirObj?
    ensures var v := Put(u, p[..k], Some(CopyOf(At(m, u, p[..k]))));
      SameSpots(m, u0, v) && At(m, v, p) == At(m, u0, p) && Get(v, p).None?
  {
    var q := p[..k];
    var x := CopyOf(At(m, u, q));
    CopyUpKeeps(m, u, q);
    SameSpotsTrans(m, u0, u, Put(u, q, Some(x)));
    BelowCopied(m, u, p, k);
    assert p == q + p[k..];
    NothingInCopy(u, q, x, p[k..]);
  }

  lemma NothingInCopy(u: Node, q: Path, x: Node, r: Path)
    requires q != [] && HasDir(u, Parent(q)) && x.Dir? && x.entries == map[] && r != []
    ensures Get(Put(u, q, Some(x)), q + r).None?
  {
    PutGet(u, q, Some(x), r);
  }

  /** The copy up of the object itself. */
  lemma CopiedLast(m: Mount, u0: Node, u: Node, p: Path, trunc: bool)
    requires u0.Dir? && u.Dir? && SameSpots(m, u0, u) && LowerOnly(m, u, p) && At(m, u, p) == At(m, u0, p)
    ensures Copied(m, u0, Put(u, p, Some(CopyFor(At(m, u, p), trunc))), p, trunc)
  {
    var o := At(m, u, p);
    var x := CopyFor(o, trunc);
    var v := Put(u, p, Some(x));
    ResolveUp(m, Root(m, u), p);
    if Truncates(o, trunc) {
      FileChange(m, u, p, x);
      forall r: Path
        ensures SpotAt(m, v, r) ==
                if !(p <= r) then SpotAt(m, u0, r) else if r == p then Spot(Truncated(See(o)), [], []) else EMPTY
      {
        assert SpotAt(m, u, r) == SpotAt(m, u0, r);
      }
    } else {
      CopyUpKeeps(m, u, p);
      SameSpotsTrans(m, u0, u, v);
    }
  }

  /** Copying an ancestor up does not change the object at `p` itself. */
  lemma BelowCopied(m: Mount, u: Node, p: Path, k: nat)
    requires 0 < k < |p| && LowerOnly(m, u, p[..k]) && At(m, u, p[..k]).DirObj?
    ensures At(m, Put(u, p[..k], Some(CopyOf(At(m, u, p[..k])))), p) == At(m, u, p)
  {
    var q, r := p[..k], p[k..];
    assert p == q + r;
    var o := At(m, u, q);
    var x := CopyOf(o);
    var v := Put(u, q, Some(x));
    CurrentEntry(m, u, q);
    var d := At(m, u, Parent(q));
    EntryPlainDir(m, x, Last(q), d.stack, d.isRoot);
    AtPutHere(m, u, q, Some(x));
    AtBelow(m, u, q, r);
    AtBelow(m, v, q, r);
    SameDirBelow(m, o, At(m, v, q), r);
  }

  lemma PutKept(u0: Node, u: Node, q: Path, x: Node)
    requires Kept(u0, u) && q != [] && Get(u, q).None? && HasDir(u, Parent(q))
    ensures Kept(u0, Put(u, q, Some(x)))
  {
    forall r: Path | Get(u0, r).Some?
      ensures var v := Put(u, q, Some(x));
        && Get(v, r).Some? && (Get(u0, r).value.Dir? <==> Get(v, r).value.Dir?)
        && (!Get(u0, r).value.Dir? ==> Get(v, r) == Get(u0, r))
    {
      if q <= r {
        assert r == q + r[|q|..];
        GetConcat(u, q, r[|q|..]);
      } else {
        PutElsewhere(u, q, Some(x), r);
      }
    }
  }

  lemma SameSpotsRefl(m: Mount, u: Node)
    ensures SameSpots(m, u, u) && SameView(m, u, u)
  {
  }

  // ---------------------------------------------------------------------------------
  // Used by remove

  function ClearedDir(dir: Node): Node {
    Dir(MetaOf(dir), true, None, false, map[])
  }

  /** Everything not at or below `p` is the same. */
  ghost predicate SameOutside(m: Mount, u: Node, v: Node, p: Path) {
    forall q: Path :: !(p <= q) ==> SpotAt(m, v, q) == SpotAt(m, u, q)
  }

  lemma SpotsOutside(m: Mount, u: Node, v: Node, p: Path)
    requires SameSpots(m, u, v)
    ensures SameOutside(m, u, v, p)
  {
  }

  lemma OutsideTrans(m: Mount, u: Node, v: Node, w: Node, p: Path)
    requires SameOutside(m, u, v, p) && SameOutside(m, v, w, p)
    ensures SameOutside(m, u, w, p)
  {
    forall q: Path | !(p <= q)
      ensures SpotAt(m, w, q) == SpotAt(m, u, q)
    {
      assert SpotAt(m, w, q) == SpotAt(m, v, q);
    }
  }

  lemma RemovedTrans(m: Mount, u: Node, v: Node, w: Node, p: Path)
    requires SameOutside(m, u, v, p) && Removed(m, v, w, p)
    ensures Removed(m, u, w, p)
  {
    forall q: Path
      ensures SpotAt(m, w, q) == if p <= q then EMPTY else SpotAt(m, u, q)
    {
      assert SpotAt(m, w, q) == if p <= q then EMPTY else SpotAt(m, v, q);
    }
  }

  /** Every upper layer since step `from` shows what `u` shows or what `v` shows. */
  ghost predicate Settled(m: Mount, trail: seq<Node>, from: nat, u: Node, v: Node) {
    forall i :: from <= i < |trail| ==> SameView(m, u, trail[i]) || SameView(m, v, trail[i])
  }

  /** A removal after a copy up. */
  lemma RemoveFrom(m: Mount, u0: Node, u: Node, v: Node, p: Path, trail: seq<Node>, n0: nat, n1: nat, err: Errno)
    requires u0.Dir? && u.Dir? && SameSpots(m, u0, u) && n0 <= n1 <= |trail|
    requires forall i :: n0 <= i < n1 ==> SameView(m, u0, trail[i])
    requires Settled(m, trail, n1, u, v)
    requires if err == OK then Removed(m, u, v, p) else Shaken(m, u, v, p)
    ensures if err == OK then Removed(m, u0, v, p) else Shaken(m, u0, v, p)
    ensures Settled(m, trail, n0, u0, v)
  {
    SameSpotsView(m, u0, u);
    SpotsOutside(m, u0, u, p);
    if err == OK {
      RemovedTrans(m, u0, u, v, p);
    } else {
      ShakenFrom(m, u0, u, v, p);
    }
    SettledTrans(m, u0, u, v, trail, n0, n1);
  }

  lemma SettledTrans(m: Mount, u0: Node, u: Node, v: Node, trail: seq<Node>, n0: nat, n1: nat)
    requires SameView(m, u0, u) && n0 <= n1 <= |trail|
    requires forall i :: n0 <= i < n1 ==> SameView(m, u0, trail[i])
    requires Settled(m, trail, n1, u, v)
    ensures Settled(m, trail, n0, u0, v)
  {
    forall i | n0 <= i < |trail|
      ensures SameView(m, u0, trail[i]) || SameView(m, v, trail[i])
    {
      if i >= n1 && SameView(m, u, trail[i]) {
        SameViewTrans(m, u0, u, trail[i]);
      }
    }
  }

  /** Does a name exist apart from the upper layer? */
  function ExistsBelow(m: Mount, u: Node, p: Path): bool
    requires p != [] && Positive(At(m, u, p)) && At(m, u, Parent(p)).DirObj?
  {
    if !InUpper(At(m, u, p)) then true else LowerPositive(At(m, u, Parent(p)).stack, Last(p))
  }

  predicate InUpper(o: Obj) {
    (o.DirObj? && o.up.Some?) || (o.FileObj? && o.inUpper)
  }

  /** A directory that is in the upper layer only and cannot hold whiteouts. */
  predicate PureUpper(o: Obj) {
    o.DirObj? && o.stack == [] && o.up.Some? && !(o.up.value.Dir? && o.up.value.origin)
  }

  lemma RemovePoint(m: Mount, u: Node, p: Path)
    requires p != [] && Positive(At(m, u, p))
    ensures At(m, u, Parent(p)).DirObj? && !IsDot(Last(p))
  {
    AncestorsAreDirs(m, u, p, |p| - 1);
    NotDot(m, u, p);
  }

  lemma PutThere(u: Node, p: Path, x: Node)
    requires p != [] && HasDir(u, Parent(p))
    ensures Get(Put(u, p, Some(x)), p) == Some(x)
  {
    PutGet(u, p, Some(x), []);
    assert p + [] == p;
  }

  lemma SameParent(m: Mount, u: Node, v: Node, p: Path)
    requires u.Dir? && v.Dir? && p != [] && SameOutside(m, u, v, p) && At(m, u, Parent(p)).DirObj?
    ensures At(m, v, Parent(p)).DirObj? && At(m, v, Parent(p)).stack == At(m, u, Parent(p)).stack
  {
    assert SpotAt(m, v, Parent(p)) == SpotAt(m, u, Parent(p));
    SpotKind(m, v, u, Parent(p));
  }

  lemma ReadableDir(m: Mount, u: Node, p: Path)
    requires m.Valid() && u.Dir? && At(m, u, p).DirObj?
    ensures var o := At(m, u, p);
      UpIsDir(o) && LayersOf(o) != [] && forall l :: l in LayersOf(o) ==> l.node.Dir?
  {
    AtGood(m, u, p);
  }

  /** An entry of the upper layer can be put where the directory was copied up. */
  lemma CanPutThere(m: Mount, u: Node, p: Path)
    requires u.Dir? && p != [] && !IsDot(Last(p)) && At(m, u, Parent(p)).DirObj? && Get(u, Parent(p)).Some?
    ensures CanPut(m, u, p)
  {
    ResolveUp(m, Root(m, u), Parent(p));
  }

  /** After the copy up of the directory of `p`. */
  lemma AfterCopyUp(m: Mount, u0: Node, u: Node, p: Path)
    requires u0.Dir? && u.Dir? && p != [] && SameSpots(m, u0, u) && Positive(At(m, u0, p))
    requires Get(u, Parent(p)).Some? && (Get(u0, Parent(p)).Some? ==> u == u0)
    ensures CanPut(m, u, p) && Positive(At(m, u, p)) && (At(m, u, p).DirObj? <==> At(m, u0, p).DirObj?)
    ensures InUpper(At(m, u0, p)) ==> u == u0 && Get(u, p).Some? && (HasDir(u, p) <==> At(m, u, p).DirObj?)
    ensures At(m, u, Parent(p)).DirObj? && At(m, u0, Parent(p)).DirObj?
  {
    RemovePoint(m, u0, p);
    assert SpotAt(m, u, p) == SpotAt(m, u0, p) && SpotAt(m, u, Parent(p)) == SpotAt(m, u0, Parent(p));
    SpotKind(m, u0, u, Parent(p));
    SpotKind(m, u0, u, p);
    CanPutThere(m, u, p);
    ResolveUp(m, Root(m, u0), p);
    if InUpper(At(m, u0, p)) {
      GetParent(u0, p);
    }
  }

  /** A change at `p` leaves `p` a place where entries can be put. */
  lemma StillThere(m: Mount, u: Node, p: Path, x: Option<Node>)
    requires CanPut(m, u, p)
    ensures CanPut(m, Put(u, p, x), p)
  {
    AtPut(m, u, p, x, Parent(p));
    PutElsewhere(u, p, x, Parent(p));
  }

  lemma StillEmpty(m: Mount, u: Node, v: Node, p: Path)
    requires u.Dir? && v.Dir? && SameSpots(m, u, v) && At(m, u, p).DirObj? && MergedEmpty(m, At(m, u, p))
    ensures At(m, v, p).DirObj? && MergedEmpty(m, At(m, v, p))
  {
    assert SpotAt(m, v, p) == SpotAt(m, u, p);
    SpotKind(m, u, v, p);
    forall n: Name | !IsDot(n)
      ensures Child(m, At(m, v, p), n).Absent?
    {
      var q := p + [n];
      assert Parent(q) == p && Last(q) == n;
      AtChild(m, u, q);
      AtChild(m, v, q);
      assert SpotAt(m, v, q) == SpotAt(m, u, q);
      SpotKind(m, u, v, q);
    }
  }

  /** A directory without upper entries that merges with nothing is empty. */
  lemma PlainEmpty(m: Mount, u: Node, p: Path, dir: Node)
    requires At(m, u, p).DirObj? && At(m, u, p).up == Some(dir) && dir.Dir? && dir.entries == map[]
    requires At(m, u, p).stack == [] || MergedEmpty(m, At(m, u, p))
    ensures MergedEmpty(m, At(m, u, p))
  {
    var o := At(m, u, p);
    if o.stack == [] {
      forall n: Name | !IsDot(n)
        ensures Child(m, o, n).Absent?
      {
        EntryMissing(m, n, [], o.isRoot);
      }
    }
  }

  // ---------------------------------------------------------------------------------
  // Used by create

  predicate IsNew(x: Node) {
    x.Leaf? || (x.Dir? && x == Dir(x.meta, false, None, false, map[]))
  }

  /** The new object stands at `p`; nothing else changed. */
  ghost predicate Created(m: Mount, u: Node, v: Node, p: Path, x: Node)
    requires x.Leaf? || x.Dir?
  {
    if x.Leaf? then FileAt(m, u, v, p, FileSight(x)) else EmptyDirAt(m, u, v, p, x.meta)
  }

  /** Every upper layer since step `from` shows what `u` shows, or that with the new object. */
  ghost predicate Creating(m: Mount, trail: seq<Node>, from: nat, u: Node, p: Path, x: Node)
    requires x.Leaf? || x.Dir?
  {
    forall i :: from <= i < |trail| ==> SameView(m, u, trail[i]) || Created(m, u, trail[i], p, x)
  }

  lemma CreatingJoin(m: Mount, early: seq<Node>, trail: seq<Node>, from: nat, u: Node, p: Path, x: Node)
    requires (x.Leaf? || x.Dir?) && early <= trail
    requires Creating(m, early, from, u, p, x) && Creating(m, trail, |early|, u, p, x)
    ensures Creating(m, trail, from, u, p, x)
  {
    assert forall i :: from <= i < |early| ==> trail[i] == early[i];
  }

  /** A creation after a copy up. */
  lemma CreatingFrom(m: Mount, u0: Node, u: Node, p: Path, x: Node, trail: seq<Node>, n0: nat, n1: nat)
    requires (x.Leaf? || x.Dir?) && SameSpots(m, u0, u) && n0 <= n1 <= |trail|
    requires forall i :: n0 <= i < n1 ==> SameView(m, u0, trail[i])
    requires Creating(m, trail, n1, u, p, x)
    ensures Creating(m, trail, n0, u0, p, x)
  {
    SameSpotsView(m, u0, u);
    forall i | n0 <= i < |trail|
      ensures SameView(m, u0, trail[i]) || Created(m, u0, trail[i], p, x)
    {
      if i >= n1 {
        if SameView(m, u, trail[i]) {
          SameViewTrans(m, u0, u, trail[i]);
        } else {
          CreatedFrom(m, u0, u, trail[i], p, x);
        }
      }
    }
  }

  lemma ParentStays(u: Node, p: Path, x: Option<Node>)
    requires p != [] && HasDir(u, Parent(p))
    ensures HasDir(Put(u, p, x), Parent(p))
  {
    PutElsewhere(u, p, x, Parent(p));
  }

  lemma SameViewRefl(m: Mount, u: Node)
    ensures SameView(m, u, u)
  {
  }

  lemma NewEntry(m: Mount, u: Node, p: Path, x: Node)
    requires CanPut(m, u, p) && At(m, u, p).Absent?
    requires x.Leaf? || (x.Dir? && x.entries == map[] && x.redirect.None? && (x.isOpaque || Get(u, p).None?))
    ensures Created(m, u, Put(u, p, Some(x)), p, x)
  {
    if x.Leaf? {
      FileChange(m, u, p, x);
    } else {
      NewDirIsEmpty(m, u, p, x);
    }
  }

  /** A new object, made opaque if it is a directory. */
  function Opaqued(x: Node): Node {
    if x.Dir? then x.(isOpaque := true) else x
  }

  /** The new object has been put in its place. */
  lemma Landed(m: Mount, u: Node, p: Path, x: Node, y: Node, trail: seq<Node>)
    requires CanPut(m, u, p) && At(m, u, p).Absent? && IsNew(x)
    requires y == Opaqued(x) || (y == x && Get(u, p).None?)
    ensures var v := Put(u, p, Some(y));
      && Created(m, u, v, p, x) && HasDir(v, Parent(p))
      && Creating(m, trail + [v], |trail|, u, p, x)
  {
    NewEntry(m, u, p, y);
    ParentStays(u, p, Some(y));
  }

  lemma NewDirIsPlain(m: Mount, u: Node, p: Path, x: Node)
    requires CanPut(m, u, p) && At(m, u, p).Absent? && Get(u, p).None?
    requires x.Dir? && x.entries == map[] && x.redirect.None? && !x.isOpaque
    ensures At(m, Put(u, p, Some(x)), p).DirObj? && At(m, Put(u, p, Some(x)), p).stack == []
  {
    CurrentEntry(m, u, p);
    AtPutHere(m, u, p, Some(x));
    var d := At(m, u, Parent(p));
    EntryPlainDir(m, x, Last(p), d.stack, d.isRoot);
  }

  lemma SameViewSym(m: Mount, u: Node, v: Node)
    requires SameView(m, u, v)
    ensures SameView(m, v, u)
  {
  }

  lemma CreatedThen(m: Mount, u: Node, v: Node, w: Node, p: Path, x: Node)
    requires (x.Leaf? || x.Dir?) && Created(m, u, v, p, x) && SameSpots(m, v, w)
    ensures Created(m, u, w, p, x)
  {
    assert forall q: Path :: SpotAt(m, w, q) == SpotAt(m, v, q);
  }

  lemma CreatedFrom(m: Mount, u: Node, v: Node, w: Node, p: Path, x: Node)
    requires (x.Leaf? || x.Dir?) && SameSpots(m, u, v) && Created(m, v, w, p, x)
    ensures Created(m, u, w, p, x)
  {
    assert forall q: Path :: SpotAt(m, v, q) == SpotAt(m, u, q);
  }

  /** An absent name that is not a whiteout has no upper entry. */
  lemma AbsentEntry(m: Mount, u: Node, p: Path)
    requires CanPut(m, u, p) && At(m, u, p) == Absent(false)
    ensures Get(u, p).None?
  {
    CurrentEntry(m, u, p);
    var d := At(m, u, Parent(p));
    if Get(u, p).Some? {
      var n := Get(u, p).value;
      EntryOther(m, n, Last(p), d.stack, d.isRoot);
      if n.Dir? {
        EntryDir(m, n, Last(p), d.stack, d.isRoot);
      }
    }
  }

  // ---------------------------------------------------------------------------------
  // Used by rename

  /** A directory remembered as opaque is opaque. */
  lemma OpaqueFlag(m: Mount, u: Node, p: Path)
    requires CanPut(m, u, p) && At(m, u, p).DirObj? && HasDir(u, p)
    ensures At(m, u, p).isOpaque ==> Get(u, p).value.isOpaque
  {
    CurrentEntry(m, u, p);
    var d := At(m, u, Parent(p));
    EntryDir(m, Get(u, p).value, Last(p), d.stack, d.isRoot);
  }

  /** Marking the entry at `p` leaves the one at `q` alone. */
  lemma OtherEntry(m: Mount, u: Node, v: Node, p: Path, q: Path)
    requires Apart(p, q) && CanPut(m, u, p) && CanPut(m, u, q)
    requires v == u || exists x :: v == Put(u, p, Some(x))
    ensures CanPut(m, v, q) && Get(v, q) == Get(u, q) && At(m, v, q) == At(m, u, q)
    ensures At(m, v, Parent(p)).DirObj? && At(m, v, Parent(p)).stack == At(m, u, Parent(p)).stack
  {
    if v != u {
      var x :| v == Put(u, p, Some(x));
      OneAfterOther(m, u, p, Some(x), q, None);
      PutElsewhere(u, p, Some(x), q);
      AtPut(m, u, p, Some(x), q);
      AtPut(m, u, p, Some(x), Parent(p));
    }
  }

  /** An entry that can be moved to `q` still can after the entry at `q` was marked. */
  lemma OtherMovable(m: Mount, u: Node, v: Node, p: Path, q: Path)
    requires Apart(p, q) && Movable(m, u, p, q)
    requires v == u || exists x :: v == Put(u, q, Some(x))
    ensures Movable(m, v, p, q)
  {
    if v != u {
      var x :| v == Put(u, q, Some(x));
      OneAfterOther(m, u, q, Some(x), p, None);
      PutElsewhere(u, q, Some(x), p);
      AtPut(m, u, q, Some(x), p);
      LocPatched(m, Root(m, u), [], q, Some(x), p);
      AtPut(m, u, q, Some(x), Parent(q));
      PutElsewhere(u, q, Some(x), Parent(q));
      LocPatched(m, Root(m, u), [], q, Some(x), Parent(q));
    }
  }

  /** Nothing is found where a whiteout was left, or where nothing was left and nothing exists
      below. */
  lemma LeavesNothing(m: Mount, u: Node, p: Path, x: Option<Node>)
    requires CanPut(m, u, p)
    requires x == Some(White) || (x.None? && !LowerPositive(At(m, u, Parent(p)).stack, Last(p)))
    ensures With(m, u, p, x).Absent?
  {
    var d := At(m, u, Parent(p));
    EntryOther(m, White, Last(p), d.stack, d.isRoot);
    EntryMissing(m, Last(p), d.stack, d.isRoot);
  }

  lemma RenamedFrom(m: Mount, u0: Node, u: Node, v: Node, p: Path, q: Path)
    requires Apart(p, q) && SameOutside(m, u0, u, q) && Renamed(m, u, v, p, q)
    ensures Renamed(m, u0, v, p, q)
  {
    forall r: Path
      ensures SpotAt(m, v, r) ==
              if q <= r then SpotAt(m, u0, p + r[|q|..]) else if p <= r then EMPTY else SpotAt(m, u0, r)
    {
      assert SpotAt(m, v, r) ==
             if q <= r then SpotAt(m, u, p + r[|q|..]) else if p <= r then EMPTY else SpotAt(m, u, r);
      if q <= r {
        var s := p + r[|q|..];
        assert !(q <= s) by {
          ApartBelow(p, q, r[|q|..]);
        }
        assert SpotAt(m, u, s) == SpotAt(m, u0, s);
      }
    }
  }

  lemma ApartBelow(p: Path, q: Path, r: Path)
    requires Apart(p, q)
    ensures !(q <= p + r)
  {
  }

  lemma ExchangedFrom(m: Mount, u0: Node, u: Node, v: Node, p: Path, q: Path)
    requires SameSpots(m, u0, u) && Exchanged(m, u, v, p, q)
    ensures Exchanged(m, u0, v, p, q)
  {
    assert forall r: Path :: SpotAt(m, u, r) == SpotAt(m, u0, r);
  }

  /** The directories of both names are in the upper layer. */
  predicate Parents(u: Node, p: Path, q: Path)
    requires p != [] && q != []
  {
    HasDir(u, Parent(p)) && HasDir(u, Parent(q))
  }

  lemma ParentsStay(u: Node, p: Path, q: Path)
    requires Apart(p, q) && Parents(u, p, q)
    ensures Parents(Put(u, p, None), p, q)
  {
    ParentStays(u, p, None);
    assert p <= Parent(q) ==> p <= q;
    PutElsewhere(u, p, None, Parent(q));
  }

  lemma SettledJoin(m: Mount, u: Node, v: Node, w: Node, trail: seq<Node>, n0: nat, n1: nat)
    requires n0 <= n1 <= |trail| && SameView(m, w, v)
    requires forall i :: n0 <= i < n1 ==> SameView(m, u, trail[i]) || SameView(m, v, trail[i])
    requires Settled(m, trail, n1, u, w)
    ensures Settled(m, trail, n0, u, w)
  {
    forall i | n0 <= i < |trail|
      ensures SameView(m, u, trail[i]) || SameView(m, w, trail[i])
    {
      if i < n1 && SameView(m, v, trail[i]) {
        SameViewTrans(m, w, v, trail[i]);
      }
    }
  }

  /** The old name, after the rename, is still a place where entries can be put. */
  lemma OldPlace(m: Mount, u: Node, v: Node, p: Path, q: Path)
    requires Apart(p, q) && CanPut(m, u, p) && CanPut(m, u, q)
    requires exists x: Option<Node>, y: Option<Node> :: v == Put(Put(u, p, x), q, y)
    ensures CanPut(m, v, p) && At(m, v, Parent(p)).stack == At(m, u, Parent(p)).stack && Parents(v, p, q)
  {
    var x: Option<Node>, y: Option<Node> :| v == Put(Put(u, p, x), q, y);
    var w := Put(u, p, x);
    StillThere(m, u, p, x);
    AtPut(m, u, p, x, Parent(p));
    OneAfterOther(m, u, p, x, q, y);
    OneAfterOther(m, w, q, y, p, x);
    StillThere(m, w, q, y);
    assert q <= Parent(p) ==> q <= p;
    AtPut(m, w, q, y, Parent(p));
  }

  /** Removing an upper entry under which nothing was found any more changes nothing. */
  lemma RemovedNothing(m: Mount, u0: Node, u: Node, v: Node, p: Path, q: Path)
    requires Apart(p, q) && Renamed(m, u0, u, p, q) && Removed(m, u, v, p)
    ensures Renamed(m, u0, v, p, q) && SameView(m, v, u)
  {
    forall r: Path
      ensures SpotAt(m, v, r) == SpotAt(m, u, r)
    {
      assert SpotAt(m, v, r) == if p <= r then EMPTY else SpotAt(m, u, r);
      if p <= r {
        assert r == p + r[|p|..];
        ApartBelow(p, q, r[|p|..]);
      }
    }
    assert forall r: Path :: SpotAt(m, v, r) == SpotAt(m, u, r);
    SameSpotsView(m, u, v);
    SameViewSym(m, u, v);
  }

  lemma TrailTrans(m: Mount, u0: Node, u: Node, trail: seq<Node>, n0: nat, n: nat)
    requires SameView(m, u0, u) && n0 <= n <= |trail|
    requires forall i :: n0 <= i < n ==> SameView(m, u0, trail[i]) || SameView(m, u, trail[i])
    ensures forall i :: n0 <= i < n ==> SameView(m, u0, trail[i])
  {
    forall i | n0 <= i < n
      ensures SameView(m, u0, trail[i])
    {
      if SameView(m, u, trail[i]) {
        SameViewTrans(m, u0, u, trail[i]);
      }
    }
  }

  /** How the upper rename is done: exchange the entries, leave a whiteout, and remove the
      exchanged whiteout afterwards. */
  datatype Plan = Plan(exchange: bool, whiteout: bool, cleanup: bool)

  function PlanFor(lowerPositive: bool, newIsWhiteout: bool, isDir: bool): Plan {
    if lowerPositive then Plan(newIsWhiteout, !newIsWhiteout, false)
    else if isDir && newIsWhiteout then Plan(true, false, true)
    else Plan(false, false, false)
  }

  /** A merged directory can be moved only with redirects. */
  predicate CanMove(m: Mount, o: Obj) {
    m.redirectDir || !o.DirObj? || o.stack == []
  }

  /** What a failed rename may have changed: nothing, or it has replaced the empty directory it
      was to overwrite by an opaque one. */
  ghost predicate Shaken(m: Mount, u: Node, v: Node, q: Path) {
    || SameSpots(m, u, v)
    || (SameView(m, u, v) && SameOutside(m, u, v, q) && At(m, v, q).DirObj? && At(m, v, q).stack == []
        && At(m, u, q).DirObj? && MergedEmpty(m, At(m, u, q)))
  }

  ghost predicate RenameOutcome(m: Mount, u: Node, v: Node, p: Path, q: Path, exchange: bool, ok: bool) {
    if !ok then (if exchange then SameSpots(m, u, v) else Shaken(m, u, v, q))
    else if exchange then Exchanged(m, u, v, p, q)
    else Renamed(m, u, v, p, q)
  }

  lemma StillPositive(m: Mount, u: Node, v: Node, p: Path)
    requires u.Dir? && v.Dir? && SameSpots(m, u, v) && Positive(At(m, u, p))
    ensures Positive(At(m, v, p)) && (At(m, u, p).DirObj? <==> At(m, v, p).DirObj?)
    ensures At(m, u, p).DirObj? ==> At(m, u, p).stack == At(m, v, p).stack
  {
    assert SpotAt(m, v, p) == SpotAt(m, u, p);
    SpotKind(m, u, v, p);
  }

  lemma KeptTrans(m: Mount, u0: Node, u: Node, v: Node, trail: seq<Node>, n0: nat)
    requires SameSpots(m, u0, u) && SameSpots(m, u, v) && Kept(u0, u) && Kept(u, v) && n0 <= |trail|
    requires forall i :: n0 <= i < |trail| ==> SameView(m, u0, trail[i]) || SameView(m, u, trail[i])
    ensures SameSpots(m, u0, v) && Kept(u0, v)
    ensures forall i :: n0 <= i < |trail| ==> SameView(m, u0, trail[i])
  {
    SameSpotsTrans(m, u0, u, v);
    SameSpotsView(m, u0, u);
    TrailTrans(m, u0, u, trail, n0, |trail|);
  }

  /** After the copy ups both names are places where entries can be put. */
  lemma RenamePoint(m: Mount, u0: Node, u: Node, p: Path, q: Path)
    requires u0.Dir? && u.Dir? && p != [] && q != [] && SameSpots(m, u0, u) && Kept(u0, u)
    requires Positive(At(m, u0, p)) && At(m, u0, Parent(q)).DirObj? && !IsDot(Last(q))
    requires Get(u, p).Some? && Get(u, Parent(q)).Some?
    ensures CanPut(m, u, p) && CanPut(m, u, q) && Positive(At(m, u, p))
    ensures At(m, u, p).DirObj? <==> At(m, u0, p).DirObj?
    ensures At(m, u, p).DirObj? ==> At(m, u, p).stack == At(m, u0, p).stack
    ensures At(m, u0, Parent(p)).DirObj? && At(m, u, Parent(p)).stack == At(m, u0, Parent(p)).stack
    ensures At(m, u0, q) == Absent(true) ==> Get(u, q) == Some(White)
  {
    StillPositive(m, u0, u, p);
    RemovePoint(m, u0, p);
    RemovePoint(m, u, p);
    GetParent(u, p);
    StillPositive(m, u0, u, Parent(p));
    StillPositive(m, u0, u, Parent(q));
    CanPutThere(m, u, q);
    if At(m, u0, q) == Absent(true) {
      WhiteEntry(m, u0, q);
    }
  }

  /** The absent name of a whiteout. */
  lemma WhiteEntry(m: Mount, u: Node, q: Path)
    requires u.Dir? && q != [] && At(m, u, q) == Absent(true)
    ensures Get(u, q) == Some(White)
  {
    AtChild(m, u, q);
    var d := At(m, u, Parent(q));
    ResolveUp(m, Root(m, u), Parent(q));
    var one := UpperOne(d.up, Last(q));
    EntryMissing(m, Last(q), d.stack, d.isRoot);
    if one.Hit? && one.node.Dir? {
      EntryDir(m, one.node, Last(q), d.stack, d.isRoot);
    }
    assert one == Hit(White);
    assert q == Parent(q) + [Last(q)];
    GetConcat(u, Parent(q), [Last(q)]);
    GetOne(d.up.value, Last(q));
  }

  lemma BothPlaces(m: Mount, u0: Node, u: Node, q: Path)
    requires u0.Dir? && u.Dir? && SameSpots(m, u0, u) && Positive(At(m, u0, q))
    ensures Positive(At(m, u, q)) && (CanMove(m, At(m, u, q)) <==> CanMove(m, At(m, u0, q)))
  {
    StillPositive(m, u0, u, q);
  }

  /** After the overwritten directory was cleared, or was not. */
  lemma Cleared(m: Mount, u: Node, v: Node, p: Path, q: Path)
    requires Apart(p, q) && CanPut(m, u, p) && CanPut(m, u, q) && v.Dir?
    requires SameOutside(m, u, v, q)
    requires v == u || exists x :: v == Put(u, q, Some(x))
    ensures CanPut(m, v, p) && Get(v, p) == Get(u, p) && At(m, v, p) == At(m, u, p)
    ensures At(m, v, Parent(p)).DirObj? && At(m, v, Parent(p)).stack == At(m, u, Parent(p)).stack
  {
    OtherEntry(m, u, v, q, p);
    assert q <= Parent(p) ==> q <= p;
    SpotKind(m, u, v, Parent(p));
  }

  lemma ShakenThen(m: Mount, u: Node, v: Node, w: Node, q: Path)
    requires v.Dir? && w.Dir? && Shaken(m, u, v, q) && SameSpots(m, v, w)
    ensures Shaken(m, u, w, q)
  {
    if SameSpots(m, u, v) {
      SameSpotsTrans(m, u, v, w);
    } else {
      SameSpotsView(m, v, w);
      SameViewTrans(m, u, v, w);
      SpotsOutside(m, v, w, q);
      OutsideTrans(m, u, v, w, q);
      StillPositive(m, v, w, q);
    }
  }

  lemma ShakenFrom(m: Mount, u0: Node, u: Node, v: Node, q: Path)
    requires u0.Dir? && u.Dir? && SameSpots(m, u0, u) && Shaken(m, u, v, q)
    ensures Shaken(m, u0, v, q)
  {
    if SameSpots(m, u, v) {
      SameSpotsTrans(m, u0, u, v);
    } else {
      SpotsOutside(m, u0, u, q);
      SameSpotsView(m, u0, u);
      SameViewTrans(m, u0, u, v);
      OutsideTrans(m, u0, u, v, q);
      assert forall r: Path :: SpotAt(m, u0, r) == SpotAt(m, u, r);
      StillEmpty(m, u, u0, q);
    }
  }

  lemma OutcomeFrom(m: Mount, u0: Node, u: Node, v: Node, p: Path, q: Path, exchange: bool, ok: bool)
    requires u0.Dir? && u.Dir? && Apart(p, q) && SameSpots(m, u0, u) && RenameOutcome(m, u, v, p, q, exchange, ok)
    ensures RenameOutcome(m, u0, v, p, q, exchange, ok)
  {
    if !ok {
      if exchange {
        SameSpotsTrans(m, u0, u, v);
      } else {
        ShakenFrom(m, u0, u, v, q);
      }
    } else if exchange {
      ExchangedFrom(m, u0, u, v, p, q);
    } else {
      SpotsOutside(m, u0, u, q);
      RenamedFrom(m, u0, u, v, p, q);
    }
  }

  /** A directory of the upper layer alone that is empty after the copy ups was empty before. */
  lemma EmptyBefore(m: Mount, u0: Node, u: Node, q: Path)
    requires u0.Dir? && At(m, u0, q).DirObj? && PureUpper(At(m, u0, q)) && Kept(u0, u)
    requires HasDir(u, q) ==> Get(u, q).value.entries == map[]
    ensures MergedEmpty(m, At(m, u0, q))
  {
    ResolveUp(m, Root(m, u0), q);
    var dir := Get(u0, q).value;
    assert Get(u0, q).Some?;
    forall n | n in dir.entries
      ensures n in Get(u, q).value.entries
    {
      GetConcat(u0, q, [n]);
      GetOne(dir, n);
      assert Get(u0, q + [n]).Some?;
      GetConcat(u, q, [n]);
      GetOne(Get(u, q).value, n);
    }
    assert dir.entries.Keys <= Get(u, q).value.entries.Keys;
    assert dir.entries == map[];
    PlainEmpty(m, u0, q, dir);
  }

  // ---------------------------------------------------------------------------------
  // Used by open

  predicate IsSpecial(o: Obj) {
    o.FileObj? && o.node.Leaf? && o.node.kind.Special?
  }

  /** Does an open need a copy up? */
  predicate OpenNeedsCopyUp(o: Obj, inUpper: bool, simp: bool, write: bool, trunc: bool) {
    if simp then true
    else if inUpper then false
    else if IsSpecial(o) then false
    else write || trunc
  }

  /** An open that does not truncate: nothing changes in the overlay, nothing leaves the upper
      layer, and if it `copied` the object is in the upper layer. */
  ghost predicate OpenOutcome(m: Mount, u: Node, v: Node, p: Path, copied: bool) {
    SameSpots(m, u, v) && Kept(u, v) && (copied ==> Get(v, p).Some?)
  }
}
