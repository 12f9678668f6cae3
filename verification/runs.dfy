/** Whole runs: what any number of operations keeps. */
module Runs {
  import opened Names
  import opened Layers
  import opened Lookup
  import opened LookupLaws
  import opened Merged
  import opened Located
  import opened Resolved
  import opened Spots
  import opened NamespaceLaws
  import opened RenameLaws
  import opened OverlayFs

  // ---------------------------------------------------------------------------------
  // Runs of renames

  /** One call of rename: its arguments and whether it succeeded. */
  datatype Move = Move(source: Path, target: Path, exchange: bool, ok: bool)

  /** A run of renames and exchanges, failed ones included; `us` are the upper layers between
      the calls. */
  ghost predicate RenameRun(m: Mount, us: seq<Node>, moves: seq<Move>) {
    && |us| == |moves| + 1
    && (forall i :: 0 <= i < |us| ==> us[i].Dir?)
    && (forall i :: 0 <= i < |moves| ==> Apart(moves[i].source, moves[i].target))
    && forall i :: 0 <= i < |moves| ==>
         RenameOutcome(m, us[i], us[i + 1], moves[i].source, moves[i].target, moves[i].exchange, moves[i].ok)
  }

  /** Where the object at `p` is after a move, unless it was overwritten. */
  function Follow(p: Path, v: Move): Option<Path> {
    if !v.ok then Some(p)
    else if v.source <= p then Some(v.target + p[|v.source|..])
    else if v.target <= p then (if v.exchange then Some(v.source + p[|v.target|..]) else None)
    else Some(p)
  }

  function FollowAll(p: Path, moves: seq<Move>): Option<Path> {
    if moves == [] then Some(p)
    else
      match FollowAll(p, moves[..|moves| - 1])
      case None => None
      case Some(q) => Follow(q, moves[|moves| - 1])
  }

  /** Below a merged-empty directory there is no directory. */
  lemma {:induction false} NoDirBelow(m: Mount, o: Obj, r: Path)
    requires o.DirObj? && MergedEmpty(m, o) && r != []
    ensures !See(Resolve(m, o, r)).ADir?
  {
    if IsDot(r[0]) {
      ErrorBelow(m, r[1..]);
    } else {
      assert Child(m, o, r[0]).Absent?;
      if r[1..] != [] {
        NothingBelow(m, Child(m, o, r[0]), r[1..]);
      }
    }
  }

  /** Moving along with a directory and back. */
  lemma Carried(p: Path, source: Path, target: Path)
    requires source <= p
    ensures var q := target + p[|source|..];
      target <= q && q[|target|..] == p[|source|..] && source + q[|target|..] == p
  {
  }

  lemma FollowDone(m: Mount, u: Node, w: Node, v: Move, p: Path)
    requires Apart(v.source, v.target) && v.ok && Follow(p, v).Some?
    requires RenameOutcome(m, u, w, v.source, v.target, v.exchange, v.ok)
    ensures SpotAt(m, w, Follow(p, v).value) == SpotAt(m, u, p)
  {
    if v.source <= p {
      Carried(p, v.source, v.target);
    } else if v.target <= p {
      Carried(p, v.target, v.source);
      ApartBelow(v.source, v.target, p[|v.target|..]);
    }
  }

  /** A failed rename changes a directory only if it is the empty one that was to be overwritten. */
  lemma FollowFailed(m: Mount, u: Node, w: Node, target: Path, p: Path)
    requires u.Dir? && w.Dir? && Shaken(m, u, w, target) && SpotAt(m, u, p).sight.ADir?
    ensures var s, t := SpotAt(m, u, p), SpotAt(m, w, p);
      || t == s
      || (t == Spot(s.sight, [], []) && p == target && At(m, u, p).DirObj? && MergedEmpty(m, At(m, u, p)))
  {
    if !SameSpots(m, u, w) && target <= p {
      if p == target {
        assert View(m, w, p) == View(m, u, p);
      } else {
        var r := p[|target|..];
        assert p == target + r;
        AtBelow(m, u, target, r);
        NoDirBelow(m, At(m, u, target), r);
        assert false;
      }
    }
  }

  /** The directory that was at `p` at the start is the target of the failed rename `i`, and empty:
      the rename may have replaced it by an opaque directory that looks the same. */
  ghost predicate ClearedOn(m: Mount, us: seq<Node>, moves: seq<Move>, p: Path, i: int)
    requires |us| == |moves| + 1
  {
    && 0 <= i < |moves| && !moves[i].ok && !moves[i].exchange
    && FollowAll(p, moves[..i]) == Some(moves[i].target)
    && At(m, us[i], moves[i].target).DirObj? && MergedEmpty(m, At(m, us[i], moves[i].target))
  }

  /** What one more call does to a directory, wherever the calls before it have moved it. */
  lemma FollowOne(m: Mount, us: seq<Node>, moves: seq<Move>, p: Path, n: nat)
    requires RenameRun(m, us, moves) && n < |moves|
    requires FollowAll(p, moves[..n]).Some? && Follow(FollowAll(p, moves[..n]).value, moves[n]).Some?
    requires SpotAt(m, us[n], FollowAll(p, moves[..n]).value).sight.ADir?
    ensures var q := FollowAll(p, moves[..n]).value;
      var s, t := SpotAt(m, us[n], q), SpotAt(m, us[n + 1], Follow(q, moves[n]).value);
      t == s || (t == Spot(s.sight, [], []) && ClearedOn(m, us, moves, p, n))
  {
    var q, v := FollowAll(p, moves[..n]).value, moves[n];
    if v.ok {
      FollowDone(m, us[n], us[n + 1], v, q);
    } else if !v.exchange {
      FollowFailed(m, us[n], us[n + 1], v.target, q);
    } else {
      assert SpotAt(m, us[n + 1], q) == SpotAt(m, us[n], q);
    }
  }

  /** Over every run of renames and exchanges, failed ones included, a merged directory that is not
      overwritten keeps its lower directories and its lower path wherever it is moved, and that
      path leads to those directories; the only exception is an empty directory that a failed
      rename was to overwrite. */
  lemma {:induction false} MergedDirsStay(m: Mount, us: seq<Node>, moves: seq<Move>, p: Path)
    requires m.Valid() && m.follow && RenameRun(m, us, moves)
    requires SpotAt(m, us[0], p).stack != [] && FollowAll(p, moves).Some?
    ensures var s, t := SpotAt(m, us[0], p), SpotAt(m, us[|moves|], FollowAll(p, moves).value);
      && s.sight.ADir? && LocStack(m, s.loc) == Stack(s.stack)
      && (t == s || (t == Spot(s.sight, [], []) && exists i :: ClearedOn(m, us, moves, p, i)))
  {
    MergedIsLocated(m, us[0], p);
    assert moves[..|moves|] == moves;
    StayFrom(m, us, moves, p, |moves|);
  }

  lemma {:induction false} StayFrom(m: Mount, us: seq<Node>, moves: seq<Move>, p: Path, n: nat)
    requires RenameRun(m, us, moves) && n <= |moves|
    requires SpotAt(m, us[0], p).sight.ADir? && FollowAll(p, moves[..n]).Some?
    ensures var s, t := SpotAt(m, us[0], p), SpotAt(m, us[n], FollowAll(p, moves[..n]).value);
      t == s || (t == Spot(s.sight, [], []) && exists i :: ClearedOn(m, us, moves, p, i))
  {
    if n == 0 {
    } else {
      assert moves[..n][..n - 1] == moves[..n - 1];
      StayFrom(m, us, moves, p, n - 1);
      FollowOne(m, us, moves, p, n - 1);
    }
  }

  // ---------------------------------------------------------------------------------
  // Runs of opens in simp mode

  /** One open that does not truncate, and whether it succeeded. */
  datatype Open = Open(path: Path, ok: bool)

  ghost predicate SimpRun(m: Mount, us: seq<Node>, opens: seq<Open>) {
    && |us| == |opens| + 1
    && (forall i :: 0 <= i < |us| ==> us[i].Dir?)
    && (forall i :: 0 <= i < |opens| ==> Positive(At(m, us[i], opens[i].path)))
    && forall i :: 0 <= i < |opens| ==> OpenOutcome(m, us[i], us[i + 1], opens[i].path, opens[i].ok)
  }

  /** What the upper layer alone shows at `p`. */
  function Alone(u: Node, p: Path): Sight {
    match Get(u, p)
    case Some(Leaf(kind, meta, data)) => AFile(kind, meta, data)
    case Some(Dir(meta, _, _, _, _)) => ADir(meta)
    case _ => Nothing
  }

  lemma SimpKeeps(m: Mount, us: seq<Node>, opens: seq<Open>, k: nat)
    requires SimpRun(m, us, opens) && k <= |opens|
    ensures SameSpots(m, us[k], us[|opens|]) && Kept(us[k], us[|opens|])
    decreases |opens| - k
  {
    if k == |opens| {
      SameSpotsRefl(m, us[k]);
    } else {
      SimpKeeps(m, us, opens, k + 1);
      assert OpenOutcome(m, us[k], us[k + 1], opens[k].path, opens[k].ok);
      SameSpotsTrans(m, us[k], us[k + 1], us[|opens|]);
      KeptThrough(us[k], us[k + 1], us[|opens|]);
    }
  }

  lemma KeptThrough(u: Node, v: Node, w: Node)
    requires Kept(u, v) && Kept(v, w)
    ensures Kept(u, w)
  {
    forall q: Path | Get(u, q).Some?
      ensures && Get(w, q).Some? && (Get(u, q).value.Dir? <==> Get(w, q).value.Dir?)
              && (!Get(u, q).value.Dir? ==> Get(w, q) == Get(u, q))
    {
      assert Get(v, q).Some?;
    }
  }

  /** What is seen of an object that is in the upper layer is what the upper layer alone shows. */
  lemma AloneIsView(m: Mount, u: Node, p: Path)
    requires u.Dir? && Positive(At(m, u, p)) && Get(u, p).Some?
    ensures Alone(u, p) == View(m, u, p)
  {
    ResolveUp(m, Root(m, u), p);
  }

  /** After any run of opens in simp mode, the merged tree is as it was, and every object opened
      successfully, with all its ancestors, can be resolved in the upper layer alone, where it
      shows the same content, metadata and link target. */
  lemma SimpImage(m: Mount, us: seq<Node>, opens: seq<Open>, i: nat, k: nat)
    requires SimpRun(m, us, opens) && i < |opens| && opens[i].ok && k <= |opens[i].path|
    ensures SameSpots(m, us[0], us[|opens|])
    ensures var v := us[|opens|];
      Alone(v, opens[i].path[..k]) == View(m, us[0], opens[i].path[..k]) != Nothing
  {
    var v, p := us[|opens|], opens[i].path;
    var q := p[..k];
    SimpKeeps(m, us, opens, 0);
    SimpKeeps(m, us, opens, i + 1);
    SimpKeeps(m, us, opens, i);
    assert OpenOutcome(m, us[i], us[i + 1], p, true);
    assert Get(v, p).Some?;
    assert p == q + p[k..];
    GetConcat(v, q, p[k..]);
    StillPositive(m, us[i], v, p);
    if k < |p| {
      AncestorsAreDirs(m, v, p, k);
    } else {
      assert q == p;
    }
    AloneIsView(m, v, q);
    assert SpotAt(m, v, q) == SpotAt(m, us[0], q);
    ResolveUp(m, Root(m, v), q);
  }
}
