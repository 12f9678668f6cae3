/** The cached listing of a merged directory: shared by open directory files, counted, thrown
away when the directory is told of a change, and read through cursors. */
module DirCache {
  import opened Names
  import opened Errno
  import opened Layers
  import opened Lookup
  import opened Merged
  import opened Resolved
  import opened Readdir
  import opened Spots
  import opened NamespaceLaws
  import opened DirEvents
  import OverlayFs

  type CacheId = nat
  type FileId = nat

  datatype Cache = Cache(refcount: nat, version: nat, entries: seq<Entry>)

  /** An open directory file: the cache it reads, where in the list it is (at the length: at the
      end), and its file position. */
  datatype File = File(cache: Option<CacheId>, cursor: nat, pos: nat)

  // ---------------------------------------------------------------------------------
  // What a listing shows

  /** The list shows exactly the names that can be looked up in the directory `p`. */
  ghost predicate UpToDate(m: Mount, u: Node, p: Path, list: seq<Entry>) {
    forall n :: !IsDot(n) ==> (Shows(list, n) <==> HasName(m, u, p, n))
  }

  /** The list shows what can be looked up, but for the names in `made`, which came since it was
      read, and the whiteouts in `stale`, which were not recognised. */
  ghost predicate TracksList(m: Mount, u: Node, p: Path, list: seq<Entry>, made: set<Name>, stale: set<Name>) {
    && (forall n :: !IsDot(n) ==> (Shows(list, n) <==> (HasName(m, u, p, n) && n !in made) || n in stale))
    && (forall n :: n in made ==> !IsDot(n) && HasName(m, u, p, n))
    && (forall n :: n in stale ==> !IsDot(n) && (HasName(m, u, p, n) ==> n in made))
  }

  lemma TracksExactly(m: Mount, u: Node, p: Path, list: seq<Entry>, made: set<Name>, stale: set<Name>)
    requires TracksList(m, u, p, list, made, stale)
    ensures UpToDate(m, u, p, list) <==> made == stale
  {
    if made != stale {
      var n :| n in made + stale && (n in made <==> n !in stale);
      assert !IsDot(n) && (Shows(list, n) <==> !HasName(m, u, p, n));
    }
  }

  /** The whiteouts a listing does not recognise. */
  ghost function MissedNames(ls: seq<Layer>, tr: Trouble): (r: set<Name>)
    ensures forall n :: n in r <==> Missed(ls, tr, n)
  {
    var r := set x | x in tr.untyped + tr.failing && Missed(ls, tr, x.1) :: x.1;
    assert forall n :: n in r <==> Missed(ls, tr, n) by {
      forall n | Missed(ls, tr, n)
        ensures n in r
      {
        assert (TopLayer(ls, n).value, n) in tr.untyped + tr.failing;
      }
    }
    r
  }

  lemma FreshTracks(m: Mount, u: Node, p: Path, list: seq<Entry>, tr: Trouble)
    requires m.Valid() && u.Dir? && At(m, u, p).DirObj? && Listed(list, LayersOf(At(m, u, p)), tr)
    ensures TracksList(m, u, p, list, {}, MissedNames(LayersOf(At(m, u, p)), tr))
  {
    var ls := LayersOf(At(m, u, p));
    AtGood(m, u, p);
    forall n: Name
      ensures !IsDot(n) ==> (Shows(list, n) <==> HasName(m, u, p, n) || Missed(ls, tr, n))
      ensures Missed(ls, tr, n) ==> !IsDot(n) && !HasName(m, u, p, n)
    {
      FreshName(m, u, p, list, tr, n);
    }
  }

  lemma FreshName(m: Mount, u: Node, p: Path, list: seq<Entry>, tr: Trouble, n: Name)
    requires m.Valid() && u.Dir? && At(m, u, p).DirObj? && Listed(list, LayersOf(At(m, u, p)), tr)
    ensures var ls := LayersOf(At(m, u, p));
      && (!IsDot(n) ==> (Shows(list, n) <==> HasName(m, u, p, n) || Missed(ls, tr, n)))
      && (Missed(ls, tr, n) ==> !IsDot(n) && !HasName(m, u, p, n))
  {
    var o := At(m, u, p);
    AtGood(m, u, p);
    DotIsNoWhiteout(LayersOf(o), n);
    if !IsDot(n) {
      ListingIsLookup(m, o, list, tr, n);
      assert Parent(p + [n]) == p && Last(p + [n]) == n;
      AtChild(m, u, p + [n]);
    }
  }

  /** The names shown among `list`, in order. */
  function Shown(list: seq<Entry>): seq<Name> {
    if list == [] then []
    else
      var last := list[|list| - 1];
      Shown(list[..|list| - 1]) + (if last.isWhite then [] else [last.name])
  }

  lemma {:induction false} ShownConcat(a: seq<Entry>, b: seq<Entry>)
    ensures Shown(a + b) == Shown(a) + Shown(b)
  {
    if b == [] {
      assert a + b == a;
    } else {
      assert (a + b)[..|a + b| - 1] == a + b[..|b| - 1];
      ShownConcat(a, b[..|b| - 1]);
    }
  }

  lemma {:induction false} ShownHas(list: seq<Entry>, n: Name)
    ensures n in Shown(list) <==> Shows(list, n)
  {
    if list == [] {
    } else {
      var front := list[..|list| - 1];
      ShownHas(front, n);
      assert list == front + [list[|list| - 1]];
      assert Shows(list, n) <==> Shows(front, n) || (list[|list| - 1].name == n && !list[|list| - 1].isWhite);
    }
  }

  /** What is shown of a list without repetitions is shown once. */
  lemma {:induction false} ShownDistinct(list: seq<Entry>)
    requires Distinct(NamesOf(list))
    ensures Distinct(Shown(list))
  {
    if list == [] {
    } else {
      var front, last := list[..|list| - 1], list[|list| - 1];
      assert forall i :: 0 <= i < |front| ==> NamesOf(front)[i] == NamesOf(list)[i];
      ShownDistinct(front);
      ShownHas(front, last.name);
      assert forall e :: e in front ==> e.name != last.name;
    }
  }

  // ---------------------------------------------------------------------------------
  // Who holds what

  type Caches = map<CacheId, Cache>
  type Files = map<FileId, File>
  type Held = map<CacheId, set<FileId>>
  type Output = map<FileId, Option<seq<Name>>>

  /** Each cache counts the open files that hold it, and there is one; `held` tells which. */
  ghost predicate Counted(caches: Caches, files: Files, held: Held) {
    && held.Keys == caches.Keys
    && (forall c :: c in caches ==> 0 < caches[c].refcount == |held[c]|)
    && (forall f, c :: c in held && f in held[c] ==> f in files && files[f].cache == Some(c))
    && (forall f :: f in files && files[f].cache.Some? ==>
          files[f].cache.value in held && f in held[files[f].cache.value])
  }

  /** Each cache ever allocated is either there or freed, not both. */
  ghost predicate Accounted(caches: Caches, freed: set<CacheId>, next: CacheId) {
    && (forall c :: c in caches ==> c !in freed && c < next)
    && (forall c: CacheId :: c < next ==> c in caches || c in freed)
    && (forall c :: c in freed ==> c < next)
  }

  /** The inode points to a cache that is there, and to the only one of the present version. */
  ghost predicate Pointed(caches: Caches, current: Option<CacheId>, version: nat) {
    && (current.Some? ==> current.value in caches)
    && (forall c :: c in caches ==>
          caches[c].version <= version && (caches[c].version == version ==> current == Some(c)))
  }

  function Min(a: nat, b: nat): nat {
    if a < b then a else b
  }

  /** Every cursor is where the file position says, every file has returned what is before its
      cursor, and no list has a name twice. */
  ghost predicate Placed(caches: Caches, files: Files, output: Output) {
    && output.Keys == files.Keys
    && (forall c :: c in caches ==> Distinct(NamesOf(caches[c].entries)))
    && (forall f :: f in files ==> PlacedFile(caches, files[f], output[f]))
  }

  ghost predicate PlacedFile(caches: Caches, file: File, out: Option<seq<Name>>) {
    if file.cache.None? then out.Some? ==> file.pos == 0 && out.value == []
    else file.cache.value in caches && PlacedIn(caches[file.cache.value].entries, file, out)
  }

  ghost predicate PlacedIn(list: seq<Entry>, file: File, out: Option<seq<Name>>) {
    file.cursor == Min(file.pos, |list|) && (out.Some? ==> out.value == Shown(list[..file.cursor]))
  }

  lemma OpenKeeps(caches: Caches, files: Files, held: Held, output: Output, f: FileId)
    requires Counted(caches, files, held) && Placed(caches, files, output) && f !in files
    ensures Counted(caches, files[f := File(None, 0, 0)], held)
    ensures Placed(caches, files[f := File(None, 0, 0)], output[f := Some([])])
  {
  }

  /** What the inode and the open files keep of the directory. */
  datatype Table = Table(version: nat, current: Option<CacheId>, caches: Caches, files: Files, next: CacheId)

  /** What a list was read from, and what went wrong then. */
  datatype Source = Source(layers: seq<Layer>, tr: Trouble)

  /** Who holds which cache, which caches were freed, what each file returned since it was last
      rewound if it was not moved elsewhere; and of the current list, which names came since it was
      read without the directory being told, and what it was read from. */
  datatype Marks = Marks(held: Held, freed: set<CacheId>, output: Output, made: set<Name>, source: Source) {
    /** The whiteouts the current list shows. */
    ghost function Stale(): set<Name> {
      MissedNames(source.layers, source.tr)
    }
  }

  ghost predicate Good(t: Table, g: Marks) {
    && Counted(t.caches, t.files, g.held) && Accounted(t.caches, g.freed, t.next)
    && Pointed(t.caches, t.current, t.version) && Placed(t.caches, t.files, g.output)
  }

  predicate HasCurrent(t: Table) {
    t.current.Some? && t.current.value in t.caches && t.caches[t.current.value].version == t.version
  }

  /** The list that is handed out shows what can be looked up, as far as it can. */
  ghost predicate Tracks(m: Mount, u: Node, p: Path, t: Table, g: Marks) {
    HasCurrent(t) ==>
      var list := t.caches[t.current.value].entries;
      Listed(list, g.source.layers, g.source.tr) && TracksList(m, u, p, list, g.made, g.Stale())
  }

  /** The directory, unless it is gone, has lower directories, and the list that is handed out is
      one of its names. */
  ghost predicate Watches(m: Mount, u: Node, path: Option<Path>, t: Table, g: Marks) {
    path.Some? ==> HasLower(m, u, path.value) && Tracks(m, u, path.value, t, g)
  }

  ghost predicate Sound(m: Mount, u: Node, path: Option<Path>, t: Table, g: Marks) {
    Good(t, g) && Watches(m, u, path, t, g)
  }

  // ---------------------------------------------------------------------------------
  // Letting go of a cache

  /** The caches, and the pointer of the inode, after one holder of `c` has let go of it. */
  function PutCaches(caches: Caches, c: CacheId): Caches
    requires c in caches && 0 < caches[c].refcount
  {
    if caches[c].refcount == 1 then caches - {c} else caches[c := caches[c].(refcount := caches[c].refcount - 1)]
  }

  function PutCurrent(caches: Caches, current: Option<CacheId>, c: CacheId): Option<CacheId>
    requires c in caches
  {
    if caches[c].refcount == 1 && current == Some(c) then None else current
  }

  ghost function PutHeld(held: Held, c: CacheId, f: FileId): Held
    requires c in held
  {
    if held[c] == {f} then held - {c} else held[c := held[c] - {f}]
  }

  lemma PutCounted(caches: Caches, files: Files, held: Held, f: FileId, c: CacheId)
    requires Counted(caches, files, held) && f in files && files[f].cache == Some(c)
    ensures Counted(PutCaches(caches, c), files[f := files[f].(cache := None)], PutHeld(held, c, f))
    ensures c in caches && 0 < caches[c].refcount && c in held && (caches[c].refcount == 1 <==> held[c] == {f})
  {
    assert held[c] == held[c] - {f} + {f};
  }

  lemma PutPlaced(caches: Caches, files: Files, held: Held, output: Output, f: FileId, c: CacheId)
    requires Counted(caches, files, held) && Placed(caches, files, output)
    requires f in files && files[f].cache == Some(c) && (files[f].pos == 0 || output[f].None?)
    ensures Placed(PutCaches(caches, c), files[f := files[f].(cache := None)], output)
  {
    var files' := files[f := files[f].(cache := None)];
    PutCounted(caches, files, held, f, c);
    forall g | g in files' ensures PlacedFile(PutCaches(caches, c), files'[g], output[g]) {
      assert PlacedFile(caches, files[g], output[g]);
    }
  }

  lemma PutPointed(caches: Caches, current: Option<CacheId>, version: nat, c: CacheId, freed: set<CacheId>,
                   next: CacheId)
    requires c in caches && 0 < caches[c].refcount
    requires Pointed(caches, current, version) && Accounted(caches, freed, next)
    ensures Pointed(PutCaches(caches, c), PutCurrent(caches, current, c), version)
    ensures Accounted(PutCaches(caches, c), if caches[c].refcount == 1 then freed + {c} else freed, next)
  {
  }

  /** The directory after file `f` has let go of its cache. */
  function PutTable(t: Table, f: FileId): Table
    requires f in t.files && t.files[f].cache.Some? && t.files[f].cache.value in t.caches
    requires 0 < t.caches[t.files[f].cache.value].refcount
  {
    var c := t.files[f].cache.value;
    t.(caches := PutCaches(t.caches, c), current := PutCurrent(t.caches, t.current, c),
       files := t.files[f := t.files[f].(cache := None)])
  }

  ghost function PutMarks(g: Marks, f: FileId, c: CacheId): Marks
    requires c in g.held
  {
    g.(held := PutHeld(g.held, c, f), freed := if g.held[c] == {f} then g.freed + {c} else g.freed)
  }

  lemma PutGood(t: Table, g: Marks, f: FileId, c: CacheId)
    requires Good(t, g) && f in t.files && t.files[f].cache == Some(c)
    requires t.files[f].pos == 0 || g.output[f].None?
    ensures c in t.caches && 0 < t.caches[c].refcount && c in g.held
    ensures Good(PutTable(t, f), PutMarks(g, f, c))
  {
    PutCounted(t.caches, t.files, g.held, f, c);
    PutPlaced(t.caches, t.files, g.held, g.output, f, c);
    PutPointed(t.caches, t.current, t.version, c, g.freed, t.next);
  }

  lemma PutTracks(m: Mount, u: Node, path: Option<Path>, t: Table, g: Marks, f: FileId, c: CacheId)
    requires f in t.files && t.files[f].cache == Some(c) && c in g.held
    requires c in t.caches && 0 < t.caches[c].refcount && Watches(m, u, path, t, g)
    ensures Watches(m, u, path, PutTable(t, f), PutMarks(g, f, c))
  {
  }

  lemma PutSound(m: Mount, u: Node, path: Option<Path>, t: Table, g: Marks, f: FileId, c: CacheId, t': Table, g': Marks)
    requires Sound(m, u, path, t, g) && f in t.files && t.files[f].cache == Some(c)
    requires t.files[f].pos == 0 || g.output[f].None?
    requires c in t.caches && 0 < t.caches[c].refcount && c in g.held
    requires t' == PutTable(t, f) && g' == PutMarks(g, f, c)
    ensures Sound(m, u, path, t', g')
  {
    PutGood(t, g, f, c);
    PutTracks(m, u, path, t, g, f, c);
  }

  /** ovl_cache_put, with the file letting go of the cache: without holders the inode forgets the
      cache and it is freed. */
  method PutCache(t: Table, f: FileId) returns (t': Table)
    requires f in t.files && t.files[f].cache.Some? && t.files[f].cache.value in t.caches
    requires 0 < t.caches[t.files[f].cache.value].refcount
    ensures t' == PutTable(t, f)
  {
    var c := t.files[f].cache.value;
    var caches, current := t.caches[c := t.caches[c].(refcount := t.caches[c].refcount - 1)], t.current;
    if caches[c].refcount == 0 {
      if current == Some(c) {
        current := None;
      }
      caches := caches - {c};
      assert caches == t.caches - {c};
    }
    t' := t.(caches := caches, current := current, files := t.files[f := t.files[f].(cache := None)]);
  }

  // ---------------------------------------------------------------------------------
  // Taking a cache

  /** File `f` holds cache `c`, its cursor where its position says. */
  function AttachFile(caches: Caches, files: Files, f: FileId, c: CacheId): Files
    requires f in files && c in caches
  {
    files[f := files[f].(cache := Some(c), cursor := Min(files[f].pos, |caches[c].entries|))]
  }

  /** The current list gets one more holder. */
  function HitTable(t: Table, f: FileId): Table
    requires HasCurrent(t) && f in t.files
  {
    var c := t.current.value;
    t.(caches := t.caches[c := t.caches[c].(refcount := t.caches[c].refcount + 1)],
       files := AttachFile(t.caches, t.files, f, c))
  }

  ghost function HitMarks(t: Table, g: Marks, f: FileId): Marks
    requires HasCurrent(t) && t.current.value in g.held
  {
    g.(held := g.held[t.current.value := g.held[t.current.value] + {f}])
  }

  lemma HitCounted(t: Table, g: Marks, f: FileId)
    requires Counted(t.caches, t.files, g.held) && HasCurrent(t) && f in t.files && t.files[f].cache.None?
    ensures t.current.value in g.held
    ensures Counted(HitTable(t, f).caches, HitTable(t, f).files, HitMarks(t, g, f).held)
  {
    assert f !in g.held[t.current.value];
  }

  lemma HitPlaced(t: Table, g: Marks, f: FileId)
    requires Placed(t.caches, t.files, g.output) && HasCurrent(t) && f in t.files && t.files[f].cache.None?
    ensures Placed(HitTable(t, f).caches, HitTable(t, f).files, g.output)
  {
    var t' := HitTable(t, f);
    forall h | h in t'.files ensures PlacedFile(t'.caches, t'.files[h], g.output[h]) {
      assert PlacedFile(t.caches, t.files[h], g.output[h]);
    }
  }

  lemma HitGood(t: Table, g: Marks, f: FileId)
    requires Good(t, g) && HasCurrent(t) && f in t.files && t.files[f].cache.None?
    ensures t.current.value in g.held && Good(HitTable(t, f), HitMarks(t, g, f))
  {
    HitCounted(t, g, f);
    HitPlaced(t, g, f);
  }

  /** A new list becomes the current one, held by `f`. */
  function MissTable(t: Table, f: FileId, list: seq<Entry>): Table
    requires f in t.files
  {
    var caches := t.caches[t.next := Cache(1, t.version, list)];
    Table(t.version, Some(t.next), caches, AttachFile(caches, t.files, f, t.next), t.next + 1)
  }

  ghost function MissMarks(t: Table, g: Marks, f: FileId, source: Source): Marks {
    g.(held := g.held[t.next := {f}], made := {}, source := source)
  }

  lemma MissCounted(t: Table, g: Marks, f: FileId, list: seq<Entry>)
    requires Counted(t.caches, t.files, g.held) && Accounted(t.caches, g.freed, t.next)
    requires f in t.files && t.files[f].cache.None?
    ensures var t' := MissTable(t, f, list);
            Counted(t'.caches, t'.files, MissMarks(t, g, f, g.source).held) && Accounted(t'.caches, g.freed, t'.next)
  {
    assert t.next !in t.caches;
  }

  lemma MissPlaced(t: Table, g: Marks, f: FileId, list: seq<Entry>)
    requires Placed(t.caches, t.files, g.output) && t.next !in t.caches && f in t.files && t.files[f].cache.None?
    requires Distinct(NamesOf(list))
    ensures Placed(MissTable(t, f, list).caches, MissTable(t, f, list).files, g.output)
  {
    var t' := MissTable(t, f, list);
    forall h | h in t'.files ensures PlacedFile(t'.caches, t'.files[h], g.output[h]) {
      assert PlacedFile(t.caches, t.files[h], g.output[h]);
    }
  }

  lemma MissGood(t: Table, g: Marks, f: FileId, list: seq<Entry>, source: Source)
    requires Good(t, g) && !HasCurrent(t) && f in t.files && t.files[f].cache.None? && Distinct(NamesOf(list))
    ensures Good(MissTable(t, f, list), MissMarks(t, g, f, source))
  {
    MissCounted(t, g, f, list);
    MissPlaced(t, g, f, list);
  }

  /** Reading failed: the new cache is freed and the inode has none. */
  lemma FailGood(t: Table, g: Marks)
    requires Good(t, g) && !HasCurrent(t)
    ensures Good(t.(current := None, next := t.next + 1), g.(freed := g.freed + {t.next}))
  {
  }

  /** ovl_seek_cursor: the entry at position `pos`, or the end. */
  method SeekCursor(list: seq<Entry>, pos: nat) returns (cursor: nat)
    ensures cursor == Min(pos, |list|)
  {
    cursor := 0;
    var off := 0;
    while cursor < |list|
      invariant off == cursor <= |list| && off <= pos
    {
      if off >= pos { break; }
      off := off + 1;
      cursor := cursor + 1;
    }
  }

  /** The loop of ovl_iterate: entries that are not whiteouts are handed to the reader until it
      has no more room, an inode number cannot be found out, or the list ends. */
  method Emit(list: seq<Entry>, start: nat) returns (e: Errno, full: bool, cursor: nat, names: seq<Name>)
    requires start <= |list|
    ensures start <= cursor <= |list| && names == Shown(list[start..cursor])
    ensures e == OK && !full ==> cursor == |list|
  {
    cursor, names, full := start, [], false;
    while cursor < |list|
      invariant start <= cursor <= |list| && names == Shown(list[start..cursor])
    {
      if !list[cursor].isWhite {
        var broken: bool := *;
        if broken { return EIO, false, cursor, names; }
        full := *;
        if full { return OK, true, cursor, names; }
        names := names + [list[cursor].name];
      }
      assert list[start..cursor + 1][..cursor - start] == list[start..cursor];
      cursor := cursor + 1;
    }
    return OK, false, cursor, names;
  }

  function Appended(out: Option<seq<Name>>, names: seq<Name>): (r: Option<seq<Name>>)
    ensures names == [] ==> r == out
  {
    if out.None? then None else assert names == [] ==> out.value + names == out.value; Some(out.value + names)
  }

  /** From its old to its new position the file has returned what the list shows there. */
  ghost predicate Returned(list: seq<Entry>, file: File, file': File, names: seq<Name>) {
    var start := Min(file.pos, |list|);
    && start <= file'.cursor <= |list| && file'.pos == file.pos + file'.cursor - start
    && names == Shown(list[start..file'.cursor])
  }

  /** A file that returned `out` up to its cursor and then `names` has returned all up to there. */
  lemma Advanced(list: seq<Entry>, file: File, out: Option<seq<Name>>, cursor: nat)
    requires PlacedIn(list, file, out) && file.cursor <= cursor <= |list|
    ensures PlacedIn(list, file.(cursor := cursor, pos := file.pos + cursor - file.cursor),
                     Appended(out, Shown(list[file.cursor..cursor])))
  {
    ShownConcat(list[..file.cursor], list[file.cursor..cursor]);
    assert list[..file.cursor] + list[file.cursor..cursor] == list[..cursor];
  }

  /** A file that is moved to `target`: after a rewind it has returned nothing yet. */
  ghost function SeekOutput(file: File, out: Option<seq<Name>>, target: nat): Option<seq<Name>> {
    if target == 0 then Some([]) else if target == file.pos then out else None
  }

  lemma SeekPlaced(caches: Caches, file: File, out: Option<seq<Name>>, target: nat)
    requires PlacedFile(caches, file, out)
    ensures file.cache.None? ==>
              PlacedFile(caches, file.(pos := target), SeekOutput(file, out, target))
    ensures file.cache.Some? ==>
              file.cache.value in caches &&
              PlacedFile(caches, file.(pos := target, cursor := Min(target, |caches[file.cache.value].entries|)),
                         SeekOutput(file, out, target))
  {
  }

  // ---------------------------------------------------------------------------------
  // What an operation does to the cached listing

  /** Is the directory, now at `q`, told of the event? */
  predicate Told(m: Mount, v: Node, e: Event, p: Path, q: Path) {
    p in Noted(e) && Merging(At(m, v, q))
  }

  function TableAfter(t: Table, told: bool): Table {
    if told then t.(version := t.version + 1) else t
  }

  ghost function MarksAfter(g: Marks, e: Event, p: Path, told: bool): Marks {
    if told then g.(made := {}, source := g.source.(layers := []))
    else if e.Make? && p in Touched(e) then g.(made := g.made + {Last(e.path)})
    else g
  }

  /** What becomes of the directory, its version and its lists when `e` happens. */
  ghost predicate Noticed(m: Mount, v: Node, e: Event, path: Option<Path>, t: Table, g: Marks,
                          path': Option<Path>, t': Table, g': Marks)
  {
    && path' == (if path.None? then None else Trace(m, v, path.value, e))
    && (if path'.None? then t' == t
        else
          var told := Told(m, v, e, path.value, path'.value);
          t' == TableAfter(t, told) && g' == MarksAfter(g, e, path.value, told))
  }

  lemma AfterGood(t: Table, g: Marks, e: Event, p: Path, told: bool)
    requires Good(t, g)
    ensures Good(TableAfter(t, told), MarksAfter(g, e, p, told)) && (told ==> !HasCurrent(TableAfter(t, told)))
  {
  }

  /** Whatever happens, the list that is handed out shows what can be looked up as far as it can:
      the directory is told of everything but objects that were made by a call that failed. */
  lemma AfterTracks(m: Mount, u: Node, v: Node, e: Event, p: Path, t: Table, g: Marks)
    requires Happens(m, u, v, e) && HasLower(m, u, p) && Trace(m, v, p, e).Some?
    requires Good(t, g) && Tracks(m, u, p, t, g)
    ensures var q := Trace(m, v, p, e).value;
      var told := Told(m, v, e, p, q);
      Tracks(m, v, q, TableAfter(t, told), MarksAfter(g, e, p, told))
  {
    var q := Trace(m, v, p, e).value;
    var told := Told(m, v, e, p, q);
    AfterGood(t, g, e, p, told);
    if !told && HasCurrent(t) {
      var list := t.caches[t.current.value].entries;
      if p in Touched(e) {
        TouchedIsMerging(m, u, v, e, p);
        MadeTracks(m, u, v, e, p, list, g.made, g.Stale());
      } else {
        NamesStay(m, u, v, e, p);
        SameTracks(m, u, p, v, q, list, g.made, g.Stale());
      }
    }
  }

  lemma AfterSound(m: Mount, u: Node, v: Node, e: Event, p: Path, t: Table, g: Marks, told: bool, t': Table, g': Marks)
    requires Happens(m, u, v, e) && Sound(m, u, Some(p), t, g) && Trace(m, v, p, e).Some?
    requires told == Told(m, v, e, p, Trace(m, v, p, e).value)
    requires t' == TableAfter(t, told) && g' == MarksAfter(g, e, p, told)
    ensures Sound(m, v, Trace(m, v, p, e), t', g')
  {
    TraceSpot(m, u, v, e, p);
    AfterGood(t, g, e, p, told);
    AfterTracks(m, u, v, e, p, t, g);
  }

  /** Of an object that is made by a call that tells the directory, as every call that succeeds
      does, and of everything else that happens, the directory is told. */
  lemma ToldOfAll(m: Mount, u: Node, v: Node, e: Event, p: Path, g: Marks)
    requires Happens(m, u, v, e) && HasLower(m, u, p) && Trace(m, v, p, e).Some? && (e.Make? ==> e.noted)
    ensures var g' := MarksAfter(g, e, p, Told(m, v, e, p, Trace(m, v, p, e).value));
      g'.made <= g.made && g'.Stale() <= g.Stale()
  {
    if p in Touched(e) {
      TouchedIsMerging(m, u, v, e, p);
    }
  }

  lemma SameTracks(m: Mount, u: Node, p: Path, v: Node, q: Path, list: seq<Entry>, made: set<Name>, stale: set<Name>)
    requires TracksList(m, u, p, list, made, stale) && SameNames(m, u, p, v, q)
    ensures TracksList(m, v, q, list, made, stale)
  {
    forall n: Name | !IsDot(n)
      ensures HasName(m, u, p, n) <==> HasName(m, v, q, n)
    {
    }
  }

  lemma MadeTracks(m: Mount, u: Node, v: Node, e: Event, p: Path, list: seq<Entry>, made: set<Name>, stale: set<Name>)
    requires e.Make? && Happens(m, u, v, e) && p == Parent(e.path) && TracksList(m, u, p, list, made, stale)
    ensures TracksList(m, v, p, list, made + {Last(e.path)}, stale)
  {
    forall n: Name | !IsDot(n)
      ensures HasName(m, v, p, n) <==> HasName(m, u, p, n) || n == Last(e.path)
      ensures !HasName(m, u, p, Last(e.path))
    {
      NameMade(m, u, v, e, p, n);
    }
  }

  class MergedDir {
    const m: Mount
    var path: Option<Path>
    var upper: Node
    var t: Table
    ghost var g: Marks

    ghost predicate Valid()
      reads this
    {
      m.Valid() && upper.Dir? && Sound(m, upper, path, t, g)
    }

    constructor (m: Mount, p: Path, upper: Node)
      requires m.Valid() && upper.Dir? && Merging(At(m, upper, p))
      ensures Valid() && this.m == m && path == Some(p) && this.upper == upper && t == Table(0, None, map[], map[], 0)
    {
      this.m, path, this.upper := m, Some(p), upper;
      t, g := Table(0, None, map[], map[], 0), Marks(map[], {}, map[], {}, Source([], Trouble({}, {}, {})));
    }

    /** An operation somewhere in the overlay.  The directory stays what it is wherever it is
        moved, until it is removed, overwritten or replaced; its version is counted up if it is
        told. */
    method After(e: Event, v: Node)
      requires Valid() && Happens(m, upper, v, e)
      modifies this
      ensures Valid() && upper == v && Noticed(m, v, e, old(path), old(t), old(g), path, t, g)
    {
      if path.Some? {
        var p := path.value;
        path := Trace(m, v, p, e);
        if path.Some? {
          var told := Told(m, v, e, p, path.value);
          ghost var t0, g0 := t, g;
          g := MarksAfter(g, e, p, told);
          if told {
            t := t.(version := t.version + 1);
          }
          AfterSound(m, upper, v, e, p, t0, g0, told, t, g);
        }
      }
      upper := v;
    }

    method Open(f: FileId)
      requires Valid() && f !in t.files
      modifies this`t, this`g
      ensures Valid() && t == old(t).(files := old(t.files)[f := File(None, 0, 0)])
    {
      OpenKeeps(t.caches, t.files, g.held, g.output, f);
      t, g := t.(files := t.files[f := File(None, 0, 0)]), g.(output := g.output[f := Some([])]);
    }

    /** Whoever lets go last frees the cache. */
    method Put(f: FileId)
      requires Valid() && f in t.files && t.files[f].cache.Some? && (t.files[f].pos == 0 || g.output[f].None?)
      modifies this`t, this`g
      ensures Valid() && t == PutTable(old(t), f) && g == PutMarks(old(g), f, old(t).files[f].cache.value)
    {
      var c := t.files[f].cache.value;
      PutCounted(t.caches, t.files, g.held, f, c);
      ghost var t0, g0 := t, g;
      g := PutMarks(g, f, c);
      t := PutCache(t, f);
      PutSound(m, upper, path, t0, g0, f, c, t, g);
    }

    /** The file takes the current list. */
    method Take(f: FileId)
      requires Valid() && HasCurrent(t) && f in t.files && t.files[f].cache.None?
      modifies this`t, this`g
      ensures Valid() && t == HitTable(old(t), f) && old(t.current.value in g.held) && g == old(HitMarks(t, g, f))
    {
      var c := t.current.value;
      HitGood(t, g, f);
      g := HitMarks(t, g, f);
      var cursor := SeekCursor(t.caches[c].entries, t.files[f].pos);
      t := t.(caches := t.caches[c := t.caches[c].(refcount := t.caches[c].refcount + 1)],
              files := t.files[f := t.files[f].(cache := Some(c), cursor := cursor)]);
    }

    /** The layers are read, which works iff none is broken, and the file takes the new list. */
    method Renew(f: FileId, tr: Trouble) returns (e: Errno)
      requires Valid() && path.Some? && !HasCurrent(t) && f in t.files && t.files[f].cache.None?
      modifies this`t, this`g
      ensures Valid() && t.version == old(t.version) && g.output == old(g.output)
      ensures e == OK <==> AllRead(At(m, upper, path.value), tr)
      ensures e == OK ==>
        && HasCurrent(t) && t.files == AttachFile(t.caches, old(t.files), f, t.current.value)
        && g.made == {} && g.source == Source(LayersOf(At(m, upper, path.value)), tr)
      ensures e != OK ==> t.files == old(t.files)
    {
      AtGood(m, upper, path.value);
      var ok, list, _ := ReadMerged(At(m, upper, path.value), tr);
      if !ok {
        FailGood(t, g);
        g := g.(freed := g.freed + {t.next});
        t := t.(current := None, next := t.next + 1);
        return EIO;
      }
      ghost var source := Source(LayersOf(At(m, upper, path.value)), tr);
      FreshTracks(m, upper, path.value, list, tr);
      MissGood(t, g, f, list, source);
      g := MissMarks(t, g, f, source);
      var cursor := SeekCursor(list, t.files[f].pos);
      t := Table(t.version, Some(t.next), t.caches[t.next := Cache(1, t.version, list)],
                 t.files[f := t.files[f].(cache := Some(t.next), cursor := cursor)], t.next + 1);
      e := OK;
    }

    /** ovl_cache_get, with the file taking the cache and seeking in it: the current list if the
        directory has not been told of a change since it was read, else a new one. */
    method Get(f: FileId, tr: Trouble) returns (e: Errno)
      requires Valid() && path.Some? && f in t.files && t.files[f].cache.None?
      modifies this`t, this`g
      ensures Valid() && t.version == old(t.version)
      ensures e == OK <==> old(HasCurrent(t)) || AllRead(At(m, upper, path.value), tr)
      ensures e == OK ==> HasCurrent(t) && t.files == AttachFile(t.caches, old(t.files), f, t.current.value)
      ensures e == OK ==> (UpToDate(m, upper, path.value, t.caches[t.current.value].entries) <==> g.made == g.Stale())
      ensures e == OK && !old(HasCurrent(t)) ==>
        g.made == {} && g.source == Source(LayersOf(At(m, upper, path.value)), tr)
      ensures old(HasCurrent(t)) ==> g.made == old(g.made) && g.source == old(g.source)
      ensures e != OK ==> t.files == old(t.files)
      ensures g.output == old(g.output)
    {
      if HasCurrent(t) {
        Take(f);
        e := OK;
      } else {
        e := Renew(f, tr);
      }
      if e == OK {
        TracksExactly(m, upper, path.value, t.caches[t.current.value].entries, g.made, g.Stale());
      }
    }

    /** ovl_dir_reset: at the start of a file a list of an older version is dropped. */
    method Reset(f: FileId)
      requires Valid() && f in t.files && t.files[f].pos == 0
      modifies this`t, this`g
      ensures Valid() && t.version == old(t.version) && g.made == old(g.made) && g.source == old(g.source)
      ensures t == old(t) || (old(t.files[f].cache).Some? && t == PutTable(old(t), f))
      ensures g.output == old(g.output)
      ensures t.files[f].cache.Some? ==> HasCurrent(t) && t.current == t.files[f].cache
    {
      var file := t.files[f];
      if file.cache.Some? && t.version != t.caches[file.cache.value].version {
        Put(f);
      }
    }

    /** The file is moved to `pos` in its list, where it has returned `out` if it was rewound. */
    method Place(f: FileId, file: File, ghost out: Option<seq<Name>>)
      requires Valid() && f in t.files && file.cache == t.files[f].cache && PlacedFile(t.caches, file, out)
      modifies this`t, this`g
      ensures Valid() && t == old(t).(files := old(t.files)[f := file])
      ensures g == old(g).(output := old(g.output)[f := out])
    {
      PlaceGood(t, g, f, file, out);
      t, g := t.(files := t.files[f := file]), g.(output := g.output[f := out]);
    }

    /** The file goes on reading the list it holds. */
    method ReadOn(f: FileId) returns (e: Errno, full: bool, names: seq<Name>)
      requires Valid() && f in t.files && t.files[f].cache.Some?
      modifies this`t, this`g
      ensures Valid() && f in t.files && t == old(t).(files := old(t.files)[f := t.files[f]])
      ensures g.made == old(g.made) && g.source == old(g.source)
      ensures t.files[f].cache == old(t.files[f].cache)
      ensures Returned(t.caches[t.files[f].cache.value].entries, old(t.files[f]), t.files[f], names)
      ensures e == OK && !full ==> t.files[f].cursor == |t.caches[t.files[f].cache.value].entries|
      ensures g.output[f] == Appended(old(g.output[f]), names)
    {
      var file := t.files[f];
      var list := t.caches[file.cache.value].entries;
      ghost var out := g.output[f];
      assert PlacedFile(t.caches, file, out);
      var cursor;
      e, full, cursor, names := Emit(list, file.cursor);
      Advanced(list, file, out, cursor);
      Place(f, file.(cursor := cursor, pos := file.pos + cursor - file.cursor),
            Appended(out, names));
    }

    /** The first part of ovl_iterate: the file holds a list, at the start a current one. */
    method Prepare(f: FileId, tr: Trouble) returns (e: Errno)
      requires Valid() && path.Some? && f in t.files
      modifies this`t, this`g
      ensures Valid() && t.version == old(t.version) && f in t.files && t.files[f].pos == old(t.files[f].pos)
      ensures g.output == old(g.output)
      ensures e == OK <==> t.files[f].cache.Some?
      ensures t.files[f].cache.Some? && old(t.files[f].pos) == 0 ==> HasCurrent(t) && t.current == t.files[f].cache
    {
      if t.files[f].pos == 0 {
        Reset(f);
      }
      e := OK;
      if t.files[f].cache.None? {
        e := Get(f, tr);
      }
    }

    /** ovl_iterate; a directory that is gone cannot be read any more. */
    method Iterate(f: FileId, tr: Trouble) returns (e: Errno, full: bool, names: seq<Name>)
      requires Valid() && f in t.files
      modifies this`t, this`g
      ensures Valid() && t.version == old(t.version) && f in t.files
      ensures path.None? ==> e == ENOENT && names == [] && t == old(t)
      ensures t.files[f].cache.None? ==> e != OK && names == [] && t.files[f].pos == old(t.files[f].pos)
      ensures path.Some? && t.files[f].cache.Some? ==>
                Returned(t.caches[t.files[f].cache.value].entries, old(t.files[f]), t.files[f], names)
      ensures path.Some? && t.files[f].cache.Some? && e == OK && !full ==>
                t.files[f].cursor == |t.caches[t.files[f].cache.value].entries|
      ensures path.Some? && old(t.files[f].pos) == 0 && t.files[f].cache.Some? ==>
                HasCurrent(t) && t.current == t.files[f].cache
      ensures g.output[f] == Appended(old(g.output[f]), names)
    {
      full, names := false, [];
      if path.None? {
        return ENOENT, false, [];
      }
      e := Prepare(f, tr);
      if e == OK {
        e, full, names := ReadOn(f);
      }
    }

    /** ovl_dir_llseek: to `offset`, or on by `offset`. */
    method Seek(f: FileId, offset: int, relative: bool) returns (r: Option<nat>)
      requires Valid() && f in t.files
      modifies this`t, this`g
      ensures Valid() && t.version == old(t.version) && f in t.files
      ensures var target := if relative then offset + old(t.files[f].pos) else offset;
        && r == (if target < 0 then None else Some(target))
        && t.files[f].pos == if target < 0 then old(t.files[f].pos) else target
      ensures r == Some(0) ==> g.output[f] == Some([])
    {
      if t.files[f].pos == 0 {
        Reset(f);
      }
      var target := if relative then offset + t.files[f].pos else offset;
      if target < 0 { return None; }
      var file := t.files[f];
      assert PlacedFile(t.caches, file, g.output[f]);
      SeekPlaced(t.caches, file, g.output[f], target);
      ghost var out := SeekOutput(file, g.output[f], target);
      if target != file.pos {
        file := file.(pos := target);
        if file.cache.Some? {
          var cursor := SeekCursor(t.caches[file.cache.value].entries, target);
          file := file.(cursor := cursor);
        }
      }
      Place(f, file, out);
      return Some(target);
    }

    /** The file lets go of its list, wherever it is in it. */
    method LetGo(f: FileId)
      requires Valid() && f in t.files
      modifies this`t, this`g
      ensures Valid() && t.version == old(t.version) && f in t.files && t.files[f].cache.None?
      ensures t.files == old(t.files)[f := t.files[f]]
    {
      if t.files[f].cache.Some? {
        ForgetGood(t, g, f);
        g := g.(output := g.output[f := None]);
        Put(f);
      }
    }

    /** ovl_dir_release. */
    method Release(f: FileId)
      requires Valid() && f in t.files
      modifies this`t, this`g
      ensures Valid() && t.version == old(t.version) && t.files == old(t.files) - {f}
    {
      LetGo(f);
      CloseGood(t, g, f);
      t, g := t.(files := t.files - {f}), g.(output := g.output - {f});
    }
  }

  lemma ForgetGood(t: Table, g: Marks, f: FileId)
    requires Good(t, g) && f in t.files
    ensures Good(t, g.(output := g.output[f := None]))
  {
    assert PlacedFile(t.caches, t.files[f], g.output[f]);
  }

  lemma CloseGood(t: Table, g: Marks, f: FileId)
    requires Good(t, g) && f in t.files && t.files[f].cache.None?
    ensures Good(t.(files := t.files - {f}), g.(output := g.output - {f}))
  {
  }

  lemma PlaceGood(t: Table, g: Marks, f: FileId, file: File, out: Option<seq<Name>>)
    requires Good(t, g) && f in t.files && file.cache == t.files[f].cache && PlacedFile(t.caches, file, out)
    ensures Good(t.(files := t.files[f := file]), g.(output := g.output[f := out]))
  {
  }

  // ---------------------------------------------------------------------------------
  // What it means

  /** A file that was rewound, not moved since and is at the end has returned every entry of its
      list that is not a whiteout, once, in the order of the list; if the list is the current
      one these are the names that can be looked up, exactly when the names the directory was not
      told of are the whiteouts whose type was not reported or whose lookup failed when the list was
      read: as a rule, when there are none. */
  lemma WholeListing(m: Mount, u: Node, p: Path, t: Table, g: Marks, f: FileId)
    requires Good(t, g) && Tracks(m, u, p, t, g) && f in t.files && t.files[f].cache.Some? && g.output[f].Some?
    requires t.files[f].cache.value in t.caches && t.files[f].cursor == |t.caches[t.files[f].cache.value].entries|
    ensures var out := g.output[f].value;
      && out == Shown(t.caches[t.files[f].cache.value].entries) && Distinct(out)
      && (HasCurrent(t) && t.current == t.files[f].cache ==>
            ((forall n :: !IsDot(n) ==> (n in out <==> HasName(m, u, p, n))) <==> g.made == g.Stale()))
  {
    var list, out := t.caches[t.files[f].cache.value].entries, g.output[f].value;
    assert PlacedFile(t.caches, t.files[f], g.output[f]);
    assert list[..|list|] == list;
    ShownDistinct(list);
    forall n: Name
      ensures n in out <==> Shows(list, n)
    {
      ShownHas(list, n);
    }
    if HasCurrent(t) && t.current == t.files[f].cache {
      TracksExactly(m, u, p, list, g.made, g.Stale());
    }
  }

  /** In particular: if every type was reported and every lookup worked, exactly when the directory
      was told of everything. */
  lemma ClearWholeListing(m: Mount, u: Node, p: Path, t: Table, g: Marks, f: FileId)
    requires Good(t, g) && Tracks(m, u, p, t, g) && f in t.files && t.files[f].cache.Some? && g.output[f].Some?
    requires t.files[f].cache.value in t.caches && t.files[f].cursor == |t.caches[t.files[f].cache.value].entries|
    requires HasCurrent(t) && t.current == t.files[f].cache && g.source.tr.Clear()
    ensures (forall n :: !IsDot(n) ==> (n in g.output[f].value <==> HasName(m, u, p, n))) <==> g.made == {}
  {
    WholeListing(m, u, p, t, g, f);
    ClearMissesNone(g.source.layers, g.source.tr);
    assert g.Stale() == {};
  }

  lemma HeldMeansOpen(caches: Caches, files: Files, held: Held, c: CacheId)
    requires Counted(caches, files, held) && c in caches
    ensures exists f :: f in files && files[f].cache == Some(c)
  {
    assert |held[c]| > 0;
    var f :| f in held[c];
    assert f in files;
  }

  /** When no file is open every cache ever allocated has been freed, and the inode points to
      none. */
  lemma NothingLeft(t: Table, g: Marks)
    requires Good(t, g) && t.files == map[]
    ensures t.caches == map[] && t.current.None? && forall c: CacheId :: c < t.next <==> c in g.freed
  {
    if t.caches != map[] {
      var c :| c in t.caches;
      HeldMeansOpen(t.caches, t.files, g.held, c);
      assert false;
    }
  }

  /** An object that is made without the directory being told makes every list wrong that was
      right. */
  lemma LostObject(m: Mount, u: Node, v: Node, e: Event, list: seq<Entry>)
    requires e.Make? && Happens(m, u, v, e) && UpToDate(m, u, Parent(e.path), list)
    ensures !UpToDate(m, v, Parent(e.path), list)
  {
    NameMade(m, u, v, e, Parent(e.path), Last(e.path));
  }

  /** For instance: the root of an overlay of two empty layers is read, and then any object is made
      there by a call that fails and does not tell the root. */
  lemma LostObjectExample(x: Node, tr: Trouble)
    requires OverlayFs.IsNew(x)
    ensures var empty := Dir(0, false, None, false, map[]);
      var m, v := Mount([empty], true, true), Put(empty, ["a"], Some(x));
      var list := [Entry(".", true, false), Entry("..", true, false)];
      && Merging(At(m, empty, [])) && Listed(list, LayersOf(At(m, empty, [])), tr)
      && Happens(m, empty, v, Make(["a"], x, false))
      && UpToDate(m, empty, [], list) && !UpToDate(m, v, [], list)
  {
    var empty := Dir(0, false, None, false, map[]);
    var a: Name := "a";
    var m, v, e := Mount([empty], true, true), Put(empty, [a], Some(x)), Make([a], x, false);
    var list := [Entry(".", true, false), Entry("..", true, false)];
    EmptyListed(m, empty, list, tr);
    EmptyMake(m, empty, a, x);
    assert Parent([a]) == [];
    LostObject(m, empty, v, e, list);
  }

  lemma EmptyMake(m: Mount, empty: Node, a: Name, x: Node)
    requires empty == Dir(0, false, None, false, map[]) && OverlayFs.IsNew(x) && !IsDot(a) && !HasName(m, empty, [], a)
    ensures Happens(m, empty, Put(empty, [a], Some(x)), Make([a], x, false))
  {
    assert [] + [a] == [a] && Parent([a]) == [] && Last([a]) == a;
    OverlayFs.NewEntry(m, empty, [a], x);
  }

  lemma EmptyListed(m: Mount, empty: Node, list: seq<Entry>, tr: Trouble)
    requires empty == Dir(0, false, None, false, map[]) && m == Mount([empty], true, true)
    requires list == [Entry(".", true, false), Entry("..", true, false)]
    ensures Listed(list, LayersOf(At(m, empty, [])), tr) && UpToDate(m, empty, [], list)
    ensures forall n :: !IsDot(n) ==> !HasName(m, empty, [], n)
  {
    var ls := [Layer(empty, true), Layer(empty, false)];
    assert LayersOf(At(m, empty, [])) == ls;
    var names := NamesOf(list);
    assert names[0] == "." && names[1] == "..";
    forall n
      ensures TopIn(ls, tr, n) == if IsDot(n) then Some(Entry(n, true, false)) else None
    {
      TwoLayers(empty, empty, n);
    }
    ListedFrom(list, ls, tr);
    FreshTracks(m, empty, [], list, tr);
    assert MissedNames(ls, tr) == {};
    TracksExactly(m, empty, [], list, {}, {});
  }
}
