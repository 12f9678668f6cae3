# Union file system and container environment: a verified model

This project models the kernel file system in `overlayfs/` (an overlay file system extended
with a "simp" mode that copies every opened object up) and the environment merge in
`engine/container/env.go`, and proves what they promise. All files are given to Dafny together
(`dafny verify dfyconfig.toml`).

An overlay shows one tree, merged from a writable upper layer and a list of read-only lower
layers. A directory merges the directories of all layers at its path; whiteouts and opaque
marks hide what is below; a redirect mark tells where the lower part of a moved directory is.

How the files fit together:

- `names`, `layers`, `lookup`: path texts and redirect marks, directory trees, and merged lookup
  as total functions (verdict on one entry, walk of a path in one layer, loop over the layers).
- `lookup_laws`, `lookup_closed`, `lookup_nofollow`: stacks are ordered by layer;
  component-by-component lookup and the absolute walk agree for all lower layers; closed form for
  layers without redirects, whether or not redirects are followed.
- `lookup_code`: the code on character strings, flags, lengths and the stack array, proved
  against those functions.
- `merged`, `resolved`, `located`, `spots`: the merged tree. A *spot* is what stands at a path:
  what is seen, the lower directories it merges with, and its lower path.
- `namespace_laws`, `rename_laws`: what one change of the upper layer means for all spots.
- `overlay`: copy up, remove, create, rename and open as methods of a class over the upper layer
  and the work directory. Every primitive may fail. A ghost trail records every state the upper
  layer passes through, so contracts speak about each intermediate state as well as the result.
- `runs`: whole runs of renames, and of opens in simp mode.
- `redirect_text`, `copy_data`: the buffer a redirect is built in, and the copy loop for data.
- `search_tree`, `readdir`: the search tree, and the merged listing read from it. Which layers
  cannot be read, which types are not reported and which lookups of possible whiteouts fail are
  inputs.
- `dir_events`, `dir_cache`, `watched`: what every operation does to the names of a merged
  directory and which directories it tells; the shared, counted cache of a listing with its
  cursors; and an overlay run together with an open directory in it.
- `copyup_protocol`: concurrent copy up as a transition system over any number of threads.
- `nlink`: the link count record of indexed hard links.
- `xino`: numbering of file systems and unique inode numbers.
- `env`: merge of default and overriding environment entries.

Where a promise does not hold of the code, the exact condition under which it holds is proved:

- Component-by-component lookup can fail where the absolute walk succeeds; it fails exactly when
  the walk to the path or to an ancestor fails (`ByComponentFails`, `AncestorFaultExample`).
- A listing shows a whiteout as a name if its type is not reported or its lookup fails, and a
  directory is then refused as not empty although it is; it shows exactly the names lookup finds
  and those whiteouts (`ListingIsLookup`, `ClearListing`, `CheckEmptyDir`, `MissedExample`).
- A create can fail although the object was made and stays, and before its parent is told, so a
  cached listing misses the name. A listing is right exactly when the names that came that way
  since it was read are the whiteouts it did not recognise (`TracksExactly`, `WholeListing`,
  `ClearWholeListing`, `LostObjectExample`); everything else a directory is told (`ToldOfAll`).
- A failed rename can leave the empty directory it was to overwrite opaque, so that it merges with
  nothing any more; no other failure touches a merged directory (`MergedDirsStay`).
- A directory that merges with nothing and is moved without an opaque mark is renamed rightly
  exactly when a lookup finds no lower directories at the new name (`UnmarkedMove`).
- A hard link made over a whiteout is first a link in the work directory. Until it is renamed the
  stored link count reads one too many, and if it can neither be renamed nor removed, records
  written meanwhile read too low after the next mount. Records are right exactly when no link of
  the object came to or left the work directory since they were written (`ExactMeansTrue`,
  `Link`, `Remount`).
- A data copy succeeds with fewer bytes than asked for when the file has become shorter
  (`CopyUpData`, `ShortFileExample`).
- An environment key removed by a bare name survives if it has an earlier default, or if it has
  no default and was assigned by an override (`BareNameRemoves`, `BareNameExample`).

## Model

| member | source | states |
|---|---|---|
| `Names.SplitJoin` | overlayfs/namei.c:29-93 | every path text built from components is accepted by the redirect reader and read back as the same components |
| `Names.SplitSound` | overlayfs/namei.c:29-93 | conversely every accepted absolute text is exactly the joined text of the components read, so no other spelling is accepted |
| `Names.ParseText` | overlayfs/dir.c:925-952 | every redirect mark that is written, relative or absolute, passes the reader's validity checks and means what was written |
| `Names.TextParse` | overlayfs/namei.c:29-93 | an accepted mark is the text of what it means, so two accepted marks with the same meaning are the same text |
| `LookupLaws.ThroughGood` | overlayfs/namei.c:889-969 | for every start state the layer loop builds a stack with strictly increasing layer indices, directories only (or the one file found first), even when it switches to the root stack and resets its index |
| `LookupLaws.GoodStackFits` | overlayfs/namei.c:889-969 | such a stack is never longer than the number of lower layers |
| `LookupLaws.WalkSnoc` | overlayfs/namei.c:295-333 | walking one component further in a layer is walking the prefix and judging the last component in the directory it ends in, although redirects rewrite the path on the way |
| `LookupLaws.JudgeTail` | overlayfs/namei.c:29-93 | rewriting the path in mid-walk leaves the components still to come in place |
| `LookupLaws.ChildWalk` | overlayfs/namei.c:889-969 | simulation: looking a child up through the stack its parent was found in equals continuing the absolute walk to the child, layer by layer, for all lower layers |
| `LookupLaws.ChildOfLoc` | overlayfs/namei.c:889-969 | looking a name up in the stack an absolute path leads to gives the stack the extended path leads to, redirects in lower layers included |
| `LookupLaws.ByComponentIsWalk` | overlayfs/namei.c:226-333 | whenever component-by-component lookup succeeds, the absolute walk from the root finds the same stack, for all lower layers with or without redirects, opaque marks and whiteouts |
| `LookupLaws.ByComponentFails` | overlayfs/namei.c:889-969 | component-by-component lookup fails exactly when the absolute walk to the path or to one of its ancestors fails |
| `LookupClosed.WalkClosed` | overlayfs/namei.c:295-333 | in a layer without redirects the walk of a path fails, finds a directory and hides lower layers exactly as the closed form says |
| `LookupClosed.ContributionsAre` | overlayfs/namei.c:889-969 | a layer is in the closed form iff it has directories all along the path and no layer above it hides the path by a whiteout, a non-directory or an opaque mark at a prefix |
| `LookupClosed.PathStackClosed` | overlayfs/namei.c:889-969 | with redirect-free lower layers the stack found for a path equals the closed form, ordered by layer, and lookup fails iff a reached layer fails |
| `LookupNoFollow.ByComponentNoFollow` | overlayfs/namei.c:889-969 | with redirect-free lower layers component-by-component lookup gives the same stack or failure whether or not redirects are followed, although the layer judged last differs, so the closed form holds in both modes |
| `LookupClosed.AncestorFaultExample` | overlayfs/namei.c:889-969 | a concrete mount where the absolute walk succeeds and component-by-component lookup fails at an ancestor |
| `LookupCode.LookupData.constructor` | overlayfs/namei.c:818-845 | the lookup state starts with the single name, nothing found, opaque, stopped or redirected |
| `LookupCode.CheckAbsolute` | overlayfs/namei.c:29-93 | the character loop over an absolute redirect accepts exactly the well-formed texts |
| `LookupCode.RedirectedText` | overlayfs/namei.c:29-93 | a valid mark gives the text that replaces the name up to the component, absolute or behind what came before; an invalid mark gives none |
| `LookupCode.CheckRedirect` | overlayfs/namei.c:29-93 | the rewritten character string is the text of the rewritten target, what comes after the component is untouched, and an absolute redirect clears stop |
| `LookupCode.LookupSingle` | overlayfs/namei.c:226-293 | on character strings and flags the verdict on one entry is the verdict of the abstract lookup, in every branch in which the marks can be read, and opaque is set exactly for a whiteout or an opaque last component |
| `LookupCode.NextComponent` | overlayfs/namei.c:295-333 | the remaining length always points just behind a slash (the warning never fires) and strictly decreases |
| `LookupCode.WalkRound` | overlayfs/namei.c:295-333 | one round of the walk judges the next component, and the remaining length keeps pointing behind a slash and into the name although the name may have been rewritten, so neither warning fires |
| `LookupCode.WalkLayer` | overlayfs/namei.c:295-333 | the loop over the string ends and computes the abstract walk |
| `LookupCode.LookupInLayer` | overlayfs/namei.c:295-333 | a relative name is looked up once, an absolute one is walked, with the abstract result |
| `LookupCode.LookupLayers` | overlayfs/namei.c:889-969 | the loop over layers stores at most one element per lower layer in its array, ends although it may set its index back, and computes the abstract stack or the same failure |
| `LookupCode.LookupName` | overlayfs/namei.c:818-1048 | upper lookup, restart at the root for an absolute redirect and the layer loop together give the object of the abstract lookup, for every upper entry and parent stack |
| `Merged.EntryDir` | overlayfs/namei.c:818-1048 | what lookup of an upper directory gives: its marks decide whether it merges with the parent's stack, with the stack of its redirect, or with nothing |
| `Merged.EntryMissing` | overlayfs/namei.c:1050-1103 | a name without upper entry is absent iff the check for a lower positive entry says so |
| `Merged.EntryPlainDir` | overlayfs/namei.c:889-969 | a plain upper directory put where lookup found nothing merges with nothing, and where it found directories merges with the same ones |
| `Merged.AtPut` | overlayfs/namei.c:818-1048 | changing one upper entry is seen only at that path and below; the directories above keep their stacks and marks |
| `Merged.AtPutHere` | overlayfs/namei.c:818-1048 | what the changed path resolves to is the lookup of the new entry in the unchanged parent stack |
| `Resolved.AtGood` | overlayfs/namei.c:889-969 | in every overlay and for every path, a directory merges at most one directory per lower layer, in layer order |
| `Located.MergedIsLocated` | overlayfs/dir.c:865-923 | in every upper layer whatsoever a merged directory merges with exactly the stack its lower path leads to, the lower path being the nearest absolute redirect or else names and relative redirects joined up to the root |
| `Located.MergedParent` | overlayfs/dir.c:865-923 | a merged directory without an absolute redirect has a merged parent, so building the redirect text never leaves merged directories |
| `RenameLaws.RedirectKeeps` | overlayfs/dir.c:925-952 | writing the redirect for a move changes neither what is seen nor any stack or lower path anywhere |
| `RenameLaws.OpaqueKeeps` | overlayfs/dir.c:1108-1124 | marking a pure upper directory opaque changes nothing anywhere |
| `NamespaceLaws.CopyUpKeeps` | overlayfs/copy_up.c:554-603 | installing the copy of a lower-only object changes nothing that is seen, no stack and no lower path, at any path |
| `NamespaceLaws.NewDirIsEmpty` | overlayfs/dir.c:292-329 | a new directory over a whiteout (opaque) or over no upper entry (even if not opaque) is empty in the merged view and changes nothing elsewhere |
| `NamespaceLaws.WhiteoutRemoves` | overlayfs/dir.c:86-115 | a whiteout at a path makes everything at and below it absent and changes nothing elsewhere |
| `NamespaceLaws.DeleteRemoves` | overlayfs/dir.c:738-787 | deleting the upper entry removes the name from the merged tree iff the check for a lower positive entry is negative |
| `NamespaceLaws.ClearEmptyKeepsView` | overlayfs/dir.c:331-403 | putting an opaque empty directory with the same metadata in place of a merged-empty one is not seen anywhere |
| `RenameLaws.MoveRenames` | overlayfs/dir.c:1126-1132 | moving a movable entry and leaving one under which nothing is found is exactly the rename of the merged tree, subtree by subtree |
| `RenameLaws.SwapExchanges` | overlayfs/dir.c:1126-1132 | exchanging two movable entries is exactly the exchange of the merged tree |
| `RenameLaws.MergedMoves` | overlayfs/dir.c:1108-1116 | a merged directory whose redirect was written merges with the same lower directories at its new place |
| `RenameLaws.PlainMoves` | overlayfs/dir.c:1108-1116 | a directory that merges with nothing still merges with nothing at its new place, because it is opaque or its new parent does not merge |
| `RenameLaws.UnmarkedMove` | overlayfs/dir.c:1108-1124 | a directory that merges with nothing and is moved without being marked opaque, as after a clearing that failed half way, is renamed rightly if and only if a lookup at the new name finds no lower directories for it |
| `RenameLaws.UnmarkedExample` | overlayfs/dir.c:1108-1124 | a concrete mount with a directory that holds a whiteout and would be cleared before it is removed, where such a move makes a removed lower directory show again |
| `OverlayFs.Overlay.constructor` | overlayfs/super.c:1556-1575 | a mounted overlay starts with a valid state whose recorded history is the given upper layer |
| `OverlayFs.Overlay.NewTemp` | overlayfs/dir.c:46-63 | a new entry appears in the work directory only; failure changes nothing |
| `OverlayFs.Overlay.Install` | overlayfs/copy_up.c:452-473 | moving a finished work entry over or in exchange for an upper entry is one step of the upper layer; failure changes nothing |
| `OverlayFs.Overlay.SetUpper` | overlayfs/dir.c:148-202 | one entry of the upper layer changes in one step, or nothing does |
| `OverlayFs.Overlay.RenameUpper` | overlayfs/dir.c:1126-1129 | two entries of the upper layer change in one step as the rename flags say, or nothing does |
| `OverlayFs.Overlay.CopyUpOne` | overlayfs/copy_up.c:614-699 | the complete copy, with data and metadata, appears in the upper layer in one step; every failure leaves the upper layer as it was |
| `OverlayFs.Overlay.CopyUp` | overlayfs/copy_up.c:776-839 | the loop ends since the copied depth grows; success puts the object in the upper layer; no intermediate or final state, successful or failed, changes the merged view except the truncation asked for, made in the last step |
| `OverlayFs.Overlay.CopyUpAll` | overlayfs/copy_up.c:841-844 | without truncation nothing changes anywhere in the overlay, at any step, and what was in the upper layer stays |
| `OverlayFs.Overlay.ClearEmpty` | overlayfs/dir.c:331-403 | a merged-empty directory is replaced in one step by an opaque empty one and nobody sees it; failure changes nothing in the upper layer |
| `OverlayFs.Overlay.CleanupAndWhiteout` | overlayfs/dir.c:86-115 | the name and everything below become absent in one step, nothing else changes; failure changes nothing |
| `OverlayFs.Overlay.RemoveUpper` | overlayfs/dir.c:738-787 | after success nothing is found at the name although lower layers are not covered; each step shows the tree before or after; a failure has at most replaced an empty directory by an opaque one |
| `OverlayFs.Overlay.RemoveAndWhiteout` | overlayfs/dir.c:685-736 | after success no lower entry is exposed; each step shows the tree before or after; a failure has at most replaced an empty directory by an opaque one |
| `OverlayFs.Overlay.Remove` | overlayfs/dir.c:795-840 | unlink and rmdir: success removes exactly the name and what is below, rmdir only of a merged-empty directory; every intermediate state shows the tree before or after; failure shows the tree before and has at most replaced the empty directory by an opaque one |
| `OverlayFs.Overlay.MarkNewDir` | overlayfs/dir.c:292-329 | marking a new directory opaque may fail: it stays empty and nothing else changes |
| `OverlayFs.Overlay.CreateUpper` | overlayfs/dir.c:292-329 | the new object stands at its name, a directory being empty; every step shows the tree before or the tree with the object; a failure leaves the upper layer as it was, except when the object was made and not found again, or got no inode and could not be removed |
| `OverlayFs.Overlay.Instantiate` | overlayfs/dir.c:237-280 | an object that gets no inode is removed, which restores the upper layer exactly, or stays |
| `OverlayFs.Overlay.CreateOverWhiteout` | overlayfs/dir.c:431-531 | the new object replaces the whiteout in one step, a directory being opaque and therefore empty; a failure changes nothing, except when the object got no inode after it was in place: then it stays |
| `OverlayFs.Overlay.Create` | overlayfs/dir.c:533-582 | create, mkdir, mknod, symlink and link: success adds exactly the new object and tells the parent; every intermediate state shows the tree before or the tree with the object; a failure leaves nothing or exactly the object, and which of the two is reported |
| `OverlayFs.Overlay.SetRedirect` | overlayfs/dir.c:925-952 | after success the directory carries a redirect, absolute unless it stays in its directory; at no step does anything change in the overlay; failure leaves the upper layer as it was |
| `OverlayFs.Overlay.MarkForMove` | overlayfs/dir.c:1108-1116 | after success the entry can be moved (redirect for a merged directory, opaque for a plain one under a merging parent); whether it succeeds or fails nothing changes in the overlay |
| `OverlayFs.Overlay.MarkBoth` | overlayfs/dir.c:1108-1124 | both entries of an exchange can be moved to each other's place; nothing changes in the overlay |
| `OverlayFs.Overlay.ExchangeNames` | overlayfs/dir.c:1108-1132 | success is the exchange of the merged tree, failure leaves it, even after redirects were written |
| `OverlayFs.Overlay.MoveUpper` | overlayfs/dir.c:1126-1132 | the single rename step is the rename of the merged tree for every choice of whiteout and exchange flag |
| `OverlayFs.Overlay.CleanupWhiteout` | overlayfs/dir.c:1131-1132 | removing the exchanged whiteout is not seen since nothing exists below it |
| `OverlayFs.Overlay.MoveName` | overlayfs/dir.c:1108-1129 | the entry is marked and moved: success is the rename of the merged tree, failure leaves it, each step shows one of the two |
| `OverlayFs.Overlay.OverwriteName` | overlayfs/dir.c:1108-1132 | success is the rename of the merged tree for all choices of whiteout, exchange and cleanup; each step shows the tree before or after |
| `OverlayFs.Overlay.CopyUpForRename` | overlayfs/dir.c:1010-1029 | the copy ups before a rename change nothing in the overlay and put what is needed in the upper layer |
| `OverlayFs.Overlay.ReplaceName` | overlayfs/dir.c:1033-1132 | a target directory is cleared unseen before it is overwritten; the outcome is the rename or the tree before |
| `OverlayFs.Overlay.Rename` | overlayfs/dir.c:954-1161 | every successful rename or exchange is the rename or exchange of the merged tree with all lower stacks and paths moved along, a directory is overwritten only if merged-empty, and every intermediate state shows the tree before or after; a failed exchange changes nothing in the overlay, a failed rename at most makes the empty directory it was to overwrite opaque |
| `OverlayFs.Overlay.OpenMaybeCopyUp` | overlayfs/inode.c:390-430 | an open copies up when it must, in simp mode always; without truncation nothing changes in the overlay, and a plain read open changes nothing at all |
| `Runs.MergedDirsStay` | overlayfs/dir.c:865-952 | over every run of renames and exchanges, failed ones included, a merged directory that is not overwritten keeps its lower directories and its lower path wherever it is moved, and that path leads to those directories; the one exception is a directory that was the empty target of a failed rename that was no exchange, which then merges with nothing |
| `Runs.SimpImage` | overlayfs/inode.c:390-430 | after any run of non-truncating opens in simp mode the merged tree is unchanged, and every object opened successfully, with all its ancestors, resolves in the upper layer alone with the same content, metadata or link target |
| `RedirectText.PutBefore` | overlayfs/dir.c:865-923 | a name is copied in front of what the buffer holds, inside the buffer |
| `RedirectText.GetRedirect` | overlayfs/dir.c:865-923 | the text built from the right end of the buffer is the lower path, it never leaves the buffer, and the call gives up iff the text is longer than the maximum |
| `RedirectText.ChainIsLoc` | overlayfs/dir.c:865-923 | walking up the directories the code visits gives exactly the lower path that lookup resolves |
| `RedirectText.ChainValid` | overlayfs/dir.c:865-923 | every name or redirect met on the way is well formed, so the mark written is accepted by the reader |
| `CopyData.CopyUpData` | overlayfs/copy_up.c:137-201 | on success the new file holds exactly the first min(len, size) bytes, whatever the splice sizes; all len bytes iff the old file is still that long; never anything but a prefix |
| `CopyData.ShortFileExample` | overlayfs/copy_up.c:137-201 | of a two byte file three bytes are copied without failure, and two arrive |
| `SearchTree.Compare` | overlayfs/readdir.c:69-114 | comparing with strncmp over the searched length and then the lengths is the lexicographic order: zero and equal length iff the names are equal |
| `SearchTree.Find` | overlayfs/readdir.c:95-114 | the search returns true iff an equal name is stored |
| `SearchTree.FindLink` | overlayfs/readdir.c:69-93 | the search for an insertion point finds an equal name iff one is stored, else the empty link where the order is kept |
| `SearchTree.Insert` | overlayfs/readdir.c:176-198 | a name is inserted iff it was not there; the tree keeps its order and holds exactly the old names and the new one, whatever rotations rebalancing makes |
| `Readdir.CheckWhiteouts` | overlayfs/readdir.c:270-295 | for every given set of failing lookups: a listed name that may be a whiteout and whose lookup works is marked iff it is one, and every other entry stays as it is |
| `Readdir.AddNames` | overlayfs/readdir.c:176-198 | a layer adds exactly its names not seen above, in its order |
| `Readdir.ReadUpperLayer` | overlayfs/readdir.c:297-323 | for every given set of unreported types and failing lookups, the list after a layer that is not the lowest is the one specified for the layers read so far: a topmost whiteout is recognised iff its type is reported and its lookup works |
| `Readdir.MoveNames` | overlayfs/readdir.c:200-218 | the lowest layer's names come to the front in its order, keeping entries found above |
| `Readdir.ReadLowestLayer` | overlayfs/readdir.c:358-392 | the same after the lowest layer for all layers, its names first |
| `Readdir.PathNext` | overlayfs/namei.c:779-795 | stepping through the real directories visits each layer of the merged directory once, topmost first, and ends |
| `Readdir.ReadNext` | overlayfs/readdir.c:358-392 | one round of the loop over layers reads exactly the next layer, the last one as the lowest, with the list specified for the troubles given |
| `Readdir.ReadMerged` | overlayfs/readdir.c:358-392 | reading succeeds iff no layer is broken; the listing holds each name once, as the topmost layer that has it shows it, ordered as the lowest directory's names followed by the others as met from the top; a whiteout is recognised iff the layer it is in reports its type and its lookup there works |
| `Readdir.ListingIsLookup` | overlayfs/readdir.c:358-392 | a listing shows a name if and only if lookup finds it or its topmost entry is a whiteout whose type is not reported or whose lookup fails in that layer, and such a whiteout is never found by lookup |
| `Readdir.ClearListing` | overlayfs/readdir.c:358-392 | if every type is reported and every lookup works, a listing shows exactly the names lookup finds |
| `Readdir.MissedExample` | overlayfs/readdir.c:270-295 | a concrete merged directory that is empty and whose listing shows a name, for every choice of troubles in which the whiteout's type is not reported or its lookup fails |
| `Readdir.CheckEmptyDir` | overlayfs/readdir.c:915-956 | it fails iff a layer cannot be read; otherwise the directory is reported empty if and only if nothing can be looked up and no whiteout in it has an unreported type or a failing lookup, so without such troubles iff nothing can be looked up; the list returned is then exactly the whiteouts of its upper part |
| `CopyUpProtocol.RunInv` | overlayfs/copy_up.c:701-839 | the invariant (lock discipline, ancestors before descendants, pointer and alias flags consistent with what is installed) holds in every state of every interleaving of any number of threads |
| `CopyUpProtocol.Exclusive` | overlayfs/util.c:371-388 | two threads are never between start and end of copy up of the same inode |
| `CopyUpProtocol.CopiedUpOnce` | overlayfs/util.c:317-334 | in no interleaving is an inode installed twice or its upper pointer set twice, so the warning on a set pointer never fires |
| `CopyUpProtocol.AncestorsUp` | overlayfs/copy_up.c:776-839 | at every moment everything in the upper layer has all its ancestors there |
| `CopyUpProtocol.SuccessMeansCopied` | overlayfs/copy_up.c:776-839 | a copy up that returned success has copied up the object and all its ancestors, and that stays so |
| `CopyUpProtocol.NoDeadlock` | overlayfs/util.c:371-388 | while a thread has not returned, some thread can move |
| `CopyUpProtocol.FuelOwn` | overlayfs/copy_up.c:776-839 | every step of a thread strictly lowers its own measure of what is left |
| `CopyUpProtocol.FuelOther` | overlayfs/copy_up.c:776-839 | no step of another thread raises that measure |
| `CopyUpProtocol.Bounded` | overlayfs/copy_up.c:776-839 | however threads interleave, one copy up takes a number of its own steps bounded by the depth of its object alone |
| `Nlink.FormatFits` | overlayfs/inode.c:587-603 | the record has at most 12 characters for every 32-bit difference, so the buffer of 13 never overflows |
| `Nlink.FormatParse` | overlayfs/inode.c:615-652 | every signed decimal written is parsed back to the same difference |
| `Nlink.ReadsBack` | overlayfs/inode.c:587-652 | for every count and every real link count the stored record reads back as the count exactly when it is positive and below 2^31, else as the fallback, wrap-around included |
| `Nlink.ExactMeansTrue` | overlayfs/inode.c:554-577 | what a record says is the true union count if and only if no link of the object came to or left the work directory since it was written |
| `Nlink.LinkedObject.constructor` | overlayfs/inode.c:774-856 | before the first copy up the count in memory is the number of lower names |
| `Nlink.LinkedObject.Become` | overlayfs/inode.c:554-577 | every single step leaves a disk state from which the record can be read as the true count corrected by links in the work directory |
| `Nlink.LinkedObject.SetNlinkUpper` | overlayfs/inode.c:605-608 | the record is relative to the upper inode from now on; failure changes nothing |
| `Nlink.LinkedObject.SetNlinkLower` | overlayfs/inode.c:610-613 | the record is relative to the lower inode from now on; failure changes nothing |
| `Nlink.LinkedObject.CopyUpToIndex` | overlayfs/copy_up.c:614-699 | the first copy up makes the index entry and then the first record; the names of the object do not change |
| `Nlink.LinkedObject.LinkUp` | overlayfs/copy_up.c:413-450 | covering a lower name by an upper link keeps the union count at every cut, because the record is relative to the lower inode meanwhile |
| `Nlink.LinkedObject.CopyUp` | overlayfs/copy_up.c:701-774 | copying up one name keeps the names of the object and the record right at every cut |
| `Nlink.LinkedObject.NlinkStart` | overlayfs/util.c:589-642 | after success the name is in the upper layer and the record is relative to the upper inode and exact |
| `Nlink.LinkedObject.NlinkEnd` | overlayfs/util.c:644-658 | the index entry goes only when no name is left; the repair branch changes the count only if links were left in the work directory |
| `Nlink.LinkedObject.Unlink` | overlayfs/dir.c:795-840 | unlink and rename-over: exactly one name is lost, and every cut leaves a right record |
| `Nlink.LinkedObject.Link` | overlayfs/dir.c:645-678 | exactly one name is gained; every cut leaves an exact record unless the name was a whiteout, and then there is a moment at which the record says one too many |
| `Nlink.LinkedObject.AddNameOverWhiteout` | overlayfs/dir.c:431-531 | linking over a whiteout passes through a state with a link in the work directory, at which the record is off by one; afterwards it is exact again |
| `Nlink.LinkedObject.Rename` | overlayfs/dir.c:954-1161 | moving a name keeps the count and leaves a right record at every cut |
| `Nlink.LinkedObject.Remount` | overlayfs/inode.c:615-652 | after the work directory is emptied the count read back is the true one if the record was written without links there; otherwise, while fewer than the names, their number is missing from it |
| `DirEvents.TraceSpot` | overlayfs/dir.c:1126-1144 | create, remove, rename, exchange, copy up and every failure leave a merged directory its lower directories and lower path, wherever it goes, until it is removed, overwritten or replaced |
| `DirEvents.NamesStay` | overlayfs/dir.c:1126-1144 | in such an event names come and go only in the parent directories of the paths it created, removed or renamed |
| `DirEvents.NameMade` | overlayfs/dir.c:237-280 | a created object adds exactly its own name to its parent |
| `DirEvents.TouchedIsMerging` | overlayfs/util.c:336-349 | a directory with lower directories in which a name came or went has been copied up and stays where it is, so the test that guards its version counter succeeds |
| `DirEvents.RunNames` | overlayfs/util.c:336-349 | over every run of operations, failed ones included, a merged directory none of whose names was created, removed or renamed has the same names at the end, wherever it was moved |
| `DirCache.FreshTracks` | overlayfs/readdir.c:358-392 | a freshly read list shows exactly the names that can be looked up and the whiteouts whose type was not reported or whose lookup failed |
| `DirCache.TracksExactly` | overlayfs/readdir.c:408-440 | a list that differs from lookup by names made unnoticed and whiteouts not recognised is right if and only if these are the same names (as a rule: if there are none) |
| `DirCache.AfterTracks` | overlayfs/util.c:336-349 | after every event the current list, wherever the directory has moved, still differs from lookup only by those names |
| `DirCache.ToldOfAll` | overlayfs/util.c:336-349 | every event except an object left by a failed create keeps the current list as right as it was, because a directory in which a name comes or goes is told |
| `DirCache.MergedDir.constructor` | overlayfs/readdir.c:881-904 | a merge directory starts without cache, files or anything to free |
| `DirCache.MergedDir.After` | overlayfs/util.c:336-349 | an event anywhere in the overlay: the directory follows renames until it is removed, overwritten or replaced, its version is counted up exactly if it is told, and its current list stays right up to the names recorded |
| `DirCache.MergedDir.Open` | overlayfs/readdir.c:881-904 | a new file holds no cache and is at the start |
| `DirCache.MergedDir.Put` | overlayfs/readdir.c:241-254 | a holder lets go; the cache is freed and forgotten by the inode exactly when it was the last holder |
| `DirCache.MergedDir.Take` | overlayfs/readdir.c:413-418 | the current list gets exactly one more holder, whose cursor is where its position says |
| `DirCache.MergedDir.Renew` | overlayfs/readdir.c:419-439 | reading succeeds iff no layer is broken; the new list becomes current, has one holder, and is the listing of the layers at that moment with the troubles given; a failure leaves no cache behind |
| `DirCache.MergedDir.Get` | overlayfs/readdir.c:408-440 | the list handed out is the current one or a new one, and one is handed out iff there is a current one or no layer is broken; it shows exactly what can be looked up if and only if the names made unnoticed since it was read are the whiteouts whose type was not reported or whose lookup failed when it was read; its count is the number of files holding it |
| `DirCache.MergedDir.Reset` | overlayfs/readdir.c:337-356 | at the start of a file an older list is dropped, so what it holds is current |
| `DirCache.MergedDir.ReadOn` | overlayfs/readdir.c:727-778 | entries between the old and the new cursor that are not whiteouts are returned in order; without an error or a full buffer the end is reached |
| `DirCache.MergedDir.Iterate` | overlayfs/readdir.c:727-778 | from any position, with any number of entries taken per call, the file returns exactly what the list shows from there on and its position follows; a directory that is gone is not read |
| `DirCache.MergedDir.Seek` | overlayfs/readdir.c:780-818 | the position is set or refused if negative, and the cursor is at min(position, length) |
| `DirCache.MergedDir.Release` | overlayfs/readdir.c:864-879 | the file lets go of its list and disappears; all counts stay right |
| `DirCache.SeekCursor` | overlayfs/readdir.c:394-406 | the loop stops at min(position, length) |
| `DirCache.WholeListing` | overlayfs/readdir.c:727-778 | from one rewind to the end a file returns every entry that is not a whiteout exactly once in list order; on the current list these are the names that can be looked up iff the names made unnoticed are the whiteouts whose type was not reported or whose lookup failed when the list was read |
| `DirCache.ClearWholeListing` | overlayfs/readdir.c:727-778 | if every type was reported and every lookup worked, a file returns the names that can be looked up exactly once each, iff no name was made unnoticed |
| `DirCache.NothingLeft` | overlayfs/readdir.c:231-254 | when no file is open every cache ever allocated has been freed and the inode points to none |
| `DirCache.LostObject` | overlayfs/dir.c:148-202 | an object left by a create that failed before its parent was told makes every right list wrong |
| `DirCache.LostObjectExample` | overlayfs/dir.c:148-202 | a concrete merged directory with a right listing that any such object makes wrong |
| `Watched.Create` | overlayfs/dir.c:533-582 | a create run against an open merged directory keeps the directory in step with the overlay; if it succeeds the directory's list is as right as before |
| `Watched.Remove` | overlayfs/dir.c:795-840 | the same for every remove, successful or not |
| `Watched.Move` | overlayfs/dir.c:954-1161 | the same for every rename and exchange, successful or not, also of the directory itself |
| `Watched.Open` | overlayfs/inode.c:390-430 | the same for every open, with its copy up and truncation |
| `Xino.OrIsSum` | overlayfs/inode.c:62-96 | an inode number below the shift and a shifted file system number do not disturb each other |
| `Xino.FileSystems.constructor` | overlayfs/super.c:1269-1285 | the table has room for one file system per lower layer and is empty |
| `Xino.FileSystems.GetFsid` | overlayfs/super.c:1241-1267 | the number returned is 0 iff the file system is the upper one, else the place of the file system in the table, which never holds one twice |
| `Xino.FileSystems.NumberLayers` | overlayfs/super.c:1286-1315 | the table is never overrun and every layer gets the number of its file system |
| `Xino.FileSystems.GetLowerLayers` | overlayfs/super.c:1269-1346 | layers share a number iff they share a file system, and the reserved bits hold every number assigned |
| `Xino.CombineIs` | overlayfs/readdir.c:443-453 | the combined number is inode number plus shifted file system number, without loss, in 64 bits |
| `Xino.XinoUnique` | overlayfs/inode.c:62-96 | with xino and numbers below the reserved bits, reported numbers are equal iff file system and inode are, for files and directories |
| `Xino.FilesUnique` | overlayfs/inode.c:62-123 | in every configuration, overflow included, device and number together tell files apart exactly as the real file systems do |
| `Xino.ReaddirAgrees` | overlayfs/readdir.c:443-453 | readdir reports the number that stat reports, and its numbers are unique in the same sense |
| `Env.Index` | engine/container/env.go:10-14 | each key is mapped to the last place it occurs |
| `Env.Apply` | engine/container/env.go:16-33 | after all overrides the slots and the appended entries are those of the specification |
| `Env.Compact` | engine/container/env.go:35-41 | the loop that deletes in place and steps back removes exactly the empty entries and keeps the order |
| `Env.ReplaceOrAppendEnvValues` | engine/container/env.go:9-43 | the result is the specified list without empty entries, for all defaults and overrides |
| `Env.LastWins` | engine/container/env.go:9-43 | if the last override that names a key is an assignment, it is the last entry for that key in the result |
| `Env.BareNameRemoves` | engine/container/env.go:9-43 | if it is a bare name, the key is absent iff no earlier non-empty default for it exists and, without any default, no override assigns it; in particular it is absent if it occurs exactly once in the defaults |
| `Env.BareNameExample` | engine/container/env.go:9-43 | a key with two defaults that is removed by a bare name keeps the first one |
| `Env.OrderKept` | engine/container/env.go:35-41 | non-empty defaults whose key no override names stay, in their order |

## Left out

- Real VFS calls, locking of directories, credentials, ACLs, security hooks, memory allocation and reference counts of dentries: each call is one atomic step that succeeds or fails.
- Dentry cache: operations look names up afresh, so the ESTALE check that the upper entry is still the one looked up is not modelled.
- OverlayFs.Overlay.ClearEmpty: does not keep the opaque flag that overlayfs/dir.c:373 sets on the cached dentry and that stays set when the exchange fails afterwards.
- OverlayFs.Overlay.MarkForMove: reads the opaque mark afresh instead of that flag; a directory with the stale flag is moved unmarked, which is right exactly under the condition of `RenameLaws.UnmarkedMove`.
- LookupCode.CheckRedirect: a redirect mark that cannot be read is treated by the code as no mark; the model's marks can always be read.
- LookupCode.LookupSingle: likewise for an opaque mark that cannot be read.
- LookupCode.LookupLayers: does not model the checks of lower directories against their recorded origin.
- LookupCode.LookupName: does not model origin, index and link count lookups, which can make it fail.
- OverlayFs.Overlay.CopyUpOne: does not model the index entry of a hard link or O_TMPFILE; the copy is always an entry of the work directory.
- OverlayFs.Overlay.CreateUpper: the failure to get an inode is also allowed for hard links, where the code cannot fail.
- DirCache.MergedDir.Iterate: an open directory that was replaced by an opaque copy of itself is treated like a removed one.
- Origin, index and file handles (decoding, verification, index directory cleanup) and NFS export: only their effect on copy up order and on link counts is modelled.
- Hard links in the tree model: two names of one object are two entries there; their common count is modelled in `nlink`, their common copy up in `copyup_protocol`.
- Timestamps, the impure mark, extended attributes other than the opaque, redirect and link count marks; metadata is one value copied as a whole.
- Name length limits, NUL bytes inside redirect marks, and layers that change while mounted.
- O_TMPFILE: a temporary file is always an entry of the work directory that is renamed into place.
- The check that a rename does not move a directory below itself, and rename between two links of one inode: the caller's guarantee is a precondition.
- Inode numbers stored in listing entries, directories read from one layer without the cache, and impure caches in readdir; a directory that merges with nothing but holds old whiteouts is read through the cache too, and is told of changes only if it is marked impure; the version counter is unbounded.
- Copy up protocol: no concurrent rename, no memory reordering; names are fixed during a run.
- CopyUpProtocol.NoDeadlock: says that some thread can move, not that a fair scheduler exists.
- Nlink.LinkedObject.constructor: assumes that lower names and the upper file system's link limit together stay below 2^31; `Nlink.ReadsBack` covers all 32-bit counts.
- Xino: the warning texts, and how the number of reserved bits starts as 0 or 32, which is a parameter.
- Env: the in-place update of the caller's slice; the result is a value.
- Mount option parsing, statfs, d_real, fsync, and everything else under engine/.
