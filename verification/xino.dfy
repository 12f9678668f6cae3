/** Unique inode numbers over several file systems: the file systems of the layers are numbered
at mount, and with "xino" the number of the file system goes into the high bits of an inode
number. */
module Xino {
  import opened Names
  import opened Errno

  // ---------------------------------------------------------------------------------
  // 64-bit words

  function Power(k: nat): (r: nat)
    ensures r >= 1
  {
    if k == 0 then 1 else 2 * Power(k - 1)
  }

  const WORD := 64

  type Word = n: int | 0 <= n < 0x1_0000_0000_0000_0000

  lemma WordSize()
    ensures Power(64) == 0x1_0000_0000_0000_0000
  {
    assert Power(8) == 256 by { assert Power(4) == 16; }
    PowerSum(8, 8);
    assert Power(16) == 0x1_0000;
    PowerSum(16, 16);
    assert Power(32) == 0x1_0000_0000;
    PowerSum(32, 32);
  }

  lemma {:induction false} PowerSum(j: nat, k: nat)
    ensures Power(j + k) == Power(j) * Power(k)
  {
    if k == 0 {
    } else {
      PowerSum(j, k - 1);
    }
  }

  function ShiftRight(n: Word, k: nat): int {
    n / Power(k)
  }

  /** Bits shifted out at the left are lost. */
  function ShiftLeft(n: nat, k: nat): Word {
    n * Power(k) % 0x1_0000_0000_0000_0000
  }

  /** Bitwise or. */
  function Or(a: nat, b: nat): nat {
    if a == 0 then b else if b == 0 then a
    else 2 * Or(a / 2, b / 2) + if a % 2 == 1 || b % 2 == 1 then 1 else 0
  }

  /** The two parts of a word do not disturb each other. */
  lemma {:induction false} OrIsSum(a: nat, x: nat, k: nat)
    requires a < Power(k)
    ensures Or(a, x * Power(k)) == a + x * Power(k)
  {
    if k == 0 || a == 0 || x * Power(k) == 0 {
    } else {
      var half := x * Power(k - 1);
      assert x * Power(k) == 2 * half;
      OrIsSum(a / 2, x, k - 1);
    }
  }

  /** The number of bits of `n` less one. */
  function Ilog2(n: nat): (r: nat)
    requires n > 0
    ensures Power(r) <= n < Power(r + 1)
  {
    if n == 1 then 0 else Ilog2(n / 2) + 1
  }

  // ---------------------------------------------------------------------------------
  // Numbering the file systems at mount

  type SuperBlock = nat

  const MAX_STACK := 500

  datatype XinoOption = XinoOff | XinoAuto | XinoOn

  class FileSystems {
    const upper: Option<SuperBlock>
    const lowerFs: array<SuperBlock>
    var numLowerFs: nat
    var fsids: seq<nat>
    var xinoBits: nat

    /** The table holds no file system twice, and not that of the upper layer. */
    ghost predicate Valid()
      reads this, lowerFs
    {
      && numLowerFs <= lowerFs.Length
      && (forall i :: 0 <= i < numLowerFs ==> upper != Some(lowerFs[i]))
      && (forall i, j :: 0 <= i < j < numLowerFs ==> lowerFs[i] != lowerFs[j])
    }

    /** The layers so far have the numbers of their file systems. */
    ghost predicate Placed(stack: seq<SuperBlock>)
      reads this, lowerFs
    {
      |fsids| <= |stack| && numLowerFs <= lowerFs.Length &&
      forall i :: 0 <= i < |fsids| ==> fsids[i] <= numLowerFs && PlacedAt(fsids[i], stack[i])
    }

    ghost predicate PlacedAt(fsid: nat, sb: SuperBlock)
      requires fsid <= numLowerFs <= lowerFs.Length
      reads this, lowerFs
    {
      if fsid == 0 then upper == Some(sb) else lowerFs[fsid - 1] == sb
    }

    constructor (upper: Option<SuperBlock>, numLower: nat, xinoBits: nat)
      ensures Valid() && this.upper == upper && lowerFs.Length == numLower && numLowerFs == 0 && fsids == []
      ensures this.xinoBits == xinoBits && fresh(lowerFs)
    {
      this.upper, this.xinoBits := upper, xinoBits;
      lowerFs, numLowerFs, fsids := new SuperBlock[numLower], 0, [];
    }

    /** ovl_get_fsid: the number of a file system, a new one if it was not met before. */
    method GetFsid(sb: SuperBlock) returns (fsid: int)
      requires Valid() && numLowerFs < lowerFs.Length
      modifies this`numLowerFs, lowerFs
      ensures Valid() && old(numLowerFs) <= numLowerFs <= old(numLowerFs) + 1
      ensures forall i :: 0 <= i < old(numLowerFs) ==> lowerFs[i] == old(lowerFs[i])
      ensures -1 <= fsid <= numLowerFs
      ensures fsid != -1 ==> PlacedAt(fsid, sb)
    {
      if upper == Some(sb) {
        return 0;
      }
      for i := 0 to numLowerFs
        invariant forall j :: 0 <= j < i ==> lowerFs[j] != sb
      {
        if lowerFs[i] == sb {
          return i + 1;
        }
      }
      var noDevice: bool := *;
      if noDevice {
        return -1;
      }
      lowerFs[numLowerFs] := sb;
      numLowerFs := numLowerFs + 1;
      return numLowerFs;
    }

    /** The loop of ovl_get_lower_layers: the table of file systems is never overrun. */
    method NumberLayers(stack: seq<SuperBlock>) returns (e: Errno)
      requires Valid() && lowerFs.Length == |stack| && numLowerFs == 0 && fsids == []
      modifies this`numLowerFs, this`fsids, lowerFs
      ensures Valid() && Placed(stack) && numLowerFs <= |stack| && (e == OK ==> |fsids| == |stack|)
    {
      while |fsids| < |stack|
        invariant Valid() && Placed(stack) && numLowerFs <= |fsids|
        decreases |stack| - |fsids|
      {
        var fsid := GetFsid(stack[|fsids|]);
        var cloned: bool := *;
        if fsid < 0 || !cloned {
          return EIO;
        }
        fsids := fsids + [fsid];
      }
      return OK;
    }

    lemma PlacedNumbered(stack: seq<SuperBlock>)
      requires Valid() && Placed(stack) && |fsids| == |stack|
      ensures Consistent(upper, stack, fsids, numLowerFs)
    {
      forall i, j | 0 <= i < |fsids| && 0 <= j < |fsids| ensures fsids[i] == fsids[j] <==> stack[i] == stack[j] {
        assert PlacedAt(fsids[i], stack[i]) && PlacedAt(fsids[j], stack[j]);
      }
    }

    /** ovl_get_lower_layers: number the layers, and reserve enough high bits of the inode numbers
        for all numbers given. */
    method GetLowerLayers(stack: seq<SuperBlock>, xino: XinoOption) returns (e: Errno)
      requires Valid() && lowerFs.Length == |stack| && 1 <= |stack| <= MAX_STACK && numLowerFs == 0 && fsids == []
      requires xinoBits == 0 || (xinoBits == 32 && xino != XinoOff)
      modifies this, lowerFs
      ensures e == OK ==> Consistent(upper, stack, fsids, numLowerFs) && Reserved(upper, numLowerFs, xinoBits)
    {
      e := NumberLayers(stack);
      if e != OK { return; }
      PlacedNumbered(stack);
      WidthEnough(numLowerFs);
      if numLowerFs == 0 || (numLowerFs == 1 && upper.None?) {
        xinoBits := 0;
      } else if xino == XinoOn && xinoBits == 0 {
        xinoBits := Ilog2(numLowerFs) + 1;
      }
    }
  }

  /** Bits enough for every number, and few enough to leave the rest to inode numbers. */
  lemma WidthEnough(num: nat)
    requires num <= MAX_STACK
    ensures num < Power(32)
    ensures num > 0 ==> num < Power(Ilog2(num) + 1) && Ilog2(num) + 1 <= 32
  {
    assert Power(9) == 512 by { assert Power(5) == 32; }
    PowerMonotone(9, 32);
    if num > 0 && Ilog2(num) > 9 {
      PowerMonotone(9, Ilog2(num));
    }
  }

  lemma {:induction false} PowerMonotone(j: nat, k: nat)
    requires j <= k
    ensures Power(j) <= Power(k)
  {
    if j >= k {
    } else {
      PowerMonotone(j, k - 1);
    }
  }

  /** All layers are on one file system. */
  predicate SameFs(upper: Option<SuperBlock>, numLowerFs: nat) {
    numLowerFs == 0 || (numLowerFs == 1 && upper.None?)
  }

  /** Layers share a number iff they share a file system, and the number 0 is for that of the
      upper layer. */
  ghost predicate Consistent(upper: Option<SuperBlock>, stack: seq<SuperBlock>, fsids: seq<nat>, numLowerFs: nat) {
    && |fsids| == |stack|
    && (forall i :: 0 <= i < |fsids| ==> fsids[i] <= numLowerFs && (fsids[i] == 0 <==> upper == Some(stack[i])))
    && (forall i, j :: 0 <= i < |fsids| && 0 <= j < |fsids| ==> (fsids[i] == fsids[j] <==> stack[i] == stack[j]))
  }

  /** The reserved bits, if any, hold every number. */
  ghost predicate Reserved(upper: Option<SuperBlock>, numLowerFs: nat, xinoBits: nat) {
    if SameFs(upper, numLowerFs) then xinoBits == 0
    else xinoBits != 0 ==> xinoBits <= 32 && numLowerFs < Power(xinoBits)
  }

  // ---------------------------------------------------------------------------------
  // Numbers shown to the user

  /** The device a file is reported on: the overlay, the device of its file system, or the
      anonymous device given to a lower file system. */
  datatype Device = OverlayDev | RealDev(sb: SuperBlock) | PseudoDev(fsid: nat)

  /** Where a real inode was found: in the upper layer or in lower layer `layer`. */
  datatype Found = InUpper | InLower(layer: nat)

  /** The mounted overlay as far as inode numbers go. */
  datatype Config = Config(upper: Option<SuperBlock>, stack: seq<SuperBlock>, fsids: seq<nat>, numLowerFs: nat,
                           xinoBits: nat)
  {
    ghost predicate Valid() {
      Consistent(upper, stack, fsids, numLowerFs) && Reserved(upper, numLowerFs, xinoBits) && stack != []
    }

    predicate Has(at: Found) {
      if at.InUpper? then upper.Some? else at.layer < |stack| == |fsids|
    }

    function FileSystem(at: Found): SuperBlock
      requires Has(at)
    {
      if at.InUpper? then upper.value else stack[at.layer]
    }

    function Fsid(at: Found): nat
      requires Has(at)
    {
      if at.InUpper? then 0 else fsids[at.layer]
    }

    predicate Fits(ino: Word) {
      xinoBits != 0 && xinoBits <= WORD && ShiftRight(ino, WORD - xinoBits) == 0
    }

    /** ovl_map_dev_ino: device and number that stat reports.  `overlayIno` is the number of the
        overlay inode, used for directories that fit nowhere else. */
    function Stat(at: Found, ino: Word, isDir: bool, overlayIno: Word): (Device, nat)
      requires Has(at)
    {
      if SameFs(upper, numLowerFs) then (OverlayDev, ino)
      else if Fits(ino) then
        (OverlayDev, if at.InUpper? then ino else Combine(ino, fsids[at.layer], WORD - xinoBits))
      else if isDir then (OverlayDev, overlayIno)
      else if at.InLower? && fsids[at.layer] != 0 then (PseudoDev(fsids[at.layer]), ino)
      else (RealDev(FileSystem(at)), ino)
    }

    /** ovl_remap_lower_ino: the number readdir reports for an entry of a lower layer. */
    function Remapped(ino: Word, fsid: nat): nat {
      if Fits(ino) then Combine(ino, fsid, WORD - xinoBits) else ino
    }
  }

  /** The number of the file system above the inode number. */
  function Combine(ino: Word, fsid: nat, shift: nat): nat {
    Or(ino, ShiftLeft(fsid, shift))
  }

  /** Nothing is lost: the inode number is below, the number of the file system above. */
  lemma CombineIs(ino: Word, fsid: nat, bits: nat)
    requires 1 <= bits <= 32 && fsid < Power(bits) && ShiftRight(ino, WORD - bits) == 0
    ensures ino < Power(WORD - bits)
    ensures Combine(ino, fsid, WORD - bits) == ino + fsid * Power(WORD - bits) < Power(WORD)
  {
    var low := Power(WORD - bits);
    BelowIfZero(ino, low);
    HighFits(fsid, bits);
    OrIsSum(ino, fsid, WORD - bits);
  }

  lemma HighFits(fsid: nat, bits: nat)
    requires bits <= WORD && fsid < Power(bits)
    ensures ShiftLeft(fsid, WORD - bits) == fsid * Power(WORD - bits) <= Power(WORD) - Power(WORD - bits)
  {
    PowerSum(bits, WORD - bits);
    WordSize();
    BelowWord(fsid, Power(bits), Power(WORD - bits), Power(WORD));
    NoOverflow(fsid * Power(WORD - bits));
  }

  lemma BelowWord(x: nat, count: nat, low: nat, word: nat)
    requires x < count && low >= 1 && count * low == word
    ensures x * low <= word - low
  {
    HighPart(x, count, low);
  }

  lemma NoOverflow(n: nat)
    requires n < 0x1_0000_0000_0000_0000
    ensures n % 0x1_0000_0000_0000_0000 == n
  {
  }

  lemma BelowIfZero(n: nat, d: nat)
    requires d > 0 && n / d == 0
    ensures n < d
  {
  }

  lemma {:induction false} HighPart(x: nat, count: nat, low: nat)
    requires x < count
    ensures x * low + low <= count * low
    decreases count
  {
    assert count * low == (count - 1) * low + low;
    if x >= count - 1 {
    } else {
      HighPart(x, count - 1, low);
    }
  }

  lemma PartsApart(a: nat, x: nat, b: nat, y: nat, low: nat)
    requires a < low && b < low && a + x * low == b + y * low
    ensures a == b && x == y
  {
    if x < y {
      HighPart(x, y, low);
    } else if y < x {
      HighPart(y, x, low);
    }
  }

  lemma CombineApart(a: Word, x: nat, b: Word, y: nat, bits: nat)
    requires 1 <= bits <= 32 && x < Power(bits) && y < Power(bits)
    requires ShiftRight(a, WORD - bits) == 0 && ShiftRight(b, WORD - bits) == 0
    ensures Combine(a, x, WORD - bits) == Combine(b, y, WORD - bits) <==> a == b && x == y
  {
    CombineIs(a, x, bits);
    CombineIs(b, y, bits);
    if Combine(a, x, WORD - bits) == Combine(b, y, WORD - bits) {
      PartsApart(a, x, b, y, Power(WORD - bits));
    }
  }

  /** Two places have the same number iff they are on the same file system. */
  lemma FsidIsFs(c: Config, a: Found, b: Found)
    requires c.Valid() && c.Has(a) && c.Has(b)
    ensures c.Fsid(a) <= c.numLowerFs && (c.Fsid(a) == c.Fsid(b) <==> c.FileSystem(a) == c.FileSystem(b))
    ensures SameFs(c.upper, c.numLowerFs) ==> c.FileSystem(a) == c.FileSystem(b)
  {
  }

  /** With "xino" and inode numbers below the reserved bits, the numbers reported for files and
      directories alike are equal iff they are the same inode of the same file system. */
  lemma XinoUnique(c: Config, a: Found, i: Word, b: Found, j: Word, dirA: bool, dirB: bool, oa: Word, ob: Word)
    requires c.Valid() && c.Has(a) && c.Has(b) && c.Fits(i) && c.Fits(j)
    ensures c.Stat(a, i, dirA, oa) == c.Stat(b, j, dirB, ob) <==> c.FileSystem(a) == c.FileSystem(b) && i == j
    ensures c.Stat(a, i, dirA, oa).0 == OverlayDev
  {
    FsidIsFs(c, a, b);
    FsidIsFs(c, b, a);
    NoNumber(i, WORD - c.xinoBits);
    NoNumber(j, WORD - c.xinoBits);
    CombineApart(i, c.Fsid(a), j, c.Fsid(b), c.xinoBits);
  }

  lemma NoNumber(ino: Word, shift: nat)
    ensures Combine(ino, 0, shift) == ino
  {
    assert 0 * Power(shift) == 0;
  }

  /** In every configuration, device and number together tell files apart exactly as the real
      file systems do. */
  lemma FilesUnique(c: Config, a: Found, i: Word, b: Found, j: Word, oa: Word, ob: Word)
    requires c.Valid() && c.Has(a) && c.Has(b)
    ensures c.Stat(a, i, false, oa) == c.Stat(b, j, false, ob) <==> c.FileSystem(a) == c.FileSystem(b) && i == j
  {
    FsidIsFs(c, a, b);
    FsidIsFs(c, b, a);
    if c.Fits(i) && c.Fits(j) {
      XinoUnique(c, a, i, b, j, false, false, oa, ob);
    }
  }

  /** Readdir reports the number that stat reports, for files and for whatever fits, so for what
      fits its numbers are equal iff they stand for the same inode of the same file system. */
  lemma ReaddirAgrees(c: Config, k: nat, i: Word, dirK: bool, ok: Word, l: nat, j: Word)
    requires c.Valid() && c.Has(InLower(k)) && c.Has(InLower(l)) && c.xinoBits != 0 && (!dirK || c.Fits(i))
    ensures c.Remapped(i, c.fsids[k]) == c.Stat(InLower(k), i, dirK, ok).1
    ensures c.Fits(i) && c.Fits(j) ==>
              (c.Remapped(i, c.fsids[k]) == c.Remapped(j, c.fsids[l]) <==> c.stack[k] == c.stack[l] && i == j)
  {
    if c.Fits(i) && c.Fits(j) {
      XinoUnique(c, InLower(k), i, InLower(l), j, dirK, dirK, ok, ok);
    }
  }
}
