/** The link count of an indexed object: how it is stored next to the upper inode, read back,
and kept right by copy up, link, unlink and rename. */
module Nlink {
  import opened Names
  import opened Errno

  // ---------------------------------------------------------------------------------
  // The record: 'U' or 'L', a sign, decimal digits

  /** Counts are unsigned and differences signed 32-bit numbers. */
  const TWO31: int := 0x8000_0000

  /** An unsigned int. */
  type Count = n: int | 0 <= n < 0x1_0000_0000

  /** A sum or difference as the int it wraps around to. */
  function ToInt(n: int): int
    requires -0x1_0000_0000 <= n < 0x1_0000_0000
  {
    if n < -0x8000_0000 then n + 0x1_0000_0000 else if n < 0x8000_0000 then n else n - 0x1_0000_0000
  }

  function Digit(d: nat): char
    requires d < 10
  {
    '0' + d as char
  }

  function Digits(n: nat): string {
    if n < 10 then [Digit(n)] else Digits(n / 10) + [Digit(n % 10)]
  }

  predicate IsLetter(c: char) {
    c == 'L' || c == 'U'
  }

  predicate IsSign(c: char) {
    c == '+' || c == '-'
  }

  /** What the format "%+i" prints after the letter. */
  function Format(letter: char, diff: int): string {
    [letter] + Signed(diff)
  }

  function Signed(diff: int): string {
    [if diff < 0 then '-' else '+'] + Digits(if diff < 0 then -diff else diff)
  }

  predicate OnlyDigits(s: string) {
    forall i :: 0 <= i < |s| ==> '0' <= s[i] <= '9'
  }

  function Value(s: string): nat
    requires OnlyDigits(s)
  {
    if s == [] then 0 else 10 * Value(s[..|s| - 1]) + (s[|s| - 1] - '0') as nat
  }

  /** kstrtoint in base 10: one sign, digits, perhaps a newline, in the range of an int. */
  function ParseInt(s: string): Option<int> {
    var body := if s != [] && IsSign(s[0]) then s[1..] else s;
    var digits := if body != [] && body[|body| - 1] == '\n' then body[..|body| - 1] else body;
    if digits == [] || !OnlyDigits(digits) then None
    else
      var v: int := if s[0] == '-' then -(Value(digits) as int) else Value(digits);
      if -TWO31 <= v < TWO31 then Some(v) else None
  }

  const BUFFER := 13

  /** What ovl_set_nlink_common stores: the overlay count less the real inode's. */
  function Encode(letter: char, nlink: Count, inner: Count): (r: string)
    ensures |r| < BUFFER
  {
    FormatFits(letter, ToInt(nlink - inner));
    Format(letter, ToInt(nlink - inner))
  }

  /** ovl_get_nlink for an object found in both layers. */
  function Decode(lowerNlink: Count, upperNlink: Count, record: Option<string>, fallback: Count): Count {
    if lowerNlink == 1 || record.None? || |record.value| >= BUFFER || |record.value| < 2 then fallback
    else if !IsLetter(record.value[0]) || !IsSign(record.value[1]) then fallback
    else
      var diff := ParseInt(record.value[1..]);
      if diff.None? then fallback
      else
        var nlink := ToInt(ToInt(if record.value[0] == 'L' then lowerNlink else upperNlink) + diff.value);
        if nlink <= 0 then fallback else nlink
  }

  lemma {:induction false} DigitsParse(n: nat)
    ensures Digits(n) != [] && OnlyDigits(Digits(n)) && Value(Digits(n)) == n
  {
    if n < 10 {
      assert Digits(n)[..0] == [];
    } else {
      DigitsParse(n / 10);
      var s := Digits(n);
      assert s[..|s| - 1] == Digits(n / 10);
    }
  }

  lemma {:induction false} DigitsLength(n: nat, k: nat, limit: nat)
    requires 1 <= k && limit == Power10(k) && n < limit
    ensures |Digits(n)| <= k
  {
    if n < 10 {
    } else {
      assert k >= 2;
      DigitsLength(n / 10, k - 1, Power10(k - 1));
    }
  }

  function Power10(k: nat): nat {
    if k == 0 then 1 else 10 * Power10(k - 1)
  }

  lemma FormatFits(letter: char, diff: int)
    requires -TWO31 <= diff < TWO31
    ensures |Format(letter, diff)| <= 12
  {
    assert Power10(10) == 10_000_000_000 by {
      assert Power10(4) == 10_000;
      assert Power10(8) == 10_000 * Power10(4);
    }
    DigitsLength(if diff < 0 then -diff else diff, 10, Power10(10));
  }

  lemma ParseSigned(sign: char, digits: string)
    requires IsSign(sign) && digits != [] && OnlyDigits(digits)
    requires if sign == '-' then Value(digits) <= TWO31 else Value(digits) < TWO31
    ensures ParseInt([sign] + digits) == Some(if sign == '-' then -(Value(digits) as int) else Value(digits))
  {
    assert ([sign] + digits)[1..] == digits;
  }

  lemma FormatParse(diff: int)
    requires -TWO31 <= diff < TWO31
    ensures ParseInt(Signed(diff)) == Some(diff)
  {
    var n := if diff < 0 then -diff else diff;
    DigitsParse(n);
    ParseSigned(if diff < 0 then '-' else '+', Digits(n));
  }

  /** What a record with a given difference is read as. */
  lemma DecodeFormat(letter: char, diff: int, lowerNlink: Count, upperNlink: Count, fallback: Count)
    requires IsLetter(letter) && -TWO31 <= diff < TWO31 && lowerNlink != 1
    ensures var n := ToInt(ToInt(if letter == 'L' then lowerNlink else upperNlink) + diff);
            Decode(lowerNlink, upperNlink, Some(Format(letter, diff)), fallback) == if n <= 0 then fallback else n
  {
    FormatFits(letter, diff);
    FormatParse(diff);
    assert Format(letter, diff)[1..] == Signed(diff);
  }

  /** For every count and every real link count, what is stored reads back as the count exactly
      when the count is positive and below 2^31. */
  lemma ReadsBack(letter: char, nlink: Count, lowerNlink: Count, upperNlink: Count, fallback: Count)
    requires IsLetter(letter) && lowerNlink != 1
    ensures var inner := if letter == 'L' then lowerNlink else upperNlink;
            Decode(lowerNlink, upperNlink, Some(Encode(letter, nlink, inner)), fallback)
            == if 1 <= nlink < TWO31 then nlink else fallback
  {
    var inner := if letter == 'L' then lowerNlink else upperNlink;
    DecodeFormat(letter, ToInt(nlink - inner), lowerNlink, upperNlink, fallback);
  }

  // ---------------------------------------------------------------------------------
  // The object

  /** What a crash would leave: the record, the real link count of the upper inode, and how many
      names the object truly has in the overlay.  `strays` counts links left in the work
      directory, and `base` how many there were when the record was written. */
  datatype Disk = Disk(record: Option<string>, upperNlink: Count, union: nat, strays: nat, base: nat)

  /** What the record says, whichever count is read as a fallback. */
  ghost predicate Says(lowerNlink: Count, h: Disk, n: int) {
    forall fallback: Count ::
      Decode(lowerNlink, h.upperNlink, h.record, fallback) == if 1 <= n then n else fallback
  }

  lemma SaysSum(lowerNlink: Count, h: Disk, letter: char, diff: int)
    requires IsLetter(letter) && lowerNlink != 1 && -TWO31 <= diff < TWO31 && h.record == Some(Format(letter, diff))
    requires h.upperNlink < TWO31 && lowerNlink < TWO31
    requires -TWO31 <= (if letter == 'L' then lowerNlink else h.upperNlink) + diff < TWO31
    ensures Says(lowerNlink, h, (if letter == 'L' then lowerNlink else h.upperNlink) + diff)
  {
    var inner := if letter == 'L' then lowerNlink else h.upperNlink;
    forall fallback: Count
      ensures Decode(lowerNlink, h.upperNlink, h.record, fallback) ==
              if 1 <= inner + diff then inner + diff else fallback
    {
      DecodeFormat(letter, diff, lowerNlink, h.upperNlink, fallback);
    }
  }

  predicate RelativeToLower(record: Option<string>) {
    record.Some? && record.value != [] && record.value[0] == 'L'
  }

  /** The true count, and what the record says: they differ by the links that came to or left the
      work directory since it was written. */
  function Recorded(h: Disk): int {
    if RelativeToLower(h.record) then h.union else h.union + h.strays - h.base
  }

  /** The record holds the true count less the lower count, or less the upper links there were
      when it was written. */
  ghost predicate Matches(record: Option<string>, lowerNlink: nat, union: nat, named: nat, base: nat) {
    record.Some? ==>
      if RelativeToLower(record) then record.value == Format('L', union - lowerNlink)
      else record.value == Format('U', union - named - base)
  }

  lemma UpperMatches(lowerNlink: nat, union: nat, named: nat, strays: nat, nlink: Count)
    requires nlink <= union + strays && named + strays < TWO31 && nlink < TWO31
    ensures var r := Some(Encode('U', nlink, named + strays));
            !RelativeToLower(r) && Matches(r, lowerNlink, union, named, union + strays - nlink)
  {
  }

  lemma LowerMatches(lowerNlink: Count, union: nat, named: nat, base: nat)
    requires union < TWO31 && lowerNlink < TWO31
    ensures var r := Some(Encode('L', union, lowerNlink));
            RelativeToLower(r) && Matches(r, lowerNlink, union, named, base)
  {
  }

  lemma MatchesSays(lowerNlink: Count, named: nat, h: Disk)
    requires Matches(h.record, lowerNlink, h.union, named, h.base) && h.record.Some? && h.upperNlink == named + h.strays
    requires lowerNlink != 1 && lowerNlink < TWO31 && h.upperNlink < TWO31
    requires h.union < TWO31 && -TWO31 <= h.union - named - h.base && h.union + h.strays - h.base < TWO31
    requires -TWO31 <= h.union + h.strays - h.base
    ensures Says(lowerNlink, h, Recorded(h))
  {
    if RelativeToLower(h.record) {
      SaysSum(lowerNlink, h, 'L', h.union - lowerNlink);
    } else {
      SaysSum(lowerNlink, h, 'U', h.union - named - h.base);
    }
  }

  /** At every moment so far the record, if written, says the true count corrected by strays. */
  ghost predicate AllHonest(lowerNlink: Count, history: seq<Disk>) {
    lowerNlink != 1 ==>
      forall h :: h in history && h.record.Some? ==> Says(lowerNlink, h, Recorded(h))
  }

  ghost predicate AllExact(history: seq<Disk>) {
    forall h :: h in history ==> Exact(h)
  }

  /** No link came to or left the work directory since the record was written. */
  predicate Exact(h: Disk) {
    h.record.None? || RelativeToLower(h.record) || h.strays == h.base
  }

  /** For an object that still has names, what the record says is the true count exactly then. */
  lemma ExactMeansTrue(lowerNlink: Count, h: Disk)
    requires h.record.Some? && 1 <= h.union < TWO31 && Says(lowerNlink, h, Recorded(h))
    ensures Says(lowerNlink, h, h.union) <==> Exact(h)
  {
    if !Exact(h) {
      var other := h.union + 1;
      assert Decode(lowerNlink, h.upperNlink, h.record, other) == if 1 <= Recorded(h) then Recorded(h) else other;
    }
  }

  /** From `from` on there was a moment at which the record said one more than the true count. */
  ghost predicate Miscounts(history: seq<Disk>, from: nat) {
    exists i :: from <= i < |history| && !Exact(history[i]) && Recorded(history[i]) == history[i].union + 1
  }

  /** An object with several names in the lower layer, copied up through the index: its names in
      the upper layer, the lower names hidden by upper entries, whether its index entry exists,
      its links in the work directory, the stored record and the count in memory. */
  datatype Object = Object(lowerLinks: set<Path>, maxLinks: nat, upperLinks: set<Path>, covered: set<Path>,
                           indexed: bool, strays: nat, record: Option<string>, nlink: nat)
  {
    /** The names of the object in the overlay: upper links and lower links not covered. */
    function Links(): set<Path> {
      upperLinks + (lowerLinks - covered)
    }

    /** Links of the upper inode other than strays: its names and its index entry. */
    function Named(): nat {
      |upperLinks| + if indexed then 1 else 0
    }

    function UpperNlink(): nat {
      Named() + strays
    }

    ghost predicate Valid() {
      && covered <= lowerLinks
      && upperLinks !! (lowerLinks - covered)
      && (!indexed ==> upperLinks == {} && strays == 0 && record == None && (covered == {} || Links() == {}))
      && 1 <= |lowerLinks| && UpperNlink() <= maxLinks && 1 <= maxLinks && |lowerLinks| + maxLinks < TWO31
    }

    lemma LinksCount()
      requires Valid()
      ensures |Links()| == |upperLinks| + |lowerLinks| - |covered| && |covered| <= |lowerLinks|
    {
      assert |lowerLinks - covered| == |lowerLinks| - |covered|;
    }

    /** The record matches the names, given the strays there were when it was written. */
    ghost predicate Good(base: nat) {
      Valid() && base <= maxLinks && Matches(record, |lowerLinks|, |Links()|, Named(), base)
    }

    /** What a crash would leave. */
    ghost function Cut(base: nat): Disk
      requires Valid()
    {
      Disk(record, UpperNlink(), |Links()|, strays, base)
    }

    /** An upper link over one of the lower names: the object keeps its names. */
    function Cover(p: Path): Object {
      this.(upperLinks := upperLinks + {p}, covered := covered + {p})
    }

    lemma CoverGood(p: Path, base: nat)
      requires Good(base) && indexed && p in lowerLinks - covered && RelativeToLower(record) && UpperNlink() < maxLinks
      ensures Cover(p).Good(base) && Cover(p).Links() == Links()
    {
      assert Cover(p).Links() == Links();
    }

    /** A new upper name, and the loss of one. */
    function Add(p: Path): Object {
      this.(upperLinks := upperLinks + {p})
    }

    function Drop(p: Path): Object {
      this.(upperLinks := upperLinks - {p})
    }

    lemma AddGood(p: Path, base: nat)
      requires Good(base) && indexed && p !in Links() && UpperNlink() < maxLinks
      requires record.Some? && !RelativeToLower(record)
      ensures Add(p).Good(base) && Add(p).Links() == Links() + {p} && |Add(p).Links()| == |Links()| + 1
      ensures Add(p).Named() == Named() + 1
    {
      assert Add(p).Links() == Links() + {p};
    }

    lemma DropGood(p: Path, base: nat)
      requires Good(base) && indexed && p in upperLinks && record.Some? && !RelativeToLower(record)
      ensures Drop(p).Good(base) && Drop(p).Links() == Links() - {p} && |Drop(p).Links()| == |Links()| - 1
    {
      assert Drop(p).Links() == Links() - {p};
    }

    lemma MoveLinks(p: Path, q: Path)
      requires Valid() && p in upperLinks && q !in Links()
      ensures Drop(p).Add(q).Links() == Links() - {p} + {q}
      ensures |Drop(p).Add(q).Links()| == |Links()| && |Drop(p).Add(q).upperLinks| == |upperLinks|
    {
      assert Drop(p).Add(q).Links() == Links() - {p} + {q};
    }

    lemma MoveGood(p: Path, q: Path, base: nat)
      requires Good(base) && indexed && p in upperLinks && q !in Links()
      ensures Drop(p).Add(q).Good(base) && Drop(p).Add(q).Links() == Links() - {p} + {q}
      ensures |Drop(p).Add(q).Links()| == |Links()|
    {
      MoveLinks(p, q);
    }

    lemma GoodSays(base: nat)
      requires Good(base) && record.Some? && |lowerLinks| != 1
      ensures Says(|lowerLinks|, Cut(base), Recorded(Cut(base)))
    {
      LinksCount();
      MatchesSays(|lowerLinks|, Named(), Cut(base));
    }
  }

  class LinkedObject {
    var o: Object
    ghost var base: nat
    ghost var history: seq<Disk>

    /** The state fits together and every moment so far is one that can be told from the record. */
    ghost predicate Sound()
      reads this
    {
      o.Good(base) && AllHonest(|o.lowerLinks|, history)
    }

    ghost predicate Valid()
      reads this
    {
      Sound() && (o.Links() != {} ==> o.nlink == |o.Links()|)
    }

    ghost predicate ExactSoFar()
      requires Sound()
      reads this
    {
      Exact(o.Cut(base)) && AllExact(history)
    }

    constructor (lowerLinks: set<Path>, maxLinks: nat)
      requires 1 <= |lowerLinks| && 1 <= maxLinks && |lowerLinks| + maxLinks < TWO31
      ensures Valid() && ExactSoFar() && o.Links() == o.lowerLinks == lowerLinks && o.maxLinks == maxLinks
    {
      o := Object(lowerLinks, maxLinks, {}, {}, false, 0, None, |lowerLinks|);
      base, history := 0, [];
      new;
      assert lowerLinks - {} == lowerLinks;
    }

    /** One step of the object: `o'` is what a crash right after it would leave. */
    method Become(o': Object, ghost base': nat)
      requires Sound() && o'.Good(base') && o'.lowerLinks == o.lowerLinks
      modifies this
      ensures Sound() && o == o' && base == base'
      ensures history == old(history) + [o'.Cut(base')] && old(history) <= history
      ensures old(AllExact(history)) && Exact(o'.Cut(base')) ==> ExactSoFar()
    {
      if o'.record.Some? && |o'.lowerLinks| != 1 {
        o'.GoodSays(base');
      }
      o, base, history := o', base', history + [o'.Cut(base')];
    }

    /** ovl_set_nlink_upper. */
    method SetNlinkUpper() returns (e: Errno)
      requires Sound() && o.indexed && (o.nlink == |o.Links()| || (o.Links() == {} && o.nlink == o.strays))
      modifies this
      ensures Sound() && old(history) <= history
      ensures e == OK ==> o == old(o).(record := o.record) && o.record.Some? && !RelativeToLower(o.record)
      ensures e == OK ==> base == |o.Links()| + o.strays - o.nlink
      ensures e == OK && old(AllExact(history)) && o.nlink == |o.Links()| ==> ExactSoFar()
      ensures e != OK ==> unchanged(this)
    {
      var fails: bool := *;
      if fails { return EIO; }
      o.LinksCount();
      UpperMatches(|o.lowerLinks|, |o.Links()|, o.Named(), o.strays, o.nlink);
      Become(o.(record := Some(Encode('U', o.nlink, o.UpperNlink()))), |o.Links()| + o.strays - o.nlink);
      return OK;
    }

    /** ovl_set_nlink_lower. */
    method SetNlinkLower() returns (e: Errno)
      requires Sound() && o.indexed && o.nlink == |o.Links()|
      modifies this
      ensures Sound() && old(history) <= history && base == old(base)
      ensures e == OK ==> o == old(o).(record := o.record) && RelativeToLower(o.record)
      ensures e == OK && old(AllExact(history)) ==> ExactSoFar()
      ensures e != OK ==> unchanged(this)
    {
      var fails: bool := *;
      if fails { return EIO; }
      o.LinksCount();
      LowerMatches(|o.lowerLinks|, |o.Links()|, o.Named(), base);
      Become(o.(record := Some(Encode('L', o.nlink, |o.lowerLinks|))), base);
      return OK;
    }

    /** The first copy up of an indexed object: a finished copy is installed as the index entry,
        then the count is recorded. */
    method CopyUpToIndex() returns (e: Errno)
      requires Valid() && !o.indexed && o.Links() != {}
      modifies this
      ensures Valid() && old(history) <= history
      ensures old(ExactSoFar()) ==> ExactSoFar()
      ensures o == old(o).(indexed := o.indexed, record := o.record)
      ensures e == OK ==> o.indexed && o.record.Some?
    {
      var fails: bool := *;
      if fails { return EIO; }
      Become(o.(indexed := true), base);
      e := SetNlinkUpper();
    }

    /** ovl_link_up: one more of the lower names gets an upper link. */
    method LinkUp(p: Path) returns (e: Errno)
      requires Valid() && o.indexed && p in o.lowerLinks - o.covered
      modifies this
      ensures Valid() && old(history) <= history && o.Links() == old(o.Links())
      ensures old(ExactSoFar()) ==> ExactSoFar()
      ensures o == old(o).(record := o.record, upperLinks := o.upperLinks, covered := o.covered)
      ensures e == OK ==> p in o.upperLinks && o.record.Some?
    {
      assert p in o.Links();
      e := SetNlinkLower();
      if e == OK {
        var fails: bool := *;
        if fails || o.UpperNlink() == o.maxLinks {
          e := EIO;
        } else {
          o.CoverGood(p, base);
          Become(o.Cover(p), base);
          assert old(history) <= history;
          e := SetNlinkUpper();
        }
      }
    }

    /** Copy up of one name, under the lock of the object. */
    method CopyUp(p: Path) returns (e: Errno)
      requires Valid() && p in o.Links()
      modifies this
      ensures Valid() && old(history) <= history && o.Links() == old(o.Links())
      ensures old(ExactSoFar()) ==> ExactSoFar()
      ensures o == old(o).(record := o.record, upperLinks := o.upperLinks, covered := o.covered, indexed := o.indexed)
      ensures e == OK ==> p in o.upperLinks && o.indexed
    {
      if p in o.upperLinks { return OK; }
      e := OK;
      if !o.indexed {
        e := CopyUpToIndex();
      }
      if e == OK {
        e := LinkUp(p);
      }
    }

    /** ovl_nlink_start: from here to ovl_nlink_end the lock of the object is held. */
    method NlinkStart(p: Path) returns (e: Errno)
      requires Valid() && p in o.Links()
      modifies this
      ensures Valid() && old(history) <= history && o.Links() == old(o.Links())
      ensures old(ExactSoFar()) ==> ExactSoFar()
      ensures o == old(o).(record := o.record, upperLinks := o.upperLinks, covered := o.covered, indexed := o.indexed)
      ensures e == OK ==>
        p in o.upperLinks && o.indexed && o.record.Some? && !RelativeToLower(o.record) && base == o.strays
    {
      e := CopyUp(p);
      if e == OK {
        var interrupted: bool := *;
        if interrupted { return EINTR; }
        e := SetNlinkUpper();
      }
    }

    /** ovl_nlink_end: the index entry of an object without names goes. */
    method NlinkEnd()
      requires Sound() && o.indexed && o.nlink == |o.Links()|
      modifies this
      ensures Valid() && old(history) <= history && o.Links() == old(o.Links())
      ensures o.Links() != {} ==> unchanged(this)
      ensures old(ExactSoFar() && o.strays == 0) ==> ExactSoFar()
      ensures o == old(o).(indexed := o.indexed, nlink := o.nlink, record := o.record)
      ensures old(o.strays) == 0 ==> o.nlink == old(o.nlink)
    {
      if o.nlink == 0 {
        assert o.upperLinks == {} && o.Links() == {};
        if o.UpperNlink() != 1 {
          o := o.(nlink := o.UpperNlink() - 1);
          var _ := SetNlinkUpper();
        } else {
          var fails: bool := *;
          if !fails {
            Become(o.(indexed := false, record := None), base);
          }
        }
      }
    }

    /** The upper entry goes and with it one link of the upper inode. */
    method DropName(p: Path) returns (e: Errno)
      requires Sound() && p in o.upperLinks && o.indexed && o.nlink == |o.Links()|
      requires o.record.Some? && !RelativeToLower(o.record) && base == o.strays
      modifies this
      ensures Sound() && old(history) <= history && o.indexed && o.nlink == |o.Links()| && o.strays == old(o.strays)
      ensures o.Links() == if e == OK then old(o.Links()) - {p} else old(o.Links())
      ensures old(ExactSoFar()) ==> ExactSoFar()
    {
      var fails: bool := *;
      if fails { return EIO; }
      o.DropGood(p, base);
      Become(o.Drop(p), base);
      o := o.(nlink := o.nlink - 1);
      return OK;
    }

    /** Unlinking a name, or renaming another object over it. */
    method Unlink(p: Path) returns (e: Errno)
      requires Valid() && p in o.Links()
      modifies this
      ensures Valid() && old(history) <= history
      ensures o.Links() == if e == OK then old(o.Links()) - {p} else old(o.Links())
      ensures o.strays == old(o.strays)
      ensures old(ExactSoFar()) && (o.Links() != {} || o.strays == 0) ==> ExactSoFar()
    {
      e := NlinkStart(p);
      if e == OK {
        e := DropName(p);
        assert old(history) <= history;
        NlinkEnd();
      }
    }

    /** A new link made in the directory itself. */
    method AddName(q: Path) returns (e: Errno)
      requires Sound() && q !in o.Links() && o.indexed && o.nlink == |o.Links()|
      requires o.record.Some? && !RelativeToLower(o.record) && base == o.strays
      modifies this
      ensures Sound() && old(history) <= history && o.indexed && o.nlink == |o.Links()| && o.strays == old(o.strays)
      ensures o.Links() == if e == OK then old(o.Links()) + {q} else old(o.Links())
      ensures old(ExactSoFar()) ==> ExactSoFar()
    {
      var fails: bool := *;
      if fails || o.UpperNlink() == o.maxLinks { return EIO; }
      o.AddGood(q, base);
      Become(o.Add(q), base);
      o := o.(nlink := o.nlink + 1);
      return OK;
    }

    /** The temporary link in the work directory is renamed to `q`, or removed if that fails and
        it can be. */
    method InstallTemp(q: Path) returns (e: Errno)
      requires Sound() && q !in o.Links() && o.indexed && o.nlink == |o.Links()| && 0 < o.strays
      requires o.record.Some? && !RelativeToLower(o.record)
      modifies this
      ensures Sound() && old(history) <= history && o.indexed && o.nlink == |o.Links()| && base == old(base)
      ensures o.Links() == if e == OK then old(o.Links()) + {q} else old(o.Links())
      ensures e == OK ==> o.strays == old(o.strays) - 1
    {
      var temp := o.(strays := o.strays - 1);
      var fails: bool := *;
      if fails {
        var stuck: bool := *;
        if !stuck { Become(temp, base); }
        return EIO;
      }
      temp.AddGood(q, base);
      Become(temp.Add(q), base);
      o := o.(nlink := o.nlink + 1);
      return OK;
    }

    /** A new link in place of a whiteout: made in the work directory and renamed over it. */
    method AddNameOverWhiteout(q: Path) returns (e: Errno)
      requires Sound() && q !in o.Links() && o.indexed && o.nlink == |o.Links()|
      requires o.record.Some? && !RelativeToLower(o.record) && base == o.strays
      modifies this
      ensures Sound() && old(history) <= history && o.indexed && o.nlink == |o.Links()|
      ensures o.Links() == if e == OK then old(o.Links()) + {q} else old(o.Links())
      ensures e == OK ==> o.strays == old(o.strays) && Miscounts(history, |old(history)|)
      ensures e == OK ==> Exact(o.Cut(base))
    {
      var fails: bool := *;
      if fails || o.UpperNlink() == o.maxLinks { return EIO; }
      Become(o.(strays := o.strays + 1), base);
      ghost var h := history[|old(history)|];
      assert !Exact(h) && Recorded(h) == h.union + 1;
      e := InstallTemp(q);
      assert h == history[|old(history)|];
    }

    /** ovl_link: `q` becomes another name of the object. */
    method Link(p: Path, q: Path, overWhiteout: bool) returns (e: Errno)
      requires Valid() && p in o.Links() && q !in o.Links()
      modifies this
      ensures Valid() && old(history) <= history
      ensures o.Links() == if e == OK then old(o.Links()) + {q} else old(o.Links())
      ensures !overWhiteout ==> o.strays == old(o.strays)
      ensures !overWhiteout && old(ExactSoFar()) ==> ExactSoFar()
      ensures overWhiteout && e == OK ==> Miscounts(history, |old(history)|) && Exact(o.Cut(base))
    {
      e := NlinkStart(p);
      if e == OK {
        if overWhiteout {
          e := AddNameOverWhiteout(q);
        } else {
          e := AddName(q);
        }
        assert old(history) <= history;
        NlinkEnd();
      }
    }

    /** Renaming a name of the object, to a name that is not its own. */
    method Rename(p: Path, q: Path) returns (e: Errno)
      requires Valid() && p in o.Links() && q !in o.Links()
      modifies this
      ensures Valid() && old(history) <= history && o.strays == old(o.strays)
      ensures o.Links() == if e == OK then old(o.Links()) - {p} + {q} else old(o.Links())
      ensures old(ExactSoFar()) ==> ExactSoFar()
    {
      e := CopyUp(p);
      if e == OK {
        var fails: bool := *;
        if fails { return EIO; }
        o.MoveGood(p, q, base);
        Become(o.Drop(p).Add(q), base);
      }
    }

    /** The next mount empties the work directory and reads the count back. */
    method Remount()
      requires Sound() && o.indexed && |o.lowerLinks| != 1 && o.record.Some?
      modifies this
      ensures Sound() && o == old(o).(strays := 0, nlink := o.nlink)
      ensures RelativeToLower(o.record) || base == 0 ==> Valid()
      ensures !RelativeToLower(o.record) && 0 < base < |o.Links()| ==> o.nlink == |o.Links()| - base
    {
      Become(o.(strays := 0), base);
      o.GoodSays(base);
      o := o.(nlink := Decode(|o.lowerLinks|, o.UpperNlink(), o.record, o.UpperNlink()));
    }
  }
}
