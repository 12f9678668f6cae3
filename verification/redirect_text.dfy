/** The text of a cross-directory redirect, built from the right in a fixed buffer. */
module RedirectText {
  import opened Names
  import opened Layers
  import opened Lookup
  import opened Merged
  import opened Located
  import opened Errno

  /** One directory on the way up: its name and the redirect lookup has found on it. */
  datatype Step = Step(name: Name, redirect: Option<Redirect>)

  /** What a directory adds to the text: its redirect, or its name. */
  function Segment(s: Step): CString {
    if s.redirect.Some? then Text(s.redirect.value) else s.name
  }

  predicate IsAbsolute(s: Step) {
    s.redirect.Some? && s.redirect.value.Absolute?
  }

  predicate ValidStep(s: Step) {
    IsAbsolute(s) ==> s.redirect.value.path != []
  }

  /** The lower path the directories of `chain` (outermost first) lead to. */
  function ChainLoc(chain: seq<Step>): Path {
    if chain == [] then []
    else
      var last := chain[|chain| - 1];
      if IsAbsolute(last) then last.redirect.value.path
      else
        ChainLoc(chain[..|chain| - 1]) + [if last.redirect.Some? then last.redirect.value.name else last.name]
  }

  /** Text of the directories from `i` on, none of which has an absolute redirect. */
  function Tail(chain: seq<Step>, i: nat): (t: string)
    requires i <= |chain|
    decreases |chain| - i
  {
    if i == |chain| then "" else "/" + Segment(chain[i]) + Tail(chain, i + 1)
  }

  lemma JoinOne(n: Name)
    ensures Join([n]) == "/" + n
  {
    assert [n][1..] == [];
    assert "/" + n + "" == "/" + n;
  }

  lemma OneSegment(chain: seq<Step>, i: nat)
    requires i < |chain| && !IsAbsolute(chain[i])
    ensures Join(ChainLoc(chain[..i + 1])) == Join(ChainLoc(chain[..i])) + ("/" + Segment(chain[i]))
  {
    var n: Name := Segment(chain[i]);
    assert chain[..i + 1][..i] == chain[..i];
    JoinConcat(ChainLoc(chain[..i]), [n]);
    JoinOne(n);
  }

  lemma Regroup(a: string, b: string, c: string)
    ensures (a + b) + c == a + (b + c)
  {
  }

  lemma {:induction false} TailText(chain: seq<Step>, i: nat)
    requires i <= |chain| && forall k :: i <= k < |chain| ==> !IsAbsolute(chain[k])
    ensures Join(ChainLoc(chain)) == Join(ChainLoc(chain[..i])) + Tail(chain, i)
    decreases |chain| - i
  {
    if i == |chain| {
      assert chain[..i] == chain;
    } else {
      TailText(chain, i + 1);
      OneSegment(chain, i);
      Regroup(Join(ChainLoc(chain[..i])), "/" + Segment(chain[i]), Tail(chain, i + 1));
    }
  }

  /** A segment that starts with a slash is an absolute redirect. */
  lemma SegmentSlash(s: Step)
    requires ValidStep(s)
    ensures Segment(s) != "" && (Segment(s)[0] == '/' <==> IsAbsolute(s))
  {
    if !IsAbsolute(s) {
      var n: Name := Segment(s);
      assert n[0] in n;
    }
  }

  /** The text when the directory before `i` is reached. */
  lemma TextBefore(chain: seq<Step>, i: nat)
    requires 0 < i <= |chain| && forall k :: i <= k < |chain| ==> !IsAbsolute(chain[k])
    ensures IsAbsolute(chain[i - 1]) ==> Join(ChainLoc(chain)) == Segment(chain[i - 1]) + Tail(chain, i)
    ensures !IsAbsolute(chain[i - 1]) ==> |Join(ChainLoc(chain))| >= 1 + |Segment(chain[i - 1])| + |Tail(chain, i)|
  {
    var c := chain[..i];
    assert c[i - 1] == chain[i - 1];
    TailText(chain, i);
    if !IsAbsolute(chain[i - 1]) {
      TailText(chain, i - 1);
    }
  }

  lemma TailStep(chain: seq<Step>, i: nat)
    requires 0 < i <= |chain|
    ensures Tail(chain, i - 1) == "/" + (Segment(chain[i - 1]) + Tail(chain, i))
  {
    Regroup("/", Segment(chain[i - 1]), Tail(chain, i));
  }

  /** Copy `s` into the buffer in front of what it holds from `pos` to `end`. */
  method PutBefore(buf: array<char>, pos: nat, end: nat, s: string)
    requires |s| <= pos <= end <= buf.Length
    modifies buf
    ensures buf[pos - |s|..end] == s + old(buf[pos..end])
    ensures s != "" ==> buf[pos - |s|] == s[0]
  {
    var start := pos - |s|;
    for k := 0 to |s|
      invariant buf[start..start + k] == s[..k]
      invariant buf[pos..end] == old(buf[pos..end])
    {
      buf[start + k] := s[k];
      assert buf[start..start + k + 1] == buf[start..start + k] + [s[k]];
      assert s[..k + 1] == s[..k] + [s[k]];
    }
    assert s[..|s|] == s;
    assert buf[start..end] == buf[start..pos] + buf[pos..end];
    assert s != "" ==> buf[start] == buf[start..pos][0];
  }

  /** Build the text of the lower path.  It is written inside the buffer of `max + 1` characters;
      the call gives up iff the text is longer than `max`. */
  method GetRedirect(chain: seq<Step>, max: nat) returns (err: Errno, text: string)
    requires forall k :: 0 <= k < |chain| ==> ValidStep(chain[k])
    ensures err == OK ==> text == Join(ChainLoc(chain)) && |text| <= max
    ensures err != OK ==> err == EXDEV && |Join(ChainLoc(chain))| > max
  {
    var buf := new char[max + 1];
    var pos := max;
    buf[pos] := '\0';
    var i := |chain|;
    while i > 0
      invariant 0 <= i <= |chain| && 0 <= pos <= max
      invariant forall k :: i <= k < |chain| ==> !IsAbsolute(chain[k])
      invariant buf[pos..max] == Tail(chain, i)
    {
      var name := Segment(chain[i - 1]);
      SegmentSlash(chain[i - 1]);
      TextBefore(chain, i);
      TailStep(chain, i);
      if |name| + (if name[0] != '/' then 1 else 0) > pos {
        return EXDEV, "";
      }
      PutBefore(buf, pos, max, name);
      pos := pos - |name|;
      if buf[pos] == '/' {
        return OK, buf[pos..max];
      }
      PutBefore(buf, pos, max, "/");
      pos := pos - 1;
      i := i - 1;
    }
    TailText(chain, 0);
    return OK, buf[pos..max];
  }

  /** The directories from the root to `p`, as lookup sees them. */
  function ChainOf(m: Mount, u: Node, p: Path): (r: seq<Step>)
    ensures |r| == |p|
    ensures forall k :: 0 <= k < |p| ==> r[k] == Step(p[k], SeenRedirect(At(m, u, p[..k + 1])))
  {
    seq(|p|, k requires 0 <= k < |p| => Step(p[k], SeenRedirect(At(m, u, p[..k + 1]))))
  }

  function SeenRedirect(o: Obj): Option<Redirect> {
    if o.DirObj? && o.redirect.Some? then
      match o.redirect.value
      case Rel(n) => Some(Relative(n))
      case Abs(q) => Some(Absolute(q))
    else None
  }

  lemma ChainFront(m: Mount, u: Node, p: Path)
    requires p != []
    ensures ChainOf(m, u, p)[..|p| - 1] == ChainOf(m, u, Parent(p))
  {
    forall k | 0 <= k < |p| - 1
      ensures ChainOf(m, u, p)[k] == ChainOf(m, u, Parent(p))[k]
    {
      assert Parent(p)[..k + 1] == p[..k + 1];
    }
  }

  /** The text is that of the directory's lower path. */
  lemma {:induction false} ChainIsLoc(m: Mount, u: Node, p: Path)
    ensures ChainLoc(ChainOf(m, u, p)) == Loc(m, u, p)
    decreases |p|
  {
    if p == [] {
    } else {
      ChainIsLoc(m, u, Parent(p));
      LocSnoc(m, u, p);
      ChainFront(m, u, p);
      assert p[..|p| - 1 + 1] == p;
      assert ChainOf(m, u, p)[|p| - 1] == Step(p[|p| - 1], SeenRedirect(At(m, u, p)));
    }
  }

  lemma ChainValid(m: Mount, u: Node, p: Path, k: nat)
    requires k < |p|
    ensures ValidStep(ChainOf(m, u, p)[k])
  {
    var q := p[..k + 1];
    AtChild(m, u, q);
    var d := At(m, u, Parent(q));
    if d.DirObj? {
      var one := UpperOne(d.up, Last(q));
      if one.Hit? && one.node.Dir? {
        EntryDir(m, one.node, Last(q), d.stack, d.isRoot);
      }
    }
  }
}
