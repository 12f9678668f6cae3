/** Lookup as the kernel does it: names are C strings, a redirect rewrites the name in place, a
walk counts the characters that remain, and the layer loop fills a fixed array.

Each method is proved to compute the function of the same name in module `Lookup`. */
module LookupCode {
  import opened Names
  import opened Layers
  import opened Lookup
  import opened LookupLaws
  import opened Merged
  import opened Resolved
  import opened Errno

  /** The text of a name under lookup: one component, or an absolute path. */
  function Render(t: Target): string {
    match t
    case Rel(n) => n
    case Abs(p) => Join(p)
  }

  predicate IsTarget(t: Target) {
    t.Abs? ==> t.path != []
  }

  lemma RenderSlash(t: Target)
    requires IsTarget(t)
    ensures Render(t) != "" && (Render(t)[0] == '/' <==> t.Abs?)
  {
    if t.Rel? {
      assert t.name[0] in t.name;
    }
  }

  class LookupData {
    var name: string
    var isDir: bool
    var isOpaque: bool
    var stop: bool
    var last: bool
    var redirected: bool
    ghost var target: Target

    /** The name is the text of the target. */
    ghost predicate Valid()
      reads this
    {
      IsTarget(target) && name == Render(target)
    }

    ghost function Model(): Data
      reads this
    {
      Data(target, isDir, stop, last, redirected)
    }

    constructor (name: Name, last: bool)
      ensures Valid() && Model() == Data(Rel(name), false, false, last, false) && !isOpaque
    {
      this.name := name;
      isDir, isOpaque, stop, redirected := false, false, false, false;
      this.last := last;
      target := Rel(name);
    }
  }

  /** The component being looked up: where it is in the name, and what comes before and after. */
  ghost predicate IsComponent(t: Target, pre: Path, c: Name, post: Path) {
    match t
    case Rel(n) => n == c && pre == [] && post == []
    case Abs(p) => p == pre + [c] + post
  }

  /** The text before a component. */
  function Before(t: Target, pre: Path): string {
    if t.Rel? then "" else Join(pre) + "/"
  }

  lemma ComponentText(t: Target, pre: Path, c: Name, post: Path)
    requires IsComponent(t, pre, c, post)
    ensures Render(t) == Before(t, pre) + c + Join(post)
  {
    if t.Abs? {
      JoinConcat(pre, [c] + post);
      assert pre + [c] + post == pre + ([c] + post);
      assert ([c] + post)[1..] == post;
      assert Join(pre) + ("/" + c + Join(post)) == (Join(pre) + "/") + c + Join(post);
    }
  }

  /** Is the text a well-formed absolute path?  Every component must follow one slash. */
  method CheckAbsolute(buf: CString) returns (valid: bool)
    requires buf != "" && buf[0] == '/'
    ensures valid <==> Split(buf).Some?
  {
    var s := 0;
    assert buf[0..] == buf;
    while s < |buf| && buf[s] == '/'
      invariant 0 <= s <= |buf|
      invariant s < |buf| ==> buf[s] == '/'
      invariant Split(buf).Some? <==> SplitsFrom(buf, s)
      decreases |buf| - s
    {
      SplitStep(buf, s);
      s := s + 1;
      var next := NextSlash(buf, s);
      if s == next {
        return false;
      }
      s := next;
    }
    return true;
  }

  predicate SplitsFrom(buf: CString, s: nat)
    requires s <= |buf|
  {
    NoZero(buf, s);
    Split(buf[s..]).Some?
  }

  lemma NoZero(buf: CString, s: nat)
    requires s <= |buf|
    ensures '\0' !in buf[s..]
  {
  }

  /** One component of a path text. */
  lemma SplitStep(buf: CString, s: nat)
    requires s < |buf| && buf[s] == '/'
    ensures var next := NextSlash(buf, s + 1);
            SplitsFrom(buf, s) <==> s + 1 < next && SplitsFrom(buf, next)
  {
    NoZero(buf, s);
    var rest: CString := buf[s..];
    var next := NextSlash(buf, s + 1);
    SlashShift(buf, s);
    assert rest[next - s..] == buf[next..];
  }

  lemma {:induction false} SlashFrom(buf: string, s: nat, k: nat)
    requires s <= k <= |buf|
    ensures NextSlash(buf[s..], k - s) == NextSlash(buf, k) - s
    decreases |buf| - k
  {
    if k >= |buf| || buf[k] == '/' {
    } else {
      SlashFrom(buf, s, k + 1);
    }
  }

  lemma SlashShift(buf: string, s: nat)
    requires s < |buf|
    ensures NextSlash(buf[s..], 1) == NextSlash(buf, s + 1) - s
  {
    SlashFrom(buf, s, s + 1);
  }

  /** The text a redirect mark puts in place of the name up to the end of the component, if the
      mark is valid: the mark alone if it is absolute, else the mark behind `before`. */
  method RedirectedText(buf: CString, before: string) returns (text: Option<string>, absolute: bool)
    ensures text.Some? <==> ParseRedirect(buf).Some?
    ensures text.Some? ==>
      var r := ParseRedirect(buf).value;
      (absolute <==> r.Absolute?) && text.value == (if r.Absolute? then "" else before) + Text(r)
  {
    if ParseRedirect(buf).Some? {
      TextParse(buf);
    }
    if buf == "" {
      return None, false;
    }
    absolute := buf[0] == '/';
    if absolute {
      var valid := CheckAbsolute(buf);
      text := if valid then Some(buf) else None;
      assert "" + buf == buf;
    } else {
      var slash := NextSlash(buf, 0);
      assert slash < |buf| <==> '/' in buf;
      text := if slash < |buf| then None else Some(before + buf);
    }
  }

  /** Read the redirect mark of a directory and rewrite the name: the mark replaces the component
      (or, if absolute, all before it), and what comes after stays.  An absolute redirect found
      below an opaque directory makes lookup go on. */
  method CheckRedirect(dir: Node, d: LookupData, prelen: nat, post: string,
                       ghost pre: Path, ghost c: Name, ghost postPath: Path)
    requires dir.Dir? && d.Valid() && IsComponent(d.target, pre, c, postPath)
    requires prelen == |Before(d.target, pre)| && post == Join(postPath)
    modifies d
    ensures d.Valid() && d.isOpaque == old(d.isOpaque)
    ensures d.Model() == Marked(old(d.Model()), MarkOf(dir), pre, postPath)
  {
    if dir.redirect.None? {
      return;
    }
    ComponentText(d.target, pre, c, postPath);
    assert d.name[..prelen] == Before(d.target, pre);
    var text, absolute := RedirectedText(dir.redirect.value, d.name[..prelen]);
    if text.None? {
      return;
    }
    ghost var r := MarkOf(dir).value;
    RewrittenText(d.target, r, pre, postPath);
    if absolute {
      d.stop := false;
    }
    d.name := text.value + post;
    d.redirected := true;
    d.target := Redirected(d.target, r, pre, postPath);
  }

  /** The state of a lookup after a redirect mark, if any, was followed. */
  function Marked(d: Data, mark: Option<Redirect>, pre: Path, post: Path): Data {
    match mark
    case None => d
    case Some(r) =>
      d.(target := Redirected(d.target, r, pre, post), redirected := true,
         stop := if r.Absolute? then false else d.stop)
  }

  /** The rewritten text is the text of the rewritten target. */
  lemma RewrittenText(t: Target, r: Redirect, pre: Path, post: Path)
    requires t.Rel? ==> pre == [] && post == []
    requires r.Absolute? ==> r.path != []
    ensures var t' := Redirected(t, r, pre, post);
      && Render(t') == (if r.Absolute? then "" else Before(t, pre)) + Text(r) + Join(post)
      && IsTarget(t')
  {
    match r {
      case Absolute(p) =>
        JoinConcat(p, post);
        assert "" + Text(r) == Join(p);
      case Relative(n) =>
        RelativeText(t, n, pre, post);
    }
  }

  lemma RelativeText(t: Target, n: Name, pre: Path, post: Path)
    requires t.Rel? ==> pre == [] && post == []
    ensures var t' := Redirected(t, Relative(n), pre, post);
      Render(t') == Before(t, pre) + n + Join(post) && IsTarget(t')
  {
    if t.Abs? {
      ComponentText(Abs(pre + [n] + post), pre, n, post);
    } else {
      assert "" + n + "" == n;
    }
  }

  /** Look one component up in one directory. */
  method LookupSingle(base: Node, d: LookupData, name: Name, prelen: nat, post: string,
                      ghost pre: Path, ghost postPath: Path)
    returns (err: Errno, ret: Option<Node>)
    requires d.Valid() && IsComponent(d.target, pre, name, postPath)
    requires prelen == |Before(d.target, pre)| && post == Join(postPath)
    modifies d
    ensures d.Valid()
    ensures Judge(LookupOne(base, name), old(d.Model()), pre, postPath) ==
            if err != OK then Fault else Found(d.Model(), ret)
    ensures err == OK && postPath == [] ==>
              d.isOpaque == (old(d.isOpaque) || Covers(LookupOne(base, name), old(d.last)))
  {
    ret := None;
    var lastElement := post == "";
    assert lastElement <==> postPath == [];
    var this' := LookupOne(base, name);
    match this' {
      case Missing =>
        return OK, None;
      case Failed =>
        return EIO, None;
      case Hit(n) =>
        if n.White? {
          d.stop, d.isOpaque := true, true;
          return OK, None;
        }
        if !n.Dir? {
          d.stop := true;
          if d.isDir {
            return OK, None;
          }
          return OK, Some(n);
        }
        if lastElement {
          d.isDir := true;
        }
        if d.last {
          return OK, Some(n);
        }
        if n.isOpaque {
          d.stop := true;
          if lastElement {
            d.isOpaque := true;
          }
          return OK, Some(n);
        }
        CheckRedirect(n, d, prelen, post, pre, name, postPath);
        return OK, Some(n);
    }
  }

  lemma ThreeParts(name: string, b: string, c: string, rest: string)
    requires name == b + c + rest && b != ""
    ensures name[|b|..] == c + rest && name[|b|..|b| + |c|] == c && name[|b| + |c|..] == rest
    ensures name[|b| - 1] == b[|b| - 1]
  {
  }

  /** The next component of the name, when `rem` characters remain.  The remaining length points
      just behind a slash (the kernel warns otherwise), and afterwards it is shorter. */
  method NextComponent(name: string, rem: int, ghost before: string, ghost c: Name, ghost after: string)
    returns (s: nat, component: Name, rest: string, end: bool, rem': int)
    requires name == before + c + after && rem == |c| + |after|
    requires before != "" && before[|before| - 1] == '/' && (after == "" || after[0] == '/')
    ensures component == c && s == |before| && rest == after && (end <==> after == "") && rem' == |after| - 1 < rem
  {
    ThreeParts(name, before, c, after);
    NextSlashAfter(name, |before|, c, after);
    s := |name| - rem;
    assert name[s - 1] == '/';
    var next := NextSlash(name, s);
    end := next == |name|;
    rem' := rem - (next - s + 1);
    component, rest := name[s..next], name[next..];
  }

  /** The rest of a name is not longer than the name, although a redirect may have rewritten it. */
  lemma RestFits(one: One, d: Data, pre: Path, c: Name, post: Path)
    requires d.target == Abs(pre + [c] + post)
    ensures var f := Judge(one, d, pre, post);
      f.Found? ==> f.d.target.Abs? && |Join(post)| <= |Render(f.d.target)| && (post != [] ==> Join(post) != "")
  {
    JudgeTail(one, d, pre, post);
    var f := Judge(one, d, pre, post);
    if f.Found? {
      var q := f.d.target.path;
      assert q == q[..|q| - |post|] + q[|q| - |post|..];
      JoinConcat(q[..|q| - |post|], post);
    }
  }

  /** One round of a walk.  Afterwards the remaining length still points behind a slash and into
      the name, although a redirect may have rewritten it. */
  method WalkRound(dir: Node, d: LookupData, rem: int, ghost pre: Path, ghost c: Name, ghost post: Path)
    returns (err: Errno, base: Option<Node>, end: bool, rem': int)
    requires d.Valid() && d.target == Abs(pre + [c] + post) && rem == |c| + |Join(post)|
    modifies d
    ensures d.Valid() && (end <==> post == [])
    ensures Judge(LookupOne(dir, c), old(d.Model()), pre, post) ==
            if err != OK then Fault else Found(d.Model(), base)
    ensures rem' == |Join(post)| - 1 < rem
    ensures err == OK && !end ==> 0 <= rem' < |d.name|
  {
    ComponentText(d.target, pre, c, post);
    RestFits(LookupOne(dir, c), d.Model(), pre, c, post);
    var s, name, rest;
    s, name, rest, end, rem' := NextComponent(d.name, rem, Before(d.target, pre), c, Join(post));
    err, base := LookupSingle(dir, d, name, s, rest, pre, post);
  }

  /** One step of `Walk`, and where it leaves the name. */
  lemma RoundResult(dir: Node, d: Data, pre: Path, c: Name, post: Path)
    requires dir.Dir? && d.target == Abs(pre + [c] + post)
    ensures var f := Judge(LookupOne(dir, c), d, pre, post);
      && Walk(dir, d, 1 + |post|) ==
         (if f.Fault? || post == [] || f.node.None? || !f.node.value.Dir? then f else Walk(f.node.value, f.d, |post|))
      && (f.Found? ==> f.d.target.Abs? && |f.d.target.path| > |post|
                       && f.d.target == Abs(f.d.target.path[..|f.d.target.path| - |post|] + post))
  {
    WalkStep(dir, d, 1 + |post|, pre, c, post);
    JudgeTail(LookupOne(dir, c), d, pre, post);
    var f := Judge(LookupOne(dir, c), d, pre, post);
    if f.Found? {
      var q := f.d.target.path;
      assert q == q[..|q| - |post|] + q[|q| - |post|..];
    }
  }

  /** A walk to `goal` that has found `ret` and still has `rest` to go, `rem` characters. */
  ghost predicate OnWay(ret: Option<Node>, d: Data, end: bool, pre: Path, rest: Path, rem: int, goal: Found) {
    if end || ret.None? || !ret.value.Dir? then goal == Found(d, ret)
    else
      && rest != [] && d.target == Abs(pre + rest) && rem == |Join(rest)| - 1
      && Walk(ret.value, d, |rest|) == goal
  }

  lemma HeadAndTail(pre: Path, rest: Path)
    requires rest != []
    ensures pre + rest == pre + [rest[0]] + rest[1..]
    ensures |Join(rest)| == 1 + |rest[0]| + |Join(rest[1..])|
  {
    assert rest == [rest[0]] + rest[1..];
  }

  /** The components before the last `n` ones. */
  ghost function Passed(t: Target, n: nat): Path {
    if t.Abs? && n <= |t.path| then t.path[..|t.path| - n] else []
  }

  lemma WayOn(dir: Node, d: Data, pre: Path, c: Name, post: Path, goal: Found)
    requires dir.Dir? && d.target == Abs(pre + [c] + post) && Walk(dir, d, 1 + |post|) == goal
    ensures var f := Judge(LookupOne(dir, c), d, pre, post);
      && (f.Fault? ==> goal == Fault)
      && (f.Found? ==> OnWay(f.node, f.d, post == [], Passed(f.d.target, |post|), post, |Join(post)| - 1, goal))
  {
    RoundResult(dir, d, pre, c, post);
  }

  /** One round of a walk brings it nearer to its goal. */
  method WalkOn(dir: Node, d: LookupData, rem: int, ghost pre: Path, ghost rest: Path, ghost goal: Found)
    returns (err: Errno, base: Option<Node>, end: bool, rem': int)
    requires dir.Dir? && d.Valid() && OnWay(Some(dir), d.Model(), false, pre, rest, rem, goal)
    modifies d
    ensures d.Valid() && rest != []
    ensures err != OK ==> goal == Fault
    ensures err == OK ==> OnWay(base, d.Model(), end, Passed(d.target, |rest| - 1), rest[1..], rem', goal)
  {
    HeadAndTail(pre, rest);
    WayOn(dir, d.Model(), pre, rest[0], rest[1..], goal);
    err, base, end, rem' := WalkRound(dir, d, rem, pre, rest[0], rest[1..]);
  }

  /** Walk an absolute path in one layer. */
  method WalkLayer(base0: Node, d: LookupData) returns (err: Errno, ret: Option<Node>)
    requires base0.Dir? && d.Valid() && d.target.Abs?
    modifies d
    ensures d.Valid()
    ensures Walk(base0, old(d.Model()), |old(d.target).path|) == if err != OK then Fault else Found(d.Model(), ret)
  {
    var rem := |d.name| - 1;
    ghost var pre: Path, rest := [], d.target.path;
    ghost var goal := Walk(base0, d.Model(), |rest|);
    assert [] + rest == rest;
    ret := Some(base0);
    var end := false;
    while !end && ret.Some? && ret.value.Dir?
      invariant d.Valid() && OnWay(ret, d.Model(), end, pre, rest, rem, goal)
      decreases |rest|, !end
    {
      err, ret, end, rem := WalkOn(ret.value, d, rem, pre, rest, goal);
      if err != OK {
        return err, None;
      }
      pre, rest := Passed(d.target, |rest| - 1), rest[1..];
    }
    err := OK;
  }

  /** Look the name up in one layer: one component, or a walk of the whole path. */
  method LookupInLayer(base0: Node, d: LookupData) returns (err: Errno, ret: Option<Node>)
    requires base0.Dir? && d.Valid()
    modifies d
    ensures d.Valid()
    ensures LookupLayer(base0, old(d.Model())) == if err != OK then Fault else Found(d.Model(), ret)
    ensures err == OK && old(d.target).Rel? ==>
              d.isOpaque == (old(d.isOpaque) || Covers(LookupOne(base0, old(d.target).name), old(d.last)))
  {
    RenderSlash(d.target);
    if d.name[0] != '/' {
      err, ret := LookupSingle(base0, d, d.name, 0, "", [], []);
    } else {
      err, ret := WalkLayer(base0, d);
    }
  }

  /** The target a remembered redirect text stands for. */
  function TargetOfText(s: CString): Option<Target> {
    TargetOf(ParseRedirect(s))
  }

  lemma TargetOfRender(t: Target)
    requires IsTarget(t)
    ensures '\0' !in Render(t) && TargetOfText(Render(t)) == Some(t)
  {
    match t
    case Rel(n) => ParseText(Relative(n));
    case Abs(p) => ParseText(Absolute(p));
  }

  /** There is room for one more element: the layers found so far all lie above the next one. */
  lemma RoomForOne(m: Mount, acc: seq<Lower>, poe: seq<Lower>, i: nat)
    requires GoodStack(m, acc) && GoodStack(m, poe) && Continues(acc, poe, i) && i < |poe|
    ensures |acc| < |m.lowers|
  {
    GoodStackFits(m, acc);
    assert 1 <= poe[i].idx <= |m.lowers|;
    if acc != [] {
      assert acc[|acc| - 1].idx < poe[i].idx;
    }
  }

  /** What the loop knows about the stack it has built. */
  ghost predicate Building(m: Mount, d: Data, poe: seq<Lower>, i: nat, acc: seq<Lower>) {
    && Sane(d) && GoodStack(m, poe)
    && (!d.stop ==> GoodStack(m, acc) && Continues(acc, poe, i) && (d.isDir || acc == []))
  }

  /** One round keeps it so. */
  lemma BuildingStep(m: Mount, d: Data, poe: seq<Lower>, i: nat, acc: seq<Lower>)
    requires m.Valid() && !d.stop && i < |poe| && Building(m, d, poe, i, acc)
    ensures var f := LookupLayer(poe[i].node, d.(last := IsLast(m, poe, i)));
      && (f.Found? && f.node.None? ==> Building(m, f.d, poe, i + 1, acc))
      && (f.Found? && f.node.Some? ==>
            var acc1 := acc + [Lower(poe[i].idx, f.node.value)];
            Building(m, f.d, poe, i + 1, acc1) && Building(m, f.d, Roots(m), poe[i].idx, acc1))
  {
    LayerShape(poe[i].node, d.(last := IsLast(m, poe, i)));
    RootsGood(m);
  }

  /** The loop is on its way to `goal`. */
  ghost predicate OnTrack(m: Mount, d: Data, poe: seq<Lower>, root: bool, i: nat, acc: seq<Lower>, goal: Outcome) {
    Building(m, d, poe, i, acc) && Through(m, d, poe, root, i, acc) == goal
  }

  /** Where the loop is after a round that found `this'`, and `acc1` with it. */
  ghost predicate FoundOne(m: Mount, d: Data, poe: seq<Lower>, root: bool, i: nat, idx: nat, acc1: seq<Lower>,
                           goal: Outcome)
  {
    if d.redirected && !m.follow then goal == Refused
    else if d.stop then goal == Stack(acc1)
    else if d.redirected && d.target.Abs? && !root then OnTrack(m, d, Roots(m), true, idx, acc1, goal)
    else OnTrack(m, d, poe, root, i + 1, acc1, goal)
  }

  /** One round of the layer loop: look the name up in one layer. */
  method LayerRound(m: Mount, d: LookupData, poe: seq<Lower>, root: bool, i: nat, ghost acc: seq<Lower>,
                    ghost goal: Outcome)
    returns (err: Errno, this': Option<Node>)
    requires m.Valid() && d.Valid() && !d.stop && i < |poe| && OnTrack(m, d.Model(), poe, root, i, acc, goal)
    modifies d
    ensures d.Valid()
    ensures err != OK ==> goal == Refused
    ensures err == OK && this'.None? ==> OnTrack(m, d.Model(), poe, root, i + 1, acc, goal)
    ensures err == OK && this'.Some? ==>
              FoundOne(m, d.Model(), poe, root, i, poe[i].idx, acc + [Lower(poe[i].idx, this'.value)], goal)
  {
    ThroughStep(m, d.Model(), poe, root, i, acc);
    BuildingStep(m, d.Model(), poe, i, acc);
    ghost var f := LookupLayer(poe[i].node, d.Model().(last := IsLast(m, poe, i)));
    d.last := if m.follow then poe[i].idx == |m.lowers| else i == |poe| - 1;
    assert d.Model().last == IsLast(m, poe, i);
    err, this' := LookupInLayer(poe[i].node, d);
    assert f == if err != OK then Fault else Found(d.Model(), this');
  }

  lemma LoopEnd(m: Mount, d: Data, poe: seq<Lower>, root: bool, i: nat, acc: seq<Lower>, goal: Outcome)
    requires OnTrack(m, d, poe, root, i, acc, goal) && (d.stop || i >= |poe|)
    ensures goal == Stack(acc)
  {
  }

  lemma HasRoom(m: Mount, d: Data, poe: seq<Lower>, root: bool, i: nat, acc: seq<Lower>, goal: Outcome)
    requires OnTrack(m, d, poe, root, i, acc, goal) && !d.stop && i < |poe|
    ensures |acc| < |m.lowers| && 1 <= poe[i].idx
  {
    RoomForOne(m, acc, poe, i);
  }

  /** Fill the next place of the array. */
  method Store(found: array<Lower>, ctr: nat, x: Lower)
    requires ctr < found.Length
    modifies found
    ensures found[..ctr + 1] == old(found[..ctr]) + [x]
  {
    found[ctr] := x;
  }

  /** Where to look next: in the next layer, or below the layer `idx` of the root stack. */
  method GoOn(m: Mount, d: LookupData, poe: seq<Lower>, root: bool, i: nat, idx: nat, ghost acc: seq<Lower>,
              ghost goal: Outcome)
    returns (poe': seq<Lower>, root': bool, i': nat)
    requires d.Valid() && FoundOne(m, d.Model(), poe, root, i, idx, acc, goal)
    requires !(d.redirected && !m.follow) && !d.stop && 1 <= idx
    ensures OnTrack(m, d.Model(), poe', root', i', acc, goal)
    ensures (!root && root') || (root' == root && poe' == poe && i' == i + 1)
  {
    poe', root', i' := poe, root, i;
    RenderSlash(d.target);
    if d.redirected && d.name[0] == '/' && !root {
      poe', root' := Roots(m), true;
      i' := idx - 1;
    }
    i' := i' + 1;
  }

  /** The layer loop.  The array has one place per lower layer and is never overrun; the loop
      ends although it may switch to the root stack and set its index back. */
  method LookupLayers(m: Mount, d: LookupData, poe0: seq<Lower>, atRoot: bool) returns (err: Errno, stack: seq<Lower>)
    requires m.Valid() && d.Valid() && Sane(d.Model()) && GoodStack(m, poe0)
    modifies d
    ensures Through(m, old(d.Model()), poe0, atRoot, 0, []) == if err != OK then Refused else Stack(stack)
  {
    var poe, root := poe0, atRoot;
    var found := new Lower[|m.lowers|];
    var ctr, i := 0, 0;
    ghost var goal := Through(m, d.Model(), poe, root, i, []);
    assert found[..0] == [];
    while !d.stop && i < |poe|
      invariant d.Valid() && 0 <= ctr <= found.Length && 0 <= i
      invariant OnTrack(m, d.Model(), poe, root, i, found[..ctr], goal)
      decreases if root then 0 else 1, if i <= |poe| then |poe| - i else 0
    {
      var lower := poe[i];
      ghost var acc := found[..ctr];
      HasRoom(m, d.Model(), poe, root, i, acc, goal);
      var this';
      err, this' := LayerRound(m, d, poe, root, i, acc, goal);
      if err != OK {
        return err, [];
      }
      if this'.None? {
        i := i + 1;
        continue;
      }
      Store(found, ctr, Lower(lower.idx, this'.value));
      ctr := ctr + 1;
      if d.redirected && !m.follow {
        return EIO, [];
      }
      if d.stop {
        return OK, found[..ctr];
      }
      poe, root, i := GoOn(m, d, poe, root, i, lower.idx, found[..ctr], goal);
    }
    LoopEnd(m, d.Model(), poe, root, i, found[..ctr], goal);
    return OK, found[..ctr];
  }

  lemma ThroughStep(m: Mount, d: Data, poe: seq<Lower>, atRoot: bool, i: nat, acc: seq<Lower>)
    requires !d.stop && i < |poe|
    ensures var f := LookupLayer(poe[i].node, d.(last := IsLast(m, poe, i)));
      Through(m, d, poe, atRoot, i, acc) ==
        match f
        case Fault => Refused
        case Found(d1, None) => Through(m, d1, poe, atRoot, i + 1, acc)
        case Found(d1, Some(n)) =>
          var acc1 := acc + [Lower(poe[i].idx, n)];
          if d1.redirected && !m.follow then Refused
          else if d1.stop then Stack(acc1)
          else if d1.redirected && d1.target.Abs? && !atRoot then
            Through(m, d1, Roots(m), true, poe[i].idx, acc1)
          else Through(m, d1, poe, atRoot, i + 1, acc1)
  {
  }

  /** Look a name up in the overlay: first the upper directory, then the layers. */
  method LookupName(m: Mount, up: Option<Node>, name: Name, pstack: seq<Lower>, isRoot: bool) returns (o: Obj)
    requires m.Valid() && GoodStack(m, pstack) && !IsDot(name) && (up.Some? ==> up.value.Dir?)
    ensures o == LookupEntry(m, UpperOne(up, name), name, pstack, isRoot)
  {
    var d := new LookupData(name, if m.follow then false else pstack == []);
    var upperdentry: Option<Node> := None;
    var upperredirect: Option<Target> := None;
    var upperopaque := false;
    var poe, root := pstack, isRoot;
    var err;
    JudgeShape(UpperOne(up, name), d.Model(), [], []);
    RootsGood(m);
    if up.Some? {
      err, upperdentry := LookupInLayer(up.value, d);
      if err != OK {
        return Error;
      }
      if d.redirected {
        TargetOfRender(d.target);
        upperredirect := TargetOfText(d.name);
        RenderSlash(d.target);
        if d.name[0] == '/' {
          poe, root := Roots(m), true;
        }
      }
      upperopaque := d.isOpaque;
    }
    var stack;
    err, stack := LookupLayers(m, d, poe, root);
    if err != OK {
      return Error;
    }
    o := Assemble(upperdentry, upperopaque, upperredirect, stack);
  }
}
