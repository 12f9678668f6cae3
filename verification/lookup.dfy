/** Merged lookup: what one name means through the upper layer and the stack of lower
directories of its parent.

`Judge` is the verdict on one entry of one layer, `Walk` follows an absolute redirect
through one layer, `Through` runs down the layers and may restart at the root stack, and
`LookupEntry` puts the result together.  All are total. */
module Lookup {
  import opened Names
  import opened Layers

  /** The mounted overlay: its lower layers, topmost first, and the redirect options. */
  datatype Mount = Mount(lowers: seq<Node>, follow: bool, redirectDir: bool) {
    ghost predicate Valid() {
      && (forall i :: 0 <= i < |lowers| ==> lowers[i].Dir?)
      && (redirectDir ==> follow)
    }
  }

  /** One element of a lower stack: the entry found in the layer with index `idx` (from 1). */
  datatype Lower = Lower(idx: nat, node: Node)

  /** The lower stack of the overlay root. */
  function Roots(m: Mount): (r: seq<Lower>)
    ensures |r| == |m.lowers|
    ensures forall i :: 0 <= i < |r| ==> r[i] == Lower(i + 1, m.lowers[i])
  {
    seq(|m.lowers|, i requires 0 <= i < |m.lowers| => Lower(i + 1, m.lowers[i]))
  }

  /** The name being looked up: one component in the parent's directories, or an absolute
      path in each layer. */
  datatype Target = Rel(name: Name) | Abs(path: Path)

  /** The state a lookup carries from layer to layer. */
  datatype Data = Data(target: Target, isDir: bool, stop: bool, last: bool, redirected: bool)

  /** Result of looking a component up in one real directory. */
  datatype One = Missing | Failed | Hit(node: Node)

  datatype Found = Fault | Found(d: Data, node: Option<Node>)

  function AsOne(x: Option<Node>): One {
    match x
    case None => Missing
    case Some(n) => if n.Broken? then Failed else Hit(n)
  }

  predicate IsDot(name: Name) {
    name == "." || name == ".."
  }

  function LookupOne(base: Node, name: Name): One {
    if IsDot(name) then Failed
    else if base.Dir? && name in base.entries then AsOne(Some(base.entries[name]))
    else Missing
  }

  /** The target after a redirect mark was found on the component between `pre` and `post`. */
  function Redirected(t: Target, r: Redirect, pre: Path, post: Path): Target {
    match r
    case Absolute(p) => Abs(p + post)
    case Relative(n) => if t.Rel? then Rel(n) else Abs(pre + [n] + post)
  }

  /** Verdict on the entry found for one component; `pre` and `post` are the components
      before and after it. */
  function Judge(one: One, d: Data, pre: Path, post: Path): Found {
    match one
    case Missing => Found(d, None)
    case Failed => Fault
    case Hit(n) =>
      if n.White? then Found(d.(stop := true), None)
      else if !n.Dir? then
        Found(d.(stop := true), if d.isDir then None else Some(n))
      else
        var d1 := if post == [] then d.(isDir := true) else d;
        if d.last then Found(d1, Some(n))
        else if n.isOpaque then Found(d1.(stop := true), Some(n))
        else
          match MarkOf(n)
          case None => Found(d1, Some(n))
          case Some(r) =>
            Found(d1.(target := Redirected(d.target, r, pre, post), redirected := true,
                      stop := if r.Absolute? then false else d1.stop), Some(n))
  }

  /** The valid redirect mark of a directory, if any. */
  function MarkOf(n: Node): (r: Option<Redirect>)
    ensures r.Some? && r.value.Absolute? ==> r.value.path != []
  {
    if n.Dir? && n.redirect.Some? then ParseRedirect(n.redirect.value) else None
  }

  /** Does the upper entry hide everything below it (a whiteout or an opaque directory)? */
  predicate Covers(one: One, last: bool) {
    one.Hit? && (one.node.White? || (one.node.Dir? && !last && one.node.isOpaque))
  }

  /** The last `rem` components of an absolute target, looked up in one layer. */
  function Walk(base: Node, d: Data, rem: nat): Found
    decreases rem
  {
    if !d.target.Abs? || rem == 0 || |d.target.path| < rem || !base.Dir? then Found(d, None)
    else
      var p := d.target.path;
      var at := |p| - rem;
      match Judge(LookupOne(base, p[at]), d, p[..at], p[at + 1..])
      case Fault => Fault
      case Found(d1, n) =>
        if rem == 1 || n.None? || !n.value.Dir? then Found(d1, n)
        else Walk(n.value, d1, rem - 1)
  }

  function LookupLayer(base: Node, d: Data): Found {
    match d.target
    case Rel(name) => Judge(LookupOne(base, name), d, [], [])
    case Abs(p) => Walk(base, d, |p|)
  }

  datatype Outcome = Refused | Stack(stack: seq<Lower>)

  /** Does this layer come last, so that its marks need not be read? */
  predicate IsLast(m: Mount, poe: seq<Lower>, i: nat)
    requires i < |poe|
  {
    if m.follow then poe[i].idx == |m.lowers| else i == |poe| - 1
  }

  /** The layer loop, from element `i` of the stack `poe`; `acc` is the stack found so far.
      An absolute redirect found below a directory other than the root continues with the
      next layer of the root stack. */
  function Through(m: Mount, d: Data, poe: seq<Lower>, atRoot: bool, i: nat, acc: seq<Lower>): Outcome
    decreases if atRoot then 0 else 1, if i <= |poe| then |poe| - i else 0
  {
    if d.stop || i >= |poe| then Stack(acc)
    else
      match LookupLayer(poe[i].node, d.(last := IsLast(m, poe, i)))
      case Fault => Refused
      case Found(d1, None) => Through(m, d1, poe, atRoot, i + 1, acc)
      case Found(d1, Some(n)) =>
        var acc1 := acc + [Lower(poe[i].idx, n)];
        if d1.redirected && !m.follow then Refused
        else if d1.stop then Stack(acc1)
        else if d1.redirected && d1.target.Abs? && !atRoot then
          Through(m, d1, Roots(m), true, poe[i].idx, acc1)
        else Through(m, d1, poe, atRoot, i + 1, acc1)
  }

  /** What an overlay name stands for. */
  datatype Obj =
    | Error
    | Absent(white: bool)
    | FileObj(inUpper: bool, node: Node)
    | DirObj(up: Option<Node>, isOpaque: bool, redirect: Option<Target>, stack: seq<Lower>, isRoot: bool)

  function Start(m: Mount, name: Name, pstack: seq<Lower>): Data {
    Data(Rel(name), false, false, if m.follow then false else pstack == [], false)
  }

  /** The object found for `name`, from the upper entry `one` and the parent's stack. */
  function LookupEntry(m: Mount, one: One, name: Name, pstack: seq<Lower>, atRoot: bool): Obj {
    var d := Start(m, name, pstack);
    match Judge(one, d, [], [])
    case Fault => Error
    case Found(d1, u) =>
      var restart := d1.redirected && d1.target.Abs?;
      var poe := if restart then Roots(m) else pstack;
      match Through(m, d1, poe, atRoot || restart, 0, [])
      case Refused => Error
      case Stack(stack) => Assemble(u, Covers(one, d.last), if d1.redirected then Some(d1.target) else None, stack)
  }

  function Assemble(u: Option<Node>, covered: bool, redirect: Option<Target>, stack: seq<Lower>): Obj {
    match u
    case Some(n) =>
      if n.Dir? then DirObj(Some(n), covered, redirect, stack, false) else FileObj(true, n)
    case None =>
      if stack == [] then Absent(covered)
      else if stack[0].node.Dir? then DirObj(None, covered, redirect, stack, false)
      else FileObj(false, stack[0].node)
  }
}
