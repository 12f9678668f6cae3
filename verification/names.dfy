/** Path components, absolute paths and the text form of a redirect mark.

An overlay redirect is either one component (relative to the parent's lower
directories) or an absolute path below the root of a layer.  `Join` is the text of an
absolute path; `ParseRedirect` reads a mark back. */
module Names {

  datatype Option<+T> = None | Some(value: T)

  /** What the kernel accepts as one path component. */
  predicate IsName(s: string) {
    s != "" && '/' !in s && '\0' !in s
  }

  type Name = s: string | IsName(s) witness "a"

  type Path = seq<Name>

  /** Text kept in an extended attribute and handled as a C string. */
  type CString = s: string | '\0' !in s witness ""

  datatype Redirect = Relative(name: Name) | Absolute(path: Path)

  function Join(p: Path): (s: string)
    ensures '\0' !in s
    ensures p != [] ==> |s| > 1 && s[0] == '/'
  {
    if p == [] then "" else "/" + p[0] + Join(p[1..])
  }

  lemma {:induction false} JoinConcat(p: Path, q: Path)
    ensures Join(p + q) == Join(p) + Join(q)
  {
    if p == [] {
      assert p + q == q;
    } else {
      assert (p + q)[1..] == p[1..] + q;
      JoinConcat(p[1..], q);
    }
  }

  /** `strchrnul(s + from, '/') - s`: the next slash, or the end of the text. */
  function NextSlash(s: string, from: nat): (k: nat)
    requires from <= |s|
    ensures from <= k <= |s|
    ensures forall j :: from <= j < k ==> s[j] != '/'
    ensures k < |s| ==> s[k] == '/'
    decreases |s| - from
  {
    if from == |s| || s[from] == '/' then from else NextSlash(s, from + 1)
  }

  /** The components of an absolute path text, if it is well formed: every component
      follows a single slash and is not empty. */
  function Split(s: CString): (r: Option<Path>)
    decreases |s|
  {
    if s == "" then Some([])
    else if s[0] != '/' then None
    else
      var e := NextSlash(s, 1);
      if e == 1 then None
      else
        var tail: CString := s[e..];
        match Split(tail)
        case None => None
        case Some(p) => Some([s[1..e]] + p)
  }

  /** A text that starts with a component and then a slash (or ends there) is cut at the
      end of that component. */
  lemma NextSlashAfter(s: string, from: nat, n: Name, post: string)
    requires from <= |s|
    requires s[from..] == n + post
    requires post == "" || post[0] == '/'
    ensures NextSlash(s, from) == from + |n|
    ensures s[from..from + |n|] == n && s[from + |n|..] == post
  {
    assert s[from..from + |n|] == s[from..][..|n|] == n;
    assert s[from + |n|..] == s[from..][|n|..] == post;
    assert forall j :: from <= j < from + |n| ==> s[j] == n[j - from];
    assert from + |n| < |s| ==> s[from + |n|] == post[0];
  }

  /** `Split` accepts exactly the texts `Join` produces and inverts it. */
  lemma {:induction false} SplitJoin(p: Path)
    ensures Split(Join(p)) == Some(p)
  {
    if p == [] {
    } else {
      var s := Join(p);
      assert s[1..] == p[0] + Join(p[1..]);
      NextSlashAfter(s, 1, p[0], Join(p[1..]));
      SplitJoin(p[1..]);
      assert p == [p[0]] + p[1..];
    }
  }

  lemma {:induction false} SplitSound(s: CString, p: Path)
    requires Split(s) == Some(p)
    ensures s == Join(p)
    decreases |s|
  {
    if s == "" {
    } else {
      var e := NextSlash(s, 1);
      var tail: CString := s[e..];
      SplitSound(tail, p[1..]);
      assert s == "/" + s[1..e] + tail;
    }
  }

  /** The redirect a mark stands for; an invalid mark is ignored. */
  function ParseRedirect(s: CString): (r: Option<Redirect>)
    ensures r.Some? && r.value.Absolute? ==> r.value.path != []
  {
    if s == "" then None
    else if s[0] == '/' then
      (match Split(s)
       case Some(p) => Some(Absolute(p))
       case None => None)
    else if '/' in s then None
    else Some(Relative(s))
  }

  function Text(r: Redirect): (s: CString)
  {
    match r
    case Relative(n) => n
    case Absolute(p) => Join(p)
  }

  /** Writing a redirect and reading it back: every mark this file system writes is
      accepted by the reader and means what was written. */
  lemma ParseText(r: Redirect)
    requires r.Absolute? ==> r.path != []
    ensures ParseRedirect(Text(r)) == Some(r)
  {
    match r
    case Relative(n) =>
      assert n[0] in n;
    case Absolute(p) =>
      SplitJoin(p);
  }

  /** Conversely an accepted mark is the text of what it means, so two different accepted
      marks never mean the same redirect. */
  lemma TextParse(s: CString)
    requires ParseRedirect(s).Some?
    ensures Text(ParseRedirect(s).value) == s
  {
    if s[0] == '/' {
      SplitSound(s, Split(s).value);
    }
  }
}
