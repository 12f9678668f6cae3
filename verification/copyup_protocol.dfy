/** Concurrent copy up: every thread copies up one object and its ancestors, topmost first, with
lockless checks and one lock per overlay inode.

A run is any interleaving of the steps of any number of threads.  There is no concurrent
rename: names, parents and inodes stay. */
module CopyUpProtocol {

  type Dentry = nat
  type Inode = nat
  type Thread = nat

  const ROOT: Dentry := 0

  /** The overlay names and their inodes.  Hard links share an inode; a directory has one name.
      An `indexed` inode (never a directory's) is copied up to the index directory first and
      linked to its names afterwards.  A disconnected name has no known parent. */
  datatype Tree = Tree(parent: Dentry -> Dentry, inode: Dentry -> Inode, depth: Dentry -> nat,
                       isDir: Inode -> bool, indexed: Inode -> bool, disconnected: Dentry -> bool) {
    ghost predicate Valid() {
      && parent(ROOT) == ROOT
      && (forall d :: d != ROOT ==> depth(parent(d)) < depth(d))
      && (forall d :: isDir(inode(parent(d))))
      && (forall d, e :: isDir(inode(d)) && inode(d) == inode(e) ==> d == e)
      && (forall i :: isDir(i) ==> !indexed(i))
      && (forall d :: disconnected(d) ==> !isDir(inode(d)) && d != ROOT)
    }
  }

  /** Where a thread is in its copy up.  `next` is the name it is copying up. */
  datatype Pc =
    | CheckUpper
    | CheckAlias
    | FindTop(next: Dentry)
    | Lock(next: Dentry)
    | Recheck(next: Dentry)
    | TestUpper(next: Dentry)
    | CopyTemp(next: Dentry)
    | InstallTemp(next: Dentry)
    | PublishUpper(next: Dentry)
    | SetNlink(next: Dentry)
    | SetAlias(next: Dentry)
    | TestAlias(next: Dentry)
    | LinkName(next: Dentry)
    | LinkAlias(next: Dentry)
    | Unlock(next: Dentry, ok: bool)
    | Done(ok: bool)

  datatype Caller = Caller(target: Dentry, pc: Pc)

  /** Shared state: which inodes have an upper pointer, which names are marked as having an upper
      alias, which names and index entries exist in the upper file system, and who holds which
      lock; `sets` and `installs` count, per inode, how often its upper pointer was set and how
      often a finished copy was installed. */
  datatype State = State(upper: set<Inode>, alias: set<Dentry>, names: set<Dentry>, index: set<Inode>,
                         locks: map<Inode, Thread>, callers: map<Thread, Caller>,
                         sets: map<Inode, nat>, installs: map<Inode, nat>)

  function Count(m: map<Inode, nat>, i: Inode): nat {
    if i in m then m[i] else 0
  }

  function OneMore(m: map<Inode, nat>, i: Inode): map<Inode, nat> {
    m[i := Count(m, i) + 1]
  }

  // ---------------------------------------------------------------------------------
  // Steps

  /** Where a thread that copies up `d` and is at `pc` goes next; where the source can fail,
      `fails` says that it does. */
  ghost function Goto(tr: Tree, s: State, d: Dentry, pc: Pc, fails: bool): Pc {
    match pc
    case CheckUpper =>
      if tr.inode(d) in s.upper then CheckAlias else if tr.disconnected(d) then Lock(d) else FindTop(d)
    case CheckAlias =>
      if d in s.alias || tr.disconnected(d) then Done(true) else FindTop(d)
    case FindTop(next) =>
      if tr.inode(tr.parent(next)) in s.upper then Lock(next) else FindTop(tr.parent(next))
    case Lock(next) =>
      if fails then Done(false) else Recheck(next)
    case Recheck(next) =>
      if next in s.alias then CheckUpper else TestUpper(next)
    case TestUpper(next) =>
      if tr.inode(next) in s.upper then TestAlias(next)
      else if tr.disconnected(next) && !tr.indexed(tr.inode(next)) then Unlock(next, false)
      else CopyTemp(next)
    case CopyTemp(next) =>
      if fails then Unlock(next, false) else InstallTemp(next)
    case InstallTemp(next) =>
      if fails then Unlock(next, false) else PublishUpper(next)
    case PublishUpper(next) =>
      if tr.indexed(tr.inode(next)) then SetNlink(next) else SetAlias(next)
    case SetNlink(next) =>
      if fails then Unlock(next, false) else TestAlias(next)
    case SetAlias(next) =>
      TestAlias(next)
    case TestAlias(next) =>
      if next in s.alias || tr.disconnected(next) then Unlock(next, true) else LinkName(next)
    case LinkName(next) =>
      if fails then Unlock(next, false) else LinkAlias(next)
    case LinkAlias(next) =>
      Unlock(next, !fails)
    case Unlock(next, ok) =>
      if ok then CheckUpper else Done(false)
    case Done(ok) =>
      Done(ok)
  }

  /** What the step at `pc` adds to the upper layer and to what the overlay knows of it. */
  ghost function Publishes(tr: Tree, pc: Pc): set<Inode> {
    if pc.PublishUpper? then {tr.inode(pc.next)} else {}
  }

  ghost function Marks(pc: Pc): set<Dentry> {
    if pc.SetAlias? || pc.LinkAlias? then {pc.next} else {}
  }

  ghost function Names(tr: Tree, pc: Pc, fails: bool): set<Dentry> {
    if !fails && ((pc.InstallTemp? && !tr.indexed(tr.inode(pc.next))) || pc.LinkName?) then {pc.next} else {}
  }

  ghost function Indexes(tr: Tree, pc: Pc, fails: bool): set<Inode> {
    if !fails && pc.InstallTemp? && tr.indexed(tr.inode(pc.next)) then {tr.inode(pc.next)} else {}
  }

  ghost function Locks(tr: Tree, s: State, t: Thread, pc: Pc, fails: bool): map<Inode, Thread> {
    if pc.Lock? && !fails then s.locks[tr.inode(pc.next) := t]
    else if pc.Unlock? || (pc.Recheck? && pc.next in s.alias) then s.locks - {tr.inode(pc.next)}
    else s.locks
  }

  /** A lock is taken only when it is free; the other steps are always possible. */
  ghost predicate Enabled(tr: Tree, s: State, pc: Pc, fails: bool) {
    !pc.Done? && (pc.Lock? && !fails ==> tr.inode(pc.next) !in s.locks)
  }

  ghost predicate Step(tr: Tree, s: State, s': State, t: Thread, fails: bool) {
    t in s.callers &&
    var d, pc := s.callers[t].target, s.callers[t].pc;
    && Enabled(tr, s, pc, fails)
    && s' == State(s.upper + Publishes(tr, pc), s.alias + Marks(pc), s.names + Names(tr, pc, fails),
                   s.index + Indexes(tr, pc, fails), Locks(tr, s, t, pc, fails),
                   s.callers[t := Caller(d, Goto(tr, s, d, pc, fails))],
                   if pc.PublishUpper? then OneMore(s.sets, tr.inode(pc.next)) else s.sets,
                   if pc.InstallTemp? && !fails then OneMore(s.installs, tr.inode(pc.next)) else s.installs)
  }

  /** A new thread starts a copy up of `d`. */
  ghost predicate Begin(s: State, s': State, t: Thread, d: Dentry) {
    t !in s.callers && s' == s.(callers := s.callers[t := Caller(d, CheckUpper)])
  }

  /** What happens between two states of a run. */
  datatype Event = Call(t: Thread, d: Dentry) | Move(t: Thread, fails: bool)

  ghost predicate Next(tr: Tree, s: State, s': State, e: Event) {
    match e
    case Call(t, d) => Begin(s, s', t, d)
    case Move(t, fails) => Step(tr, s, s', t, fails)
  }

  /** Nobody is copying up; what is in the upper layer may be anything a mount can find there. */
  ghost predicate Init(tr: Tree, s: State) {
    && Closed(tr, s) && s.locks == map[] && s.callers == map[]
    && (forall i :: Count(s.sets, i) == if i in s.upper then 1 else 0)
    && s.installs == s.sets
  }

  ghost predicate Run(tr: Tree, ss: seq<State>, es: seq<Event>) {
    |ss| == |es| + 1 && Init(tr, ss[0]) && forall i :: 0 <= i < |es| ==> Next(tr, ss[i], ss[i + 1], es[i])
  }

  // ---------------------------------------------------------------------------------
  // Invariant

  /** Whether a thread at `pc` holds the lock of `pc.next`. */
  predicate Holds(pc: Pc) {
    HasNext(pc) && !pc.FindTop? && !pc.Lock?
  }

  predicate HasNext(pc: Pc) {
    !pc.CheckUpper? && !pc.CheckAlias? && !pc.Done?
  }

  /** Copying: the finished copy is not yet visible as the upper pointer. */
  predicate Copying(pc: Pc) {
    pc.CopyTemp? || pc.InstallTemp? || pc.PublishUpper?
  }

  /** The upper layer holds directories all the way above what it holds. */
  ghost predicate Closed(tr: Tree, s: State) {
    && ROOT in s.names && tr.inode(ROOT) in s.upper && ROOT in s.alias
    && (forall d :: d in s.names && d != ROOT ==> tr.parent(d) in s.names && tr.inode(tr.parent(d)) in s.upper)
    && (forall d :: d in s.alias ==> d in s.names && tr.inode(d) in s.upper)
    && (forall d :: tr.inode(d) in s.upper && tr.isDir(tr.inode(d)) ==> d in s.names)
    && (forall d :: d in s.names && tr.indexed(tr.inode(d)) ==> tr.inode(d) in s.index)
    && (forall i :: i in s.upper && tr.indexed(i) ==> i in s.index)
    && (forall d :: tr.disconnected(d) ==> d !in s.names)
  }

  /** What copying up `d` still has to bring about. */
  ghost predicate Lacks(tr: Tree, s: State, d: Dentry) {
    if tr.disconnected(d) then tr.inode(d) !in s.upper else d !in s.alias
  }

  /** `a` is `d` or one of its ancestors. */
  ghost predicate Above(tr: Tree, a: Dentry, d: Dentry)
    requires tr.Valid()
    decreases tr.depth(d)
  {
    a == d || (d != ROOT && Above(tr, a, tr.parent(d)))
  }

  /** What thread `t` may rely on. */
  ghost predicate Right(tr: Tree, s: State, t: Thread)
    requires tr.Valid() && t in s.callers
  {
    var d, pc := s.callers[t].target, s.callers[t].pc;
    && (pc.CheckAlias? ==> tr.inode(d) in s.upper)
    && (pc == Done(true) ==> !Lacks(tr, s, d))
    && (HasNext(pc) ==> RightNext(tr, s, t, d, pc, pc.next, tr.inode(pc.next)))
  }

  ghost predicate RightNext(tr: Tree, s: State, t: Thread, d: Dentry, pc: Pc, next: Dentry, i: Inode)
    requires tr.Valid() && HasNext(pc)
  {
    && next != ROOT && (if tr.disconnected(d) then next == d && !pc.FindTop? else Above(tr, next, d))
    && (Holds(pc) ==> i in s.locks && s.locks[i] == t)
    && (!pc.FindTop? ==> tr.disconnected(next) || tr.inode(tr.parent(next)) in s.upper)
    && RightWork(tr, s, pc, next, i)
  }

  /** What has been brought about when a thread is at `pc`. */
  ghost predicate RightWork(tr: Tree, s: State, pc: Pc, next: Dentry, i: Inode) {
    && (Copying(pc) ==> i !in s.upper && (tr.disconnected(next) ==> tr.indexed(i)))
    && (pc.PublishUpper? ==> if tr.indexed(i) then i in s.index else next in s.names)
    && (pc.SetNlink? ==> tr.indexed(i))
    && (pc.SetAlias? || pc.LinkAlias? ==> next in s.names)
    && (pc.SetNlink? || pc.SetAlias? || pc.TestAlias? || pc.LinkName? || pc.LinkAlias? ==> i in s.upper)
    && (pc.LinkName? ==> !tr.disconnected(next))
    && (pc.Unlock? && pc.ok ==> !Lacks(tr, s, next))
  }

  ghost predicate AllRight(tr: Tree, s: State)
    requires tr.Valid()
  {
    forall t :: t in s.callers ==> Right(tr, s, t)
  }

  /** Every lock is held by a thread between locking and unlocking it. */
  ghost predicate LocksHeld(tr: Tree, s: State) {
    forall i :: i in s.locks ==>
      s.locks[i] in s.callers && Holds(s.callers[s.locks[i]].pc) && tr.inode(s.callers[s.locks[i]].pc.next) == i
  }

  /** The holder of the lock of `i` has installed the copy and not yet set the upper pointer. */
  ghost predicate Publishing(s: State, i: Inode) {
    i in s.locks && s.locks[i] in s.callers && s.callers[s.locks[i]].pc.PublishUpper?
  }

  /** No inode is copied up twice and no upper pointer set twice. */
  ghost predicate Once(s: State) {
    && (forall i :: Count(s.sets, i) == if i in s.upper then 1 else 0)
    && (forall i :: Count(s.installs, i) == if i in s.upper || Publishing(s, i) then 1 else 0)
  }

  ghost predicate Inv(tr: Tree, s: State)
    requires tr.Valid()
  {
    Closed(tr, s) && LocksHeld(tr, s) && AllRight(tr, s) && Once(s)
  }

  // ---------------------------------------------------------------------------------
  // Every step keeps the invariant

  lemma StepClosed(tr: Tree, s: State, s': State, t: Thread, fails: bool)
    requires tr.Valid() && Inv(tr, s) && Step(tr, s, s', t, fails)
    ensures Closed(tr, s')
  {
    assert Right(tr, s, t);
  }

  /** Nothing that was brought about is undone. */
  lemma StepGrows(tr: Tree, s: State, s': State, t: Thread, fails: bool)
    requires Step(tr, s, s', t, fails)
    ensures s.upper <= s'.upper && s.alias <= s'.alias && s.names <= s'.names && s.index <= s'.index
    ensures forall u :: u in s.callers && u != t ==> u in s'.callers && s'.callers[u] == s.callers[u]
    ensures t in s'.callers && s'.callers[t].target == s.callers[t].target
  {
  }

  /** Between locking and unlocking a thread stays with one name. */
  lemma GotoKeeps(tr: Tree, s: State, d: Dentry, pc: Pc, fails: bool)
    requires Holds(pc) && !pc.Unlock? && !(pc.Recheck? && pc.next in s.alias)
    ensures Holds(Goto(tr, s, d, pc, fails)) && Goto(tr, s, d, pc, fails).next == pc.next
    ensures Goto(tr, s, d, pc, fails).PublishUpper? <==> pc.InstallTemp? && !fails
  {
  }

  /** Two threads are never between locking and unlocking the same inode. */
  lemma Exclusive(tr: Tree, s: State, t: Thread, u: Thread)
    requires tr.Valid() && AllRight(tr, s)
    requires t in s.callers && u in s.callers && t != u && Holds(s.callers[t].pc) && Holds(s.callers[u].pc)
    ensures tr.inode(s.callers[t].pc.next) != tr.inode(s.callers[u].pc.next)
  {
    assert Right(tr, s, t) && Right(tr, s, u);
  }

  /** A lock that the step does not take was there before. */
  lemma LocksBefore(tr: Tree, s: State, t: Thread, pc: Pc, fails: bool, i: Inode)
    requires i in Locks(tr, s, t, pc, fails) && !(pc.Lock? && !fails && i == tr.inode(pc.next))
    ensures i in s.locks && Locks(tr, s, t, pc, fails)[i] == s.locks[i]
    ensures pc.Unlock? || (pc.Recheck? && pc.next in s.alias) ==> i != tr.inode(pc.next)
  {
  }

  /** A lock on another inode stays. */
  lemma LocksStay(tr: Tree, s: State, t: Thread, pc: Pc, fails: bool, i: Inode)
    requires Enabled(tr, s, pc, fails) && i in s.locks && (Holds(pc) ==> i != tr.inode(pc.next))
    ensures i in Locks(tr, s, t, pc, fails) && Locks(tr, s, t, pc, fails)[i] == s.locks[i]
  {
  }

  lemma StepLocks(tr: Tree, s: State, s': State, t: Thread, fails: bool, i: Inode)
    requires tr.Valid() && LocksHeld(tr, s) && AllRight(tr, s) && Step(tr, s, s', t, fails)
    requires i in s'.locks
    ensures s'.locks[i] in s'.callers && Holds(s'.callers[s'.locks[i]].pc)
    ensures tr.inode(s'.callers[s'.locks[i]].pc.next) == i
  {
    var d, pc := s.callers[t].target, s.callers[t].pc;
    if pc.Lock? && !fails && i == tr.inode(pc.next) {
    } else {
      LocksBefore(tr, s, t, pc, fails, i);
      if s.locks[i] == t {
        GotoKeeps(tr, s, d, pc, fails);
      }
    }
  }

  lemma StepSets(tr: Tree, s: State, s': State, t: Thread, fails: bool, i: Inode)
    requires tr.Valid() && t in s.callers && Right(tr, s, t) && Once(s) && Step(tr, s, s', t, fails)
    ensures Count(s'.sets, i) == if i in s'.upper then 1 else 0
  {
  }

  lemma PublishingOwn(tr: Tree, s: State, s': State, t: Thread, fails: bool)
    requires tr.Valid() && Step(tr, s, s', t, fails) && Right(tr, s, t) && Holds(s.callers[t].pc)
    ensures Publishing(s', tr.inode(s.callers[t].pc.next)) <==> s.callers[t].pc.InstallTemp? && !fails
  {
    var d, pc := s.callers[t].target, s.callers[t].pc;
    if !pc.Unlock? && !(pc.Recheck? && pc.next in s.alias) {
      GotoKeeps(tr, s, d, pc, fails);
    }
  }

  lemma PublishingOther(tr: Tree, s: State, s': State, t: Thread, fails: bool, i: Inode)
    requires Step(tr, s, s', t, fails) && LocksHeld(tr, s)
    requires Holds(s.callers[t].pc) ==> i != tr.inode(s.callers[t].pc.next)
    ensures Publishing(s', i) <==> Publishing(s, i)
  {
    var pc := s.callers[t].pc;
    StepGrows(tr, s, s', t, fails);
    if i in s.locks {
      LocksStay(tr, s, t, pc, fails, i);
      assert s.locks[i] != t;
    } else if i in s'.locks && !(pc.Lock? && !fails && i == tr.inode(pc.next)) {
      LocksBefore(tr, s, t, pc, fails, i);
    }
  }

  lemma StepInstalls(tr: Tree, s: State, s': State, t: Thread, fails: bool, i: Inode)
    requires tr.Valid() && t in s.callers && Right(tr, s, t) && LocksHeld(tr, s) && Once(s) && Step(tr, s, s', t, fails)
    ensures Count(s'.installs, i) == if i in s'.upper || Publishing(s', i) then 1 else 0
  {
    var pc := s.callers[t].pc;
    if Holds(pc) && i == tr.inode(pc.next) {
      PublishingOwn(tr, s, s', t, fails);
    } else {
      PublishingOther(tr, s, s', t, fails, i);
    }
  }

  /** What holds of the locks of other threads while `t` moves. */
  lemma OthersLocked(tr: Tree, s: State, s': State, t: Thread, fails: bool, u: Thread)
    requires tr.Valid() && AllRight(tr, s) && Step(tr, s, s', t, fails)
    requires u in s.callers && u != t && Holds(s.callers[u].pc)
    ensures var i := tr.inode(s.callers[u].pc.next);
            i in s'.locks && s'.locks[i] == u && (i in s'.upper ==> i in s.upper)
  {
    var i, pc := tr.inode(s.callers[u].pc.next), s.callers[t].pc;
    if Holds(pc) {
      Exclusive(tr, s, t, u);
    }
    assert Right(tr, s, u);
    LocksStay(tr, s, t, pc, fails, i);
    assert i !in Publishes(tr, pc);
  }

  /** The other threads may still rely on what they relied on. */
  lemma StepOthers(tr: Tree, s: State, s': State, t: Thread, u: Thread)
    requires tr.Valid() && u in s.callers && u in s'.callers && s'.callers[u] == s.callers[u] && Right(tr, s, u)
    requires s.upper <= s'.upper && s.alias <= s'.alias && s.names <= s'.names && s.index <= s'.index
    requires Holds(s.callers[u].pc) ==>
               var i := tr.inode(s.callers[u].pc.next);
               i in s'.locks && s'.locks[i] == u && (i in s'.upper ==> i in s.upper)
    ensures Right(tr, s', u)
  {
    var d, pc := s.callers[u].target, s.callers[u].pc;
    if HasNext(pc) {
      assert RightNext(tr, s', u, d, pc, pc.next, tr.inode(pc.next));
    }
  }

  /** The thread itself may rely on what its next step needs: at the start ... */
  lemma SelfChecking(tr: Tree, s: State, s': State, t: Thread, fails: bool)
    requires tr.Valid() && Closed(tr, s) && Step(tr, s, s', t, fails) && Right(tr, s, t)
    requires s.callers[t].pc.CheckUpper? || s.callers[t].pc.CheckAlias?
    ensures Right(tr, s', t)
  {
    var d, pc, pc' := s.callers[t].target, s.callers[t].pc, s'.callers[t].pc;
    assert s'.upper == s.upper && s'.alias == s.alias;
    Checks(tr, s, d, pc, fails);
    if HasNext(pc') {
      assert RightNext(tr, s', t, d, pc', d, tr.inode(d));
    }
  }

  lemma Checks(tr: Tree, s: State, d: Dentry, pc: Pc, fails: bool)
    requires tr.Valid() && Closed(tr, s) && (pc.CheckUpper? || (pc.CheckAlias? && tr.inode(d) in s.upper))
    ensures var pc' := Goto(tr, s, d, pc, fails);
      && (pc'.CheckAlias? ==> tr.inode(d) in s.upper) && (pc' == Done(true) ==> !Lacks(tr, s, d))
      && (HasNext(pc') ==> d != ROOT && pc' == if tr.disconnected(d) then Lock(d) else FindTop(d))
  {
  }

  /** ... on the way up to the topmost name that is not copied up ... */
  lemma SelfFinding(tr: Tree, s: State, s': State, t: Thread, fails: bool)
    requires tr.Valid() && Closed(tr, s) && Step(tr, s, s', t, fails) && Right(tr, s, t)
    requires s.callers[t].pc.FindTop?
    ensures Right(tr, s', t)
  {
    StepGrows(tr, s, s', t, fails);
    var d, pc, pc' := s.callers[t].target, s.callers[t].pc, s'.callers[t].pc;
    assert pc' == Goto(tr, s, d, pc, fails);
    AboveParent(tr, pc.next, d);
    assert RightNext(tr, s', t, d, pc', pc'.next, tr.inode(pc'.next));
  }

  /** ... when it takes the lock ... */
  lemma SelfLocking(tr: Tree, s: State, s': State, t: Thread, fails: bool)
    requires tr.Valid() && Step(tr, s, s', t, fails) && Right(tr, s, t)
    requires s.callers[t].pc.Lock?
    ensures Right(tr, s', t)
  {
    StepGrows(tr, s, s', t, fails);
    var d, pc, pc' := s.callers[t].target, s.callers[t].pc, s'.callers[t].pc;
    assert pc' == Goto(tr, s, d, pc, fails);
    if !fails {
      assert RightNext(tr, s', t, d, pc', pc'.next, tr.inode(pc'.next));
    }
  }

  /** ... when it has let go of the lock ... */
  lemma SelfLeaving(tr: Tree, s: State, s': State, t: Thread, fails: bool)
    requires tr.Valid() && Step(tr, s, s', t, fails) && Right(tr, s, t)
    requires s.callers[t].pc.Unlock? || (s.callers[t].pc.Recheck? && s.callers[t].pc.next in s.alias)
    ensures Right(tr, s', t)
  {
    var pc, pc' := s.callers[t].pc, s'.callers[t].pc;
    assert pc' == Goto(tr, s, s.callers[t].target, pc, fails);
    assert pc'.CheckUpper? || pc' == Done(false);
  }

  /** ... and while it holds the lock. */
  lemma SelfHolding(tr: Tree, s: State, s': State, t: Thread, fails: bool)
    requires tr.Valid() && Step(tr, s, s', t, fails) && Right(tr, s, t)
    requires Holds(s.callers[t].pc) && Holds(s'.callers[t].pc) && s'.callers[t].pc.next == s.callers[t].pc.next
    ensures Right(tr, s', t)
  {
    var d, pc, pc' := s.callers[t].target, s.callers[t].pc, s'.callers[t].pc;
    StepGrows(tr, s, s', t, fails);
    var i := tr.inode(pc.next);
    WorkGoesOn(tr, s, s', d, pc, fails);
    assert i in s'.locks && s'.locks[i] == t;
    assert RightNext(tr, s', t, d, pc', pc.next, i);
  }

  lemma WorkGoesOn(tr: Tree, s: State, s': State, d: Dentry, pc: Pc, fails: bool)
    requires Holds(pc) && RightWork(tr, s, pc, pc.next, tr.inode(pc.next))
    requires s'.upper == s.upper + Publishes(tr, pc) && s'.alias == s.alias + Marks(pc)
    requires s'.names == s.names + Names(tr, pc, fails) && s'.index == s.index + Indexes(tr, pc, fails)
    requires HasNext(Goto(tr, s, d, pc, fails)) && Goto(tr, s, d, pc, fails).next == pc.next
    ensures RightWork(tr, s', Goto(tr, s, d, pc, fails), pc.next, tr.inode(pc.next))
  {
  }

  lemma {:induction false} AboveParent(tr: Tree, a: Dentry, d: Dentry)
    requires tr.Valid() && Above(tr, a, d) && a != ROOT
    ensures Above(tr, tr.parent(a), d)
    decreases tr.depth(d)
  {
    if a == d {
      assert Above(tr, tr.parent(a), tr.parent(d));
    } else {
      AboveParent(tr, a, tr.parent(d));
    }
  }

  lemma StepSelf(tr: Tree, s: State, s': State, t: Thread, fails: bool)
    requires tr.Valid() && Closed(tr, s) && Step(tr, s, s', t, fails) && Right(tr, s, t)
    ensures Right(tr, s', t)
  {
    var d, pc := s.callers[t].target, s.callers[t].pc;
    if pc.FindTop? {
      SelfFinding(tr, s, s', t, fails);
    } else if pc.Lock? {
      SelfLocking(tr, s, s', t, fails);
    } else if pc.CheckUpper? || pc.CheckAlias? {
      SelfChecking(tr, s, s', t, fails);
    } else if pc.Unlock? || (pc.Recheck? && pc.next in s.alias) {
      SelfLeaving(tr, s, s', t, fails);
    } else {
      GotoKeeps(tr, s, d, pc, fails);
      SelfHolding(tr, s, s', t, fails);
    }
  }

  lemma StepInv(tr: Tree, s: State, s': State, t: Thread, fails: bool)
    requires tr.Valid() && Inv(tr, s) && Step(tr, s, s', t, fails)
    ensures Inv(tr, s')
  {
    assert Right(tr, s, t);
    StepClosed(tr, s, s', t, fails);
    forall i | i in s'.locks
      ensures s'.locks[i] in s'.callers && Holds(s'.callers[s'.locks[i]].pc)
      ensures tr.inode(s'.callers[s'.locks[i]].pc.next) == i
    {
      StepLocks(tr, s, s', t, fails, i);
    }
    forall i: Inode
      ensures Count(s'.sets, i) == if i in s'.upper then 1 else 0
      ensures Count(s'.installs, i) == if i in s'.upper || Publishing(s', i) then 1 else 0
    {
      StepSets(tr, s, s', t, fails, i);
      StepInstalls(tr, s, s', t, fails, i);
    }
    StepGrows(tr, s, s', t, fails);
    forall u | u in s'.callers ensures Right(tr, s', u) {
      if u == t {
        StepSelf(tr, s, s', t, fails);
      } else {
        assert Right(tr, s, u);
        if Holds(s.callers[u].pc) { OthersLocked(tr, s, s', t, fails, u); }
        StepOthers(tr, s, s', t, u);
      }
    }
  }

  lemma BeginInv(tr: Tree, s: State, s': State, t: Thread, d: Dentry)
    requires tr.Valid() && Inv(tr, s) && Begin(s, s', t, d)
    ensures Inv(tr, s')
  {
    forall u | u in s'.callers ensures Right(tr, s', u) {
      if u != t {
        assert Right(tr, s, u);
        StepOthers(tr, s, s', t, u);
      }
    }
    forall i: Inode ensures Publishing(s', i) == Publishing(s, i) {}
  }

  /** The invariant holds in every state of every run. */
  lemma {:induction false} RunInv(tr: Tree, ss: seq<State>, es: seq<Event>, n: nat)
    requires tr.Valid() && Run(tr, ss, es) && n < |ss|
    ensures Inv(tr, ss[n])
  {
    if n == 0 {
    } else {
      RunInv(tr, ss, es, n - 1);
      match es[n - 1]
      case Call(t, d) => BeginInv(tr, ss[n - 1], ss[n - 1 + 1], t, d);
      case Move(t, fails) => StepInv(tr, ss[n - 1], ss[n - 1 + 1], t, fails);
    }
  }

  // ---------------------------------------------------------------------------------
  // What it means

  /** No interleaving copies an inode up twice or sets its upper pointer twice. */
  lemma CopiedUpOnce(tr: Tree, ss: seq<State>, es: seq<Event>, n: nat, i: Inode)
    requires tr.Valid() && Run(tr, ss, es) && n < |ss|
    ensures Count(ss[n].sets, i) <= 1 && Count(ss[n].installs, i) <= 1
  {
    RunInv(tr, ss, es, n);
  }

  /** At every moment, everything in the upper layer has all its ancestors there. */
  lemma {:induction false} AncestorsUp(tr: Tree, s: State, a: Dentry, d: Dentry)
    requires tr.Valid() && Closed(tr, s) && d in s.names && Above(tr, a, d)
    ensures a in s.names && (a != d ==> tr.inode(a) in s.upper)
    decreases tr.depth(d)
  {
    if a == d {
    } else {
      AncestorsUp(tr, s, a, tr.parent(d));
    }
  }

  /** A copy up that returned success has copied up the object and all its ancestors, and that
      stays so for the rest of the run. */
  lemma SuccessMeansCopied(tr: Tree, ss: seq<State>, es: seq<Event>, n: nat, t: Thread, a: Dentry)
    requires tr.Valid() && Run(tr, ss, es) && n < |ss|
    requires t in ss[n].callers && ss[n].callers[t].pc == Done(true)
    requires Above(tr, a, ss[n].callers[t].target)
    ensures var d := ss[n].callers[t].target;
            if tr.disconnected(d) then tr.inode(d) in ss[n].upper
            else a in ss[n].names && tr.inode(a) in ss[n].upper
  {
    RunInv(tr, ss, es, n);
    assert Right(tr, ss[n], t);
    var d := ss[n].callers[t].target;
    if !tr.disconnected(d) {
      AncestorsUp(tr, ss[n], a, d);
    }
  }

  /** Threads never block each other for ever: while one has not returned, one can move. */
  lemma NoDeadlock(tr: Tree, ss: seq<State>, es: seq<Event>, n: nat, t: Thread)
    requires tr.Valid() && Run(tr, ss, es) && n < |ss|
    requires t in ss[n].callers && !ss[n].callers[t].pc.Done?
    ensures exists u :: u in ss[n].callers && Enabled(tr, ss[n], ss[n].callers[u].pc, false)
  {
    RunInv(tr, ss, es, n);
    var s := ss[n];
    var pc := s.callers[t].pc;
    if pc.Lock? && tr.inode(pc.next) in s.locks {
      assert Enabled(tr, s, s.callers[s.locks[tr.inode(pc.next)]].pc, false);
    } else {
      assert Enabled(tr, s, s.callers[t].pc, false);
    }
  }

  // ---------------------------------------------------------------------------------
  // Termination: however the threads interleave, each takes a bounded number of steps

  /** How many names on the way to `d` are not copied up. */
  ghost function Missing(tr: Tree, s: State, d: Dentry): nat
    requires tr.Valid()
    decreases tr.depth(d)
  {
    (if Lacks(tr, s, d) then 1 else 0) + if d == ROOT then 0 else Missing(tr, s, tr.parent(d))
  }

  lemma {:induction false} MissingFalls(tr: Tree, s: State, s': State, d: Dentry)
    requires tr.Valid() && s.upper <= s'.upper && s.alias <= s'.alias
    ensures Missing(tr, s', d) <= Missing(tr, s, d)
    decreases tr.depth(d)
  {
    if d == ROOT {
    } else {
      MissingFalls(tr, s, s', tr.parent(d));
    }
  }

  lemma {:induction false} MissingOneLess(tr: Tree, s: State, s': State, a: Dentry, d: Dentry)
    requires tr.Valid() && s.upper <= s'.upper && s.alias <= s'.alias
    requires Above(tr, a, d) && Lacks(tr, s, a) && !Lacks(tr, s', a)
    ensures Missing(tr, s', d) + 1 <= Missing(tr, s, d)
    decreases tr.depth(d)
  {
    if a == d {
      if d != ROOT { MissingFalls(tr, s, s', tr.parent(d)); }
    } else {
      MissingOneLess(tr, s, s', a, tr.parent(d));
    }
  }

  lemma {:induction false} MissingBound(tr: Tree, s: State, d: Dentry)
    requires tr.Valid()
    ensures Missing(tr, s, d) <= tr.depth(d) + 1
    decreases tr.depth(d)
  {
    if d == ROOT {
    } else {
      MissingBound(tr, s, tr.parent(d));
    }
  }

  /** What is left to copy up, counting the name at hand until the thread is done with it. */
  ghost function Work(tr: Tree, s: State, d: Dentry, pc: Pc): nat
    requires tr.Valid()
  {
    Missing(tr, s, d) + if Settled(tr, s, pc) then 1 else 0
  }

  ghost predicate Settled(tr: Tree, s: State, pc: Pc) {
    HasNext(pc) && !Lacks(tr, s, pc.next)
  }

  /** How far a round of the copy-up loop still has to go. */
  ghost function Rank(tr: Tree, d: Dentry, pc: Pc): nat {
    match pc
    case CheckUpper => 16 + tr.depth(d)
    case CheckAlias => 15 + tr.depth(d)
    case FindTop(next) => 14 + tr.depth(next)
    case Lock(_) => 13
    case Recheck(_) => 12
    case TestUpper(_) => 11
    case CopyTemp(_) => 10
    case InstallTemp(_) => 9
    case PublishUpper(_) => 8
    case SetNlink(_) => 7
    case SetAlias(_) => 7
    case TestAlias(_) => 6
    case LinkName(_) => 5
    case LinkAlias(_) => 4
    case Unlock(_, _) => 3
    case Done(_) => 0
  }

  /** Every step but the one back to the top of the loop brings the end of the round nearer. */
  lemma RankFalls(tr: Tree, s: State, d: Dentry, pc: Pc, fails: bool)
    requires tr.Valid() && !pc.Done? && (pc.FindTop? ==> pc.next != ROOT)
    ensures var pc' := Goto(tr, s, d, pc, fails);
            !pc'.CheckUpper? ==> Rank(tr, d, pc') < Rank(tr, d, pc)
  {
  }

  lemma WorkStays(tr: Tree, s: State, s': State, d: Dentry, pc: Pc)
    requires tr.Valid() && s.upper <= s'.upper && s.alias <= s'.alias
    requires HasNext(pc) ==> Above(tr, pc.next, d)
    ensures Work(tr, s', d, pc) <= Work(tr, s, d, pc)
  {
    MissingFalls(tr, s, s', d);
    if HasNext(pc) && Lacks(tr, s, pc.next) && !Lacks(tr, s', pc.next) {
      MissingOneLess(tr, s, s', pc.next, d);
    }
  }

  /** A thread goes back to the top only when it is done with a name, and never goes on to a
      name that needs nothing. */
  lemma SettledMoves(tr: Tree, s: State, t: Thread, fails: bool)
    requires tr.Valid() && Closed(tr, s) && t in s.callers && Right(tr, s, t)
    ensures var pc := s.callers[t].pc;
            var pc' := Goto(tr, s, s.callers[t].target, pc, fails);
            (pc'.CheckUpper? || Settled(tr, s, pc')) && !pc.Done? ==> Settled(tr, s, pc)
  {
    var pc := s.callers[t].pc;
    if pc.FindTop? {
      assert !tr.disconnected(tr.parent(pc.next));
    }
  }

  /** The number of steps a thread can still take. */
  ghost function Fuel(tr: Tree, s: State, c: Caller): nat
    requires tr.Valid()
  {
    Work(tr, s, c.target, c.pc) * (17 + tr.depth(c.target)) + Rank(tr, c.target, c.pc)
  }

  lemma {:induction false} Times(a: nat, b: nat, k: nat)
    requires a <= b
    ensures a * k <= b * k
    decreases b
  {
    if a >= b {
    } else {
      Times(a, b - 1, k);
      assert b * k == (b - 1) * k + k;
    }
  }

  lemma FuelLess(w: nat, w': nat, r: nat, r': nat, k: nat)
    requires (w' < w && r' < k) || (w' <= w && r' < r)
    ensures w' * k + r' < w * k + r
  {
    if w' < w && r' < k {
      Times(w' + 1, w, k);
      assert (w' + 1) * k == w' * k + k;
    } else {
      Times(w', w, k);
    }
  }

  lemma WorkOwn(tr: Tree, s: State, s': State, t: Thread, fails: bool)
    requires tr.Valid() && Closed(tr, s) && Step(tr, s, s', t, fails) && Right(tr, s, t) && Right(tr, s', t)
    ensures var d, pc, pc' := s.callers[t].target, s.callers[t].pc, s'.callers[t].pc;
            if pc'.CheckUpper? then Work(tr, s', d, pc') < Work(tr, s, d, pc)
            else Work(tr, s', d, pc') <= Work(tr, s, d, pc) && Rank(tr, d, pc') < Rank(tr, d, pc)
  {
    var d, pc, pc' := s.callers[t].target, s.callers[t].pc, s'.callers[t].pc;
    assert pc' == Goto(tr, s, d, pc, fails);
    SettledMoves(tr, s, t, fails);
    RankFalls(tr, s, d, pc, fails);
    WorkStays(tr, s, s', d, pc');
  }

  lemma FuelFalls(tr: Tree, s: State, s': State, c: Caller, c': Caller)
    requires tr.Valid() && c'.target == c.target
    requires if c'.pc.CheckUpper? then Work(tr, s', c.target, c'.pc) < Work(tr, s, c.target, c.pc)
             else
               && Work(tr, s', c.target, c'.pc) <= Work(tr, s, c.target, c.pc)
               && Rank(tr, c.target, c'.pc) < Rank(tr, c.target, c.pc)
    ensures Fuel(tr, s', c') < Fuel(tr, s, c)
  {
    var d := c.target;
    FuelLess(Work(tr, s, d, c.pc), Work(tr, s', d, c'.pc), Rank(tr, d, c.pc), Rank(tr, d, c'.pc), 17 + tr.depth(d));
  }

  /** Each step of a thread uses up some of what it has left ... */
  lemma FuelOwn(tr: Tree, s: State, s': State, t: Thread, fails: bool)
    requires tr.Valid() && Closed(tr, s) && Step(tr, s, s', t, fails) && Right(tr, s, t) && Right(tr, s', t)
    ensures Fuel(tr, s', s'.callers[t]) < Fuel(tr, s, s.callers[t])
  {
    WorkOwn(tr, s, s', t, fails);
    FuelFalls(tr, s, s', s.callers[t], s'.callers[t]);
  }

  /** ... and the steps of others never give it more. */
  lemma FuelOther(tr: Tree, s: State, s': State, c: Caller)
    requires tr.Valid() && s.upper <= s'.upper && s.alias <= s'.alias
    requires HasNext(c.pc) ==> Above(tr, c.pc.next, c.target)
    ensures Fuel(tr, s', c) <= Fuel(tr, s, c)
  {
    WorkStays(tr, s, s', c.target, c.pc);
    Times(Work(tr, s', c.target, c.pc), Work(tr, s, c.target, c.pc), 17 + tr.depth(c.target));
  }

  /** How many of the events are steps of `t`. */
  ghost function Moves(es: seq<Event>, t: Thread): nat {
    if es == [] then 0
    else Moves(es[..|es| - 1], t) + Counts(es[|es| - 1], t)
  }

  /** A bound on the steps of one copy up, from the depth of the object alone. */
  function Bound(depth: nat): nat {
    (depth + 1) * (17 + depth) + 16 + depth
  }

  /** Whether the event is a step of `t`. */
  ghost function Counts(e: Event, t: Thread): nat {
    match e
    case Call(_, _) => 0
    case Move(u, _) => if u == t then 1 else 0
  }

  lemma FuelNext(tr: Tree, s: State, s': State, e: Event, t: Thread)
    requires tr.Valid() && Inv(tr, s) && Inv(tr, s') && Next(tr, s, s', e) && t in s.callers
    ensures t in s'.callers && s'.callers[t].target == s.callers[t].target
    ensures Counts(e, t) + Fuel(tr, s', s'.callers[t]) <= Fuel(tr, s, s.callers[t])
  {
    assert Right(tr, s, t);
    match e {
      case Call(u, d) =>
        FuelOther(tr, s, s', s.callers[t]);
      case Move(u, fails) =>
        StepGrows(tr, s, s', u, fails);
        if u == t {
          assert Right(tr, s', t);
          FuelOwn(tr, s, s', t, fails);
        } else {
          FuelOther(tr, s, s', s.callers[t]);
        }
    }
  }

  lemma FuelBegun(tr: Tree, s: State, s': State, e: Event, t: Thread)
    requires tr.Valid() && Next(tr, s, s', e) && t !in s.callers
    ensures Counts(e, t) == 0
    ensures t in s'.callers ==> Fuel(tr, s', s'.callers[t]) <= Bound(tr.depth(s'.callers[t].target))
  {
    match e {
      case Call(u, d) =>
        FuelStart(tr, s', d);
      case Move(u, fails) =>
        StepGrows(tr, s, s', u, fails);
    }
  }

  lemma {:induction false} MovesAndFuel(tr: Tree, ss: seq<State>, es: seq<Event>, n: nat, t: Thread)
    requires tr.Valid() && Run(tr, ss, es) && n < |ss|
    ensures t in ss[n].callers ==>
              Moves(es[..n], t) + Fuel(tr, ss[n], ss[n].callers[t]) <= Bound(tr.depth(ss[n].callers[t].target))
    ensures t !in ss[n].callers ==> Moves(es[..n], t) == 0
  {
    if n == 0 {
    } else {
      MovesAndFuel(tr, ss, es, n - 1, t);
      assert es[..n][..n - 1] == es[..n - 1];
      assert Moves(es[..n], t) == Moves(es[..n - 1], t) + Counts(es[n - 1], t);
      RunInv(tr, ss, es, n - 1);
      RunInv(tr, ss, es, n);
      assert Next(tr, ss[n - 1], ss[n - 1 + 1], es[n - 1]);
      if t in ss[n - 1].callers {
        FuelNext(tr, ss[n - 1], ss[n], es[n - 1], t);
      } else {
        FuelBegun(tr, ss[n - 1], ss[n], es[n - 1], t);
      }
    }
  }

  lemma FuelStart(tr: Tree, s: State, d: Dentry)
    requires tr.Valid()
    ensures Fuel(tr, s, Caller(d, CheckUpper)) <= Bound(tr.depth(d))
  {
    MissingBound(tr, s, d);
    Times(Missing(tr, s, d), tr.depth(d) + 1, 17 + tr.depth(d));
  }

  /** However the threads interleave, a copy up takes a number of its own steps bounded by the
      depth of its object. */
  lemma Bounded(tr: Tree, ss: seq<State>, es: seq<Event>, t: Thread)
    requires tr.Valid() && Run(tr, ss, es) && t in ss[|es|].callers
    ensures Moves(es, t) <= Bound(tr.depth(ss[|es|].callers[t].target))
  {
    MovesAndFuel(tr, ss, es, |es|, t);
    assert es[..|es|] == es;
  }
}
