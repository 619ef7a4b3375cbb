/**
 Coverage by descriptors. In runs without an unwatch, but with `/` watched, events
 misfiled and directories reached under several spellings as they may be, walkers
 leave every eligible directory watched, under one of its spellings.
 */
module Spellings {
  import opened CString
  import opened Tables
  import opened Threads
  import opened Safety
  import opened Indexes
  import opened Coverage

  /** The directory tree: the subdirectories of each directory, and the watch
      descriptor the kernel has for it. */
  datatype Tree = Tree(kids: Path -> seq<string>, wdOf: Path -> int)

  /** Two spellings of one directory have the same descriptor. They lead to the same
      subdirectories and agree on which of those are scratch directories. */
  ghost predicate Spelt(fs: Tree, p: Path, q: Path) {
    && fs.kids(p) == fs.kids(q)
    && forall n | n in fs.kids(p) ::
         fs.wdOf(Child(p, n)) == fs.wdOf(Child(q, n)) && (TmpTail(Child(p, n)) <==> TmpTail(Child(q, n)))
  }

  ghost predicate Coherent(fs: Tree) {
    forall p, q :: fs.wdOf(p) == fs.wdOf(q) ==> Spelt(fs, p, q)
  }

  /** Every directory has one spelling. */
  ghost predicate Distinct(fs: Tree) {
    forall p, q :: fs.wdOf(p) == fs.wdOf(q) ==> p == q
  }

  /** A step in which the tree stays as it is: every directory opens and can be
      watched, none vanishes, and no root is unwatched. */
  ghost predicate Still(s: State, a: Action, fs: Tree) {
    match a
    case WalkerOf(tid, WalkVisit(hook)) =>
      tid in s.walkers && s.walkers[tid].phase.Visit?
      && var p := s.walkers[tid].phase.path; hook == Hooked(fs.wdOf(p), fs.kids(p))
    case CleanerOf(_, CleanKey(isDir)) => isDir
    case Dispatcher(Unwatch(_, _)) => false
    case Dispatcher(EventAct(_)) => s.disp.Found? && !Vanishes(s.disp.rec.mask)
    case _ => true
  }

  // ---- pending work ------------------------------------------------------

  /** A live walker has a spelling of the directory with descriptor `d` before it. */
  ghost predicate PendingWd(ws: map<Tid, Walker>, fs: Tree, d: int) {
    exists w, p :: w in ws && Holds(ws[w], p) && fs.wdOf(p) == d && !TmpTail(p)
  }

  ghost predicate Awaited(s: State, fs: Tree, d: int) {
    d in s.t.byWd || PendingWd(s.walkers, fs, d)
  }

  /** Every subdirectory of a watched directory is watched or will be. */
  ghost predicate KidsAwaited(s: State, fs: Tree) {
    forall d, n | d in s.t.byWd && n in fs.kids(s.t.byWd[d].path) && !TmpTail(Child(s.t.byWd[d].path, n)) ::
      Awaited(s, fs, fs.wdOf(Child(s.t.byWd[d].path, n)))
  }

  /** No root is under destruction and the descriptors are the tree's. */
  ghost predicate Settled(s: State, fs: Tree) {
    && (forall id | 0 <= id < |s.t.objs| :: !s.t.objs[id].destroy)
    && s.destroyers == map[]
    && forall d | d in s.t.byWd :: d == fs.wdOf(s.t.byWd[d].path)
  }

  // ---- one step ----------------------------------------------------------

  lemma DispatchStill(s: State, da: DispatchAction, fs: Tree)
    requires DispatchEnabled(s, da) && Still(s, Dispatcher(da), fs)
    ensures var s' := DispatchStep(s, da);
            SameIndexes(s, s') && s'.destroyers == s.destroyers && s'.retired == s.retired
  {
    if da.EventAct? { ActKeeps(s, da.walker); assert Wds(s.t, {}) == {}; } else { DispatchKeepsIndexes(s, da); }
  }

  lemma DispatchUnmarked(s: State, da: DispatchAction, fs: Tree)
    requires DispatchEnabled(s, da) && Still(s, Dispatcher(da), fs)
    requires forall id | 0 <= id < |s.t.objs| :: !s.t.objs[id].destroy
    ensures forall id | 0 <= id < |DispatchStep(s, da).t.objs| :: !DispatchStep(s, da).t.objs[id].destroy
  {
    if da.EventAct? { ActOnEventFrame(s, da.walker); }
  }

  /** Watched descriptors stay. */
  lemma WatchedKept(s: State, a: Action, fs: Tree, d: int)
    requires Enabled(s, a) && Still(s, a, fs) && Settled(s, fs) && d in s.t.byWd
    ensures d in Step(s, a).t.byWd && Step(s, a).t.byWd[d] == s.t.byWd[d]
  {
    match a
    case Dispatcher(da) => DispatchStill(s, da, fs);
    case WalkerOf(tid, wa) =>
    case CleanerOf(tid, ca) =>
    case DestroyerOf(tid, ka) =>
  }

  /** A visit leaves the directory watched, unless it needs no watch. */
  lemma VisitWatches(s: State, tid: Tid, hook: Hook, fs: Tree)
    requires WalkEnabled(s, tid, WalkVisit(hook)) && Still(s, WalkerOf(tid, WalkVisit(hook)), fs)
    requires Settled(s, fs) && Agreement(s.t.byPath, s.t.byWd)
    ensures var p := s.walkers[tid].phase.path; TmpTail(p) || fs.wdOf(p) in WalkStep(s, tid, WalkVisit(hook)).t.byWd
  {
    var p := s.walkers[tid].phase.path;
    if p in s.t.byPath { assert s.t.byWd[s.t.byPath[p].wd].path == p; }
  }

  /** What a walker had before it is watched or still before it after its step. */
  lemma WalkAwaits(s: State, tid: Tid, wa: WalkAction, fs: Tree, p: Path)
    requires WalkEnabled(s, tid, wa) && Still(s, WalkerOf(tid, wa), fs) && Settled(s, fs) && WatchInv(s)
    requires Holds(s.walkers[tid], p) && !TmpTail(p)
    ensures Awaited(WalkStep(s, tid, wa), fs, fs.wdOf(p))
  {
    var s' := WalkStep(s, tid, wa);
    var w := s.walkers[tid];
    assert Bound(s.t.objs, w);
    match wa
    case WalkBegin =>
      assert Holds(s'.walkers[tid], p);
    case WalkVisit(hook) =>
      VisitWatches(s, tid, hook, fs);
      if p != w.phase.path { assert Holds(s'.walkers[tid], p); }
    case WalkScan =>
      assert w.phase.open.names == [] || w.phase.open.names == [w.phase.open.names[0]] + w.phase.open.names[1..];
      assert Holds(s'.walkers[tid], p);
    case WalkEnd =>
  }

  lemma AwaitedKept(s: State, a: Action, fs: Tree, d: int)
    requires Enabled(s, a) && Still(s, a, fs) && Settled(s, fs) && WatchInv(s) && Awaited(s, fs, d)
    ensures Awaited(Step(s, a), fs, d)
  {
    if d in s.t.byWd {
      WatchedKept(s, a, fs, d);
    } else {
      var w, p :| w in s.walkers && Holds(s.walkers[w], p) && fs.wdOf(p) == d && !TmpTail(p);
      if a.WalkerOf? && a.tid == w {
        WalkAwaits(s, w, a.wa, fs, p);
      } else {
        WalkersStay(s, a, w);
      }
    }
  }

  lemma SettledKept(s: State, a: Action, fs: Tree)
    requires Enabled(s, a) && Still(s, a, fs) && Settled(s, fs)
    ensures Settled(Step(s, a), fs)
  {
    match a
    case Dispatcher(da) =>
      DispatchStill(s, da, fs);
      DispatchUnmarked(s, da, fs);
    case WalkerOf(tid, wa) => WalkFrame(s, tid, wa);
    case CleanerOf(tid, ca) => CleanFrame(s, tid, ca);
    case DestroyerOf(tid, ka) =>
  }

  /** A directory comes to be watched with all its subdirectories on its walker's way. */
  lemma NewKidsAwaited(s: State, a: Action, fs: Tree, d: int, n: string)
    requires Enabled(s, a) && Still(s, a, fs) && Settled(s, fs)
    requires d !in s.t.byWd && d in Step(s, a).t.byWd
    requires n in fs.kids(Step(s, a).t.byWd[d].path) && !TmpTail(Child(Step(s, a).t.byWd[d].path, n))
    ensures Awaited(Step(s, a), fs, fs.wdOf(Child(Step(s, a).t.byWd[d].path, n)))
  {
    match a
    case Dispatcher(da) => DispatchStill(s, da, fs);
    case WalkerOf(tid, wa) => assert Holds(Step(s, a).walkers[tid], Child(Step(s, a).t.byWd[d].path, n));
    case CleanerOf(tid, ca) =>
    case DestroyerOf(tid, ka) =>
  }

  lemma KidsAwaitedKept(s: State, a: Action, fs: Tree)
    requires Enabled(s, a) && Still(s, a, fs) && Settled(s, fs) && WatchInv(s) && KidsAwaited(s, fs)
    ensures KidsAwaited(Step(s, a), fs)
  {
    var t' := Step(s, a).t;
    forall d, n | d in t'.byWd && n in fs.kids(t'.byWd[d].path) && !TmpTail(Child(t'.byWd[d].path, n))
      ensures Awaited(Step(s, a), fs, fs.wdOf(Child(t'.byWd[d].path, n)))
    {
      if d in s.t.byWd {
        WatchedKept(s, a, fs, d);
        AwaitedKept(s, a, fs, fs.wdOf(Child(t'.byWd[d].path, n)));
      } else {
        NewKidsAwaited(s, a, fs, d, n);
      }
    }
  }

  // ---- whole runs --------------------------------------------------------

  ghost predicate StillRun(ss: seq<State>, acts: seq<Action>, fs: Tree, n: nat) {
    Run(ss, acts) && ss[0] == INIT && n <= |acts| && forall k | 0 <= k < n :: Still(ss[k], acts[k], fs)
  }

  lemma InitAwaits(fs: Tree)
    ensures Settled(INIT, fs) && KidsAwaited(INIT, fs)
  {
  }

  lemma {:induction false} StillRunKeeps(ss: seq<State>, acts: seq<Action>, fs: Tree, n: nat)
    requires StillRun(ss, acts, fs, n)
    ensures Settled(ss[n], fs) && KidsAwaited(ss[n], fs) && WatchInv(ss[n])
  {
    InitInv();
    RunKeepsInv(ss, acts, n);
    if n == 0 {
      InitAwaits(fs);
    } else {
      StillRunKeeps(ss, acts, fs, n - 1);
      assert StepAt(ss, acts, n - 1);
      SettledKept(ss[n - 1], acts[n - 1], fs);
      KidsAwaitedKept(ss[n - 1], acts[n - 1], fs);
    }
  }

  lemma {:induction false} AwaitedOverRun(ss: seq<State>, acts: seq<Action>, fs: Tree, i: nat, n: nat, d: int)
    requires StillRun(ss, acts, fs, n) && i <= n && Awaited(ss[i], fs, d)
    ensures Awaited(ss[n], fs, d)
  {
    if i < n {
      AwaitedOverRun(ss, acts, fs, i, n - 1, d);
      StillRunKeeps(ss, acts, fs, n - 1);
      assert StepAt(ss, acts, n - 1);
      AwaitedKept(ss[n - 1], acts[n - 1], fs, d);
    }
  }

  // ---- the main results --------------------------------------------------

  lemma {:induction false} QuietMeansWatched(s: State, fs: Tree, p: Path, names: seq<string>)
    requires Coherent(fs) && Settled(s, fs) && KidsAwaited(s, fs) && s.walkers == map[]
    requires fs.wdOf(p) in s.t.byWd && Eligible(fs.kids, p, names)
    ensures fs.wdOf(Descend(p, names)) in s.t.byWd
    decreases |names|
  {
    if names != [] {
      assert Spelt(fs, p, s.t.byWd[fs.wdOf(p)].path);
      QuietMeansWatched(s, fs, Child(p, names[0]), names[1..]);
    }
  }

  /** Once every walker has finished, the descriptor of every eligible directory below
      the start of every walker there ever was is watched, whatever spellings the
      walkers came by. */
  lemma WalkersWatchTheTree(ss: seq<State>, acts: seq<Action>, fs: Tree, i: nat, n: nat, tid: Tid, names: seq<string>)
    requires StillRun(ss, acts, fs, n) && Coherent(fs) && i <= n
    requires tid in ss[i].walkers && ss[i].walkers[tid].phase.Begin?
    requires Eligible(fs.kids, ss[i].walkers[tid].phase.start, names)
    requires ss[n].walkers == map[]
    ensures fs.wdOf(Descend(ss[i].walkers[tid].phase.start, names)) in ss[n].t.byWd
  {
    var p := ss[i].walkers[tid].phase.start;
    assert Holds(ss[i].walkers[tid], p);
    AwaitedOverRun(ss, acts, fs, i, n, fs.wdOf(p));
    StillRunKeeps(ss, acts, fs, n);
    QuietMeansWatched(ss[n], fs, p, names);
  }

  /** Where every directory has one spelling each of them is registered as itself. */
  lemma WalkersCoverTheTree(ss: seq<State>, acts: seq<Action>, fs: Tree, i: nat, n: nat, tid: Tid, names: seq<string>)
    requires StillRun(ss, acts, fs, n) && Distinct(fs) && i <= n
    requires tid in ss[i].walkers && ss[i].walkers[tid].phase.Begin?
    requires Eligible(fs.kids, ss[i].walkers[tid].phase.start, names)
    requires ss[n].walkers == map[]
    ensures Descend(ss[i].walkers[tid].phase.start, names) in ss[n].t.byPath
  {
    WalkersWatchTheTree(ss, acts, fs, i, n, tid, names);
    StillRunKeeps(ss, acts, fs, n);
    StillIsBijective(ss, acts, fs, n);
    var p := Descend(ss[i].walkers[tid].phase.start, names);
    assert fs.wdOf(ss[n].t.byWd[fs.wdOf(p)].path) == fs.wdOf(p);
  }

  lemma StillIsBijective(ss: seq<State>, acts: seq<Action>, fs: Tree, n: nat)
    requires StillRun(ss, acts, fs, n)
    ensures Bijective(ss[n].t.byPath, ss[n].t.byWd)
  {
    forall k: nat | k < n ensures !Readds(ss[k], acts[k]) && !StaleRemoval(ss[k], acts[k]) {
      StillRunKeeps(ss, acts, fs, k);
      assert Agreement(ss[k].t.byPath, ss[k].t.byWd);
    }
    BijectionOverRuns(ss, acts, n);
  }
}
