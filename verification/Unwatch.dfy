/**
 Unwatching is complete under concurrency: when a destroyer ends, nothing of
 its tree is indexed, whatever walkers, cleaners and other destroyers did
 meanwhile, and every indexed path lies under a watched root at all times.
 */
module Unwatch {
  import opened CString
  import opened Tables
  import opened Threads
  import opened Safety
  import opened Owners

  /** An event is filed under a root that is not above its directory. */
  ghost predicate Misfiles(s: State, a: Action) {
    match a
    case Dispatcher(EventLookup(rec, order)) =>
      && s.t.Indexed() && !Ignored(rec)
      && var target := Lookup(s.t, order, rec);
      target.Some? && !Under(target.value.path, s.t.objs[target.value.root].path)
    case _ => false
  }

  /** `/` becomes a watched root. */
  ghost predicate AdmitsSlash(s: State, a: Action) {
    match a
    case Dispatcher(WatchInsert(opens, _)) => opens && s.disp.Admitted? && s.disp.path == "/"
    case _ => false
  }

  /** Neither happens in the first `n` steps. */
  ghost predicate WellFiled(ss: seq<State>, acts: seq<Action>, n: nat) {
    && Run(ss, acts) && ss[0] == INIT && n <= |acts|
    && forall k | 0 <= k < n :: !Misfiles(ss[k], acts[k]) && !AdmitsSlash(ss[k], acts[k])
  }

  ghost predicate StackUnder(open: Stack, r: Path) {
    match open
    case Bottom => true
    case Open(dir, _, rest) => Under(dir, r) && StackUnder(rest, r)
  }

  ghost predicate WalkerUnder(w: Walker, r: Path) {
    match w.phase
    case Begin(start) => Under(start, r)
    case Visit(path, open) => Under(path, r) && StackUnder(open, r)
    case Scan(open) => StackUnder(open, r)
  }

  /** Every walker stays within the tree of its root. */
  ghost predicate Attributed(objs: seq<Root>, ws: map<Tid, Walker>) {
    forall w | w in ws :: ws[w].root < |objs| && WalkerUnder(ws[w], objs[ws[w].root].path)
  }

  ghost predicate TargetUnder(objs: seq<Root>, disp: Dispatch) {
    disp.Found? ==> disp.root < |objs| && Under(disp.path, objs[disp.root].path)
  }

  /** What a destroyer has not dealt with yet covers the rest of its tree. */
  ghost predicate Covers(r: Path, byPath: map<Path, Watch>, d: Destroyer) {
    match d
    case Started(_) => true
    case Sweeping(_, keys) => forall p | p in byPath && r + "/" <= p :: p in keys
    case Holding(_, keys, path, wd, _) =>
      && (forall p | p in byPath && r + "/" <= p :: p in keys || p == path)
      && (path in byPath ==> byPath[path].wd == wd)
  }

  ghost predicate Sweeps(objs: seq<Root>, byPath: map<Path, Watch>, ds: map<Tid, Destroyer>) {
    forall d | d in ds :: ds[d].root < |objs| && Covers(objs[ds[d].root].path, byPath, ds[d])
  }

  /** Every indexed path is a watched root or lies below one. */
  ghost predicate Owned(roots: set<Path>, byPath: map<Path, Watch>) {
    forall p | p in byPath :: exists r :: r in roots && Under(p, r)
  }

  ghost predicate Proper(objs: seq<Root>) {
    forall id | 0 <= id < |objs| :: objs[id].path != "/" && IsAbsolute(objs[id].path)
  }

  ghost predicate TreeInv(s: State) {
    && Proper(s.t.objs)
    && Attributed(s.t.objs, s.walkers)
    && TargetUnder(s.t.objs, s.disp)
    && Sweeps(s.t.objs, s.t.byPath, s.destroyers)
    && Owned(s.t.roots.Keys, s.t.byPath)
  }

  // ---- tables ------------------------------------------------------------

  lemma KeepTree(objs: seq<Root>, objs': seq<Root>, byPath: map<Path, Watch>, ds: map<Tid, Destroyer>,
                 ws: map<Tid, Walker>)
    requires |objs| <= |objs'| && forall i | 0 <= i < |objs| :: objs'[i].path == objs[i].path
    requires Attributed(objs, ws) && Sweeps(objs, byPath, ds)
    ensures Attributed(objs', ws) && Sweeps(objs', byPath, ds)
  {
  }

  /** Removing paths can only help. */
  lemma ShrinkTree(s: State, gone: set<Path>)
    requires Sweeps(s.t.objs, s.t.byPath, s.destroyers) && Owned(s.t.roots.Keys, s.t.byPath)
    ensures Sweeps(s.t.objs, s.t.byPath - gone, s.destroyers) && Owned(s.t.roots.Keys, s.t.byPath - gone)
  {
  }

  /** A live root's walker never adds a path to a dying root's tree. */
  lemma AddAvoidsDying(s: State, id: RootId, path: Path, wd: int)
    requires RootInv(s) && TreeInv(s) && Grips(s.t.objs, s.t.byWd, s.retired, s.destroyers)
    requires id < |s.t.objs| && !s.t.objs[id].destroy && Under(path, s.t.objs[id].path)
    ensures Sweeps(s.t.objs, s.t.byPath[path := Watch(wd, path)], s.destroyers)
    ensures Owned(s.t.roots.Keys, s.t.byPath[path := Watch(wd, path)])
  {
    var byPath' := s.t.byPath[path := Watch(wd, path)];
    assert s.t.objs[id].path in s.t.roots.Keys;
    forall d | d in s.destroyers ensures Covers(s.t.objs[s.destroyers[d].root].path, byPath', s.destroyers[d]) {
      var r := s.t.objs[s.destroyers[d].root].path;
      assert Condemned(s.t.roots, s.t.objs, s.destroyers[d]);
      assert Covers(r, s.t.byPath, s.destroyers[d]);
      if Under(path, r) {
        OneRootAbove(s.t.roots.Keys, path, r, s.t.objs[id].path);
      }
      assert Grip(s.t.objs, s.t.byWd, s.retired, s.destroyers[d]);
    }
  }

  // ---- steps -------------------------------------------------------------

  lemma VisitTree(s: State, tid: Tid, hook: Hook)
    requires RootInv(s) && TreeInv(s) && Grips(s.t.objs, s.t.byWd, s.retired, s.destroyers)
    requires WalkEnabled(s, tid, WalkVisit(hook)) && Registers(s.t, s.walkers[tid], hook)
    ensures TreeInv(WalkStep(s, tid, WalkVisit(hook)))
  {
    var w := s.walkers[tid];
    AddAvoidsDying(s, w.root, w.phase.path, hook.wd);
  }

  /** What a walker's step does when it registers nothing. */
  lemma MoveFrame(s: State, tid: Tid, a: WalkAction)
    requires WalkEnabled(s, tid, a) && !(a.WalkVisit? && Registers(s.t, s.walkers[tid], a.hook))
    ensures var s' := WalkStep(s, tid, a);
            && s'.t == s.t && s'.destroyers == s.destroyers && s'.disp == s.disp
            && (s'.walkers == s.walkers - {tid}
                || (tid in s'.walkers && s'.walkers == s.walkers[tid := s'.walkers[tid]]))
  {
  }

  /** A walker that moves without registering stays within its tree. */
  lemma MoveUnder(s: State, tid: Tid, a: WalkAction)
    requires Attributed(s.t.objs, s.walkers) && Proper(s.t.objs) && WalkEnabled(s, tid, a)
    ensures var s' := WalkStep(s, tid, a);
            tid in s'.walkers ==>
              && s'.walkers[tid].root == s.walkers[tid].root
              && WalkerUnder(s'.walkers[tid], s.t.objs[s.walkers[tid].root].path)
  {
    var w := s.walkers[tid];
    var r := s.t.objs[w.root].path;
    assert WalkerUnder(w, r);
    if a.WalkScan? && w.phase.open.names != [] {
      ChildUnder(w.phase.open.dir, w.phase.open.names[0], r);
    }
  }

  lemma MoveTree(s: State, tid: Tid, a: WalkAction)
    requires TreeInv(s) && WalkEnabled(s, tid, a) && !(a.WalkVisit? && Registers(s.t, s.walkers[tid], a.hook))
    ensures TreeInv(WalkStep(s, tid, a))
  {
    MoveFrame(s, tid, a);
    MoveUnder(s, tid, a);
  }

  lemma WalkTree(s: State, tid: Tid, a: WalkAction)
    requires Inv(s) && TreeInv(s) && WalkEnabled(s, tid, a)
    ensures TreeInv(WalkStep(s, tid, a))
  {
    if a.WalkVisit? && Registers(s.t, s.walkers[tid], a.hook) {
      VisitTree(s, tid, a.hook);
    } else {
      MoveTree(s, tid, a);
    }
  }

  lemma CleanTree(s: State, tid: Tid, a: CleanAction)
    requires TreeInv(s) && CleanEnabled(s, tid, a)
    ensures TreeInv(CleanStep(s, tid, a))
  {
  }

  lemma BeginDestroyTree(s: State, tid: Tid, order: seq<Path>)
    requires TreeInv(s) && DestroyEnabled(s, tid, DestroyBegin(order))
    ensures TreeInv(BeginDestroy(s, tid, order))
  {
  }

  lemma NextCovers(r: Path, byPath: map<Path, Watch>, id: RootId, keys: seq<Path>)
    requires keys != [] && Covers(r, byPath, Sweeping(id, keys))
    ensures if r + "/" <= keys[0] && keys[0] in byPath
            then Covers(r, byPath, Holding(id, keys[1..], keys[0], byPath[keys[0]].wd, false))
            else Covers(r, byPath, Sweeping(id, keys[1..]))
  {
    assert keys == [keys[0]] + keys[1..];
  }

  lemma NextKeyTree(s: State, tid: Tid)
    requires TreeInv(s) && DestroyEnabled(s, tid, DestroyKey)
    ensures TreeInv(NextKey(s, tid))
  {
    var Sweeping(id, keys) := s.destroyers[tid];
    assert Covers(s.t.objs[id].path, s.t.byPath, s.destroyers[tid]);
    NextCovers(s.t.objs[id].path, s.t.byPath, id, keys);
  }

  lemma RemoveHeldTree(s: State, tid: Tid)
    requires TreeInv(s) && DestroyEnabled(s, tid, DestroyRemove)
    ensures TreeInv(RemoveHeld(s, tid))
  {
  }

  lemma EndDestroyTree(s: State, tid: Tid)
    requires TreeInv(s) && DestroyEnabled(s, tid, DestroyEnd)
    ensures TreeInv(EndDestroy(s, tid))
  {
  }

  lemma DestroyTree(s: State, tid: Tid, a: DestroyAction)
    requires Inv(s) && TreeInv(s) && DestroyEnabled(s, tid, a)
    ensures TreeInv(DestroyStep(s, tid, a))
  {
    match a
    case DestroyBegin(order) => BeginDestroyTree(s, tid, order);
    case DestroyKey => NextKeyTree(s, tid);
    case DestroyUnhook =>
      assert Covers(s.t.objs[s.destroyers[tid].root].path, s.t.byPath, s.destroyers[tid]);
    case DestroyRemove => RemoveHeldTree(s, tid);
    case DestroyEnd => EndDestroyTree(s, tid);
  }

  /** A root lookup keeps walkers and events in their trees exactly if it finds a
      root above the directory. */
  lemma FindTargetTree(s: State, rec: Record, order: seq<Path>)
    requires TreeInv(s) && s.t.Indexed() && s.disp.Idle?
    ensures TreeInv(FindTarget(s, rec, order)) <==> !Misfiles(s, Dispatcher(EventLookup(rec, order)))
  {
  }

  lemma EventPathUnder(path: Path, name: string, r: Path)
    requires Under(path, r) && r != "/" && IsAbsolute(r)
    ensures Under(EventPath(path, name), r)
  {
  }

  lemma ActOnEventTree(s: State, walker: Tid)
    requires TreeInv(s) && s.disp.Found? && IsAbsolute(s.disp.path) && Agreement(s.t.byPath, s.t.byWd)
    ensures TreeInv(ActOnEvent(s, walker))
  {
    var Found(rec, path, root) := s.disp;
    var abs := EventPath(path, rec.name);
    var s' := ActOnEvent(s, walker);
    ActOnEventFrame(s, walker);
    if s'.disp.Idle? {
      assert s'.t == s.t;
    } else if Appears(rec.mask) {
      EventPathUnder(path, rec.name, s.t.objs[root].path);
      SpawnTree(s, s', walker, Walker(root, false, Begin(abs)));
    } else {
      ChildAbsolute(path, rec.name);
      PruneIsExact(s.t, rec.mask, abs);
      ShrinkTree(s, Vanished(s.t, rec.mask, abs));
    }
  }

  lemma SpawnTree(s: State, s': State, tid: Tid, w: Walker)
    requires TreeInv(s) && !s'.disp.Found? && w.root < |s.t.objs| && WalkerUnder(w, s.t.objs[w.root].path)
    requires s'.t == s.t && s'.destroyers == s.destroyers && s'.walkers == s.walkers[tid := w]
    ensures TreeInv(s')
  {
  }

  lemma InsertWatchTree(s: State, opens: bool, walker: Tid)
    requires TreeInv(s) && s.disp.Admitted? && IsAbsolute(s.disp.path)
    ensures TreeInv(InsertWatch(s, opens, walker)) <==> !(opens && s.disp.path == "/")
  {
    if opens {
      var s' := InsertWatch(s, opens, walker);
      assert s'.t.objs[|s.t.objs|].path == s.disp.path;
    }
  }

  /** Steps of the dispatcher that rewrite one Root at most, keeping its path. */
  lemma UpdateTree(s: State, s': State, id: RootId, r: Root)
    requires TreeInv(s) && !s'.disp.Found? && id < |s.t.objs| && r.path == s.t.objs[id].path
    requires s'.t.objs == s.t.objs[id := r]
    requires s'.t.roots == s.t.roots && s'.t.byPath == s.t.byPath && s'.walkers == s.walkers
    requires s'.destroyers == s.destroyers
    ensures TreeInv(s')
  {
  }

  lemma BeginUnwatchTree(s: State, path: Path, tid: Tid)
    requires TreeInv(s) && s.t.Indexed() && s.disp.Idle? && tid !in s.destroyers
    ensures TreeInv(BeginUnwatch(s, path, tid))
  {
    KeepTree(s.t.objs, BeginUnwatch(s, path, tid).t.objs, s.t.byPath, s.destroyers, s.walkers);
  }

  lemma StartRewatchTree(s: State, root: RootId, walker: Tid)
    requires TreeInv(s) && s.disp.Idle? && root < |s.t.objs|
    ensures TreeInv(StartRewatch(s, root, walker))
  {
  }

  lemma PauseTree(s: State, path: Path, pause: bool)
    requires TreeInv(s) && s.t.Indexed() && s.disp.Idle?
    ensures TreeInv(if pause then PauseOn(s, path) else PauseOff(s, path))
  {
    if path in s.t.roots {
      var id := s.t.roots[path];
      UpdateTree(s, if pause then PauseOn(s, path) else PauseOff(s, path), id, s.t.objs[id].(pause := pause));
    }
  }

  lemma TakeEventsTree(s: State)
    requires TreeInv(s) && s.disp.Reading? && s.disp.root < |s.t.objs|
    ensures TreeInv(TakeEvents(s))
  {
    var r := s.t.objs[s.disp.root];
    UpdateTree(s, TakeEvents(s), s.disp.root, r.(queue := r.queue[Batch(r, s.disp.count)..]));
  }

  lemma QueueEventTree(s: State)
    requires TreeInv(s) && s.disp.Queueing? && s.disp.root < |s.t.objs|
    ensures TreeInv(QueueEvent(s))
  {
  }

  lemma DispatchTree(s: State, a: DispatchAction)
    requires Inv(s) && TreeInv(s) && DispatchEnabled(s, a)
    ensures TreeInv(DispatchStep(s, a)) <==> !Misfiles(s, Dispatcher(a)) && !AdmitsSlash(s, Dispatcher(a))
  {
    match a
    case WatchCheck(_, _, _, _, _) =>
    case WatchInsert(opens, walker) => InsertWatchTree(s, opens, walker);
    case Unwatch(path, tid) => BeginUnwatchTree(s, path, tid);
    case PauseSet(path) => PauseTree(s, path, true);
    case FlushFind =>
    case Unpause(path) => PauseTree(s, path, false);
    case GetFind(_, _) =>
    case Take => TakeEventsTree(s);
    case EventLookup(rec, order) => FindTargetTree(s, rec, order);
    case EventAct(walker) => ActOnEventTree(s, walker);
    case EventQueue => QueueEventTree(s);
    case Rewatch(root, walker) => StartRewatchTree(s, root, walker);
  }

  /** Exactly two steps can take a walker or an event out of the tree of its root:
      filing an event under a root that is not above its directory, and watching `/`. */
  lemma TreeBreaksOnlyAt(s: State, a: Action)
    requires Inv(s) && TreeInv(s) && Enabled(s, a)
    ensures TreeInv(Step(s, a)) <==> !Misfiles(s, a) && !AdmitsSlash(s, a)
  {
    match a
    case Dispatcher(da) => DispatchTree(s, da);
    case DestroyerOf(tid, ka) => DestroyTree(s, tid, ka);
    case WalkerOf(tid, wa) => WalkTree(s, tid, wa);
    case CleanerOf(tid, ca) => CleanTree(s, tid, ca);
  }

  // ---- the main results --------------------------------------------------

  lemma TreeStep(ss: seq<State>, acts: seq<Action>, i: nat)
    requires Run(ss, acts) && ss[0] == INIT && i < |acts| && TreeInv(ss[i])
    ensures TreeInv(ss[i + 1]) <==> !Misfiles(ss[i], acts[i]) && !AdmitsSlash(ss[i], acts[i])
  {
    InitInv();
    RunKeepsInv(ss, acts, i);
    assert StepAt(ss, acts, i);
    TreeBreaksOnlyAt(ss[i], acts[i]);
  }

  lemma InitTree()
    ensures TreeInv(INIT)
  {
  }

  lemma {:induction false} RunKeepsTree(ss: seq<State>, acts: seq<Action>, i: nat)
    requires WellFiled(ss, acts, i)
    ensures TreeInv(ss[i])
  {
    if i == 0 {
      InitTree();
    } else {
      RunKeepsTree(ss, acts, i - 1);
      TreeStep(ss, acts, i - 1);
    }
  }

  /** Over whole runs the invariant holds all the way exactly if neither step occurs. */
  lemma {:induction false} TreeHoldsExactly(ss: seq<State>, acts: seq<Action>, n: nat)
    requires Run(ss, acts) && ss[0] == INIT && n <= |acts|
    ensures (forall k | 0 <= k <= n :: TreeInv(ss[k])) <==> WellFiled(ss, acts, n)
  {
    if WellFiled(ss, acts, n) {
      forall k: nat | k <= n ensures TreeInv(ss[k]) { RunKeepsTree(ss, acts, k); }
    }
    if forall k | 0 <= k <= n :: TreeInv(ss[k]) {
      forall k: nat | k < n ensures !Misfiles(ss[k], acts[k]) && !AdmitsSlash(ss[k], acts[k]) {
        assert TreeInv(ss[k]) && TreeInv(ss[k + 1]);
        TreeStep(ss, acts, k);
      }
    }
  }

  /** When a destroyer ends, its root is gone and nothing of its tree is indexed. */
  lemma UnwatchComplete(ss: seq<State>, acts: seq<Action>, i: nat, tid: Tid)
    requires WellFiled(ss, acts, i) && i < |acts| && acts[i] == DestroyerOf(tid, DestroyEnd) && tid in ss[i].destroyers
    ensures var id := ss[i].destroyers[tid].root;
            id < |ss[i].t.objs| &&
            var r := ss[i].t.objs[id].path;
            && r in ss[i].t.roots && ss[i].t.roots[r] == id && r !in ss[i + 1].t.roots
            && forall p | p in ss[i + 1].t.byPath :: !Under(p, r)
  {
    InitInv();
    RunKeepsInv(ss, acts, i);
    RunKeepsTree(ss, acts, i);
    assert StepAt(ss, acts, i);
    var s := ss[i];
    var r := s.t.objs[s.destroyers[tid].root].path;
    assert Condemned(s.t.roots, s.t.objs, s.destroyers[tid]);
    assert Covers(r, s.t.byPath, s.destroyers[tid]);
  }

  /** No walker of an ended Root ever registers a directory again. */
  lemma NoLateRegistration(ss: seq<State>, acts: seq<Action>, i: nat, tid: Tid, j: nat)
    requires Run(ss, acts) && ss[0] == INIT
    requires i < |acts| && acts[i] == DestroyerOf(tid, DestroyEnd) && tid in ss[i].destroyers
    requires i < j < |acts| && acts[j].WalkerOf? && acts[j].tid in ss[j].walkers
    requires ss[j].walkers[acts[j].tid].root == ss[i].destroyers[tid].root
    ensures ss[j + 1].t.byPath == ss[j].t.byPath && ss[j + 1].t.byWd == ss[j].t.byWd
  {
    InitInv();
    RunKeepsInv(ss, acts, i);
    assert Condemned(ss[i].t.roots, ss[i].t.objs, ss[i].destroyers[tid]);
    assert StepAt(ss, acts, i);
    MarksStay(ss, acts, i, j);
    assert StepAt(ss, acts, j);
    MoveFrame(ss[j], acts[j].tid, acts[j].wa);
  }

  /** Every indexed directory lies under exactly one watched root; where no
      watched root is comparable with `r`, the tree of `r` stays unindexed. */
  lemma IndexedIsOwned(ss: seq<State>, acts: seq<Action>, i: nat, r: Path)
    requires WellFiled(ss, acts, i)
    ensures forall p | p in ss[i].t.byPath :: exists q :: q in ss[i].t.roots.Keys && Under(p, q)
    ensures forall p, a, b | p in ss[i].t.byPath && a in ss[i].t.roots && b in ss[i].t.roots
              && Under(p, a) && Under(p, b) :: a == b
    ensures (forall q | q in ss[i].t.roots :: !Under(q, r) && !Under(r, q)) ==>
              forall p | p in ss[i].t.byPath :: !Under(p, r)
  {
    InitInv();
    RunKeepsInv(ss, acts, i);
    RunKeepsTree(ss, acts, i);
    var t := ss[i].t;
    forall p, a, b | p in t.byPath && a in t.roots && b in t.roots && Under(p, a) && Under(p, b) ensures a == b {
      OneRootAbove(t.roots.Keys, p, a, b);
    }
    if forall q | q in t.roots :: !Under(q, r) && !Under(r, q) {
      forall p | p in t.byPath ensures !Under(p, r) {
        var q :| q in t.roots.Keys && Under(p, q);
        if Under(p, r) { UnderComparable(p, q, r); }
      }
    }
  }

  // ---- when lookups can be trusted ---------------------------------------

  /** `/` is not watched and the root lookup gives the root above every watched
      directory, in whatever order it looks (OwnerLookup says when it does). */
  ghost predicate Calm(s: State) {
    && "/" !in s.t.roots
    && forall d | d in s.t.byWd :: Unambiguous(s.t.roots.Keys, s.t.byWd[d].path)
  }

  /** Where every state is calm nothing can be misfiled. */
  lemma CalmIsWellFiled(ss: seq<State>, acts: seq<Action>, n: nat)
    requires Run(ss, acts) && ss[0] == INIT && n <= |acts| && forall k | 0 <= k <= n :: Calm(ss[k])
    ensures WellFiled(ss, acts, n)
  {
    forall k: nat | k < n ensures !Misfiles(ss[k], acts[k]) && !AdmitsSlash(ss[k], acts[k]) {
      assert StepAt(ss, acts, k) && Calm(ss[k]) && Calm(ss[k + 1]);
      CalmNeverMisfiles(ss[k], acts[k]);
    }
  }

  lemma CalmNeverMisfiles(s: State, a: Action)
    requires Calm(s) && Enabled(s, a)
    ensures !Misfiles(s, a)
    ensures Calm(Step(s, a)) ==> !AdmitsSlash(s, a)
  {
    match a
    case Dispatcher(EventLookup(rec, order)) =>
      if rec.wd in s.t.byWd { LookupFacts(s.t, order, s.t.byWd[rec.wd].path); }
    case _ =>
  }
}
