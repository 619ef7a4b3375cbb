/**
 What every step of every thread keeps, and so what holds in every state of
 every run: the life of a root, the root antichain and the agreement of the
 two watch indexes.
 */
module Safety {
  import opened CString
  import opened Tables
  import opened Threads

  // ---- the invariants ----------------------------------------------------

  /** Every table entry is a Root of that path, and a Root not under
      destruction is in the table and owns its queue. */
  ghost predicate Listed(roots: map<Path, RootId>, objs: seq<Root>) {
    && (forall p | p in roots :: roots[p] < |objs| && objs[roots[p]].path == p)
    && (forall id | 0 <= id < |objs| && !objs[id].destroy ::
          objs[id].path in roots && roots[objs[id].path] == id && !objs[id].freed)
  }

  /** The Root a destroyer was given is marked and is the one in the table. */
  ghost predicate Condemned(roots: map<Path, RootId>, objs: seq<Root>, d: Destroyer) {
    && d.root < |objs|
    && objs[d.root].destroy
    && (d.Started? ==> !objs[d.root].freed)
    && objs[d.root].path in roots
    && roots[objs[d.root].path] == d.root
  }

  ghost predicate Dying(roots: map<Path, RootId>, objs: seq<Root>, ds: map<Tid, Destroyer>) {
    forall d | d in ds :: Condemned(roots, objs, ds[d])
  }

  /** No two destroyers share a Root. */
  ghost predicate Singular(ds: map<Tid, Destroyer>) {
    forall d, e | d in ds && e in ds && d != e :: ds[d].root != ds[e].root
  }

  /** A marked Root in the table has a destroyer at work. */
  ghost predicate Attended(roots: map<Path, RootId>, objs: seq<Root>, ds: map<Tid, Destroyer>) {
    forall p | p in roots && roots[p] < |objs| && objs[roots[p]].destroy ::
      exists d :: d in ds && ds[d].root == roots[p]
  }

  /** No root string, extended by a slash, occurs in another root string. */
  ghost predicate Antichain(roots: set<Path>) {
    && (forall a | a in roots :: IsAbsolute(a))
    && (forall a, b | a in roots && b in roots && a != b :: !Occurs(a, b + "/"))
  }

  /** What the dispatcher learnt about the roots in its last section still holds. */
  ghost predicate Current(disp: Dispatch, roots: map<Path, RootId>, objs: seq<Root>) {
    match disp
    case Idle => true
    case Admitted(path, _, _, _) => IsAbsolute(path) && Clear(roots.Keys, path)
    case Found(_, _, root) => root < |objs| && !objs[root].destroy && !objs[root].pause
    case Queueing(_, _, root) => root < |objs| && !objs[root].destroy && !objs[root].pause
    case Flushing(_) => true
    case Reading(root, _, _) => root < |objs|
  }

  /** The directory an event is being handled for is one that could be indexed. */
  ghost predicate Filed(disp: Dispatch, objs: seq<Root>) {
    disp.Found? ==>
      && disp.root < |objs| && |objs[disp.root].path| <= |disp.path|
      && IsAbsolute(disp.path) && !TmpTail(disp.path)
  }

  /** The path index is a part of the descriptor index, and no rsync scratch
      directory is in either. */
  ghost predicate Agreement(byPath: map<Path, Watch>, byWd: map<int, Watch>) {
    && (forall p | p in byPath :: byPath[p].path == p && byPath[p].wd in byWd && byWd[byPath[p].wd] == byPath[p])
    && (forall d | d in byWd :: byWd[d].wd == d && IsAbsolute(byWd[d].path) && !TmpTail(byWd[d].path))
  }

  /** The descriptor a destroyer holds between its lookup and its removal is
      either still that directory's or retired. */
  ghost predicate Grip(objs: seq<Root>, byWd: map<int, Watch>, retired: set<int>, d: Destroyer) {
    d.Holding? ==>
      && d.root < |objs|
      && objs[d.root].path + "/" <= d.path
      && (if d.wd in byWd then byWd[d.wd].path == d.path else d.wd in retired)
      && (d.unhooked ==> d.wd in retired)
  }

  ghost predicate Grips(objs: seq<Root>, byWd: map<int, Watch>, retired: set<int>, ds: map<Tid, Destroyer>) {
    forall d | d in ds :: Grip(objs, byWd, retired, ds[d])
  }

  ghost predicate AbsoluteStack(open: Stack) {
    match open
    case Bottom => true
    case Open(dir, _, rest) => IsAbsolute(dir) && AbsoluteStack(rest)
  }

  /** A walker has a Root, absolute paths, and a start no shorter than its root. */
  ghost predicate Bound(objs: seq<Root>, w: Walker) {
    && w.root < |objs|
    && match w.phase
       case Begin(start) => IsAbsolute(start) && |objs[w.root].path| <= |start|
       case Visit(path, open) => IsAbsolute(path) && AbsoluteStack(open)
       case Scan(open) => AbsoluteStack(open)
  }

  ghost predicate Walking(objs: seq<Root>, ws: map<Tid, Walker>) {
    forall w | w in ws :: Bound(objs, ws[w])
  }

  /** The half of the invariant about roots. */
  ghost predicate RootInv(s: State) {
    && s.t.numRoots == |s.t.roots|
    && Listed(s.t.roots, s.t.objs)
    && Dying(s.t.roots, s.t.objs, s.destroyers)
    && Singular(s.destroyers)
    && Attended(s.t.roots, s.t.objs, s.destroyers)
    && Antichain(s.t.roots.Keys)
    && Current(s.disp, s.t.roots, s.t.objs)
  }

  /** The half of the invariant about watches. */
  ghost predicate WatchInv(s: State) {
    && Agreement(s.t.byPath, s.t.byWd)
    && Grips(s.t.objs, s.t.byWd, s.retired, s.destroyers)
    && Walking(s.t.objs, s.walkers)
    && Filed(s.disp, s.t.objs)
  }

  // ---- changes to the roots ----------------------------------------------

  /** Two Roots that differ in queue and pause flag only. */
  ghost predicate SameLife(r: Root, r': Root) {
    r'.path == r.path && r'.destroy == r.destroy && r'.freed == r.freed
  }

  lemma UpdateLife(roots: map<Path, RootId>, objs: seq<Root>, ds: map<Tid, Destroyer>, id: RootId, r: Root)
    requires id < |objs| && SameLife(objs[id], r)
    requires Listed(roots, objs) && Dying(roots, objs, ds) && Attended(roots, objs, ds)
    ensures var objs' := objs[id := r];
            Listed(roots, objs') && Dying(roots, objs', ds) && Attended(roots, objs', ds)
  {
  }

  lemma InsertLife(roots: map<Path, RootId>, objs: seq<Root>, ds: map<Tid, Destroyer>, r: Root)
    requires Listed(roots, objs) && Dying(roots, objs, ds) && Attended(roots, objs, ds)
    requires r.path !in roots && !r.destroy && !r.freed
    ensures var roots', objs' := roots[r.path := |objs|], objs + [r];
            Listed(roots', objs') && Dying(roots', objs', ds) && Attended(roots', objs', ds)
  {
  }

  lemma InsertAntichain(roots: set<Path>, path: Path)
    requires Antichain(roots) && Clear(roots, path) && IsAbsolute(path)
    ensures Antichain(roots + {path})
  {
  }

  lemma MarkLife(roots: map<Path, RootId>, objs: seq<Root>, ds: map<Tid, Destroyer>, id: RootId, tid: Tid)
    requires Listed(roots, objs) && Dying(roots, objs, ds) && Singular(ds) && Attended(roots, objs, ds)
    requires id < |objs| && !objs[id].destroy && tid !in ds
    ensures var objs', ds' := objs[id := objs[id].(destroy := true)], ds[tid := Started(id)];
            Listed(roots, objs') && Dying(roots, objs', ds') && Singular(ds') && Attended(roots, objs', ds')
  {
    var objs', ds' := objs[id := objs[id].(destroy := true)], ds[tid := Started(id)];
    forall p | p in roots && objs'[roots[p]].destroy
      ensures exists d :: d in ds' && ds'[d].root == roots[p]
    {
      if roots[p] == id {
        assert ds'[tid].root == id;
      } else {
        var d :| d in ds && ds[d].root == roots[p];
        assert ds'[d].root == roots[p];
      }
    }
  }

  lemma EndLife(roots: map<Path, RootId>, objs: seq<Root>, ds: map<Tid, Destroyer>, tid: Tid)
    requires Listed(roots, objs) && Dying(roots, objs, ds) && Singular(ds) && Attended(roots, objs, ds)
    requires tid in ds && ds[tid].root < |objs|
    ensures var roots', ds' := roots - {objs[ds[tid].root].path}, ds - {tid};
            Listed(roots', objs) && Dying(roots', objs, ds') && Singular(ds') && Attended(roots', objs, ds')
  {
    var roots', ds' := roots - {objs[ds[tid].root].path}, ds - {tid};
    assert Condemned(roots, objs, ds[tid]);
    forall p | p in roots' && objs[roots'[p]].destroy
      ensures exists d :: d in ds' && ds'[d].root == roots'[p]
    {
      var d :| d in ds && ds[d].root == roots[p];
      assert ds'[d].root == roots[p];
    }
    forall d | d in ds' ensures Condemned(roots', objs, ds'[d]) {
      assert Condemned(roots, objs, ds[d]);
    }
  }

  /** A destroyer that moves on keeps its Root. */
  lemma AdvanceLife(roots: map<Path, RootId>, objs: seq<Root>, ds: map<Tid, Destroyer>, tid: Tid, next: Destroyer)
    requires Dying(roots, objs, ds) && Singular(ds) && Attended(roots, objs, ds)
    requires tid in ds && next.root == ds[tid].root && !next.Started?
    ensures var ds' := ds[tid := next]; Dying(roots, objs, ds') && Singular(ds') && Attended(roots, objs, ds')
  {
    var ds' := ds[tid := next];
    assert Condemned(roots, objs, ds[tid]);
    forall p | p in roots && roots[p] < |objs| && objs[roots[p]].destroy
      ensures exists d :: d in ds' && ds'[d].root == roots[p]
    {
      var d :| d in ds && ds[d].root == roots[p];
      assert ds'[d].root == roots[p];
    }
  }

  lemma FreeLife(roots: map<Path, RootId>, objs: seq<Root>, ds: map<Tid, Destroyer>, tid: Tid, order: seq<Path>)
    requires Listed(roots, objs) && Dying(roots, objs, ds) && Singular(ds) && Attended(roots, objs, ds)
    requires tid in ds && ds[tid].root < |objs|
    ensures var id := ds[tid].root;
            var objs' := objs[id := objs[id].(queue := [], freed := true)];
            var ds' := ds[tid := Sweeping(id, order)];
            Listed(roots, objs') && Dying(roots, objs', ds') && Singular(ds') && Attended(roots, objs', ds')
  {
    var id := ds[tid].root;
    var objs' := objs[id := objs[id].(queue := [], freed := true)];
    assert Condemned(roots, objs, ds[tid]);
    AdvanceLife(roots, objs, ds, tid, Sweeping(id, order));
    forall d | d in ds && d != tid ensures Condemned(roots, objs', ds[d]) {
      assert Condemned(roots, objs, ds[d]);
    }
  }

  // ---- changes to the indexes --------------------------------------------

  lemma AddAgrees(byPath: map<Path, Watch>, byWd: map<int, Watch>, wd: int, path: Path)
    requires Agreement(byPath, byWd) && wd !in byWd && IsAbsolute(path) && !TmpTail(path)
    ensures Agreement(byPath[path := Watch(wd, path)], byWd[wd := Watch(wd, path)])
  {
  }

  lemma GripsAfterAdd(objs: seq<Root>, byWd: map<int, Watch>, retired: set<int>, ds: map<Tid, Destroyer>,
                      wd: int, path: Path)
    requires Grips(objs, byWd, retired, ds) && wd !in byWd && wd !in retired
    ensures Grips(objs, byWd[wd := Watch(wd, path)], retired, ds)
  {
  }

  lemma GripsAfterForget(objs: seq<Root>, byWd: map<int, Watch>, retired: set<int>, ds: map<Tid, Destroyer>,
                         wds: set<int>, retired': set<int>)
    requires Grips(objs, byWd, retired, ds) && retired + wds <= retired'
    ensures Grips(objs, byWd - wds, retired', ds)
  {
  }

  // ---- steps and the roots -----------------------------------------------

  lemma CurrentShrinks(disp: Dispatch, roots: map<Path, RootId>, objs: seq<Root>, gone: set<Path>)
    requires Current(disp, roots, objs)
    ensures Current(disp, roots - gone, objs)
  {
  }

  lemma CurrentFree(disp: Dispatch, roots: map<Path, RootId>, objs: seq<Root>, ds: map<Tid, Destroyer>, tid: Tid)
    requires Current(disp, roots, objs) && Dying(roots, objs, ds) && tid in ds && ds[tid].root < |objs|
    ensures var id := ds[tid].root; Current(disp, roots, objs[id := objs[id].(queue := [], freed := true)])
  {
  }

  lemma CheckWatchRoots(s: State, path: Path, mask: Word, maxEvents: int, rewatch: bool, order: seq<Path>)
    requires RootInv(s) && s.t.Indexed() && IsAbsolute(path) && Enumerates(order, s.t.roots.Keys)
    ensures RootInv(CheckWatch(s, path, mask, maxEvents, rewatch, order))
  {
    RefusalIsClear(s.t, order, WatchKey(path));
  }

  lemma InsertWatchRoots(s: State, opens: bool, walker: Tid)
    requires RootInv(s) && s.disp.Admitted?
    ensures RootInv(InsertWatch(s, opens, walker))
  {
    if opens {
      var Admitted(path, mask, maxEvents, rewatch) := s.disp;
      InsertLife(s.t.roots, s.t.objs, s.destroyers, Root(path, mask, maxEvents, [], false, false, false, rewatch));
      InsertAntichain(s.t.roots.Keys, path);
      assert s.t.roots[path := |s.t.objs|].Keys == s.t.roots.Keys + {path};
    }
  }

  lemma BeginUnwatchRoots(s: State, path: Path, tid: Tid)
    requires RootInv(s) && s.t.Indexed() && s.disp.Idle? && tid !in s.destroyers
    ensures RootInv(BeginUnwatch(s, path, tid))
  {
    if path in s.t.roots && !s.t.objs[s.t.roots[path]].destroy {
      MarkLife(s.t.roots, s.t.objs, s.destroyers, s.t.roots[path], tid);
    }
  }

  /** Steps of the dispatcher that only change a queue or a pause flag. */
  lemma UpdateRoots(s: State, s': State, id: RootId, r: Root)
    requires RootInv(s) && id < |s.t.objs| && SameLife(s.t.objs[id], r)
    requires s'.t.objs == s.t.objs[id := r]
    requires s'.t.roots == s.t.roots && s'.t.numRoots == s.t.numRoots && s'.destroyers == s.destroyers
    requires Current(s'.disp, s'.t.roots, s'.t.objs)
    ensures RootInv(s')
  {
    UpdateLife(s.t.roots, s.t.objs, s.destroyers, id, r);
  }

  lemma PauseRoots(s: State, path: Path, pause: bool)
    requires RootInv(s) && s.t.Indexed() && s.disp.Idle?
    ensures RootInv(if pause then PauseOn(s, path) else PauseOff(s, path))
  {
    if path in s.t.roots {
      var id := s.t.roots[path];
      UpdateRoots(s, if pause then PauseOn(s, path) else PauseOff(s, path), id, s.t.objs[id].(pause := pause));
    }
  }

  lemma FindQueueRoots(s: State, path: Path, count: nat, flush: bool)
    requires RootInv(s) && s.t.Indexed()
    ensures RootInv(FindQueue(s, path, count, flush))
  {
    SameRoots(s, FindQueue(s, path, count, flush));
  }

  lemma TakeEventsRoots(s: State)
    requires RootInv(s) && s.disp.Reading? && s.disp.root < |s.t.objs|
    ensures RootInv(TakeEvents(s))
  {
    var r := s.t.objs[s.disp.root];
    UpdateRoots(s, TakeEvents(s), s.disp.root, r.(queue := r.queue[Batch(r, s.disp.count)..]));
  }

  lemma QueueEventRoots(s: State)
    requires RootInv(s) && s.disp.Queueing? && s.disp.root < |s.t.objs|
    ensures RootInv(QueueEvent(s))
  {
    var id := s.disp.root;
    UpdateRoots(s, QueueEvent(s), id, Offer(s.t, s.disp.rec, s.disp.path, id).objs[id]);
  }

  /** Acting on an event leaves the roots alone. */
  lemma ActOnEventFrame(s: State, walker: Tid)
    requires s.disp.Found? && s.disp.root < |s.t.objs|
    ensures var s' := ActOnEvent(s, walker);
            && s'.t.roots == s.t.roots && s'.t.objs == s.t.objs && s'.t.numRoots == s.t.numRoots
            && s'.destroyers == s.destroyers
            && s'.disp in {Idle, Queueing(s.disp.rec, s.disp.path, s.disp.root)}
  {
  }

  lemma SameRoots(s: State, s': State)
    requires RootInv(s)
    requires s'.t.roots == s.t.roots && s'.t.objs == s.t.objs && s'.t.numRoots == s.t.numRoots
    requires s'.destroyers == s.destroyers && Current(s'.disp, s.t.roots, s.t.objs)
    ensures RootInv(s')
  {
  }

  lemma ActOnEventRoots(s: State, walker: Tid)
    requires RootInv(s) && s.disp.Found? && s.disp.root < |s.t.objs|
    ensures RootInv(ActOnEvent(s, walker))
  {
    ActOnEventFrame(s, walker);
    SameRoots(s, ActOnEvent(s, walker));
  }

  lemma FindTargetRoots(s: State, rec: Record, order: seq<Path>)
    requires RootInv(s) && s.t.Indexed()
    ensures RootInv(FindTarget(s, rec, order))
  {
  }

  lemma BeginDestroyRoots(s: State, tid: Tid, order: seq<Path>)
    requires RootInv(s) && tid in s.destroyers && s.destroyers[tid].root < |s.t.objs|
    ensures RootInv(BeginDestroy(s, tid, order))
  {
    FreeLife(s.t.roots, s.t.objs, s.destroyers, tid, order);
    CurrentFree(s.disp, s.t.roots, s.t.objs, s.destroyers, tid);
  }

  lemma EndDestroyRoots(s: State, tid: Tid)
    requires RootInv(s) && tid in s.destroyers && s.destroyers[tid].root < |s.t.objs|
    ensures RootInv(EndDestroy(s, tid))
  {
    var r := s.t.objs[s.destroyers[tid].root].path;
    assert Condemned(s.t.roots, s.t.objs, s.destroyers[tid]);
    EndLife(s.t.roots, s.t.objs, s.destroyers, tid);
    CurrentShrinks(s.disp, s.t.roots, s.t.objs, {r});
    assert (s.t.roots - {r}).Keys == s.t.roots.Keys - {r};
  }

  lemma AdvanceRoots(s: State, s': State, tid: Tid, d: Destroyer)
    requires RootInv(s) && tid in s.destroyers && d.root == s.destroyers[tid].root && !d.Started?
    requires s'.t.roots == s.t.roots && s'.t.objs == s.t.objs && s'.t.numRoots == s.t.numRoots && s'.disp == s.disp
    requires s'.destroyers == s.destroyers[tid := d]
    ensures RootInv(s')
  {
    AdvanceLife(s.t.roots, s.t.objs, s.destroyers, tid, d);
  }

  lemma DispatchRoots(s: State, a: DispatchAction)
    requires RootInv(s) && DispatchEnabled(s, a)
    ensures RootInv(DispatchStep(s, a))
  {
    match a
    case WatchCheck(path, mask, maxEvents, rewatch, order) =>
      CheckWatchRoots(s, path, mask, maxEvents, rewatch, order);
    case WatchInsert(opens, walker) => InsertWatchRoots(s, opens, walker);
    case Unwatch(path, tid) => BeginUnwatchRoots(s, path, tid);
    case PauseSet(path) => PauseRoots(s, path, true);
    case FlushFind => FindQueueRoots(s, s.disp.path, 0, true);
    case Unpause(path) => PauseRoots(s, path, false);
    case GetFind(path, count) => FindQueueRoots(s, path, count, false);
    case Take => TakeEventsRoots(s);
    case EventLookup(rec, order) => FindTargetRoots(s, rec, order);
    case EventAct(walker) => ActOnEventRoots(s, walker);
    case EventQueue => QueueEventRoots(s);
    case Rewatch(root, walker) => SameRoots(s, StartRewatch(s, root, walker));
  }

  lemma DestroyRoots(s: State, tid: Tid, a: DestroyAction)
    requires RootInv(s) && DestroyEnabled(s, tid, a)
    ensures RootInv(DestroyStep(s, tid, a))
  {
    match a
    case DestroyBegin(order) => BeginDestroyRoots(s, tid, order);
    case DestroyEnd => EndDestroyRoots(s, tid);
    case _ => AdvanceRoots(s, DestroyStep(s, tid, a), tid, DestroyStep(s, tid, a).destroyers[tid]);
  }

  lemma WalkFrame(s: State, tid: Tid, a: WalkAction)
    requires WalkEnabled(s, tid, a)
    ensures var s' := WalkStep(s, tid, a);
            && s'.t.roots == s.t.roots && s'.t.objs == s.t.objs && s'.t.numRoots == s.t.numRoots
            && s'.destroyers == s.destroyers && s'.disp == s.disp
  {
  }

  lemma WalkRoots(s: State, tid: Tid, a: WalkAction)
    requires RootInv(s) && WalkEnabled(s, tid, a)
    ensures RootInv(WalkStep(s, tid, a))
  {
    WalkFrame(s, tid, a);
    SameRoots(s, WalkStep(s, tid, a));
  }

  lemma CleanFrame(s: State, tid: Tid, a: CleanAction)
    requires CleanEnabled(s, tid, a)
    ensures var s' := CleanStep(s, tid, a);
            && s'.t.roots == s.t.roots && s'.t.objs == s.t.objs && s'.t.numRoots == s.t.numRoots
            && s'.destroyers == s.destroyers && s'.disp == s.disp && s'.walkers == s.walkers
  {
  }

  lemma CleanRoots(s: State, tid: Tid, a: CleanAction)
    requires RootInv(s) && CleanEnabled(s, tid, a)
    ensures RootInv(CleanStep(s, tid, a))
  {
  }

  lemma RootsKept(s: State, a: Action)
    requires RootInv(s) && Enabled(s, a)
    ensures RootInv(Step(s, a))
  {
    match a
    case Dispatcher(da) => DispatchRoots(s, da);
    case DestroyerOf(tid, ka) => DestroyRoots(s, tid, ka);
    case WalkerOf(tid, wa) => WalkRoots(s, tid, wa);
    case CleanerOf(tid, ca) => CleanRoots(s, tid, ca);
  }

  // ---- steps and the watches ---------------------------------------------

  lemma ChildAbsolute(dir: Path, name: string)
    requires IsAbsolute(dir)
    ensures IsAbsolute(Child(dir, name)) && IsAbsolute(EventPath(dir, name))
  {
  }

  lemma WalkWatches(s: State, tid: Tid, a: WalkAction)
    requires WatchInv(s) && WalkEnabled(s, tid, a)
    ensures WatchInv(WalkStep(s, tid, a))
  {
    var w := s.walkers[tid];
    assert Bound(s.t.objs, w);
    match a
    case WalkBegin =>
    case WalkVisit(hook) =>
      if Registers(s.t, w, hook) {
        AddAgrees(s.t.byPath, s.t.byWd, hook.wd, w.phase.path);
        GripsAfterAdd(s.t.objs, s.t.byWd, s.retired, s.destroyers, hook.wd, w.phase.path);
      }
    case WalkScan =>
      var Open(dir, names, _) := w.phase.open;
      if names != [] {
        ChildAbsolute(dir, names[0]);
      }
    case WalkEnd =>
  }

  /** The only path indexed under a path's descriptor is that path. */
  lemma ForgetOne(t: Tables, path: Path)
    requires Agreement(t.byPath, t.byWd) && path in t.byPath
    ensures Agreement(t.byPath - {path}, t.byWd - {t.byPath[path].wd})
  {
  }

  lemma CleanWatches(s: State, tid: Tid, a: CleanAction)
    requires WatchInv(s) && CleanEnabled(s, tid, a)
    ensures WatchInv(CleanStep(s, tid, a))
  {
  }

  /** Steps that leave both indexes, the retired set and the destroyers alone. */
  lemma ThreadsOnly(s: State, s': State)
    requires WatchInv(s)
    requires |s.t.objs| <= |s'.t.objs| && forall i | 0 <= i < |s.t.objs| :: s'.t.objs[i].path == s.t.objs[i].path
    requires s'.t.byPath == s.t.byPath && s'.t.byWd == s.t.byWd && s'.retired == s.retired
    requires s'.destroyers == s.destroyers
    requires s'.walkers == s.walkers && (s'.disp.Found? ==> s'.disp == s.disp)
    ensures WatchInv(s')
  {
  }

  lemma SpawnWatches(s: State, s': State, tid: Tid, w: Walker)
    requires WatchInv(s) && Bound(s'.t.objs, w)
    requires |s.t.objs| <= |s'.t.objs| && forall i | 0 <= i < |s.t.objs| :: s'.t.objs[i].path == s.t.objs[i].path
    requires s'.t.byPath == s.t.byPath && s'.t.byWd == s.t.byWd && s'.retired == s.retired
    requires s'.destroyers == s.destroyers
    requires s'.walkers == s.walkers[tid := w] && !s'.disp.Found?
    ensures WatchInv(s')
  {
  }

  /** Pruning takes out exactly the vanished paths, with their descriptors. */
  lemma PruneIsExact(t: Tables, mask: Word, abs: Path)
    requires Agreement(t.byPath, t.byWd) && IsAbsolute(abs)
    ensures var t' := Prune(t, mask, abs);
            && t'.byPath == t.byPath - Vanished(t, mask, abs)
            && t'.byWd == t.byWd - Wds(t, Vanished(t, mask, abs))
  {
    if Vanishes(mask) && abs in t.byPath {
      var t1 := ForgetAbsolute(t, abs);
      if Has(mask, IN_MOVED_FROM) {
        assert Below(t1, abs) == Below(t, abs);
        assert Wds(t, {abs} + Below(t, abs)) == {t.byPath[abs].wd} + Wds(t1, Below(t1, abs));
      } else {
        assert Wds(t, {abs}) == {t.byPath[abs].wd};
      }
    } else {
      assert Wds(t, {}) == {};
    }
  }

  lemma PruneAgrees(t: Tables, mask: Word, abs: Path)
    requires Agreement(t.byPath, t.byWd) && IsAbsolute(abs)
    ensures var t' := Prune(t, mask, abs); Agreement(t'.byPath, t'.byWd)
  {
  }

  lemma FindTargetWatches(s: State, rec: Record, order: seq<Path>)
    requires WatchInv(s) && s.t.Indexed() && s.disp.Idle?
    ensures WatchInv(FindTarget(s, rec, order))
  {
  }

  lemma ActOnEventWatches(s: State, walker: Tid)
    requires WatchInv(s) && s.disp.Found?
    ensures WatchInv(ActOnEvent(s, walker))
  {
    var Found(rec, path, root) := s.disp;
    var abs := EventPath(path, rec.name);
    var s' := ActOnEvent(s, walker);
    ChildAbsolute(path, rec.name);
    if s'.disp.Idle? {
      ThreadsOnly(s, s');
    } else if Appears(rec.mask) {
      SpawnWatches(s, s', walker, Walker(root, false, Begin(abs)));
    } else {
      PruneWatches(s, s', rec.mask, abs);
    }
  }

  lemma PruneWatches(s: State, s': State, mask: Word, abs: Path)
    requires WatchInv(s) && IsAbsolute(abs)
    requires s'.t == Prune(s.t, mask, abs) && s'.retired == s.retired + Wds(s.t, Vanished(s.t, mask, abs))
    requires s'.destroyers == s.destroyers && s'.walkers == s.walkers && !s'.disp.Found?
    ensures WatchInv(s')
  {
    PruneAgrees(s.t, mask, abs);
    PruneIsExact(s.t, mask, abs);
    GripsAfterForget(s.t.objs, s.t.byWd, s.retired, s.destroyers, Wds(s.t, Vanished(s.t, mask, abs)), s'.retired);
  }

  lemma InsertWatchWatches(s: State, opens: bool, walker: Tid)
    requires WatchInv(s) && s.disp.Admitted? && IsAbsolute(s.disp.path)
    ensures WatchInv(InsertWatch(s, opens, walker))
  {
  }

  lemma BeginUnwatchWatches(s: State, path: Path, tid: Tid)
    requires WatchInv(s) && s.t.Indexed() && !s.disp.Found?
    ensures WatchInv(BeginUnwatch(s, path, tid))
  {
  }

  lemma StartRewatchWatches(s: State, root: RootId, walker: Tid)
    requires WatchInv(s) && RootInv(s) && !s.disp.Found? && root < |s.t.objs|
    ensures WatchInv(StartRewatch(s, root, walker))
  {
  }

  lemma PauseWatches(s: State, path: Path)
    requires WatchInv(s) && s.t.Indexed() && !s.disp.Found?
    ensures WatchInv(PauseOn(s, path)) && WatchInv(PauseOff(s, path))
  {
    ThreadsOnly(s, PauseOn(s, path));
    ThreadsOnly(s, PauseOff(s, path));
  }

  lemma FindQueueWatches(s: State, path: Path, count: nat, flush: bool)
    requires WatchInv(s)
    ensures WatchInv(FindQueue(s, path, count, flush))
  {
    ThreadsOnly(s, FindQueue(s, path, count, flush));
  }

  lemma TakeEventsWatches(s: State)
    requires WatchInv(s) && s.disp.Reading? && s.disp.root < |s.t.objs|
    ensures WatchInv(TakeEvents(s))
  {
    ThreadsOnly(s, TakeEvents(s));
  }

  lemma QueueEventWatches(s: State)
    requires WatchInv(s) && s.disp.Queueing? && s.disp.root < |s.t.objs|
    ensures WatchInv(QueueEvent(s))
  {
  }

  lemma DispatchWatches(s: State, a: DispatchAction)
    requires RootInv(s) && WatchInv(s) && DispatchEnabled(s, a)
    ensures WatchInv(DispatchStep(s, a))
  {
    match a
    case WatchCheck(_, _, _, _, _) =>
    case WatchInsert(opens, walker) => InsertWatchWatches(s, opens, walker);
    case Unwatch(path, tid) => BeginUnwatchWatches(s, path, tid);
    case PauseSet(path) => PauseWatches(s, path);
    case FlushFind => FindQueueWatches(s, s.disp.path, 0, true);
    case Unpause(path) => PauseWatches(s, path);
    case GetFind(path, count) => FindQueueWatches(s, path, count, false);
    case Take => TakeEventsWatches(s);
    case EventLookup(rec, order) => FindTargetWatches(s, rec, order);
    case EventAct(walker) => ActOnEventWatches(s, walker);
    case EventQueue => QueueEventWatches(s);
    case Rewatch(root, walker) => StartRewatchWatches(s, root, walker);
  }

  // ---- destroyers and the watches ----------------------------------------

  lemma BeginDestroyWatches(s: State, tid: Tid, order: seq<Path>)
    requires WatchInv(s) && tid in s.destroyers && s.destroyers[tid].root < |s.t.objs|
    ensures WatchInv(BeginDestroy(s, tid, order))
  {
  }

  lemma NextKeyWatches(s: State, tid: Tid)
    requires WatchInv(s) && tid in s.destroyers && s.destroyers[tid].root < |s.t.objs|
    requires s.destroyers[tid].Sweeping? && s.destroyers[tid].keys != []
    ensures WatchInv(NextKey(s, tid))
  {
  }

  lemma UnhookWatches(s: State, tid: Tid)
    requires WatchInv(s) && DestroyEnabled(s, tid, DestroyUnhook)
    ensures WatchInv(DestroyStep(s, tid, DestroyUnhook))
  {
  }

  lemma RemoveHeldWatches(s: State, tid: Tid)
    requires WatchInv(s) && tid in s.destroyers && s.destroyers[tid].Holding? && s.destroyers[tid].unhooked
    ensures WatchInv(RemoveHeld(s, tid))
  {
  }

  /** A destroyer's own root is below no other root, so no one holds its watch. */
  lemma GripsAfterEnd(s: State, tid: Tid, r: Path)
    requires RootInv(s) && WatchInv(s) && tid in s.destroyers && s.destroyers[tid].root < |s.t.objs|
    requires r == s.t.objs[s.destroyers[tid].root].path && r in s.t.byPath
    ensures Grips(s.t.objs, s.t.byWd - {s.t.byPath[r].wd}, s.retired, s.destroyers)
  {
    forall d | d in s.destroyers
      ensures Grip(s.t.objs, s.t.byWd - {s.t.byPath[r].wd}, s.retired, s.destroyers[d])
    {
      var e := s.destroyers[d];
      assert Grip(s.t.objs, s.t.byWd, s.retired, e);
      if e.Holding? && e.wd == s.t.byPath[r].wd {
        assert Condemned(s.t.roots, s.t.objs, e) && Condemned(s.t.roots, s.t.objs, s.destroyers[tid]);
        PrefixOccurs(s.t.objs[e.root].path + "/", r);
      }
    }
  }

  lemma EndDestroyWatches(s: State, tid: Tid)
    requires RootInv(s) && WatchInv(s) && tid in s.destroyers && s.destroyers[tid].root < |s.t.objs|
    ensures WatchInv(EndDestroy(s, tid))
  {
    var r := s.t.objs[s.destroyers[tid].root].path;
    if r in s.t.byPath {
      GripsAfterEnd(s, tid, r);
      ForgetOne(s.t, r);
    }
  }

  lemma DestroyWatches(s: State, tid: Tid, a: DestroyAction)
    requires RootInv(s) && WatchInv(s) && DestroyEnabled(s, tid, a)
    ensures WatchInv(DestroyStep(s, tid, a))
  {
    match a
    case DestroyBegin(order) => BeginDestroyWatches(s, tid, order);
    case DestroyKey => NextKeyWatches(s, tid);
    case DestroyUnhook => UnhookWatches(s, tid);
    case DestroyRemove => RemoveHeldWatches(s, tid);
    case DestroyEnd => EndDestroyWatches(s, tid);
  }

  lemma WatchesKept(s: State, a: Action)
    requires RootInv(s) && WatchInv(s) && Enabled(s, a)
    ensures WatchInv(Step(s, a))
  {
    match a
    case Dispatcher(da) => DispatchWatches(s, da);
    case DestroyerOf(tid, ka) => DestroyWatches(s, tid, ka);
    case WalkerOf(tid, wa) => WalkWatches(s, tid, wa);
    case CleanerOf(tid, ca) => CleanWatches(s, tid, ca);
  }

  // ---- every state of every run ------------------------------------------

  ghost predicate Inv(s: State) {
    RootInv(s) && WatchInv(s)
  }

  lemma InitInv()
    ensures Inv(INIT)
  {
  }

  lemma InvKept(s: State, a: Action)
    requires Inv(s) && Enabled(s, a)
    ensures Inv(Step(s, a))
  {
    RootsKept(s, a);
    WatchesKept(s, a);
  }

  lemma InvStep(ss: seq<State>, acts: seq<Action>, i: nat)
    requires Run(ss, acts) && i < |acts| && Inv(ss[i])
    ensures Inv(ss[i + 1])
  {
    assert StepAt(ss, acts, i);
    InvKept(ss[i], acts[i]);
  }

  /** The invariant holds all along a run. */
  lemma {:induction false} RunKeepsInv(ss: seq<State>, acts: seq<Action>, i: nat)
    requires Run(ss, acts) && Inv(ss[0]) && i < |ss|
    ensures Inv(ss[i])
  {
    if i > 0 {
      RunKeepsInv(ss, acts, i - 1);
      InvStep(ss, acts, i - 1);
    }
  }

  // ---- the main results --------------------------------------------------

  /** The two indexes agree in every reachable state, so that one descriptor
      never stands for two indexed paths. */
  lemma IndexAgreement(ss: seq<State>, acts: seq<Action>, i: nat)
    requires Run(ss, acts) && ss[0] == INIT && i < |ss|
    ensures var t := ss[i].t;
            && (forall p | p in t.byPath ::
                  t.byPath[p].path == p && t.byPath[p].wd in t.byWd && t.byWd[t.byPath[p].wd] == t.byPath[p])
            && (forall d | d in t.byWd :: t.byWd[d].wd == d)
            && (forall p, q | p in t.byPath && q in t.byPath && p != q :: t.byPath[p].wd != t.byPath[q].wd)
  {
    InitInv();
    RunKeepsInv(ss, acts, i);
  }

  /** No reachable state indexes a scratch directory, so the handler's second
      test for one, on the directory of a found event, never succeeds. */
  lemma ScratchExcluded(ss: seq<State>, acts: seq<Action>, i: nat)
    requires Run(ss, acts) && ss[0] == INIT && i < |ss|
    ensures forall p | p in ss[i].t.byPath :: !TmpTail(p)
    ensures forall d | d in ss[i].t.byWd :: !TmpTail(ss[i].t.byWd[d].path)
    ensures ss[i].disp.Found? ==> !TmpTail(ss[i].disp.path)
  {
    InitInv();
    RunKeepsInv(ss, acts, i);
  }

  /** Across the unlocked gap between check and insert, and whatever destroyers
      do, no watched root other than `/` lies below another one; and no root can
      be taken for the end of the root list. */
  lemma RootAntichain(ss: seq<State>, acts: seq<Action>, i: nat)
    requires Run(ss, acts) && ss[0] == INIT && i < |ss|
    ensures Antichain(ss[i].t.roots.Keys) && "EOL" !in ss[i].t.roots
    ensures forall a, b | a in ss[i].t.roots && b in ss[i].t.roots && a != b :: !Under(a, b)
  {
    InitInv();
    RunKeepsInv(ss, acts, i);
    assert !IsAbsolute("EOL") && forall a | a in ss[i].t.roots :: a in ss[i].t.roots.Keys;
    forall a, b | a in ss[i].t.roots && b in ss[i].t.roots && a != b ensures !Under(a, b) {
      assert a in ss[i].t.roots.Keys && b in ss[i].t.roots.Keys;
      if Under(a, b) { PrefixOccurs(b + "/", a); }
    }
  }

  /** One Root per path, counted; one destroyer per marked Root, and it is
      about to remove the very Root it was given. */
  lemma RootLifecycle(ss: seq<State>, acts: seq<Action>, i: nat)
    requires Run(ss, acts) && ss[0] == INIT && i < |ss|
    ensures var s := ss[i];
            && s.t.numRoots == |s.t.roots|
            && s.t.Indexed()
            && (forall p, q | p in s.t.roots && q in s.t.roots && p != q :: s.t.roots[p] != s.t.roots[q])
            && (forall d, e | d in s.destroyers && e in s.destroyers && d != e ::
                  s.destroyers[d].root != s.destroyers[e].root)
            && (forall d | d in s.destroyers :: Condemned(s.t.roots, s.t.objs, s.destroyers[d]))
            && (forall p | p in s.t.roots ::
                  s.t.objs[s.t.roots[p]].destroy <==>
                  exists d :: d in s.destroyers && s.destroyers[d].root == s.t.roots[p])
            && (forall id | 0 <= id < |s.t.objs| && !s.t.objs[id].destroy ::
                  s.t.objs[id].path in s.t.roots && s.t.roots[s.t.objs[id].path] == id)
  {
    InitInv();
    RunKeepsInv(ss, acts, i);
    var s := ss[i];
    forall p | p in s.t.roots && exists d :: d in s.destroyers && s.destroyers[d].root == s.t.roots[p]
      ensures s.t.objs[s.t.roots[p]].destroy
    {
      var d :| d in s.destroyers && s.destroyers[d].root == s.t.roots[p];
      assert Condemned(s.t.roots, s.t.objs, s.destroyers[d]);
    }
  }

  /** While an event is being handled its root is neither marked, paused nor
      without its queue, although the lock is released in between. */
  lemma HandledRootLives(ss: seq<State>, acts: seq<Action>, i: nat)
    requires Run(ss, acts) && ss[0] == INIT && i < |ss|
    requires ss[i].disp.Found? || ss[i].disp.Queueing?
    ensures var id, t := ss[i].disp.root, ss[i].t;
            && id < |t.objs| && !t.objs[id].destroy && !t.objs[id].pause && !t.objs[id].freed
            && t.objs[id].path in t.roots && t.roots[t.objs[id].path] == id
  {
    InitInv();
    RunKeepsInv(ss, acts, i);
  }

  /** A new walker's length check (src/inotify.c:1324) never turns it away. */
  lemma StartsBelowRoot(ss: seq<State>, acts: seq<Action>, i: nat, tid: Tid)
    requires Run(ss, acts) && ss[0] == INIT && i < |ss|
    requires tid in ss[i].walkers && ss[i].walkers[tid].phase.Begin?
    ensures var w := ss[i].walkers[tid];
            w.root < |ss[i].t.objs| && |ss[i].t.objs[w.root].path| <= |w.phase.start|
  {
    InitInv();
    RunKeepsInv(ss, acts, i);
    assert Bound(ss[i].t.objs, ss[i].walkers[tid]);
  }

  // ---- the destroy flag is sticky ----------------------------------------

  /** Roots are only appended; paths are fixed and marks stay. */
  ghost predicate Grows(objs: seq<Root>, objs': seq<Root>) {
    && |objs| <= |objs'|
    && forall i | 0 <= i < |objs| :: objs'[i].path == objs[i].path && (objs[i].destroy ==> objs'[i].destroy)
  }

  lemma DispatchGrows(s: State, a: DispatchAction)
    requires DispatchEnabled(s, a)
    ensures Grows(s.t.objs, DispatchStep(s, a).t.objs)
  {
    match a
    case EventAct(walker) => ActOnEventFrame(s, walker);
    case _ =>
  }

  lemma StepGrows(s: State, a: Action)
    requires Enabled(s, a)
    ensures Grows(s.t.objs, Step(s, a).t.objs)
  {
    match a
    case Dispatcher(da) => DispatchGrows(s, da);
    case WalkerOf(tid, wa) => WalkFrame(s, tid, wa);
    case CleanerOf(tid, ca) => CleanFrame(s, tid, ca);
    case DestroyerOf(tid, ka) =>
  }

  lemma GrowsTransitive(a: seq<Root>, b: seq<Root>, c: seq<Root>)
    requires Grows(a, b) && Grows(b, c)
    ensures Grows(a, c)
  {
  }

  /** A mark, once set, is set in every later state. */
  lemma {:induction false} MarksStay(ss: seq<State>, acts: seq<Action>, i: nat, j: nat)
    requires Run(ss, acts) && i <= j < |ss|
    ensures Grows(ss[i].t.objs, ss[j].t.objs)
  {
    if i < j {
      MarksStay(ss, acts, i, j - 1);
      assert StepAt(ss, acts, j - 1);
      StepGrows(ss[j - 1], acts[j - 1]);
      GrowsTransitive(ss[i].t.objs, ss[j - 1].t.objs, ss[j].t.objs);
    }
  }

  /** This step marks Root `id` and starts a destroyer for it. */
  ghost predicate Condemns(s: State, a: Action, id: RootId) {
    && a.Dispatcher? && a.da.Unwatch? && a.da.path in s.t.roots && s.t.roots[a.da.path] == id
    && id < |s.t.objs| && !s.t.objs[id].destroy
  }

  /** Over a whole run at most one destroyer is started for a Root. */
  lemma OneDestroyerEver(ss: seq<State>, acts: seq<Action>, i: nat, j: nat, id: RootId)
    requires Run(ss, acts) && i < j < |acts| && Condemns(ss[i], acts[i], id)
    ensures !Condemns(ss[j], acts[j], id)
  {
    assert StepAt(ss, acts, i);
    assert ss[i + 1].t.objs[id].destroy;
    MarksStay(ss, acts, i + 1, j);
  }
}
