/**
 Walkers cover the trees of the roots that stay watched. While other roots are
 watched, unwatched and watched again, any number of walkers in any interleaving
 leave every eligible directory of a live root registered, although each of them
 turns back wherever another one has been and destroyers remove watches meanwhile.
 */
module Coverage {
  import opened CString
  import opened Tables
  import opened Threads
  import opened Safety
  import opened Owners
  import opened Unwatch
  import opened Indexes
  import opened Leftovers

  /** The directory tree: the subdirectories of each directory. */
  type Kids = Path -> seq<string>

  // ---- steps over a tree that stays as it is -----------------------------

  /** The walker's visit comes as far as opening its directory (src/inotify.c:1365-1416). */
  predicate Opens(t: Tables, w: Walker)
    requires w.root < |t.objs| && w.phase.Visit?
  {
    && !TmpTail(w.phase.path)
    && !t.objs[w.root].destroy
    && !(w.cleanup && w.phase.path in t.byPath)
  }

  /** The directory opens and is listed, and the kernel answers with the directory's
      own descriptor if that is indexed and with an unknown one if it is not. */
  predicate HooksOwn(t: Tables, p: Path, hook: Hook, kids: Kids) {
    && hook.Hooked? && hook.names == kids(p)
    && (hook.wd in t.byWd ==> t.byWd[hook.wd].path == p)
    && (p in t.byPath ==> hook.wd in t.byWd)
  }

  /** A step in which the tree stays as it is: every directory opens and can be
      watched, and neither events nor cleaners find one gone. Roots may come and go. */
  ghost predicate Steady(s: State, a: Action, kids: Kids) {
    match a
    case WalkerOf(tid, WalkVisit(hook)) =>
      tid in s.walkers && s.walkers[tid].phase.Visit? && s.walkers[tid].root < |s.t.objs| ==>
        Opens(s.t, s.walkers[tid]) ==> HooksOwn(s.t, s.walkers[tid].phase.path, hook, kids)
    case CleanerOf(tid, CleanKey(isDir)) =>
      tid in s.cleaners && s.cleaners[tid] != [] ==> isDir || s.cleaners[tid][0] !in s.t.byPath
    case Dispatcher(EventAct(_)) =>
      s.disp.Found? ==> Vanished(s.t, s.disp.rec.mask, EventPath(s.disp.path, s.disp.rec.name)) == {}
    case _ => true
  }

  // ---- pending work ------------------------------------------------------

  ghost predicate StackHolds(open: Stack, p: Path) {
    match open
    case Bottom => false
    case Open(dir, names, rest) => (exists n :: n in names && p == Child(dir, n)) || StackHolds(rest, p)
  }

  /** `p` is still on this walker's way. */
  ghost predicate Holds(w: Walker, p: Path) {
    match w.phase
    case Begin(start) => p == start
    case Visit(path, open) => p == path || StackHolds(open, p)
    case Scan(open) => StackHolds(open, p)
  }

  /** `p` is on the way of a walker of Root `id`. */
  ghost predicate PendingFor(ws: map<Tid, Walker>, id: RootId, p: Path) {
    exists w :: w in ws && ws[w].root == id && Holds(ws[w], p)
  }

  /** `p` needs no watch, has one, or will be visited for Root `id`. */
  ghost predicate Tracked(s: State, id: RootId, p: Path) {
    TmpTail(p) || p in s.t.byPath || PendingFor(s.walkers, id, p)
  }

  ghost predicate Live(t: Tables, id: int) {
    0 <= id < |t.objs| && !t.objs[id].destroy
  }

  /** Every subdirectory of a registered directory of a live root is tracked for that root. */
  ghost predicate KidsTracked(s: State, kids: Kids) {
    forall id, p, n | Live(s.t, id) && p in s.t.byPath && Under(p, s.t.objs[id].path) && n in kids(p) ::
      Tracked(s, id, Child(p, n))
  }

  /** Every live root is itself tracked. */
  ghost predicate RootsTracked(s: State) {
    forall id | Live(s.t, id) :: Tracked(s, id, s.t.objs[id].path)
  }

  /** What holds so far in the runs considered here. */
  ghost predicate Sound(s: State) {
    Inv(s) && TreeInv(s) && Bijective(s.t.byPath, s.t.byWd)
  }

  // ---- what a destroyer takes --------------------------------------------

  /** A live root's directory is in no other root's tree. */
  lemma LiveTreeIsOwn(s: State, id: RootId, other: RootId, p: Path)
    requires RootInv(s) && Live(s.t, id) && Under(p, s.t.objs[id].path)
    requires other < |s.t.objs| && s.t.objs[other].path in s.t.roots
    requires s.t.roots[s.t.objs[other].path] == other && Under(p, s.t.objs[other].path)
    ensures other == id
  {
    assert s.t.objs[id].path in s.t.roots.Keys && s.t.objs[other].path in s.t.roots.Keys;
    OneRootAbove(s.t.roots.Keys, p, s.t.objs[id].path, s.t.objs[other].path);
  }

  /** A destroyer removes nothing from a live root's tree. */
  lemma DestroyerSpares(s: State, tid: Tid, ka: DestroyAction, id: RootId, p: Path)
    requires Inv(s) && DestroyEnabled(s, tid, ka)
    requires Live(s.t, id) && Under(p, s.t.objs[id].path) && p in s.t.byPath
    ensures p in DestroyStep(s, tid, ka).t.byPath
  {
    var d := s.destroyers[tid];
    assert Condemned(s.t.roots, s.t.objs, d);
    assert Grip(s.t.objs, s.t.byWd, s.retired, d);
    if Under(p, s.t.objs[d.root].path) {
      LiveTreeIsOwn(s, id, d.root, p);
      assert false;
    }
  }

  /** The path a destroyer's step takes out of the index. */
  function Removes(t: Tables, d: Destroyer, ka: DestroyAction): Option<Path>
    requires d.root < |t.objs|
  {
    match ka
    case DestroyRemove => if d.Holding? then Some(d.path) else None
    case DestroyEnd => Some(t.objs[d.root].path)
    case _ => None
  }

  /** A root that `p` belongs to. */
  predicate Above(q: Path, p: Path) {
    q == "/" || Under(p, q)
  }

  lemma RemovesThat(s: State, tid: Tid, ka: DestroyAction)
    requires DestroyEnabled(s, tid, ka)
    ensures var gone := Removes(s.t, s.destroyers[tid], ka);
            DestroyStep(s, tid, ka).t.byPath == if gone.Some? then s.t.byPath - {gone.value} else s.t.byPath
  {
  }

  lemma RemovesOwn(s: State, tid: Tid, ka: DestroyAction, p: Path)
    requires Inv(s) && DestroyEnabled(s, tid, ka) && Removes(s.t, s.destroyers[tid], ka) == Some(p)
    ensures var r := s.t.objs[s.destroyers[tid].root].path; r in s.t.roots.Keys && Under(p, r)
  {
    assert Condemned(s.t.roots, s.t.objs, s.destroyers[tid]);
    assert Grip(s.t.objs, s.t.byWd, s.retired, s.destroyers[tid]);
  }

  /** What an unwatch takes out of the index also belongs to another watched root
      exactly if `/` is watched. */
  lemma SharedOnlyUnderSlash(s: State, tid: Tid, ka: DestroyAction, p: Path)
    requires Inv(s) && DestroyEnabled(s, tid, ka) && Removes(s.t, s.destroyers[tid], ka) == Some(p)
    requires s.t.objs[s.destroyers[tid].root].path != "/"
    ensures (exists q :: q in s.t.roots && q != s.t.objs[s.destroyers[tid].root].path && Above(q, p))
            <==> "/" in s.t.roots
  {
    var r := s.t.objs[s.destroyers[tid].root].path;
    RemovesOwn(s, tid, ka, p);
    forall q | q in s.t.roots.Keys && Under(p, q) ensures q == r {
      OneRootAbove(s.t.roots.Keys, p, q, r);
    }
    if "/" in s.t.roots { assert Above("/", p); }
  }

  // ---- one step ----------------------------------------------------------

  lemma ActKeeps(s: State, walker: Tid)
    requires s.disp.Found? && s.disp.root < |s.t.objs| && walker !in s.walkers
    requires Vanished(s.t, s.disp.rec.mask, EventPath(s.disp.path, s.disp.rec.name)) == {}
    ensures ActOnEvent(s, walker).t == s.t
  {
  }

  lemma DispatchIndex(s: State, da: DispatchAction, kids: Kids)
    requires DispatchEnabled(s, da) && Steady(s, Dispatcher(da), kids)
    ensures DispatchStep(s, da).t.byPath == s.t.byPath
  {
    if da.EventAct? { ActKeeps(s, da.walker); } else { DispatchKeepsIndexes(s, da); }
  }

  lemma DispatchWalkers(s: State, da: DispatchAction)
    requires DispatchEnabled(s, da)
    ensures forall w | w in s.walkers ::
              w in DispatchStep(s, da).walkers && DispatchStep(s, da).walkers[w] == s.walkers[w]
  {
  }

  /** A registered directory of a live root stays registered. */
  lemma IndexKept(s: State, a: Action, kids: Kids, id: RootId, p: Path)
    requires Enabled(s, a) && Steady(s, a, kids) && Inv(s)
    requires Live(s.t, id) && Under(p, s.t.objs[id].path) && p in s.t.byPath
    ensures p in Step(s, a).t.byPath
  {
    match a
    case Dispatcher(da) => DispatchIndex(s, da, kids);
    case WalkerOf(tid, wa) => WalkIndexGrows(s, tid, wa);
    case CleanerOf(tid, ca) =>
    case DestroyerOf(tid, ka) => DestroyerSpares(s, tid, ka, id, p);
  }

  lemma WalkIndexGrows(s: State, tid: Tid, wa: WalkAction)
    requires WalkEnabled(s, tid, wa)
    ensures forall p | p in s.t.byPath :: p in WalkStep(s, tid, wa).t.byPath
    ensures forall t | t in s.walkers && t != tid ::
              t in WalkStep(s, tid, wa).walkers && WalkStep(s, tid, wa).walkers[t] == s.walkers[t]
  {
  }

  /** Only its own steps change a walker. */
  lemma WalkersStay(s: State, a: Action, w: Tid)
    requires Enabled(s, a) && w in s.walkers && !(a.WalkerOf? && a.tid == w)
    ensures w in Step(s, a).walkers && Step(s, a).walkers[w] == s.walkers[w]
  {
    match a
    case Dispatcher(da) => DispatchWalkers(s, da);
    case WalkerOf(tid, wa) => WalkIndexGrows(s, tid, wa);
    case CleanerOf(tid, ca) => CleanFrame(s, tid, ca);
    case DestroyerOf(tid, ka) =>
  }

  /** A visit for a live root leaves the directory registered, unless it needs no watch. */
  lemma VisitRegisters(s: State, tid: Tid, hook: Hook, kids: Kids)
    requires WalkEnabled(s, tid, WalkVisit(hook)) && Steady(s, WalkerOf(tid, WalkVisit(hook)), kids)
    requires Bijective(s.t.byPath, s.t.byWd) && Live(s.t, s.walkers[tid].root)
    ensures var p := s.walkers[tid].phase.path; TmpTail(p) || p in WalkStep(s, tid, WalkVisit(hook)).t.byPath
  {
  }

  lemma VisitTracks(s: State, tid: Tid, hook: Hook, kids: Kids, p: Path)
    requires WalkEnabled(s, tid, WalkVisit(hook)) && Steady(s, WalkerOf(tid, WalkVisit(hook)), kids)
    requires Bijective(s.t.byPath, s.t.byWd)
    requires Live(s.t, s.walkers[tid].root) && Holds(s.walkers[tid], p)
    ensures Tracked(WalkStep(s, tid, WalkVisit(hook)), s.walkers[tid].root, p)
  {
    VisitRegisters(s, tid, hook, kids);
    if p != s.walkers[tid].phase.path {
      assert Holds(WalkStep(s, tid, WalkVisit(hook)).walkers[tid], p);
    }
  }

  /** Whatever a live root's walker had before it, it has registered or still has
      after its step. */
  lemma WalkTracks(s: State, tid: Tid, wa: WalkAction, kids: Kids, p: Path)
    requires WalkEnabled(s, tid, wa) && Steady(s, WalkerOf(tid, wa), kids) && Sound(s)
    requires Live(s.t, s.walkers[tid].root) && Holds(s.walkers[tid], p)
    ensures Tracked(WalkStep(s, tid, wa), s.walkers[tid].root, p)
  {
    var w := s.walkers[tid];
    assert Bound(s.t.objs, w);
    match wa
    case WalkBegin =>
      assert Holds(WalkStep(s, tid, wa).walkers[tid], p);
    case WalkVisit(hook) => VisitTracks(s, tid, hook, kids, p);
    case WalkScan =>
      assert w.phase.open.names == [] || w.phase.open.names == [w.phase.open.names[0]] + w.phase.open.names[1..];
      assert Holds(WalkStep(s, tid, wa).walkers[tid], p);
    case WalkEnd =>
  }

  /** What is tracked for a live root stays tracked for it, whatever thread takes a
      step and whichever other root is being unwatched. */
  lemma TrackedKept(s: State, a: Action, kids: Kids, id: RootId, p: Path)
    requires Enabled(s, a) && Steady(s, a, kids) && Sound(s)
    requires Live(s.t, id) && Under(p, s.t.objs[id].path) && Tracked(s, id, p)
    ensures Tracked(Step(s, a), id, p)
  {
    if p in s.t.byPath {
      IndexKept(s, a, kids, id, p);
    } else if !TmpTail(p) {
      var w :| w in s.walkers && s.walkers[w].root == id && Holds(s.walkers[w], p);
      if a.WalkerOf? && a.tid == w {
        WalkTracks(s, w, a.wa, kids, p);
      } else {
        WalkersStay(s, a, w);
      }
    }
  }

  /** A directory of a live root enters the index with all its subdirectories on the
      way of a walker of that root. */
  lemma NewKidsTracked(s: State, a: Action, kids: Kids, id: RootId, p: Path, n: string)
    requires Enabled(s, a) && Steady(s, a, kids) && Sound(s)
    requires Live(s.t, id) && Under(p, s.t.objs[id].path)
    requires p !in s.t.byPath && p in Step(s, a).t.byPath && n in kids(p)
    ensures Tracked(Step(s, a), id, Child(p, n))
  {
    OnlyWalkersAdd(s, a, kids, p);
    var w := s.walkers[a.tid];
    assert WalkerUnder(w, s.t.objs[w.root].path);
    LiveTreeIsOwn(s, id, w.root, p);
    assert Holds(Step(s, a).walkers[a.tid], Child(p, n));
  }

  lemma OnlyWalkersAdd(s: State, a: Action, kids: Kids, p: Path)
    requires Enabled(s, a) && Steady(s, a, kids) && p !in s.t.byPath && p in Step(s, a).t.byPath
    ensures Adds(s, a, p)
  {
    match a
    case Dispatcher(da) => DispatchIndex(s, da, kids);
    case WalkerOf(tid, wa) => WalkAdds(s, tid, wa, p);
    case CleanerOf(tid, ca) =>
    case DestroyerOf(tid, ka) =>
  }

  // ---- new roots ---------------------------------------------------------

  /** A Root that a step has made comes with a walker at its start, and nothing of its
      tree is indexed. */
  lemma NewRoot(s: State, a: Action, id: RootId)
    requires Enabled(s, a) && Inv(s) && TreeInv(s) && TreeInv(Step(s, a))
    requires |s.t.objs| <= id < |Step(s, a).t.objs|
    ensures PendingFor(Step(s, a).walkers, id, Step(s, a).t.objs[id].path)
    ensures forall p | p in Step(s, a).t.byPath :: !Under(p, Step(s, a).t.objs[id].path)
  {
    OnlyInsertMakesRoots(s, a);
    var s', path := Step(s, a), s.disp.path;
    assert Holds(s'.walkers[a.da.walker], path);
    forall p | p in s.t.byPath ensures !Under(p, path) {
      var q :| q in s.t.roots.Keys && Under(p, q);
      if Under(p, path) {
        UnderComparable(p, q, path);
        if Under(q, path) { PrefixOccursBelow(q, path); } else { PrefixOccursBelow(path, q); }
      }
    }
  }

  lemma PrefixOccursBelow(p: Path, r: Path)
    requires Under(p, r) && p != r
    ensures Occurs(p, r + "/")
  {
    PrefixOccurs(r + "/", p);
  }

  lemma DispatchMakesRoots(s: State, da: DispatchAction)
    requires DispatchEnabled(s, da) && !(da.WatchInsert? && da.opens)
    ensures |DispatchStep(s, da).t.objs| == |s.t.objs|
  {
    if da.EventAct? { ActOnEventFrame(s, da.walker); }
  }

  lemma OnlyInsertMakesRoots(s: State, a: Action)
    requires Enabled(s, a) && |s.t.objs| < |Step(s, a).t.objs|
    ensures a.Dispatcher? && a.da.WatchInsert? && a.da.opens
  {
    match a
    case Dispatcher(da) => if !(da.WatchInsert? && da.opens) { DispatchMakesRoots(s, da); }
    case WalkerOf(tid, wa) => WalkFrame(s, tid, wa);
    case CleanerOf(tid, ca) => CleanFrame(s, tid, ca);
    case DestroyerOf(tid, ka) => DestroyMakesRoots(s, tid, ka);
  }

  lemma DestroyMakesRoots(s: State, tid: Tid, ka: DestroyAction)
    requires DestroyEnabled(s, tid, ka)
    ensures |DestroyStep(s, tid, ka).t.objs| == |s.t.objs|
  {
  }

  lemma KidsKept(s: State, a: Action, kids: Kids)
    requires Enabled(s, a) && Steady(s, a, kids) && Sound(s) && TreeInv(Step(s, a)) && KidsTracked(s, kids)
    ensures KidsTracked(Step(s, a), kids)
  {
    var s' := Step(s, a);
    StepGrows(s, a);
    forall id, p, n | Live(s'.t, id) && p in s'.t.byPath && Under(p, s'.t.objs[id].path) && n in kids(p)
      ensures Tracked(s', id, Child(p, n))
    {
      if id >= |s.t.objs| {
        NewRoot(s, a, id);
        assert false;
      } else if p in s.t.byPath {
        assert Live(s.t, id) && s'.t.objs[id].path == s.t.objs[id].path;
        ChildUnder(p, n, s.t.objs[id].path);
        TrackedKept(s, a, kids, id, Child(p, n));
      } else {
        NewKidsTracked(s, a, kids, id, p, n);
      }
    }
  }

  lemma RootsKept(s: State, a: Action, kids: Kids)
    requires Enabled(s, a) && Steady(s, a, kids) && Sound(s) && TreeInv(Step(s, a)) && RootsTracked(s)
    ensures RootsTracked(Step(s, a))
  {
    var s' := Step(s, a);
    StepGrows(s, a);
    forall id | Live(s'.t, id) ensures Tracked(s', id, s'.t.objs[id].path) {
      if id >= |s.t.objs| {
        NewRoot(s, a, id);
      } else {
        assert Live(s.t, id);
        TrackedKept(s, a, kids, id, s.t.objs[id].path);
      }
    }
  }

  // ---- whole runs --------------------------------------------------------

  /** In its first `n` steps the run files no event under a wrong root, does not watch
      `/`, and finds the tree as it is. */
  ghost predicate SteadyRun(ss: seq<State>, acts: seq<Action>, kids: Kids, n: nat) {
    WellFiled(ss, acts, n) && forall k | 0 <= k < n :: Steady(ss[k], acts[k], kids)
  }

  lemma SteadyNeverReadds(s: State, a: Action, kids: Kids)
    requires Enabled(s, a) && Steady(s, a, kids)
    ensures !Readds(s, a)
  {
  }

  lemma SteadyIsSound(ss: seq<State>, acts: seq<Action>, kids: Kids, n: nat)
    requires SteadyRun(ss, acts, kids, n)
    ensures Sound(ss[n])
  {
    InitInv();
    RunKeepsInv(ss, acts, n);
    RunKeepsTree(ss, acts, n);
    forall k: nat | k < n ensures !Readds(ss[k], acts[k]) {
      assert StepAt(ss, acts, k);
      SteadyNeverReadds(ss[k], acts[k], kids);
    }
    WellFiledBijection(ss, acts, n);
  }

  lemma SteadyStep(ss: seq<State>, acts: seq<Action>, kids: Kids, n: nat)
    requires SteadyRun(ss, acts, kids, n + 1)
    ensures Enabled(ss[n], acts[n]) && ss[n + 1] == Step(ss[n], acts[n]) && Steady(ss[n], acts[n], kids)
    ensures Sound(ss[n]) && TreeInv(ss[n + 1])
  {
    assert StepAt(ss, acts, n);
    SteadyIsSound(ss, acts, kids, n);
    RunKeepsTree(ss, acts, n + 1);
  }

  lemma TracksKept(s: State, a: Action, kids: Kids)
    requires Enabled(s, a) && Steady(s, a, kids) && Sound(s) && TreeInv(Step(s, a))
    requires KidsTracked(s, kids) && RootsTracked(s)
    ensures KidsTracked(Step(s, a), kids) && RootsTracked(Step(s, a))
  {
    KidsKept(s, a, kids);
    RootsKept(s, a, kids);
  }

  lemma InitTracks(kids: Kids)
    ensures KidsTracked(INIT, kids) && RootsTracked(INIT)
  {
  }

  lemma TracksNext(ss: seq<State>, acts: seq<Action>, kids: Kids, n: nat)
    requires SteadyRun(ss, acts, kids, n + 1) && KidsTracked(ss[n], kids) && RootsTracked(ss[n])
    ensures KidsTracked(ss[n + 1], kids) && RootsTracked(ss[n + 1])
  {
    SteadyStep(ss, acts, kids, n);
    TracksKept(ss[n], acts[n], kids);
  }

  lemma {:induction false} SteadyRunTracks(ss: seq<State>, acts: seq<Action>, kids: Kids, n: nat)
    requires SteadyRun(ss, acts, kids, n)
    ensures KidsTracked(ss[n], kids) && RootsTracked(ss[n])
  {
    if n == 0 {
      InitTracks(kids);
    } else {
      SteadyRunTracks(ss, acts, kids, n - 1);
      TracksNext(ss, acts, kids, n - 1);
    }
  }

  /** A Root that is live was live before, under the same path. */
  lemma WasLive(ss: seq<State>, acts: seq<Action>, i: nat, n: nat, id: RootId)
    requires Run(ss, acts) && i <= n < |ss| && id < |ss[i].t.objs| && Live(ss[n].t, id)
    ensures Live(ss[i].t, id) && ss[n].t.objs[id].path == ss[i].t.objs[id].path
  {
    MarksStay(ss, acts, i, n);
  }

  lemma TrackedNext(ss: seq<State>, acts: seq<Action>, kids: Kids, n: nat, id: RootId, p: Path)
    requires SteadyRun(ss, acts, kids, n + 1) && Live(ss[n].t, id)
    requires Under(p, ss[n].t.objs[id].path) && Tracked(ss[n], id, p)
    ensures Tracked(ss[n + 1], id, p)
  {
    SteadyStep(ss, acts, kids, n);
    TrackedKept(ss[n], acts[n], kids, id, p);
  }

  /** What is once tracked for a Root that is still live at the end stays tracked. */
  lemma {:induction false} TrackedOverRun(ss: seq<State>, acts: seq<Action>, kids: Kids, i: nat, n: nat, id: RootId,
                                         p: Path)
    requires SteadyRun(ss, acts, kids, n) && i <= n && id < |ss[i].t.objs|
    requires Live(ss[n].t, id) && Under(p, ss[i].t.objs[id].path) && Tracked(ss[i], id, p)
    ensures Tracked(ss[n], id, p)
  {
    if i < n {
      MarksStay(ss, acts, i, n - 1);
      WasLive(ss, acts, n - 1, n, id);
      TrackedOverRun(ss, acts, kids, i, n - 1, id, p);
      TrackedNext(ss, acts, kids, n - 1, id, p);
    }
  }

  // ---- the main results --------------------------------------------------

  /** The directory reached from `p` along `names`. */
  function Descend(p: Path, names: seq<string>): Path
    decreases |names|
  {
    if names == [] then p else Descend(Child(p, names[0]), names[1..])
  }

  /** `names` leads down the tree from `p` past no scratch directory. */
  ghost predicate Eligible(kids: Kids, p: Path, names: seq<string>)
    decreases |names|
  {
    && !TmpTail(p)
    && (names != [] ==> names[0] in kids(p) && Eligible(kids, Child(p, names[0]), names[1..]))
  }

  /** No walker of Root `id` is left. */
  ghost predicate Walked(s: State, id: RootId) {
    forall w | w in s.walkers :: s.walkers[w].root != id
  }

  lemma {:induction false} QuietMeansCovered(s: State, kids: Kids, id: RootId, p: Path, names: seq<string>)
    requires Proper(s.t.objs) && KidsTracked(s, kids) && Live(s.t, id) && Walked(s, id)
    requires Under(p, s.t.objs[id].path) && Tracked(s, id, p) && Eligible(kids, p, names)
    ensures Descend(p, names) in s.t.byPath
    decreases |names|
  {
    assert p in s.t.byPath;
    if names != [] {
      ChildUnder(p, names[0], s.t.objs[id].path);
      QuietMeansCovered(s, kids, id, Child(p, names[0]), names[1..]);
    }
  }

  /** Coverage. In a run in which roots come and go over a tree that stays as it is,
      every root that is not being unwatched and whose walkers are done has its whole
      tree registered. */
  lemma LiveRootsAreCovered(ss: seq<State>, acts: seq<Action>, kids: Kids, n: nat, id: RootId, names: seq<string>)
    requires SteadyRun(ss, acts, kids, n) && Live(ss[n].t, id) && Walked(ss[n], id)
    requires Eligible(kids, ss[n].t.objs[id].path, names)
    ensures Descend(ss[n].t.objs[id].path, names) in ss[n].t.byPath
  {
    SteadyIsSound(ss, acts, kids, n);
    SteadyRunTracks(ss, acts, kids, n);
    QuietMeansCovered(ss[n], kids, id, ss[n].t.objs[id].path, names);
  }

  /** So has every walker there ever was for such a root, of its starting point; in
      particular the one for a directory that appeared later. */
  lemma LiveWalksAreCovered(ss: seq<State>, acts: seq<Action>, kids: Kids, i: nat, n: nat, tid: Tid, names: seq<string>)
    requires SteadyRun(ss, acts, kids, n) && i <= n
    requires tid in ss[i].walkers && ss[i].walkers[tid].phase.Begin?
    requires Live(ss[n].t, ss[i].walkers[tid].root) && Walked(ss[n], ss[i].walkers[tid].root)
    requires Eligible(kids, ss[i].walkers[tid].phase.start, names)
    ensures Descend(ss[i].walkers[tid].phase.start, names) in ss[n].t.byPath
  {
    var w := ss[i].walkers[tid];
    SteadyIsSound(ss, acts, kids, i);
    assert WalkerUnder(w, ss[i].t.objs[w.root].path);
    assert Holds(w, w.phase.start);
    MarksStay(ss, acts, i, n);
    TrackedOverRun(ss, acts, kids, i, n, w.root, w.phase.start);
    SteadyIsSound(ss, acts, kids, n);
    SteadyRunTracks(ss, acts, kids, n);
    QuietMeansCovered(ss[n], kids, w.root, w.phase.start, names);
  }
}
