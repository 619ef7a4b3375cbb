/**
 Walks end. Over a tree of finite depth a walker takes no more steps than what it has
 before it is worth, whatever other threads do, and every run can be taken to a point
 where all walkers are done and the trees of the live roots are covered.
 */
module Finish {
  import opened CString
  import opened Tables
  import opened Threads
  import opened Safety
  import opened Owners
  import opened Unwatch
  import opened Coverage
  import opened Spellings
  import opened Descriptors

  // ---- the work before a walker ------------------------------------------

  /** The tree below `p` is less than `d` deep. */
  ghost predicate Finite(kids: Kids, p: Path, d: nat)
    decreases d
  {
    d > 0 && forall n | n in kids(p) :: Finite(kids, Child(p, n), d - 1)
  }

  ghost predicate StackFinite(kids: Kids, open: Stack, d: nat) {
    match open
    case Bottom => true
    case Open(dir, names, rest) =>
      (forall n | n in names :: Finite(kids, Child(dir, n), d)) && StackFinite(kids, rest, d)
  }

  ghost predicate WalkFinite(kids: Kids, w: Walker, d: nat) {
    match w.phase
    case Begin(start) => Finite(kids, start, d)
    case Visit(path, open) => Finite(kids, path, d) && StackFinite(kids, open, d)
    case Scan(open) => StackFinite(kids, open, d)
  }

  /** The steps a walker spends on a directory and what is below it: a visit, a
      scan for each subdirectory and one to find that there are no more. */
  function Work(kids: Kids, p: Path, d: nat): nat
    decreases d, 0, 0
  {
    if d == 0 then 0 else 2 + KidWork(kids, p, kids(p), d - 1)
  }

  function KidWork(kids: Kids, dir: Path, names: seq<string>, d: nat): nat
    decreases d, 1, |names|
  {
    if names == [] then 0 else 1 + Work(kids, Child(dir, names[0]), d) + KidWork(kids, dir, names[1..], d)
  }

  function StackWork(kids: Kids, open: Stack, d: nat): nat {
    match open
    case Bottom => 1
    case Open(dir, names, rest) => 1 + KidWork(kids, dir, names, d) + StackWork(kids, rest, d)
  }

  function WalkWork(kids: Kids, w: Walker, d: nat): nat {
    match w.phase
    case Begin(start) => 2 + Work(kids, start, d)
    case Visit(path, open) => Work(kids, path, d) + StackWork(kids, open, d)
    case Scan(open) => StackWork(kids, open, d)
  }

  /** A larger bound on the depth makes no difference. */
  lemma {:induction false} DeeperBound(kids: Kids, p: Path, d: nat)
    requires Finite(kids, p, d)
    ensures Finite(kids, p, d + 1) && Work(kids, p, d + 1) == Work(kids, p, d)
    decreases d, 0, 0
  {
    KidsDeeperBound(kids, p, kids(p), d - 1);
  }

  lemma {:induction false} KidsDeeperBound(kids: Kids, dir: Path, names: seq<string>, d: nat)
    requires forall n | n in names :: Finite(kids, Child(dir, n), d)
    ensures forall n | n in names :: Finite(kids, Child(dir, n), d + 1)
    ensures KidWork(kids, dir, names, d + 1) == KidWork(kids, dir, names, d)
    decreases d, 1, |names|
  {
    if names != [] {
      DeeperBound(kids, Child(dir, names[0]), d);
      KidsDeeperBound(kids, dir, names[1..], d);
      assert names == [names[0]] + names[1..];
    }
  }

  /** A directory that is registered is listed as the tree has it. */
  predicate ListsKids(s: State, a: Action, kids: Kids) {
    match a
    case WalkerOf(tid, WalkVisit(hook)) =>
      tid in s.walkers && s.walkers[tid].phase.Visit? && s.walkers[tid].root < |s.t.objs| ==>
        Registers(s.t, s.walkers[tid], hook) ==> hook.names == kids(s.walkers[tid].phase.path)
    case _ => true
  }

  /** Every step of a walker leaves it less work. */
  lemma StepShrinks(s: State, tid: Tid, wa: WalkAction, kids: Kids, d: nat)
    requires WalkEnabled(s, tid, wa) && ListsKids(s, WalkerOf(tid, wa), kids) && WalkFinite(kids, s.walkers[tid], d)
    ensures var s' := WalkStep(s, tid, wa);
            tid in s'.walkers ==>
              && WalkFinite(kids, s'.walkers[tid], d)
              && WalkWork(kids, s'.walkers[tid], d) < WalkWork(kids, s.walkers[tid], d)
  {
    var w := s.walkers[tid];
    match wa
    case WalkBegin =>
    case WalkVisit(hook) =>
      KidsDeeperBound(kids, w.phase.path, kids(w.phase.path), d - 1);
    case WalkScan =>
      var names := w.phase.open.names;
      assert names == [] || names == [names[0]] + names[1..];
    case WalkEnd =>
  }

  // ---- a bound on its steps ----------------------------------------------

  predicate StepBy(a: Action, tid: Tid) {
    a.WalkerOf? && a.tid == tid
  }

  function WalkSteps(acts: seq<Action>, i: nat, j: nat, tid: Tid): nat
    requires i <= j <= |acts|
  {
    if i == j then 0 else WalkSteps(acts, i, j - 1, tid) + if StepBy(acts[j - 1], tid) then 1 else 0
  }

  /** As long as a walker lives, the steps it has taken and the work still before it
      are no more than the work it began with, in any interleaving of any threads. */
  lemma {:induction false} WalksEnd(ss: seq<State>, acts: seq<Action>, kids: Kids, i: nat, j: nat, tid: Tid, d: nat)
    requires Run(ss, acts) && i <= j < |ss| && forall k | i <= k <= j :: tid in ss[k].walkers
    requires forall k | i <= k < j && StepBy(acts[k], tid) :: ListsKids(ss[k], acts[k], kids)
    requires WalkFinite(kids, ss[i].walkers[tid], d)
    ensures WalkFinite(kids, ss[j].walkers[tid], d)
    ensures WalkSteps(acts, i, j, tid) + WalkWork(kids, ss[j].walkers[tid], d) <= WalkWork(kids, ss[i].walkers[tid], d)
  {
    if i < j {
      WalksEnd(ss, acts, kids, i, j - 1, tid, d);
      assert StepAt(ss, acts, j - 1);
      if StepBy(acts[j - 1], tid) {
        StepShrinks(ss[j - 1], tid, acts[j - 1].wa, kids, d);
      } else {
        WalkersStay(ss[j - 1], acts[j - 1], tid);
      }
    }
  }

  // ---- and an end that can be reached ------------------------------------

  /** How the kernel may answer: the descriptor of a directory in a state, always one
      that was not given back. */
  type Kernel = (State, Path) -> int

  ghost predicate Fair(wdIn: Kernel) {
    forall s, p :: wdIn(s, p) !in s.retired
  }

  /** The next step of a walker over the tree. */
  ghost function NextMove(s: State, tid: Tid, kids: Kids, wdIn: Kernel): WalkAction
    requires tid in s.walkers
  {
    match s.walkers[tid].phase
    case Begin(_) => WalkBegin
    case Visit(p, _) => WalkVisit(Hooked(wdIn(s, p), kids(p)))
    case Scan(open) => if open.Bottom? then WalkEnd else WalkScan
  }

  ghost predicate MovesAt(ss: seq<State>, acts: seq<Action>, k: nat, kids: Kids, wdIn: Kernel) {
    && k < |acts| && k < |ss| && acts[k].WalkerOf? && acts[k].tid in ss[k].walkers
    && acts[k].wa == NextMove(ss[k], acts[k].tid, kids, wdIn)
  }

  /** The run goes on with steps of walkers over the tree. */
  ghost predicate WalksOn(ss: seq<State>, acts: seq<Action>, ss': seq<State>, acts': seq<Action>,
                          kids: Kids, wdIn: Kernel) {
    && Run(ss', acts') && ss <= ss' && acts <= acts'
    && forall k | |acts| <= k < |acts'| :: MovesAt(ss', acts', k, kids, wdIn)
  }

  lemma WalksOnInTurn(ss: seq<State>, acts: seq<Action>, ss1: seq<State>, acts1: seq<Action>,
                      ss': seq<State>, acts': seq<Action>, kids: Kids, wdIn: Kernel)
    requires Run(ss1, acts1) && WalksOn(ss, acts, ss1, acts1, kids, wdIn)
    requires WalksOn(ss1, acts1, ss', acts', kids, wdIn)
    ensures WalksOn(ss, acts, ss', acts', kids, wdIn)
  {
    forall k | |acts| <= k < |acts'| ensures MovesAt(ss', acts', k, kids, wdIn) {
      if k < |acts1| {
        assert MovesAt(ss1, acts1, k, kids, wdIn);
        assert acts'[k] == acts1[k] && ss'[k] == ss1[k];
      }
    }
  }

  lemma MoveIsEnabled(s: State, tid: Tid, kids: Kids, wdIn: Kernel)
    requires tid in s.walkers && Bound(s.t.objs, s.walkers[tid]) && Fair(wdIn)
    ensures var wa := NextMove(s, tid, kids, wdIn);
            WalkEnabled(s, tid, wa) && ListsKids(s, WalkerOf(tid, wa), kids)
  {
    match s.walkers[tid].phase
    case Visit(p, _) => assert wdIn(s, p) !in s.retired;
    case _ =>
  }

  lemma MoveLeavesOthers(s: State, tid: Tid, wa: WalkAction)
    requires WalkEnabled(s, tid, wa)
    ensures WalkStep(s, tid, wa).walkers - {tid} == s.walkers - {tid}
  {
  }

  lemma OneMove(ss: seq<State>, acts: seq<Action>, tid: Tid, kids: Kids, wdIn: Kernel)
    returns (ss': seq<State>, acts': seq<Action>)
    requires Run(ss, acts) && Inv(ss[|acts|]) && Fair(wdIn) && tid in ss[|acts|].walkers
    ensures var s := ss[|acts|]; var wa := NextMove(s, tid, kids, wdIn);
            WalkEnabled(s, tid, wa) && ListsKids(s, WalkerOf(tid, wa), kids)
            && acts' == acts + [WalkerOf(tid, wa)] && ss' == ss + [WalkStep(s, tid, wa)]
    ensures WalksOn(ss, acts, ss', acts', kids, wdIn) && Inv(ss'[|acts'|])
    ensures ss'[|acts'|].walkers - {tid} == ss[|acts|].walkers - {tid}
  {
    var s := ss[|acts|];
    var a := WalkerOf(tid, NextMove(s, tid, kids, wdIn));
    assert Bound(s.t.objs, s.walkers[tid]);
    MoveIsEnabled(s, tid, kids, wdIn);
    MoveLeavesOthers(s, tid, a.wa);
    RunExtends(ss, acts, a);
    InvKept(s, a);
    ss', acts' := ss + [Step(s, a)], acts + [a];
    assert MovesAt(ss', acts', |acts|, kids, wdIn);
  }

  /** One walker is taken to its end. */
  lemma {:induction false} FinishOne(ss: seq<State>, acts: seq<Action>, tid: Tid, kids: Kids, wdIn: Kernel, d: nat)
    returns (ss': seq<State>, acts': seq<Action>)
    requires Run(ss, acts) && Inv(ss[|acts|]) && Fair(wdIn)
    requires tid in ss[|acts|].walkers && WalkFinite(kids, ss[|acts|].walkers[tid], d)
    ensures WalksOn(ss, acts, ss', acts', kids, wdIn) && Inv(ss'[|acts'|])
    ensures ss'[|acts'|].walkers == ss[|acts|].walkers - {tid}
    decreases WalkWork(kids, ss[|acts|].walkers[tid], d)
  {
    var s := ss[|acts|];
    var ss1, acts1 := OneMove(ss, acts, tid, kids, wdIn);
    StepShrinks(s, tid, NextMove(s, tid, kids, wdIn), kids, d);
    if tid in ss1[|acts1|].walkers {
      ss', acts' := FinishOne(ss1, acts1, tid, kids, wdIn, d);
      WalksOnInTurn(ss, acts, ss1, acts1, ss', acts', kids, wdIn);
    } else {
      ss', acts' := ss1, acts1;
      assert ss1[|acts1|].walkers == ss1[|acts1|].walkers - {tid};
    }
  }

  lemma {:induction false} FinishAll(ss: seq<State>, acts: seq<Action>, kids: Kids, wdIn: Kernel, d: nat)
    returns (ss': seq<State>, acts': seq<Action>)
    requires Run(ss, acts) && Inv(ss[|acts|]) && Fair(wdIn)
    requires forall w | w in ss[|acts|].walkers :: WalkFinite(kids, ss[|acts|].walkers[w], d)
    ensures WalksOn(ss, acts, ss', acts', kids, wdIn) && ss'[|acts'|].walkers == map[]
    decreases ss[|acts|].walkers.Keys
  {
    if ss[|acts|].walkers == map[] {
      ss', acts' := ss, acts;
    } else {
      var tid :| tid in ss[|acts|].walkers;
      var ss1, acts1 := FinishOne(ss, acts, tid, kids, wdIn, d);
      ss', acts' := FinishAll(ss1, acts1, kids, wdIn, d);
      WalksOnInTurn(ss, acts, ss1, acts1, ss', acts', kids, wdIn);
    }
  }

  // ---- where roots come and go -------------------------------------------

  ghost function FreshWd(used: set<int>): (wd: int)
    ensures forall u | u in used :: u < wd
  {
    if !exists u :: u in used then 0 else
    var u :| u in used;
    var rest := FreshWd(used - {u});
    assert forall v | v in used :: v == u || v in used - {u};
    if u < rest then rest else u + 1
  }

  /** A directory's own descriptor if it is indexed under one the kernel has, else a new one. */
  ghost function OwnWd(s: State, p: Path): int {
    if p in s.t.byPath && s.t.byPath[p].wd !in s.retired then s.t.byPath[p].wd
    else FreshWd(s.retired + s.t.byWd.Keys)
  }

  lemma OwnWdIsFair()
    ensures Fair(OwnWd)
  {
    forall s, p ensures OwnWd(s, p) !in s.retired {
      assert forall d | d in s.retired :: d in s.retired + s.t.byWd.Keys;
    }
  }

  lemma OtherwiseNew(s: State, p: Path)
    requires !(p in s.t.byPath && s.t.byPath[p].wd !in s.retired)
    ensures OwnWd(s, p) !in s.t.byWd
  {
    assert forall d | d in s.t.byWd.Keys :: d in s.retired + s.t.byWd.Keys;
  }

  /** The kernel still has the descriptors of a live root's directories. */
  lemma LiveIsHeld(s: State, id: RootId, p: Path)
    requires Sound(s) && RetiredHeld(s) && Live(s.t, id) && Under(p, s.t.objs[id].path) && p in s.t.byPath
    ensures s.t.byPath[p].wd !in s.retired
  {
    var wd := s.t.byPath[p].wd;
    if wd in s.retired {
      assert wd in s.t.byWd && Outgoing(s.destroyers, wd);
      var t :| t in s.destroyers && s.destroyers[t].Holding? && s.destroyers[t].unhooked && s.destroyers[t].wd == wd;
      assert Grip(s.t.objs, s.t.byWd, s.retired, s.destroyers[t]);
      assert Condemned(s.t.roots, s.t.objs, s.destroyers[t]);
      LiveTreeIsOwn(s, id, s.destroyers[t].root, p);
      assert false;
    }
  }

  lemma OwnMoveIsSteady(s: State, tid: Tid, kids: Kids)
    requires Sound(s) && RetiredHeld(s) && tid in s.walkers
    ensures Steady(s, WalkerOf(tid, NextMove(s, tid, kids, OwnWd)), kids)
  {
    var w := s.walkers[tid];
    assert Bound(s.t.objs, w) && WalkerUnder(w, s.t.objs[w.root].path);
    if w.phase.Visit? && Opens(s.t, w) {
      var p := w.phase.path;
      if p in s.t.byPath {
        LiveIsHeld(s, w.root, p);
      } else {
        OtherwiseNew(s, p);
      }
    }
  }

  lemma SteadyNext(ss: seq<State>, acts: seq<Action>, kids: Kids, k: nat)
    requires SteadyRun(ss, acts, kids, k) && MovesAt(ss, acts, k, kids, OwnWd)
    ensures SteadyRun(ss, acts, kids, k + 1)
  {
    SteadyIsSound(ss, acts, kids, k);
    IndexedIsHeldOrLive(ss, acts, k);
    OwnMoveIsSteady(ss[k], acts[k].tid, kids);
  }

  lemma SteadyAgrees(ss: seq<State>, acts: seq<Action>, ss': seq<State>, acts': seq<Action>, kids: Kids, n: nat)
    requires SteadyRun(ss, acts, kids, |acts|) && n <= |acts| && ss <= ss' && acts <= acts' && Run(ss', acts')
    ensures SteadyRun(ss', acts', kids, n)
  {
    assert ss'[0] == ss[0];
    forall k: nat | k < n
      ensures !Misfiles(ss'[k], acts'[k]) && !AdmitsSlash(ss'[k], acts'[k]) && Steady(ss'[k], acts'[k], kids)
    {
      assert ss'[k] == ss[k] && acts'[k] == acts[k];
    }
  }

  lemma {:induction false} SteadyGoesOn(ss: seq<State>, acts: seq<Action>, ss': seq<State>, acts': seq<Action>,
                                       kids: Kids, n: nat)
    requires SteadyRun(ss, acts, kids, |acts|) && WalksOn(ss, acts, ss', acts', kids, OwnWd)
    requires n <= |acts'|
    ensures SteadyRun(ss', acts', kids, n)
  {
    if n <= |acts| {
      SteadyAgrees(ss, acts, ss', acts', kids, n);
    } else {
      SteadyGoesOn(ss, acts, ss', acts', kids, n - 1);
      assert MovesAt(ss', acts', n - 1, kids, OwnWd);
      SteadyNext(ss', acts', kids, n - 1);
    }
  }

  /** Every run over a finite tree in which roots come and go can be continued to a point
      where all walkers are done; the whole tree of every root that is not being
      unwatched is registered there. */
  lemma CoverageIsReached(ss: seq<State>, acts: seq<Action>, kids: Kids, d: nat)
    returns (ss': seq<State>, acts': seq<Action>)
    requires SteadyRun(ss, acts, kids, |acts|)
    requires forall w | w in ss[|acts|].walkers :: WalkFinite(kids, ss[|acts|].walkers[w], d)
    ensures SteadyRun(ss', acts', kids, |acts'|) && ss <= ss' && acts <= acts' && ss'[|acts'|].walkers == map[]
    ensures forall id, names | Live(ss'[|acts'|].t, id) && Eligible(kids, ss'[|acts'|].t.objs[id].path, names) ::
              Descend(ss'[|acts'|].t.objs[id].path, names) in ss'[|acts'|].t.byPath
  {
    SteadyIsSound(ss, acts, kids, |acts|);
    OwnWdIsFair();
    ss', acts' := FinishAll(ss, acts, kids, OwnWd, d);
    SteadyGoesOn(ss, acts, ss', acts', kids, |acts'|);
    forall id, names | Live(ss'[|acts'|].t, id) && Eligible(kids, ss'[|acts'|].t.objs[id].path, names)
      ensures Descend(ss'[|acts'|].t.objs[id].path, names) in ss'[|acts'|].t.byPath
    {
      LiveRootsAreCovered(ss', acts', kids, |acts'|, id, names);
    }
  }

  // ---- where none is unwatched -------------------------------------------

  /** The tree's descriptor, as long as nothing was given back. */
  ghost function TreeWd(fs: Tree): Kernel {
    (s: State, p: Path) => if s.retired == {} then fs.wdOf(p) else FreshWd(s.retired)
  }

  lemma TreeWdIsFair(fs: Tree)
    ensures Fair(TreeWd(fs))
  {
    forall s, p ensures TreeWd(fs)(s, p) !in s.retired {
      assert s.retired != {} ==> forall d | d in s.retired :: d < FreshWd(s.retired);
    }
  }

  /** Nothing is given back to the kernel while the tree stays as it is. */
  lemma {:induction false} NothingRetired(ss: seq<State>, acts: seq<Action>, fs: Tree, n: nat)
    requires StillRun(ss, acts, fs, n)
    ensures ss[n].retired == {}
  {
    if n > 0 {
      NothingRetired(ss, acts, fs, n - 1);
      StillRunKeeps(ss, acts, fs, n - 1);
      assert StepAt(ss, acts, n - 1);
      RetiresNothing(ss[n - 1], acts[n - 1], fs);
    }
  }

  lemma RetiresNothing(s: State, a: Action, fs: Tree)
    requires Enabled(s, a) && Still(s, a, fs) && s.destroyers == map[]
    ensures Step(s, a).retired == s.retired
  {
    match a
    case Dispatcher(da) => DispatchStill(s, da, fs);
    case WalkerOf(t, wa) =>
    case CleanerOf(t, ca) =>
    case DestroyerOf(t, ka) =>
  }

  lemma {:induction false} StillGoesOn(ss: seq<State>, acts: seq<Action>, ss': seq<State>, acts': seq<Action>,
                                      fs: Tree, n: nat)
    requires StillRun(ss, acts, fs, |acts|) && WalksOn(ss, acts, ss', acts', fs.kids, TreeWd(fs))
    requires n <= |acts'|
    ensures StillRun(ss', acts', fs, n)
  {
    if n > 0 {
      StillGoesOn(ss, acts, ss', acts', fs, n - 1);
      var k := n - 1;
      if k < |acts| {
        assert ss'[k] == ss[k] && acts'[k] == acts[k];
      } else {
        assert MovesAt(ss', acts', k, fs.kids, TreeWd(fs));
        NothingRetired(ss', acts', fs, k);
      }
    }
  }

  /** The same for runs without an unwatch, `/` and misfiled events included: every
      eligible directory below the start of every walker of the run is watched. */
  lemma StillCoverageIsReached(ss: seq<State>, acts: seq<Action>, fs: Tree, d: nat)
    returns (ss': seq<State>, acts': seq<Action>)
    requires StillRun(ss, acts, fs, |acts|) && Coherent(fs)
    requires forall w | w in ss[|acts|].walkers :: WalkFinite(fs.kids, ss[|acts|].walkers[w], d)
    ensures StillRun(ss', acts', fs, |acts'|) && ss <= ss' && acts <= acts' && ss'[|acts'|].walkers == map[]
    ensures forall i, tid, names |
              && 0 <= i < |ss| && tid in ss[i].walkers && ss[i].walkers[tid].phase.Begin?
              && Eligible(fs.kids, ss[i].walkers[tid].phase.start, names) ::
              fs.wdOf(Descend(ss[i].walkers[tid].phase.start, names)) in ss'[|acts'|].t.byWd
  {
    InitInv();
    RunKeepsInv(ss, acts, |acts|);
    TreeWdIsFair(fs);
    ss', acts' := FinishAll(ss, acts, fs.kids, TreeWd(fs), d);
    StillGoesOn(ss, acts, ss', acts', fs, |acts'|);
    forall i, tid, names |
      && 0 <= i < |ss| && tid in ss[i].walkers && ss[i].walkers[tid].phase.Begin?
      && Eligible(fs.kids, ss[i].walkers[tid].phase.start, names)
      ensures fs.wdOf(Descend(ss[i].walkers[tid].phase.start, names)) in ss'[|acts'|].t.byWd
    {
      assert ss'[i] == ss[i];
      WalkersWatchTheTree(ss', acts', fs, i, |acts'|, tid, names);
    }
  }
}
