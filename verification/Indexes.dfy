/**
 When the two watch indexes are inverse to each other.
 */
module Indexes {
  import opened CString
  import opened Tables
  import opened Threads
  import opened Safety
  import opened Unwatch

  /** Every descriptor entry is also the entry of its path; with Agreement the
      two indexes are then inverse to each other. */
  ghost predicate Bijective(byPath: map<Path, Watch>, byWd: map<int, Watch>) {
    forall d | d in byWd :: byWd[d].path in byPath && byPath[byWd[d].path] == byWd[d]
  }

  /** A walker registers a path that is still indexed under another descriptor. */
  predicate Readds(s: State, a: Action) {
    && a.WalkerOf? && a.wa.WalkVisit? && a.tid in s.walkers
    && var w := s.walkers[a.tid];
    && w.phase.Visit? && w.root < |s.t.objs| && Registers(s.t, w, a.wa.hook) && w.phase.path in s.t.byPath
  }

  /** A destroyer removes a path that was registered anew after its lookup. */
  predicate StaleRemoval(s: State, a: Action) {
    && a.DestroyerOf? && a.ka.DestroyRemove? && a.tid in s.destroyers
    && var d := s.destroyers[a.tid];
    && d.Holding? && d.path in s.t.byPath && s.t.byPath[d.path].wd != d.wd
  }

  // ---- tables ------------------------------------------------------------

  lemma AddBijective(byPath: map<Path, Watch>, byWd: map<int, Watch>, wd: int, path: Path)
    requires Agreement(byPath, byWd) && Bijective(byPath, byWd) && wd !in byWd
    ensures Bijective(byPath[path := Watch(wd, path)], byWd[wd := Watch(wd, path)]) <==> path !in byPath
  {
    if path in byPath {
      var d := byPath[path].wd;
      assert d in byWd[wd := Watch(wd, path)];
    }
  }

  lemma ForgetBijective(byPath: map<Path, Watch>, byWd: map<int, Watch>, paths: set<Path>, wds: set<int>)
    requires Agreement(byPath, byWd) && Bijective(byPath, byWd)
    requires forall p | p in byPath && p in paths :: byPath[p].wd in wds
    ensures Bijective(byPath - paths, byWd - wds)
  {
  }

  lemma RemoveBijective(byPath: map<Path, Watch>, byWd: map<int, Watch>, path: Path, wd: int)
    requires Agreement(byPath, byWd) && Bijective(byPath, byWd)
    ensures Bijective(byPath - {path}, byWd - {wd}) <==> (path in byPath ==> byPath[path].wd == wd)
  {
    if path in byPath && byPath[path].wd != wd {
      assert byPath[path].wd in byWd - {wd};
    }
  }

  // ---- steps -------------------------------------------------------------

  ghost predicate SameIndexes(s: State, s': State) {
    s'.t.byPath == s.t.byPath && s'.t.byWd == s.t.byWd
  }

  lemma DispatchBijective(s: State, a: DispatchAction)
    requires WatchInv(s) && DispatchEnabled(s, a) && Bijective(s.t.byPath, s.t.byWd)
    ensures var t' := DispatchStep(s, a).t; Bijective(t'.byPath, t'.byWd)
  {
    if a.EventAct? {
      var abs := EventPath(s.disp.path, s.disp.rec.name);
      ChildAbsolute(s.disp.path, s.disp.rec.name);
      PruneIsExact(s.t, s.disp.rec.mask, abs);
      var gone := Vanished(s.t, s.disp.rec.mask, abs);
      ForgetBijective(s.t.byPath, s.t.byWd, gone, Wds(s.t, gone));
    } else {
      DispatchKeepsIndexes(s, a);
    }
  }

  lemma DispatchKeepsIndexes(s: State, a: DispatchAction)
    requires DispatchEnabled(s, a) && !a.EventAct?
    ensures SameIndexes(s, DispatchStep(s, a))
  {
  }

  lemma DestroyBijective(s: State, tid: Tid, a: DestroyAction)
    requires WatchInv(s) && DestroyEnabled(s, tid, a) && Bijective(s.t.byPath, s.t.byWd)
    ensures var t' := DestroyStep(s, tid, a).t;
            Bijective(t'.byPath, t'.byWd) <==> !StaleRemoval(s, DestroyerOf(tid, a))
  {
    match a
    case DestroyRemove =>
      RemoveBijective(s.t.byPath, s.t.byWd, s.destroyers[tid].path, s.destroyers[tid].wd);
    case DestroyEnd =>
      var r := s.t.objs[s.destroyers[tid].root].path;
      if r in s.t.byPath { RemoveBijective(s.t.byPath, s.t.byWd, r, s.t.byPath[r].wd); }
    case _ =>
  }

  lemma CleanBijective(s: State, tid: Tid, a: CleanAction)
    requires WatchInv(s) && CleanEnabled(s, tid, a) && Bijective(s.t.byPath, s.t.byWd)
    ensures var t' := CleanStep(s, tid, a).t; Bijective(t'.byPath, t'.byWd)
  {
  }

  lemma WalkBijective(s: State, tid: Tid, a: WalkAction)
    requires WatchInv(s) && WalkEnabled(s, tid, a) && Bijective(s.t.byPath, s.t.byWd)
    ensures var t' := WalkStep(s, tid, a).t;
            Bijective(t'.byPath, t'.byWd) <==> !Readds(s, WalkerOf(tid, a))
  {
    if a.WalkVisit? && Registers(s.t, s.walkers[tid], a.hook) {
      AddBijective(s.t.byPath, s.t.byWd, a.hook.wd, s.walkers[tid].phase.path);
    } else {
      MoveFrame(s, tid, a);
    }
  }

  /** Exactly two steps can part the indexes: registering a path that is still
      indexed, and a destroyer's removal of a path registered since its lookup. */
  lemma BijectionBreaksOnlyAt(s: State, a: Action)
    requires WatchInv(s) && Enabled(s, a) && Bijective(s.t.byPath, s.t.byWd)
    ensures var t' := Step(s, a).t;
            Bijective(t'.byPath, t'.byWd) <==> !Readds(s, a) && !StaleRemoval(s, a)
  {
    match a
    case Dispatcher(da) => DispatchBijective(s, da);
    case WalkerOf(tid, wa) => WalkBijective(s, tid, wa);
    case DestroyerOf(tid, ka) => DestroyBijective(s, tid, ka);
    case CleanerOf(tid, ca) => CleanBijective(s, tid, ca);
  }

  /** Over any run the indexes stay inverse to each other exactly if neither occurs. */
  lemma {:induction false} BijectionOverRuns(ss: seq<State>, acts: seq<Action>, n: nat)
    requires Run(ss, acts) && ss[0] == INIT && n <= |acts|
    ensures (forall k | 0 <= k <= n :: Bijective(ss[k].t.byPath, ss[k].t.byWd))
            <==> (forall k | 0 <= k < n :: !Readds(ss[k], acts[k]) && !StaleRemoval(ss[k], acts[k]))
  {
    if n > 0 {
      BijectionOverRuns(ss, acts, n - 1);
      if Bijective(ss[n - 1].t.byPath, ss[n - 1].t.byWd) { BijectionStep(ss, acts, n - 1); }
    }
  }

  lemma BijectionStep(ss: seq<State>, acts: seq<Action>, i: nat)
    requires Run(ss, acts) && ss[0] == INIT && i < |acts| && Bijective(ss[i].t.byPath, ss[i].t.byWd)
    ensures Bijective(ss[i + 1].t.byPath, ss[i + 1].t.byWd)
            <==> !Readds(ss[i], acts[i]) && !StaleRemoval(ss[i], acts[i])
  {
    InitInv();
    RunKeepsInv(ss, acts, i);
    assert StepAt(ss, acts, i);
    BijectionBreaksOnlyAt(ss[i], acts[i]);
  }

  /** As long as no event is misfiled and `/` is not watched the second never occurs. */
  lemma WellFiledBijection(ss: seq<State>, acts: seq<Action>, n: nat)
    requires WellFiled(ss, acts, n)
    requires forall k | 0 <= k < n :: !Readds(ss[k], acts[k])
    ensures forall k | 0 <= k <= n :: Bijective(ss[k].t.byPath, ss[k].t.byWd)
  {
    forall k: nat | k < n ensures !StaleRemoval(ss[k], acts[k]) {
      RunKeepsTree(ss, acts, k);
      NoStaleRemoval(ss[k], acts[k]);
    }
    BijectionOverRuns(ss, acts, n);
  }

  lemma NoStaleRemoval(s: State, a: Action)
    requires TreeInv(s)
    ensures !StaleRemoval(s, a)
  {
  }
}
