/**
 Which descriptors are given back to the kernel with inotify_rm_watch, and when.
 */
module Descriptors {
  import opened CString
  import opened Tables
  import opened Threads
  import opened Safety
  import opened Indexes

  // ---- what leaves the index ---------------------------------------------

  /** Whatever leaves the descriptor index has been given back. */
  ghost predicate GivesBack(s: State, s': State) {
    forall d | d in s.t.byWd && d !in s'.t.byWd :: d in s'.retired
  }

  /** A destroyer ends whose root is still indexed, under a descriptor the kernel has. */
  ghost predicate KeepsRootWatch(s: State, a: Action) {
    && a.DestroyerOf? && a.ka.DestroyEnd? && a.tid in s.destroyers && s.destroyers[a.tid].root < |s.t.objs|
    && var r := s.t.objs[s.destroyers[a.tid].root].path;
    && r in s.t.byPath && s.t.byPath[r].wd !in s.retired
  }

  lemma DispatchGivesBack(s: State, da: DispatchAction)
    requires WatchInv(s) && DispatchEnabled(s, da)
    ensures GivesBack(s, DispatchStep(s, da))
  {
    if da.EventAct? {
      ChildAbsolute(s.disp.path, s.disp.rec.name);
      PruneIsExact(s.t, s.disp.rec.mask, EventPath(s.disp.path, s.disp.rec.name));
    } else {
      DispatchKeepsIndexes(s, da);
    }
  }

  lemma DestroyGivesBack(s: State, tid: Tid, ka: DestroyAction)
    requires WatchInv(s) && DestroyEnabled(s, tid, ka)
    ensures GivesBack(s, DestroyStep(s, tid, ka)) <==> !KeepsRootWatch(s, DestroyerOf(tid, ka))
  {
    assert Grip(s.t.objs, s.t.byWd, s.retired, s.destroyers[tid]);
    if KeepsRootWatch(s, DestroyerOf(tid, ka)) {
      var d := s.t.byPath[s.t.objs[s.destroyers[tid].root].path].wd;
      assert d in s.t.byWd && d !in DestroyStep(s, tid, ka).t.byWd;
    }
  }

  /** Every descriptor that leaves the index is given back to the kernel, except that
      of an unwatched root itself. */
  lemma GivenBackButForRoots(s: State, a: Action)
    requires WatchInv(s) && Enabled(s, a)
    ensures GivesBack(s, Step(s, a)) <==> !KeepsRootWatch(s, a)
  {
    match a
    case Dispatcher(da) => DispatchGivesBack(s, da);
    case WalkerOf(tid, wa) =>
    case CleanerOf(tid, ca) =>
    case DestroyerOf(tid, ka) => DestroyGivesBack(s, tid, ka);
  }

  // ---- what stays in it --------------------------------------------------

  /** A descriptor that is indexed although it was given back is about to be removed. */
  ghost predicate Outgoing(ds: map<Tid, Destroyer>, d: int) {
    exists t :: t in ds && ds[t].Holding? && ds[t].unhooked && ds[t].wd == d
  }

  ghost predicate RetiredHeld(s: State) {
    forall d | d in s.t.byWd && d in s.retired :: Outgoing(s.destroyers, d)
  }

  lemma OutgoingKept(ds: map<Tid, Destroyer>, ds': map<Tid, Destroyer>, d: int)
    requires Outgoing(ds, d) && forall t | t in ds && ds[t].Holding? && ds[t].wd == d :: t in ds' && ds'[t] == ds[t]
    ensures Outgoing(ds', d)
  {
  }

  lemma DispatchRetired(s: State, da: DispatchAction)
    requires WatchInv(s) && DispatchEnabled(s, da) && RetiredHeld(s)
    ensures RetiredHeld(DispatchStep(s, da))
  {
    var s' := DispatchStep(s, da);
    if da.EventAct? {
      ChildAbsolute(s.disp.path, s.disp.rec.name);
      PruneIsExact(s.t, s.disp.rec.mask, EventPath(s.disp.path, s.disp.rec.name));
      ActOnEventFrame(s, da.walker);
    } else {
      DispatchKeepsIndexes(s, da);
    }
    forall d | d in s'.t.byWd && d in s'.retired ensures Outgoing(s'.destroyers, d) {
      assert Outgoing(s.destroyers, d);
      OutgoingKept(s.destroyers, s'.destroyers, d);
    }
  }

  lemma DestroyRetired(s: State, tid: Tid, ka: DestroyAction)
    requires DestroyEnabled(s, tid, ka) && RetiredHeld(s)
    ensures RetiredHeld(DestroyStep(s, tid, ka))
  {
    var s' := DestroyStep(s, tid, ka);
    forall d | d in s'.t.byWd && d in s'.retired ensures Outgoing(s'.destroyers, d) {
      if ka.DestroyUnhook? && d == s.destroyers[tid].wd {
        assert s'.destroyers[tid].unhooked;
      } else {
        assert Outgoing(s.destroyers, d);
        var t :| t in s.destroyers && s.destroyers[t].Holding? && s.destroyers[t].unhooked && s.destroyers[t].wd == d;
        assert t in s'.destroyers && s'.destroyers[t] == s.destroyers[t];
      }
    }
  }

  lemma RetiredKept(s: State, a: Action)
    requires WatchInv(s) && Enabled(s, a) && RetiredHeld(s)
    ensures RetiredHeld(Step(s, a))
  {
    match a
    case Dispatcher(da) => DispatchRetired(s, da);
    case WalkerOf(tid, wa) => WalkFrame(s, tid, wa);
    case CleanerOf(tid, ca) => CleanFrame(s, tid, ca);
    case DestroyerOf(tid, ka) => DestroyRetired(s, tid, ka);
  }

  /** In every reachable state an indexed descriptor is one the kernel still has, or a
      destroyer is between giving it back and removing it. */
  lemma {:induction false} IndexedIsHeldOrLive(ss: seq<State>, acts: seq<Action>, i: nat)
    requires Run(ss, acts) && ss[0] == INIT && i < |ss|
    ensures RetiredHeld(ss[i])
  {
    if i > 0 {
      IndexedIsHeldOrLive(ss, acts, i - 1);
      InitInv();
      RunKeepsInv(ss, acts, i - 1);
      assert StepAt(ss, acts, i - 1);
      RetiredKept(ss[i - 1], acts[i - 1]);
    }
  }
}
