/**
 What an unwatch leaves behind in any run whatsoever, misfiled events and a watched
 `/` included: exactly the directories that walkers of other roots registered below
 its root after its snapshot was taken and that nothing has removed since.
 */
module Leftovers {
  import opened CString
  import opened Tables
  import opened Threads
  import opened Safety
  import opened Unwatch
  import opened Indexes
  import opened Progress

  /** A walker registers `p`. */
  ghost predicate Adds(s: State, a: Action, p: Path) {
    && a.WalkerOf? && a.wa.WalkVisit? && a.tid in s.walkers
    && var w := s.walkers[a.tid];
    && w.root < |s.t.objs| && w.phase.Visit? && w.phase.path == p && Registers(s.t, w, a.wa.hook)
  }

  /** The destroyer still has `p` before it. */
  predicate Ahead(d: Destroyer, p: Path) {
    match d
    case Started(_) => true
    case Sweeping(_, keys) => p in keys
    case Holding(_, keys, path, _, _) => p in keys || p == path
  }

  // ---- one step ----------------------------------------------------------

  lemma DispatchAddsNone(s: State, da: DispatchAction, p: Path)
    requires DispatchEnabled(s, da) && p in DispatchStep(s, da).t.byPath
    ensures p in s.t.byPath
  {
    if !da.EventAct? { DispatchKeepsIndexes(s, da); }
  }

  lemma WalkAdds(s: State, tid: Tid, wa: WalkAction, p: Path)
    requires WalkEnabled(s, tid, wa) && p in WalkStep(s, tid, wa).t.byPath
    ensures p in s.t.byPath || Adds(s, WalkerOf(tid, wa), p)
  {
    if !(wa.WalkVisit? && Registers(s.t, s.walkers[tid], wa.hook)) { MoveFrame(s, tid, wa); }
  }

  /** A destroyer passes over no path of its tree. */
  lemma OwnStepRemoves(s: State, tid: Tid, ka: DestroyAction, p: Path)
    requires DestroyEnabled(s, tid, ka) && !ka.DestroyEnd? && p in DestroyStep(s, tid, ka).t.byPath
    requires s.t.objs[s.destroyers[tid].root].path + "/" <= p
    ensures p in s.t.byPath && tid in DestroyStep(s, tid, ka).destroyers
    ensures Ahead(s.destroyers[tid], p) ==> Ahead(DestroyStep(s, tid, ka).destroyers[tid], p)
  {
    match ka
    case DestroyBegin(order) =>
    case DestroyKey =>
      var keys := s.destroyers[tid].keys;
      assert keys == [keys[0]] + keys[1..];
    case _ =>
  }

  /** After a step that does not end the destroyer, an indexed path of its tree is
      still ahead of it if it was before, or has just been registered. */
  lemma AheadKept(s: State, a: Action, tid: Tid, p: Path)
    requires Enabled(s, a) && tid in s.destroyers && a != DestroyerOf(tid, DestroyEnd)
    requires s.destroyers[tid].root < |s.t.objs| && s.t.objs[s.destroyers[tid].root].path + "/" <= p
    requires p in Step(s, a).t.byPath
    ensures tid in Step(s, a).destroyers && Step(s, a).destroyers[tid].root == s.destroyers[tid].root
    ensures p in s.t.byPath || Adds(s, a, p)
    ensures Ahead(s.destroyers[tid], p) ==> Ahead(Step(s, a).destroyers[tid], p)
  {
    if StepOf(a, tid) {
      OwnStepRemoves(s, tid, a.ka, p);
    } else {
      OthersLeaveDestroyer(s, a, tid);
      match a
      case Dispatcher(da) => DispatchAddsNone(s, da, p);
      case WalkerOf(t, wa) => WalkAdds(s, t, wa, p);
      case CleanerOf(t, ca) =>
      case DestroyerOf(t, ka) =>
    }
  }

  // ---- whole runs --------------------------------------------------------

  /** A destroyer of Root `id` takes its snapshot at step `b` and is at work until `e`. */
  ghost predicate Sweep(ss: seq<State>, acts: seq<Action>, b: nat, e: nat, tid: Tid, id: RootId) {
    && Run(ss, acts) && ss[0] == INIT && b < e <= |acts|
    && tid in ss[b].destroyers && ss[b].destroyers[tid].root == id
    && acts[b].DestroyerOf? && acts[b].tid == tid && acts[b].ka.DestroyBegin?
    && forall k | b <= k < e :: acts[k] != DestroyerOf(tid, DestroyEnd)
  }

  /** `p` was registered after the snapshot and has been indexed ever since. */
  ghost predicate AddedToStay(ss: seq<State>, acts: seq<Action>, b: nat, e: nat, p: Path)
    requires e <= |acts| < |ss|
  {
    exists k :: b < k < e && StaysFrom(ss, acts, k, e, p)
  }

  ghost predicate StaysFrom(ss: seq<State>, acts: seq<Action>, k: nat, e: nat, p: Path)
    requires k < e <= |acts| < |ss|
  {
    Adds(ss[k], acts[k], p) && forall m | k < m <= e :: p in ss[m].t.byPath
  }

  /** The destroyer of `id` is at work and has its snapshot. */
  ghost predicate AtWork(s: State, tid: Tid, id: RootId, r: Path) {
    && tid in s.destroyers && s.destroyers[tid].root == id < |s.t.objs|
    && s.t.objs[id].path == r && s.t.objs[id].destroy
  }

  lemma AtWorkNext(s: State, a: Action, tid: Tid, id: RootId, r: Path)
    requires AtWork(s, tid, id, r) && Enabled(s, a) && a != DestroyerOf(tid, DestroyEnd)
    ensures AtWork(Step(s, a), tid, id, r)
  {
    StepGrows(s, a);
    if !StepOf(a, tid) { OthersLeaveDestroyer(s, a, tid); }
  }

  lemma SnapshotAtWork(ss: seq<State>, acts: seq<Action>, b: nat, e: nat, tid: Tid, id: RootId)
    requires Sweep(ss, acts, b, e, tid, id) && id < |ss[b].t.objs|
    ensures AtWork(ss[b], tid, id, ss[b].t.objs[id].path)
  {
    InitInv();
    RunKeepsInv(ss, acts, b);
    assert Condemned(ss[b].t.roots, ss[b].t.objs, ss[b].destroyers[tid]);
  }

  lemma {:induction false} AtWorkFrom(ss: seq<State>, acts: seq<Action>, b: nat, e: nat, tid: Tid, id: RootId, r: Path)
    requires Run(ss, acts) && b <= e <= |acts| && AtWork(ss[b], tid, id, r)
    requires forall k | b <= k < e :: acts[k] != DestroyerOf(tid, DestroyEnd)
    ensures AtWork(ss[e], tid, id, r)
  {
    if b < e {
      AtWorkFrom(ss, acts, b, e - 1, tid, id, r);
      assert StepAt(ss, acts, e - 1);
      AtWorkNext(ss[e - 1], acts[e - 1], tid, id, r);
    }
  }

  lemma StaysAtWork(ss: seq<State>, acts: seq<Action>, b: nat, e: nat, tid: Tid, id: RootId)
    requires Sweep(ss, acts, b, e, tid, id) && id < |ss[b].t.objs|
    ensures AtWork(ss[e], tid, id, ss[b].t.objs[id].path)
  {
    SnapshotAtWork(ss, acts, b, e, tid, id);
    AtWorkFrom(ss, acts, b, e, tid, id, ss[b].t.objs[id].path);
  }

  lemma StaysLonger(ss: seq<State>, acts: seq<Action>, b: nat, e: nat, p: Path)
    requires 0 < e <= |acts| < |ss| && AddedToStay(ss, acts, b, e - 1, p) && p in ss[e].t.byPath
    ensures AddedToStay(ss, acts, b, e, p)
  {
    var k: nat :| b < k < e - 1 && StaysFrom(ss, acts, k, e - 1, p);
    assert StaysFrom(ss, acts, k, e, p);
  }

  lemma {:induction false} AheadOrAdded(ss: seq<State>, acts: seq<Action>, b: nat, e: nat, tid: Tid, id: RootId,
                                        p: Path)
    requires Sweep(ss, acts, b, e, tid, id) && id < |ss[b].t.objs|
    requires p in ss[e].t.byPath && ss[b].t.objs[id].path + "/" <= p
    ensures tid in ss[e].destroyers
    ensures Ahead(ss[e].destroyers[tid], p) || AddedToStay(ss, acts, b, e, p)
    decreases e
  {
    assert StepAt(ss, acts, e - 1);
    StaysAtWork(ss, acts, b, e, tid, id);
    if b + 1 == e {
      assert forall q | q in ss[b].t.byPath :: q in acts[b].ka.order;
    } else {
      StaysAtWork(ss, acts, b, e - 1, tid, id);
      AheadKept(ss[e - 1], acts[e - 1], tid, p);
      if p in ss[e - 1].t.byPath {
        AheadOrAdded(ss, acts, b, e - 1, tid, id, p);
        if AddedToStay(ss, acts, b, e - 1, p) { StaysLonger(ss, acts, b, e, p); }
      } else {
        assert StaysFrom(ss, acts, e - 1, e, p);
      }
    }
  }

  /** What an unwatch leaves behind, in every run: of the tree of its Root, exactly
      the directories that walkers of other Roots registered below it after the
      snapshot and that nothing has removed since. */
  lemma LeftoversAreStray(ss: seq<State>, acts: seq<Action>, b: nat, e: nat, tid: Tid, id: RootId, p: Path)
    requires Sweep(ss, acts, b, e, tid, id) && e < |acts| && acts[e] == DestroyerOf(tid, DestroyEnd)
    requires id < |ss[b].t.objs| && Under(p, ss[b].t.objs[id].path)
    ensures p in ss[e + 1].t.byPath
            <==> p != ss[b].t.objs[id].path
                 && exists k :: b < k < e && StaysFrom(ss, acts, k, e, p) && ss[k].walkers[acts[k].tid].root != id
  {
    StaysAtWork(ss, acts, b, e, tid, id);
    assert StepAt(ss, acts, e);
    if p in ss[e + 1].t.byPath {
      AheadOrAdded(ss, acts, b, e, tid, id, p);
      var k: nat :| b < k < e && StaysFrom(ss, acts, k, e, p);
      StaysAtWork(ss, acts, b, k, tid, id);
    }
  }
}
