/**
 The step system's guards hide no behaviour: in every reachable state each
 thread can take its next step. The one exception is the dispatcher about to
 read a queue that a destroyer has released. And destroyers come to an end.
 */
module Progress {
  import opened CString
  import opened Threads
  import opened Safety
  import opened Owners

  /** A thread identifier not in use. */
  ghost function FreshTid(used: set<Tid>): (tid: Tid)
    ensures forall t | t in used :: t < tid
  {
    if used == {} then 0 else
    var t :| t in used;
    var rest := FreshTid(used - {t});
    assert forall u | u in used :: u == t || u in used - {t};
    if t < rest then rest else t + 1
  }

  lemma WalkerCanStep(s: State, tid: Tid) returns (a: WalkAction)
    requires Inv(s) && tid in s.walkers
    ensures WalkEnabled(s, tid, a)
  {
    assert Bound(s.t.objs, s.walkers[tid]);
    match s.walkers[tid].phase
    case Begin(_) => a := WalkBegin;
    case Visit(_, _) => a := WalkVisit(Failed);
    case Scan(open) => a := if open.Bottom? then WalkEnd else WalkScan;
  }

  lemma DestroyerCanStep(s: State, tid: Tid) returns (a: DestroyAction)
    requires Inv(s) && tid in s.destroyers
    ensures DestroyEnabled(s, tid, a)
  {
    assert Condemned(s.t.roots, s.t.objs, s.destroyers[tid]);
    match s.destroyers[tid]
    case Started(_) => a := DestroyBegin(OrderOf(s.t.byPath.Keys));
    case Sweeping(_, keys) => a := if keys == [] then DestroyEnd else DestroyKey;
    case Holding(_, _, _, _, unhooked) => a := if unhooked then DestroyRemove else DestroyUnhook;
  }

  /** The step that takes the dispatcher on from where it stands. */
  ghost function NextSection(s: State): DispatchAction
    requires !s.disp.Idle?
  {
    match s.disp
    case Admitted(_, _, _, _) => WatchInsert(true, FreshTid(s.walkers.Keys))
    case Found(_, _, _) => EventAct(FreshTid(s.walkers.Keys))
    case Queueing(_, _, _) => EventQueue
    case Flushing(_) => FlushFind
    case Reading(_, _, _) => Take
  }

  /** Between two sections the dispatcher is stopped only where it would dequeue
      from a released queue, and then the client's root is under destruction. */
  lemma DispatcherCanStep(s: State)
    requires Inv(s) && !s.disp.Idle?
    ensures DispatchEnabled(s, NextSection(s)) <==> !(s.disp.Reading? && s.t.objs[s.disp.root].freed)
    ensures forall id | 0 <= id < |s.t.objs| && s.t.objs[id].freed :: s.t.objs[id].destroy
  {
  }

  /** The root is tested before the lock is taken: a destroyer may release the
      queue in between, although it was there when it was found. */
  lemma ReleaseInTheGap(s: State, path: Path, count: nat, tid: Tid, order: seq<Path>)
    requires Inv(s) && DispatchEnabled(s, GetFind(path, count)) && path in s.t.roots
    requires DestroyEnabled(s, tid, DestroyBegin(order)) && s.destroyers[tid].root == s.t.roots[path]
    ensures DispatchEnabled(FindQueue(s, path, count, false), Take)
    ensures DestroyEnabled(FindQueue(s, path, count, false), tid, DestroyBegin(order))
    ensures !DispatchEnabled(BeginDestroy(FindQueue(s, path, count, false), tid, order), Take)
  {
    assert Condemned(s.t.roots, s.t.objs, s.destroyers[tid]);
  }

  // ---- destroyers end ----------------------------------------------------

  /** The steps a destroyer with a snapshot takes at most before it is done. */
  function Left(d: Destroyer): nat {
    match d
    case Started(_) => 0
    case Sweeping(_, keys) => 3 * |keys| + 1
    case Holding(_, keys, _, _, unhooked) => 3 * |keys| + if unhooked then 2 else 3
  }

  predicate StepOf(a: Action, tid: Tid) {
    a.DestroyerOf? && a.tid == tid
  }

  /** How many of the steps from `i` up to `j` are those of destroyer `tid`. */
  function OwnSteps(acts: seq<Action>, i: nat, j: nat, tid: Tid): nat
    requires i <= j <= |acts|
  {
    if i == j then 0 else OwnSteps(acts, i, j - 1, tid) + if StepOf(acts[j - 1], tid) then 1 else 0
  }

  lemma OthersLeaveDestroyer(s: State, a: Action, tid: Tid)
    requires Enabled(s, a) && tid in s.destroyers && !StepOf(a, tid)
    ensures tid in Step(s, a).destroyers && Step(s, a).destroyers[tid] == s.destroyers[tid]
  {
    match a
    case Dispatcher(da) => if da.EventAct? { ActOnEventFrame(s, da.walker); }
    case WalkerOf(t, wa) => WalkFrame(s, t, wa);
    case CleanerOf(t, ca) => CleanFrame(s, t, ca);
    case DestroyerOf(t, ka) =>
  }

  lemma OwnStepShrinks(s: State, tid: Tid, ka: DestroyAction)
    requires DestroyEnabled(s, tid, ka) && !s.destroyers[tid].Started? && !ka.DestroyEnd?
    ensures var s' := DestroyStep(s, tid, ka);
            tid in s'.destroyers && !s'.destroyers[tid].Started? && Left(s'.destroyers[tid]) < Left(s.destroyers[tid])
  {
  }

  /** An unwatch comes to its end: whatever other threads do, a destroyer takes at
      most three steps for each path of its snapshot before its last one. */
  lemma {:induction false} SweepEnds(ss: seq<State>, acts: seq<Action>, i: nat, j: nat, tid: Tid)
    requires Run(ss, acts) && i <= j < |ss| && tid in ss[i].destroyers && !ss[i].destroyers[tid].Started?
    requires forall k | i <= k < j :: acts[k] != DestroyerOf(tid, DestroyEnd)
    ensures tid in ss[j].destroyers && !ss[j].destroyers[tid].Started?
    ensures OwnSteps(acts, i, j, tid) + Left(ss[j].destroyers[tid]) <= Left(ss[i].destroyers[tid])
  {
    if i < j {
      SweepEnds(ss, acts, i, j - 1, tid);
      assert StepAt(ss, acts, j - 1);
      if StepOf(acts[j - 1], tid) {
        OwnStepShrinks(ss[j - 1], tid, acts[j - 1].ka);
      } else {
        OthersLeaveDestroyer(ss[j - 1], acts[j - 1], tid);
      }
    }
  }
}
