/**
 A destroyer that no other thread interrupts: what it leaves, and that doing so
 in one go is one of the behaviours of the thread system.
 */
module Alone {
  import opened CString
  import opened Tables
  import opened Threads
  import opened Safety
  import opened Daemon

  /** Unwatching is exact: the index loses the root and what lies below it, with
      their descriptors, and nothing else; every other Root stays as it is. */
  lemma DestroyedIsExact(t: Tables, id: RootId)
    requires id < |t.objs| && Agreement(t.byPath, t.byWd)
    ensures var r, t' := t.objs[id].path, Destroyed(t, id);
            && (forall p :: p in t'.byPath <==> p in t.byPath && !Under(p, r))
            && (forall p | p in t'.byPath :: t'.byPath[p] == t.byPath[p])
            && (forall d :: d in t'.byWd <==>
                  d in t.byWd && !exists p :: p in t.byPath && Under(p, r) && t.byPath[p].wd == d)
            && (forall d | d in t'.byWd :: t'.byWd[d] == t.byWd[d])
            && Agreement(t'.byPath, t'.byWd)
            && t'.roots == t.roots - {r} && t'.numRoots == t.numRoots - 1 && |t'.objs| == |t.objs|
            && t'.objs[id] == t.objs[id].(queue := [], freed := true)
            && (forall i | 0 <= i < |t.objs| && i != id :: t'.objs[i] == t.objs[i])
  {
  }

  // ---- runs of one thread ------------------------------------------------

  ghost predicate RunOf(ss: seq<State>, acts: seq<Action>, tid: Tid) {
    Run(ss, acts) && forall a | a in acts :: a.DestroyerOf? && a.tid == tid
  }

  lemma FirstStep(s: State, a: Action, ss: seq<State>, acts: seq<Action>, tid: Tid)
    requires RunOf(ss, acts, tid) && Enabled(s, a) && ss[0] == Step(s, a) && a.DestroyerOf? && a.tid == tid
    ensures RunOf([s] + ss, [a] + acts, tid)
  {
    var ss', acts' := [s] + ss, [a] + acts;
    forall i | 0 <= i < |acts'| ensures StepAt(ss', acts', i) {
      if i > 0 { assert StepAt(ss, acts, i - 1); }
    }
  }

  lemma LastStep(ss: seq<State>, acts: seq<Action>, a: Action, tid: Tid)
    requires RunOf(ss, acts, tid) && Enabled(ss[|acts|], a) && a.DestroyerOf? && a.tid == tid
    ensures RunOf(ss + [Step(ss[|acts|], a)], acts + [a], tid)
  {
    RunExtends(ss, acts, a);
  }

  /** The paths of a snapshot that a destroyer is to remove. */
  ghost function Doomed(t: Tables, r: Path, keys: seq<Path>): set<Path> {
    set p | p in t.byPath && p in keys && r + "/" <= p
  }

  /** The state once the destroyer is through with its snapshot. */
  ghost function Swept(s: State, tid: Tid): State
    requires tid in s.destroyers && s.destroyers[tid].Sweeping? && s.destroyers[tid].root < |s.t.objs|
  {
    var Sweeping(id, keys) := s.destroyers[tid];
    var gone := Doomed(s.t, s.t.objs[id].path, keys);
    s.(t := s.t.(byPath := s.t.byPath - gone, byWd := s.t.byWd - Wds(s.t, gone)),
       retired := s.retired + Wds(s.t, gone), destroyers := s.destroyers[tid := Sweeping(id, [])])
  }

  /** A key that is passed over was not to be removed. */
  lemma PassedOver(s: State, tid: Tid)
    requires DestroyEnabled(s, tid, DestroyKey) && !NextKey(s, tid).destroyers[tid].Holding?
    ensures Swept(NextKey(s, tid), tid) == Swept(s, tid)
  {
    var Sweeping(id, keys) := s.destroyers[tid];
    assert keys == [keys[0]] + keys[1..];
    assert Doomed(s.t, s.t.objs[id].path, keys) == Doomed(s.t, s.t.objs[id].path, keys[1..]);
  }

  ghost function Unhooked(s: State, tid: Tid): State
    requires DestroyEnabled(s, tid, DestroyUnhook)
  {
    DestroyStep(s, tid, DestroyUnhook)
  }

  lemma FirstDoomed(t: Tables, r: Path, keys: seq<Path>)
    requires keys != [] && r + "/" <= keys[0] && keys[0] in t.byPath
    ensures var gone, t' := Doomed(t, r, keys), Forget(t, keys[0]);
            var rest := Doomed(t', r, keys[1..]);
            && t'.byPath - rest == t.byPath - gone
            && t'.byWd - Wds(t', rest) == t.byWd - Wds(t, gone)
            && Wds(t, gone) == {t.byPath[keys[0]].wd} + Wds(t', rest)
  {
    var t' := Forget(t, keys[0]);
    var rest := Doomed(t', r, keys[1..]);
    assert keys == [keys[0]] + keys[1..];
    assert Doomed(t, r, keys) == rest + {keys[0]};
    OneMoreGone(t, rest, keys[0]);
    assert Wds(t', rest) == Wds(t, rest);
  }

  /** A key that is looked up is unhooked and removed. */
  lemma Removed(s: State, tid: Tid)
    requires DestroyEnabled(s, tid, DestroyKey) && NextKey(s, tid).destroyers[tid].Holding?
    ensures var s2 := Unhooked(NextKey(s, tid), tid);
            var Sweeping(id, keys) := s.destroyers[tid];
            && DestroyEnabled(s2, tid, DestroyRemove)
            && s.t.objs[id].path + "/" <= keys[0] && keys[0] in s.t.byPath
            && RemoveHeld(s2, tid) == s.(t := Forget(s.t, keys[0]), retired := s.retired + {s.t.byPath[keys[0]].wd},
                                         destroyers := s.destroyers[tid := Sweeping(id, keys[1..])])
  {
  }

  lemma RemovedSweeps(s: State, tid: Tid)
    requires DestroyEnabled(s, tid, DestroyKey) && NextKey(s, tid).destroyers[tid].Holding?
    ensures DestroyEnabled(Unhooked(NextKey(s, tid), tid), tid, DestroyRemove)
    ensures Swept(RemoveHeld(Unhooked(NextKey(s, tid), tid), tid), tid) == Swept(s, tid)
  {
    Removed(s, tid);
    FirstDoomed(s.t, s.t.objs[s.destroyers[tid].root].path, s.destroyers[tid].keys);
  }

  /** The destroyer's loop over its snapshot, uninterrupted. */
  lemma {:induction false} SweepAlone(s: State, tid: Tid) returns (ss: seq<State>, acts: seq<Action>)
    requires tid in s.destroyers && s.destroyers[tid].Sweeping? && s.destroyers[tid].root < |s.t.objs|
    ensures RunOf(ss, acts, tid) && ss[0] == s && ss[|acts|] == Swept(s, tid)
    decreases |s.destroyers[tid].keys|
  {
    if s.destroyers[tid].keys == [] {
      ss, acts := [s], [];
      assert Doomed(s.t, s.t.objs[s.destroyers[tid].root].path, []) == {} && Wds(s.t, {}) == {};
    } else {
      var s1 := NextKey(s, tid);
      if s1.destroyers[tid].Holding? {
        RemovedSweeps(s, tid);
        var s2 := Unhooked(s1, tid);
        var s3 := RemoveHeld(s2, tid);
        ss, acts := SweepAlone(s3, tid);
        FirstStep(s2, DestroyerOf(tid, DestroyRemove), ss, acts, tid);
        ss, acts := [s2] + ss, [DestroyerOf(tid, DestroyRemove)] + acts;
        FirstStep(s1, DestroyerOf(tid, DestroyUnhook), ss, acts, tid);
        ss, acts := [s1] + ss, [DestroyerOf(tid, DestroyUnhook)] + acts;
      } else {
        PassedOver(s, tid);
        ss, acts := SweepAlone(s1, tid);
      }
      FirstStep(s, DestroyerOf(tid, DestroyKey), ss, acts, tid);
      ss, acts := [s] + ss, [DestroyerOf(tid, DestroyKey)] + acts;
    }
  }

  /** A destroyer that is left alone from its start to its end does to the tables
      what DestroyRoot does, and gives the same descriptors back to the kernel. */
  lemma DestroyAlone(s: State, tid: Tid, order: seq<Path>) returns (ss: seq<State>, acts: seq<Action>)
    requires DestroyEnabled(s, tid, DestroyBegin(order))
    ensures RunOf(ss, acts, tid) && ss[0] == s
    ensures var id, s' := s.destroyers[tid].root, ss[|acts|];
            && s'.t == Destroyed(s.t, id)
            && s'.retired == s.retired + Wds(s.t, Below(s.t, s.t.objs[id].path))
            && s'.destroyers == s.destroyers - {tid} && s'.walkers == s.walkers && s'.disp == s.disp
  {
    var id := s.destroyers[tid].root;
    var r := s.t.objs[id].path;
    var s1 := BeginDestroy(s, tid, order);
    ss, acts := SweepAlone(s1, tid);
    assert Doomed(s1.t, r, order) == Below(s.t, r) == Below(s1.t, r);
    assert Wds(s1.t, Below(s.t, r)) == Wds(s.t, Below(s.t, r));
    LastStep(ss, acts, DestroyerOf(tid, DestroyEnd), tid);
    ss, acts := ss + [EndDestroy(ss[|acts|], tid)], acts + [DestroyerOf(tid, DestroyEnd)];
    FirstStep(s, DestroyerOf(tid, DestroyBegin(order)), ss, acts, tid);
    ss, acts := [s] + ss, [DestroyerOf(tid, DestroyBegin(order))] + acts;
  }
}
