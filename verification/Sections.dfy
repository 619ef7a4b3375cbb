/**
 What each step of each thread does, told by the fields of the state alone.
 */
module Sections {
  import opened CString
  import opened Tables
  import opened Flags
  import opened Threads
  import opened Safety
  import opened Effects

  /** `p` ends in its first `.~tmp~`. */
  predicate Scratch(p: Path) {
    StrStr(p, ".~tmp~") == Some(|p| - 6)
  }

  /** Only the Root `id` is rewritten. */
  ghost function WithRoot(s: State, id: RootId, r: Root): State
    requires id < |s.t.objs|
  {
    s.(t := s.t.(objs := s.t.objs[id := r]))
  }

  // ---- requests ----------------------------------------------------------

  /** A watch is admitted, under its path without a trailing slash, exactly if no root is
      `/`, is that path, or extends it or is extended by it as `strstr` sees it. */
  lemma WatchCheckSays(s: State, path: Path, mask: Word, maxEvents: int, rewatch: bool, order: seq<Path>)
    requires Enabled(s, Dispatcher(WatchCheck(path, mask, maxEvents, rewatch, order)))
    ensures var key := if path != "/" && path[|path| - 1] == '/' then path[..|path| - 1] else path;
            Step(s, Dispatcher(WatchCheck(path, mask, maxEvents, rewatch, order))) ==
              if "/" in s.t.roots
                 || exists k :: k in s.t.roots && (k == key || Occurs(key, k + "/") || Occurs(k, key + "/"))
              then s else s.(disp := Admitted(key, mask, maxEvents, rewatch))
  {
    RefusalIsClear(s.t, order, WatchKey(path));
  }

  /** If the directory opens, a fresh Root enters the table and the count, and a walker
      starts at it; otherwise nothing. */
  lemma WatchInsertSays(s: State, opens: bool, walker: Tid)
    requires Enabled(s, Dispatcher(WatchInsert(opens, walker)))
    ensures var s', n := Step(s, Dispatcher(WatchInsert(opens, walker))), |s.t.objs|;
            && (!opens ==> s' == s.(disp := Idle))
            && (opens ==>
                  && |s'.t.objs| == n + 1 && s'.t.objs[..n] == s.t.objs
                  && (var r := s'.t.objs[n];
                      && r.path == s.disp.path && r.mask == s.disp.mask && r.maxEvents == s.disp.maxEvents
                      && r.rewatch == s.disp.rewatch
                      && r.queue == [] && !r.freed && !r.destroy && !r.pause)
                  && s' == s.(t := s'.t, disp := Idle,
                              walkers := s.walkers[walker := Walker(n, false, Begin(s.disp.path))])
                  && s'.t == s.t.(roots := s.t.roots[s.disp.path := n], objs := s'.t.objs,
                                  numRoots := s.t.numRoots + 1))
  {
  }

  /** Unwatching marks a watched, unmarked Root and starts its destroyer. */
  lemma UnwatchSays(s: State, path: Path, destroyer: Tid)
    requires Enabled(s, Dispatcher(Unwatch(path, destroyer)))
    ensures Step(s, Dispatcher(Unwatch(path, destroyer))) ==
              if path !in s.t.roots || s.t.objs[s.t.roots[path]].destroy then s
              else
                var id := s.t.roots[path];
                WithRoot(s, id, s.t.objs[id].(destroy := true)).(destroyers := s.destroyers[destroyer := Started(id)])
  {
  }

  /** After a pause step the flag of the path's Root is set, after an unpause step it is
      not, and nothing else of any Root changes. */
  lemma PauseSays(s: State, path: Path)
    requires s.t.Indexed() && s.disp.Idle?
    ensures Step(s, Dispatcher(PauseSet(path))) ==
              if path !in s.t.roots then s
              else
                var id := s.t.roots[path];
                WithRoot(s, id, s.t.objs[id].(pause := true)).(disp := Flushing(path))
    ensures Step(s, Dispatcher(Unpause(path))) ==
              if path !in s.t.roots then s
              else
                var id := s.t.roots[path];
                WithRoot(s, id, s.t.objs[id].(pause := false))
  {
  }

  /** A queue is found by its path, for a flush to read it all. */
  lemma FindSays(s: State, path: Path, count: nat)
    requires s.t.Indexed()
    ensures s.disp == Flushing(path) ==>
              Step(s, Dispatcher(FlushFind)) ==
                s.(disp := if path in s.t.roots then Reading(s.t.roots[path], 0, true) else Idle)
    ensures s.disp.Idle? ==>
              Step(s, Dispatcher(GetFind(path, count))) ==
                if path in s.t.roots then s.(disp := Reading(s.t.roots[path], count, false)) else s
  {
  }

  /** And then loses as many events from its front as were asked for, on 0 all. */
  lemma TakeSays(s: State)
    requires Enabled(s, Dispatcher(Take))
    ensures var id, n := s.disp.root, s.disp.count;
            var q := s.t.objs[id].queue;
            var m := if n == 0 || n > |q| then |q| else n;
            Step(s, Dispatcher(Take)) == WithRoot(s, id, s.t.objs[id].(queue := q[m..])).(disp := Idle)
  {
  }

  /** A rewatch starts a cleanup walker at an unmarked root. */
  lemma RewatchSays(s: State, root: RootId, walker: Tid)
    requires Enabled(s, Dispatcher(Rewatch(root, walker)))
    ensures Step(s, Dispatcher(Rewatch(root, walker))) ==
              if s.t.objs[root].destroy then s
              else s.(walkers := s.walkers[walker := Walker(root, true, Begin(s.t.objs[root].path))])
  {
  }

  // ---- events ------------------------------------------------------------

  lemma EventLookupSays(s: State, rec: Record, order: seq<Path>)
    requires Enabled(s, Dispatcher(EventLookup(rec, order)))
    ensures var s' := Step(s, Dispatcher(EventLookup(rec, order)));
            && (forall id | Seen(rec) && FiledUnder(s.t, order, rec, id) ::
                  s' == s.(disp := Found(rec, s.t.byWd[rec.wd].path, id)))
            && ((forall id :: !(Seen(rec) && FiledUnder(s.t, order, rec, id))) ==> s' == s)
  {
    SeenExactly(rec);
    LookupSays(s.t, order, rec);
  }

  /** A directory that comes in gets a walker of the event's root, one that goes out
      leaves the indexes; one that goes out unindexed drops the event. */
  lemma EventActSays(s: State, walker: Tid)
    requires Enabled(s, Dispatcher(EventAct(walker))) && WatchInv(s)
    ensures var s', m := Step(s, Dispatcher(EventAct(walker))), s.disp.rec.mask;
            var abs := Entry(s.disp.path, s.disp.rec.name);
            var next := Queueing(s.disp.rec, s.disp.path, s.disp.root);
            && (ComesIn(m) && s.t.objs[s.disp.root].destroy ==> s' == s.(disp := Idle))
            && (ComesIn(m) && !s.t.objs[s.disp.root].destroy ==>
                  s' == s.(walkers := s.walkers[walker := Walker(s.disp.root, false, Begin(abs))], disp := next))
            && (GoesOut(m) && abs !in s.t.byPath ==> s' == s.(disp := Idle))
            && (GoesOut(m) && abs in s.t.byPath ==>
                  && s' == s.(t := s'.t, retired := s'.retired, disp := next)
                  && s'.t == s.t.(byPath := s'.t.byPath, byWd := s'.t.byWd)
                  && (forall p :: p in s'.t.byPath <==> p in s.t.byPath && !GoesWith(m, abs, p))
                  && (forall p | p in s'.t.byPath :: s'.t.byPath[p] == s.t.byPath[p])
                  && (forall d :: d in s'.retired <==>
                        d in s.retired || exists p :: p in s.t.byPath && GoesWith(m, abs, p) && s.t.byPath[p].wd == d)
                  && (forall d :: d in s'.t.byWd <==>
                        d in s.t.byWd && !exists p :: p in s.t.byPath && GoesWith(m, abs, p) && s.t.byPath[p].wd == d))
            && (!ComesIn(m) && !GoesOut(m) ==> s' == s.(disp := next))
  {
    var rec, path := s.disp.rec, s.disp.path;
    var abs := Entry(path, rec.name);
    assert "/" + "/" == "//";
    assert EventPath(path, rec.name) == abs;
    DirectionExactly(rec.mask);
    ChildAbsolute(path, rec.name);
    PruneIsExact(s.t, rec.mask, abs);
    if GoesOut(rec.mask) && abs in s.t.byPath {
      VanishedSays(s.t, rec.mask, abs);
    } else {
      assert Wds(s.t, {}) == {};
    }
  }

  /** The queue of the event's root gains an event that tells of the record exactly if the
      root asked for one of its digits and has room. */
  lemma EventQueueSays(s: State)
    requires Enabled(s, Dispatcher(EventQueue))
    ensures var id, s' := s.disp.root, Step(s, Dispatcher(EventQueue));
            var r := s.t.objs[id];
            && (!Wanted(r, s.disp.rec) ==> s' == s.(disp := Idle))
            && (Wanted(r, s.disp.rec) ==>
                  exists e :: TellsOf(e, s.disp.rec, s.disp.path)
                              && s' == WithRoot(s, id, r.(queue := r.queue + [e])).(disp := Idle))
  {
    var r := s.t.objs[s.disp.root];
    IntersectsIsCommonBit(s.disp.rec.mask, r.mask);
    if Wanted(r, s.disp.rec) {
      assert TellsOf(Node(s.disp.rec, s.disp.path), s.disp.rec, s.disp.path);
    }
  }

  // ---- walkers -----------------------------------------------------------

  ghost function WithWalker(s: State, tid: Tid, phase: Phase): State
    requires tid in s.walkers
  {
    s.(walkers := s.walkers[tid := s.walkers[tid].(phase := phase)])
  }

  /** A new walker visits its start, unless its root was marked or its start is shorter. */
  lemma WalkBeginSays(s: State, tid: Tid)
    requires Enabled(s, WalkerOf(tid, WalkBegin))
    ensures var w := s.walkers[tid];
            Step(s, WalkerOf(tid, WalkBegin)) ==
              if s.t.objs[w.root].destroy || |w.phase.start| < |s.t.objs[w.root].path|
              then s.(walkers := s.walkers - {tid})
              else WithWalker(s, tid, Visit(w.phase.start, Bottom))
  {
  }

  /** A visit puts the directory under the kernel's descriptor into both indexes and
      opens it, exactly if it is no scratch directory, its root is not marked, it is not
      indexed if this is a cleanup, it could be hooked and its descriptor is not known;
      otherwise the walker turns back. */
  lemma WalkVisitSays(s: State, tid: Tid, hook: Hook)
    requires Enabled(s, WalkerOf(tid, WalkVisit(hook)))
    ensures var w, s' := s.walkers[tid], Step(s, WalkerOf(tid, WalkVisit(hook)));
            var p, open := w.phase.path, w.phase.open;
            if Scratch(p) || s.t.objs[w.root].destroy || (w.cleanup && p in s.t.byPath)
               || hook.Failed? || hook.wd in s.t.byWd
            then s' == WithWalker(s, tid, Scan(open))
            else
              s' == WithWalker(s, tid, Scan(Open(p, hook.names, open))).(
                      t := s.t.(byPath := s.t.byPath[p := Watch(hook.wd, p)],
                                byWd := s.t.byWd[hook.wd := Watch(hook.wd, p)]))
  {
    TmpTailByStrStr(s.walkers[tid].phase.path);
  }

  /** In an open directory the next subdirectory is visited; one with none left, or of a
      marked root, is closed. */
  lemma WalkScanSays(s: State, tid: Tid)
    requires Enabled(s, WalkerOf(tid, WalkScan))
    ensures var w := s.walkers[tid];
            var dir, names, rest := w.phase.open.dir, w.phase.open.names, w.phase.open.rest;
            Step(s, WalkerOf(tid, WalkScan)) ==
              if names == [] || s.t.objs[w.root].destroy then WithWalker(s, tid, Scan(rest))
              else
                var sub := if dir == "/" then "/" + names[0] else dir + "/" + names[0];
                WithWalker(s, tid, Visit(sub, Open(dir, names[1..], rest)))
  {
  }

  lemma WalkEndSays(s: State, tid: Tid)
    requires Enabled(s, WalkerOf(tid, WalkEnd))
    ensures Step(s, WalkerOf(tid, WalkEnd)) == s.(walkers := s.walkers - {tid})
  {
  }

  // ---- destroyers --------------------------------------------------------

  ghost function WithDestroyer(s: State, tid: Tid, d: Destroyer): State {
    s.(destroyers := s.destroyers[tid := d])
  }

  /** A destroyer releases its Root's queue and takes a snapshot of the indexed paths. */
  lemma DestroyBeginSays(s: State, tid: Tid, order: seq<Path>)
    requires Enabled(s, DestroyerOf(tid, DestroyBegin(order)))
    ensures var id := s.destroyers[tid].root;
            && Enumerates(order, s.t.byPath.Keys)
            && Step(s, DestroyerOf(tid, DestroyBegin(order))) ==
               WithDestroyer(WithRoot(s, id, s.t.objs[id].(queue := [], freed := true)), tid, Sweeping(id, order))
  {
  }

  /** It looks up the keys below its root, gives their descriptors back and removes them. */
  lemma DestroySweepSays(s: State, tid: Tid, ka: DestroyAction)
    requires Enabled(s, DestroyerOf(tid, ka)) && (ka.DestroyKey? || ka.DestroyUnhook? || ka.DestroyRemove?)
    ensures var d, s' := s.destroyers[tid], Step(s, DestroyerOf(tid, ka));
            match d
            case Sweeping(id, keys) =>
              var k := keys[0];
              s' == WithDestroyer(s, tid, if s.t.objs[id].path + "/" <= k && k in s.t.byPath
                                          then Holding(id, keys[1..], k, s.t.byPath[k].wd, false)
                                          else Sweeping(id, keys[1..]))
            case Holding(id, keys, path, wd, unhooked) =>
              s' == if !unhooked
                    then WithDestroyer(s.(retired := s.retired + {wd}), tid, Holding(id, keys, path, wd, true))
                    else WithDestroyer(s.(t := s.t.(byPath := s.t.byPath - {path}, byWd := s.t.byWd - {wd})),
                                       tid, Sweeping(id, keys))
            case Started(_) => false
  {
  }

  /** At its end the root's own watch, without being given back, and the root go. */
  lemma DestroyEndSays(s: State, tid: Tid)
    requires Enabled(s, DestroyerOf(tid, DestroyEnd))
    ensures var r, s' := s.t.objs[s.destroyers[tid].root].path, Step(s, DestroyerOf(tid, DestroyEnd));
            && s' == s.(t := s'.t, destroyers := s.destroyers - {tid})
            && s'.t == s.t.(roots := s.t.roots - {r}, numRoots := s.t.numRoots - 1, byPath := s.t.byPath - {r},
                            byWd := if r in s.t.byPath then s.t.byWd - {s.t.byPath[r].wd} else s.t.byWd)
  {
    var r := s.t.objs[s.destroyers[tid].root].path;
    if r !in s.t.byPath { assert s.t.byPath - {r} == s.t.byPath; }
  }

  // ---- cleaners ----------------------------------------------------------

  /** A cleaner takes a snapshot, and of its keys those that are absolute, indexed and no
      directory leave the indexes, their descriptors being given back. */
  lemma CleanSays(s: State, tid: Tid, ca: CleanAction)
    requires Enabled(s, CleanerOf(tid, ca))
    ensures var s' := Step(s, CleanerOf(tid, ca));
            match ca
            case CleanBegin(order) =>
              Enumerates(order, s.t.byPath.Keys) && s' == s.(cleaners := s.cleaners[tid := order])
            case CleanEnd => s' == s.(cleaners := s.cleaners - {tid})
            case CleanKey(isDir) =>
              var k := s.cleaners[tid][0];
              var s1 := s.(cleaners := s.cleaners[tid := s.cleaners[tid][1..]]);
              s' == if k != "" && k[0] == '/' && !isDir && k in s.t.byPath
                    then s1.(t := s.t.(byPath := s.t.byPath - {k}, byWd := s.t.byWd - {s.t.byPath[k].wd}),
                             retired := s.retired + {s.t.byPath[k].wd})
                    else s1
  {
  }
}
