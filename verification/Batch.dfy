/**
 What a whole buffer of records does, and why handling it record by record is one
 of the runs of the thread system.
 */
module Batch {
  import opened CString
  import opened Tables
  import opened Threads
  import opened Safety
  import opened Owners
  import opened Progress
  import opened Daemon

  // ---- queues ------------------------------------------------------------

  /** The event this record offers to the queue of Root `id`: its directory is
      filed under that root, the handler does not drop it and the root's mask
      selects it. */
  function OfferTo(order: seq<Path>, w: World, rec: Record, id: RootId): seq<Event>
    requires w.t.Indexed()
  {
    if Ignored(rec) then [] else
    match Lookup(w.t, order, rec)
    case None => []
    case Some(Target(path, root)) =>
      if root == id && !Dropped(w.t, rec.mask, path, EventPath(path, rec.name))
         && Intersects(rec.mask, w.t.objs[root].mask)
      then [Node(rec, path)] else []
  }

  function Offers(order: seq<Path>, w: World, recs: seq<Record>, id: RootId): seq<Event>
    requires w.t.Indexed()
    decreases |recs|
  {
    if recs == [] then []
    else OfferTo(order, w, recs[0], id) + Offers(order, HandleOne(order, w, recs[0]), recs[1..], id)
  }

  function Room(r: Root): nat {
    if |r.queue| < r.maxEvents then r.maxEvents - |r.queue| else 0
  }

  /** The longest prefix of `es` with at most `n` events. */
  function UpTo(es: seq<Event>, n: nat): seq<Event> {
    if |es| <= n then es else es[..n]
  }

  /** A Root to whose queue `es` were offered one after the other. */
  function Filled(r: Root, es: seq<Event>): Root {
    r.(queue := r.queue + UpTo(es, Room(r)))
  }

  lemma OneRecordQueue(order: seq<Path>, w: World, rec: Record, id: RootId)
    requires w.t.Indexed() && id < |w.t.objs|
    ensures HandleOne(order, w, rec).t.objs[id] == Filled(w.t.objs[id], OfferTo(order, w, rec, id))
  {
  }

  /** Over a whole buffer each queue gains the longest prefix of the events
      offered to it that fits its capacity; nothing else of a Root changes. */
  lemma {:induction false} BatchQueue(order: seq<Path>, w: World, recs: seq<Record>, id: RootId)
    requires w.t.Indexed() && id < |w.t.objs|
    ensures HandleAll(order, w, recs).t.objs[id] == Filled(w.t.objs[id], Offers(order, w, recs, id))
    decreases |recs|
  {
    var r := w.t.objs[id];
    if recs == [] {
      assert r.queue + [] == r.queue;
    } else {
      var w1 := HandleOne(order, w, recs[0]);
      OneRecordQueue(order, w, recs[0], id);
      BatchQueue(order, w1, recs[1..], id);
      FilledInTurn(r, OfferTo(order, w, recs[0], id), Offers(order, w1, recs[1..], id));
    }
  }

  /** Filling up in two goes is filling up in one. */
  lemma FilledInTurn(r: Root, a: seq<Event>, b: seq<Event>)
    ensures Filled(Filled(r, a), b) == Filled(r, a + b)
  {
    var n := Room(r);
    assert (r.queue + UpTo(a, n)) + UpTo(b, n - |UpTo(a, n)|) == r.queue + UpTo(a + b, n);
  }

  /** Delivery. Where the root lookup can be trusted, a record of an indexed
      directory concerns the one root above that directory and no other: it is
      without any effect if there is none or it is paused or being destroyed, and
      otherwise goes to its queue, selection and room permitting, and starts a
      walker on the directory that appeared. */
  lemma DeliveredToOwner(order: seq<Path>, w: World, rec: Record)
    requires w.t.Indexed() && Antichain(w.t.roots.Keys) && "/" !in w.t.roots && Enumerates(order, w.t.roots.Keys)
    requires !Ignored(rec) && rec.wd in w.t.byWd && Unambiguous(w.t.roots.Keys, w.t.byWd[rec.wd].path)
    ensures var dir := w.t.byWd[rec.wd].path;
            var owner, w' := Owner(w.t.roots, dir), HandleOne(order, w, rec);
            && (forall id | 0 <= id < |w.t.objs| && owner != Some(id) :: w'.t.objs[id] == w.t.objs[id])
            && (owner.None? ==> w' == w)
            && (owner.Some? ==> owner.value < |w.t.objs|)
            && (owner.Some? ==>
                  var r, r', abs := w.t.objs[owner.value], w'.t.objs[owner.value], Child(dir, rec.name);
                  if r.pause || r.destroy || Dropped(w.t, rec.mask, dir, abs) then w' == w
                  else
                    && r' == r.(queue := r.queue + if Intersects(rec.mask, r.mask) && HasRoom(r)
                                                   then [Node(rec, dir)] else [])
                    && w'.walks == w.walks + if Appears(rec.mask) then [Walk(abs, owner.value, false)] else [])
  {
    UnambiguousFindsOwner(w.t.roots, order, w.t.byWd[rec.wd].path);
    OwnerIsIndexed(w.t, w.t.byWd[rec.wd].path);
  }

  lemma OwnerIsIndexed(t: Tables, dir: Path)
    requires t.Indexed() && Antichain(t.roots.Keys) && "/" !in t.roots
    ensures var owner := Owner(t.roots, dir); owner.Some? ==> owner.value < |t.objs| && dir != "/"
  {
  }

  // ---- indexes -----------------------------------------------------------

  /** Handling a buffer keeps the indexes in agreement. */
  lemma {:induction false} BatchAgrees(order: seq<Path>, w: World, recs: seq<Record>)
    requires w.t.Indexed() && Agreement(w.t.byPath, w.t.byWd)
    ensures var t' := HandleAll(order, w, recs).t; Agreement(t'.byPath, t'.byWd)
    decreases |recs|
  {
    if recs != [] {
      OneRecordAgrees(order, w, recs[0]);
      BatchAgrees(order, HandleOne(order, w, recs[0]), recs[1..]);
    }
  }

  lemma OneRecordAgrees(order: seq<Path>, w: World, rec: Record)
    requires w.t.Indexed() && Agreement(w.t.byPath, w.t.byWd)
    ensures var t' := HandleOne(order, w, rec).t; Agreement(t'.byPath, t'.byWd)
  {
    if rec.wd in w.t.byWd {
      var path := w.t.byWd[rec.wd].path;
      ChildAbsolute(path, rec.name);
      PruneAgrees(w.t, rec.mask, EventPath(path, rec.name));
    }
  }

  /** Exact removal on a move: a queued IN_MOVED_FROM record of an indexed
      directory takes out that directory and what lies below it, with their
      descriptors, and nothing else; in particular no sibling whose name merely
      starts the same. */
  lemma MovedSubtreeIsExact(order: seq<Path>, w: World, rec: Record)
    requires w.t.Indexed() && Agreement(w.t.byPath, w.t.byWd)
    requires !Ignored(rec) && Lookup(w.t, order, rec).Some?
    requires Vanishes(rec.mask) && Has(rec.mask, IN_MOVED_FROM)
    requires EventPath(w.t.byWd[rec.wd].path, rec.name) in w.t.byPath
    ensures var abs := EventPath(w.t.byWd[rec.wd].path, rec.name);
            var t' := HandleOne(order, w, rec).t;
            && (forall p :: p in t'.byPath <==> p in w.t.byPath && !Under(p, abs))
            && (forall p | p in t'.byPath :: t'.byPath[p] == w.t.byPath[p])
            && (forall d :: d in t'.byWd <==>
                  d in w.t.byWd && !exists p :: p in w.t.byPath && Under(p, abs) && w.t.byPath[p].wd == d)
            && (forall d | d in t'.byWd :: t'.byWd[d] == w.t.byWd[d])
  {
    var path := w.t.byWd[rec.wd].path;
    var abs := EventPath(path, rec.name);
    ChildAbsolute(path, rec.name);
    PruneIsExact(w.t, rec.mask, abs);
    var gone := Vanished(w.t, rec.mask, abs);
    assert forall p :: p in gone <==> p in w.t.byPath && Under(p, abs);
    forall d ensures d in Wds(w.t, gone) <==> exists p :: p in w.t.byPath && Under(p, abs) && w.t.byPath[p].wd == d {
      if d in Wds(w.t, gone) {
        var p :| p in w.t.byPath && p in gone && w.t.byPath[p].wd == d;
      }
    }
  }

  // ---- steps -------------------------------------------------------------

  /** The dispatcher takes a record through its sections with no one in between. */
  ghost function InOneGo(s: State, rec: Record, order: seq<Path>, walker: Tid): State
    requires s.disp.Idle? && s.t.Indexed()
  {
    var s1 := FindTarget(s, rec, order);
    if !s1.disp.Found? || s1.disp.root >= |s1.t.objs| then s1 else
    var s2 := ActOnEvent(s1, walker);
    if !s2.disp.Queueing? || s2.disp.root >= |s2.t.objs| then s2 else QueueEvent(s2)
  }

  /** Its sections are enabled one after the other. */
  lemma InOneGoSteps(s: State, rec: Record, order: seq<Path>, walker: Tid)
    requires s.disp.Idle? && s.t.Indexed() && Enumerates(order, s.t.roots.Keys) && walker !in s.walkers
    ensures var s1 := FindTarget(s, rec, order);
            && DispatchEnabled(s, EventLookup(rec, order)) && DispatchStep(s, EventLookup(rec, order)) == s1
            && (s1.disp.Found? ==>
                  && DispatchEnabled(s1, EventAct(walker))
                  && var s2 := DispatchStep(s1, EventAct(walker));
                  && (s2.disp.Queueing? ==>
                        && DispatchEnabled(s2, EventQueue)
                        && DispatchStep(s2, EventQueue) == InOneGo(s, rec, order, walker))
                  && (!s2.disp.Queueing? ==> s2 == InOneGo(s, rec, order, walker)))
            && (!s1.disp.Found? ==> s1 == InOneGo(s, rec, order, walker))
  {
    var s1 := FindTarget(s, rec, order);
    if s1.disp.Found? {
      ActOnEventFrame(s1, walker);
    }
  }

  /** Handling a record in one piece has the outcome of the one-record specification. */
  lemma InOneGoIsHandleOne(s: State, rec: Record, order: seq<Path>, walker: Tid)
    requires s.disp.Idle? && s.t.Indexed() && Enumerates(order, s.t.roots.Keys) && walker !in s.walkers
    ensures var s' := InOneGo(s, rec, order, walker);
            var w := HandleOne(order, World(s.t, [], s.retired), rec);
            && s'.t == w.t && s'.retired == w.retired && s'.disp.Idle?
            && s'.walkers == (if w.walks == [] then s.walkers
                              else s.walkers[walker := Walker(w.walks[0].root, false, Begin(w.walks[0].path))])
  {
    var s1 := FindTarget(s, rec, order);
    if s1.disp.Found? {
      FiledInOneGo(s, s1.disp, walker);
    }
  }

  lemma FiledInOneGo(s: State, found: Dispatch, walker: Tid)
    requires s.disp.Idle? && s.t.Indexed() && found.Found? && found.root < |s.t.objs| && !s.t.objs[found.root].destroy
    ensures var s2 := ActOnEvent(s.(disp := found), walker);
            var s' := if !s2.disp.Queueing? || s2.disp.root >= |s2.t.objs| then s2 else QueueEvent(s2);
            var w := FileRecord(World(s.t, [], s.retired), found.rec, found.path, found.root);
            && s'.t == w.t && s'.retired == w.retired && s'.disp.Idle?
            && s'.walkers == (if w.walks == [] then s.walkers
                              else s.walkers[walker := Walker(w.walks[0].root, false, Begin(w.walks[0].path))])
  {
    assert Wds(s.t, {}) == {};
  }

  // ---- whole buffers as runs ---------------------------------------------

  /** The walkers once one has been created for each of `walks` in turn. */
  ghost function Spawn(ws: map<Tid, Walker>, walks: seq<Walk>): map<Tid, Walker>
    decreases |walks|
  {
    if walks == [] then ws
    else Spawn(ws[FreshTid(ws.Keys) := Walker(walks[0].root, false, Begin(walks[0].path))], walks[1..])
  }

  lemma {:induction false} SpawnInTurn(ws: map<Tid, Walker>, a: seq<Walk>, b: seq<Walk>)
    ensures Spawn(ws, a + b) == Spawn(Spawn(ws, a), b)
    decreases |a|
  {
    if a == [] {
      assert a + b == b;
    } else {
      assert (a + b)[1..] == a[1..] + b;
      SpawnInTurn(ws[FreshTid(ws.Keys) := Walker(a[0].root, false, Begin(a[0].path))], a[1..], b);
    }
  }

  lemma SpawnUpTo(ws: map<Tid, Walker>, a: seq<Walk>, b: seq<Walk>, c: seq<Walk>)
    requires a <= b <= c
    ensures Spawn(ws, c[|a|..]) == Spawn(Spawn(ws, b[|a|..]), c[|b|..])
  {
    SpawnInTurn(ws, b[|a|..], c[|b|..]);
    assert c[|a|..] == b[|a|..] + c[|b|..];
  }

  /** The run goes on for at most `n` steps, all of them the dispatcher's. */
  ghost predicate GoesOn(ss: seq<State>, acts: seq<Action>, ss': seq<State>, acts': seq<Action>, n: nat) {
    && Run(ss', acts') && ss <= ss' && acts <= acts' && |acts'| <= |acts| + n
    && forall k | |acts| <= k < |acts'| :: acts'[k].Dispatcher?
  }

  /** What a record does does not depend on the walkers started before. */
  lemma WalksAppend(order: seq<Path>, w: World, rec: Record)
    requires w.t.Indexed()
    ensures var x := HandleOne(order, World(w.t, [], w.retired), rec);
            HandleOne(order, w, rec) == World(x.t, w.walks + x.walks, x.retired) && |x.walks| <= 1
  {
    assert w.walks + [] == w.walks;
  }

  /** The dispatcher takes one record from idle to idle. */
  lemma OneRecordRun(ss: seq<State>, acts: seq<Action>, order: seq<Path>, rec: Record)
    returns (ss': seq<State>, acts': seq<Action>)
    requires Run(ss, acts) && ss[|acts|].disp.Idle? && ss[|acts|].t.Indexed()
    requires Enumerates(order, ss[|acts|].t.roots.Keys)
    ensures GoesOn(ss, acts, ss', acts', 3)
    ensures ss'[|acts'|] == InOneGo(ss[|acts|], rec, order, FreshTid(ss[|acts|].walkers.Keys))
  {
    var s := ss[|acts|];
    var walker := FreshTid(s.walkers.Keys);
    InOneGoSteps(s, rec, order, walker);
    ss', acts' := Extend(ss, acts, EventLookup(rec, order));
    if ss'[|acts'|].disp.Found? {
      ss', acts' := Extend(ss', acts', EventAct(walker));
      if ss'[|acts'|].disp.Queueing? {
        ss', acts' := Extend(ss', acts', EventQueue);
      }
    }
  }

  lemma Extend(ss: seq<State>, acts: seq<Action>, a: DispatchAction) returns (ss': seq<State>, acts': seq<Action>)
    requires Run(ss, acts) && DispatchEnabled(ss[|acts|], a)
    ensures Run(ss', acts') && ss' == ss + [DispatchStep(ss[|acts|], a)] && acts' == acts + [Dispatcher(a)]
  {
    RunExtends(ss, acts, Dispatcher(a));
    ss', acts' := ss + [DispatchStep(ss[|acts|], a)], acts + [Dispatcher(a)];
  }

  /** A state that stands where handling records has come to. */
  ghost predicate At(s: State, order: seq<Path>, w: World) {
    && s.disp.Idle? && s.t == w.t && s.retired == w.retired
    && s.t.Indexed() && Enumerates(order, s.t.roots.Keys)
  }

  lemma OneRecordAt(s: State, order: seq<Path>, w: World, rec: Record)
    requires At(s, order, w)
    ensures var s' := InOneGo(s, rec, order, FreshTid(s.walkers.Keys));
            var w' := HandleOne(order, w, rec);
            && At(s', order, w') && w.walks <= w'.walks
            && s'.walkers == Spawn(s.walkers, w'.walks[|w.walks|..])
  {
    var x := HandleOne(order, World(w.t, [], w.retired), rec);
    InOneGoIsHandleOne(s, rec, order, FreshTid(s.walkers.Keys));
    WalksAppend(order, w, rec);
    assert (w.walks + x.walks)[|w.walks|..] == x.walks;
  }

  lemma {:induction false} RecordsRun(ss: seq<State>, acts: seq<Action>, order: seq<Path>, w: World, recs: seq<Record>)
    returns (ss': seq<State>, acts': seq<Action>)
    requires Run(ss, acts) && At(ss[|acts|], order, w)
    ensures GoesOn(ss, acts, ss', acts', 3 * |recs|)
    ensures var w' := HandleAll(order, w, recs);
            && At(ss'[|acts'|], order, w') && w.walks <= w'.walks
            && ss'[|acts'|].walkers == Spawn(ss[|acts|].walkers, w'.walks[|w.walks|..])
    decreases |recs|
  {
    if recs == [] {
      ss', acts' := ss, acts;
    } else {
      var s := ss[|acts|];
      var w1 := HandleOne(order, w, recs[0]);
      OneRecordAt(s, order, w, recs[0]);
      var ss1, acts1 := OneRecordRun(ss, acts, order, recs[0]);
      ss', acts' := RecordsRun(ss1, acts1, order, w1, recs[1..]);
      GoesOnInTurn(ss, acts, ss1, acts1, ss', acts', 3, 3 * |recs[1..]|);
      SpawnUpTo(s.walkers, w.walks, w1.walks, HandleAll(order, w1, recs[1..]).walks);
    }
  }

  lemma GoesOnInTurn(ss: seq<State>, acts: seq<Action>, ss1: seq<State>, acts1: seq<Action>,
                     ss': seq<State>, acts': seq<Action>, m: nat, n: nat)
    requires GoesOn(ss, acts, ss1, acts1, m) && GoesOn(ss1, acts1, ss', acts', n)
    ensures GoesOn(ss, acts, ss', acts', m + n)
  {
    forall k | |acts| <= k < |acts'| ensures acts'[k].Dispatcher? {
      if k < |acts1| { assert acts'[k] == acts1[k]; }
    }
  }

  /** From any idle state, handling a whole buffer is a run of at most three
      dispatcher steps a record: it ends with the tables, the descriptors given back
      and the walkers that the fold over the records says. */
  lemma BatchIsRun(s: State, order: seq<Path>, recs: seq<Record>) returns (ss: seq<State>, acts: seq<Action>)
    requires s.disp.Idle? && s.t.Indexed() && Enumerates(order, s.t.roots.Keys)
    ensures Run(ss, acts) && ss[0] == s && |acts| <= 3 * |recs| && forall a | a in acts :: a.Dispatcher?
    ensures var s', w := ss[|acts|], HandleAll(order, World(s.t, [], s.retired), recs);
            && s'.disp.Idle? && s'.t == w.t && s'.retired == w.retired
            && s'.walkers == Spawn(s.walkers, w.walks)
  {
    ss, acts := RecordsRun([s], [], order, World(s.t, [], s.retired), recs);
  }
}
