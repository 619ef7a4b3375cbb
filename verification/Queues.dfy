/**
 Event queues over whole runs: first in first out with nothing lost, bounded,
 and silent while a root is paused.
 */
module Queues {
  import opened CString
  import opened Tables
  import opened Threads
  import opened Safety

  // ---- what goes in and what comes out -----------------------------------

  ghost function QueueOf(s: State, id: RootId): seq<Event> {
    if id < |s.t.objs| then s.t.objs[id].queue else []
  }

  /** The event this step puts into the queue of Root `id`: one the root's mask
      selects, at a moment when fewer than max_events are queued. */
  ghost function Accepted(s: State, a: Action, id: RootId): seq<Event> {
    if a == Dispatcher(EventQueue) && s.disp.Queueing? && s.disp.root == id && id < |s.t.objs|
       && Intersects(s.disp.rec.mask, s.t.objs[id].mask) && |s.t.objs[id].queue| < s.t.objs[id].maxEvents
    then [Node(s.disp.rec, s.disp.path)] else []
  }

  /** The events this step hands to a client, or discards on a pause. */
  ghost function Taken(s: State, a: Action, id: RootId): seq<Event> {
    if a == Dispatcher(Take) && s.disp.Reading? && s.disp.root == id && id < |s.t.objs|
    then s.t.objs[id].queue[..Batch(s.t.objs[id], s.disp.count)] else []
  }

  ghost function AcceptedBy(ss: seq<State>, acts: seq<Action>, j: nat, id: RootId): seq<Event>
    requires j <= |acts| < |ss|
  {
    if j == 0 then [] else AcceptedBy(ss, acts, j - 1, id) + Accepted(ss[j - 1], acts[j - 1], id)
  }

  ghost function TakenBy(ss: seq<State>, acts: seq<Action>, j: nat, id: RootId): seq<Event>
    requires j <= |acts| < |ss|
  {
    if j == 0 then [] else TakenBy(ss, acts, j - 1, id) + Taken(ss[j - 1], acts[j - 1], id)
  }

  // ---- conservation ------------------------------------------------------

  lemma TakeConserves(s: State, id: RootId)
    requires s.disp.Reading? && s.disp.root < |s.t.objs|
    ensures QueueOf(s, id) == Taken(s, Dispatcher(Take), id) + QueueOf(TakeEvents(s), id)
  {
  }

  lemma DispatchConserves(s: State, da: DispatchAction, id: RootId)
    requires DispatchEnabled(s, da)
    ensures QueueOf(s, id) + Accepted(s, Dispatcher(da), id)
            == Taken(s, Dispatcher(da), id) + QueueOf(DispatchStep(s, da), id)
  {
    match da
    case Take => TakeConserves(s, id);
    case EventAct(walker) => ActOnEventFrame(s, walker);
    case EventQueue => QueueConserves(s, id);
    case _ => OthersConserve(s, da, id);
  }

  lemma OthersConserve(s: State, da: DispatchAction, id: RootId)
    requires DispatchEnabled(s, da)
    requires !da.Take? && !da.EventAct? && !da.EventQueue?
    ensures QueueOf(DispatchStep(s, da), id) == QueueOf(s, id)
  {
  }

  lemma QueueConserves(s: State, id: RootId)
    requires s.disp.Queueing? && s.disp.root < |s.t.objs|
    ensures QueueOf(s, id) + Accepted(s, Dispatcher(EventQueue), id) == QueueOf(QueueEvent(s), id)
  {
  }

  lemma DestroyConserves(s: State, tid: Tid, ka: DestroyAction, id: RootId)
    requires Dying(s.t.roots, s.t.objs, s.destroyers) && DestroyEnabled(s, tid, ka)
    requires id < |s.t.objs| ==> !s.t.objs[id].destroy
    ensures QueueOf(DestroyStep(s, tid, ka), id) == QueueOf(s, id)
  {
  }

  lemma OnlyDispatcherMoves(s: State, a: Action, id: RootId)
    requires !a.Dispatcher?
    ensures Accepted(s, a, id) == [] && Taken(s, a, id) == []
  {
  }

  /** One step: what was queued and what it adds is what it takes and what stays. */
  lemma StepConserves(s: State, a: Action, id: RootId)
    requires RootInv(s) && Enabled(s, a)
    requires id < |s.t.objs| ==> !s.t.objs[id].destroy
    ensures QueueOf(s, id) + Accepted(s, a, id) == Taken(s, a, id) + QueueOf(Step(s, a), id)
  {
    match a
    case Dispatcher(da) => DispatchConserves(s, da, id);
    case _ =>
      OnlyDispatcherMoves(s, a, id);
      ThreadsConserve(s, a, id);
  }

  lemma ThreadsConserve(s: State, a: Action, id: RootId)
    requires RootInv(s) && Enabled(s, a) && !a.Dispatcher?
    requires id < |s.t.objs| ==> !s.t.objs[id].destroy
    ensures QueueOf(Step(s, a), id) == QueueOf(s, id)
  {
    match a
    case WalkerOf(tid, wa) => WalkFrame(s, tid, wa);
    case CleanerOf(tid, ca) => CleanFrame(s, tid, ca);
    case DestroyerOf(tid, ka) => DestroyConserves(s, tid, ka, id);
  }

  lemma WasUnmarked(ss: seq<State>, acts: seq<Action>, i: nat, id: RootId)
    requires Run(ss, acts) && i + 1 < |ss|
    requires id < |ss[i + 1].t.objs| ==> !ss[i + 1].t.objs[id].destroy
    ensures id < |ss[i].t.objs| ==> !ss[i].t.objs[id].destroy
  {
    MarksStay(ss, acts, i, i + 1);
  }

  /** FIFO conservation: over any run, the events accepted for a Root that is
      not being destroyed are, in order, those handed out or flushed followed by
      those still queued. */
  lemma {:induction false} FifoConservation(ss: seq<State>, acts: seq<Action>, j: nat, id: RootId)
    requires Run(ss, acts) && ss[0] == INIT && j < |ss|
    requires id < |ss[j].t.objs| ==> !ss[j].t.objs[id].destroy
    ensures AcceptedBy(ss, acts, j, id) == TakenBy(ss, acts, j, id) + QueueOf(ss[j], id)
  {
    if j > 0 {
      WasUnmarked(ss, acts, j - 1, id);
      FifoConservation(ss, acts, j - 1, id);
      FifoNext(ss, acts, j - 1, id);
    }
  }

  lemma FifoNext(ss: seq<State>, acts: seq<Action>, i: nat, id: RootId)
    requires Run(ss, acts) && ss[0] == INIT && i < |acts|
    requires id < |ss[i].t.objs| ==> !ss[i].t.objs[id].destroy
    requires AcceptedBy(ss, acts, i, id) == TakenBy(ss, acts, i, id) + QueueOf(ss[i], id)
    ensures AcceptedBy(ss, acts, i + 1, id) == TakenBy(ss, acts, i + 1, id) + QueueOf(ss[i + 1], id)
  {
    FifoStep(ss, acts, i, id);
    Shuffle(AcceptedBy(ss, acts, i, id), TakenBy(ss, acts, i, id), QueueOf(ss[i], id),
            Accepted(ss[i], acts[i], id), Taken(ss[i], acts[i], id), QueueOf(ss[i + 1], id));
  }

  lemma Shuffle<T>(a: seq<T>, t: seq<T>, q: seq<T>, a': seq<T>, t': seq<T>, q': seq<T>)
    requires a == t + q && q + a' == t' + q'
    ensures a + a' == (t + t') + q'
  {
    assert a + a' == t + (q + a');
    assert (t + t') + q' == t + (t' + q');
  }

  lemma FifoStep(ss: seq<State>, acts: seq<Action>, i: nat, id: RootId)
    requires Run(ss, acts) && ss[0] == INIT && i < |acts|
    requires id < |ss[i].t.objs| ==> !ss[i].t.objs[id].destroy
    ensures QueueOf(ss[i], id) + Accepted(ss[i], acts[i], id) == Taken(ss[i], acts[i], id) + QueueOf(ss[i + 1], id)
  {
    InitInv();
    RunKeepsInv(ss, acts, i);
    assert StepAt(ss, acts, i);
    StepConserves(ss[i], acts[i], id);
  }

  // ---- bounds and silence ------------------------------------------------

  ghost predicate Bounded(objs: seq<Root>) {
    forall id | 0 <= id < |objs| :: |objs[id].queue| == 0 || |objs[id].queue| <= objs[id].maxEvents
  }

  /** A paused root that is not being destroyed has an empty queue, except
      between the sections of the pause itself. */
  ghost predicate Silent(objs: seq<Root>, disp: Dispatch) {
    forall id | 0 <= id < |objs| && objs[id].pause && !objs[id].destroy ::
      objs[id].queue == [] || disp == Flushing(objs[id].path) || disp == Reading(id, 0, true)
  }

  ghost predicate QueueInv(s: State) {
    Bounded(s.t.objs) && Silent(s.t.objs, s.disp)
  }

  lemma PauseQueues(s: State, path: Path, pause: bool)
    requires QueueInv(s) && s.t.Indexed() && s.disp.Idle?
    ensures QueueInv(if pause then PauseOn(s, path) else PauseOff(s, path))
  {
  }

  /** Looking a queue up for reading: a flush hands its exemption on to the Root found. */
  lemma FindQueueQueues(s: State, path: Path, count: nat, flush: bool)
    requires QueueInv(s) && s.t.Indexed() && Listed(s.t.roots, s.t.objs)
    requires s.disp.Idle? || (s.disp == Flushing(path) && count == 0 && flush)
    ensures QueueInv(FindQueue(s, path, count, flush))
  {
  }

  lemma TakeKeeps(objs: seq<Root>, id: RootId, count: nat, flush: bool)
    requires Bounded(objs) && Silent(objs, Reading(id, count, flush)) && id < |objs|
    ensures var objs' := objs[id := objs[id].(queue := objs[id].queue[Batch(objs[id], count)..])];
            Bounded(objs') && Silent(objs', Idle)
  {
    var q, n := objs[id].queue, Batch(objs[id], count);
    assert |q[n..]| == |q| - n;
    if objs[id].pause && !objs[id].destroy {
      assert q == [] || (count == 0 && flush);
    }
  }

  /** The flush empties the queue of the one live Root that was exempt. */
  lemma TakeEventsQueues(s: State)
    requires QueueInv(s) && s.disp.Reading? && s.disp.root < |s.t.objs|
    ensures QueueInv(TakeEvents(s))
  {
    TakeKeeps(s.t.objs, s.disp.root, s.disp.count, s.disp.flush);
  }

  lemma QueueEventQueues(s: State)
    requires QueueInv(s) && s.disp.Queueing? && s.disp.root < |s.t.objs| && !s.t.objs[s.disp.root].pause
    ensures QueueInv(QueueEvent(s))
  {
  }

  lemma MarkQueues(s: State, path: Path, tid: Tid)
    requires QueueInv(s) && s.t.Indexed() && s.disp.Idle?
    ensures QueueInv(BeginUnwatch(s, path, tid))
  {
  }

  lemma DispatchQueues(s: State, da: DispatchAction)
    requires Listed(s.t.roots, s.t.objs) && Current(s.disp, s.t.roots, s.t.objs)
    requires QueueInv(s) && DispatchEnabled(s, da)
    ensures QueueInv(DispatchStep(s, da))
  {
    match da
    case WatchCheck(_, _, _, _, _) =>
    case WatchInsert(_, _) =>
    case Unwatch(path, tid) => MarkQueues(s, path, tid);
    case PauseSet(path) => PauseQueues(s, path, true);
    case FlushFind => FindQueueQueues(s, s.disp.path, 0, true);
    case Unpause(path) => PauseQueues(s, path, false);
    case GetFind(path, count) => FindQueueQueues(s, path, count, false);
    case Take => TakeEventsQueues(s);
    case EventLookup(_, _) =>
    case EventAct(walker) => ActOnEventFrame(s, walker);
    case EventQueue => QueueEventQueues(s);
    case Rewatch(_, _) =>
  }

  lemma DestroyQueues(s: State, tid: Tid, ka: DestroyAction)
    requires Dying(s.t.roots, s.t.objs, s.destroyers) && QueueInv(s) && DestroyEnabled(s, tid, ka)
    ensures QueueInv(DestroyStep(s, tid, ka))
  {
  }

  lemma QueueInvKept(s: State, a: Action)
    requires RootInv(s) && QueueInv(s) && Enabled(s, a)
    ensures QueueInv(Step(s, a))
  {
    match a
    case Dispatcher(da) => DispatchQueues(s, da);
    case WalkerOf(tid, wa) => WalkFrame(s, tid, wa);
    case CleanerOf(tid, ca) => CleanFrame(s, tid, ca);
    case DestroyerOf(tid, ka) => DestroyQueues(s, tid, ka);
  }

  lemma QueueInvStep(ss: seq<State>, acts: seq<Action>, i: nat)
    requires Run(ss, acts) && ss[0] == INIT && i < |acts| && QueueInv(ss[i])
    ensures QueueInv(ss[i + 1])
  {
    InitInv();
    RunKeepsInv(ss, acts, i);
    assert StepAt(ss, acts, i);
    QueueInvKept(ss[i], acts[i]);
  }

  /** In every reachable state queues keep within max_events and paused roots
      are silent. */
  lemma {:induction false} QueuesBoundedAndSilent(ss: seq<State>, acts: seq<Action>, i: nat)
    requires Run(ss, acts) && ss[0] == INIT && i < |ss|
    ensures forall id | 0 <= id < |ss[i].t.objs| ::
              |ss[i].t.objs[id].queue| == 0 || |ss[i].t.objs[id].queue| <= ss[i].t.objs[id].maxEvents
    ensures forall id | 0 <= id < |ss[i].t.objs| && ss[i].t.objs[id].pause && !ss[i].t.objs[id].destroy ::
              || ss[i].t.objs[id].queue == []
              || ss[i].disp == Flushing(ss[i].t.objs[id].path) || ss[i].disp == Reading(id, 0, true)
  {
    if i > 0 {
      QueuesBoundedAndSilent(ss, acts, i - 1);
      QueueInvStep(ss, acts, i - 1);
    }
  }

  ghost predicate Muted(r: Root) {
    r.pause && r.queue == []
  }

  lemma DispatchMuted(s: State, da: DispatchAction, id: RootId)
    requires Current(s.disp, s.t.roots, s.t.objs) && DispatchEnabled(s, da) && id < |s.t.objs| && Muted(s.t.objs[id])
    requires da != Unpause(s.t.objs[id].path)
    ensures Muted(DispatchStep(s, da).t.objs[id])
  {
    match da
    case EventAct(walker) => ActOnEventFrame(s, walker);
    case _ =>
  }

  lemma DestroyMuted(s: State, tid: Tid, ka: DestroyAction, id: RootId)
    requires DestroyEnabled(s, tid, ka) && id < |s.t.objs| && Muted(s.t.objs[id])
    ensures var objs' := DestroyStep(s, tid, ka).t.objs; id < |objs'| && Muted(objs'[id])
  {
  }

  lemma StepMuted(s: State, a: Action, id: RootId)
    requires Current(s.disp, s.t.roots, s.t.objs) && Enabled(s, a) && id < |s.t.objs| && Muted(s.t.objs[id])
    requires a != Dispatcher(Unpause(s.t.objs[id].path))
    ensures id < |Step(s, a).t.objs| && Muted(Step(s, a).t.objs[id])
  {
    match a
    case Dispatcher(da) => DispatchMuted(s, da, id);
    case WalkerOf(tid, wa) => WalkFrame(s, tid, wa);
    case CleanerOf(tid, ca) => CleanFrame(s, tid, ca);
    case DestroyerOf(tid, ka) => DestroyMuted(s, tid, ka, id);
  }

  lemma MutedStep(ss: seq<State>, acts: seq<Action>, i: nat, id: RootId)
    requires Run(ss, acts) && ss[0] == INIT && i < |acts|
    requires id < |ss[i].t.objs| && Muted(ss[i].t.objs[id])
    requires acts[i] != Dispatcher(Unpause(ss[i].t.objs[id].path))
    ensures id < |ss[i + 1].t.objs| && Muted(ss[i + 1].t.objs[id])
  {
    InitInv();
    RunKeepsInv(ss, acts, i);
    assert StepAt(ss, acts, i);
    StepMuted(ss[i], acts[i], id);
  }

  /** Pause silence: once paused and flushed, a root queues nothing until it is
      unpaused, whatever records arrive and whatever other threads do. */
  lemma {:induction false} PauseSilence(ss: seq<State>, acts: seq<Action>, i: nat, j: nat, id: RootId)
    requires Run(ss, acts) && ss[0] == INIT && i <= j < |ss|
    requires id < |ss[i].t.objs| && ss[i].t.objs[id].pause && ss[i].t.objs[id].queue == []
    requires forall k | i <= k < j :: acts[k] != Dispatcher(Unpause(ss[i].t.objs[id].path))
    ensures id < |ss[j].t.objs| && ss[j].t.objs[id].pause && ss[j].t.objs[id].queue == []
  {
    if i < j {
      PauseSilence(ss, acts, i, j - 1, id);
      MarksStay(ss, acts, i, j - 1);
      MutedStep(ss, acts, j - 1, id);
    }
  }
}
