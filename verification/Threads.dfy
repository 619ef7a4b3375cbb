/**
 The daemon as a step system. Every `inotify_mutex` critical section is one
 step; the dispatcher, any number of tree walkers, destroyers and memory
 cleaners take steps in any order.
 */
module Threads {
  import opened CString
  import opened Tables

  type Tid = nat

  // ---- thread-local state ------------------------------------------------

  /** The directories a walker has open, innermost first, each with the
      subdirectory names it has yet to read. */
  datatype Stack = Bottom | Open(dir: Path, names: seq<string>, rest: Stack)

  datatype Phase =
    | Begin(start: Path)                  // thread created
    | Visit(path: Path, open: Stack)      // about to enter _do_watch_tree_rec
    | Scan(open: Stack)                   // inside the readdir loop

  datatype Walker = Walker(root: RootId, cleanup: bool, phase: Phase)

  datatype Destroyer =
    | Started(root: RootId)
    | Sweeping(root: RootId, keys: seq<Path>)
      // a watch was looked up; `unhooked` once inotify_rm_watch was called on it
    | Holding(root: RootId, keys: seq<Path>, path: Path, wd: int, unhooked: bool)

  /** Where the single dispatcher thread stands between two critical sections. */
  datatype Dispatch =
    | Idle
    | Admitted(path: Path, mask: Word, maxEvents: int, rewatch: bool)  // watch: checked, not inserted
    | Found(rec: Record, path: Path, root: RootId)                     // event: root found
    | Queueing(rec: Record, path: Path, root: RootId)                  // event: about to queue
    | Flushing(path: Path)                                             // pause: flag set, queue not flushed
    | Reading(root: RootId, count: nat, flush: bool)                   // queue: root found, not dequeued

  /** `retired` are the descriptors inotify_rm_watch was called on. */
  datatype State = State(t: Tables, retired: set<int>, disp: Dispatch, walkers: map<Tid, Walker>,
                         destroyers: map<Tid, Destroyer>, cleaners: map<Tid, seq<Path>>)

  /** What opening a directory and adding an inotify watch to it gives. */
  datatype Hook = Failed | Hooked(wd: int, names: seq<string>)

  datatype DispatchAction =
    | WatchCheck(path: Path, mask: Word, maxEvents: int, rewatch: bool, order: seq<Path>)
    | WatchInsert(opens: bool, walker: Tid)
    | Unwatch(path: Path, destroyer: Tid)
    | PauseSet(path: Path)
    | FlushFind
    | Unpause(path: Path)
    | GetFind(path: Path, count: nat)
    | Take
    | EventLookup(rec: Record, order: seq<Path>)
    | EventAct(walker: Tid)
    | EventQueue
    | Rewatch(root: RootId, walker: Tid)

  datatype WalkAction = WalkBegin | WalkVisit(hook: Hook) | WalkScan | WalkEnd

  datatype DestroyAction =
    DestroyBegin(order: seq<Path>) | DestroyKey | DestroyUnhook | DestroyRemove | DestroyEnd

  datatype CleanAction = CleanBegin(order: seq<Path>) | CleanKey(isDir: bool) | CleanEnd

  /** One step of one thread. */
  datatype Action =
    | Dispatcher(da: DispatchAction)
    | WalkerOf(tid: Tid, wa: WalkAction)
    | DestroyerOf(tid: Tid, ka: DestroyAction)
    | CleanerOf(tid: Tid, ca: CleanAction)

  const INIT: State := State(EMPTY, {}, Idle, map[], map[], map[])

  // ---- walkers -----------------------------------------------------------

  ghost predicate WalkEnabled(s: State, tid: Tid, a: WalkAction) {
    && tid in s.walkers
    && var w := s.walkers[tid];
    && w.root < |s.t.objs|
    && match a
       case WalkBegin => w.phase.Begin?
       // the kernel never hands out a retired descriptor again
       case WalkVisit(hook) => w.phase.Visit? && (hook.Hooked? ==> hook.wd !in s.retired)
       case WalkScan => w.phase.Scan? && w.phase.open.Open?
       case WalkEnd => w.phase == Scan(Bottom)
  }

  /** Does this visit register its directory? (src/inotify.c:1365-1455) */
  predicate Registers(t: Tables, w: Walker, hook: Hook)
    requires w.root < |t.objs| && w.phase.Visit?
  {
    && !TmpTail(w.phase.path)
    && !t.objs[w.root].destroy
    && !(w.cleanup && w.phase.path in t.byPath)
    && hook.Hooked?
    && hook.wd !in t.byWd
  }

  ghost function WalkStep(s: State, tid: Tid, a: WalkAction): State
    requires WalkEnabled(s, tid, a)
  {
    var w := s.walkers[tid];
    var root := s.t.objs[w.root];
    match a
    case WalkBegin =>
      if root.destroy || |w.phase.start| < |root.path| then s.(walkers := s.walkers - {tid})
      else s.(walkers := s.walkers[tid := w.(phase := Visit(w.phase.start, Bottom))])
    case WalkVisit(hook) =>
      var Visit(path, open) := w.phase;
      if Registers(s.t, w, hook) then
        s.(t := AddWatch(s.t, hook.wd, path),
           walkers := s.walkers[tid := w.(phase := Scan(Open(path, hook.names, open)))])
      else s.(walkers := s.walkers[tid := w.(phase := Scan(open))])
    case WalkScan =>
      var Open(dir, names, rest) := w.phase.open;
      if names == [] || root.destroy then s.(walkers := s.walkers[tid := w.(phase := Scan(rest))])
      else s.(walkers := s.walkers[tid := w.(phase := Visit(Child(dir, names[0]), Open(dir, names[1..], rest)))])
    case WalkEnd => s.(walkers := s.walkers - {tid})
  }

  // ---- destroyers --------------------------------------------------------

  ghost predicate DestroyEnabled(s: State, tid: Tid, a: DestroyAction) {
    && tid in s.destroyers
    && var d := s.destroyers[tid];
    && d.root < |s.t.objs|
    && match a
       case DestroyBegin(order) => d.Started? && Enumerates(order, s.t.byPath.Keys)
       case DestroyKey => d.Sweeping? && d.keys != []
       case DestroyUnhook => d.Holding? && !d.unhooked
       case DestroyRemove => d.Holding? && d.unhooked
       case DestroyEnd => d.Sweeping? && d.keys == []
  }

  /** Release the queue and snapshot the path index (src/inotify.c:988-1005). */
  ghost function BeginDestroy(s: State, tid: Tid, order: seq<Path>): State
    requires tid in s.destroyers && s.destroyers[tid].root < |s.t.objs|
  {
    var id := s.destroyers[tid].root;
    s.(t := FreeQueue(s.t, id), destroyers := s.destroyers[tid := Sweeping(id, order)])
  }

  /** Look the next snapshot key up (src/inotify.c:1009-1022). */
  ghost function NextKey(s: State, tid: Tid): State
    requires tid in s.destroyers && s.destroyers[tid].root < |s.t.objs|
    requires s.destroyers[tid].Sweeping? && s.destroyers[tid].keys != []
  {
    var Sweeping(id, keys) := s.destroyers[tid];
    var k := keys[0];
    if s.t.objs[id].path + "/" <= k && k in s.t.byPath then
      s.(destroyers := s.destroyers[tid := Holding(id, keys[1..], k, s.t.byPath[k].wd, false)])
    else s.(destroyers := s.destroyers[tid := Sweeping(id, keys[1..])])
  }

  /** Remove what was looked up (src/inotify.c:1032-1036). */
  ghost function RemoveHeld(s: State, tid: Tid): State
    requires tid in s.destroyers && s.destroyers[tid].Holding?
  {
    var Holding(id, keys, path, wd, _) := s.destroyers[tid];
    s.(t := s.t.(byWd := s.t.byWd - {wd}, byPath := s.t.byPath - {path}),
       destroyers := s.destroyers[tid := Sweeping(id, keys)])
  }

  /** Remove the root's own watch and the root (src/inotify.c:1044-1065). */
  ghost function EndDestroy(s: State, tid: Tid): State
    requires tid in s.destroyers && s.destroyers[tid].root < |s.t.objs|
  {
    var r := s.t.objs[s.destroyers[tid].root].path;
    var t := if r in s.t.byPath then Forget(s.t, r) else s.t;
    s.(t := t.(roots := t.roots - {r}, numRoots := t.numRoots - 1), destroyers := s.destroyers - {tid})
  }

  ghost function DestroyStep(s: State, tid: Tid, a: DestroyAction): State
    requires DestroyEnabled(s, tid, a)
  {
    match a
    case DestroyBegin(order) => BeginDestroy(s, tid, order)
    case DestroyKey => NextKey(s, tid)
    case DestroyUnhook =>
      var d := s.destroyers[tid];
      s.(retired := s.retired + {d.wd}, destroyers := s.destroyers[tid := d.(unhooked := true)])
    case DestroyRemove => RemoveHeld(s, tid)
    case DestroyEnd => EndDestroy(s, tid)
  }

  // ---- memory cleaners ---------------------------------------------------

  ghost predicate CleanEnabled(s: State, tid: Tid, a: CleanAction) {
    match a
    case CleanBegin(order) => tid !in s.cleaners && Enumerates(order, s.t.byPath.Keys)
    case CleanKey(_) => tid in s.cleaners && s.cleaners[tid] != []
    case CleanEnd => tid in s.cleaners && s.cleaners[tid] == []
  }

  ghost function CleanStep(s: State, tid: Tid, a: CleanAction): State
    requires CleanEnabled(s, tid, a)
  {
    match a
    case CleanBegin(order) => s.(cleaners := s.cleaners[tid := order])
    case CleanKey(isDir) =>
      var k := s.cleaners[tid][0];
      var s' := s.(cleaners := s.cleaners[tid := s.cleaners[tid][1..]]);
      if IsAbsolute(k) && !isDir && k in s.t.byPath then
        s'.(t := Forget(s.t, k), retired := s.retired + {s.t.byPath[k].wd})
      else s'
    case CleanEnd => s.(cleaners := s.cleaners - {tid})
  }

  // ---- dispatcher --------------------------------------------------------

  ghost predicate DispatchEnabled(s: State, a: DispatchAction) {
    && s.t.Indexed()
    && match a
       // EVENT_watch lets only absolute paths through (src/zeromq.c:210)
       case WatchCheck(path, _, _, _, order) =>
         s.disp.Idle? && IsAbsolute(path) && Enumerates(order, s.t.roots.Keys)
       case WatchInsert(_, walker) => s.disp.Admitted? && walker !in s.walkers
       case Unwatch(_, destroyer) => s.disp.Idle? && destroyer !in s.destroyers
       case PauseSet(_) => s.disp.Idle?
       case FlushFind => s.disp.Flushing?
       case Unpause(_) => s.disp.Idle?
       case GetFind(_, _) => s.disp.Idle?
       // `inotify_dequeue` reads a released queue otherwise
       case Take => s.disp.Reading? && s.disp.root < |s.t.objs| && !s.t.objs[s.disp.root].freed
       case EventLookup(_, order) => s.disp.Idle? && Enumerates(order, s.t.roots.Keys)
       case EventAct(walker) => s.disp.Found? && s.disp.root < |s.t.objs| && walker !in s.walkers
       case EventQueue => s.disp.Queueing? && s.disp.root < |s.t.objs|
       case Rewatch(root, walker) => s.disp.Idle? && root < |s.t.objs| && walker !in s.walkers
  }

  /** Watch request: the collision checks (src/inotify.c:1153-1209). */
  ghost function CheckWatch(s: State, path: Path, mask: Word, maxEvents: int, rewatch: bool, order: seq<Path>): State
    requires s.t.Indexed()
  {
    var key := WatchKey(path);
    if Refusal(s.t, order, key).Some? then s else s.(disp := Admitted(key, mask, maxEvents, rewatch))
  }

  /** Watch request: the insertion, in a later section (src/inotify.c:1212-1249). */
  ghost function InsertWatch(s: State, opens: bool, walker: Tid): State
    requires s.disp.Admitted?
  {
    var Admitted(path, mask, maxEvents, rewatch) := s.disp;
    if !opens then s.(disp := Idle)
    else s.(t := Insert(s.t, path, mask, maxEvents, rewatch), disp := Idle,
            walkers := s.walkers[walker := Walker(|s.t.objs|, false, Begin(path))])
  }

  /** Unwatch request: mark the root and start its destroyer (src/inotify.c:1128-1139, 959-966). */
  ghost function BeginUnwatch(s: State, path: Path, destroyer: Tid): State
    requires s.t.Indexed()
  {
    if path !in s.t.roots || s.t.objs[s.t.roots[path]].destroy then s
    else s.(t := MarkDestroyed(s.t, s.t.roots[path]),
            destroyers := s.destroyers[destroyer := Started(s.t.roots[path])])
  }

  ghost function PauseOn(s: State, path: Path): State
    requires s.t.Indexed()
  {
    if path !in s.t.roots then s
    else s.(t := SetPause(s.t, s.t.roots[path], true), disp := Flushing(path))
  }

  ghost function PauseOff(s: State, path: Path): State
    requires s.t.Indexed()
  {
    if path !in s.t.roots then s else s.(t := SetPause(s.t, s.t.roots[path], false))
  }

  /** Get events, or the flush of a pause: the root is looked up without the
      lock (src/inotify.c:801). */
  ghost function FindQueue(s: State, path: Path, count: nat, flush: bool): State {
    s.(disp := if path in s.t.roots then Reading(s.t.roots[path], count, flush) else Idle)
  }

  /** The section of `inotify_dequeue` that follows (src/inotify.c:757-790). */
  ghost function TakeEvents(s: State): State
    requires s.disp.Reading? && s.disp.root < |s.t.objs|
  {
    s.(t := Dequeue(s.t, s.disp.root, s.disp.count), disp := Idle)
  }

  ghost function FindTarget(s: State, rec: Record, order: seq<Path>): State
    requires s.t.Indexed()
  {
    if Ignored(rec) then s else
    var target := Lookup(s.t, order, rec);
    if target.None? then s else s.(disp := Found(rec, target.value.path, target.value.root))
  }

  /** Event: follow new directories, prune vanished ones (src/inotify.c:373-536). */
  ghost function ActOnEvent(s: State, walker: Tid): State
    requires s.disp.Found? && s.disp.root < |s.t.objs|
  {
    var Found(rec, path, root) := s.disp;
    var abs := EventPath(path, rec.name);
    if Dropped(s.t, rec.mask, path, abs) || (Appears(rec.mask) && s.t.objs[root].destroy) then s.(disp := Idle)
    else if Appears(rec.mask) then
      s.(walkers := s.walkers[walker := Walker(root, false, Begin(abs))], disp := Queueing(rec, path, root))
    else
      s.(t := Prune(s.t, rec.mask, abs),
         retired := s.retired + Wds(s.t, Vanished(s.t, rec.mask, abs)),
         disp := Queueing(rec, path, root))
  }

  ghost function QueueEvent(s: State): State
    requires s.disp.Queueing? && s.disp.root < |s.t.objs|
  {
    s.(t := Offer(s.t, s.disp.rec, s.disp.path, s.disp.root), disp := Idle)
  }

  /** A periodic rewatch of one root; do_watch_tree refuses a root under destruction. */
  ghost function StartRewatch(s: State, root: RootId, walker: Tid): State
    requires root < |s.t.objs|
  {
    if s.t.objs[root].destroy then s
    else s.(walkers := s.walkers[walker := Walker(root, true, Begin(s.t.objs[root].path))])
  }

  ghost function DispatchStep(s: State, a: DispatchAction): State
    requires DispatchEnabled(s, a)
  {
    match a
    case WatchCheck(path, mask, maxEvents, rewatch, order) => CheckWatch(s, path, mask, maxEvents, rewatch, order)
    case WatchInsert(opens, walker) => InsertWatch(s, opens, walker)
    case Unwatch(path, destroyer) => BeginUnwatch(s, path, destroyer)
    case PauseSet(path) => PauseOn(s, path)
    case FlushFind => FindQueue(s, s.disp.path, 0, true)
    case Unpause(path) => PauseOff(s, path)
    case GetFind(path, count) => FindQueue(s, path, count, false)
    case Take => TakeEvents(s)
    case EventLookup(rec, order) => FindTarget(s, rec, order)
    case EventAct(walker) => ActOnEvent(s, walker)
    case EventQueue => QueueEvent(s)
    case Rewatch(root, walker) => StartRewatch(s, root, walker)
  }

  // ---- runs --------------------------------------------------------------

  ghost predicate Enabled(s: State, a: Action) {
    match a
    case Dispatcher(da) => DispatchEnabled(s, da)
    case WalkerOf(tid, wa) => WalkEnabled(s, tid, wa)
    case DestroyerOf(tid, ka) => DestroyEnabled(s, tid, ka)
    case CleanerOf(tid, ca) => CleanEnabled(s, tid, ca)
  }

  ghost function Step(s: State, a: Action): State
    requires Enabled(s, a)
  {
    match a
    case Dispatcher(da) => DispatchStep(s, da)
    case WalkerOf(tid, wa) => WalkStep(s, tid, wa)
    case DestroyerOf(tid, ka) => DestroyStep(s, tid, ka)
    case CleanerOf(tid, ca) => CleanStep(s, tid, ca)
  }

  ghost predicate StepAt(ss: seq<State>, acts: seq<Action>, i: nat) {
    i < |acts| < |ss| && Enabled(ss[i], acts[i]) && ss[i + 1] == Step(ss[i], acts[i])
  }

  /** `ss` are the states passed through while the threads take `acts` in turn. */
  ghost predicate Run(ss: seq<State>, acts: seq<Action>) {
    |ss| == |acts| + 1 && forall i | 0 <= i < |acts| :: StepAt(ss, acts, i)
  }

  /** A run goes on with any step that is enabled where it stands. */
  lemma RunExtends(ss: seq<State>, acts: seq<Action>, a: Action)
    requires Run(ss, acts) && Enabled(ss[|acts|], a)
    ensures Run(ss + [Step(ss[|acts|], a)], acts + [a])
  {
    var ss', acts' := ss + [Step(ss[|acts|], a)], acts + [a];
    forall i | 0 <= i < |acts'| ensures StepAt(ss', acts', i) {
      if i < |acts| { assert StepAt(ss, acts, i); }
    }
  }
}
